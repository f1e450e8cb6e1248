/**
 * The favicon controller of the CMS
 * (backend/src/api/favicon-settings/controllers/favicon-settings.ts).
 *
 * `upload` takes a zip archive, writes the allowed favicon files it holds into the public
 * favicon directory under their base names, and records the list in the single
 * favicon-settings row, updating it when it exists and creating it otherwise. `find`
 * returns that row together with the regular files the directory holds.
 *
 * The directory and the settings table are the fields of `FaviconStore`. The archive's
 * entries (or `None` when it cannot be read), the step of the extraction that throws, if
 * any, the directory listing `find` reads and the upload time are inputs.
 */
module FaviconSettings {
  import opened Wrappers
  import opened Text
  import opened FaviconFiles

  datatype ZipEntry = ZipEntry(entryName: string, isDirectory: bool, data: seq<bv8>)

  /** An uploaded file: its MIME type, its original name and what the zip library reads
      from it */
  datatype UploadedFile = UploadedFile(mimeType: string, name: string, archive: Option<seq<ZipEntry>>)

  /** `ctx.request.files.file`: absent, one file, or an array of files */
  datatype Upload = NoFile | One(file: UploadedFile) | Several(files: seq<UploadedFile>)

  datatype Settings = Settings(id: nat, files: seq<string>, uploadedAt: string)

  datatype UploadResponse =
    | BadRequest(message: string)
    | ServerError(message: string)
    | Uploaded(message: string, extractedFiles: seq<string>, settings: Settings)

  /** The step of the extraction that throws, if any: the write of archive entry `k`, or
      the settings query or upsert */
  datatype Failure = NoFailure | WriteFails(k: nat) | DatabaseFails

  datatype EntryKind = RegularFile | Directory | StatFails

  datatype DirEntry = DirEntry(name: string, kind: EntryKind)

  datatype FindResponse =
    | NoSettings(message: string)                            // `data: null`
    | FindFailed(message: string)                            // `internalServerError`
    | Found(settings: Settings, availableFiles: seq<string>)

  /** The end of `p[..j]` once trailing `/` are dropped */
  function StripSlashes(p: string, j: nat): (e: nat)
    requires j <= |p|
    ensures e <= j
    ensures forall k :: e <= k < j ==> p[k] == '/'
    ensures e > 0 ==> p[e - 1] != '/'
    decreases j
  {
    if j == 0 || p[j - 1] != '/' then j else StripSlashes(p, j - 1)
  }

  /** The start of the last segment of `p[..j]` */
  function SegmentStart(p: string, j: nat): (s: nat)
    requires j <= |p|
    ensures s <= j
    ensures forall k :: s <= k < j ==> p[k] != '/'
    ensures s > 0 ==> p[s - 1] == '/'
    decreases j
  {
    if j == 0 || p[j - 1] == '/' then j else SegmentStart(p, j - 1)
  }

  /** POSIX `path.basename`: the last segment, trailing slashes ignored */
  function Basename(p: string): (b: string)
    ensures '/' !in b
  {
    var e := StripSlashes(p, |p|);
    var s := SegmentStart(p, e);
    assert forall k :: 0 <= k < e - s ==> p[s..e][k] == p[s + k];
    p[s..e]
  }

  /** A name without `/`, after any directories, is its base name */
  lemma BasenameOfNested(dir: string, name: string)
    requires name != [] && '/' !in name
    requires dir == [] || dir[|dir| - 1] == '/'
    ensures Basename(dir + name) == name
  {
    var p := dir + name;
    assert p[|p| - 1] == name[|name| - 1];
    assert StripSlashes(p, |p|) == |p|;
    forall k | |dir| <= k < |p| ensures p[k] != '/' {
      assert p[k] == name[k - |dir|];
    }
    if dir == [] {
      assert SegmentStart(p, |p|) == 0 by { SegmentStartIs(p, |p|, 0); }
    } else {
      assert SegmentStart(p, |p|) == |dir| by { SegmentStartIs(p, |p|, |dir|); }
      assert p[|dir|..] == name;
    }
  }

  lemma SegmentStartIs(p: string, j: nat, s: nat)
    requires s <= j <= |p|
    requires forall k :: s <= k < j ==> p[k] != '/'
    requires s == 0 || p[s - 1] == '/'
    ensures SegmentStart(p, j) == s
    decreases j
  {
  }

  /** The upload check: a zip MIME type or a name ending in `.zip` */
  predicate IsZip(f: UploadedFile) {
    f.mimeType == "application/zip" || EndsWith(f.name, ".zip")
  }

  /** The file the controller looks at: the only one, or the first of an array */
  function ChosenFile(u: Upload): (f: Option<UploadedFile>)
    ensures u.One? ==> f == Some(u.file)
    ensures u.Several? && u.files != [] ==> f == Some(u.files[0])
    ensures f.None? <==> u.NoFile? || (u.Several? && u.files == [])
  {
    match u
    case NoFile => None
    case One(f) => Some(f)
    case Several(fs) => if fs == [] then None else Some(fs[0])
  }

  /** An entry is written when it is not a directory and its base name is allowed */
  predicate Extractable(e: ZipEntry) {
    Basename(e.entryName) in AllowedFiles && !e.isDirectory
  }

  /** The write of an entry of the archive throws, and that entry is one that is written */
  predicate WriteFailsOn(failure: Failure, entries: seq<ZipEntry>) {
    failure.WriteFails? && failure.k < |entries| && Extractable(entries[failure.k])
  }

  /** The base names of the extractable entries, in archive order */
  function Extracted(entries: seq<ZipEntry>): (names: seq<string>)
    ensures |names| <= |entries|
  {
    if entries == [] then []
    else
      var e := entries[|entries| - 1];
      Extracted(entries[..|entries| - 1]) + (if Extractable(e) then [Basename(e.entryName)] else [])
  }

  /** The directory after the extractable entries are written in order, later entries
      overwriting earlier ones of the same base name */
  function Written(dir: map<string, seq<bv8>>, entries: seq<ZipEntry>): map<string, seq<bv8>>
  {
    if entries == [] then dir
    else
      var e := entries[|entries| - 1];
      var before := Written(dir, entries[..|entries| - 1]);
      if Extractable(e) then before[Basename(e.entryName) := e.data] else before
  }

  /** The settings row after the upsert: the existing row keeps its id */
  function Upserted(existing: Option<Settings>, newId: nat, files: seq<string>, now: string): (s: Settings)
    ensures s.files == files && s.uploadedAt == now
    ensures existing.Some? ==> s.id == existing.value.id
    ensures existing.None? ==> s.id == newId
  {
    match existing
    case Some(row) => Settings(row.id, files, now)
    case None => Settings(newId, files, now)
  }

  /** The regular files of a listing, in order, up to the first entry that cannot be
      inspected (the loop stops there and keeps what it has) */
  function Available(listing: seq<DirEntry>): seq<string>
  {
    if listing == [] then []
    else
      var e := listing[0];
      match e.kind
      case StatFails => []
      case RegularFile => [e.name] + Available(listing[1..])
      case Directory => Available(listing[1..])
  }

  class FaviconStore {
    /** The public favicon directory: file name to contents */
    var directory: map<string, seq<bv8>>
    /** The single favicon-settings row, if any */
    var settings: Option<Settings>
    /** The id the database gives the next row it creates */
    var nextId: nat

    constructor()
      ensures directory == map[] && settings == None && nextId == 1
    {
      directory := map[];
      settings := None;
      nextId := 1;
    }

    /** `upload` */
    method Upload(upload: Upload, now: string, failure: Failure) returns (r: UploadResponse)
      modifies this
      ensures upload.NoFile? ==> r == BadRequest("No file uploaded") && unchanged(this)
      ensures upload == Several([]) ==> r == ServerError("Failed to upload favicon files") && unchanged(this)
      ensures (ChosenFile(upload).Some? && !IsZip(ChosenFile(upload).value))
                ==> r == BadRequest("File must be a zip archive") && unchanged(this)
      ensures (ChosenFile(upload).Some? && IsZip(ChosenFile(upload).value) && ChosenFile(upload).value.archive.None?)
                ==> r == BadRequest("Invalid zip file or extraction failed") && unchanged(this)
      ensures (ChosenFile(upload).Some? && IsZip(ChosenFile(upload).value) && ChosenFile(upload).value.archive.Some?
               && WriteFailsOn(failure, ChosenFile(upload).value.archive.value))
                ==> var entries := ChosenFile(upload).value.archive.value;
                    && directory == Written(old(directory), entries[..failure.k])
                    && settings == old(settings) && nextId == old(nextId)
                    && r == BadRequest("Invalid zip file or extraction failed")
      ensures (ChosenFile(upload).Some? && IsZip(ChosenFile(upload).value) && ChosenFile(upload).value.archive.Some?
               && !WriteFailsOn(failure, ChosenFile(upload).value.archive.value) && failure.DatabaseFails?)
                ==> var entries := ChosenFile(upload).value.archive.value;
                    && directory == Written(old(directory), entries)
                    && settings == old(settings) && nextId == old(nextId)
                    && r == BadRequest("Invalid zip file or extraction failed")
      ensures (ChosenFile(upload).Some? && IsZip(ChosenFile(upload).value) && ChosenFile(upload).value.archive.Some?
               && !WriteFailsOn(failure, ChosenFile(upload).value.archive.value) && !failure.DatabaseFails?)
                ==> var entries := ChosenFile(upload).value.archive.value;
                    && directory == Written(old(directory), entries)
                    && settings == Some(Upserted(old(settings), old(nextId), Extracted(entries), now))
                    && nextId == (if old(settings).Some? then old(nextId) else old(nextId) + 1)
                    && r == Uploaded("Favicon files uploaded successfully", Extracted(entries), settings.value)
    {
      var chosen := ChosenFile(upload);
      if upload.NoFile? {
        return BadRequest("No file uploaded");
      }
      if chosen.None? {
        return ServerError("Failed to upload favicon files");
      }
      var file := chosen.value;
      if !IsZip(file) {
        return BadRequest("File must be a zip archive");
      }
      if file.archive.None? {
        return BadRequest("Invalid zip file or extraction failed");
      }
      var entries := file.archive.value;
      var written, extracted := ExtractEntries(entries, failure);
      if !written {
        return BadRequest("Invalid zip file or extraction failed");
      }
      if failure.DatabaseFails? {
        return BadRequest("Invalid zip file or extraction failed");
      }
      if settings.Some? {
        settings := Some(Settings(settings.value.id, extracted, now));
      } else {
        settings := Some(Settings(nextId, extracted, now));
        nextId := nextId + 1;
      }
      r := Uploaded("Favicon files uploaded successfully", extracted, settings.value);
    }

    /** The extraction loop: each allowed file entry is written under its base name, until
        a write throws */
    method ExtractEntries(entries: seq<ZipEntry>, failure: Failure) returns (written: bool, extracted: seq<string>)
      modifies this
      ensures settings == old(settings) && nextId == old(nextId)
      ensures written <==> !WriteFailsOn(failure, entries)
      ensures written ==> directory == Written(old(directory), entries) && extracted == Extracted(entries)
      ensures !written ==> directory == Written(old(directory), entries[..failure.k])
    {
      extracted := [];
      for i := 0 to |entries|
        invariant extracted == Extracted(entries[..i])
        invariant directory == Written(old(directory), entries[..i])
        invariant settings == old(settings) && nextId == old(nextId)
        invariant !(failure.WriteFails? && failure.k < i && Extractable(entries[failure.k]))
      {
        assert entries[..i + 1][..i] == entries[..i];
        var name := Basename(entries[i].entryName);
        if name in AllowedFiles && !entries[i].isDirectory {
          if failure == WriteFails(i) {
            return false, extracted;
          }
          directory := directory[name := entries[i].data];
          extracted := extracted + [name];
        }
      }
      assert entries[..|entries|] == entries;
      written := true;
    }

    /** `find`, given whether the settings query throws and what reading the directory
        gives (`None` when it cannot be read) */
    method Find(queryThrows: bool, listing: Option<seq<DirEntry>>) returns (r: FindResponse)
      ensures queryThrows ==> r == FindFailed("Failed to fetch favicon settings")
      ensures !queryThrows && settings.None? ==> r == NoSettings("No favicon settings found")
      ensures !queryThrows && settings.Some? && listing.None? ==> r == Found(settings.value, [])
      ensures !queryThrows && settings.Some? && listing.Some? ==> r == Found(settings.value, Available(listing.value))
    {
      if queryThrows {
        return FindFailed("Failed to fetch favicon settings");
      }
      if settings.None? {
        return NoSettings("No favicon settings found");
      }
      var available: seq<string> := [];
      if listing.Some? {
        var files := listing.value;
        var i := 0;
        while i < |files| && !files[i].kind.StatFails?
          invariant 0 <= i <= |files|
          invariant available + Available(files[i..]) == Available(files)
        {
          assert files[i..][1..] == files[i + 1..];
          if files[i].kind.RegularFile? {
            available := available + [files[i].name];
          }
          i := i + 1;
        }
        if i < |files| {
          assert Available(files[i..]) == [];
        }
        assert available == Available(files);
      }
      r := Found(settings.value, available);
    }
  }

  /** Only allowed names are ever extracted */
  lemma {:induction false} ExtractedAllowed(entries: seq<ZipEntry>)
    ensures forall x :: x in Extracted(entries) ==> x in AllowedFiles
    decreases |entries|
  {
    if entries != [] {
      ExtractedAllowed(entries[..|entries| - 1]);
    }
  }

  /** Entry `e` is extracted under the name `x` */
  predicate Yields(e: ZipEntry, x: string) {
    Extractable(e) && Basename(e.entryName) == x
  }

  /** A name is extracted exactly when some file entry of the archive, at any depth, has
      it as its base name and it is allowed */
  lemma ExtractedMembers(entries: seq<ZipEntry>, x: string)
    ensures x in Extracted(entries) <==> exists i :: 0 <= i < |entries| && Yields(entries[i], x)
  {
    if x in Extracted(entries) {
      ExtractedFromSomeEntry(entries, x);
    }
    if exists i :: 0 <= i < |entries| && Yields(entries[i], x) {
      var i :| 0 <= i < |entries| && Yields(entries[i], x);
      EntryExtracted(entries, i, x);
    }
  }

  lemma {:induction false} ExtractedFromSomeEntry(entries: seq<ZipEntry>, x: string)
    requires x in Extracted(entries)
    ensures exists i :: 0 <= i < |entries| && Yields(entries[i], x)
    decreases |entries|
  {
    var n := |entries|;
    var front := entries[..n - 1];
    if x in Extracted(front) {
      ExtractedFromSomeEntry(front, x);
      var i :| 0 <= i < n - 1 && Yields(front[i], x);
      assert entries[i] == front[i];
    } else {
      assert Yields(entries[n - 1], x);
    }
  }

  lemma {:induction false} EntryExtracted(entries: seq<ZipEntry>, i: nat, x: string)
    requires i < |entries| && Yields(entries[i], x)
    ensures x in Extracted(entries)
    decreases |entries|
  {
    var n := |entries|;
    if i < n - 1 {
      assert entries[..n - 1][i] == entries[i];
      EntryExtracted(entries[..n - 1], i, x);
    }
  }

  /** The upload adds to the directory exactly the extracted names: no write lands
      anywhere but a plain allowed name directly inside it */
  lemma {:induction false} WrittenKeys(dir: map<string, seq<bv8>>, entries: seq<ZipEntry>)
    ensures Written(dir, entries).Keys == dir.Keys + set x | x in Extracted(entries)
    decreases |entries|
  {
    if entries != [] {
      WrittenKeys(dir, entries[..|entries| - 1]);
    }
  }

  /** The directory after an upload holds only what it held before and allowed names */
  lemma UploadStaysInDirectory(dir: map<string, seq<bv8>>, entries: seq<ZipEntry>)
    ensures forall x :: x in Written(dir, entries) && x !in dir ==> x in AllowedFiles && PlainName(x)
  {
    WrittenKeys(dir, entries);
    ExtractedAllowed(entries);
    AllowedArePlainNames();
  }

  /** An allowed file nested in folders of the archive is still extracted under its name */
  lemma NestedEntryExtracted(folder: string, name: string, data: seq<bv8>)
    requires name in AllowedFiles
    ensures Extracted([ZipEntry(folder + "/" + name, false, data)]) == [name]
  {
    AllowedArePlainNames();
    BasenameOfNested(folder + "/", name);
    assert [ZipEntry(folder + "/" + name, false, data)][..0] == [];
    assert folder + "/" + name == (folder + "/") + name;
  }

  /** The name check is case-sensitive: an archive named `ICONS.ZIP` is refused unless its
      type says zip */
  lemma ZipCheckIsCaseSensitive(data: Option<seq<ZipEntry>>)
    ensures !IsZip(UploadedFile("application/octet-stream", "ICONS.ZIP", data))
    ensures IsZip(UploadedFile("application/octet-stream", "icons.zip", data))
  {
    assert "ICONS.ZIP"[5..] != ".zip" by { assert "ICONS.ZIP"[5..][1] == 'Z'; }
    assert "icons.zip"[5..] == ".zip";
  }

  /** `find` lists every regular file when each can be inspected, and nothing else */
  lemma {:induction false} AvailableMembers(listing: seq<DirEntry>, x: string)
    requires forall i :: 0 <= i < |listing| ==> !listing[i].kind.StatFails?
    ensures x in Available(listing) <==>
            exists i :: 0 <= i < |listing| && listing[i].kind.RegularFile? && listing[i].name == x
    decreases |listing|
  {
    if listing != [] {
      var rest := listing[1..];
      AvailableMembers(rest, x);
      if exists i :: 0 <= i < |listing| && listing[i].kind.RegularFile? && listing[i].name == x {
        var i :| 0 <= i < |listing| && listing[i].kind.RegularFile? && listing[i].name == x;
        if i > 0 {
          assert rest[i - 1] == listing[i];
        }
      }
      if x in Available(rest) {
        var i :| 0 <= i < |rest| && rest[i].kind.RegularFile? && rest[i].name == x;
        assert listing[i + 1] == rest[i];
      }
    }
  }
}

/**
 * The favicon helpers of the frontend (frontend/lib/favicons.ts): the list of favicon
 * files the CMS reports, the icon metadata of the pages built from it, and the plain
 * URLs of the same files.
 *
 * The CMS's answer is an input; the CMS base URL is a parameter.
 */
module Favicons {
  import opened Wrappers
  import FaviconRoute

  /** `data` of the CMS's favicon-settings answer */
  datatype SettingsData = SettingsData(files: Option<seq<string>>, availableFiles: Option<seq<string>>)

  datatype SettingsFetch =
    | NotOk
    | Threw
    | Json(data: Option<SettingsData>)   // `None` for `data: null`

  /** `getFaviconSettings`: the files found on disk, else the files recorded, else none.
      An array is truthy even when empty, so an empty `availableFiles` is used as it is. */
  function FileList(answer: SettingsFetch): (files: seq<string>)
    ensures answer.NotOk? || answer.Threw? || answer == Json(None) ==> files == []
    ensures (answer.Json? && answer.data.Some? && answer.data.value.availableFiles.Some?)
              ==> files == answer.data.value.availableFiles.value
    ensures (answer.Json? && answer.data.Some? && answer.data.value.availableFiles.None? && answer.data.value.files.Some?)
              ==> files == answer.data.value.files.value
    ensures (answer.Json? && answer.data.Some? && answer.data.value.availableFiles.None? && answer.data.value.files.None?)
              ==> files == []
  {
    match answer
    case Json(Some(d)) =>
      if d.availableFiles.Some? then d.availableFiles.value
      else if d.files.Some? then d.files.value
      else []
    case _ => []
  }

  /** One icon entry of the metadata; absent fields are `None` */
  datatype Icon = Icon(url: string, sizes: Option<string>, mimeType: Option<string>, rel: Option<string>)

  datatype Icons = Icons(icon: seq<Icon>, apple: seq<Icon>, other: seq<Icon>)

  /** Where the frontend points for a favicon file */
  function FileUrl(base: string, name: string): string {
    base + "/favicons/" + name
  }

  /** The standard icons, in the order the metadata lists them */
  const StandardIcons: seq<string> := ["favicon.ico", "favicon.svg", "favicon-96x96.png"]

  /** The metadata entry of each of the five files that have one */
  function IconFor(base: string, name: string): (i: Icon)
    ensures i.url == FileUrl(base, name)
  {
    var url := FileUrl(base, name);
    if name == "favicon.ico" then Icon(url, None, Some("image/x-icon"), None)
    else if name == "favicon.svg" then Icon(url, None, Some("image/svg+xml"), None)
    else if name == "favicon-96x96.png" then Icon(url, Some("96x96"), Some("image/png"), None)
    else if name == "apple-touch-icon.png" then Icon(url, Some("180x180"), Some("image/png"), None)
    else Icon(url, None, None, Some("manifest"))
  }

  /** The entries of those `names` that are in `files`, in the order of `names` */
  function Listed(base: string, names: seq<string>, files: seq<string>): (icons: seq<Icon>)
    ensures |icons| <= |names|
  {
    if names == [] then []
    else
      var last := names[|names| - 1];
      Listed(base, names[..|names| - 1], files) + (if last in files then [IconFor(base, last)] else [])
  }

  /** The icons of `generateFaviconMetadata` for a list of files */
  function FaviconIcons(base: string, files: seq<string>): (icons: Icons)
    ensures icons.icon == Listed(base, StandardIcons, files)
    ensures icons.apple == Listed(base, ["apple-touch-icon.png"], files)
    ensures icons.other == Listed(base, ["site.webmanifest"], files)
  {
    Icons(Listed(base, StandardIcons, files), Listed(base, ["apple-touch-icon.png"], files),
          Listed(base, ["site.webmanifest"], files))
  }

  /** `generateFaviconMetadata`: one `push` per file that is listed */
  method GenerateFaviconMetadata(base: string, files: seq<string>) returns (icons: Icons)
    ensures icons == FaviconIcons(base, files)
  {
    var icon: seq<Icon> := [];
    var apple: seq<Icon> := [];
    var other: seq<Icon> := [];
    if "favicon.ico" in files {
      icon := icon + [Icon(FileUrl(base, "favicon.ico"), None, Some("image/x-icon"), None)];
    }
    if "favicon.svg" in files {
      icon := icon + [Icon(FileUrl(base, "favicon.svg"), None, Some("image/svg+xml"), None)];
    }
    if "favicon-96x96.png" in files {
      icon := icon + [Icon(FileUrl(base, "favicon-96x96.png"), Some("96x96"), Some("image/png"), None)];
    }
    if "apple-touch-icon.png" in files {
      apple := apple + [Icon(FileUrl(base, "apple-touch-icon.png"), Some("180x180"), Some("image/png"), None)];
    }
    if "site.webmanifest" in files {
      other := other + [Icon(FileUrl(base, "site.webmanifest"), None, None, Some("manifest"))];
    }
    StandardIconsListed(base, files);
    icons := Icons(icon, apple, other);
  }

  /** The standard icons written out: each present exactly when its file is listed */
  lemma StandardIconsListed(base: string, files: seq<string>)
    ensures Listed(base, StandardIcons, files)
            == (if "favicon.ico" in files then [IconFor(base, "favicon.ico")] else [])
             + (if "favicon.svg" in files then [IconFor(base, "favicon.svg")] else [])
             + (if "favicon-96x96.png" in files then [IconFor(base, "favicon-96x96.png")] else [])
  {
    var one := ["favicon.ico"];
    var two := ["favicon.ico", "favicon.svg"];
    assert one[..0] == [] && two[..1] == one && StandardIcons[..2] == two;
    assert Listed(base, one, files) == (if "favicon.ico" in files then [IconFor(base, "favicon.ico")] else []);
    assert Listed(base, two, files)
           == Listed(base, one, files) + (if "favicon.svg" in files then [IconFor(base, "favicon.svg")] else []);
  }

  /** The entry for a file is in the metadata exactly when the file is listed */
  lemma IconIffListed(base: string, files: seq<string>, name: string)
    requires name in StandardIcons
    ensures IconFor(base, name) in FaviconIcons(base, files).icon <==> name in files
  {
    StandardIconsListed(base, files);
  }

  /** At most three standard icons, one Apple icon and one manifest, the last two exactly
      when their files are listed */
  lemma IconsBounded(base: string, files: seq<string>)
    ensures var icons := FaviconIcons(base, files);
            && |icons.icon| <= 3 && |icons.apple| <= 1 && |icons.other| <= 1
            && (|icons.apple| == 1 <==> "apple-touch-icon.png" in files)
            && (|icons.other| == 1 <==> "site.webmanifest" in files)
  {
    assert ["apple-touch-icon.png"][..0] == [] && ["site.webmanifest"][..0] == [];
  }

  /** The icons depend only on the five names: the web-app manifest icons, or any other
      file, add nothing */
  lemma {:induction false} OtherFilesIgnored(base: string, names: seq<string>, files: seq<string>, x: string)
    requires x !in names
    ensures Listed(base, names, files + [x]) == Listed(base, names, files)
    decreases |names|
  {
    if names != [] {
      OtherFilesIgnored(base, names[..|names| - 1], files, x);
      assert names[|names| - 1] in files + [x] <==> names[|names| - 1] in files;
    }
  }

  lemma WebAppManifestsIgnored(base: string, files: seq<string>, x: string)
    requires x == "web-app-manifest-192x192.png" || x == "web-app-manifest-512x512.png"
    ensures FaviconIcons(base, files + [x]) == FaviconIcons(base, files)
  {
    OtherFilesIgnored(base, StandardIcons, files, x);
    OtherFilesIgnored(base, ["apple-touch-icon.png"], files, x);
    OtherFilesIgnored(base, ["site.webmanifest"], files, x);
  }

  /** The types the metadata announces are the ones the favicon route serves the files with */
  lemma IconTypesAgreeWithRoute(base: string, name: string)
    requires name in StandardIcons || name == "apple-touch-icon.png"
    ensures IconFor(base, name).mimeType == Some(FaviconRoute.ContentType(name))
  {
  }

  datatype FaviconUrls = FaviconUrls(
    favicon: Option<string>, faviconSvg: Option<string>, faviconPng: Option<string>,
    appleTouchIcon: Option<string>, manifest: Option<string>)

  /** The URL of a file when it is listed */
  function UrlIfListed(base: string, name: string, files: seq<string>): (u: Option<string>)
    ensures u.Some? <==> name in files
    ensures u.Some? ==> u.value == FileUrl(base, name)
  {
    if name in files then Some(FileUrl(base, name)) else None
  }

  /** `getFaviconUrls` */
  function Urls(base: string, files: seq<string>): (r: FaviconUrls)
    ensures r.favicon == UrlIfListed(base, "favicon.ico", files)
    ensures r.faviconSvg == UrlIfListed(base, "favicon.svg", files)
    ensures r.faviconPng == UrlIfListed(base, "favicon-96x96.png", files)
    ensures r.appleTouchIcon == UrlIfListed(base, "apple-touch-icon.png", files)
    ensures r.manifest == UrlIfListed(base, "site.webmanifest", files)
  {
    FaviconUrls(UrlIfListed(base, "favicon.ico", files), UrlIfListed(base, "favicon.svg", files),
                UrlIfListed(base, "favicon-96x96.png", files), UrlIfListed(base, "apple-touch-icon.png", files),
                UrlIfListed(base, "site.webmanifest", files))
  }

  /** The plain URLs and the metadata name the same files: a URL is given exactly when
      the metadata has an entry at that URL */
  lemma UrlsAgreeWithIcons(base: string, files: seq<string>)
    ensures var u := Urls(base, files); var icons := FaviconIcons(base, files);
            && (u.favicon.Some? <==> IconFor(base, "favicon.ico") in icons.icon)
            && (u.faviconSvg.Some? <==> IconFor(base, "favicon.svg") in icons.icon)
            && (u.faviconPng.Some? <==> IconFor(base, "favicon-96x96.png") in icons.icon)
            && (u.appleTouchIcon.Some? <==> icons.apple == [IconFor(base, "apple-touch-icon.png")])
            && (u.manifest.Some? <==> icons.other == [IconFor(base, "site.webmanifest")])
  {
    StandardIconsListed(base, files);
    assert ["apple-touch-icon.png"][..0] == [] && ["site.webmanifest"][..0] == [];
  }
}

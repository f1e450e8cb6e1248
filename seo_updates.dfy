/**
 * The update loop the two maintenance scripts share (scripts/standardize-canonical-urls.js
 * and scripts/update-domain-to-cavota.js): for each page, work or insight whose SEO
 * component has a canonical URL, rewrite the URL and send a `PUT` only when the rewrite
 * changed it. The scripts differ only in the rewrite, which is a parameter here.
 *
 * What the CMS lists is an input; the requests the loop sends are its output. The CMS's
 * answers to them only decide what is logged.
 */
module SeoUpdates {
  import opened Wrappers
  import opened Text

  /** The SEO component of an entry. `structuredData` is held as its JSON text, and
      `metaImage` stands for the fields of the component the canonical update does not
      copy. */
  datatype SeoComponent = SeoComponent(
    metaTitle: Option<string>, metaDescription: Option<string>, keywords: Option<string>,
    metaRobots: Option<string>, metaViewport: Option<string>, canonicalURL: Option<string>,
    structuredData: Option<string>, metaImage: Option<string>)

  datatype Entry = Entry(documentId: string, locale: string, seo: Option<SeoComponent>)

  /** The answer to the listing request of a collection */
  datatype Listing =
    | NotOk                        // a response that is not ok
    | Threw                        // the request throws
    | Listed(entries: seq<Entry>)

  /** `PUT <path>` with body `{ data: { seo } }` */
  datatype Request = Put(path: string, seo: SeoComponent)

  function EntryPath(collection: string, e: Entry): string {
    "/api/" + collection + "/" + e.documentId + "?locale=" + e.locale
  }

  /** The canonical URL of an entry, when it has a non-empty one */
  function Canonical(e: Entry): Option<string> {
    if e.seo.Some? && Truthy(e.seo.value.canonicalURL) then e.seo.value.canonicalURL else None
  }

  /** The request the loop sends for one entry, if any: the six other named fields copied
      as they are, the rewritten canonical URL, and nothing else of the component */
  function CanonicalUpdate(collection: string, e: Entry, rewrite: string -> string): (r: Option<Request>)
    ensures r.Some? <==> Canonical(e).Some? && rewrite(Canonical(e).value) != Canonical(e).value
    ensures r.Some? ==>
              var was := e.seo.value; var sent := r.value.seo;
              && r.value.path == EntryPath(collection, e)
              && sent.canonicalURL == Some(rewrite(Canonical(e).value))
              && sent.metaTitle == was.metaTitle && sent.metaDescription == was.metaDescription
              && sent.keywords == was.keywords && sent.metaRobots == was.metaRobots
              && sent.metaViewport == was.metaViewport && sent.structuredData == was.structuredData
              && sent.metaImage.None?
  {
    match Canonical(e)
    case None => None
    case Some(url) =>
      var updated := rewrite(url);
      if updated == url then None
      else
        var s := e.seo.value;
        Some(Put(EntryPath(collection, e),
                 SeoComponent(s.metaTitle, s.metaDescription, s.keywords, s.metaRobots, s.metaViewport,
                              Some(updated), s.structuredData, None)))
  }

  /** The requests of the loop over `entries`, in order */
  function CanonicalUpdates(collection: string, entries: seq<Entry>, rewrite: string -> string): (rs: seq<Request>)
    ensures |rs| <= |entries|
  {
    if entries == [] then []
    else
      var n := |entries|;
      CanonicalUpdates(collection, entries[..n - 1], rewrite)
      + (match CanonicalUpdate(collection, entries[n - 1], rewrite) case Some(r) => [r] case None => [])
  }

  /** One collection: the listing, then the loop. A listing that is not ok throws, and
      the function's own `catch` ends it, so a failed listing sends nothing. */
  method UpdateCanonicalUrls(collection: string, listing: Listing, rewrite: string -> string)
    returns (requests: seq<Request>)
    ensures !listing.Listed? ==> requests == []
    ensures listing.Listed? ==> requests == CanonicalUpdates(collection, listing.entries, rewrite)
  {
    requests := [];
    if !listing.Listed? {
      return;
    }
    var entries := listing.entries;
    for i := 0 to |entries|
      invariant requests == CanonicalUpdates(collection, entries[..i], rewrite)
    {
      assert entries[..i + 1][..i] == entries[..i];
      var e := entries[i];
      if e.seo.Some? && Truthy(e.seo.value.canonicalURL) {
        var original := e.seo.value.canonicalURL.value;
        var updated := rewrite(original);
        if updated != original {
          var s := e.seo.value;
          requests := requests + [Put(EntryPath(collection, e),
                                      SeoComponent(s.metaTitle, s.metaDescription, s.keywords, s.metaRobots,
                                                   s.metaViewport, Some(updated), s.structuredData, None))];
        }
      }
    }
    assert entries[..|entries|] == entries;
  }

  /** A request is sent exactly for the entries whose canonical URL the rewrite changes */
  lemma {:induction false} CanonicalUpdatesMembers(collection: string, entries: seq<Entry>,
                                                   rewrite: string -> string, r: Request)
    ensures r in CanonicalUpdates(collection, entries, rewrite) <==>
            exists i :: 0 <= i < |entries| && CanonicalUpdate(collection, entries[i], rewrite) == Some(r)
    decreases |entries|
  {
    if entries != [] {
      var n := |entries|;
      var front := entries[..n - 1];
      CanonicalUpdatesMembers(collection, front, rewrite, r);
      if exists i :: 0 <= i < n && CanonicalUpdate(collection, entries[i], rewrite) == Some(r) {
        var i :| 0 <= i < n && CanonicalUpdate(collection, entries[i], rewrite) == Some(r);
        if i < n - 1 {
          assert front[i] == entries[i];
        }
      }
      if r in CanonicalUpdates(collection, front, rewrite) {
        var i :| 0 <= i < |front| && CanonicalUpdate(collection, front[i], rewrite) == Some(r);
        assert entries[i] == front[i];
      }
    }
  }

  /** When the rewrite leaves every canonical URL as it is, nothing is sent */
  lemma {:induction false} NothingToRewrite(collection: string, entries: seq<Entry>, rewrite: string -> string)
    requires forall i :: 0 <= i < |entries| && Canonical(entries[i]).Some? ==>
               rewrite(Canonical(entries[i]).value) == Canonical(entries[i]).value
    ensures CanonicalUpdates(collection, entries, rewrite) == []
    decreases |entries|
  {
    if entries != [] {
      var n := |entries|;
      assert forall i :: 0 <= i < n - 1 ==> entries[..n - 1][i] == entries[i];
      NothingToRewrite(collection, entries[..n - 1], rewrite);
    }
  }

  /** The listings of the three collections, in the order the scripts visit them */
  datatype Listings = Listings(pages: Listing, works: Listing, insights: Listing)

  /** The requests of one canonical pass */
  function PassUpdates(collection: string, listing: Listing, rewrite: string -> string): seq<Request> {
    if listing.Listed? then CanonicalUpdates(collection, listing.entries, rewrite) else []
  }

  /** The canonical passes over pages, works and insights, one after the other */
  function AllCanonicalUpdates(ls: Listings, rewrite: string -> string): seq<Request> {
    PassUpdates("pages", ls.pages, rewrite) + PassUpdates("works", ls.works, rewrite)
    + PassUpdates("insights", ls.insights, rewrite)
  }

  /** How a script run ends: its exit code and the requests it sent */
  datatype Run = Run(exitCode: nat, requests: seq<Request>)
}

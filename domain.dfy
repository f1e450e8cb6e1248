/**
 * The domain script (scripts/update-domain-to-cavota.js): every `https://` or `http://`
 * reference to the two former domains, linkgacor.one and kt78.io, becomes
 * `https://cavota.id`, first in the canonical URLs of the pages, works and insights, then
 * in their structured data.
 *
 * The structured data is held as its JSON text, the string the script rewrites.
 */
module DomainRewrite {
  import opened Wrappers
  import opened Text
  import opened Scanner
  import opened SeoUpdates

  const Cavota := "https://cavota.id"
  const LinkgacorHttps := "https://linkgacor.one"
  const Kt78Https := "https://kt78.io"
  const LinkgacorHttp := "http://linkgacor.one"
  const Kt78Http := "http://kt78.io"

  /** The four global replaces, in the order the script applies them */
  function RewriteDomains(s: string): string {
    var a := ReplaceAll(s, LinkgacorHttps, Cavota);
    var b := ReplaceAll(a, Kt78Https, Cavota);
    var c := ReplaceAll(b, LinkgacorHttp, Cavota);
    ReplaceAll(c, Kt78Http, Cavota)
  }

  /** No former origin occurs in `s` */
  predicate LegacyFree(s: string) {
    && !Contains(s, LinkgacorHttps) && !Contains(s, Kt78Https)
    && !Contains(s, LinkgacorHttp) && !Contains(s, Kt78Http)
  }

  /** Text without a former origin is left as it is, so the script sends nothing for it */
  lemma LegacyFreeUnchanged(s: string)
    requires LegacyFree(s)
    ensures RewriteDomains(s) == s
  {
    ReplaceAllAbsent(s, LinkgacorHttps, Cavota);
    ReplaceAllAbsent(s, Kt78Https, Cavota);
    ReplaceAllAbsent(s, LinkgacorHttp, Cavota);
    ReplaceAllAbsent(s, Kt78Http, Cavota);
  }

  /** `o` has its only `h` at the front */
  predicate OneLeadingH(o: string) {
    o != [] && o[0] == 'h' && forall k :: 1 <= k < |o| ==> o[k] != 'h'
  }

  /** A pattern starting with `h` that `o` does not start with can only occur in `o + rest`
      inside `rest`: it cannot start at the front of `o`, nor anywhere else in `o` */
  lemma HeadShields(o: string, rest: string, p: string, d: nat)
    requires OneLeadingH(o) && p != [] && p[0] == 'h'
    requires d < |o| && d < |p| && o[d] != p[d]
    requires !Contains(rest, p)
    ensures !Contains(o + rest, p)
  {
    var t := o + rest;
    forall k: nat | k + |p| <= |t| ensures !OccursAt(t, k, p) {
      if k == 0 {
        assert t[k..k + |p|][d] == o[d];
      } else if k < |o| {
        assert t[k..k + |p|][0] == o[k];
      } else {
        assert rest[k - |o|..k - |o| + |p|] == t[k..k + |p|];
        assert !OccursAt(rest, k - |o|, p);
      }
    }
  }

  lemma OriginsHaveOneLeadingH()
    ensures OneLeadingH(Cavota) && OneLeadingH(LinkgacorHttps) && OneLeadingH(Kt78Https)
    ensures OneLeadingH(LinkgacorHttp) && OneLeadingH(Kt78Http)
  {
  }

  /** A former origin at the front becomes `https://cavota.id`, so an `http://` origin is
      upgraded too; what follows it, holding no former origin, is kept */
  lemma LegacyOriginReplaced(o: string, rest: string)
    requires o == LinkgacorHttps || o == Kt78Https || o == LinkgacorHttp || o == Kt78Http
    requires LegacyFree(rest)
    ensures RewriteDomains(o + rest) == Cavota + rest
  {
    OriginsHaveOneLeadingH();
    if o == LinkgacorHttps {
      ReplaceAllLeading(o, rest, Cavota);
      ReplaceAllAbsent(rest, o, Cavota);
      var t := Cavota + rest;
      HeadShields(Cavota, rest, Kt78Https, 8);
      HeadShields(Cavota, rest, LinkgacorHttp, 4);
      HeadShields(Cavota, rest, Kt78Http, 4);
      ReplaceAllAbsent(t, Kt78Https, Cavota);
      ReplaceAllAbsent(t, LinkgacorHttp, Cavota);
      ReplaceAllAbsent(t, Kt78Http, Cavota);
    } else if o == Kt78Https {
      HeadShields(o, rest, LinkgacorHttps, 8);
      ReplaceAllAbsent(o + rest, LinkgacorHttps, Cavota);
      ReplaceAllLeading(o, rest, Cavota);
      ReplaceAllAbsent(rest, o, Cavota);
      var t := Cavota + rest;
      HeadShields(Cavota, rest, LinkgacorHttp, 4);
      HeadShields(Cavota, rest, Kt78Http, 4);
      ReplaceAllAbsent(t, LinkgacorHttp, Cavota);
      ReplaceAllAbsent(t, Kt78Http, Cavota);
    } else if o == LinkgacorHttp {
      HeadShields(o, rest, LinkgacorHttps, 4);
      HeadShields(o, rest, Kt78Https, 4);
      ReplaceAllAbsent(o + rest, LinkgacorHttps, Cavota);
      ReplaceAllAbsent(o + rest, Kt78Https, Cavota);
      ReplaceAllLeading(o, rest, Cavota);
      ReplaceAllAbsent(rest, o, Cavota);
      HeadShields(Cavota, rest, Kt78Http, 4);
      ReplaceAllAbsent(Cavota + rest, Kt78Http, Cavota);
    } else {
      HeadShields(o, rest, LinkgacorHttps, 4);
      HeadShields(o, rest, Kt78Https, 4);
      HeadShields(o, rest, LinkgacorHttp, 7);
      ReplaceAllAbsent(o + rest, LinkgacorHttps, Cavota);
      ReplaceAllAbsent(o + rest, Kt78Https, Cavota);
      ReplaceAllAbsent(o + rest, LinkgacorHttp, Cavota);
      ReplaceAllLeading(o, rest, Cavota);
      ReplaceAllAbsent(rest, o, Cavota);
    }
  }

  /** The canonical pass of the domain script sends, for a canonical URL on a former
      origin, the same URL on `https://cavota.id` */
  lemma LegacyCanonicalMoved(collection: string, e: Entry, o: string, path: string)
    requires o == LinkgacorHttps || o == Kt78Https || o == LinkgacorHttp || o == Kt78Http
    requires LegacyFree(path)
    requires Canonical(e) == Some(o + path)
    ensures CanonicalUpdate(collection, e, RewriteDomains).Some?
    ensures CanonicalUpdate(collection, e, RewriteDomains).value.seo.canonicalURL == Some(Cavota + path)
  {
    LegacyOriginReplaced(o, path);
    var u := o + path;
    var v := Cavota + path;
    if o == LinkgacorHttps || o == Kt78Https {
      assert u[8] != v[8];
    } else {
      assert u[4] != v[4];
    }
  }

  /** The request of the structured-data pass for one entry, if any: the whole SEO
      component as it was, only with the structured data rewritten */
  function StructuredDataUpdate(collection: string, e: Entry): (r: Option<Request>)
    ensures r.Some? <==> e.seo.Some? && Truthy(e.seo.value.structuredData)
                         && RewriteDomains(e.seo.value.structuredData.value) != e.seo.value.structuredData.value
    ensures r.Some? ==> r.value.path == EntryPath(collection, e)
    ensures r.Some? ==>
              var was := e.seo.value; var sent := r.value.seo;
              && sent.structuredData == Some(RewriteDomains(was.structuredData.value))
              && sent == was.(structuredData := sent.structuredData)
  {
    if e.seo.Some? && Truthy(e.seo.value.structuredData) then
      var original := e.seo.value.structuredData.value;
      var updated := RewriteDomains(original);
      if updated != original then
        Some(Put(EntryPath(collection, e), e.seo.value.(structuredData := Some(updated))))
      else None
    else None
  }

  /** The requests of the loop over the items of one collection, in order */
  function StructuredDataUpdates(collection: string, entries: seq<Entry>): (rs: seq<Request>)
    ensures |rs| <= |entries|
  {
    if entries == [] then []
    else
      var n := |entries|;
      StructuredDataUpdates(collection, entries[..n - 1])
      + (match StructuredDataUpdate(collection, entries[n - 1]) case Some(r) => [r] case None => [])
  }

  /** Structured data without a former origin gets no request */
  lemma {:induction false} LegacyFreeNothingSent(collection: string, entries: seq<Entry>)
    requires forall i :: 0 <= i < |entries| && entries[i].seo.Some? && entries[i].seo.value.structuredData.Some?
               ==> LegacyFree(entries[i].seo.value.structuredData.value)
    ensures StructuredDataUpdates(collection, entries) == []
    decreases |entries|
  {
    if entries != [] {
      var n := |entries|;
      assert StructuredDataUpdates(collection, entries[..n - 1]) == [] by {
        assert forall i :: 0 <= i < n - 1 ==> entries[..n - 1][i] == entries[i];
        LegacyFreeNothingSent(collection, entries[..n - 1]);
      }
      var e := entries[n - 1];
      assert StructuredDataUpdate(collection, e).None? by {
        if e.seo.Some? && e.seo.value.structuredData.Some? {
          LegacyFreeUnchanged(e.seo.value.structuredData.value);
        }
      }
    }
  }

  /** The collections the structured-data pass visits, with what their listings answered */
  function Collections(ls: Listings): seq<(string, Listing)> {
    [("pages", ls.pages), ("works", ls.works), ("insights", ls.insights)]
  }

  /** The structured-data pass: a collection whose listing is not ok is skipped, and a
      listing that throws ends the whole pass in its `catch` */
  function StructuredDataPass(cs: seq<(string, Listing)>): (rs: seq<Request>)
  {
    if cs == [] then []
    else
      match cs[0].1
      case Threw => []
      case NotOk => StructuredDataPass(cs[1..])
      case Listed(entries) => StructuredDataUpdates(cs[0].0, entries) + StructuredDataPass(cs[1..])
  }

  /** `updateStructuredData` */
  method UpdateStructuredData(ls: Listings) returns (requests: seq<Request>)
    ensures requests == StructuredDataPass(Collections(ls))
  {
    var cs := Collections(ls);
    requests := [];
    var i := 0;
    while i < |cs|
      invariant 0 <= i <= |cs|
      invariant requests + StructuredDataPass(cs[i..]) == StructuredDataPass(cs)
    {
      var (collection, listing) := cs[i];
      assert cs[i..][1..] == cs[i + 1..];
      if listing.Threw? {
        assert requests == StructuredDataPass(cs);
        return;
      }
      if listing.Listed? {
        var entries := listing.entries;
        var sent: seq<Request> := [];
        for j := 0 to |entries|
          invariant sent == StructuredDataUpdates(collection, entries[..j])
        {
          assert entries[..j + 1][..j] == entries[..j];
          var e := entries[j];
          if e.seo.Some? && Truthy(e.seo.value.structuredData) {
            var original := e.seo.value.structuredData.value;
            var updated := RewriteDomains(original);
            if updated != original {
              sent := sent + [Put(EntryPath(collection, e), e.seo.value.(structuredData := Some(updated)))];
            }
          }
        }
        assert entries[..|entries|] == entries;
        Associative(requests, sent, StructuredDataPass(cs[i + 1..]));
        requests := requests + sent;
      }
      i := i + 1;
    }
  }

  /** Listings that do not throw contribute their requests one after the other */
  lemma {:induction false} PassSplits(xs: seq<(string, Listing)>, ys: seq<(string, Listing)>)
    requires forall i :: 0 <= i < |xs| ==> !xs[i].1.Threw?
    ensures StructuredDataPass(xs + ys) == StructuredDataPass(xs) + StructuredDataPass(ys)
    decreases |xs|
  {
    if xs != [] {
      assert (xs + ys)[0] == xs[0] && (xs + ys)[1..] == xs[1..] + ys;
      assert forall i :: 0 <= i < |xs| - 1 ==> xs[1..][i] == xs[i + 1];
      PassSplits(xs[1..], ys);
      assert !xs[0].1.Threw?;
      if xs[0].1.Listed? {
        var u := StructuredDataUpdates(xs[0].0, xs[0].1.entries);
        assert StructuredDataPass(xs + ys) == u + StructuredDataPass(xs[1..] + ys);
        assert StructuredDataPass(xs) == u + StructuredDataPass(xs[1..]);
        Associative(u, StructuredDataPass(xs[1..]), StructuredDataPass(ys));
      } else {
        assert StructuredDataPass(xs + ys) == StructuredDataPass(xs[1..] + ys);
      }
    } else {
      assert xs + ys == ys;
    }
  }

  /** A collection that is not accessible is skipped; one whose listing throws stops the
      pass, so no later collection is visited */
  lemma SkipAndStop(xs: seq<(string, Listing)>, c: string, ys: seq<(string, Listing)>)
    requires forall i :: 0 <= i < |xs| ==> !xs[i].1.Threw?
    ensures StructuredDataPass(xs + [(c, NotOk)] + ys) == StructuredDataPass(xs) + StructuredDataPass(ys)
    ensures StructuredDataPass(xs + [(c, Threw)] + ys) == StructuredDataPass(xs)
  {
    Associative(xs, [(c, NotOk)], ys);
    PassSplits(xs, [(c, NotOk)] + ys);
    assert ([(c, NotOk)] + ys)[1..] == ys;
    Associative(xs, [(c, Threw)], ys);
    PassSplits(xs, [(c, Threw)] + ys);
  }

  /** `main`: without a token the script stops with exit code 1 before any request;
      otherwise it runs the three canonical passes, then the structured-data pass over
      listings fetched afresh */
  function Script(token: Option<string>, canonical: Listings, structured: Listings): (run: Run)
    ensures !Truthy(token) ==> run == Run(1, [])
    ensures Truthy(token) ==> run.exitCode == 0
    ensures Truthy(token) ==> run.requests == AllCanonicalUpdates(canonical, RewriteDomains)
                                              + StructuredDataPass(Collections(structured))
  {
    if !Truthy(token) then Run(1, [])
    else Run(0, AllCanonicalUpdates(canonical, RewriteDomains) + StructuredDataPass(Collections(structured)))
  }
}

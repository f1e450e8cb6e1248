/**
 * The canonical-URL script (scripts/standardize-canonical-urls.js): every canonical URL
 * of the pages, works and insights is made relative by removing each `http://host` and
 * `https://host` it contains and collapsing a leading run of `/` to one.
 */
module CanonicalUrls {
  import opened Wrappers
  import opened Text
  import opened Scanner
  import opened SeoUpdates

  predicate NotSlash(c: char) {
    c != '/'
  }

  predicate IsSlash(c: char) {
    c == '/'
  }

  /** The pattern `https?:\/\/[^\/]+` at the front of `t`, replaced by nothing. The host
      run is greedy and ends the pattern, so it takes every character up to the next `/`. */
  function OriginAt(t: string): (h: Option<Hit>)
    ensures h.Some? ==> 0 < h.value.len <= |t| && h.value.replacement == []
    ensures h.Some? ==> t[0] == 'h'
  {
    var n := if StartsWith(t, "https://") then 8 else if StartsWith(t, "http://") then 7 else 0;
    if n == 0 then None
    else
      var j := Skip(t, n, NotSlash);
      if j == n then None else Some(Hit(j, []))
  }

  lemma OriginAdvances()
    ensures Advances(OriginAt)
  {
  }

  /** The first `replace`, global */
  function StripOrigins(s: string): string {
    OriginAdvances();
    Scan(OriginAt, s)
  }

  /** The second `replace`, `^\/+` to `/` */
  function CollapseLeadingSlashes(s: string): (r: string)
    ensures !StartsWith(r, "//")
    ensures |s| > 0 && s[0] == '/' <==> |r| > 0 && r[0] == '/'
    ensures (s == [] || s[0] != '/') ==> r == s
  {
    var k := Skip(s, 0, IsSlash);
    if k == 0 then s
    else
      assert k < |s| ==> ("/" + s[k..])[1] == s[k];
      "/" + s[k..]
  }

  /** `convertToRelativePath`; an empty URL is returned as it is */
  function ConvertToRelativePath(url: string): (r: string)
    ensures url == [] ==> r == []
    ensures !StartsWith(r, "//")
  {
    if url == [] then url else CollapseLeadingSlashes(StripOrigins(url))
  }

  /** The two schemes the pattern accepts */
  predicate IsScheme(scheme: string) {
    scheme == "http://" || scheme == "https://"
  }

  /** Text holding no `http://` and no `https://` */
  predicate NoScheme(s: string) {
    !Contains(s, "http://") && !Contains(s, "https://")
  }

  /** Text with no scheme in it offers the pattern no match */
  lemma NoSchemeNoOrigin(s: string)
    requires NoScheme(s)
    ensures forall k :: 0 <= k < |s| ==> OriginAt(s[k..]).None?
  {
    forall k | 0 <= k < |s| ensures OriginAt(s[k..]).None? {
      assert !OccursAt(s, k, "http://") && !OccursAt(s, k, "https://");
      if k + 7 <= |s| { assert s[k..][..7] == s[k..k + 7]; }
      if k + 8 <= |s| { assert s[k..][..8] == s[k..k + 8]; }
    }
  }

  /** An origin at the front is matched exactly up to the `/` that follows the host */
  lemma OriginMatch(scheme: string, host: string, b: string)
    requires IsScheme(scheme) && host != [] && '/' !in host
    requires b == [] || b[0] == '/'
    ensures OriginAt(scheme + host + b) == Some(Hit(|scheme| + |host|, []))
  {
    var t := scheme + host + b;
    var n := |scheme|;
    assert t[..n] == scheme;
    if scheme == "http://" {
      assert t[4] == ':';
      assert !StartsWith(t, "https://");
    }
    forall k | n <= k < n + |host| ensures NotSlash(t[k]) {
      assert t[k] == host[k - n];
    }
    SkipIs(t, n, NotSlash, n + |host|);
  }

  /** Origins are removed wherever they are, not only at the start, and the text around
      them is kept */
  lemma OriginRemovedAnywhere(a: string, scheme: string, host: string, b: string)
    requires 'h' !in a
    requires IsScheme(scheme) && host != [] && '/' !in host
    requires (b == [] || b[0] == '/') && NoScheme(b)
    ensures StripOrigins(a + scheme + host + b) == a + b
  {
    OriginAdvances();
    var o := scheme + host;
    forall k | 0 <= k < |a| ensures OriginAt(a[k..] + (o + b)).None? {
      assert (a[k..] + (o + b))[0] == a[k];
    }
    ScanPlainPrefix(OriginAt, a, o + b);
    OriginRemovedAtFront(scheme, host, b);
    Associative(a, scheme, host);
    Associative(a, o, b);
  }

  /** An origin at the front is removed and the rest, holding no scheme, is kept */
  lemma OriginRemovedAtFront(scheme: string, host: string, b: string)
    requires IsScheme(scheme) && host != [] && '/' !in host
    requires (b == [] || b[0] == '/') && NoScheme(b)
    ensures StripOrigins(scheme + host + b) == b
  {
    OriginAdvances();
    assert Scan(OriginAt, scheme + host + b) == Scan(OriginAt, b) by {
      OriginMatch(scheme, host, b);
      ScanHitPrefix(OriginAt, scheme + host, b, []);
    }
    assert Scan(OriginAt, b) == b by {
      NoSchemeNoOrigin(b);
      ScanPlain(OriginAt, b);
    }
  }

  /** An absolute URL becomes its path, with one leading `/`; a bare origin becomes `''` */
  lemma AbsoluteBecomesPath(scheme: string, host: string, path: string)
    requires IsScheme(scheme) && host != [] && '/' !in host
    requires (path == [] || path[0] == '/') && NoScheme(path)
    ensures ConvertToRelativePath(scheme + host + path) == CollapseLeadingSlashes(path)
    ensures path == [] ==> ConvertToRelativePath(scheme + host) == []
  {
    OriginRemovedAtFront(scheme, host, path);
    assert scheme + host + [] == scheme + host;
  }

  /** A path with a single leading `/` and no scheme is already relative: it is kept, so
      the script sends no update for it */
  lemma RelativePathKept(path: string)
    requires |path| >= 1 && path[0] == '/' && (|path| == 1 || path[1] != '/')
    requires NoScheme(path)
    ensures ConvertToRelativePath(path) == path
  {
    OriginAdvances();
    NoSchemeNoOrigin(path);
    ScanPlain(OriginAt, path);
    SkipIs(path, 0, IsSlash, 1);
    assert "/" + path[1..] == path;
  }

  /** The entry of an already-relative canonical URL gets no request */
  lemma AlreadyRelativeNotUpdated(collection: string, e: Entry)
    requires Canonical(e).Some?
    requires var p := Canonical(e).value; p[0] == '/' && (|p| == 1 || p[1] != '/') && NoScheme(p)
    ensures CanonicalUpdate(collection, e, ConvertToRelativePath).None?
  {
    RelativePathKept(Canonical(e).value);
  }

  /** `main`: without a token the script stops with exit code 1 before any request;
      otherwise it runs the three passes */
  function Script(token: Option<string>, listings: Listings): (run: Run)
    ensures !Truthy(token) ==> run == Run(1, [])
    ensures Truthy(token) ==> run == Run(0, AllCanonicalUpdates(listings, ConvertToRelativePath))
  {
    if !Truthy(token) then Run(1, []) else Run(0, AllCanonicalUpdates(listings, ConvertToRelativePath))
  }
}

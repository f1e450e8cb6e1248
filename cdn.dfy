/**
 * The CDN helpers of the frontend (frontend/lib/cdn.ts): uploads on the site's own domain
 * are served through the image-resizing service when its base URL is configured.
 *
 * The configured base (`CLOUDFLARE_IMG_BASE`, `None` when unset) is a parameter, and so
 * is `encodeURIComponent`, which is not modelled.
 */
module Cdn {
  import opened Wrappers
  import opened Text

  /** `cdnize` */
  function Cdnize(base: Option<string>, encode: string -> string, url: string): (r: string)
    ensures url == [] ==> r == url
    ensures (url != [] && Truthy(base) && Contains(url, "cavota.id") && Contains(url, "/uploads/"))
              ==> r == base.value + "/" + encode(url)
    ensures (url == [] || !Truthy(base) || !Contains(url, "cavota.id") || !Contains(url, "/uploads/"))
              ==> r == url
  {
    if url == [] then url
    else if Truthy(base) && Contains(url, "cavota.id") && Contains(url, "/uploads/") then
      base.value + "/" + encode(url)
    else url
  }

  /** A rewritten URL holds no `/uploads/` of its own when the encoded URL has no `/`
      and the base does not end a `/uploads/` at the joining slash */
  lemma NoUploadsAfterRewrite(base: string, e: string)
    requires !Contains(base + "/", "/uploads/")
    requires '/' !in e
    ensures !Contains(base + "/" + e, "/uploads/")
  {
    var p := "/uploads/";
    var u := base + "/";
    var t := u + e;
    forall k: nat ensures !OccursAt(t, k, p) {
      if k + 9 <= |t| {
        if k + 9 <= |u| {
          assert t[k..k + 9] == u[k..k + 9];
          assert !OccursAt(u, k, p);
        } else {
          assert t[k + 8] == e[k + 8 - |u|];
          assert t[k..k + 9][8] != p[8];
        }
      }
    }
  }

  /** Rewriting is done once: a rewritten URL is left alone, since `encodeURIComponent`
      turns every `/` into `%2F` */
  lemma CdnizeIdempotent(base: Option<string>, encode: string -> string, url: string)
    requires base.Some? ==> !Contains(base.value + "/", "/uploads/")
    requires '/' !in encode(url)
    ensures Cdnize(base, encode, Cdnize(base, encode, url)) == Cdnize(base, encode, url)
  {
    if url != [] && Truthy(base) && Contains(url, "cavota.id") && Contains(url, "/uploads/") {
      NoUploadsAfterRewrite(base.value, encode(url));
    }
  }

  const DefaultSizes: seq<nat> := [320, 640, 1024, 1920]

  /** The URL of one width: the original without a base */
  function ResponsiveUrl(base: Option<string>, encode: string -> string, url: string, size: nat): string {
    if Truthy(base) then base.value + "/width=" + NatToString(size) + "/" + encode(url) else url
  }

  /** `generateResponsiveUrls`: the `reduce` over the sizes, one key per size */
  function ResponsiveUrls(base: Option<string>, encode: string -> string, url: string,
                          sizes: seq<nat> := DefaultSizes): (r: map<nat, string>)
    ensures r.Keys == set s | s in sizes
    ensures forall s :: s in r ==> r[s] == ResponsiveUrl(base, encode, url, s)
  {
    if sizes == [] then map[]
    else
      var n := |sizes|;
      ResponsiveUrls(base, encode, url, sizes[..n - 1])[sizes[n - 1] := ResponsiveUrl(base, encode, url, sizes[n - 1])]
  }

  /** Without a base every width gives the original URL; the default widths are four */
  lemma ResponsiveDefaults(base: Option<string>, encode: string -> string, url: string)
    ensures ResponsiveUrls(base, encode, url).Keys == {320, 640, 1024, 1920}
    ensures !Truthy(base) ==> forall s :: s in ResponsiveUrls(base, encode, url) ==> ResponsiveUrls(base, encode, url)[s] == url
  {
  }

  /** The resizing options of `optimizeForAmp`, comma-separated */
  function AmpParams(width: int, height: int, quality: int): seq<string> {
    ["width=" + IntToString(width), "height=" + IntToString(height), "quality=" + IntToString(quality),
     "format=auto", "fit=cover"]
  }

  /** `optimizeForAmp` */
  function OptimizeForAmp(base: Option<string>, encode: string -> string, url: string,
                          width: int, height: int, quality: int := 85): (r: string)
    ensures !Truthy(base) ==> r == url
    ensures Truthy(base) ==> r == base.value + "/" + Join(AmpParams(width, height, quality), ',') + "/" + encode(url)
  {
    if !Truthy(base) then url
    else base.value + "/" + Join(AmpParams(width, height, quality), ',') + "/" + encode(url)
  }

  /** The options segment reads back as width, height, quality, `format=auto`, `fit=cover`,
      in that order, with quality 85 unless given */
  lemma AmpParamsReadBack(width: int, height: int)
    ensures Split(Join(AmpParams(width, height, 85), ','), ',')
            == ["width=" + IntToString(width), "height=" + IntToString(height), "quality=85",
                "format=auto", "fit=cover"]
  {
    var ps := AmpParams(width, height, 85);
    forall i | 0 <= i < |ps| ensures ',' !in ps[i] {
      if i == 0 { NoCommaAfterKey("width=", width); }
      else if i == 1 { NoCommaAfterKey("height=", height); }
      else if i == 2 { NoCommaAfterKey("quality=", 85); }
    }
    assert NatToString(8) == "8" && NatToString(85) == NatToString(8) + [DigitChar(5)];
    assert IntToString(85) == "85";
    assert ps[2] == "quality=85";
    SplitJoin(ps, ',');
  }

  lemma NoCommaAfterKey(key: string, n: int)
    requires ',' !in key
    ensures ',' !in key + IntToString(n)
  {
    var s := IntToString(n);
    assert forall k :: 0 <= k < |s| ==> s[k] != ',';
  }
}

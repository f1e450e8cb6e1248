/**
 * The favicon route of the frontend (frontend/app/next-api/favicons/route.ts): `GET
 * ?file=<name>` serves one of the seven favicon files from the CMS, with its content type
 * and a year-long immutable cache lifetime.
 *
 * The CMS's base URL and what its answer turned out to be (not ok, a thrown `fetch` or
 * `arrayBuffer()`, or the file's bytes) are inputs.
 */
module FaviconRoute {
  import opened Wrappers
  import opened Text
  import opened FaviconFiles

  datatype Response =
    | Plain(status: nat, text: string)
    | Served(body: seq<bv8>, contentType: string, cacheControl: string)

  /** What fetching the file from the CMS gives: an answer that is not ok, an exception
      from `fetch` or from reading the body, or the body's bytes */
  datatype Upstream = NotOk | Threw | Ok(bytes: seq<bv8>)

  /** The answer and the URL fetched from the CMS on the way, if any */
  datatype Outcome = Outcome(response: Response, fetched: Option<string>)

  const ContentTypes: map<string, string> := map[
    "apple-touch-icon.png" := "image/png",
    "favicon.ico" := "image/x-icon",
    "favicon.svg" := "image/svg+xml",
    "favicon-96x96.png" := "image/png",
    "site.webmanifest" := "application/manifest+json",
    "web-app-manifest-192x192.png" := "image/png",
    "web-app-manifest-512x512.png" := "image/png"
  ]

  const OctetStream := "application/octet-stream"
  const CacheForever := "public, max-age=31536000, immutable"

  /** `contentTypeMap[file] || 'application/octet-stream'` */
  function ContentType(file: string): (t: string)
    ensures file in ContentTypes ==> t == ContentTypes[file]
    ensures file !in ContentTypes ==> t == OctetStream
  {
    if file in ContentTypes && ContentTypes[file] != [] then ContentTypes[file] else OctetStream
  }

  /** `GET` */
  function Get(strapiUrl: string, file: Option<string>, upstream: Upstream): (o: Outcome)
    ensures !Truthy(file) ==> o == Outcome(Plain(400, "File parameter required"), None)
    ensures Truthy(file) && file.value !in AllowedFiles ==> o == Outcome(Plain(400, "Invalid file"), None)
    ensures o.fetched.Some? <==> Truthy(file) && file.value in AllowedFiles
    ensures o.fetched.Some? ==> o.fetched.value == strapiUrl + "/favicons/" + file.value
    ensures o.fetched.Some? && upstream.NotOk? ==> o.response == Plain(404, "File not found")
    ensures o.fetched.Some? && upstream.Threw? ==> o.response == Plain(500, "Internal Server Error")
    ensures o.response.Served? <==> o.fetched.Some? && upstream.Ok?
    ensures o.response.Served? ==> o.response == Served(upstream.bytes, ContentType(file.value), CacheForever)
  {
    if !Truthy(file) then Outcome(Plain(400, "File parameter required"), None)
    else if file.value !in AllowedFiles then Outcome(Plain(400, "Invalid file"), None)
    else
      var url := strapiUrl + "/favicons/" + file.value;
      match upstream
      case NotOk => Outcome(Plain(404, "File not found"), Some(url))
      case Threw => Outcome(Plain(500, "Internal Server Error"), Some(url))
      case Ok(bytes) => Outcome(Served(bytes, ContentType(file.value), CacheForever), Some(url))
  }

  /** Every allowed name has its own content type: the octet-stream fallback is never
      used for a file that can be served */
  lemma AllowedHaveContentType()
    ensures forall f :: f in AllowedFiles ==> f in ContentTypes && ContentType(f) != OctetStream
  {
  }

  /** The content types of the seven files */
  lemma ContentTypeByName(f: string)
    requires f in AllowedFiles
    ensures EndsWith(f, ".png") ==> ContentType(f) == "image/png"
    ensures f == "favicon.ico" ==> ContentType(f) == "image/x-icon"
    ensures f == "favicon.svg" ==> ContentType(f) == "image/svg+xml"
    ensures f == "site.webmanifest" ==> ContentType(f) == "application/manifest+json"
  {
    assert !EndsWith("favicon.ico", ".png") && !EndsWith("favicon.svg", ".png");
    assert !EndsWith("site.webmanifest", ".png");
  }

  /** A served file never has the fallback type, and whatever the route fetches is a single
      file directly under `/favicons/` */
  lemma ServedSafely(strapiUrl: string, file: Option<string>, upstream: Upstream)
    ensures var o := Get(strapiUrl, file, upstream);
            && (o.response.Served? ==> o.response.contentType != OctetStream)
            && (o.fetched.Some? ==> PlainName(file.value))
  {
    AllowedHaveContentType();
    AllowedArePlainNames();
  }
}

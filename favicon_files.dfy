/**
 * The seven favicon file names the site accepts. The upload controller of the CMS
 * (backend/src/api/favicon-settings/controllers/favicon-settings.ts) and the favicon route
 * of the frontend (frontend/app/next-api/favicons/route.ts) each list the same names, in
 * the same order.
 */
module FaviconFiles {

  const AllowedFiles: seq<string> := [
    "apple-touch-icon.png",
    "favicon.ico",
    "favicon.svg",
    "favicon-96x96.png",
    "site.webmanifest",
    "web-app-manifest-192x192.png",
    "web-app-manifest-512x512.png"
  ]

  /** `f` names a file in the directory it is resolved in: it is not empty, holds no
      separator and is neither `.` nor `..` */
  predicate PlainName(f: string) {
    && f != [] && f != "." && f != ".."
    && forall k :: 0 <= k < |f| ==> f[k] != '/' && f[k] != '\\'
  }

  lemma IconNamesPlain()
    ensures PlainName("apple-touch-icon.png") && PlainName("favicon.ico") && PlainName("favicon.svg")
    ensures PlainName("favicon-96x96.png") && PlainName("site.webmanifest")
  {
  }

  lemma ManifestIconNamesPlain()
    ensures PlainName("web-app-manifest-192x192.png") && PlainName("web-app-manifest-512x512.png")
  {
  }

  /** The allowed names are seven distinct plain file names: none names a directory or
      leaves one */
  lemma AllowedArePlainNames()
    ensures |AllowedFiles| == 7
    ensures forall i, j :: 0 <= i < j < |AllowedFiles| ==> AllowedFiles[i] != AllowedFiles[j]
    ensures forall f :: f in AllowedFiles ==> PlainName(f)
  {
    IconNamesPlain();
    ManifestIconNamesPlain();
  }
}

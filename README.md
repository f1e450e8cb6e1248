# CAVOTA site core, modelled in Dafny

CAVOTA's site is a Next.js frontend over a Strapi CMS. This project models the parts of it
that compute something, rather than render it:

- the AMP converter (`frontend/lib/amp.ts`): `toAmpImage`, the nine global rewrites of
  `sanitizeToAmp` and `getRequiredAmpComponents`;
- the `{{a.b.c}}` template substitution of the dynamic-content hook (`processTemplate`);
- the SEO metadata mapping and the article structured data (`frontend/lib/seo.ts`);
- the favicon metadata and URL lists (`frontend/lib/favicons.ts`), the favicon proxy route,
  and the backend favicon-settings controller that extracts an uploaded zip and lists the
  files on disk;
- the CDN URL rewriting (`frontend/lib/cdn.ts`);
- the sitemap route, the CMS webhook, the cache-tag revalidation route and the RFP
  (contact form) route;
- the backend content-export controller;
- the two maintenance scripts: canonical URLs made relative, and the former domains moved
  to `https://cavota.id`;
- the pure parts of the navigation bar: logo choice, links per locale and the language
  switcher's target path.

Every JavaScript regular expression in these files is modelled as a hand-written matcher
on the text from the current position (`Scanner.Matcher`). Each matcher follows that
pattern's own backtracking. The matchers are driven by one global-replace engine
(`Scanner.Scan`), which copies unmatched characters and resumes after each match, as
`String.prototype.replace` with the `g` flag does. The `i` flag is modelled as ASCII case
folding, which is what it amounts to for these all-ASCII patterns.

Whatever the code fetches, reads from disk or asks the clock for is a parameter of the
model. This covers the CMS's answers, HTTP statuses, directory listings, the current time
and `encodeURIComponent`. Plain JSON answers are datatypes. `undefined` is `None` and
truthiness is written out (`Truthy`, `JsTruthy`).

Modules: `Wrappers` (Option), `Text` (string helpers, trim/split/join, decimal printing),
`Scanner`, then one module per source file: `Amp`, `Templates`, `Seo`, `Favicons`,
`FaviconRoute`, `FaviconFiles` (the allowed names both favicon files share),
`FaviconSettings`, `Cdn`, `Sitemap`, `Webhook`, `Revalidate`, `Rfp`, `ContentExport`,
`Navbar`. `SeoUpdates` holds the canonical-URL pass shared by both scripts.
`CanonicalUrls` and `DomainRewrite` hold what is particular to each script.

Some behaviour of the code as written is proved as stated here:

- Script stripping is a single pass. Removing an inner `<script>` element can join the
  text around it into a new one, which then survives.
- The event-handler pattern is not anchored to an attribute name. The `<a` pattern also
  patches `<amp-img>` and any other tag beginning with `a`.
- The language switcher strips the first two lowercase letters of any path, so `/about`
  switches to `/enout`.
- An RFP form without a locale is stored as `id` but thanked in English.
- The zip-name check of the favicon upload is case-sensitive.
- The favicon `find` stops listing at the first file it cannot inspect.
- An empty `availableFiles` array is truthy, so the recorded file list is then not
  consulted.
- `convertToRelativePath` leaves relative paths alone but is not the identity on every
  relative string.

## Model

| member | source | states |
|---|---|---|
| Amp.AbsoluteUrl | frontend/lib/amp.ts:33-36 | a URL starting with `/` gets `https://cavota.id` in front and any other is kept, so the result ends with the input and never starts with `/` |
| Amp.NumberOr | frontend/lib/amp.ts:20-21 | `media.width \|\| 800`: a missing or zero size gives the default, any other size is kept |
| Amp.PreferredRendition | frontend/lib/amp.ts:18-31 | the large format when present, else the medium one, else the original URL with 800 x 600 standing in for missing sizes |
| Amp.AltText | frontend/lib/amp.ts:38 | the first non-empty of alternative text, caption and file name, else `Image`; never empty |
| Amp.EscapeQuotes | frontend/lib/amp.ts:48 | no `"` is left in the alt text; text without quotes is unchanged and nothing gets shorter |
| Amp.EscapeQuotesReplaces | frontend/lib/amp.ts:48 | the alt escape is the global replace of `"` by `&quot;`: every quote becomes `&quot;` and every other character is kept, in order |
| Amp.ToAmpImage | frontend/lib/amp.ts:15-51 | no media gives `''`; otherwise the `<amp-img>` tag of the preferred rendition with its absolute URL, the alt fallback and the class of the role |
| Amp.ImageTemplateParts | frontend/lib/amp.ts:41-50 | the image tag opens with the source URL and closes with `cover-image` or `inline-image` as the role says |
| Amp.QuotedAssignment | frontend/lib/amp.ts:73-74 | `\s*=\s*["']…["']` found at a position gives the bounds of a quote-free value between two quote characters |
| Amp.NumberAssignment | frontend/lib/amp.ts:75-76 | `\s*=\s*["']?(\d+)` gives the bounds of a non-empty run of digits |
| Amp.QuotedAttr | frontend/lib/amp.ts:73-74 | the leftmost `name="value"` match of an attribute text yields a value holding no quote |
| Amp.NumberAttr | frontend/lib/amp.ts:75-76 | the leftmost width or height match yields a non-empty string of digits |
| Amp.QuotedAttrNeedsAssignment | frontend/lib/amp.ts:73-76 | where a name is never followed by `=` neither attribute pattern finds a value |
| Amp.AttrAbsent | frontend/lib/amp.ts:73-78 | an attribute never assigned has no value, quoted or numeric |
| Amp.ElementSpan | frontend/lib/amp.ts:64-65 | an element found at the front starts with its opening tag and its span ends at the first closing tag after the tag's `>` |
| Amp.BlockAt | frontend/lib/amp.ts:64-65 | `<tag[^>]*>[\s\S]*?</tag>` (any case), with which both the script and the style strip are written: a removed block starts with the opening tag, ends with the closing tag, is replaced by nothing and never occurs in plain text |
| Amp.HandlerAt | frontend/lib/amp.ts:68 | the event-handler pattern removes what it matches and never matches plain text |
| Amp.HandlerNamedAt | frontend/lib/amp.ts:68 | after `on`, the rest of the handler pattern removes at least the name and never matches plain text |
| Amp.ImgReplacement | frontend/lib/amp.ts:71-89 | an image is dropped exactly when its attributes assign no quoted `src` |
| Amp.ImgAt | frontend/lib/amp.ts:71 | an image match runs from `<img` to the first `>`, and the tag is replaced by the conversion of the text between them |
| Amp.ImgTag | frontend/lib/amp.ts:71-89 | any `<img…>` tag is one match, replaced by the conversion of its attribute text |
| Amp.ImgWithoutSrc | frontend/lib/amp.ts:78 | an image without an assigned `src` is removed |
| Amp.ImgDefaults | frontend/lib/amp.ts:80-88 | an image with only a source becomes an 800 x 600 responsive `<amp-img>` with an empty alt and an absolute source |
| Amp.SrcOnlySource | frontend/lib/amp.ts:73-80 | with `src="…"` as the only assignment the source is found; a `data-src` counts as a `src` |
| Amp.SrcOnlyNoOtherAttrs | frontend/lib/amp.ts:74-83 | with `src="…"` as the only assignment no alt, width or height is found, so the defaults apply |
| Amp.VideoReplacement | frontend/lib/amp.ts:92-106 | a video is dropped exactly when its attributes assign no quoted `src` |
| Amp.VideoAt | frontend/lib/amp.ts:92 | a video match runs from `<video` to a `</video>` |
| Amp.VideoElement | frontend/lib/amp.ts:92-106 | a whole video element is one match and its content is discarded for the `<amp-video>` |
| Amp.VideoDefaults | frontend/lib/amp.ts:99-105 | a video with only a source becomes a 640 x 360 `<amp-video>` with controls and an absolute source |
| Amp.YoutubeIdEnd | frontend/lib/amp.ts:109 | the backtracking of the id: the id found is followed, before any other `>`, by `></iframe>` |
| Amp.YoutubeFrom | frontend/lib/amp.ts:109 | the backtracking of `[^>]*` before the embed path finds an id that `></iframe>` follows |
| Amp.YoutubeEmbedAt | frontend/lib/amp.ts:109 | a match at a position starts with `youtube.com/embed/` and its id holds only id characters |
| Amp.YoutubeAt | frontend/lib/amp.ts:109-111 | a YouTube match runs from `<iframe` to `</iframe>` |
| Amp.YoutubeHit | frontend/lib/amp.ts:109-111 | the match ends right after its `</iframe>` |
| Amp.YoutubeIframe | frontend/lib/amp.ts:108-111 | an empty iframe embedding a video becomes `<amp-youtube>` with exactly that video's id |
| Amp.IframeAt | frontend/lib/amp.ts:114 | any other iframe match runs from `<iframe` to `</iframe>` and is removed |
| Amp.OtherIframeRemoved | frontend/lib/amp.ts:113-114 | an iframe element whose tag does not mention `amp-` is removed whole, content included |
| Amp.DangerousName | frontend/lib/amp.ts:117 | a dangerous attribute name is `style`, `onclick`, `onload` or `onerror`, or there is none |
| Amp.DangerousAttrAt | frontend/lib/amp.ts:117 | the dangerous-attribute pattern removes what it matches and never matches plain text |
| Amp.AnchorAt | frontend/lib/amp.ts:120-127 | a tag beginning `<a` gains `rel="noopener nofollow"` when it opens a new tab without a `rel`, and is copied unchanged otherwise |
| Amp.AnchorTag | frontend/lib/amp.ts:120-127 | any `<a…>` tag is one match, patched exactly when it needs a `rel` |
| Amp.AmpTagsArePatchedToo | frontend/lib/amp.ts:120-124 | an `<amp-img>` tag opening a new tab is patched like a link |
| Amp.SanitizeToAmp | frontend/lib/amp.ts:58-59 | empty HTML gives `''` |
| Amp.PlainScanUnchanged | frontend/lib/amp.ts:61-129 | a rewrite whose pattern needs `<` or `=` leaves text without them alone |
| Amp.SanitizePlainText | frontend/lib/amp.ts:58-130 | text without tags or attribute assignments comes out of the sanitizer unchanged |
| Amp.ScriptBlock | frontend/lib/amp.ts:64 | a script element at the front is one match of the script pattern, removed whole |
| Amp.PlainScriptBlock | frontend/lib/amp.ts:64 | `<script>…</script>` with no `<` in its body is found by the script pattern |
| Amp.SanitizeDropsLeadingScript | frontend/lib/amp.ts:63-64 | a script element at the start of the HTML is dropped and the rest is sanitized as if it had never been there |
| Amp.NestedScriptOuter | frontend/lib/amp.ts:64 | in `<scr<script>…</script>…` the outer `<scr` is copied and the inner element is removed |
| Amp.ScriptScanCopiesTail | frontend/lib/amp.ts:64 | text whose only `<` opens a closing tag is copied by the script strip |
| Amp.ScriptStripIsSinglePass | frontend/lib/amp.ts:64 | removing an inner script joins the text around it into a new script element that the strip leaves in place |
| Amp.HandlerRemoved | frontend/lib/amp.ts:67-68 | an `on…="…"` attribute with the whitespace before it is one match and is removed |
| Amp.SetAdd | frontend/lib/amp.ts:407-425 | `Set.prototype.add` in insertion order: the element is added once and nothing else changes |
| Amp.RequiredComponentsFacts | frontend/lib/amp.ts:406-428 | the amp-img script comes first and always, no script twice, and the video, YouTube and accordion scripts each appear exactly when the HTML holds that element |
| Amp.GetRequiredAmpComponents | frontend/lib/amp.ts:406-428 | the set built step by step gives the required scripts in insertion order, with no duplicates |
| Templates.Member | frontend/hooks/useDynamicContent.ts:82 | `value?.[key]` is `undefined` on `undefined` or `null`, and only objects, arrays and strings have members |
| Templates.MissingStepIsUndefined | frontend/hooks/useDynamicContent.ts:80-83 | once a walk reaches `undefined` or `null` it ends in `undefined`; optional chaining never fails |
| Templates.ResolveSiteSettings | frontend/hooks/useDynamicContent.ts:75-83 | a path starting with `site_settings` walks the site settings with the remaining keys |
| Templates.WalkPath | frontend/hooks/useDynamicContent.ts:80-83 | the loop that follows one key per step ends at the value the whole path resolves to |
| Templates.StringOf | frontend/hooks/useDynamicContent.ts:85 | `String(value)` keeps a string and prints a non-negative number as its decimal digits |
| Templates.ReplacePlaceholder | frontend/hooks/useDynamicContent.ts:73-86 | the callback trims and splits the path, walks it and returns the printed value or the placeholder itself |
| Templates.PlaceholderAt | frontend/hooks/useDynamicContent.ts:73 | a placeholder match starts with `{` and spans at least `{{x}}` |
| Templates.MatcherAdvances | frontend/hooks/useDynamicContent.ts:73 | every match consumes text, so the global replace terminates |
| Templates.ProcessTemplate | frontend/hooks/useDynamicContent.ts:70-71 | until both records are loaded, or for an empty template, the template comes back unchanged |
| Templates.PlaceholderMatch | frontend/hooks/useDynamicContent.ts:73 | `{{path}}` with no `}` in the path is matched exactly up to its closing braces |
| Templates.CopiesText | frontend/hooks/useDynamicContent.ts:73 | text without `{` is copied unchanged and in order |
| Templates.ReplacesPlaceholder | frontend/hooks/useDynamicContent.ts:73-86 | each placeholder is replaced by its substitution and the text after it is processed on its own |
| Templates.UnresolvedKept | frontend/hooks/useDynamicContent.ts:85 | a placeholder whose walk ends in `undefined` or `null` stays, braces included |
| Templates.ResolvedInserted | frontend/hooks/useDynamicContent.ts:85 | a placeholder whose walk reaches a value is replaced by that value printed |
| Templates.UnclosedKept | frontend/hooks/useDynamicContent.ts:73 | where a `{{` is never closed nothing is replaced |
| Seo.ImageUrl | frontend/lib/seo.ts:38-40 | a share image URL starting with `http` is kept, any other gets the site URL in front, and without one it is site URL plus default image |
| Seo.Keywords | frontend/lib/seo.ts:45 | only missing keywords give no list, and otherwise there is one keyword per comma-separated piece |
| Seo.KeywordsAreTrimmedPieces | frontend/lib/seo.ts:45 | each keyword is its piece trimmed: no comma, no whitespace at either end |
| Seo.KeywordsRoundTrip | frontend/lib/seo.ts:45 | for a keyword string without whitespace, joining the list with commas gives the string back |
| Seo.MapSeoToMetadata | frontend/lib/seo.ts:23-88 | title and description fall back to the site name; Open Graph and Twitter repeat them with the same image; robots fall back to index-and-follow; a canonical link exists exactly when the canonical URL is non-empty |
| Seo.ImageAltFallsBackToTitle | frontend/lib/seo.ts:56 | without an alternative text the share image's alt is the page title |
| Seo.EmptySeoDefaults | frontend/lib/seo.ts:36-85 | an empty SEO component gives the site name, the firm's tagline, the default image, index-and-follow and no keywords or canonical link |
| Seo.ArticleStructuredData | frontend/lib/seo.ts:91-130 | the article carries its inputs; author defaults to `CAVOTA`, modification date to publication date, image to the default |
| Seo.UnmodifiedArticle | frontend/lib/seo.ts:126 | an article never modified reports its publication date as modification date |
| Favicons.FileList | frontend/lib/favicons.ts:20-36 | a failed or thrown request gives no files; otherwise the files found on disk, else the files recorded, else none; an empty found list is used as it is |
| Favicons.IconFor | frontend/lib/favicons.ts:53-90 | each icon entry points at `/favicons/<name>` on the CMS |
| Favicons.Listed | frontend/lib/favicons.ts:53-73 | at most one entry per candidate name |
| Favicons.FaviconIcons | frontend/lib/favicons.ts:46-92 | the standard icons, the Apple icon and the manifest are each the listed ones of their names |
| Favicons.GenerateFaviconMetadata | frontend/lib/favicons.ts:43-93 | the pushes build exactly the icons of the listed files |
| Favicons.StandardIconsListed | frontend/lib/favicons.ts:52-73 | `.ico`, `.svg` and 96 x 96 PNG appear in that order, each exactly when its file is listed |
| Favicons.IconIffListed | frontend/lib/favicons.ts:53-73 | the entry of a standard icon is present exactly when its file is listed |
| Favicons.IconsBounded | frontend/lib/favicons.ts:46-92 | at most three standard icons, and one Apple icon and one manifest exactly when their files are listed |
| Favicons.OtherFilesIgnored | frontend/lib/favicons.ts:53-90 | a file outside the names looked for adds nothing |
| Favicons.WebAppManifestsIgnored | frontend/lib/favicons.ts:46-92 | the two web-app manifest icons never appear in the metadata |
| Favicons.IconTypesAgreeWithRoute | frontend/lib/favicons.ts:56-80 | the type the metadata announces for a file is the type the favicon route serves it with |
| Favicons.UrlIfListed | frontend/lib/favicons.ts:102-116 | a URL is given exactly when the file is listed |
| Favicons.Urls | frontend/lib/favicons.ts:98-118 | each of the five URLs is present exactly when its file is listed |
| Favicons.UrlsAgreeWithIcons | frontend/lib/favicons.ts:98-118 | the plain URLs and the metadata name the same files |
| FaviconFiles.AllowedArePlainNames | backend/src/api/favicon-settings/controllers/favicon-settings.ts:55-63 | seven distinct allowed names, none naming or leaving a directory |
| FaviconRoute.ContentType | frontend/app/next-api/favicons/route.ts:45-55 | the mapped type of a known file, `application/octet-stream` otherwise |
| FaviconRoute.Get | frontend/app/next-api/favicons/route.ts:11-68 | a missing file gives 400, a name outside the list gives 400 without any fetch, an answer that is not ok gives 404, an exception from the fetch or the body gives 500, and otherwise the file's bytes are served with its type and cached forever |
| FaviconRoute.AllowedHaveContentType | frontend/app/next-api/favicons/route.ts:21-55 | every allowed file has its own type; the fallback is never used |
| FaviconRoute.ContentTypeByName | frontend/app/next-api/favicons/route.ts:45-53 | PNGs are `image/png`, the icon `image/x-icon`, the SVG `image/svg+xml`, the manifest `application/manifest+json` |
| FaviconRoute.ServedSafely | frontend/app/next-api/favicons/route.ts:20-36 | what the route fetches is a single allowed file directly under `/favicons/` |
| FaviconSettings.StripSlashes | backend/src/api/favicon-settings/controllers/favicon-settings.ts:68 | trailing `/` are dropped before the base name is taken |
| FaviconSettings.SegmentStart | backend/src/api/favicon-settings/controllers/favicon-settings.ts:68 | the last segment starts after the last `/` |
| FaviconSettings.Basename | backend/src/api/favicon-settings/controllers/favicon-settings.ts:68 | a base name holds no `/` |
| FaviconSettings.BasenameOfNested | backend/src/api/favicon-settings/controllers/favicon-settings.ts:68 | a name under any folders has itself as base name |
| FaviconSettings.ChosenFile | backend/src/api/favicon-settings/controllers/favicon-settings.ts:29-33 | the single file, or the first of several; none without a file or with an empty list |
| FaviconSettings.Extracted | backend/src/api/favicon-settings/controllers/favicon-settings.ts:65-80 | at most one extracted name per archive entry |
| FaviconSettings.Upserted | backend/src/api/favicon-settings/controllers/favicon-settings.ts:90-113 | the row holds the extracted names and the upload time, keeping the existing row's id or taking a new one |
| FaviconSettings.FaviconStore.constructor | backend/src/api/favicon-settings/controllers/favicon-settings.ts:18-20 | an empty directory and no settings row |
| FaviconSettings.FaviconStore.Upload | backend/src/api/favicon-settings/controllers/favicon-settings.ts:25-128 | no file is a bad request; an empty file list ends in the 500 answer; a non-zip is refused; an unreadable archive is a bad request; a write or database call that throws is the same bad request, with the files written before it left in the directory and the row untouched; otherwise the allowed entries are written and the row upserted, and refusals change nothing |
| FaviconSettings.FaviconStore.ExtractEntries | backend/src/api/favicon-settings/controllers/favicon-settings.ts:65-80 | the loop writes each allowed file entry under its base name in archive order; it completes exactly when no such write throws, and a write that throws leaves the files written before it |
| FaviconSettings.FaviconStore.Find | backend/src/api/favicon-settings/controllers/favicon-settings.ts:134-173 | a settings query that throws gives the 500 answer `Failed to fetch favicon settings`; otherwise no row gives the no-settings answer, an unreadable directory lists no files, and else the regular files up to the first that cannot be inspected |
| FaviconSettings.ExtractedAllowed | backend/src/api/favicon-settings/controllers/favicon-settings.ts:67-71 | only allowed names are ever extracted |
| FaviconSettings.ExtractedMembers | backend/src/api/favicon-settings/controllers/favicon-settings.ts:67-79 | a name is extracted exactly when some file entry, at any depth, has it as an allowed base name |
| FaviconSettings.WrittenKeys | backend/src/api/favicon-settings/controllers/favicon-settings.ts:67-79 | the upload adds to the directory exactly the extracted names |
| FaviconSettings.UploadStaysInDirectory | backend/src/api/favicon-settings/controllers/favicon-settings.ts:68-76 | every new file of the directory is a plain allowed name |
| FaviconSettings.NestedEntryExtracted | backend/src/api/favicon-settings/controllers/favicon-settings.ts:68-78 | an allowed file nested in a folder of the archive is extracted under its own name |
| FaviconSettings.ZipCheckIsCaseSensitive | backend/src/api/favicon-settings/controllers/favicon-settings.ts:36 | `ICONS.ZIP` of a non-zip type is refused where `icons.zip` passes |
| FaviconSettings.AvailableMembers | backend/src/api/favicon-settings/controllers/favicon-settings.ts:151-159 | when every entry can be inspected, exactly the regular files are listed |
| Cdn.Cdnize | frontend/lib/cdn.ts:13-26 | an upload on `cavota.id` is sent through the image base when one is set; any other URL, and the empty one, is kept |
| Cdn.NoUploadsAfterRewrite | frontend/lib/cdn.ts:20 | a rewritten URL holds no `/uploads/` of its own when the encoded URL has no `/` |
| Cdn.CdnizeIdempotent | frontend/lib/cdn.ts:13-26 | rewriting twice is rewriting once |
| Cdn.ResponsiveUrls | frontend/lib/cdn.ts:34-47 | one URL per requested width, each the resized URL of that width or the original without a base |
| Cdn.ResponsiveDefaults | frontend/lib/cdn.ts:34-40 | the default widths are 320, 640, 1024 and 1920, and without a base every width gives the original |
| Cdn.OptimizeForAmp | frontend/lib/cdn.ts:57-71 | without a base the URL is kept; otherwise base, the comma-joined options and the encoded URL |
| Cdn.AmpParamsReadBack | frontend/lib/cdn.ts:62-68 | the options read back as width, height, quality 85, `format=auto` and `fit=cover`, in that order |
| Cdn.NoCommaAfterKey | frontend/lib/cdn.ts:63-65 | a printed option holds no comma, so the options separate cleanly |
| Sitemap.DropCustom | frontend/app/sitemap.xml/route.ts:55 | the filter never adds pages |
| Sitemap.DropCustomKeeps | frontend/app/sitemap.xml/route.ts:55 | exactly the pages that are not custom are kept |
| Sitemap.FetchItems | frontend/app/sitemap.xml/route.ts:34-65 | the per-locale loop gathers the answers in order, skips a failed status, and returns nothing once a request throws or, for the pages, once an answer holds a `null` page |
| Sitemap.GatheredAppend | frontend/app/sitemap.xml/route.ts:39-58 | the locales' contributions concatenate in order |
| Sitemap.FailedLocaleSkipped | frontend/app/sitemap.xml/route.ts:50 | a locale whose request fails is skipped and the others are kept |
| Sitemap.GatheredFrom | frontend/app/sitemap.xml/route.ts:52-57 | every gathered item comes from some locale's answer |
| Sitemap.PagesAreNotCustom | frontend/app/sitemap.xml/route.ts:34-65 | no custom page and no `null` reaches the page list, and every page listed was in some answer |
| Sitemap.AnsweredEntriesKept | frontend/app/sitemap.xml/route.ts:50-57 | when nothing throws, every entry of every successful answer is listed, custom pages excepted for the page list |
| Sitemap.PageUrl | frontend/app/sitemap.xml/route.ts:211-212 | `beranda` and an empty slug give the locale's home, any other slug its path under the locale |
| Sitemap.BerandaIsHome | frontend/app/sitemap.xml/route.ts:211 | the `beranda` page of a locale is that locale's home |
| Sitemap.SectionNames | frontend/app/sitemap.xml/route.ts:225-263 | Indonesian items live under `/id/layanan`, `/id/wawasan` and `/id/karya`, others under `/<locale>/services`, `/insights` and `/work` |
| Sitemap.GenerateSitemap | frontend/app/sitemap.xml/route.ts:184-280 | the pushes build the entries group by group and the XML is the `urlset` of those entries |
| Sitemap.PushPages | frontend/app/sitemap.xml/route.ts:210-221 | one monthly 0.8 entry per page, in order |
| Sitemap.PushServices | frontend/app/sitemap.xml/route.ts:224-235 | one monthly 0.9 entry per service, in order |
| Sitemap.PushInsights | frontend/app/sitemap.xml/route.ts:238-258 | per insight, its article entry then its AMP page entry |
| Sitemap.PushWorks | frontend/app/sitemap.xml/route.ts:261-272 | one monthly 0.7 entry per work, in order |
| Sitemap.PageEntriesAt | frontend/app/sitemap.xml/route.ts:210-221 | entry i is page i's URL, its formatted date, monthly, 0.8 |
| Sitemap.ServiceEntriesAt | frontend/app/sitemap.xml/route.ts:224-235 | entry i is service i's URL, its formatted date, monthly, 0.9 |
| Sitemap.InsightEntriesAt | frontend/app/sitemap.xml/route.ts:238-258 | insight i is at 2i at 0.7 and its `/amp` page right after at 0.6 |
| Sitemap.WorkEntriesAt | frontend/app/sitemap.xml/route.ts:261-272 | entry i is work i's URL, its formatted date, monthly, 0.7 |
| Sitemap.SitemapLayout | frontend/app/sitemap.xml/route.ts:190-278 | two weekly 1.0 homes, then pages, services, insights (two each) and works, with the count of all of them |
| Sitemap.LocPrinted | frontend/app/sitemap.xml/route.ts:214-278 | every entry's `<loc>` appears in the printed list |
| Sitemap.Sitemap | frontend/app/sitemap.xml/route.ts:285-329 | a `null` entry in any of the four lists gives the fixed two-home fallback sitemap; otherwise the sitemap of the four lists |
| Sitemap.NullEntryFallsBack | frontend/app/sitemap.xml/route.ts:224-327 | a `null` service in an answer, with no service request throwing, gives the fallback sitemap; a `null` page never reaches the page list |
| Webhook.PairLiterals | frontend/app/next-api/strapi-webhook/route.ts:34-65 | the fixed pairs are the homes and the two listing pages |
| Webhook.PairSlugs | frontend/app/next-api/strapi-webhook/route.ts:41-61 | the slug pairs are the localized paths of the page, the insight, its AMP page and the work |
| Webhook.PairIsPaired | frontend/app/next-api/strapi-webhook/route.ts:34-35 | a pair is an Indonesian path followed by an English one |
| Webhook.PairedAppend | frontend/app/next-api/strapi-webhook/route.ts:31-88 | pushing pairs after pairs keeps the list paired |
| Webhook.PairedAlternates | frontend/app/next-api/strapi-webhook/route.ts:31-88 | a paired list has even length and alternates `/id` and `/en` paths |
| Webhook.PathsToRevalidate | frontend/app/next-api/strapi-webhook/route.ts:31-88 | the pushes give the homes followed by the paths of the model |
| Webhook.PathsArePaired | frontend/app/next-api/strapi-webhook/route.ts:33-88 | every list starts with `/id`, `/en`, has even length and alternates the two locales |
| Webhook.ModelPathsPaired | frontend/app/next-api/strapi-webhook/route.ts:38-88 | what each model adds is paired |
| Webhook.PagePaths | frontend/app/next-api/strapi-webhook/route.ts:39-44 | a page with a slug adds exactly its two localized paths, without one nothing |
| Webhook.ListingsAlwaysRevalidated | frontend/app/next-api/strapi-webhook/route.ts:53-65 | the insight and work listings are revalidated, last, with or without a slug |
| Webhook.HomeOnlyModels | frontend/app/next-api/strapi-webhook/route.ts:68-87 | an unknown model revalidates only the homes; the three global models repeat them |
| Webhook.SuccessCount | frontend/app/next-api/strapi-webhook/route.ts:113 | the count of successes is at most the number of results |
| Webhook.SuccessCountBounds | frontend/app/next-api/strapi-webhook/route.ts:113-126 | all succeeded exactly when the count is the total, none exactly when it is 0 |
| Webhook.WebhookPost | frontend/app/next-api/strapi-webhook/route.ts:21-137 | an unreadable body gives the 500 answer; otherwise one result per path in order, each with that path's outcome, and event and model echoed |
| Revalidate.CacheTags | frontend/app/next-api/revalidate/route.ts:31-39 | a page has one tag, an insight its tag and its listing tag, with locale `id` by default; any other model none |
| Revalidate.RevalidateTags | frontend/app/next-api/revalidate/route.ts:41-52 | the loop keeps the tags that did not throw |
| Revalidate.KeptIsOrderedSubsequence | frontend/app/next-api/revalidate/route.ts:42-52 | the revalidated tags keep the order of the tags |
| Revalidate.KeptMembers | frontend/app/next-api/revalidate/route.ts:43-51 | a tag is revalidated exactly when it is a tag and did not throw |
| Revalidate.Post | frontend/app/next-api/revalidate/route.ts:1-71 | no secret configured gives 500, a wrong secret 401, missing model or slug 400, in that order; success returns the tags revalidated |
| Revalidate.Get | frontend/app/next-api/revalidate/route.ts:73-100 | a missing or wrong secret gives 401, a missing model or slug 400, and otherwise the answer of `POST` |
| Revalidate.GetPassesPost | frontend/app/next-api/revalidate/route.ts:73-100 | `GET` always revalidates or answers 401 or 400, never 500 |
| Revalidate.OtherModelsRevalidateNothing | frontend/app/next-api/revalidate/route.ts:34-39 | any other model is acknowledged with no tag |
| Rfp.EmailMatchesIffWellFormed | frontend/app/next-api/rfp-submissions/route.ts:22-23 | the address pattern accepts exactly the addresses with no whitespace, one `@` with text before it, and a `.` inside the domain |
| Rfp.EmailExamples | frontend/app/next-api/rfp-submissions/route.ts:22 | `a@b.co` passes; `a@b`, `a@.co`, `a@b.` and `@b.co` do not |
| Rfp.OrNull | frontend/app/next-api/rfp-submissions/route.ts:35-39 | `value \|\| null` keeps exactly the non-empty values |
| Rfp.Payload | frontend/app/next-api/rfp-submissions/route.ts:31-45 | the record carries the form's fields, empty optional ones as null, locale `id` by default, source and status fixed |
| Rfp.Thanks | frontend/app/next-api/rfp-submissions/route.ts:67-69 | Indonesian thanks exactly for locale `id` |
| Rfp.Rejection | frontend/app/next-api/rfp-submissions/route.ts:14-28 | missing name, email or message is refused first, then a malformed address, and nothing else |
| Rfp.Post | frontend/app/next-api/rfp-submissions/route.ts:7-83 | an unreadable body is a 500; a refused form is a 400 with its reason; a rejection by the CMS is a 500 with its status text; an unreachable CMS a 500 with its error; otherwise the thanks |
| Rfp.SentOnlyWellFormed | frontend/app/next-api/rfp-submissions/route.ts:14-28 | a sent form had a name, a message and a well-formed address |
| Rfp.MissingLocale | frontend/app/next-api/rfp-submissions/route.ts:41-69 | a form without a locale is stored as `id` but thanked in English |
| ContentExport.Or | backend/src/api/content-export/controllers/content-export.ts:56 | `v \|\| d` keeps truthy values and replaces the others |
| ContentExport.BasicFields | backend/src/api/content-export/controllers/content-export.ts:74-79 | a basic field is present exactly when it is neither undefined nor null, as its current value or `''` |
| ContentExport.ItemFields | backend/src/api/content-export/controllers/content-export.ts:85-132 | every named item field is present, as its current value or `''` |
| ContentExport.Items | backend/src/api/content-export/controllers/content-export.ts:84-132 | the map throws exactly when an item is null or undefined, and otherwise gives one record per item in order |
| ContentExport.ReservedNames | backend/src/api/content-export/controllers/content-export.ts:70-128 | the fields the export adds never clash with the basic ones |
| ContentExport.SectionRecord | backend/src/api/content-export/controllers/content-export.ts:68-137 | a section exports exactly when its component is a string and its nested list can be built, under `section_<n>_<component>` |
| ContentExport.SectionFields | backend/src/api/content-export/controllers/content-export.ts:70-135 | a section record names its component, holds its present basic fields and its nested list when it has one |
| ContentExport.Nested | backend/src/api/content-export/controllers/content-export.ts:82-135 | a nested list is built only when the section's field is an array, one record per item |
| ContentExport.ExportSections | backend/src/api/content-export/controllers/content-export.ts:67-139 | the `forEach` stores each section's record, or throws |
| ContentExport.ThrowPersists | backend/src/api/content-export/controllers/content-export.ts:68-138 | once a section throws, the whole loop does |
| ContentExport.SectionKeysDistinct | backend/src/api/content-export/controllers/content-export.ts:69 | two sections share a key only when they are the same section |
| ContentExport.RecordKeysDiffer | backend/src/api/content-export/controllers/content-export.ts:69-137 | different sections never overwrite each other |
| ContentExport.SectionsDoneIff | backend/src/api/content-export/controllers/content-export.ts:67-139 | the export fails exactly when some section throws |
| ContentExport.SectionsAllKept | backend/src/api/content-export/controllers/content-export.ts:67-139 | every section is exported under its own key, so there are as many as on the page |
| ContentExport.KeyIsNew | backend/src/api/content-export/controllers/content-export.ts:137 | no key other than a section's is in the export |
| ContentExport.Query | backend/src/api/content-export/controllers/content-export.ts:32-39 | the pages found are exactly the pages with that slug and locale |
| ContentExport.LimitedText | backend/src/api/content-export/controllers/content-export.ts:54-63 | the text is the page's own or `''`, with its length limit |
| ContentExport.PageInfo | backend/src/api/content-export/controllers/content-export.ts:48-53 | slug, locale, title and the export time |
| ContentExport.ExportBody | backend/src/api/content-export/controllers/content-export.ts:47-65 | the page information, the SEO texts limited to 60 and 160, and the sections |
| ContentExport.ExportPageBySlug | backend/src/api/content-export/controllers/content-export.ts:27-145 | a page query that throws gives the bad request `Error exporting page`; otherwise not found exactly when no page has that slug and locale (`id` by default), a bad request exactly when the sections fail, and else the export of the first page found |
| ContentExport.ExportedPage | backend/src/api/content-export/controllers/content-export.ts:45 | the page exported has the requested slug and locale |
| ContentExport.SeoLimits | backend/src/api/content-export/controllers/content-export.ts:54-63 | the exported SEO texts carry the limits 60 and 160 and the page's texts or `''` |
| ContentExport.PageSectionsThrow | backend/src/api/content-export/controllers/content-export.ts:67-144 | the export fails exactly when the sections are truthy but not a list, or some section throws |
| ContentExport.ExportedSectionsOfPage | backend/src/api/content-export/controllers/content-export.ts:67-139 | none for a page without sections, otherwise one record per section under its own key |
| ContentExport.PlaybookStepNumber | backend/src/api/content-export/controllers/content-export.ts:131 | a step without a number is numbered by its position from 1 |
| ContentExport.ServiceIcon | backend/src/api/content-export/controllers/content-export.ts:88 | a service without an icon exports `null`, one with an icon its URL or `''` |
| SeoUpdates.CanonicalUpdate | scripts/standardize-canonical-urls.js:43-73 | a request is sent exactly when the rewrite changes a non-empty canonical URL; it copies six named fields, carries the new URL and drops the image |
| SeoUpdates.CanonicalUpdates | scripts/standardize-canonical-urls.js:43-86 | at most one request per entry |
| SeoUpdates.UpdateCanonicalUrls | scripts/standardize-canonical-urls.js:22-92 | a listing that fails sends nothing, otherwise the loop's requests in order |
| SeoUpdates.CanonicalUpdatesMembers | scripts/standardize-canonical-urls.js:43-73 | a request is sent exactly for the entries whose canonical URL the rewrite changes |
| SeoUpdates.NothingToRewrite | scripts/standardize-canonical-urls.js:48 | when the rewrite leaves every canonical URL alone, nothing is sent |
| CanonicalUrls.OriginAt | scripts/standardize-canonical-urls.js:17 | an origin match starts with `h` and is removed |
| CanonicalUrls.OriginAdvances | scripts/standardize-canonical-urls.js:17 | every match consumes text |
| CanonicalUrls.CollapseLeadingSlashes | scripts/standardize-canonical-urls.js:18 | leading slashes become one, and text without a leading slash is kept |
| CanonicalUrls.ConvertToRelativePath | scripts/standardize-canonical-urls.js:12-19 | the empty URL is kept, and no result starts with `//` |
| CanonicalUrls.NoSchemeNoOrigin | scripts/standardize-canonical-urls.js:17 | text without `http://` or `https://` offers the pattern no match |
| CanonicalUrls.OriginMatch | scripts/standardize-canonical-urls.js:17 | an origin is matched exactly up to the `/` after the host |
| CanonicalUrls.OriginRemovedAnywhere | scripts/standardize-canonical-urls.js:17 | an origin is removed wherever it is, and the text around it is kept |
| CanonicalUrls.OriginRemovedAtFront | scripts/standardize-canonical-urls.js:17 | an origin at the front is removed and the rest kept |
| CanonicalUrls.AbsoluteBecomesPath | scripts/standardize-canonical-urls.js:12-19 | an absolute URL becomes its path with one leading slash; a bare origin becomes `''` |
| CanonicalUrls.RelativePathKept | scripts/standardize-canonical-urls.js:12-19 | a path with a single leading slash and no scheme is kept |
| CanonicalUrls.AlreadyRelativeNotUpdated | scripts/standardize-canonical-urls.js:48-84 | an entry whose canonical URL is already relative gets no request |
| CanonicalUrls.Script | scripts/standardize-canonical-urls.js:241-273 | without a token the script exits with 1 before any request; otherwise it makes the three passes' requests |
| DomainRewrite.LegacyFreeUnchanged | scripts/update-domain-to-cavota.js:38-44 | text without a former origin is unchanged, so nothing is sent for it |
| DomainRewrite.HeadShields | scripts/update-domain-to-cavota.js:38-42 | a replaced origin cannot start a match of a later pattern |
| DomainRewrite.OriginsHaveOneLeadingH | scripts/update-domain-to-cavota.js:38-42 | each origin's only `h` is its first character |
| DomainRewrite.LegacyOriginReplaced | scripts/update-domain-to-cavota.js:38-42 | each former origin, `http` or `https`, becomes `https://cavota.id` and the rest is kept |
| DomainRewrite.LegacyCanonicalMoved | scripts/update-domain-to-cavota.js:33-69 | a canonical URL on a former origin is sent as the same URL on `https://cavota.id` |
| DomainRewrite.StructuredDataUpdate | scripts/update-domain-to-cavota.js:268-296 | a request is sent exactly for non-empty structured data the rewrite changes, carrying the whole SEO component with only the structured data rewritten |
| DomainRewrite.StructuredDataUpdates | scripts/update-domain-to-cavota.js:268-306 | at most one request per item |
| DomainRewrite.LegacyFreeNothingSent | scripts/update-domain-to-cavota.js:273-279 | structured data without a former origin gets no request |
| DomainRewrite.UpdateStructuredData | scripts/update-domain-to-cavota.js:243-313 | the loop over pages, works and insights gives the pass's requests |
| DomainRewrite.PassSplits | scripts/update-domain-to-cavota.js:250-307 | collections that do not throw contribute their requests one after another |
| DomainRewrite.SkipAndStop | scripts/update-domain-to-cavota.js:260-312 | an inaccessible collection is skipped; a listing that throws ends the pass |
| DomainRewrite.Script | scripts/update-domain-to-cavota.js:316-346 | without a token the script exits with 1 before any request; otherwise the canonical passes, then the structured-data pass |
| Navbar.GetLogoSet | frontend/components/Navbar.tsx:72-87 | the dark pair in the dark theme when a dark logo has a URL, otherwise the regular pair when the logo has one, otherwise none |
| Navbar.LogoSources | frontend/components/Navbar.tsx:126-133 | the image source is on `https://cavota.id`, with a `2x` source exactly when the retina logo has a URL |
| Navbar.Href | frontend/components/Navbar.tsx:95 | the Indonesian URL for `id`, the English one otherwise |
| Navbar.Navigation | frontend/components/Navbar.tsx:92-113 | the five links home, services, insights, about, contact with the locale's URLs |
| Navbar.CtaUrl | frontend/components/Navbar.tsx:116 | the call to action goes where the contact link goes |
| Navbar.NavigationFollowsLocale | frontend/components/Navbar.tsx:92-113 | every link of the Indonesian bar is its Indonesian URL, of any other bar its English URL |
| Navbar.PathWithoutLocale | frontend/components/Navbar.tsx:292 | the path without its locale is never empty |
| Navbar.SwitchPath | frontend/components/Navbar.tsx:292-293 | the switcher's target starts with the new locale |
| Navbar.SwitchKeepsPath | frontend/components/Navbar.tsx:287-302 | switching a localized path keeps everything after the locale |
| Navbar.SwitchBack | frontend/components/Navbar.tsx:287-302 | switching there and back returns to the first path |
| Navbar.FirstLettersTakenForLocale | frontend/components/Navbar.tsx:292 | `/about` switches to `/enout` |
| Navbar.CurrentLanguage | frontend/components/Navbar.tsx:330 | the language of the current locale when it is listed, else Indonesian |
| Text.Trim | frontend/lib/seo.ts:45 | `trim` leaves no whitespace at either end |
| Text.Split | frontend/lib/seo.ts:45 | `split` gives at least one piece, none holding the separator |
| Text.JoinSplit | frontend/lib/seo.ts:45 | joining the pieces back gives the string |
| Text.SplitJoin | frontend/hooks/useDynamicContent.ts:74 | splitting separator-free pieces joined together gives the pieces back |
| Scanner.ScanPlain | frontend/lib/amp.ts:64 | a global replace whose pattern matches nowhere leaves the text unchanged |
| Scanner.ScanPlainPrefix | frontend/lib/amp.ts:64 | text before the first match is copied unchanged |
| Scanner.ScanHitPrefix | frontend/lib/amp.ts:64 | a match at the front is replaced and scanning resumes after it |
| Scanner.ReplaceAllAbsent | scripts/update-domain-to-cavota.js:39 | where the pattern does not occur nothing is replaced |
| Scanner.ReplaceAllLeading | scripts/update-domain-to-cavota.js:39 | an occurrence at the front is replaced and the rest is processed on its own |
| Scanner.ReplaceAllSkips | scripts/update-domain-to-cavota.js:39 | where no occurrence starts at the front, the first character is kept and the rest is processed on its own |

## Left out

- Network, disk and database I/O are not modelled as actions. Each fetch, directory read, stat and query whose outcome reaches the answer is an input of the operation that uses it: an answer, a status, or an exception marker (for a database query, a flag saying it throws). The `PUT` requests of the two scripts are the exception, as said below.
- `encodeURIComponent`, the date formatter and the current time are parameters. Their own behaviour is not modelled.
- `Promise.all`: the four sitemap fetchers and the webhook's revalidation requests are modelled one after another, each with its own answers. Their interleaving is not modelled.
- The webhook's sitemap revalidation and its logging have no visible effect on the answer and are left out.
- Sitemap: of the malformed answers, only `null` entries are modelled. A `null` page makes the page filter throw, so the page list is empty; a `null` service, insight or work makes `generateSitemap` throw, so the handler answers with `Sitemap.FallbackSitemap`. Entries whose fields are missing are not modelled.
- Sitemap: `formatDate` is a parameter, so the W3C date format is not modelled.
- Amp.YoutubeIframe: proved for tags whose video id is followed by a character an id cannot hold. Ids that the backtracking shortens are covered by `Amp.YoutubeIdEnd` but have no lemma of their own.
- Amp.SanitizeToAmp: its own contract covers only the empty input. The rewrites are characterised one at a time by the lemmas above and for plain text as a whole; no lemma composes all nine on arbitrary HTML.
- Templates.ProcessTemplate: its own contract covers only the loading guard and the empty template. The substitution is characterised by `Templates.CopiesText`, `Templates.ReplacesPlaceholder`, `Templates.UnresolvedKept`, `Templates.ResolvedInserted` and `Templates.UnclosedKept`.
- Amp.SrcOnlySource, Amp.ImgDefaults, Amp.VideoDefaults: proved for attribute texts whose only `=` belongs to `src`. Other layouts follow the same leftmost-match functions but have no lemma.
- The other exports of `amp.ts` (`buildAmpCss`, the page builders and the AMP validation helpers) are not part of this model.
- Numbers are mathematical: widths, heights, qualities and counts are `nat` or `int`. JavaScript's floating point and `NaN` are not modelled. `Templates.StringOf` prints integers only.
- Templates.Member: strings are sequences of characters, so a string's `length` and its index keys count characters, where JavaScript counts UTF-16 code units; they differ on text outside the Basic Multilingual Plane, where JavaScript counts 2 for one character.
- Templates: `String(value)` of objects and arrays is a placeholder string, and prototype members other than `length` are not modelled. The React state of the hook (loading, error, fetching) is left out.
- Seo: `generateOrganizationStructuredData` is a constant object and is left out. `openGraph.type`, the Twitter card and the robots object are fixed constants, modelled only as a marker.
- Rfp: form fields that are not strings are not modelled. The answer's `data` is the CMS's own and is left out.
- Rfp.Post, Revalidate.Post: the text of a JSON parse error is not modelled; only that the answer is a 500.
- Webhook.WebhookPost: the message's wording is built from the counts but is not itself stated in the contract.
- FaviconSettings: `path.basename` is modelled for `/`-separated names only (POSIX). A write or database call that throws is an input (`Failure`); a database update is taken to change the row entirely or not at all. The removal of the uploaded zip has no visible effect and is left out.
- FaviconSettings.FaviconStore.Upload: an upload whose file list is empty ends in the 500 answer here, which is where the controller's `TypeError` on the missing file leads.
- ContentExport: JSON objects are maps, so the order in which the controller adds keys to the export, its `page_info`, `seo` and `sections` records and each section record, and so the key order of the response text, is not modelled.
- ContentExport: the `badRequest` answer's error details are not modelled; only its message is. The export's HTML list endpoint (`exportPage`) is left out.
- SeoUpdates, DomainRewrite: a `PUT` that throws ends its pass in the code. The model treats every `PUT` as completing, and its outcome only changes what is logged.
- DomainRewrite.Script: the structured-data pass fetches its listings afresh, so they are a separate input from the canonical passes' listings. Structured data is rewritten as the JSON text the script prints.
- Navbar: rendering, scrolling, session storage, the router and the theme observer are left out. The dark-theme flag, the path and the CMS's strings are inputs.

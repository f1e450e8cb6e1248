/**
 * The AMP converter of the frontend (frontend/lib/amp.ts): the `<amp-img>` tag for a
 * media object, the sanitizer that turns editor HTML into AMP HTML, and the list of
 * AMP component scripts a page needs.
 *
 * Each regular expression of the sanitizer is a `Matcher` that recognises a match
 * at the start of the remaining text, and each global `replace` is a `Scan`.
 * Every pattern carries the `i` flag, so the literal parts compare with `MatchesCI`.
 */
module Amp {
  import opened Wrappers
  import opened Text
  import opened Scanner

  const SiteOrigin := "https://cavota.id"

  /** A URL as the AMP page needs it: a site-relative path gets the site origin in front */
  function AbsoluteUrl(src: string): (r: string)
    ensures EndsWith(r, src)
    ensures r == [] || r[0] != '/'
    ensures r == src || r == SiteOrigin + src
  {
    if StartsWith(src, "/") then SiteOrigin + src else src
  }

  // ---------------------------------------------------------------------------
  // toAmpImage

  /** One resized copy of an uploaded image */
  datatype Rendition = Rendition(url: string, width: nat, height: nat)

  datatype Formats = Formats(large: Option<Rendition>, medium: Option<Rendition>)

  /** The media object of the CMS, reduced to the fields the converter reads */
  datatype Media = Media(
    url: string,
    width: Option<nat>,
    height: Option<nat>,
    formats: Option<Formats>,
    alternativeText: Option<string>,
    caption: Option<string>,
    name: string)

  datatype Role = Cover | Inline

  /** `n || d` on an optional number: an absent or zero number gives the default */
  function NumberOr(n: Option<nat>, d: nat): (r: nat)
    ensures n.Some? && n.value != 0 ==> r == n.value
    ensures n.None? || n.value == 0 ==> r == d
  {
    if n.Some? && n.value != 0 then n.value else d
  }

  /** The rendition the converter picks: the large format, else the medium one, else
      the original file with 800 x 600 standing in for a missing or zero size */
  function PreferredRendition(m: Media): (r: Rendition)
    ensures m.formats.Some? && m.formats.value.large.Some? ==> r == m.formats.value.large.value
    ensures (m.formats.Some? && m.formats.value.large.None? && m.formats.value.medium.Some?)
              ==> r == m.formats.value.medium.value
    ensures (m.formats.None? || (m.formats.value.large.None? && m.formats.value.medium.None?))
              ==> r == Rendition(m.url, NumberOr(m.width, 800), NumberOr(m.height, 600))
  {
    if m.formats.Some? && m.formats.value.large.Some? then m.formats.value.large.value
    else if m.formats.Some? && m.formats.value.medium.Some? then m.formats.value.medium.value
    else Rendition(m.url, NumberOr(m.width, 800), NumberOr(m.height, 600))
  }

  /** The first non-empty of the alternative text, the caption and the file name, else "Image" */
  function AltText(m: Media): (alt: string)
    ensures alt != []
    ensures Truthy(m.alternativeText) ==> alt == m.alternativeText.value
    ensures !Truthy(m.alternativeText) && Truthy(m.caption) ==> alt == m.caption.value
    ensures !Truthy(m.alternativeText) && !Truthy(m.caption) && m.name != [] ==> alt == m.name
    ensures !Truthy(m.alternativeText) && !Truthy(m.caption) && m.name == [] ==> alt == "Image"
  {
    if Truthy(m.alternativeText) then m.alternativeText.value
    else if Truthy(m.caption) then m.caption.value
    else if m.name != [] then m.name
    else "Image"
  }

  /** `s.replace(/"/g, '&quot;')` */
  function EscapeQuotes(s: string): (r: string)
    ensures '"' !in r
    ensures '"' !in s ==> r == s
    ensures |r| >= |s|
  {
    if s == [] then []
    else (if s[0] == '"' then "&quot;" else [s[0]]) + EscapeQuotes(s[1..])
  }

  /** Every `"` becomes `&quot;`, and nothing else changes: the global replace of the
      one-character pattern */
  lemma {:induction false} EscapeQuotesReplaces(s: string)
    ensures EscapeQuotes(s) == ReplaceAll(s, "\"", "&quot;")
    decreases |s|
  {
    if s != [] {
      EscapeQuotesReplaces(s[1..]);
      if s[0] == '"' {
        assert s == "\"" + s[1..];
        ReplaceAllLeading("\"", s[1..], "&quot;");
      } else {
        ReplaceAllSkips(s, "\"", "&quot;");
      }
    }
  }

  function RoleClass(role: Role): string {
    if role == Cover then "cover-image" else "inline-image"
  }

  /** The multi-line `<amp-img>` template of `toAmpImage`, whitespace included */
  function ImageTemplate(url: string, width: nat, height: nat, alt: string, cls: string): string {
    "<amp-img \n    src=\"" + url + "\" \n    width=\"" + NatToString(width)
    + "\" \n    height=\"" + NatToString(height) + "\" \n    layout=\"responsive\" \n    alt=\""
    + EscapeQuotes(alt) + "\"\n    class=\"" + cls + "\">\n  </amp-img>"
  }

  /** `toAmpImage`: no media gives the empty string; otherwise the tag of the preferred
      rendition, with an absolute URL, the alt fallback and the class of the role */
  method ToAmpImage(media: Option<Media>, role: Role) returns (html: string)
    ensures media.None? ==> html == []
    ensures media.Some? ==>
      var r := PreferredRendition(media.value);
      html == ImageTemplate(AbsoluteUrl(r.url), r.width, r.height, AltText(media.value), RoleClass(role))
  {
    if media.None? {
      return [];
    }
    var m := media.value;
    var imageUrl := m.url;
    var width := NumberOr(m.width, 800);
    var height := NumberOr(m.height, 600);
    if m.formats.Some? && m.formats.value.large.Some? {
      imageUrl := m.formats.value.large.value.url;
      width := m.formats.value.large.value.width;
      height := m.formats.value.large.value.height;
    } else if m.formats.Some? && m.formats.value.medium.Some? {
      imageUrl := m.formats.value.medium.value.url;
      width := m.formats.value.medium.value.width;
      height := m.formats.value.medium.value.height;
    }
    if StartsWith(imageUrl, "/") {
      imageUrl := SiteOrigin + imageUrl;
    }
    var alt := AltText(m);
    var roleClass := if role == Cover then "cover-image" else "inline-image";
    html := ImageTemplate(imageUrl, width, height, alt, roleClass);
  }

  /** The image tag opens with its source and closes with the class of its role */
  lemma ImageTemplateParts(url: string, width: nat, height: nat, alt: string, role: Role)
    ensures var html := ImageTemplate(url, width, height, alt, RoleClass(role));
      && StartsWith(html, "<amp-img \n    src=\"" + url + "\"")
      && EndsWith(html, "\"\n    class=\"" + RoleClass(role) + "\">\n  </amp-img>")
  {
    ImageTemplateStart(url, width, height, alt, RoleClass(role));
    ImageTemplateEnd(url, width, height, alt, RoleClass(role));
  }

  lemma ImageTemplateStart(url: string, width: nat, height: nat, alt: string, cls: string)
    ensures StartsWith(ImageTemplate(url, width, height, alt, cls), "<amp-img \n    src=\"" + url + "\"")
  {
  }

  lemma ImageTemplateEnd(url: string, width: nat, height: nat, alt: string, cls: string)
    ensures EndsWith(ImageTemplate(url, width, height, alt, cls), "\"\n    class=\"" + cls + "\">\n  </amp-img>")
  {
    var y := "<amp-img \n    src=\"" + url + "\" \n    width=\"" + NatToString(width)
      + "\" \n    height=\"" + NatToString(height) + "\" \n    layout=\"responsive\" \n    alt=\""
      + EscapeQuotes(alt);
    var l1, l2 := "\"\n    class=\"", "\">\n  </amp-img>";
    assert ImageTemplate(url, width, height, alt, cls) == y + l1 + cls + l2;
    Associative(y, l1, cls);
    Associative(y, l1 + cls, l2);
    var tail := l1 + cls + l2;
    assert (y + tail)[|y|..] == tail;
  }

  // ---------------------------------------------------------------------------
  // Pieces shared by the sanitizer's patterns

  /** `[^>]` */
  predicate NotGt(c: char) {
    c != '>'
  }

  /** `[^"']` */
  predicate NotQuote(c: char) {
    !IsQuote(c)
  }

  /** Text with neither a tag opening nor an attribute assignment, which none of the
      sanitizer's patterns can match */
  predicate Plain(t: string) {
    forall k :: 0 <= k < |t| ==> t[k] != '<' && t[k] != '='
  }

  /** `\s*=` at `i`: an equals sign after optional whitespace */
  predicate AssignsAt(t: string, i: nat)
    requires i <= |t|
  {
    var a := Skip(t, i, IsSpace);
    a < |t| && t[a] == '='
  }

  /** `\s*=\s*["']([^"']*)["']` at `i`: the bounds of the quoted value. Either quote
      character may close the value, whichever opened it. */
  function QuotedAssignment(t: string, i: nat): (v: Option<(nat, nat)>)
    requires i <= |t|
    ensures v.Some? ==> AssignsAt(t, i)
    ensures v.Some? ==> i < v.value.0 <= v.value.1 < |t|
    ensures v.Some? ==> IsQuote(t[v.value.0 - 1]) && IsQuote(t[v.value.1])
    ensures v.Some? ==> forall k :: v.value.0 <= k < v.value.1 ==> !IsQuote(t[k])
  {
    var a := Skip(t, i, IsSpace);
    if a == |t| || t[a] != '=' then None
    else
      var b := Skip(t, a + 1, IsSpace);
      if b == |t| || !IsQuote(t[b]) then None
      else
        var c := Skip(t, b + 1, NotQuote);
        if c == |t| then None else Some((b + 1, c))
  }

  /** `\s*=\s*["']?(\d+)["']?` at `i`: the bounds of the digits */
  function NumberAssignment(t: string, i: nat): (v: Option<(nat, nat)>)
    requires i <= |t|
    ensures v.Some? ==> AssignsAt(t, i)
    ensures v.Some? ==> i < v.value.0 < v.value.1 <= |t|
    ensures v.Some? ==> forall k :: v.value.0 <= k < v.value.1 ==> IsDigit(t[k])
  {
    var a := Skip(t, i, IsSpace);
    if a == |t| || t[a] != '=' then None
    else
      var b := Skip(t, a + 1, IsSpace);
      var c := if b < |t| && IsQuote(t[b]) then b + 1 else b;
      var d := Skip(t, c, IsDigit);
      if d == c then None else Some((c, d))
  }

  /** `attrs.match(/name\s*=\s*["']([^"']*)["']/i)[1]`: the value of the leftmost match
      at or after `p`. The name is matched anywhere, also inside a longer attribute name. */
  function QuotedAttr(u: string, name: string, p: nat): (r: Option<string>)
    ensures r.Some? ==> '"' !in r.value && '\'' !in r.value
    decreases |u| - p
  {
    if p + |name| > |u| then None
    else if MatchesCI(u, p, name) && QuotedAssignment(u, p + |name|).Some? then
      var v := QuotedAssignment(u, p + |name|).value;
      assert forall k :: 0 <= k < v.1 - v.0 ==> u[v.0..v.1][k] == u[v.0 + k];
      Some(u[v.0..v.1])
    else QuotedAttr(u, name, p + 1)
  }

  /** `attrs.match(/name\s*=\s*["']?(\d+)["']?/i)[1]`: the digits of the leftmost match */
  function NumberAttr(u: string, name: string, p: nat): (r: Option<string>)
    ensures r.Some? ==> r.value != [] && forall k :: 0 <= k < |r.value| ==> IsDigit(r.value[k])
    decreases |u| - p
  {
    if p + |name| > |u| then None
    else if MatchesCI(u, p, name) && NumberAssignment(u, p + |name|).Some? then
      var v := NumberAssignment(u, p + |name|).value;
      Some(u[v.0..v.1])
    else NumberAttr(u, name, p + 1)
  }

  /** The attribute pattern can only match where `name` is followed, after whitespace, by `=` */
  lemma QuotedAttrNeedsAssignment(u: string, name: string, p: nat)
    requires forall q :: p <= q && q + |name| <= |u| && MatchesCI(u, q, name) ==> !AssignsAt(u, q + |name|)
    ensures QuotedAttr(u, name, p).None?
    ensures NumberAttr(u, name, p).None?
    decreases |u| - p
  {
    if p + |name| <= |u| {
      QuotedAttrNeedsAssignment(u, name, p + 1);
    }
  }

  // ---------------------------------------------------------------------------
  // The sanitizer's patterns

  /** Where `<open[^>]*>[\s\S]*?close` (case-insensitively) matches at the start of `t`:
      the `>` ending the opening tag and the start of the first `close` after it */
  function ElementSpan(t: string, open: string, close: string): (s: Option<(nat, nat)>)
    ensures s.Some? ==> |open| <= s.value.0 < s.value.1 && s.value.1 + |close| <= |t|
    ensures s.Some? ==> MatchesCI(t, 0, open) && MatchesCI(t, s.value.1, close)
  {
    if !MatchesCI(t, 0, open) then None
    else match FindChar(t, '>', |open|)
      case None => None
      case Some(g) =>
        match FindCI(t, close, g + 1)
        case None => None
        case Some(k) => Some((g, k))
  }

  /** `<open[^>]*>[\s\S]*?close`, removed: the tag, then everything up to the first closing tag */
  function BlockAt(t: string, open: string, close: string): (h: Option<Hit>)
    requires |open| > 0 && open[0] == '<'
    ensures h.Some? ==> 0 < h.value.len <= |t| && h.value.replacement == []
    ensures h.Some? ==> MatchesCI(t, 0, open) && |close| <= h.value.len && !Plain(t)
    ensures h.Some? ==> MatchesCI(t, h.value.len - |close|, close)
  {
    match ElementSpan(t, open, close)
    case None => None
    case Some((g, k)) =>
      MatchesCIChar(t, 0, open, 0);
      Some(Hit(k + |close|, []))
  }

  /** `/<script[^>]*>[\s\S]*?<\/script>/gi` */
  function ScriptAt(t: string): Option<Hit> {
    BlockAt(t, "<script", "</script>")
  }

  /** `/<style[^>]*>[\s\S]*?<\/style>/gi` */
  function StyleAt(t: string): Option<Hit> {
    BlockAt(t, "<style", "</style>")
  }

  /** `/\s*on\w+\s*=\s*["'][^"']*["']/gi`: an event handler attribute with its leading
      whitespace, removed. The `on` need not start a word. */
  function HandlerAt(t: string): (h: Option<Hit>)
    ensures h.Some? ==> 0 < h.value.len <= |t| && h.value.replacement == []
    ensures h.Some? ==> !Plain(t)
  {
    var a := Skip(t, 0, IsSpace);
    if !MatchesCI(t, a, "on") then None else HandlerNamedAt(t, a + 2)
  }

  /** The rest of the handler pattern once `on` ends at `n`: `\w+`, then the quoted value */
  function HandlerNamedAt(t: string, n: nat): (h: Option<Hit>)
    requires n <= |t|
    ensures h.Some? ==> n < h.value.len <= |t| && h.value.replacement == []
    ensures h.Some? ==> !Plain(t)
  {
    var w := Skip(t, n, IsWordChar);
    if w == n then None
    else match QuotedAssignment(t, w)
      case None => None
      case Some(v) =>
        assert !Plain(t) by { var e := Skip(t, w, IsSpace); assert t[e] == '='; }
        Some(Hit(v.1 + 1, []))
  }

  /** The element `<amp-img>` that replaces an `<img>` whose attributes hold a `src`;
      an `<img>` without one is dropped */
  function ImgReplacement(attrs: string): (r: string)
    ensures r == [] <==> QuotedAttr(attrs, "src", 0).None?
  {
    match QuotedAttr(attrs, "src", 0)
    case None => []
    case Some(src) =>
      var alt := QuotedAttr(attrs, "alt", 0).GetOr([]);
      var width := NumberAttr(attrs, "width", 0).GetOr("800");
      var height := NumberAttr(attrs, "height", 0).GetOr("600");
      AmpImg(AbsoluteUrl(src), width, height, alt)
  }

  function AmpImg(src: string, width: string, height: string, alt: string): string {
    "<amp-img src=\"" + src + "\" width=\"" + width + "\" height=\"" + height
    + "\" layout=\"responsive\" alt=\"" + alt + "\" class=\"inline-image\"></amp-img>"
  }

  /** `/<img([^>]*?)>/gi`: an image tag, whose attribute text is everything up to the first `>` */
  function ImgAt(t: string): (h: Option<Hit>)
    ensures h.Some? ==> 5 <= h.value.len <= |t| && !Plain(t)
    ensures h.Some? ==> MatchesCI(t, 0, "<img") && t[h.value.len - 1] == '>'
    ensures h.Some? ==> forall k :: 4 <= k < h.value.len - 1 ==> t[k] != '>'
    ensures h.Some? ==> h.value.replacement == ImgReplacement(t[4..h.value.len - 1])
  {
    if !MatchesCI(t, 0, "<img") then None
    else match FindChar(t, '>', 4)
      case None => None
      case Some(g) =>
        MatchesCIChar(t, 0, "<img", 0);
        Some(Hit(g + 1, ImgReplacement(t[4..g])))
  }

  /** The `<amp-video>` that replaces a `<video>` element with a `src`; one without is dropped */
  function VideoReplacement(attrs: string): (r: string)
    ensures r == [] <==> QuotedAttr(attrs, "src", 0).None?
  {
    match QuotedAttr(attrs, "src", 0)
    case None => []
    case Some(src) =>
      var width := NumberAttr(attrs, "width", 0).GetOr("640");
      var height := NumberAttr(attrs, "height", 0).GetOr("360");
      AmpVideo(AbsoluteUrl(src), width, height)
  }

  function AmpVideo(src: string, width: string, height: string): string {
    "<amp-video src=\"" + src + "\" width=\"" + width + "\" height=\"" + height
    + "\" layout=\"responsive\" controls></amp-video>"
  }

  /** `/<video([^>]*?)>([\s\S]*?)<\/video>/gi`: a whole video element, its content discarded */
  function VideoAt(t: string): (h: Option<Hit>)
    ensures h.Some? ==> 8 <= h.value.len <= |t| && !Plain(t)
    ensures h.Some? ==> MatchesCI(t, 0, "<video") && MatchesCI(t, h.value.len - 8, "</video>")
  {
    match ElementSpan(t, "<video", "</video>")
    case None => None
    case Some((g, k)) =>
      MatchesCIChar(t, 0, "<video", 0);
      Some(Hit(k + 8, VideoReplacement(t[6..g])))
  }

  const EmbedPath := "youtube.com/embed/"

  /** `[^"'\s?&]`: a character of a YouTube video id as the pattern captures it */
  predicate IsVideoIdChar(c: char) {
    !IsQuote(c) && !IsSpace(c) && c != '?' && c != '&'
  }

  function AmpYoutube(id: string): string {
    "<amp-youtube data-videoid=\"" + id + "\" layout=\"responsive\" width=\"480\" height=\"270\"></amp-youtube>"
  }

  /** The backtracking of `([^"'\s?&]+)[^>]*><\/iframe>` after the embed path ending at `r`:
      id lengths `b`, `b - 1`, …, 1 are tried and the first one whose next `>` starts
      `></iframe>` wins. The result is the id length and the index of that `>`. */
  function YoutubeIdEnd(t: string, r: nat, b: nat): (e: Option<(nat, nat)>)
    ensures e.Some? ==> 0 < e.value.0 <= b && r + e.value.0 <= e.value.1
    ensures e.Some? ==> e.value.1 < |t| && t[e.value.1] == '>' && MatchesCI(t, e.value.1 + 1, "</iframe>")
    ensures e.Some? ==> forall k :: r + e.value.0 <= k < e.value.1 ==> t[k] != '>'
    decreases b
  {
    if b == 0 then None
    else match FindChar(t, '>', r + b)
      case Some(g) =>
        if MatchesCI(t, g + 1, "</iframe>") then Some((b, g)) else YoutubeIdEnd(t, r, b - 1)
      case None => YoutubeIdEnd(t, r, b - 1)
  }

  /** The backtracking of the greedy `[^>]*` before `youtube\.com\/embed\/`: the positions
      `q`, `q - 1`, …, 7 are tried for the embed path. The result is the start of the id,
      its length and the index of the `>` of `></iframe>`. */
  function YoutubeFrom(t: string, q: nat): (m: Option<(nat, nat, nat)>)
    ensures m.Some? ==> 7 + |EmbedPath| <= m.value.0 && 0 < m.value.1
    ensures m.Some? ==> m.value.0 + m.value.1 <= m.value.2 < |t| && MatchesCI(t, m.value.2 + 1, "</iframe>")
    decreases q
  {
    if q < 7 then None
    else match YoutubeEmbedAt(t, q)
      case Some(e) => Some((q + |EmbedPath|, e.0, e.1))
      case None => if q == 7 then None else YoutubeFrom(t, q - 1)
  }

  /** The embed path at `q`, followed by an id that lets `></iframe>` follow: the id
      length and the index of the `>` */
  function YoutubeEmbedAt(t: string, q: nat): (e: Option<(nat, nat)>)
    ensures e.Some? ==> MatchesCI(t, q, EmbedPath)
    ensures e.Some? ==> 0 < e.value.0 && q + |EmbedPath| + e.value.0 <= e.value.1
    ensures e.Some? ==> e.value.1 < |t| && MatchesCI(t, e.value.1 + 1, "</iframe>")
    ensures e.Some? ==> forall k :: q + |EmbedPath| <= k < q + |EmbedPath| + e.value.0 ==> IsVideoIdChar(t[k])
  {
    if !MatchesCI(t, q, EmbedPath) then None
    else
      var r := q + |EmbedPath|;
      YoutubeIdEnd(t, r, Skip(t, r, IsVideoIdChar) - r)
  }

  /** `/<iframe[^>]*youtube\.com\/embed\/([^"'\s?&]+)[^>]*><\/iframe>/gi`: an empty
      iframe embedding a YouTube video, replaced by `<amp-youtube>` with the captured id */
  function YoutubeAt(t: string): (h: Option<Hit>)
    ensures h.Some? ==> 10 <= h.value.len <= |t| && !Plain(t)
    ensures h.Some? ==> MatchesCI(t, 0, "<iframe") && MatchesCI(t, h.value.len - 9, "</iframe>")
  {
    if !MatchesCI(t, 0, "<iframe") then None
    else match YoutubeFrom(t, Skip(t, 7, NotGt))
      case None => None
      case Some(m) =>
        MatchesCIChar(t, 0, "<iframe", 0);
        Some(YoutubeHit(t, m))
  }

  /** The `<amp-youtube>` replacing a match whose id starts at `m.0` and is `m.1`
      long, and whose `></iframe>` starts at `m.2` */
  function YoutubeHit(t: string, m: (nat, nat, nat)): (h: Hit)
    requires m.0 + m.1 <= m.2 < |t|
    ensures h.len == m.2 + 10
  {
    Hit(m.2 + 10, AmpYoutube(t[m.0..m.0 + m.1]))
  }

  /** The first `amp-` after `<iframe` lies within the tag */
  predicate MentionsAmp(t: string, g: nat) {
    match FindCI(t, "amp-", 7)
    case Some(q) => q < g
    case None => false
  }

  /** `/<iframe(?![^>]*amp-)[^>]*>[\s\S]*?<\/iframe>/gi`: any other iframe element,
      removed unless its tag mentions `amp-` */
  function IframeAt(t: string): (h: Option<Hit>)
    ensures h.Some? ==> 9 <= h.value.len <= |t| && h.value.replacement == [] && !Plain(t)
    ensures h.Some? ==> MatchesCI(t, 0, "<iframe") && MatchesCI(t, h.value.len - 9, "</iframe>")
  {
    match ElementSpan(t, "<iframe", "</iframe>")
    case None => None
    case Some((g, k)) =>
      if MentionsAmp(t, g) then None
      else
        MatchesCIChar(t, 0, "<iframe", 0);
        Some(Hit(k + 9, []))
  }

  /** `style`, `onclick`, `onload` or `onerror` at `a`: the length of the name, else 0 */
  function DangerousName(t: string, a: nat): (n: nat)
    ensures n == 0 || n == 5 || n == 6 || n == 7
    ensures n != 0 ==> a + n <= |t|
  {
    if MatchesCI(t, a, "style") then 5
    else if MatchesCI(t, a, "onclick") then 7
    else if MatchesCI(t, a, "onload") then 6
    else if MatchesCI(t, a, "onerror") then 7
    else 0
  }

  /** `/\s*(style|onclick|onload|onerror)\s*=\s*["'][^"']*["']/gi`, removed */
  function DangerousAttrAt(t: string): (h: Option<Hit>)
    ensures h.Some? ==> 0 < h.value.len <= |t| && h.value.replacement == []
    ensures h.Some? ==> !Plain(t)
  {
    var a := Skip(t, 0, IsSpace);
    var n := DangerousName(t, a);
    if n == 0 then None
    else match QuotedAssignment(t, a + n)
      case None => None
      case Some(v) =>
        assert !Plain(t) by { var e := Skip(t, a + n, IsSpace); assert t[e] == '='; }
        Some(Hit(v.1 + 1, []))
  }

  const BlankDoubleQuoted := "target=\"_blank\""
  const BlankSingleQuoted := "target='_blank'"
  const NoOpener := " rel=\"noopener nofollow\""

  /** A link that opens a new window and has no `rel` gets `rel="noopener nofollow"`;
      the test on the attribute text is case-sensitive */
  predicate NeedsRel(attrs: string) {
    (Contains(attrs, BlankDoubleQuoted) || Contains(attrs, BlankSingleQuoted)) && !Contains(attrs, "rel=")
  }

  /** `/<a([^>]*?)>/gi` with its callback: every tag whose name starts with `a`
      (`<a`, `<abbr`, `<amp-img`, …), patched when it needs `rel` */
  function AnchorAt(t: string): (h: Option<Hit>)
    ensures h.Some? ==> 2 < h.value.len <= |t| && !Plain(t) && MatchesCI(t, 0, "<a") && t[h.value.len - 1] == '>'
    ensures h.Some? ==> forall k :: 2 <= k < h.value.len - 1 ==> t[k] != '>'
    ensures h.Some? && NeedsRel(t[2..h.value.len - 1]) ==>
              h.value.replacement == "<a" + t[2..h.value.len - 1] + NoOpener + ">"
    ensures h.Some? && !NeedsRel(t[2..h.value.len - 1]) ==> h.value.replacement == t[..h.value.len]
  {
    if !MatchesCI(t, 0, "<a") then None
    else match FindChar(t, '>', 2)
      case None => None
      case Some(g) =>
        var attrs := t[2..g];
        MatchesCIChar(t, 0, "<a", 0);
        Some(Hit(g + 1, if NeedsRel(attrs) then "<a" + attrs + NoOpener + ">" else t[..g + 1]))
  }

  /** `sanitizeToAmp`: the nine rewrites, in the order the converter applies them */
  function SanitizeToAmp(html: string): (r: string)
    ensures html == [] ==> r == []
  {
    if html == [] then []
    else
      var noScripts := Scan(ScriptAt, html);
      var noStyles := Scan(StyleAt, noScripts);
      var noHandlers := Scan(HandlerAt, noStyles);
      var images := Scan(ImgAt, noHandlers);
      var videos := Scan(VideoAt, images);
      var youtube := Scan(YoutubeAt, videos);
      var noIframes := Scan(IframeAt, youtube);
      var noDangerous := Scan(DangerousAttrAt, noIframes);
      Scan(AnchorAt, noDangerous)
  }

  // ---------------------------------------------------------------------------
  // What the sanitizer does to particular inputs

  /** A pattern that needs `<` or `=` leaves plain text alone */
  lemma PlainScanUnchanged(m: Matcher, s: string)
    requires Advances(m)
    requires forall t :: m(t).Some? ==> !Plain(t)
    requires Plain(s)
    ensures Scan(m, s) == s
  {
    forall k | 0 <= k < |s|
      ensures m(s[k..]).None?
    {
      assert Plain(s[k..]);
    }
    ScanPlain(m, s);
  }

  /** Text without tags or attribute assignments comes out of the sanitizer unchanged */
  lemma SanitizePlainText(html: string)
    requires Plain(html)
    ensures SanitizeToAmp(html) == html
  {
    if html != [] {
      PlainScanUnchanged(ScriptAt, html);
      PlainScanUnchanged(StyleAt, html);
      PlainScanUnchanged(HandlerAt, html);
      PlainScanUnchanged(ImgAt, html);
      PlainScanUnchanged(VideoAt, html);
      PlainScanUnchanged(YoutubeAt, html);
      PlainScanUnchanged(IframeAt, html);
      PlainScanUnchanged(DangerousAttrAt, html);
      PlainScanUnchanged(AnchorAt, html);
    }
  }

  /** The first case-insensitive `p` at or after `i` is at `j` when it occurs there and no
      earlier position holds the first character of `p`, that character not being a letter */
  lemma FindCIIs(t: string, p: string, i: nat, j: nat)
    requires |p| > 0 && !('A' <= p[0] <= 'Z') && !('a' <= p[0] <= 'z')
    requires i <= j && MatchesCI(t, j, p)
    requires forall k :: i <= k < j ==> t[k] != p[0]
    ensures FindCI(t, p, i) == Some(j)
  {
    match FindCI(t, p, i)
    case None =>
    case Some(v) =>
      if v < j {
        MatchesCIChar(t, v, p, 0);
      }
  }

  /** An exact occurrence is also a case-insensitive one */
  lemma OccursMatchesCI(t: string, i: nat, p: string)
    requires OccursAt(t, i, p)
    ensures MatchesCI(t, i, p)
  {
    forall k | 0 <= k < |p|
      ensures Lower(t[i + k]) == Lower(p[k])
    {
      assert t[i + k] == t[i..i + |p|][k];
    }
  }

  /** Where the tag of `open` ends at its first `>` and the first `close` after it is
      found, the element spans from there to that closing tag */
  lemma SpanMatch(t: string, open: string, close: string, g: nat, c: nat)
    requires |close| > 0 && !('A' <= close[0] <= 'Z') && !('a' <= close[0] <= 'z')
    requires OccursAt(t, 0, open)
    requires |open| <= g < |t| && t[g] == '>' && forall k :: |open| <= k < g ==> t[k] != '>'
    requires g + 1 <= c && OccursAt(t, c, close) && forall k :: g + 1 <= k < c ==> t[k] != close[0]
    ensures ElementSpan(t, open, close) == Some((g, c))
  {
    OccursMatchesCI(t, 0, open);
    FindCharIs(t, '>', |open|, g);
    OccursMatchesCI(t, c, close);
    FindCIIs(t, close, g + 1, c);
  }

  /** `block` is a script element whose opening tag ends at its first `>`, at `g`, and
      whose body holds no `<` */
  predicate ScriptShaped(block: string, g: nat) {
    && OccursAt(block, 0, "<script") && 7 <= g && g + 10 <= |block| && block[g] == '>'
    && (forall k :: 7 <= k < g ==> block[k] != '>')
    && (forall k :: g + 1 <= k < |block| - 9 ==> block[k] != '<')
    && OccursAt(block, |block| - 9, "</script>")
  }

  /** A script element written with a tag that has no `>` and a body that has no `<` */
  lemma ScriptShape(attrs: string, body: string)
    requires '>' !in attrs && '<' !in body
    ensures ScriptShaped("<script" + attrs + ">" + body + "</script>", 7 + |attrs|)
  {
  }

  /** A script element at the start of the text is one match of the script pattern,
      removed whole */
  lemma ScriptBlock(block: string, g: nat, rest: string)
    requires ScriptShaped(block, g)
    ensures ScriptAt(block + rest) == Some(Hit(|block|, []))
  {
    var t := block + rest;
    var c: nat := |block| - 9;
    assert ElementSpan(t, "<script", "</script>") == Some((g, c)) by {
      assert t[..7] == "<script" by { assert t[..7] == block[..7]; }
      forall k | 7 <= k < g ensures t[k] != '>' { assert t[k] == block[k]; }
      forall k | g + 1 <= k < c ensures t[k] != '<' { assert t[k] == block[k]; }
      assert t[c..c + 9] == "</script>" by { assert t[c..c + 9] == block[c..c + 9]; }
      SpanMatch(t, "<script", "</script>", g, c);
    }
    ScriptFromSpan(t, g, c);
  }

  /** The script pattern matches wherever the script element's span is found */
  lemma ScriptFromSpan(t: string, g: nat, c: nat)
    requires ElementSpan(t, "<script", "</script>") == Some((g, c))
    ensures ScriptAt(t) == Some(Hit(c + 9, []))
  {
  }

  /** A script element at the start of the HTML is dropped, and the rest is sanitized
      as if it had never been there */
  lemma SanitizeDropsLeadingScript(attrs: string, body: string, rest: string)
    requires '>' !in attrs && '<' !in body
    ensures SanitizeToAmp("<script" + attrs + ">" + body + "</script>" + rest) == SanitizeToAmp(rest)
  {
    var block := "<script" + attrs + ">" + body + "</script>";
    assert Scan(ScriptAt, block + rest) == Scan(ScriptAt, rest) by {
      ScriptShape(attrs, body);
      ScriptBlock(block, 7 + |attrs|, rest);
      ScanHitPrefix(ScriptAt, block, rest, []);
    }
  }

  /** Text that differs from `<script` at some position does not start a script element */
  lemma NotScriptAt(t: string, k: nat)
    requires k < 7 && k < |t| && Lower(t[k]) != Lower("<script"[k])
    ensures ScriptAt(t).None?
  {
  }

  /** Text before a `<` whose own characters start no script element is copied */
  lemma ScriptScanCopiesScr(u: string)
    requires u != [] && u[0] == '<'
    ensures Scan(ScriptAt, "<scr" + u) == "<scr" + Scan(ScriptAt, u)
  {
    var a := "<scr";
    forall k | 0 <= k < |a|
      ensures ScriptAt(a[k..] + u).None?
    {
      var t := a[k..] + u;
      if k == 0 {
        assert t[4] == u[0];
        NotScriptAt(t, 4);
      } else {
        assert t[0] == a[k];
        NotScriptAt(t, 0);
      }
    }
    ScanPlainPrefix(ScriptAt, a, u);
  }

  /** Text whose only `<` starts a closing tag is copied by the script strip */
  lemma ScriptScanCopiesTail(body: string, rest: string)
    requires '<' !in body
    ensures Scan(ScriptAt, "ipt>" + body + "</script>" + rest) == "ipt>" + body + "</script>" + Scan(ScriptAt, rest)
  {
    var a := "ipt>" + body + "</script>";
    var c := 4 + |body|;
    forall k | 0 <= k < |a|
      ensures ScriptAt(a[k..] + rest).None?
    {
      var t := a[k..] + rest;
      if k == c {
        assert t[1] == '/';
        NotScriptAt(t, 1);
      } else {
        assert t[0] == a[k];
        if k < 4 {
          assert a[k] == "ipt>"[k];
        } else if k < c {
          assert a[k] == body[k - 4];
        } else {
          assert a[k] == "</script>"[k - c];
        }
        NotScriptAt(t, 0);
      }
    }
    ScanPlainPrefix(ScriptAt, a, rest);
  }

  /** A script element written without attributes is found by the script pattern */
  lemma PlainScriptBlock(body: string, rest: string)
    requires '<' !in body
    ensures ScriptAt("<script>" + body + "</script>" + rest).Some?
  {
    PlainScriptShape(body);
    ScriptBlock("<script>" + body + "</script>", 7, rest);
  }

  lemma PlainScriptShape(body: string)
    requires '<' !in body
    ensures ScriptShaped("<script>" + body + "</script>", 7)
  {
    ScriptShape("", body);
    assert "<script" + "" + ">" + body + "</script>" == "<script>" + body + "</script>";
  }

  /** The outer `<scr` is copied and the inner element is removed */
  lemma NestedScriptOuter(inner: string, tail: string)
    requires '<' !in inner
    ensures Scan(ScriptAt, "<scr<script>" + inner + "</script>" + tail) == "<scr" + Scan(ScriptAt, tail)
  {
    var block := "<script>" + inner + "</script>";
    var t := block + tail;
    assert Scan(ScriptAt, t) == Scan(ScriptAt, tail) by {
      PlainScriptShape(inner);
      ScriptBlock(block, 7, tail);
      ScanHitPrefix(ScriptAt, block, tail, []);
      assert [] + Scan(ScriptAt, tail) == Scan(ScriptAt, tail);
    }
    assert Scan(ScriptAt, "<scr" + t) == "<scr" + Scan(ScriptAt, t) by {
      ScriptScanCopiesScr(t);
    }
    ScrBeforeBlock(inner, tail);
  }

  lemma ScrBeforeBlock(inner: string, tail: string)
    ensures "<scr<script>" + inner + "</script>" + tail == "<scr" + ("<script>" + inner + "</script>" + tail)
  {
    assert "<scr<script>" == "<scr" + "<script>";
    Associative("<scr", "<script>", inner);
    Associative("<scr", "<script>" + inner, "</script>");
    Associative("<scr", "<script>" + inner + "</script>", tail);
  }

  lemma ScrJoinsIpt(body: string, out: string)
    ensures "<scr" + ("ipt>" + body + "</script>" + out) == "<script>" + body + "</script>" + out
  {
    assert "<scr" + "ipt>" == "<script>";
  }

  /** The strip is a single pass: removing an inner script element joins the text around
      it into a new script element, which the sanitizer then lets through */
  lemma ScriptStripIsSinglePass(inner: string, body: string, rest: string)
    requires '<' !in inner && '<' !in body
    ensures Scan(ScriptAt, "<scr<script>" + inner + "</script>" + ("ipt>" + body + "</script>" + rest))
            == "<script>" + body + "</script>" + Scan(ScriptAt, rest)
    ensures ScriptAt("<script>" + body + "</script>" + Scan(ScriptAt, rest)).Some?
  {
    NestedScriptOuter(inner, "ipt>" + body + "</script>" + rest);
    ScriptScanCopiesTail(body, rest);
    var out := Scan(ScriptAt, rest);
    ScrJoinsIpt(body, out);
    PlainScriptBlock(body, out);
  }

  // ---------------------------------------------------------------------------
  // Images and videos

  /** `name` followed, after optional whitespace, by `=` at `q` */
  predicate NameAssignedAt(u: string, q: nat, name: string) {
    MatchesCI(u, q, name) && AssignsAt(u, q + |name|)
  }

  /** Positions where no name is assigned are passed over by the leftmost search */
  lemma {:induction false} AttrSkip(u: string, name: string, p: nat, p0: nat)
    requires p <= p0
    requires forall q :: p <= q < p0 ==> !NameAssignedAt(u, q, name)
    ensures QuotedAttr(u, name, p) == QuotedAttr(u, name, p0)
    ensures NumberAttr(u, name, p) == NumberAttr(u, name, p0)
    decreases p0 - p
  {
    if p < p0 && p + |name| <= |u| {
      assert !NameAssignedAt(u, p, name);
      AttrSkip(u, name, p + 1, p0);
    }
  }

  /** A name that is never assigned has no value */
  lemma AttrAbsent(u: string, name: string)
    requires |name| > 0
    requires forall q :: !NameAssignedAt(u, q, name)
    ensures QuotedAttr(u, name, 0).None? && NumberAttr(u, name, 0).None?
  {
    AttrSkip(u, name, 0, |u|);
  }

  /** Where `u` has a single `=`, right after a non-space, every assigned name ends there */
  lemma SoleAssignment(u: string, q: nat, name: string, e: nat)
    requires 0 < e < |u| && u[e] == '=' && !IsSpace(u[e - 1])
    requires forall k :: 0 <= k < |u| && u[k] == '=' ==> k == e
    ensures NameAssignedAt(u, q, name) ==> q + |name| == e
  {
  }

  /** The attribute text of a tag whose only attribute assignment is `src="…"` */
  function SrcOnly(pre: string, src: string): string {
    pre + "src=\"" + src + "\""
  }

  /** The layout of `SrcOnly` with `m` characters before `src` and a value of `n`
      characters: its one `=` follows `src`, then comes the quoted value */
  predicate SrcOnlyShaped(u: string, m: nat, n: nat) {
    var e := m + 3;
    && |u| == e + 3 + n && u[e] == '=' && u[e - 1] == 'c' && u[e + 1] == '"'
    && MatchesCI(u, m, "src") && u[e + 2 + n] == '"'
    && (forall k :: 0 <= k < |u| && u[k] == '=' ==> k == e)
    && (forall k :: e + 2 <= k < e + 2 + n ==> NotQuote(u[k]))
  }

  /** The layout of `SrcOnly`: its one `=` follows `src`, then comes the quoted source */
  lemma SrcOnlyShape(pre: string, src: string)
    requires '=' !in pre && '=' !in src && '"' !in src && '\'' !in src
    ensures SrcOnlyShaped(SrcOnly(pre, src), |pre|, |src|)
    ensures SrcOnly(pre, src)[|pre| + 5..|pre| + 5 + |src|] == src
  {
  }

  /** With `src="…"` as the only assignment, no alt, width or height is found */
  lemma SrcOnlyNoOtherAttrs(pre: string, src: string)
    requires '=' !in pre && '=' !in src && '"' !in src && '\'' !in src
    ensures QuotedAttr(SrcOnly(pre, src), "alt", 0).None?
    ensures NumberAttr(SrcOnly(pre, src), "width", 0).None?
    ensures NumberAttr(SrcOnly(pre, src), "height", 0).None?
  {
    var u := SrcOnly(pre, src);
    var e := |pre| + 3;
    SrcOnlyShape(pre, src);
    forall q: nat
      ensures !NameAssignedAt(u, q, "alt") && !NameAssignedAt(u, q, "width") && !NameAssignedAt(u, q, "height")
    {
      SoleAssignment(u, q, "alt", e);
      SoleAssignment(u, q, "width", e);
      SoleAssignment(u, q, "height", e);
      MatchesCIImplies(u, q, "alt", 2);
      MatchesCIImplies(u, q, "width", 4);
      MatchesCIImplies(u, q, "height", 5);
    }
    AttrAbsent(u, "alt");
    AttrAbsent(u, "width");
    AttrAbsent(u, "height");
  }

  /** With `src="…"` as the only assignment, the source is found. The text before `src`
      may hold anything but `=`, so a `data-src` counts as a `src`. */
  lemma SrcOnlySource(pre: string, src: string)
    requires '=' !in pre && '=' !in src && '"' !in src && '\'' !in src
    ensures QuotedAttr(SrcOnly(pre, src), "src", 0) == Some(src)
  {
    SrcOnlyShape(pre, src);
    ShapedSource(SrcOnly(pre, src), |pre|, |src|);
  }

  /** In text of that layout the value after `src=` is found */
  lemma ShapedSource(u: string, m: nat, n: nat)
    requires SrcOnlyShaped(u, m, n)
    ensures QuotedAttr(u, "src", 0) == Some(u[m + 5..m + 5 + n])
  {
    var e := m + 3;
    forall q: nat | q < m
      ensures !NameAssignedAt(u, q, "src")
    {
      SoleAssignment(u, q, "src", e);
    }
    AttrSkip(u, "src", 0, m);
    QuotedValueAt(u, m, n);
  }

  /** `src` at `m`, then `="`, a run of `n` characters other than quotes, and `"` */
  lemma QuotedValueAt(u: string, m: nat, n: nat)
    requires m + 6 + n <= |u| && MatchesCI(u, m, "src")
    requires u[m + 3] == '=' && u[m + 4] == '"' && u[m + 5 + n] == '"'
    requires forall k :: m + 5 <= k < m + 5 + n ==> NotQuote(u[k])
    ensures QuotedAttr(u, "src", m) == Some(u[m + 5..m + 5 + n])
  {
  }



  /** Where the tag ends at its first `>`, the image pattern matches the whole tag */
  lemma ImgMatch(t: string, g: nat)
    requires OccursAt(t, 0, "<img")
    requires 4 <= g < |t| && t[g] == '>' && forall k :: 4 <= k < g ==> t[k] != '>'
    ensures ImgAt(t) == Some(Hit(g + 1, ImgReplacement(t[4..g])))
  {
    OccursMatchesCI(t, 0, "<img");
    FindCharIs(t, '>', 4, g);
  }

  /** An `<img>` tag is one match of the image pattern, its attribute text being
      everything between `<img` and the first `>` */
  lemma ImgTag(attrs: string, rest: string)
    requires '>' !in attrs
    ensures ImgAt("<img" + attrs + ">" + rest) == Some(Hit(|attrs| + 5, ImgReplacement(attrs)))
  {
    var t1 := "<img" + attrs + ">";
    var t := t1 + rest;
    var g := 4 + |attrs|;
    assert t[..4] == "<img" by { assert t1[..4] == "<img"; }
    assert t[g] == '>' by { assert t1[g] == '>'; }
    assert t[4..g] == attrs by { assert t1[4..g] == attrs; }
    forall k | 4 <= k < g ensures t[k] != '>' { assert t[k] == t1[k] == attrs[k - 4]; }
    ImgMatch(t, g);
  }

  /** An image without an assigned `src` is dropped */
  lemma ImgWithoutSrc(attrs: string)
    requires forall q :: !NameAssignedAt(attrs, q, "src")
    ensures ImgReplacement(attrs) == []
  {
    AttrAbsent(attrs, "src");
  }

  /** An image with only a source becomes an 800 x 600 `<amp-img>` with an empty alt */
  lemma ImgDefaults(pre: string, src: string)
    requires '=' !in pre && '=' !in src && '"' !in src && '\'' !in src
    ensures ImgReplacement(SrcOnly(pre, src)) == AmpImg(AbsoluteUrl(src), "800", "600", [])
  {
    SrcOnlySource(pre, src);
    SrcOnlyNoOtherAttrs(pre, src);
  }

  /** The video pattern's match follows from where the element's tag and closing tag are */
  lemma VideoAtSpan(t: string, g: nat, c: nat, attrs: string)
    requires ElementSpan(t, "<video", "</video>") == Some((g, c)) && t[6..g] == attrs
    ensures VideoAt(t).Some? && VideoAt(t).value.len == c + 8
    ensures VideoAt(t).value.replacement == VideoReplacement(attrs)
  {
  }

  /** A video element is one match of the video pattern; its content is discarded */
  lemma VideoElement(attrs: string, body: string, rest: string)
    requires '>' !in attrs && '<' !in body
    ensures var h := VideoAt("<video" + attrs + ">" + body + "</video>" + rest);
      h.Some? && h.value.len == |attrs| + |body| + 15 && h.value.replacement == VideoReplacement(attrs)
  {
    var t1 := "<video" + attrs + ">";
    var t2 := t1 + body;
    var element := t2 + "</video>";
    var t := element + rest;
    var g: nat := 6 + |attrs|;
    var c: nat := g + 1 + |body|;
    assert t[6..g] == attrs by { assert t1[6..g] == attrs; }
    assert ElementSpan(t, "<video", "</video>") == Some((g, c)) by {
      assert t[..6] == "<video" by { assert t1[..6] == "<video"; }
      assert t[g] == '>' by { assert t1[g] == '>'; }
      forall k | 6 <= k < g ensures t[k] != '>' { assert t[k] == t1[k] == attrs[k - 6]; }
      forall k | g + 1 <= k < c ensures t[k] != '<' { assert t[k] == t2[k] == body[k - g - 1]; }
      assert t[c..c + 8] == "</video>";
      SpanMatch(t, "<video", "</video>", g, c);
    }
    VideoAtSpan(t, g, c, attrs);
  }

  /** A video with only a source becomes a 640 x 360 `<amp-video>` */
  lemma VideoDefaults(pre: string, src: string)
    requires '=' !in pre && '=' !in src && '"' !in src && '\'' !in src
    ensures VideoReplacement(SrcOnly(pre, src)) == AmpVideo(AbsoluteUrl(src), "640", "360")
  {
    SrcOnlySource(pre, src);
    SrcOnlyNoOtherAttrs(pre, src);
  }

  // ---------------------------------------------------------------------------
  // YouTube and other iframes

  /** Positions with no `.` seven characters on are not the embed path, so the search
      passes them by */
  lemma YoutubeFromSkips(t: string, q: nat, q0: nat)
    requires 7 <= q0 <= q && q + 7 < |t|
    requires forall k :: q0 + 8 <= k <= q + 7 ==> t[k] != '.'
    ensures YoutubeFrom(t, q) == YoutubeFrom(t, q0)
  {
    forall p: nat | q0 < p <= q
      ensures YoutubeFrom(t, p) == YoutubeFrom(t, p - 1)
    {
      EmbedPathDot(t, p);
      YoutubeFromStep(t, p);
    }
    StepsBack((p: nat) => YoutubeFrom(t, p), q, q0);
  }

  /** A search that steps back from `q` to `q0` without changing its answer gives the
      answer it gives at `q0` */
  lemma {:induction false} StepsBack<X>(f: nat -> X, q: nat, q0: nat)
    requires q0 <= q
    requires forall p: nat :: q0 < p <= q ==> f(p) == f(p - 1)
    ensures f(q) == f(q0)
    decreases q
  {
    if q > q0 {
      StepsBack(f, q - 1, q0);
    }
  }


  /** A position that is not the embed path passes the search one position back */
  lemma YoutubeFromStep(t: string, q: nat)
    requires 7 < q && YoutubeEmbedAt(t, q).None?
    ensures YoutubeFrom(t, q) == YoutubeFrom(t, q - 1)
  {
  }

  /** The embed path needs a `.` seven characters after where it starts */
  lemma EmbedPathDot(t: string, p: nat)
    requires p + 7 < |t| && t[p + 7] != '.'
    ensures YoutubeEmbedAt(t, p).None?
  {
    MatchesCIImplies(t, p, EmbedPath, 7);
  }

  /** The YouTube pattern's match follows from where the search finds the id */
  lemma YoutubeAtFrom(t: string, r: nat, n: nat, g: nat)
    requires MatchesCI(t, 0, "<iframe") && 7 <= |t|
    requires YoutubeFrom(t, Skip(t, 7, NotGt)) == Some((r, n, g))
    ensures r + n <= g < |t| && YoutubeAt(t) == Some(YoutubeHit(t, (r, n, g)))
  {
  }

  /** The longest id is kept when the first `>` after it starts `></iframe>` */
  lemma YoutubeIdEndFirst(t: string, r: nat, n: nat, g: nat)
    requires 0 < n && FindChar(t, '>', r + n) == Some(g) && MatchesCI(t, g + 1, "</iframe>")
    ensures YoutubeIdEnd(t, r, n) == Some((n, g))
  {
  }

  /** The embed path at `q0` followed by an id of `n` characters, the first `>` after it
      starting `></iframe>` */
  lemma YoutubeEmbedAtIs(t: string, q0: nat, n: nat, g: nat)
    requires MatchesCI(t, q0, EmbedPath) && 0 < n && q0 + 18 + n < g < |t| && t[g] == '>'
    requires MatchesCI(t, g + 1, "</iframe>")
    requires forall k :: q0 + 18 + n <= k < g ==> t[k] != '>'
    requires forall k :: q0 + 18 <= k < q0 + 18 + n ==> IsVideoIdChar(t[k])
    requires !IsVideoIdChar(t[q0 + 18 + n])
    ensures YoutubeEmbedAt(t, q0) == Some((n, g))
  {
    SkipIs(t, q0 + 18, IsVideoIdChar, q0 + 18 + n);
    YoutubeIdEndAt(t, q0 + 18, n, g);
    assert |EmbedPath| == 18;
  }

  /** An id of `n` characters whose next `>` starts `></iframe>` is taken whole */
  lemma YoutubeIdEndAt(t: string, r: nat, n: nat, g: nat)
    requires 0 < n && r + n <= g < |t| && t[g] == '>' && MatchesCI(t, g + 1, "</iframe>")
    requires forall k :: r + n <= k < g ==> t[k] != '>'
    ensures YoutubeIdEnd(t, r, n) == Some((n, g))
  {
    FindCharIs(t, '>', r + n, g);
    YoutubeIdEndFirst(t, r, n, g);
  }

  /** No `.` lies from `q0 + 8` up to seven characters past the `>` at `g` when none
      lies before that `>` */
  lemma NoLaterDot(t: string, q0: nat, g: nat)
    requires g < |t| && t[g] == '>' && OccursAt(t, g + 1, "</iframe>")
    requires forall k :: q0 + 8 <= k < g ==> t[k] != '.'
    ensures g + 7 < |t| && forall k :: q0 + 8 <= k <= g + 7 ==> t[k] != '.'
  {
    forall k | q0 + 8 <= k <= g + 7 && g <= k
      ensures t[k] != '.'
    {
      assert t[k] == "></iframe>"[k - g];
    }
  }


  /** The YouTube pattern on a tag laid out by index: the embed path at `q0` is the last
      one before the tag's `>` at `g`, and the id, `n` characters long, is ended by a
      character the id cannot hold */
  lemma YoutubeMatch(t: string, q0: nat, n: nat, g: nat)
    requires OccursAt(t, 0, "<iframe") && 7 <= q0 && OccursAt(t, q0, EmbedPath)
    requires 0 < n && q0 + 18 + n < g && OccursAt(t, g + 1, "</iframe>") && t[g] == '>'
    requires forall k :: 7 <= k < g ==> t[k] != '>'
    requires forall k :: q0 + 8 <= k < g ==> t[k] != '.'
    requires forall k :: q0 + 18 <= k < q0 + 18 + n ==> IsVideoIdChar(t[k])
    requires !IsVideoIdChar(t[q0 + 18 + n])
    ensures YoutubeAt(t) == Some(YoutubeHit(t, (q0 + 18, n, g)))
  {
    OccursMatchesCI(t, q0, EmbedPath);
    OccursMatchesCI(t, g + 1, "</iframe>");
    YoutubeEmbedAtIs(t, q0, n, g);
    NoLaterDot(t, q0, g);
    YoutubeFromSkips(t, g, q0);
    SkipIs(t, 7, NotGt, g);
    OccursMatchesCI(t, 0, "<iframe");
    YoutubeAtFrom(t, q0 + 18, n, g);
  }

  /** Where the fixed pieces of a YouTube iframe lie */
  lemma YoutubeLayoutMarks(t: string, pre: string, id: string, post: string, rest: string)
    requires t == "<iframe" + pre + EmbedPath + id + post + "></iframe>" + rest
    requires post != []
    ensures var q0, n := 7 + |pre|, |id|; var g := q0 + 18 + n + |post|;
      && OccursAt(t, 0, "<iframe") && OccursAt(t, q0, EmbedPath)
      && OccursAt(t, g + 1, "</iframe>") && t[g] == '>'
      && t[q0 + 18 + n] == post[0] && t[q0 + 18..q0 + 18 + n] == id
  {
  }

  /** What the runs of a YouTube iframe's tag hold: no `>`, no `.` after the embed
      path's own, and only id characters in the id */
  lemma YoutubeLayoutRuns(t: string, pre: string, id: string, post: string, rest: string)
    requires t == "<iframe" + pre + EmbedPath + id + post + "></iframe>" + rest
    requires '>' !in pre && '>' !in id && '>' !in post && '.' !in id && '.' !in post
    requires forall k :: 0 <= k < |id| ==> IsVideoIdChar(id[k])
    ensures var q0, n := 7 + |pre|, |id|; var g := q0 + 18 + n + |post|;
      && (forall k :: 7 <= k < g ==> t[k] != '>')
      && (forall k :: q0 + 8 <= k < g ==> t[k] != '.')
      && (forall k :: q0 + 18 <= k < q0 + 18 + n ==> IsVideoIdChar(t[k]))
  {
  }

  /** An empty iframe whose tag embeds a YouTube video becomes `<amp-youtube>` with that
      video's id, when the id is followed by a character an id cannot hold (the closing
      quote of `src="…"`, say) and there is no later embed path in the tag */
  lemma YoutubeIframe(pre: string, id: string, post: string, rest: string)
    requires '>' !in pre && '>' !in id && '>' !in post && '.' !in id && '.' !in post
    requires id != [] && forall k :: 0 <= k < |id| ==> IsVideoIdChar(id[k])
    requires post != [] && !IsVideoIdChar(post[0])
    ensures var h := YoutubeAt("<iframe" + pre + EmbedPath + id + post + "></iframe>" + rest);
      && h.Some? && h.value.len == 17 + |pre| + |EmbedPath| + |id| + |post|
      && h.value.replacement == AmpYoutube(id)
  {
    var t := "<iframe" + pre + EmbedPath + id + post + "></iframe>" + rest;
    var q0, n := 7 + |pre|, |id|;
    var g := q0 + 18 + n + |post|;
    YoutubeLayoutMarks(t, pre, id, post, rest);
    YoutubeLayoutRuns(t, pre, id, post, rest);
    YoutubeReplacement(t, q0, n, g, id);
  }

  /** The hit of a YouTube iframe laid out by index carries the id found at its place */
  lemma YoutubeReplacement(t: string, q0: nat, n: nat, g: nat, id: string)
    requires OccursAt(t, 0, "<iframe") && 7 <= q0 && OccursAt(t, q0, EmbedPath)
    requires 0 < n && q0 + 18 + n < g && OccursAt(t, g + 1, "</iframe>") && t[g] == '>'
    requires forall k :: 7 <= k < g ==> t[k] != '>'
    requires forall k :: q0 + 8 <= k < g ==> t[k] != '.'
    requires forall k :: q0 + 18 <= k < q0 + 18 + n ==> IsVideoIdChar(t[k])
    requires !IsVideoIdChar(t[q0 + 18 + n]) && t[q0 + 18..q0 + 18 + n] == id
    ensures YoutubeAt(t) == Some(Hit(g + 10, AmpYoutube(id)))
  {
    YoutubeMatch(t, q0, n, g);
    YoutubeHitOf(t, q0 + 18, n, g, id);
  }

  /** The hit carries the id that stands at its place */
  lemma YoutubeHitOf(t: string, a: nat, n: nat, g: nat, id: string)
    requires a + n <= g < |t| && t[a..a + n] == id
    ensures YoutubeHit(t, (a, n, g)) == Hit(g + 10, AmpYoutube(id))
  {
  }

  /** An iframe element whose tag does not mention `amp-` is removed whole */
  lemma OtherIframeRemoved(attrs: string, body: string, rest: string)
    requires '>' !in attrs && '<' !in body
    requires forall k: nat :: !MatchesCI(attrs, k, "amp-")
    ensures var h := IframeAt("<iframe" + attrs + ">" + body + "</iframe>" + rest);
      h.Some? && h.value.len == |attrs| + |body| + 17 && h.value.replacement == []
  {
    var t1 := "<iframe" + attrs + ">";
    var t2 := t1 + body;
    var t := t2 + "</iframe>" + rest;
    var g: nat := 7 + |attrs|;
    var c: nat := g + 1 + |body|;
    assert ElementSpan(t, "<iframe", "</iframe>") == Some((g, c)) by {
      assert t[..7] == "<iframe" by { assert t1[..7] == "<iframe"; }
      assert t[g] == '>' by { assert t1[g] == '>'; }
      forall k | 7 <= k < g ensures t[k] != '>' { assert t[k] == t1[k] == attrs[k - 7]; }
      forall k | g + 1 <= k < c ensures t[k] != '<' { assert t[k] == t2[k] == body[k - g - 1]; }
      assert t[c..c + 9] == "</iframe>";
      SpanMatch(t, "<iframe", "</iframe>", g, c);
    }
    assert t[..|t1|] == t1;
    IframeTagWithoutAmp(t, attrs, t1);
  }

  /** A tag whose attribute text has no `amp-` lets the lookahead through */
  lemma IframeTagWithoutAmp(t: string, attrs: string, t1: string)
    requires t1 == "<iframe" + attrs + ">" && |t1| <= |t| && t[..|t1|] == t1
    requires forall k: nat :: !MatchesCI(attrs, k, "amp-")
    ensures !MentionsAmp(t, 7 + |attrs|)
  {
    var g := 7 + |attrs|;
    forall k | 7 <= k < g
      ensures !MatchesCI(t, k, "amp-")
    {
      if k + 4 <= g {
        assert t[k..k + 4] == attrs[k - 7..k - 3] by {
          assert t[k..k + 4] == t1[k..k + 4];
        }
        MatchesCISlice(t, k, "amp-");
        MatchesCISlice(attrs, k - 7, "amp-");
      } else {
        assert t[g] == t1[g];
        MatchesCIImplies(t, k, "amp-", g - k);
      }
    }
  }

  // ---------------------------------------------------------------------------
  // Links and attributes

  /** A tag beginning `<a` is one match of the link pattern: it gains
      `rel="noopener nofollow"` when it opens a new window without a `rel`, and is
      copied unchanged otherwise */
  lemma AnchorTag(attrs: string, rest: string)
    requires '>' !in attrs
    ensures var h := AnchorAt("<a" + attrs + ">" + rest);
      && h.Some? && h.value.len == |attrs| + 3
      && h.value.replacement == if NeedsRel(attrs) then "<a" + attrs + NoOpener + ">" else "<a" + attrs + ">"
  {
    var t1 := "<a" + attrs + ">";
    var t := t1 + rest;
    var g := 2 + |attrs|;
    assert t[2..g] == attrs && t[..g + 1] == t1 by {
      assert t[2..g] == t1[2..g];
      assert t[..g + 1] == t1;
    }
    assert AnchorAt(t).Some? && AnchorAt(t).value.len == g + 1 by {
      assert t[..2] == "<a" by { assert t[..2] == t1[..2]; }
      assert t[g] == '>' by { assert t[g] == t1[g]; }
      forall k | 2 <= k < g ensures t[k] != '>' { assert t[k] == t1[k] == attrs[k - 2]; }
      OccursMatchesCI(t, 0, "<a");
      FindCharIs(t, '>', 2, g);
    }
  }

  lemma AmpTagJoin(attrs: string)
    ensures "<a" + ("mp-img" + attrs) == "<amp-img" + attrs
  {
    assert "<a" + "mp-img" == "<amp-img";
  }

  /** The rel test is a plain substring test: `<amp-img>` tags and any other tag whose
      name begins with `a` are patched like links */
  lemma AmpTagsArePatchedToo(attrs: string, rest: string)
    requires '>' !in attrs && NeedsRel("mp-img" + attrs)
    ensures var h := AnchorAt("<amp-img" + attrs + ">" + rest);
      h.Some? && h.value.replacement == "<amp-img" + attrs + NoOpener + ">"
  {
    AnchorTag("mp-img" + attrs, rest);
    AmpTagJoin(attrs);
  }

  /** `\s*=\s*["']([^"']*)["']` with no whitespace: `=`, a quote, the value, and the
      closing quote at `e` */
  lemma QuotedAssignmentIs(t: string, w: nat, e: nat)
    requires w + 2 <= e < |t| && t[w] == '=' && IsQuote(t[w + 1]) && IsQuote(t[e])
    requires forall k :: w + 2 <= k < e ==> NotQuote(t[k])
    ensures QuotedAssignment(t, w) == Some((w + 2, e))
  {
    SkipIs(t, w, IsSpace, w);
    SkipIs(t, w + 1, IsSpace, w + 1);
    SkipIs(t, w + 2, NotQuote, e);
  }

  /** Once whitespace and `on` are found, the rest of the pattern decides */
  lemma HandlerFromOn(t: string, a: nat)
    requires Skip(t, 0, IsSpace) == a && MatchesCI(t, a, "on")
    ensures HandlerAt(t) == HandlerNamedAt(t, a + 2)
  {
  }

  /** The part of the handler pattern after `on`, laid out by index */
  lemma HandlerNamedMatch(t: string, n: nat, w: nat, e: nat)
    requires n < w && w + 2 <= e < |t|
    requires forall k :: n <= k < w ==> IsWordChar(t[k])
    requires t[w] == '=' && t[w + 1] == '"' && t[e] == '"'
    requires forall k :: w + 2 <= k < e ==> NotQuote(t[k])
    ensures HandlerNamedAt(t, n) == Some(Hit(e + 1, []))
  {
    assert Skip(t, n, IsWordChar) == w by { SkipIs(t, n, IsWordChar, w); }
    assert QuotedAssignment(t, w) == Some((w + 2, e)) by { QuotedAssignmentIs(t, w, e); }
  }

  /** An event-handler attribute with a double-quoted value, with the whitespace before
      it, is one match of the handler pattern and is removed */
  lemma HandlerRemoved(sp: string, name: string, value: string, rest: string)
    requires forall k :: 0 <= k < |sp| ==> IsSpace(sp[k])
    requires name != [] && forall k :: 0 <= k < |name| ==> IsWordChar(name[k])
    requires '"' !in value && '\'' !in value
    ensures var h := HandlerAt(sp + "on" + name + "=\"" + value + "\"" + rest);
      h.Some? && h.value.len == |sp| + |name| + |value| + 5 && h.value.replacement == []
  {
    var attr := sp + "on" + name + "=\"" + value + "\"";
    HandlerShape(sp, name, value);
    HandlerPrefix(attr, |sp|, |sp| + 2 + |name|, rest);
  }

  /** `attr` is whitespace up to `a`, `on`, word characters up to `w`, then `="`, a value
      without quotes, and the closing quote */
  predicate HandlerShaped(attr: string, a: nat, w: nat) {
    && a + 2 < w && w + 3 <= |attr|
    && (forall k :: 0 <= k < a ==> IsSpace(attr[k]))
    && attr[a] == 'o' && attr[a + 1] == 'n'
    && (forall k :: a + 2 <= k < w ==> IsWordChar(attr[k]))
    && attr[w] == '=' && attr[w + 1] == '"' && attr[|attr| - 1] == '"'
    && (forall k :: w + 2 <= k < |attr| - 1 ==> NotQuote(attr[k]))
  }

  lemma HandlerShape(sp: string, name: string, value: string)
    requires forall k :: 0 <= k < |sp| ==> IsSpace(sp[k])
    requires name != [] && forall k :: 0 <= k < |name| ==> IsWordChar(name[k])
    requires '"' !in value && '\'' !in value
    ensures HandlerShaped(sp + "on" + name + "=\"" + value + "\"", |sp|, |sp| + 2 + |name|)
  {
    var t1 := sp + "on";
    var t2 := t1 + name;
    var t3 := t2 + "=\"";
    var t4 := t3 + value;
    var attr := t4 + "\"";
    var a := |sp|;
    var w := a + 2 + |name|;
    forall k | 0 <= k < a ensures IsSpace(attr[k]) { assert attr[k] == t1[k] == sp[k]; }
    assert attr[a] == 'o' && attr[a + 1] == 'n' by { assert attr[a] == t1[a] && attr[a + 1] == t1[a + 1]; }
    forall k | a + 2 <= k < w ensures IsWordChar(attr[k]) { assert attr[k] == t2[k] == name[k - a - 2]; }
    assert attr[w] == '=' && attr[w + 1] == '"' by { assert attr[w] == t3[w] && attr[w + 1] == t3[w + 1]; }
    forall k | w + 2 <= k < |attr| - 1 ensures NotQuote(attr[k]) { assert attr[k] == t4[k] == value[k - w - 2]; }
  }

  /** An event-handler attribute at the start of the text is one match of the handler
      pattern, removed whole */
  lemma HandlerPrefix(attr: string, a: nat, w: nat, rest: string)
    requires HandlerShaped(attr, a, w)
    ensures HandlerAt(attr + rest) == Some(Hit(|attr|, []))
  {
    HandlerSpaceAndOn(attr, a, rest);
    HandlerFromOn(attr + rest, a);
    HandlerNamedPrefix(attr, a, w, rest);
  }

  /** The leading whitespace of a handler attribute ends at its `on` */
  lemma HandlerSpaceAndOn(attr: string, a: nat, rest: string)
    requires a + 2 <= |attr| && attr[a] == 'o' && attr[a + 1] == 'n'
    requires forall k :: 0 <= k < a ==> IsSpace(attr[k])
    ensures Skip(attr + rest, 0, IsSpace) == a && MatchesCI(attr + rest, a, "on")
  {
    var t := attr + rest;
    assert MatchesCI(t, a, "on") by {
      assert t[a] == attr[a] && t[a + 1] == attr[a + 1];
      assert Lower(t[a]) == Lower("on"[0]) && Lower(t[a + 1]) == Lower("on"[1]);
    }
    forall k | 0 <= k < a ensures IsSpace(t[k]) { assert t[k] == attr[k]; }
    assert t[a] == 'o';
    SkipIs(t, 0, IsSpace, a);
  }

  /** The name and value of a handler attribute are the rest of the match */
  lemma HandlerNamedPrefix(attr: string, a: nat, w: nat, rest: string)
    requires a + 2 < w && w + 3 <= |attr|
    requires forall k :: a + 2 <= k < w ==> IsWordChar(attr[k])
    requires attr[w] == '=' && attr[w + 1] == '"' && attr[|attr| - 1] == '"'
    requires forall k :: w + 2 <= k < |attr| - 1 ==> NotQuote(attr[k])
    ensures HandlerNamedAt(attr + rest, a + 2) == Some(Hit(|attr|, []))
  {
    var t := attr + rest;
    forall k | a + 2 <= k < w ensures IsWordChar(t[k]) { assert t[k] == attr[k]; }
    assert t[w] == '=' && t[w + 1] == '"' && t[|attr| - 1] == '"';
    forall k | w + 2 <= k < |attr| - 1 ensures NotQuote(t[k]) { assert t[k] == attr[k]; }
    HandlerNamedMatch(t, a + 2, w, |attr| - 1);
  }

  // ---------------------------------------------------------------------------
  // getRequiredAmpComponents

  /** The script tag that loads one AMP extension */
  function ComponentScript(name: string): string {
    "<script async custom-element=\"" + name + "\" src=\"https://cdn.ampproject.org/v0/" + name + "-0.1.js\"></script>"
  }

  const ImgScript := ComponentScript("amp-img")
  const VideoScript := ComponentScript("amp-video")
  const YoutubeScript := ComponentScript("amp-youtube")
  const AccordionScript := ComponentScript("amp-accordion")

  /** The four extension scripts differ: they name different extensions */
  lemma ScriptsDiffer()
    ensures ImgScript != VideoScript && ImgScript != YoutubeScript && ImgScript != AccordionScript
    ensures VideoScript != YoutubeScript && VideoScript != AccordionScript && YoutubeScript != AccordionScript
  {
    assert ImgScript[34] == 'i' && VideoScript[34] == 'v' && YoutubeScript[34] == 'y' && AccordionScript[34] == 'a';
  }

  predicate Distinct(s: seq<string>) {
    forall i, j :: 0 <= i < j < |s| ==> s[i] != s[j]
  }

  /** `Set.prototype.add` on a set kept in insertion order */
  function SetAdd(s: seq<string>, x: string): (r: seq<string>)
    ensures x in r && forall y :: y in s ==> y in r
    ensures forall y :: y in r ==> y in s || y == x
    ensures Distinct(s) ==> Distinct(r)
    ensures x !in s ==> r == s + [x]
  {
    if x in s then s else s + [x]
  }

  /** The extension scripts a page needs: the amp-img script first, then the video,
      YouTube and accordion scripts in that order, each when the HTML has an element of
      that kind */
  function RequiredComponents(html: string): seq<string> {
    [ImgScript]
    + (if Contains(html, "<amp-video") then [VideoScript] else [])
    + (if Contains(html, "<amp-youtube") then [YoutubeScript] else [])
    + (if Contains(html, "<amp-accordion") then [AccordionScript] else [])
  }

  /** No script is listed twice, the image script always is, and each other script is
      listed exactly when its element occurs */
  lemma RequiredComponentsFacts(html: string)
    ensures var c := RequiredComponents(html);
      && Distinct(c) && 1 <= |c| <= 4 && c[0] == ImgScript
      && (VideoScript in c <==> Contains(html, "<amp-video"))
      && (YoutubeScript in c <==> Contains(html, "<amp-youtube"))
      && (AccordionScript in c <==> Contains(html, "<amp-accordion"))
  {
    ScriptsDiffer();
  }

  /** `getRequiredAmpComponents`, which collects the scripts in a set as it goes */
  method GetRequiredAmpComponents(html: string) returns (components: seq<string>)
    ensures components == RequiredComponents(html)
    ensures Distinct(components)
  {
    ScriptsDiffer();
    ghost var video := if Contains(html, "<amp-video") then [VideoScript] else [];
    ghost var youtube := if Contains(html, "<amp-youtube") then [YoutubeScript] else [];
    ghost var accordion := if Contains(html, "<amp-accordion") then [AccordionScript] else [];
    components := [];
    components := SetAdd(components, ImgScript);
    assert components == [ImgScript];
    if Contains(html, "<amp-video") {
      components := SetAdd(components, VideoScript);
    }
    assert components == [ImgScript] + video;
    if Contains(html, "<amp-youtube") {
      assert YoutubeScript !in components;
      components := SetAdd(components, YoutubeScript);
    }
    assert components == [ImgScript] + video + youtube;
    if Contains(html, "<amp-accordion") {
      assert AccordionScript !in components;
      components := SetAdd(components, AccordionScript);
    }
    assert components == [ImgScript] + video + youtube + accordion;
    RequiredComponentsFacts(html);
  }
}

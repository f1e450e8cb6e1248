/**
 * The site's header bar (frontend/components/Navbar.tsx): the logo pair chosen for the
 * theme, the five navigation links and the call to action for the page's locale, and the
 * path the language switcher navigates to.
 *
 * Whether the dark theme is on, the current path and the CMS's strings and settings are
 * inputs; rendering, scrolling and storage are not modelled.
 */
module Navbar {
  import opened Wrappers
  import opened Text

  /** An uploaded image; only its URL is read */
  datatype Media = Media(url: Option<string>)

  datatype SiteSettings = SiteSettings(
    logo: Option<Media>, logo2x: Option<Media>, logoDark: Option<Media>, logoDark2x: Option<Media>)

  /** The regular and the double-resolution logo */
  datatype LogoSet = LogoSet(regular: Media, retina: Option<Media>)

  /** `x?.url` is truthy */
  predicate HasUrl(m: Option<Media>) {
    m.Some? && Truthy(m.value.url)
  }

  /** `getLogoSet`: the dark pair in the dark theme when there is a dark logo, otherwise
      the regular pair when there is a regular logo, otherwise none */
  function GetLogoSet(isDark: bool, settings: Option<SiteSettings>): (r: Option<LogoSet>)
    ensures settings.None? ==> r.None?
    ensures r.Some? ==> Truthy(r.value.regular.url)
    ensures settings.Some? && isDark && HasUrl(settings.value.logoDark) ==>
              r == Some(LogoSet(settings.value.logoDark.value, settings.value.logoDark2x))
    ensures settings.Some? && !(isDark && HasUrl(settings.value.logoDark)) ==>
              r == (if HasUrl(settings.value.logo) then Some(LogoSet(settings.value.logo.value, settings.value.logo2x))
                    else None)
  {
    if settings.Some? && isDark && HasUrl(settings.value.logoDark) then
      Some(LogoSet(settings.value.logoDark.value, settings.value.logoDark2x))
    else if settings.Some? && HasUrl(settings.value.logo) then
      Some(LogoSet(settings.value.logo.value, settings.value.logo2x))
    else None
  }

  /** The `src` of the logo, and the `srcSet` of its double-resolution source when the
      retina logo has a URL */
  function LogoSources(logos: LogoSet): (r: (string, Option<string>))
    requires Truthy(logos.regular.url)
    ensures r.0 == "https://cavota.id" + logos.regular.url.value
    ensures r.1.Some? <==> HasUrl(logos.retina)
    ensures r.1.Some? ==> r.1.value == "https://cavota.id" + logos.retina.value.url.value + " 2x"
  {
    var src := "https://cavota.id" + logos.regular.url.value;
    if HasUrl(logos.retina) then (src, Some("https://cavota.id" + logos.retina.value.url.value + " 2x"))
    else (src, None)
  }

  /** The text and the two URLs of one navigation link */
  datatype LinkStrings = LinkStrings(text: string, urlId: string, urlEn: string)

  /** The header strings the CMS provides */
  datatype Strings = Strings(
    home: LinkStrings, services: LinkStrings, insights: LinkStrings, about: LinkStrings,
    contact: LinkStrings, ctaText: string)

  datatype NavItem = NavItem(name: string, href: string)

  /** The URL of a link for a locale: the Indonesian one for `id`, the English one for
      anything else */
  function Href(locale: string, link: LinkStrings): (h: string)
    ensures locale == "id" ==> h == link.urlId
    ensures locale != "id" ==> h == link.urlEn
  {
    if locale == "id" then link.urlId else link.urlEn
  }

  /** `navigation` */
  function Navigation(locale: string, strings: Strings): (items: seq<NavItem>)
    ensures |items| == 5
    ensures items[0] == NavItem(strings.home.text, Href(locale, strings.home))
    ensures items[1] == NavItem(strings.services.text, Href(locale, strings.services))
    ensures items[2] == NavItem(strings.insights.text, Href(locale, strings.insights))
    ensures items[3] == NavItem(strings.about.text, Href(locale, strings.about))
    ensures items[4] == NavItem(strings.contact.text, Href(locale, strings.contact))
  {
    [NavItem(strings.home.text, Href(locale, strings.home)),
     NavItem(strings.services.text, Href(locale, strings.services)),
     NavItem(strings.insights.text, Href(locale, strings.insights)),
     NavItem(strings.about.text, Href(locale, strings.about)),
     NavItem(strings.contact.text, Href(locale, strings.contact))]
  }

  /** `ctaUrl`: the contact URL of the locale */
  function CtaUrl(locale: string, strings: Strings): (url: string)
    ensures url == Navigation(locale, strings)[4].href
  {
    if locale == "id" then strings.contact.urlId else strings.contact.urlEn
  }

  /** Every link of the Indonesian bar is its Indonesian URL, and of any other bar its
      English URL */
  lemma NavigationFollowsLocale(locale: string, strings: Strings)
    ensures var links := [strings.home, strings.services, strings.insights, strings.about, strings.contact];
            forall i :: 0 <= i < 5 ==>
              && Navigation(locale, strings)[i].name == links[i].text
              && (locale == "id" ==> Navigation(locale, strings)[i].href == links[i].urlId)
              && (locale != "id" ==> Navigation(locale, strings)[i].href == links[i].urlEn)
  {
  }

  /** `pathname.replace(/^\/[a-z]{2}/, '') || '/'` */
  function PathWithoutLocale(pathname: string): (r: string)
    ensures r != []
  {
    var rest := if |pathname| >= 3 && pathname[0] == '/' && IsLowerLetter(pathname[1]) && IsLowerLetter(pathname[2])
                then pathname[3..] else pathname;
    if rest == [] then "/" else rest
  }

  /** The path `switchLanguage` navigates to */
  function SwitchPath(newLocale: string, pathname: string): (p: string)
    ensures StartsWith(p, "/" + newLocale)
  {
    var rest := PathWithoutLocale(pathname);
    var p := "/" + newLocale + (if rest == "/" then "" else rest);
    assert p[..|"/" + newLocale|] == "/" + newLocale;
    p
  }

  /** Switching a localised path keeps everything after the locale: `/id` becomes `/en`,
      `/id/about` becomes `/en/about` */
  lemma SwitchKeepsPath(locale: string, rest: string, newLocale: string)
    requires |locale| == 2 && IsLowerLetter(locale[0]) && IsLowerLetter(locale[1])
    ensures SwitchPath(newLocale, "/" + locale + rest)
            == "/" + newLocale + (if rest == [] || rest == "/" then "" else rest)
  {
    var pathname := "/" + locale + rest;
    assert pathname[1] == locale[0] && pathname[2] == locale[1];
    assert pathname[3..] == rest;
  }

  /** Switching twice comes back to the first locale's path */
  lemma SwitchBack(a: string, b: string, rest: string)
    requires |a| == 2 && IsLowerLetter(a[0]) && IsLowerLetter(a[1])
    requires |b| == 2 && IsLowerLetter(b[0]) && IsLowerLetter(b[1])
    requires rest == [] || (rest[0] == '/' && rest != "/")
    ensures SwitchPath(a, SwitchPath(b, "/" + a + rest)) == "/" + a + rest
  {
    SwitchKeepsPath(a, rest, b);
    SwitchKeepsPath(b, rest, a);
  }

  /** The first two letters of any path are taken for a locale, so a path outside the
      locales loses them: `/about` switches to `/enout` */
  lemma FirstLettersTakenForLocale()
    ensures SwitchPath("en", "/about") == "/enout"
  {
    SwitchKeepsPath("ab", "out", "en");
    assert "/" + "ab" + "out" == "/about";
  }

  datatype Language = Language(code: string, name: string, flag: string)

  const Languages: seq<Language> := [
    Language("id", "ID", "\U{1F1EE}\U{1F1E9}"),
    Language("en", "EN", "\U{1F1FA}\U{1F1F8}")
  ]

  /** `languages.find(lang => lang.code === currentLocale) || languages[0]` */
  function CurrentLanguage(currentLocale: string): (l: Language)
    ensures l in Languages
    ensures (exists k :: 0 <= k < |Languages| && Languages[k].code == currentLocale) ==> l.code == currentLocale
    ensures (forall k :: 0 <= k < |Languages| ==> Languages[k].code != currentLocale) ==> l == Languages[0]
  {
    if currentLocale == "id" then Languages[0]
    else if currentLocale == "en" then Languages[1]
    else Languages[0]
  }
}

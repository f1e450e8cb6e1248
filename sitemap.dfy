/**
 * The sitemap route of the frontend (frontend/app/sitemap.xml/route.ts): the pages,
 * services, insights and works of both locales, gathered from the CMS and listed as
 * `<url>` entries of a sitemaps.org 0.9 `urlset`.
 *
 * The CMS's answers are inputs (one per locale, in the order `id`, `en`), and so are
 * the date formatter and today's formatted date.
 */
module Sitemap {
  import opened Wrappers
  import opened Text

  /** A page or content item as the CMS lists it; only pages have a page type */
  datatype Item = Item(slug: string, locale: string, updatedAt: string, pageType: Option<string>)

  /** The outcome of one locale's request: a failed status, a thrown error, or a body
      whose `data` may be missing or not a list, and whose entries may be `null` (`None`) */
  datatype Fetch = NotOk | Threw | Ok(data: Option<seq<Option<Item>>>)

  /** A priority in tenths: 10 is 1.0 */
  type Tenths = p: nat | p <= 10

  /** One `<url>` entry */
  datatype Entry = Entry(loc: string, lastmod: string, changefreq: string, priority: Tenths)

  // ---------------------------------------------------------------------------
  // Fetching

  predicate IsCustom(item: Option<Item>) {
    item.Some? && item.value.pageType == Some("custom")
  }

  /** `filter(page => page.page_type !== 'custom')`, on a list without `null` entries (a
      `null` one makes the filter throw, see `Throws`) */
  function DropCustom(items: seq<Option<Item>>): (r: seq<Option<Item>>)
    ensures |r| <= |items|
  {
    if |items| == 0 then []
    else DropCustom(items[..|items| - 1]) + (if IsCustom(items[|items| - 1]) then [] else [items[|items| - 1]])
  }

  /** The filter keeps exactly the pages that are not custom */
  lemma {:induction false} DropCustomKeeps(items: seq<Option<Item>>, x: Option<Item>)
    ensures x in DropCustom(items) <==> x in items && !IsCustom(x)
    decreases |items|
  {
    if |items| > 0 {
      var n := |items|;
      DropCustomKeeps(items[..n - 1], x);
      assert items == items[..n - 1] + [items[n - 1]];
    }
  }

  /** One locale's request throws: the request itself, or the page filter reading the
      page type of a `null` entry */
  predicate Throws(f: Fetch, dropCustom: bool) {
    f.Threw? || (dropCustom && f.Ok? && f.data.Some? && None in f.data.value)
  }

  predicate AnyThrows(fs: seq<Fetch>, dropCustom: bool) {
    exists f :: f in fs && Throws(f, dropCustom)
  }

  /** What one locale's answer adds to the list */
  function Contribution(f: Fetch, dropCustom: bool): seq<Option<Item>> {
    match f
    case Ok(Some(items)) => if dropCustom then DropCustom(items) else items
    case _ => []
  }

  /** The answers of the locales so far, in order, when none threw */
  function Gathered(fs: seq<Fetch>, dropCustom: bool): seq<Option<Item>> {
    if |fs| == 0 then [] else Gathered(fs[..|fs| - 1], dropCustom) + Contribution(fs[|fs| - 1], dropCustom)
  }

  /** What a fetcher returns: the empty list once any request threw */
  function Collected(fs: seq<Fetch>, dropCustom: bool): seq<Option<Item>> {
    if AnyThrows(fs, dropCustom) then [] else Gathered(fs, dropCustom)
  }

  /** The loop of `fetchPages` (`dropCustom`) and of the other three fetchers: a failed
      status skips the locale, a thrown error ends in the empty list */
  method FetchItems(fs: seq<Fetch>, dropCustom: bool) returns (all: seq<Option<Item>>)
    ensures all == Collected(fs, dropCustom)
  {
    all := [];
    for i := 0 to |fs|
      invariant !AnyThrows(fs[..i], dropCustom)
      invariant all == Gathered(fs[..i], dropCustom)
    {
      assert fs[..i + 1][..i] == fs[..i];
      assert fs[i] in fs;
      match fs[i]
      case Threw =>
        return [];
      case NotOk =>
        assert fs[..i + 1] == fs[..i] + [fs[i]];
        continue;
      case Ok(data) =>
        if dropCustom && data.Some? && None in data.value {
          return [];
        }
        assert fs[..i + 1] == fs[..i] + [fs[i]];
        if data.Some? {
          var kept := if dropCustom then DropCustom(data.value) else data.value;
          all := all + kept;
        }
    }
    assert fs[..|fs|] == fs;
  }

  lemma {:induction false} GatheredAppend(a: seq<Fetch>, b: seq<Fetch>, dropCustom: bool)
    ensures Gathered(a + b, dropCustom) == Gathered(a, dropCustom) + Gathered(b, dropCustom)
    decreases |b|
  {
    if b == [] {
      assert a + b == a;
    } else {
      var n := |b|;
      GatheredAppend(a, b[..n - 1], dropCustom);
      GatheredAppendStep(a, b, dropCustom);
    }
  }

  lemma GatheredAppendStep(a: seq<Fetch>, b: seq<Fetch>, dropCustom: bool)
    requires b != []
    requires Gathered(a + b[..|b| - 1], dropCustom) == Gathered(a, dropCustom) + Gathered(b[..|b| - 1], dropCustom)
    ensures Gathered(a + b, dropCustom) == Gathered(a, dropCustom) + Gathered(b, dropCustom)
  {
    var ab := a + b;
    var n := |b|;
    assert ab[..|ab| - 1] == a + b[..n - 1];
    assert ab[|ab| - 1] == b[n - 1];
    GatheredLast(ab, dropCustom);
    GatheredLast(b, dropCustom);
    Associative(Gathered(a, dropCustom), Gathered(b[..n - 1], dropCustom), Contribution(b[n - 1], dropCustom));
  }

  lemma GatheredLast(fs: seq<Fetch>, dropCustom: bool)
    requires |fs| > 0
    ensures Gathered(fs, dropCustom) == Gathered(fs[..|fs| - 1], dropCustom) + Contribution(fs[|fs| - 1], dropCustom)
  {
  }

  /** A locale whose request fails is skipped and the others are kept */
  lemma FailedLocaleSkipped(before: seq<Fetch>, after: seq<Fetch>, dropCustom: bool)
    ensures Collected(before + [NotOk] + after, dropCustom) == Collected(before + after, dropCustom)
  {
    GatheredAppend(before + [NotOk], after, dropCustom);
    GatheredAppend(before, [NotOk], dropCustom);
    GatheredAppend(before, after, dropCustom);
    assert [NotOk][..0] == [];
    assert !Throws(NotOk, dropCustom);
    assert AnyThrows(before + [NotOk] + after, dropCustom) <==> AnyThrows(before + after, dropCustom);
  }

  /** Gathered items come from the answers, in order */
  lemma {:induction false} GatheredFrom(fs: seq<Fetch>, dropCustom: bool, x: Option<Item>)
    requires x in Gathered(fs, dropCustom)
    ensures exists i :: 0 <= i < |fs| && fs[i].Ok? && fs[i].data.Some? && x in fs[i].data.value
    decreases |fs|
  {
    var n := |fs|;
    if x in Gathered(fs[..n - 1], dropCustom) {
      GatheredFrom(fs[..n - 1], dropCustom, x);
      var i :| 0 <= i < n - 1 && fs[..n - 1][i].Ok? && fs[..n - 1][i].data.Some? && x in fs[..n - 1][i].data.value;
      assert fs[i] == fs[..n - 1][i];
    } else {
      assert x in Contribution(fs[n - 1], dropCustom);
      if dropCustom {
        DropCustomKeeps(fs[n - 1].data.value, x);
      }
    }
  }

  /** The page list has no `null` and no custom page, and every page it has came from an
      answer */
  lemma PagesAreNotCustom(fs: seq<Fetch>, x: Option<Item>)
    requires x in Collected(fs, true)
    ensures x.Some? && !IsCustom(x)
    ensures exists i :: 0 <= i < |fs| && fs[i].Ok? && fs[i].data.Some? && x in fs[i].data.value
  {
    GatheredFrom(fs, true, x);
    var i :| 0 <= i < |fs| && fs[i].Ok? && fs[i].data.Some? && x in fs[i].data.value;
    assert fs[i] in fs && !Throws(fs[i], true);
    GatheredCustomFree(fs, x);
  }

  lemma {:induction false} GatheredCustomFree(fs: seq<Fetch>, x: Option<Item>)
    requires x in Gathered(fs, true)
    ensures !IsCustom(x)
    decreases |fs|
  {
    var n := |fs|;
    if x in Gathered(fs[..n - 1], true) {
      GatheredCustomFree(fs[..n - 1], x);
    } else {
      assert x in Contribution(fs[n - 1], true);
      DropCustomKeeps(fs[n - 1].data.value, x);
    }
  }

  /** An entry of an answer that is not a custom page is listed when no request threw;
      for the services, insights and works this includes `null` entries */
  lemma {:induction false} AnsweredEntriesKept(fs: seq<Fetch>, dropCustom: bool, i: nat, x: Option<Item>)
    requires !AnyThrows(fs, dropCustom)
    requires i < |fs| && fs[i].Ok? && fs[i].data.Some? && x in fs[i].data.value
    requires dropCustom ==> !IsCustom(x)
    ensures x in Collected(fs, dropCustom)
    decreases |fs|
  {
    var n := |fs|;
    if i < n - 1 {
      assert fs[..n - 1][i] == fs[i];
      assert !AnyThrows(fs[..n - 1], dropCustom) by {
        forall f | f in fs[..n - 1] ensures f in fs { }
      }
      AnsweredEntriesKept(fs[..n - 1], dropCustom, i, x);
    } else {
      if dropCustom {
        DropCustomKeeps(fs[i].data.value, x);
      }
      assert x in Contribution(fs[n - 1], dropCustom);
    }
  }

  // ---------------------------------------------------------------------------
  // Entries

  /** A page's URL: the `beranda` page is the locale's home */
  function PageUrl(siteUrl: string, page: Item): (url: string)
    ensures page.slug == "beranda" || page.slug == [] ==> url == siteUrl + "/" + page.locale
    ensures page.slug != "beranda" && page.slug != [] ==> url == siteUrl + "/" + page.locale + "/" + page.slug
  {
    var slug := if page.slug == "beranda" then [] else page.slug;
    siteUrl + "/" + page.locale + (if slug != [] then "/" + slug else [])
  }

  /** The section a service, insight or work lives in: its Indonesian name for `id`,
      its English name for any other locale */
  function SectionUrl(siteUrl: string, item: Item, idSection: string, enSection: string): string {
    var base := if item.locale == "id" then idSection else enSection;
    siteUrl + "/" + item.locale + "/" + base + "/" + item.slug
  }

  function ServiceUrl(siteUrl: string, item: Item): string {
    SectionUrl(siteUrl, item, "layanan", "services")
  }

  function InsightUrl(siteUrl: string, item: Item): string {
    SectionUrl(siteUrl, item, "wawasan", "insights")
  }

  function WorkUrl(siteUrl: string, item: Item): string {
    SectionUrl(siteUrl, item, "karya", "work")
  }

  /** The two home pages, dated today, weekly, priority 1.0 */
  function Homes(siteUrl: string, today: string): seq<Entry> {
    [Entry(siteUrl + "/id", today, "weekly", 10), Entry(siteUrl + "/en", today, "weekly", 10)]
  }

  function PageEntries(siteUrl: string, fmt: string -> string, pages: seq<Item>): seq<Entry> {
    if pages == [] then []
    else
      var p := pages[|pages| - 1];
      PageEntries(siteUrl, fmt, pages[..|pages| - 1]) + [Entry(PageUrl(siteUrl, p), fmt(p.updatedAt), "monthly", 8)]
  }

  function ServiceEntries(siteUrl: string, fmt: string -> string, services: seq<Item>): seq<Entry> {
    if services == [] then []
    else
      var s := services[|services| - 1];
      ServiceEntries(siteUrl, fmt, services[..|services| - 1])
        + [Entry(ServiceUrl(siteUrl, s), fmt(s.updatedAt), "monthly", 9)]
  }

  /** Each insight twice: the article at 0.7, then its AMP page at 0.6 */
  function InsightEntries(siteUrl: string, fmt: string -> string, insights: seq<Item>): seq<Entry> {
    if insights == [] then []
    else
      var s := insights[|insights| - 1];
      var url := InsightUrl(siteUrl, s);
      InsightEntries(siteUrl, fmt, insights[..|insights| - 1])
        + [Entry(url, fmt(s.updatedAt), "monthly", 7), Entry(url + "/amp", fmt(s.updatedAt), "monthly", 6)]
  }

  function WorkEntries(siteUrl: string, fmt: string -> string, works: seq<Item>): seq<Entry> {
    if works == [] then []
    else
      var s := works[|works| - 1];
      WorkEntries(siteUrl, fmt, works[..|works| - 1]) + [Entry(WorkUrl(siteUrl, s), fmt(s.updatedAt), "monthly", 7)]
  }

  /** All entries, group after group */
  function SitemapEntries(siteUrl: string, today: string, fmt: string -> string,
                          pages: seq<Item>, services: seq<Item>, insights: seq<Item>, works: seq<Item>): seq<Entry> {
    Homes(siteUrl, today) + PageEntries(siteUrl, fmt, pages) + ServiceEntries(siteUrl, fmt, services)
      + InsightEntries(siteUrl, fmt, insights) + WorkEntries(siteUrl, fmt, works)
  }

  // ---------------------------------------------------------------------------
  // Rendering

  function PriorityText(p: Tenths): string {
    if p == 10 then "1.0" else "0." + [DigitChar(p)]
  }

  /** The `<loc>` element of a URL */
  function LocElement(loc: string): string {
    "<loc>" + loc + "</loc>"
  }

  function EntryXml(e: Entry): string {
    "\n  <url>\n    " + LocElement(e.loc) + "\n    <lastmod>" + e.lastmod + "</lastmod>\n    <changefreq>"
      + e.changefreq + "</changefreq>\n    <priority>" + PriorityText(e.priority) + "</priority>\n  </url>"
  }

  /** `urls.join('')` */
  function EntriesXml(entries: seq<Entry>): string {
    if entries == [] then [] else EntriesXml(entries[..|entries| - 1]) + EntryXml(entries[|entries| - 1])
  }

  const UrlsetHead := "<?xml version=\"1.0\" encoding=\"UTF-8\"?>\n<urlset xmlns=\"http://www.sitemaps.org/schemas/sitemap/0.9\"\n        xmlns:xhtml=\"http://www.w3.org/1999/xhtml\">\n"
  const UrlsetTail := "\n</urlset>"

  function SitemapXml(entries: seq<Entry>): string {
    UrlsetHead + EntriesXml(entries) + UrlsetTail
  }

  /** `generateSitemap`: pushes the entries group by group, then prints the `urlset` */
  method GenerateSitemap(siteUrl: string, today: string, fmt: string -> string,
                         pages: seq<Item>, services: seq<Item>, insights: seq<Item>, works: seq<Item>)
    returns (urls: seq<Entry>, xml: string)
    ensures urls == SitemapEntries(siteUrl, today, fmt, pages, services, insights, works)
    ensures xml == SitemapXml(urls)
  {
    urls := Homes(siteUrl, today);
    urls := PushPages(urls, siteUrl, fmt, pages);
    urls := PushServices(urls, siteUrl, fmt, services);
    urls := PushInsights(urls, siteUrl, fmt, insights);
    urls := PushWorks(urls, siteUrl, fmt, works);
    xml := SitemapXml(urls);
  }

  /** The loop over the pages, pushing one entry per page */
  method PushPages(front: seq<Entry>, siteUrl: string, fmt: string -> string, pages: seq<Item>)
    returns (urls: seq<Entry>)
    ensures urls == front + PageEntries(siteUrl, fmt, pages)
  {
    urls := front;
    for i := 0 to |pages|
      invariant urls == front + PageEntries(siteUrl, fmt, pages[..i])
    {
      assert pages[..i + 1][..i] == pages[..i];
      var p := pages[i];
      urls := urls + [Entry(PageUrl(siteUrl, p), fmt(p.updatedAt), "monthly", 8)];
    }
    assert pages[..|pages|] == pages;
  }

  /** The loop over the services, pushing one entry per service */
  method PushServices(front: seq<Entry>, siteUrl: string, fmt: string -> string, services: seq<Item>)
    returns (urls: seq<Entry>)
    ensures urls == front + ServiceEntries(siteUrl, fmt, services)
  {
    urls := front;
    for i := 0 to |services|
      invariant urls == front + ServiceEntries(siteUrl, fmt, services[..i])
    {
      assert services[..i + 1][..i] == services[..i];
      var s := services[i];
      urls := urls + [Entry(ServiceUrl(siteUrl, s), fmt(s.updatedAt), "monthly", 9)];
    }
    assert services[..|services|] == services;
  }

  /** The loop over the insights, pushing the article's entry and its AMP page's entry */
  method PushInsights(front: seq<Entry>, siteUrl: string, fmt: string -> string, insights: seq<Item>)
    returns (urls: seq<Entry>)
    ensures urls == front + InsightEntries(siteUrl, fmt, insights)
  {
    urls := front;
    for i := 0 to |insights|
      invariant urls == front + InsightEntries(siteUrl, fmt, insights[..i])
    {
      assert insights[..i + 1][..i] == insights[..i];
      var s := insights[i];
      var url := InsightUrl(siteUrl, s);
      urls := urls + [Entry(url, fmt(s.updatedAt), "monthly", 7)];
      urls := urls + [Entry(url + "/amp", fmt(s.updatedAt), "monthly", 6)];
    }
    assert insights[..|insights|] == insights;
  }

  /** The loop over the works, pushing one entry per work */
  method PushWorks(front: seq<Entry>, siteUrl: string, fmt: string -> string, works: seq<Item>)
    returns (urls: seq<Entry>)
    ensures urls == front + WorkEntries(siteUrl, fmt, works)
  {
    urls := front;
    for i := 0 to |works|
      invariant urls == front + WorkEntries(siteUrl, fmt, works[..i])
    {
      assert works[..i + 1][..i] == works[..i];
      var s := works[i];
      urls := urls + [Entry(WorkUrl(siteUrl, s), fmt(s.updatedAt), "monthly", 7)];
    }
    assert works[..|works|] == works;
  }

  /** The items of a list without `null` entries */
  function Values(items: seq<Option<Item>>): (r: seq<Item>)
    requires None !in items
    ensures |r| == |items|
    ensures forall k :: 0 <= k < |r| ==> items[k] == Some(r[k])
  {
    if items == [] then [] else Values(items[..|items| - 1]) + [items[|items| - 1].value]
  }

  /** `GET`: the sitemap of the four fetchers' lists, or, when `generateSitemap` throws on
      reading a `null` entry, the fallback sitemap of the handler's `catch` */
  function Sitemap(siteUrl: string, today: string, fmt: string -> string,
                   pageFetches: seq<Fetch>, serviceFetches: seq<Fetch>,
                   insightFetches: seq<Fetch>, workFetches: seq<Fetch>): (xml: string)
    ensures var pages := Collected(pageFetches, true);
            var services := Collected(serviceFetches, false);
            var insights := Collected(insightFetches, false);
            var works := Collected(workFetches, false);
            && (None in pages || None in services || None in insights || None in works ==> xml == FallbackSitemap(siteUrl))
            && (None !in pages && None !in services && None !in insights && None !in works ==>
                  xml == SitemapXml(SitemapEntries(siteUrl, today, fmt, Values(pages), Values(services),
                                                   Values(insights), Values(works))))
  {
    var pages := Collected(pageFetches, true);
    var services := Collected(serviceFetches, false);
    var insights := Collected(insightFetches, false);
    var works := Collected(workFetches, false);
    if None in pages || None in services || None in insights || None in works then FallbackSitemap(siteUrl)
    else SitemapXml(SitemapEntries(siteUrl, today, fmt, Values(pages), Values(services), Values(insights), Values(works)))
  }

  /** A `null` service, insight or work in an answer, with no request of its list
      throwing, sends the handler to its fallback; a `null` page never does, because the
      page filter throws first and the page list is then empty */
  lemma NullEntryFallsBack(siteUrl: string, today: string, fmt: string -> string,
                           pageFetches: seq<Fetch>, serviceFetches: seq<Fetch>,
                           insightFetches: seq<Fetch>, workFetches: seq<Fetch>, i: nat)
    requires Threw !in serviceFetches
    requires i < |serviceFetches| && serviceFetches[i].Ok? && serviceFetches[i].data.Some?
    requires None in serviceFetches[i].data.value
    ensures None !in Collected(pageFetches, true)
    ensures Sitemap(siteUrl, today, fmt, pageFetches, serviceFetches, insightFetches, workFetches)
            == FallbackSitemap(siteUrl)
  {
    if None in Collected(pageFetches, true) {
      PagesAreNotCustom(pageFetches, None);
    }
    assert !AnyThrows(serviceFetches, false);
    AnsweredEntriesKept(serviceFetches, false, i, None);
  }

  /** The sitemap of the GET handler's `catch`: the two home pages, undated */
  function FallbackSitemap(siteUrl: string): string {
    "<?xml version=\"1.0\" encoding=\"UTF-8\"?>\n<urlset xmlns=\"http://www.sitemaps.org/schemas/sitemap/0.9\">\n  <url>\n    <loc>"
      + siteUrl + "/id</loc>\n    <priority>1.0</priority>\n  </url>\n  <url>\n    <loc>"
      + siteUrl + "/en</loc>\n    <priority>1.0</priority>\n  </url>\n</urlset>"
  }

  // ---------------------------------------------------------------------------
  // Properties of the entries

  lemma {:induction false} PageEntriesAt(siteUrl: string, fmt: string -> string, pages: seq<Item>)
    ensures var es := PageEntries(siteUrl, fmt, pages);
            && |es| == |pages|
            && forall i :: 0 <= i < |pages| ==>
                 es[i] == Entry(PageUrl(siteUrl, pages[i]), fmt(pages[i].updatedAt), "monthly", 8)
    decreases |pages|
  {
    if pages != [] {
      var n := |pages|;
      PageEntriesAt(siteUrl, fmt, pages[..n - 1]);
      forall i | 0 <= i < n - 1 ensures pages[..n - 1][i] == pages[i] { }
    }
  }

  lemma {:induction false} ServiceEntriesAt(siteUrl: string, fmt: string -> string, services: seq<Item>)
    ensures var es := ServiceEntries(siteUrl, fmt, services);
            && |es| == |services|
            && forall i :: 0 <= i < |services| ==>
                 es[i] == Entry(ServiceUrl(siteUrl, services[i]), fmt(services[i].updatedAt), "monthly", 9)
    decreases |services|
  {
    if services != [] {
      var n := |services|;
      ServiceEntriesAt(siteUrl, fmt, services[..n - 1]);
      forall i | 0 <= i < n - 1 ensures services[..n - 1][i] == services[i] { }
    }
  }

  lemma {:induction false} WorkEntriesAt(siteUrl: string, fmt: string -> string, works: seq<Item>)
    ensures var es := WorkEntries(siteUrl, fmt, works);
            && |es| == |works|
            && forall i :: 0 <= i < |works| ==>
                 es[i] == Entry(WorkUrl(siteUrl, works[i]), fmt(works[i].updatedAt), "monthly", 7)
    decreases |works|
  {
    if works != [] {
      var n := |works|;
      WorkEntriesAt(siteUrl, fmt, works[..n - 1]);
      forall i | 0 <= i < n - 1 ensures works[..n - 1][i] == works[i] { }
    }
  }

  /** Insight i is listed at 2i at 0.7 and its AMP page right after it at 0.6 */
  lemma {:induction false} InsightEntriesAt(siteUrl: string, fmt: string -> string, insights: seq<Item>)
    ensures var es := InsightEntries(siteUrl, fmt, insights);
            && |es| == 2 * |insights|
            && forall i :: 0 <= i < |insights| ==>
                 && es[2 * i] == Entry(InsightUrl(siteUrl, insights[i]), fmt(insights[i].updatedAt), "monthly", 7)
                 && es[2 * i + 1] == Entry(InsightUrl(siteUrl, insights[i]) + "/amp", fmt(insights[i].updatedAt), "monthly", 6)
    decreases |insights|
  {
    if insights != [] {
      var n := |insights|;
      InsightEntriesAt(siteUrl, fmt, insights[..n - 1]);
      forall i | 0 <= i < n - 1 ensures insights[..n - 1][i] == insights[i] { }
    }
  }

  /** The count and the group order: two homes, the pages, the services, the insights
      (two entries each), the works */
  lemma SitemapLayout(siteUrl: string, today: string, fmt: string -> string,
                      pages: seq<Item>, services: seq<Item>, insights: seq<Item>, works: seq<Item>)
    ensures var es := SitemapEntries(siteUrl, today, fmt, pages, services, insights, works);
            var p := 2 + |pages|;
            var s := p + |services|;
            var w := s + 2 * |insights|;
            && |es| == 2 + |pages| + |services| + 2 * |insights| + |works|
            && es[0] == Entry(siteUrl + "/id", today, "weekly", 10)
            && es[1] == Entry(siteUrl + "/en", today, "weekly", 10)
            && es[2..p] == PageEntries(siteUrl, fmt, pages)
            && es[p..s] == ServiceEntries(siteUrl, fmt, services)
            && es[s..w] == InsightEntries(siteUrl, fmt, insights)
            && es[w..] == WorkEntries(siteUrl, fmt, works)
  {
    var h := Homes(siteUrl, today);
    var pe := PageEntries(siteUrl, fmt, pages);
    var se := ServiceEntries(siteUrl, fmt, services);
    var ie := InsightEntries(siteUrl, fmt, insights);
    var we := WorkEntries(siteUrl, fmt, works);
    assert |pe| == |pages| by { PageEntriesAt(siteUrl, fmt, pages); }
    assert |se| == |services| by { ServiceEntriesAt(siteUrl, fmt, services); }
    assert |ie| == 2 * |insights| by { InsightEntriesAt(siteUrl, fmt, insights); }
    assert |we| == |works| by { WorkEntriesAt(siteUrl, fmt, works); }
    Groups(h, pe, se, ie, we);
    assert h[0] == Entry(siteUrl + "/id", today, "weekly", 10) && h[1] == Entry(siteUrl + "/en", today, "weekly", 10);
  }

  /** Where each of five concatenated groups sits */
  lemma Groups<T>(h: seq<T>, a: seq<T>, b: seq<T>, c: seq<T>, d: seq<T>)
    ensures var es := h + a + b + c + d;
            var i := |h| + |a|;
            var j := i + |b|;
            var k := j + |c|;
            && |es| == |h| + |a| + |b| + |c| + |d|
            && es[..|h|] == h && es[|h|..i] == a && es[i..j] == b && es[j..k] == c && es[k..] == d
  {
  }

  /** The `beranda` page of a locale is that locale's home */
  lemma BerandaIsHome(siteUrl: string, page: Item)
    requires page.slug == "beranda"
    ensures PageUrl(siteUrl, page) == siteUrl + "/" + page.locale
  {
  }

  /** The section names per locale */
  lemma SectionNames(siteUrl: string, item: Item)
    ensures item.locale == "id" ==>
              && ServiceUrl(siteUrl, item) == siteUrl + "/id/layanan/" + item.slug
              && InsightUrl(siteUrl, item) == siteUrl + "/id/wawasan/" + item.slug
              && WorkUrl(siteUrl, item) == siteUrl + "/id/karya/" + item.slug
    ensures item.locale != "id" ==>
              && ServiceUrl(siteUrl, item) == siteUrl + "/" + item.locale + "/services/" + item.slug
              && InsightUrl(siteUrl, item) == siteUrl + "/" + item.locale + "/insights/" + item.slug
              && WorkUrl(siteUrl, item) == siteUrl + "/" + item.locale + "/work/" + item.slug
  {
    if item.locale == "id" {
      SectionNamed(siteUrl, item, "layanan", "services", "/id/layanan/");
      SectionNamed(siteUrl, item, "wawasan", "insights", "/id/wawasan/");
      SectionNamed(siteUrl, item, "karya", "work", "/id/karya/");
    } else {
      SectionNamed(siteUrl, item, "layanan", "services", "/services/");
      SectionNamed(siteUrl, item, "wawasan", "insights", "/insights/");
      SectionNamed(siteUrl, item, "karya", "work", "/work/");
    }
  }

  /** A section URL spelled with the locale and section joined into one piece */
  lemma SectionNamed(siteUrl: string, item: Item, idSection: string, enSection: string, mid: string)
    requires item.locale == "id" ==> mid == "/id/" + idSection + "/"
    requires item.locale != "id" ==> mid == "/" + enSection + "/"
    ensures item.locale == "id" ==> SectionUrl(siteUrl, item, idSection, enSection) == siteUrl + mid + item.slug
    ensures item.locale != "id" ==>
              SectionUrl(siteUrl, item, idSection, enSection) == siteUrl + "/" + item.locale + mid + item.slug
  {
    var section := if item.locale == "id" then idSection else enSection;
    assert SectionUrl(siteUrl, item, idSection, enSection)
        == siteUrl + ("/" + item.locale + "/" + section + "/") + item.slug;
    if item.locale == "id" {
      assert "/" + item.locale + "/" + section + "/" == mid;
    } else {
      assert "/" + item.locale + "/" + section + "/" == "/" + item.locale + mid;
    }
  }

  /** Every entry's URL appears in the printed sitemap as a `<loc>` element */
  lemma {:induction false} LocPrinted(entries: seq<Entry>, i: nat)
    requires i < |entries|
    ensures exists k: nat :: OccursAt(EntriesXml(entries), k, "<loc>" + entries[i].loc + "</loc>")
    decreases |entries|
  {
    var n := |entries|;
    if i < n - 1 {
      var front := entries[..n - 1];
      LocPrinted(front, i);
      assert front[i] == entries[i];
      var p := "<loc>" + entries[i].loc + "</loc>";
      var k: nat :| OccursAt(EntriesXml(front), k, p);
      LocKept(entries, k, p);
      assert OccursAt(EntriesXml(entries), k, p);
    } else {
      var head := EntriesXml(entries[..n - 1]);
      LastLocPrinted(head, entries[n - 1]);
      assert EntriesXml(entries) == head + EntryXml(entries[n - 1]);
      assert OccursAt(EntriesXml(entries), |head| + 13, "<loc>" + entries[i].loc + "</loc>");
    }
  }

  /** What the output of the earlier entries holds, the whole output holds */
  lemma LocKept(entries: seq<Entry>, k: nat, p: string)
    requires entries != [] && OccursAt(EntriesXml(entries[..|entries| - 1]), k, p)
    ensures OccursAt(EntriesXml(entries), k, p)
  {
    OccursInPrefix(EntriesXml(entries[..|entries| - 1]), EntryXml(entries[|entries| - 1]), k, p);
  }

  lemma OccursInPrefix(x: string, y: string, k: nat, p: string)
    requires OccursAt(x, k, p)
    ensures OccursAt(x + y, k, p)
  {
    assert (x + y)[k..k + |p|] == x[k..k + |p|];
  }

  lemma LastLocPrinted(head: string, e: Entry)
    ensures OccursAt(head + EntryXml(e), |head| + 13, "<loc>" + e.loc + "</loc>")
  {
    var p := LocElement(e.loc);
    var x := EntryXml(e);
    var opening := "\n  <url>\n    " + p;
    assert x[..|opening|] == opening;
    assert opening[13..] == p;
    assert (head + x)[|head| + 13..|head| + 13 + |p|] == x[13..13 + |p|];
  }
}

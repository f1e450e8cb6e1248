/**
 * The SEO helpers of the frontend (frontend/lib/seo.ts): the page metadata built
 * from the CMS's SEO component, with its fallbacks, and the schema.org Article record.
 */
module Seo {
  import opened Wrappers
  import opened Text

  datatype MetaImage = MetaImage(url: string, alternativeText: Option<string>)

  /** The CMS's SEO component, reduced to the fields the mapping reads */
  datatype StrapiSeo = StrapiSeo(
    metaTitle: Option<string>,
    metaDescription: Option<string>,
    metaImage: Option<MetaImage>,
    keywords: Option<string>,
    metaRobots: Option<string>,
    canonicalURL: Option<string>)

  datatype SeoConfig = SeoConfig(siteName: string, siteUrl: string, defaultImage: string)

  /** The robots field: the editor's string, or the fixed object allowing indexing and
      following (for Googlebot too, with unlimited video preview and snippet and large
      image previews) */
  datatype Robots = RobotsText(text: string) | IndexAndFollow

  datatype OpenGraph = OpenGraph(
    kind: string, title: string, description: string, url: string, siteName: string,
    imageUrl: string, imageAlt: string)

  datatype Twitter = Twitter(card: string, title: string, description: string, images: seq<string>)

  datatype Metadata = Metadata(
    title: string,
    description: string,
    keywords: Option<seq<string>>,
    openGraph: OpenGraph,
    twitter: Twitter,
    robots: Robots,
    canonical: Option<string>)

  const Tagline := " - Leading Indonesian Consulting Firm"

  /** The share image: an absolute `http…` URL as it is, any other URL after the site
      URL, and the default image after the site URL when there is none */
  function ImageUrl(image: Option<MetaImage>, config: SeoConfig): (r: string)
    ensures image.Some? && image.value.url != [] && StartsWith(image.value.url, "http") ==> r == image.value.url
    ensures (image.Some? && image.value.url != [] && !StartsWith(image.value.url, "http"))
              ==> r == config.siteUrl + image.value.url
    ensures image.None? || image.value.url == [] ==> r == config.siteUrl + config.defaultImage
  {
    if image.Some? && image.value.url != [] then
      if StartsWith(image.value.url, "http") then image.value.url else config.siteUrl + image.value.url
    else config.siteUrl + config.defaultImage
  }

  /** `keywords?.split(',').map(k => k.trim())`: only a missing string gives no list */
  function Keywords(keywords: Option<string>): (r: Option<seq<string>>)
    ensures keywords.None? <==> r.None?
    ensures r.Some? ==> |r.value| == |Split(keywords.value, ',')|
  {
    match keywords
    case None => None
    case Some(k) =>
      var parts := Split(k, ',');
      Some(seq(|parts|, i requires 0 <= i < |parts| => Trim(parts[i])))
  }

  /** Every keyword is trimmed and comma-free, and the i-th keyword is the i-th
      comma-separated piece without its surrounding whitespace */
  lemma KeywordsAreTrimmedPieces(k: string)
    ensures var r := Keywords(Some(k)).value;
            forall i :: 0 <= i < |r| ==>
              && ',' !in r[i]
              && (r[i] == [] || (!IsSpace(r[i][0]) && !IsSpace(r[i][|r[i]| - 1])))
              && r[i] == Trim(Split(k, ',')[i])
  {
    var parts := Split(k, ',');
    forall i | 0 <= i < |parts| ensures ',' !in Trim(parts[i]) {
      TrimKeeps(parts[i], ',');
    }
  }

  /** Keywords written without whitespace come back exactly: joining them with commas
      gives the editor's string */
  lemma KeywordsRoundTrip(k: string)
    requires forall i :: 0 <= i < |k| ==> !IsSpace(k[i])
    ensures Join(Keywords(Some(k)).value, ',') == k
  {
    var parts := Split(k, ',');
    var r := Keywords(Some(k)).value;
    SplitPiecesWithin(k, ',', c => !IsSpace(c));
    forall i | 0 <= i < |parts| ensures r[i] == parts[i] {
      TrimNoSpace(parts[i]);
    }
    assert r == parts;
    JoinSplit(k, ',');
  }

  /** `mapStrapiSeoToMetadata` */
  function MapSeoToMetadata(seo: StrapiSeo, config: SeoConfig): (m: Metadata)
    ensures m.title == OrElse(seo.metaTitle, config.siteName)
    ensures m.description == OrElse(seo.metaDescription, config.siteName + Tagline)
    ensures m.openGraph.title == m.title && m.twitter.title == m.title
    ensures m.openGraph.description == m.description && m.twitter.description == m.description
    ensures m.twitter.images == [m.openGraph.imageUrl]
    ensures m.openGraph.imageUrl == ImageUrl(seo.metaImage, config)
    ensures m.openGraph.url == config.siteUrl && m.openGraph.siteName == config.siteName
    ensures m.keywords == Keywords(seo.keywords)
    ensures m.robots == (if Truthy(seo.metaRobots) then RobotsText(seo.metaRobots.value) else IndexAndFollow)
    ensures m.canonical.Some? <==> Truthy(seo.canonicalURL)
    ensures m.canonical.Some? ==> m.canonical.value == seo.canonicalURL.value
  {
    var title := OrElse(seo.metaTitle, config.siteName);
    var description := OrElse(seo.metaDescription, config.siteName + Tagline);
    var imageUrl := ImageUrl(seo.metaImage, config);
    var alt := OrElse(if seo.metaImage.Some? then seo.metaImage.value.alternativeText else None, title);
    Metadata(
      title,
      description,
      Keywords(seo.keywords),
      OpenGraph("website", title, description, config.siteUrl, config.siteName, imageUrl, alt),
      Twitter("summary_large_image", title, description, [imageUrl]),
      if Truthy(seo.metaRobots) then RobotsText(seo.metaRobots.value) else IndexAndFollow,
      if Truthy(seo.canonicalURL) then Some(seo.canonicalURL.value) else None)
  }

  /** The share image's alternative text falls back to the page title */
  lemma ImageAltFallsBackToTitle(seo: StrapiSeo, config: SeoConfig)
    requires seo.metaImage.None? || !Truthy(seo.metaImage.value.alternativeText)
    ensures MapSeoToMetadata(seo, config).openGraph.imageAlt == MapSeoToMetadata(seo, config).title
  {
  }

  /** With nothing filled in, the page falls back to the site's name and default image
      and may be indexed */
  lemma EmptySeoDefaults(config: SeoConfig)
    ensures var m := MapSeoToMetadata(StrapiSeo(None, None, None, None, None, None), config);
            && m.title == config.siteName
            && m.description == config.siteName + " - Leading Indonesian Consulting Firm"
            && m.openGraph.imageUrl == config.siteUrl + config.defaultImage
            && m.openGraph.imageAlt == config.siteName
            && m.keywords.None? && m.robots == IndexAndFollow && m.canonical.None?
  {
  }

  datatype ArticleInput = ArticleInput(
    title: string, description: string, author: Option<string>, publishedAt: string,
    modifiedAt: Option<string>, image: Option<string>, url: string)

  /** The schema.org `Article` record; its `@context` is https://schema.org and the
      author and publisher are of type `Organization` */
  datatype Article = Article(
    headline: string, description: string, authorName: string, publisherName: string,
    logoUrl: string, datePublished: string, dateModified: string, image: string, url: string)

  const Brand := "CAVOTA"
  const LogoUrl := "https://cavota.id/images/logo.png"
  const DefaultArticleImage := "https://cavota.id/images/og-default.jpg"

  /** `generateArticleStructuredData` */
  function ArticleStructuredData(a: ArticleInput): (r: Article)
    ensures r.headline == a.title && r.description == a.description && r.url == a.url
    ensures r.datePublished == a.publishedAt
    ensures r.dateModified == (if Truthy(a.modifiedAt) then a.modifiedAt.value else a.publishedAt)
    ensures r.authorName == (if Truthy(a.author) then a.author.value else Brand)
    ensures r.image == (if Truthy(a.image) then a.image.value else DefaultArticleImage)
    ensures r.publisherName == Brand && r.logoUrl == LogoUrl
  {
    Article(a.title, a.description, OrElse(a.author, Brand), Brand, LogoUrl, a.publishedAt,
            OrElse(a.modifiedAt, a.publishedAt), OrElse(a.image, DefaultArticleImage), a.url)
  }

  /** An article never edited since publication reports the publication date twice */
  lemma UnmodifiedArticle(a: ArticleInput)
    requires !Truthy(a.modifiedAt)
    ensures ArticleStructuredData(a).dateModified == ArticleStructuredData(a).datePublished
  {
  }
}

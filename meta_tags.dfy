/** The head tags of src/components/seo/MetaTags.tsx: the props with their
    defaults, and the tag contents they produce. */
module MetaTags {
  import opened Wrappers
  import opened Strings
  import Site

  /** The component's props; an omitted optional prop is `None`. */
  datatype Props = Props(
    title: string,
    description: string,
    keywords: Option<string>,
    image: Option<string>,
    url: Option<string>,
    kind: Option<string>,
    noIndex: Option<bool>)

  /** The contents of the tags the component renders. `keywords` is `None` when
      its tag is not rendered. */
  datatype Head = Head(
    title: string,
    description: string,
    keywords: Option<string>,
    canonical: string,
    ogTitle: string,
    ogDescription: string,
    ogImage: string,
    ogUrl: string,
    ogType: string,
    ogSiteName: string,
    twitterTitle: string,
    twitterDescription: string,
    twitterImage: string,
    robots: string)

  const DefaultImage := "/logo-1.png"

  /** `url ? base + url : base`. */
  function FullUrl(base: string, url: Option<string>): (r: string)
    ensures url.Some? && url.value != "" ==> r == base + url.value
    ensures url.None? || url.value == "" ==> r == base
  {
    if url.Some? && url.value != "" then base + url.value else base
  }

  /** The robots value. */
  function Robots(noIndex: Option<bool>): (r: string)
    ensures r == "noindex, nofollow" <==> noIndex == Some(true)
    ensures r == "index, follow" <==> noIndex != Some(true)
  {
    if noIndex == Some(true) then "noindex, nofollow" else "index, follow"
  }

  /** The tags for the props; `env` is `NEXT_PUBLIC_BASE_URL`. */
  function Render(props: Props, env: Option<string>): (h: Head)
    ensures h.ogTitle == props.title && h.twitterTitle == props.title && h.title == props.title
    ensures h.description == props.description
    ensures h.ogDescription == props.description && h.twitterDescription == props.description
    ensures h.ogUrl == h.canonical == FullUrl(Site.BaseUrl(env), props.url)
    ensures h.ogImage == h.twitterImage
    ensures props.image.None? ==> h.ogImage == Site.Absolute(Site.BaseUrl(env), DefaultImage)
    ensures props.image.Some? ==> h.ogImage == Site.Absolute(Site.BaseUrl(env), props.image.value)
    ensures h.ogType == (if props.kind.Some? then props.kind.value else "website")
    ensures h.ogSiteName == "DivineLits"
    ensures h.keywords.Some? <==> props.keywords.Some? && props.keywords.value != ""
    ensures h.keywords.Some? ==> h.keywords == props.keywords
    ensures h.robots == Robots(props.noIndex)
  {
    var base := Site.BaseUrl(env);
    var image := if props.image.Some? then props.image.value else DefaultImage;
    var fullUrl := FullUrl(base, props.url);
    var fullImage := Site.Absolute(base, image);
    Head(props.title, props.description,
         if props.keywords.Some? && props.keywords.value != "" then props.keywords else None,
         fullUrl, props.title, props.description, fullImage, fullUrl,
         if props.kind.Some? then props.kind.value else "website", "DivineLits",
         props.title, props.description, fullImage, Robots(props.noIndex))
  }

  /** Without a base URL variable the canonical address is on the production site,
      and so is the picture unless it is an absolute address already. */
  lemma AddressesOnProductionSite(props: Props)
    ensures StartsWith(Render(props, None).canonical, Site.ProductionUrl)
    ensures StartsWith(Render(props, None).ogImage, "http")
  {
    var h := Render(props, None);
    if props.url.Some? && props.url.value != "" {
      assert (Site.ProductionUrl + props.url.value)[..|Site.ProductionUrl|] == Site.ProductionUrl;
    }
    Site.ProductionUrlIsHttp();
    Site.AbsoluteStartsWithHttp(Site.ProductionUrl,
      if props.image.Some? then props.image.value else DefaultImage);
  }

  /** Unless asked not to, pages are indexed. */
  lemma IndexedByDefault(title: string, description: string, env: Option<string>)
    ensures Render(Props(title, description, None, None, None, None, None), env).robots == "index, follow"
    ensures Render(Props(title, description, None, None, None, None, None), env).ogType == "website"
  {
  }
}

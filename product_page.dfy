/** The product page of src/components/products/ProductPageWrapper.tsx: the page
    metadata, and the head tags, JSON-LD record and breadcrumb trail the page
    passes to the SEO components. The product comes from the lookup by name
    slug; a failed lookup, a missing product or any error on the way gives the
    not-found page. */
module ProductPage {
  import opened Wrappers
  import opened Strings
  import opened Catalog
  import Slugs
  import Site
  import Cart
  import Storefront
  import MetaTags
  import ProductSchema
  import Breadcrumbs

  /** `capitalizeFirstLetter`: upper-case the first character, keep the rest. */
  function Capitalize(s: string): (r: string)
    ensures |r| == |s|
    ensures s != [] ==> r[0] == UpperChar(s[0]) && r[1..] == s[1..]
  {
    if s == [] then [] else [UpperChar(s[0])] + s[1..]
  }

  /** Capitalising twice is capitalising once, and only the first character can change. */
  lemma CapitalizeIdempotent(s: string)
    ensures Capitalize(Capitalize(s)) == Capitalize(s)
    ensures forall i :: 1 <= i < |s| ==> Capitalize(s)[i] == s[i]
  {
    if s != [] {
      var c := Capitalize(s);
      assert !IsAsciiLower(c[0]);
      assert Capitalize(c) == [UpperChar(c[0])] + c[1..];
      assert c == [c[0]] + c[1..];
    }
  }

  /** The longest description the metadata repeats in full. */
  const SummaryLength := 160

  /** `description.substring(0, 160)`, with `...` when the text was longer. */
  function Summary(description: string): (r: string)
    ensures |description| <= SummaryLength ==> r == description
    ensures |description| > SummaryLength ==> |r| == SummaryLength + 3
    ensures StartsWith(r, description[..if |description| <= SummaryLength then |description| else SummaryLength])
  {
    if |description| <= SummaryLength then description else description[..SummaryLength] + "..."
  }

  /** A summary is its own summary. */
  lemma SummaryIdempotent(description: string)
    ensures Summary(Summary(description)) == Summary(description)
  {
    if |description| > SummaryLength {
      var s := Summary(description);
      assert s[..SummaryLength] == description[..SummaryLength];
    }
  }

  const NotFoundTitle := "Product Not Found - DivineLits"
  const NotFoundDescription := "The requested product could not be found."

  /** One Open Graph picture. */
  datatype OgImage = OgImage(url: string, width: int, height: int, alt: string)

  /** What `generateProductMetadata` returns. */
  datatype Metadata =
    | NotFoundMetadata(title: string, description: string)
    | ProductMetadata(
        title: string,
        description: string,
        keywords: string,
        ogTitle: string,
        ogDescription: string,
        ogImages: seq<OgImage>,
        twitterTitle: string,
        twitterDescription: string,
        twitterImage: string)

  /** The lookup found a product with a name. */
  predicate Found(lookup: Result<Option<Product>>)
  {
    lookup.Success? && lookup.value.Some? && lookup.value.value.name != ""
  }

  /** `<Name> - Premium <category>`. */
  function ShortTitle(p: Product): string
  {
    Capitalize(p.name) + " - Premium " + p.category
  }

  function PageTitle(p: Product): string
  {
    ShortTitle(p) + " | DivineLits"
  }

  function Keywords(p: Product): string
  {
    p.name + ", " + p.category + ", DivineLits, buy online, premium quality"
  }

  /** The first picture, or the logo when there is none (or it is empty). */
  function MainImage(p: Product): (r: string)
    ensures r != ""
    ensures p.images != [] && p.images[0] != "" ==> r == p.images[0]
  {
    if p.images != [] && p.images[0] != "" then p.images[0] else "/logo-1.png"
  }

  function OgImages(base: string, p: Product): (r: seq<OgImage>)
    ensures |r| == |p.images|
    ensures forall i :: 0 <= i < |r| ==> r[i] == OgImage(Site.Absolute(base, p.images[i]), 800, 600, p.name)
  {
    seq(|p.images|, i requires 0 <= i < |p.images| => OgImage(Site.Absolute(base, p.images[i]), 800, 600, p.name))
  }

  /** `generateProductMetadata` on the result of the lookup; a thrown lookup is a `Failure`. */
  function GenerateMetadata(lookup: Result<Option<Product>>, env: Option<string>): (r: Metadata)
    ensures r.NotFoundMetadata? <==> !Found(lookup)
    ensures r.NotFoundMetadata? ==> r == NotFoundMetadata(NotFoundTitle, NotFoundDescription)
    ensures r.ProductMetadata? ==>
      var p := lookup.value.value;
      && r.title == PageTitle(p)
      && r.description == Summary(p.description)
      && |r.description| <= SummaryLength + 3
      && r.ogDescription == p.description && r.twitterDescription == p.description
      && r.ogTitle == r.twitterTitle == ShortTitle(p)
      && r.keywords == Keywords(p)
      && r.ogImages == OgImages(Site.BaseUrl(env), p)
      && r.twitterImage == MainImage(p)
  {
    if !Found(lookup) then NotFoundMetadata(NotFoundTitle, NotFoundDescription)
    else
      var p := lookup.value.value;
      ProductMetadata(PageTitle(p), Summary(p.description), Keywords(p), ShortTitle(p), p.description,
                      OgImages(Site.BaseUrl(env), p), ShortTitle(p), p.description, MainImage(p))
  }

  /** `categorySlug` is truthy. */
  predicate HasSlug(categorySlug: Option<string>)
  {
    categorySlug.Some? && categorySlug.value != ""
  }

  /** The category name the trail shows: decoded from the route's slug when there
      is one, the product's own category otherwise. `None` where decoding throws. */
  function CategoryName(p: Product, categorySlug: Option<string>): (r: Option<string>)
    ensures !HasSlug(categorySlug) ==> r == Some(p.category)
    ensures HasSlug(categorySlug) ==> r == Slugs.SlugToCategory(categorySlug.value)
  {
    if HasSlug(categorySlug) then Slugs.SlugToCategory(categorySlug.value) else Some(p.category)
  }

  /** The slug the category crumb links to. */
  function CategoryLinkSlug(p: Product, categorySlug: Option<string>): string
  {
    if HasSlug(categorySlug) then categorySlug.value else Slugs.CategoryToSlug(p.category)
  }

  /** `breadcrumbItems`: Home, the category when it is shown and known, the product. */
  function BreadcrumbItems(p: Product, categorySlug: Option<string>, showCategory: bool, categoryName: string)
    : (r: seq<Breadcrumbs.Item>)
    ensures |r| == 3 <==> showCategory && categoryName != ""
    ensures |r| == 2 <==> !(showCategory && categoryName != "")
    ensures r[0] == Breadcrumbs.Item("Home", Some("/"))
    ensures r[|r| - 1] == Breadcrumbs.Item(p.name, None)
    ensures |r| == 3 ==>
      r[1] == Breadcrumbs.Item(Capitalize(categoryName), Some("/category/" + CategoryLinkSlug(p, categorySlug)))
  {
    if showCategory && categoryName != "" then
      [Breadcrumbs.Item("Home", Some("/")),
       Breadcrumbs.Item(Capitalize(categoryName), Some("/category/" + CategoryLinkSlug(p, categorySlug))),
       Breadcrumbs.Item(p.name, None)]
    else
      [Breadcrumbs.Item("Home", Some("/")), Breadcrumbs.Item(p.name, None)]
  }

  /** `currentUrl`: under the category route when there is a category slug. */
  function CurrentUrl(productNameSlug: string, categorySlug: Option<string>): (r: string)
    ensures HasSlug(categorySlug) ==> r == "/category/" + categorySlug.value + "/product/" + productNameSlug
    ensures !HasSlug(categorySlug) ==> r == "/product/" + productNameSlug
  {
    if HasSlug(categorySlug) then "/category/" + categorySlug.value + "/product/" + productNameSlug
    else "/product/" + productNameSlug
  }

  /** `schemaProduct`. The id falls back to the name slug. */
  function SchemaProduct(p: Product, productNameSlug: string): (r: ProductSchema.ProductInput)
    ensures r.id == (if p.id != "" then p.id else productNameSlug)
    ensures r.sku == Some(r.id)
    ensures r.price == p.price * (1.0 - p.discount / 100.0)
    ensures r.inStock == Some(p.status == "VISIBLE")
    ensures r.rating == Some(ProductSchema.Rating(4.5, 0)) && r.reviews == []
  {
    var id := if p.id != "" then p.id else productNameSlug;
    ProductSchema.ProductInput(id, p.name, p.description, p.images, p.price * (1.0 - p.discount / 100.0),
      Some("USD"), Some(id), Some("DivineLits"), Some(p.category), Some(p.status == "VISIBLE"),
      Some(ProductSchema.Rating(4.5, 0)), [])
  }

  /** The schema price is the price the cart charges. */
  lemma SchemaPriceIsCartPrice(p: Product, productNameSlug: string)
    ensures SchemaProduct(p, productNameSlug).price == Cart.FinalPrice(p)
  {
  }

  /** What the page renders. */
  datatype Page =
    | NotFoundPage
    | ProductView(head: MetaTags.Head, schema: ProductSchema.ProductLd, trail: seq<Breadcrumbs.Item>)

  /** `ProductContent`. `relatedOk` says whether `getRandomProducts` succeeded: it
      throws inside the same `try`, and a throw there shows the not-found page too. */
  function ProductContent(lookup: Result<Option<Product>>, relatedOk: bool, productNameSlug: string,
                          categorySlug: Option<string>, showCategory: bool, env: Option<string>): (r: Page)
    ensures r.ProductView? <==>
      Found(lookup) && relatedOk && CategoryName(lookup.value.value, categorySlug).Some?
    ensures r.ProductView? ==>
      var p := lookup.value.value;
      && r.head.title == PageTitle(p)
      && r.head.description == p.description
      && r.head.ogUrl == Site.BaseUrl(env) + CurrentUrl(productNameSlug, categorySlug)
      && r.head.ogType == "product"
      && r.head.robots == "index, follow"
      && r.schema.offers.url == CurrentUrl(productNameSlug, categorySlug)
      && r.schema.aggregateRating.None? && r.schema.review.None?
      && (r.schema.offers.availability == ProductSchema.InStock <==> Storefront.IsVisible(p))
      && r.trail == BreadcrumbItems(p, categorySlug, showCategory, CategoryName(p, categorySlug).value)
  {
    if !Found(lookup) || !relatedOk then NotFoundPage
    else
      var p := lookup.value.value;
      var categoryName := CategoryName(p, categorySlug);
      if categoryName.None? then NotFoundPage
      else
        var url := CurrentUrl(productNameSlug, categorySlug);
        assert url != "";
        var props := MetaTags.Props(PageTitle(p), p.description, Some(Keywords(p)), Some(MainImage(p)),
                                    Some(url), Some("product"), None);
        ProductView(MetaTags.Render(props, env),
                    ProductSchema.Schema(SchemaProduct(p, productNameSlug), Some(url), env),
                    BreadcrumbItems(p, categorySlug, showCategory, categoryName.value))
  }

  /** On the product route (no category slug) the trail shows the product's own
      category, linked through its category slug. */
  lemma ProductRouteTrail(p: Product, productNameSlug: string, env: Option<string>)
    requires p.name != "" && p.category != ""
    ensures var page := ProductContent(Success(Some(p)), true, productNameSlug, None, true, env);
      && page.ProductView?
      && |page.trail| == 3
      && page.trail[1] == Breadcrumbs.Item(Capitalize(p.category), Some("/category/" + Slugs.CategoryToSlug(p.category)))
  {
  }

  /** The trail without the category crumb is Home and the product. */
  lemma HiddenCategoryTrail(p: Product, categorySlug: Option<string>)
    ensures BreadcrumbItems(p, categorySlug, false, p.category)
         == [Breadcrumbs.Item("Home", Some("/")), Breadcrumbs.Item(p.name, None)]
  {
  }
}

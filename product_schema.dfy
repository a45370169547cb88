/** The schema.org `Product` record of src/components/seo/ProductSchema.tsx.
    The component builds a base object and then adds the rating and the reviews
    to it when there are any. Numbers are kept as numbers; their `toString` is
    not part of this model. */
module ProductSchema {
  import opened Wrappers
  import Site

  /** A rating summary. */
  datatype Rating = Rating(value: real, count: int)

  /** A review as the caller passes it; the rating is already a string. */
  datatype ReviewInput = ReviewInput(
    rating: Option<string>,
    author: Option<string>,
    comment: Option<string>,
    review: Option<string>,
    createdAt: Option<string>,
    date: Option<string>)

  /** The `product` prop; an absent optional field is `None`, absent lists are empty. */
  datatype ProductInput = ProductInput(
    id: string,
    name: string,
    description: string,
    images: seq<string>,
    price: real,
    currency: Option<string>,
    sku: Option<string>,
    brand: Option<string>,
    category: Option<string>,
    inStock: Option<bool>,
    rating: Option<Rating>,
    reviews: seq<ReviewInput>)

  datatype Offer = Offer(url: string, priceCurrency: string, price: real, availability: string, seller: string)

  datatype AggregateRating = AggregateRating(ratingValue: real, reviewCount: int, bestRating: string, worstRating: string)

  datatype Review = Review(ratingValue: string, author: string, body: string, datePublished: Option<string>)

  /** The JSON-LD object; `aggregateRating` and `review` are `None` when absent. */
  datatype ProductLd = ProductLd(
    name: string,
    description: string,
    image: seq<string>,
    sku: string,
    brand: string,
    category: Option<string>,
    offers: Offer,
    aggregateRating: Option<AggregateRating>,
    review: Option<seq<Review>>)

  const InStock := "https://schema.org/InStock"
  const OutOfStock := "https://schema.org/OutOfStock"

  /** `value || fallback` for an optional string. */
  function OrElse(value: Option<string>, fallback: string): (r: string)
    ensures value.Some? && value.value != "" ==> r == value.value
    ensures value.None? || value.value == "" ==> r == fallback
  {
    if value.Some? && value.value != "" then value.value else fallback
  }

  /** `url || base + '/product/' + id`. */
  function OfferUrl(base: string, url: Option<string>, id: string): string
  {
    OrElse(url, base + "/product/" + id)
  }

  /** `inStock !== false`. */
  function Availability(inStock: Option<bool>): (r: string)
    ensures r == OutOfStock <==> inStock == Some(false)
    ensures r == InStock <==> inStock != Some(false)
  {
    if inStock != Some(false) then InStock else OutOfStock
  }

  /** One emitted review. */
  function ToReview(r: ReviewInput): Review
  {
    Review(OrElse(r.rating, "5"), OrElse(r.author, "Customer"),
           OrElse(r.comment, OrElse(r.review, "")),
           if r.createdAt.Some? && r.createdAt.value != "" then r.createdAt else r.date)
  }

  function Min(a: int, b: int): int { if a < b then a else b }

  /** `reviews.slice(0, 5).map(...)`. */
  function FirstReviews(reviews: seq<ReviewInput>): (r: seq<Review>)
    ensures |r| == Min(5, |reviews|)
    ensures forall i :: 0 <= i < |r| ==> r[i] == ToReview(reviews[i])
  {
    var n := Min(5, |reviews|);
    seq(n, i requires 0 <= i < n => ToReview(reviews[i]))
  }

  /** The object before the two additions. */
  function BaseSchema(p: ProductInput, url: Option<string>, env: Option<string>): ProductLd
  {
    var base := Site.BaseUrl(env);
    ProductLd(p.name, p.description, Site.AbsoluteAll(base, p.images), OrElse(p.sku, p.id),
              OrElse(p.brand, "DivineLits"), p.category,
              Offer(OfferUrl(base, url, p.id), OrElse(p.currency, "USD"), p.price,
                    Availability(p.inStock), "DivineLits"),
              None, None)
  }

  /** A rating is summarised only when it counts at least one review. */
  predicate HasRating(p: ProductInput)
  {
    p.rating.Some? && p.rating.value.count > 0
  }

  /** The finished record. */
  function Schema(p: ProductInput, url: Option<string>, env: Option<string>): (r: ProductLd)
    ensures r.aggregateRating.Some? <==> HasRating(p)
    ensures HasRating(p) ==>
      r.aggregateRating == Some(AggregateRating(p.rating.value.value, p.rating.value.count, "5", "1"))
    ensures r.review.Some? <==> |p.reviews| > 0
    ensures r.review.Some? ==> |r.review.value| <= 5 && |r.review.value| == Min(5, |p.reviews|)
    ensures r.review.Some? ==> forall i :: 0 <= i < |r.review.value| ==> r.review.value[i] == ToReview(p.reviews[i])
    ensures r.sku == (if p.sku.Some? && p.sku.value != "" then p.sku.value else p.id)
    ensures r.brand == (if p.brand.Some? && p.brand.value != "" then p.brand.value else "DivineLits")
    ensures r.offers.priceCurrency == (if p.currency.Some? && p.currency.value != "" then p.currency.value else "USD")
    ensures r.offers.url == (if url.Some? && url.value != "" then url.value else Site.BaseUrl(env) + "/product/" + p.id)
    ensures r.offers.availability == OutOfStock <==> p.inStock == Some(false)
    ensures r.offers.availability == InStock <==> p.inStock != Some(false)
    ensures r.name == p.name && r.description == p.description && r.category == p.category
    ensures r.offers.price == p.price && r.offers.seller == "DivineLits"
    ensures |r.image| == |p.images|
    ensures forall i :: 0 <= i < |r.image| ==> r.image[i] == Site.Absolute(Site.BaseUrl(env), p.images[i])
  {
    BaseSchema(p, url, env).(
      aggregateRating := if HasRating(p)
        then Some(AggregateRating(p.rating.value.value, p.rating.value.count, "5", "1")) else None,
      review := if |p.reviews| > 0 then Some(FirstReviews(p.reviews)) else None)
  }

  /** The component: the base object, then the two conditional additions. */
  method Build(p: ProductInput, url: Option<string>, env: Option<string>) returns (schema: ProductLd)
    ensures schema == Schema(p, url, env)
  {
    schema := BaseSchema(p, url, env);
    if p.rating.Some? && p.rating.value.count > 0 {
      schema := schema.(aggregateRating :=
        Some(AggregateRating(p.rating.value.value, p.rating.value.count, "5", "1")));
    }
    if |p.reviews| > 0 {
      schema := schema.(review := Some(FirstReviews(p.reviews)));
    }
  }

  /** A review with nothing filled in is a five-star one by "Customer" with an empty body. */
  lemma EmptyReviewDefaults()
    ensures ToReview(ReviewInput(None, None, None, None, None, None)) == Review("5", "Customer", "", None)
  {
  }
}

/** The add-to-cart button of src/components/cart/AddToCart.tsx: the price a
    line is added at, and the checks the click handler makes before it calls
    the cart's `addItem`. The cart itself is not part of this model; the
    handler's effect is the outcome it decides on. */
module Cart {
  import opened Wrappers
  import opened Catalog

  /** `finalPrice`: the list price less the discount percentage. A discount of
      0 (or none, which the product reads as 0) is falsy and leaves the price. */
  function FinalPrice(p: Product): (r: real)
    ensures p.discount == 0.0 ==> r == p.price
    ensures r == p.price * (1.0 - p.discount / 100.0)
  {
    if p.discount != 0.0 then p.price - (p.price * p.discount) / 100.0 else p.price
  }

  /** A discount between 0 and 100 percent never raises the price and never makes
      it negative; a discount strictly inside that range lowers a positive price. */
  lemma FinalPriceBounds(p: Product)
    requires p.price >= 0.0 && 0.0 <= p.discount <= 100.0
    ensures 0.0 <= FinalPrice(p) <= p.price
    ensures p.price > 0.0 && p.discount > 0.0 ==> FinalPrice(p) < p.price
    ensures p.discount == 100.0 ==> FinalPrice(p) == 0.0
  {
    var f := 1.0 - p.discount / 100.0;
    assert 0.0 <= f <= 1.0;
    assert FinalPrice(p) == p.price * f;
  }

  /** What a click on the button does. */
  datatype Outcome =
    | MustRegister                               // no session
    | MustSelectColor                            // no variant, or one without a price id
    | MustSelectSize                             // no size chosen
    | AddItem(category: string, productId: string, size: string, priceId: string, price: real)

  /** The notice an outcome shows, if any. */
  function Notice(o: Outcome): (r: Option<string>)
    ensures r.None? <==> o.AddItem?
  {
    match o
    case MustRegister => Some("You must be registered to be able to add a product to the cart.")
    case MustSelectColor => Some("You have to select a color to save the product.")
    case MustSelectSize => Some("You have to select a size to save the product.")
    case AddItem(_, _, _, _, _) => None
  }

  /** `handleAddToCart`: the session, then the variant's price id, then the size;
      the first missing one decides the notice, and only when none is missing is
      the item added, at the discounted price. */
  function HandleAddToCart(product: Product, signedIn: bool, selectedVariant: Option<Variant>,
                           selectedSize: string): (r: Outcome)
    ensures r == MustRegister <==> !signedIn
    ensures r == MustSelectColor <==> signedIn && (selectedVariant.None? || selectedVariant.value.priceId == "")
    ensures r == MustSelectSize <==>
      signedIn && selectedVariant.Some? && selectedVariant.value.priceId != "" && selectedSize == ""
    ensures r.AddItem? <==>
      signedIn && selectedVariant.Some? && selectedVariant.value.priceId != "" && selectedSize != ""
    ensures r.AddItem? ==>
      r == AddItem(product.category, product.id, selectedSize, selectedVariant.value.priceId, FinalPrice(product))
  {
    if !signedIn then MustRegister
    else if selectedVariant.None? || selectedVariant.value.priceId == "" then MustSelectColor
    else if selectedSize == "" then MustSelectSize
    else AddItem(product.category, product.id, selectedSize, selectedVariant.value.priceId, FinalPrice(product))
  }

  /** The size starts as `""`, so a click before choosing one adds nothing,
      whatever the session and the colour. */
  lemma InitialSizeAddsNothing(product: Product, signedIn: bool, selectedVariant: Option<Variant>)
    ensures !HandleAddToCart(product, signedIn, selectedVariant, "").AddItem?
    ensures Notice(HandleAddToCart(product, signedIn, selectedVariant, "")).Some?
  {
  }

  /** Without a session the notice is the registration one, whatever else is chosen. */
  lemma SignedOutOnlyNotifies(product: Product, selectedVariant: Option<Variant>, size: string)
    ensures Notice(HandleAddToCart(product, false, selectedVariant, size))
         == Some("You must be registered to be able to add a product to the cart.")
  {
  }

  /** The cart line carries the discounted price, which for a valid discount is at
      most the list price. */
  lemma AddedAtDiscountedPrice(product: Product, variant: Variant, size: string)
    requires variant.priceId != "" && size != ""
    requires product.price >= 0.0 && 0.0 <= product.discount <= 100.0
    ensures HandleAddToCart(product, true, Some(variant), size).AddItem?
    ensures 0.0 <= HandleAddToCart(product, true, Some(variant), size).price <= product.price
  {
    FinalPriceBounds(product);
  }
}

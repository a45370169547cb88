/** The add-product form of src/app/admin/product/add/page.tsx: the list
    editors for sizes, images, variants and variant images, the price preview,
    and what the submit handler sends on. The component's state is a record
    of lists that every editor replaces with a new one. */
module ProductForm {
  import opened Wrappers
  import opened Strings
  import opened Seqs
  import opened Catalog
  import Cart

  /** `calculateDiscountedPrice`: a zero price or discount gives back the price. */
  function DiscountedPrice(originalPrice: real, discountPercent: real): (r: real)
    ensures originalPrice == 0.0 || discountPercent == 0.0 ==> r == originalPrice
    ensures r == originalPrice * (1.0 - discountPercent / 100.0)
  {
    if originalPrice == 0.0 || discountPercent == 0.0 then originalPrice
    else originalPrice - (originalPrice * discountPercent / 100.0)
  }

  /** The form's preview shows the price the cart will charge. */
  lemma PreviewMatchesCart(p: Product)
    ensures DiscountedPrice(p.price, p.discount) == Cart.FinalPrice(p)
  {
  }

  /** `list.filter((_, i) => i !== index)`: drop one position; an index outside
      the list drops nothing. */
  function RemoveAt<T>(s: seq<T>, index: int): (r: seq<T>)
    ensures 0 <= index < |s| ==> |r| == |s| - 1
    ensures 0 <= index < |s| ==> forall i :: 0 <= i < index ==> r[i] == s[i]
    ensures 0 <= index < |s| ==> forall i :: index <= i < |r| ==> r[i] == s[i + 1]
    ensures !(0 <= index < |s|) ==> r == s
  {
    if 0 <= index < |s| then s[..index] + s[index + 1..] else s
  }

  /** Removing keeps the other entries in order. */
  lemma {:induction false} RemoveAtIsSubsequence<T>(s: seq<T>, index: int)
    ensures IsSubsequence(RemoveAt(s, index), s)
    decreases |s|
  {
    if !(0 <= index < |s|) {
      SubsequenceRefl(s);
    } else if index == 0 {
      assert RemoveAt(s, 0) == s[1..];
      SubsequenceRefl(s[1..]);
      SubsequenceSkip(s[1..], s);
    } else {
      var r := RemoveAt(s, index);
      RemoveAtIsSubsequence(s[1..], index - 1);
      assert r[0] == s[0];
      assert r[1..] == RemoveAt(s[1..], index - 1);
      assert IsSubsequence(r[1..], s[1..]);
    }
  }

  /** The remove buttons show only while a list has more than one entry. */
  predicate ShowRemove<T>(s: seq<T>)
  {
    |s| > 1
  }

  /** So a remove through the form never empties a list. */
  lemma ShownRemoveKeepsOne<T>(s: seq<T>, index: int)
    requires ShowRemove(s)
    ensures |RemoveAt(s, index)| >= 1
  {
  }

  /** The entry of a new variant. */
  const BlankVariant := Variant("", "", [""])

  /** The variant field a text input edits. */
  datatype VariantField = PriceId | Color

  /** `{ ...variant, [field]: value }`. */
  function SetField(v: Variant, field: VariantField, value: string): (r: Variant)
    ensures field == PriceId ==> r.priceId == value && r.color == v.color
    ensures field == Color ==> r.color == value && r.priceId == v.priceId
    ensures r.images == v.images
  {
    match field
    case PriceId => v.(priceId := value)
    case Color => v.(color := value)
  }

  /** An entry the submit handler keeps: not blank after trimming. */
  predicate NotBlank(s: string) { Trim(s) != "" }

  /** A variant the submit handler keeps: both colour and price id not blank. */
  predicate CompleteVariant(v: Variant) { NotBlank(v.color) && NotBlank(v.priceId) }

  /** The lists as `handleSubmit` serialises them. */
  datatype Submitted = Submitted(sizes: seq<string>, images: seq<string>, variants: seq<Variant>)

  /** `handleSubmit`'s filters: blank sizes and images and incomplete variants are
      dropped; a variant's own image list is passed on as it is. */
  function Submit(sizes: seq<string>, images: seq<string>, variants: seq<Variant>): (r: Submitted)
    ensures forall x :: x in r.sizes <==> x in sizes && NotBlank(x)
    ensures forall x :: x in r.images <==> x in images && NotBlank(x)
    ensures forall v :: v in r.variants <==> v in variants && CompleteVariant(v)
  {
    Submitted(Filter(sizes, NotBlank), Filter(images, NotBlank), Filter(variants, CompleteVariant))
  }

  /** The submitted lists keep the form's order, and submitting them again
      changes nothing. */
  lemma SubmitKeepsOrder(sizes: seq<string>, images: seq<string>, variants: seq<Variant>)
    ensures IsSubsequence(Submit(sizes, images, variants).sizes, sizes)
    ensures IsSubsequence(Submit(sizes, images, variants).images, images)
    ensures IsSubsequence(Submit(sizes, images, variants).variants, variants)
    ensures var r := Submit(sizes, images, variants); Submit(r.sizes, r.images, r.variants) == r
  {
    FilterIsSubsequence(sizes, NotBlank);
    FilterIsSubsequence(images, NotBlank);
    FilterIsSubsequence(variants, CompleteVariant);
    FilterIdempotent(sizes, NotBlank);
    FilterIdempotent(images, NotBlank);
    FilterIdempotent(variants, CompleteVariant);
  }

  /** The form as first shown submits no size, no image and no variant. */
  lemma BlankFormSubmitsNothing()
    ensures Submit([""], [""], [BlankVariant]) == Submitted([], [], [])
  {
    assert !NotBlank("");
    assert !CompleteVariant(BlankVariant);
    assert Filter([""], NotBlank) == [];
    assert Filter([BlankVariant], CompleteVariant) == [];
  }

  /** What the page does with `createProduct`'s answer. */
  datatype SubmitReaction = GoTo(path: string) | Alert(message: string)

  function React(success: bool, error: string): (r: SubmitReaction)
    ensures success <==> r == GoTo("/admin")
    ensures !success ==> r == Alert("Error creating product: " + error)
  {
    if success then GoTo("/admin") else Alert("Error creating product: " + error)
  }

  /** Every list of the form has an entry, and so has every variant's image list. */
  ghost predicate AllListsFilled(sizes: seq<string>, images: seq<string>, variants: seq<Variant>)
  {
    |sizes| >= 1 && |images| >= 1 && |variants| >= 1
    && forall i :: 0 <= i < |variants| ==> |variants[i].images| >= 1
  }

  /** The form's list state. */
  class AddProductForm {
    var sizes: seq<string>
    var images: seq<string>
    var variants: seq<Variant>

    ghost predicate Filled()
      reads this
    {
      AllListsFilled(sizes, images, variants)
    }

    /** One blank size, one blank image, one blank variant. */
    constructor ()
      ensures sizes == [""] && images == [""] && variants == [BlankVariant]
      ensures Filled()
    {
      sizes := [""];
      images := [""];
      variants := [BlankVariant];
    }

    /** `addSize`. */
    method AddSize()
      modifies this
      ensures sizes == old(sizes) + [""]
      ensures images == old(images) && variants == old(variants)
      ensures old(Filled()) ==> Filled()
    {
      sizes := sizes + [""];
    }

    /** `removeSize`, offered only while there is more than one size. */
    method RemoveSize(index: int)
      modifies this
      ensures sizes == RemoveAt(old(sizes), index)
      ensures images == old(images) && variants == old(variants)
      ensures old(Filled()) && ShowRemove(old(sizes)) ==> Filled()
    {
      sizes := RemoveAt(sizes, index);
    }

    /** `updateSize`: copy the list and assign one position. */
    method UpdateSize(index: int, value: string)
      requires 0 <= index < |sizes|
      modifies this
      ensures sizes == old(sizes)[index := value]
      ensures images == old(images) && variants == old(variants)
      ensures old(Filled()) ==> Filled()
    {
      var updated := sizes;
      updated := updated[index := value];
      sizes := updated;
    }

    /** `addImage`. */
    method AddImage()
      modifies this
      ensures images == old(images) + [""]
      ensures sizes == old(sizes) && variants == old(variants)
      ensures old(Filled()) ==> Filled()
    {
      images := images + [""];
    }

    /** `removeImage`, offered only while there is more than one image. */
    method RemoveImage(index: int)
      modifies this
      ensures images == RemoveAt(old(images), index)
      ensures sizes == old(sizes) && variants == old(variants)
      ensures old(Filled()) && ShowRemove(old(images)) ==> Filled()
    {
      images := RemoveAt(images, index);
    }

    /** `updateImage`. */
    method UpdateImage(index: int, value: string)
      requires 0 <= index < |images|
      modifies this
      ensures images == old(images)[index := value]
      ensures sizes == old(sizes) && variants == old(variants)
      ensures old(Filled()) ==> Filled()
    {
      var updated := images;
      updated := updated[index := value];
      images := updated;
    }

    /** `addVariant`: a blank variant with one blank image. */
    method AddVariant()
      modifies this
      ensures variants == old(variants) + [BlankVariant]
      ensures sizes == old(sizes) && images == old(images)
      ensures old(Filled()) ==> Filled()
    {
      variants := variants + [BlankVariant];
    }

    /** `removeVariant`, offered only while there is more than one variant. */
    method RemoveVariant(index: int)
      modifies this
      ensures variants == RemoveAt(old(variants), index)
      ensures sizes == old(sizes) && images == old(images)
      ensures old(Filled()) && ShowRemove(old(variants)) ==> Filled()
    {
      variants := RemoveAt(variants, index);
    }

    /** `updateVariant`: one field of one variant. */
    method UpdateVariant(index: int, field: VariantField, value: string)
      requires 0 <= index < |variants|
      modifies this
      ensures variants == old(variants)[index := SetField(old(variants)[index], field, value)]
      ensures sizes == old(sizes) && images == old(images)
      ensures old(Filled()) ==> Filled()
    {
      var updated := variants;
      updated := updated[index := SetField(updated[index], field, value)];
      variants := updated;
    }

    /** `addVariantImage`: one more blank image on one variant. */
    method AddVariantImage(variantIndex: int)
      requires 0 <= variantIndex < |variants|
      modifies this
      ensures variants == old(variants)[variantIndex :=
        old(variants)[variantIndex].(images := old(variants)[variantIndex].images + [""])]
      ensures sizes == old(sizes) && images == old(images)
      ensures old(Filled()) ==> Filled()
    {
      var v := variants[variantIndex];
      variants := variants[variantIndex := v.(images := v.images + [""])];
    }

    /** `removeVariantImage`, offered only while the variant has more than one image. */
    method RemoveVariantImage(variantIndex: int, imageIndex: int)
      requires 0 <= variantIndex < |variants|
      modifies this
      ensures variants == old(variants)[variantIndex :=
        old(variants)[variantIndex].(images := RemoveAt(old(variants)[variantIndex].images, imageIndex))]
      ensures sizes == old(sizes) && images == old(images)
      ensures old(Filled()) && ShowRemove(old(variants)[variantIndex].images) ==> Filled()
    {
      var v := variants[variantIndex];
      variants := variants[variantIndex := v.(images := RemoveAt(v.images, imageIndex))];
    }

    /** `updateVariantImage`: one image of one variant. */
    method UpdateVariantImage(variantIndex: int, imageIndex: int, value: string)
      requires 0 <= variantIndex < |variants| && 0 <= imageIndex < |variants[variantIndex].images|
      modifies this
      ensures variants == old(variants)[variantIndex :=
        old(variants)[variantIndex].(images := old(variants)[variantIndex].images[imageIndex := value])]
      ensures sizes == old(sizes) && images == old(images)
      ensures old(Filled()) ==> Filled()
    {
      var v := variants[variantIndex];
      variants := variants[variantIndex := v.(images := v.images[imageIndex := value])];
    }

    /** `handleSubmit`'s payload. */
    function Payload(): (r: Submitted)
      reads this
      ensures |r.sizes| <= |sizes| && |r.images| <= |images| && |r.variants| <= |variants|
    {
      Submit(sizes, images, variants)
    }
  }
}

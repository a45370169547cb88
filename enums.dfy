/** The product status and category enumerations of src/constants/index.ts and
    the arrays of their values. */
module Enums {
  import opened Wrappers

  /** `ProductStatus`. */
  datatype Status = Visible | Deleted | Hide
  {
    /** The string the enum member stands for. */
    function Value(): string
    {
      match this
      case Visible => "VISIBLE"
      case Deleted => "DELETED"
      case Hide => "HIDE"
    }
  }

  /** `ProductCategory`. */
  datatype Category = Candles | GiftBox | NamedGift
  {
    function Value(): string
    {
      match this
      case Candles => "candles"
      case GiftBox => "gift box"
      case NamedGift => "named gift"
    }
  }

  /** The members in declaration order. */
  const AllStatuses: seq<Status> := [Visible, Deleted, Hide]
  const AllCategories: seq<Category> := [Candles, GiftBox, NamedGift]

  /** `PRODUCT_STATUS_VALUES`: `Object.values(ProductStatus)`. */
  const ProductStatusValues: seq<string> := ["VISIBLE", "DELETED", "HIDE"]

  /** `PRODUCT_CATEGORY_VALUES`: `Object.values(ProductCategory)`. */
  const ProductCategoryValues: seq<string> := ["candles", "gift box", "named gift"]

  /** The value arrays list every member's value once, in declaration order. */
  lemma ValuesInDeclarationOrder()
    ensures |ProductStatusValues| == |AllStatuses| == 3
    ensures forall i :: 0 <= i < 3 ==> ProductStatusValues[i] == AllStatuses[i].Value()
    ensures |ProductCategoryValues| == |AllCategories| == 3
    ensures forall i :: 0 <= i < 3 ==> ProductCategoryValues[i] == AllCategories[i].Value()
  {
  }

  /** Every member is declared, and distinct members have distinct values. */
  lemma MembersComplete(s: Status, t: Status, c: Category, d: Category)
    ensures s in AllStatuses && c in AllCategories
    ensures s.Value() == t.Value() ==> s == t
    ensures c.Value() == d.Value() ==> c == d
  {
  }

  /** The status whose value is `v`, if there is one. */
  function ParseStatus(v: string): (r: Option<Status>)
    ensures r.Some? <==> v in ProductStatusValues
    ensures r.Some? ==> r.value.Value() == v
  {
    if v == "VISIBLE" then Some(Visible)
    else if v == "DELETED" then Some(Deleted)
    else if v == "HIDE" then Some(Hide)
    else None
  }

  /** The category whose value is `v`, if there is one. */
  function ParseCategory(v: string): (r: Option<Category>)
    ensures r.Some? <==> v in ProductCategoryValues
    ensures r.Some? ==> r.value.Value() == v
  {
    if v == "candles" then Some(Candles)
    else if v == "gift box" then Some(GiftBox)
    else if v == "named gift" then Some(NamedGift)
    else None
  }

  /** Reading a member's value back gives the member. */
  lemma ParseValue(s: Status, c: Category)
    ensures ParseStatus(s.Value()) == Some(s)
    ensures ParseCategory(c.Value()) == Some(c)
  {
  }
}

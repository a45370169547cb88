/** The shared constant objects of src/constants/index.js: `ProductStatus`,
    `ProductCategory` and the `ProductCategoryMetadata` registry, as maps from
    property name to value. */
module Constants {
  import opened Wrappers
  import Enums
  import Slugs
  import Strings

  /** The `ProductStatus` object. */
  const ProductStatus: map<string, string> :=
    map["VISIBLE" := "VISIBLE", "DELETED" := "DELETED", "HIDE" := "HIDE"]

  /** The `ProductCategory` object. */
  const ProductCategory: map<string, string> :=
    map["CANDLES" := "candles", "GIFT_BOX" := "gift box", "NAMED_GIFT" := "named gift"]

  /** One entry of the category metadata registry. */
  datatype CategoryMetadata = CategoryMetadata(
    title: string,
    description: string,
    image: string,
    backgroundImage: string,
    metaDescription: string,
    keywords: string)

  /** `ProductCategoryMetadata`, keyed by category value. */
  const ProductCategoryMetadata: map<string, CategoryMetadata> := map[
    "candles" := CategoryMetadata(
      "Illuminate Your Space with Premium Candles",
      "Handcrafted luxury candles for every mood and occasion",
      "/candle-1.png",
      "/candle-1.png",
      "Shop premium luxury candles at DivineLits. Handcrafted with finest ingredients, perfect for creating a warm atmosphere. Free shipping on orders over $50.",
      "luxury candles, premium candles, handcrafted candles, scented candles, home fragrance, candle collection"),
    "gift box" := CategoryMetadata(
      "Perfect Gifts for Every Occasion",
      "Curated collections that express your love and care",
      "/gift-1.png",
      "/gift-1.png",
      "Beautiful gift sets and curated collections at DivineLits. Perfect for birthdays, anniversaries, and special occasions. Express shipping available.",
      "gift sets, curated gifts, gift boxes, special occasion gifts, birthday gifts, anniversary gifts"),
    "named gift" := CategoryMetadata(
      "Personalized Gifts That Tell Your Story",
      "Custom engravings and personal touches for unforgettable moments",
      "/candle-3.png",
      "/candle-3.png",
      "Personalized named gifts at DivineLits. Custom engravings and personal messages make every gift unique. Create memorable moments with our personalized collection.",
      "personalized gifts, custom gifts, named gifts, engraved gifts, custom messages, unique gifts")
  ]

  /** Exactly three statuses, each value equal to its key, and the same strings as the enum. */
  lemma StatusObjectShape()
    ensures ProductStatus.Keys == {"VISIBLE", "DELETED", "HIDE"}
    ensures forall k :: k in ProductStatus ==> ProductStatus[k] == k
    ensures ProductStatus.Values == set s: Enums.Status | s in Enums.AllStatuses :: s.Value()
  {
    assert Enums.Status.Visible.Value() in ProductStatus.Values by {
      assert ProductStatus["VISIBLE"] == "VISIBLE";
    }
    assert Enums.Status.Deleted.Value() in ProductStatus.Values by {
      assert ProductStatus["DELETED"] == "DELETED";
    }
    assert Enums.Status.Hide.Value() in ProductStatus.Values by {
      assert ProductStatus["HIDE"] == "HIDE";
    }
  }

  /** Exactly three categories, with the same values as the enum. */
  lemma CategoryObjectShape()
    ensures ProductCategory.Keys == {"CANDLES", "GIFT_BOX", "NAMED_GIFT"}
    ensures ProductCategory["CANDLES"] == Enums.Category.Candles.Value()
    ensures ProductCategory["GIFT_BOX"] == Enums.Category.GiftBox.Value()
    ensures ProductCategory["NAMED_GIFT"] == Enums.Category.NamedGift.Value()
    ensures ProductCategory.Values == set c: Enums.Category | c in Enums.AllCategories :: c.Value()
  {
    assert ProductCategory["CANDLES"] in ProductCategory.Values;
    assert ProductCategory["GIFT_BOX"] in ProductCategory.Values;
    assert ProductCategory["NAMED_GIFT"] in ProductCategory.Values;
  }

  /** The registry has one entry per category value and no other key, and every
      entry shows the same picture as image and as background. */
  lemma MetadataRegistryShape()
    ensures ProductCategoryMetadata.Keys == ProductCategory.Values
    ensures forall c :: c in ProductCategoryMetadata ==>
      ProductCategoryMetadata[c].image == ProductCategoryMetadata[c].backgroundImage
  {
    CategoryObjectShape();
  }

  /** The metadata of a category value, if it is one. */
  function MetadataFor(category: string): (r: Option<CategoryMetadata>)
    ensures r.Some? <==> category in Enums.ProductCategoryValues
    ensures r.Some? ==> r.value.image == r.value.backgroundImage
  {
    if category in ProductCategoryMetadata then Some(ProductCategoryMetadata[category]) else None
  }

  lemma CandlesSlug()
    ensures Slugs.IsSimpleName("candles") && Strings.HasNoUpper("candles")
  {
  }

  lemma GiftBoxSlug()
    ensures Slugs.IsSimpleName("gift box") && Strings.HasNoUpper("gift box")
  {
  }

  lemma NamedGiftSlug()
    ensures Slugs.IsSimpleName("named gift") && Strings.HasNoUpper("named gift")
  {
  }

  /** Every category value survives the category slug round trip. */
  lemma CategoriesSurviveSlugs(c: Enums.Category)
    ensures Slugs.SlugToCategory(Slugs.CategoryToSlug(c.Value())) == Some(c.Value())
  {
    match c
    case Candles =>
      CandlesSlug();
      Slugs.CategoryRoundTrip("candles");
    case GiftBox =>
      GiftBoxSlug();
      Slugs.CategoryRoundTrip("gift box");
    case NamedGift =>
      NamedGiftSlug();
      Slugs.CategoryRoundTrip("named gift");
  }
}

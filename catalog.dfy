/** The product record the storefront and the admin area share: a MongoDB
    document with its `_id`, the fields the admin form writes, the optional
    `discount`, and the `createdAt` timestamp the admin list sorts on. */
module Catalog {

  /** One colour of a product: its payment price id, colour name and pictures. */
  datatype Variant = Variant(priceId: string, color: string, images: seq<string>)

  /** A product. An absent `description` is `""`, an absent `discount` is 0 (the
      source reads both through `|| ''` and `|| 0`), `status` is the stored status
      string and `images` is the document's `image` array. */
  datatype Product = Product(
    id: string,
    name: string,
    description: string,
    price: real,
    discount: real,
    category: string,
    status: string,
    sizes: seq<string>,
    images: seq<string>,
    variants: seq<Variant>,
    createdAt: int)
}

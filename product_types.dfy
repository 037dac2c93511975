/** The catalog's records: products, their variants and images, and the item
    handed to the cart. Money amounts are integer cents; ratings and weights,
    which are fractional in the catalog, are reals. */
module ProductTypes {
  import opened JsRuntime

  /** An amount of money in cents. */
  type Cents = int

  /** A purchasable option of a product. The price is an optional override;
      stock and SKU are always present. */
  datatype ProductVariant = ProductVariant(
    id: string,
    name: string,
    value: string,
    price: Option<Cents>,
    stock: int,
    sku: string)

  datatype ProductImage = ProductImage(id: string, url: string, alt: Option<string>)

  datatype WeightUnit = Grams | Kilograms | Ounces | Pounds

  datatype Status = Active | Draft | Archived

  datatype Product = Product(
    id: string,
    sku: string,
    name: string,
    slug: string,
    description: string,
    price: Cents,
    compareAtPrice: Option<Cents>,
    costPerItem: Option<Cents>,
    isTaxable: bool,
    isInStock: bool,
    isGiftCard: bool,
    isFeatured: bool,
    isNew: bool,
    isOnSale: bool,
    requiresShipping: bool,
    weight: Option<real>,
    weightUnit: WeightUnit,
    status: Status,
    tags: seq<string>,
    materials: seq<string>,
    categories: seq<string>,
    collections: seq<string>,
    variants: seq<ProductVariant>,
    images: seq<ProductImage>,
    featuredImage: string,
    rating: Option<real>,
    reviewCount: Option<int>,
    createdAt: string,
    updatedAt: string)

  /** The variant summary carried by a cart item. */
  datatype CartVariant = CartVariant(id: string, name: string, value: string, price: Option<Cents>)

  /** A product without its variants, images, categories and collections, plus
      the quantity, the chosen variant and one image URL. */
  datatype CartItem = CartItem(
    id: string,
    sku: string,
    name: string,
    slug: string,
    description: string,
    price: Cents,
    compareAtPrice: Option<Cents>,
    costPerItem: Option<Cents>,
    isTaxable: bool,
    isInStock: bool,
    isGiftCard: bool,
    isFeatured: bool,
    isNew: bool,
    isOnSale: bool,
    requiresShipping: bool,
    weight: Option<real>,
    weightUnit: WeightUnit,
    status: Status,
    tags: seq<string>,
    materials: seq<string>,
    featuredImage: string,
    rating: Option<real>,
    reviewCount: Option<int>,
    createdAt: string,
    updatedAt: string,
    quantity: int,
    variant: Option<CartVariant>,
    image: string)

  /** The string literal each weight unit stands for. */
  function WeightUnitText(u: WeightUnit): (t: string)
    ensures t in {"g", "kg", "oz", "lb"}
  {
    match u
    case Grams => "g"
    case Kilograms => "kg"
    case Ounces => "oz"
    case Pounds => "lb"
  }

  /** The string literal each status stands for. */
  function StatusText(s: Status): (t: string)
    ensures t in {"active", "draft", "archived"}
  {
    match s
    case Active => "active"
    case Draft => "draft"
    case Archived => "archived"
  }

  /** Distinct units are distinct literals, so the enumeration and the
      literal union describe the same values. */
  lemma WeightUnitTextInjective(u: WeightUnit, v: WeightUnit)
    ensures WeightUnitText(u) == WeightUnitText(v) ==> u == v
  {
  }

  lemma StatusTextInjective(s: Status, t: Status)
    ensures StatusText(s) == StatusText(t) ==> s == t
  {
  }

  /** `{...product, quantity, variant, image}` read at the declared `CartItem`
      type: every product field except the four omitted arrays is copied. */
  function ToCartItem(p: Product, quantity: int, variant: Option<CartVariant>, image: string): (c: CartItem)
    ensures c.quantity == quantity && c.variant == variant && c.image == image
  {
    CartItem(p.id, p.sku, p.name, p.slug, p.description, p.price, p.compareAtPrice,
      p.costPerItem, p.isTaxable, p.isInStock, p.isGiftCard, p.isFeatured, p.isNew,
      p.isOnSale, p.requiresShipping, p.weight, p.weightUnit, p.status, p.tags,
      p.materials, p.featuredImage, p.rating, p.reviewCount, p.createdAt, p.updatedAt,
      quantity, variant, image)
  }

  /** The product a cart item was made from, given back the omitted arrays. */
  function RestoreProduct(c: CartItem, variants: seq<ProductVariant>, images: seq<ProductImage>,
                          categories: seq<string>, collections: seq<string>): Product
  {
    Product(c.id, c.sku, c.name, c.slug, c.description, c.price, c.compareAtPrice,
      c.costPerItem, c.isTaxable, c.isInStock, c.isGiftCard, c.isFeatured, c.isNew,
      c.isOnSale, c.requiresShipping, c.weight, c.weightUnit, c.status, c.tags,
      c.materials, categories, collections, variants, images, c.featuredImage,
      c.rating, c.reviewCount, c.createdAt, c.updatedAt)
  }

  /** A cart item loses exactly the four omitted arrays: restoring them gives
      back the product. */
  lemma CartItemKeepsProductFields(p: Product, quantity: int, variant: Option<CartVariant>, image: string)
    ensures RestoreProduct(ToCartItem(p, quantity, variant, image),
                           p.variants, p.images, p.categories, p.collections) == p
  {
  }
}

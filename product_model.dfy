/** The product record (models/Product.js). Prices are integer cents. */
module ProductModel {
  import opened Common

  datatype Condition = New | Used | Refurbished

  datatype Availability = InStock | PreOrder

  datatype ProductStatus = Active | Deleted

  /** The fields the handlers read or write. Stock is an `int` and not a
      `nat`: the payment callback decrements it with an unchecked `$inc`,
      which the schema bound does not guard. */
  datatype Product = Product(
    title: string,
    description: Option<string>,
    price: int,
    category: CategoryId,
    stock: int,
    condition: Condition,
    brand: Option<string>,
    availability: Availability,
    sellerId: UserId,
    status: ProductStatus)

  /** The schema's validators: a title is required (Mongoose rejects "") and
      stock is at least 0. */
  predicate ValidProduct(p: Product)
  {
    p.title != "" && p.stock >= 0
  }

  /** The availability rule shared by create and update: "In Stock" exactly
      when something is in stock. */
  function AvailabilityFor(stock: int): (a: Availability)
    ensures a == InStock <==> stock > 0
    ensures a == PreOrder <==> stock <= 0
  {
    if stock > 0 then InStock else PreOrder
  }

  /** A product as the `{ _id, status: "active" }` queries find it. */
  predicate IsActive(products: map<ProductId, Product>, id: ProductId)
  {
    id in products && products[id].status == Active
  }
}

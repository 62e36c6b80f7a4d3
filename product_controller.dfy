/** The seller's product handlers (controllers/productController.js). The
    fields oem, aftermarket, material, makeModel, years and images are
    not part of this model. */
module ProductController {
  import opened Common
  import opened ProductModel
  import opened Db

  /** A product's availability agrees with its stock. */
  predicate AvailabilityConsistent(p: Product)
  {
    p.availability == AvailabilityFor(p.stock)
  }

  // ---------------------------------------------------------------------
  // Create
  // ---------------------------------------------------------------------

  /** The required fields are all given: a non-empty title, a price, a
      category, a stock and a condition from the enum (`None` stands for
      an absent field or a value the schema cannot cast). */
  predicate RequiredGiven(title: Option<string>, price: Option<int>, category: Option<CategoryId>,
                          stock: Option<int>, condition: Option<Condition>)
  {
    Truthy(title) && price.Some? && category.Some? && stock.Some? && condition.Some?
  }

  /** The product createProduct builds: availability "In Stock" exactly
      when stock > 0, active, owned by the caller. */
  function NewProduct(seller: UserId, title: string, description: Option<string>, price: int, category: CategoryId,
                      stock: int, condition: Condition, brand: Option<string>): (p: Product)
    ensures p.availability == InStock <==> stock > 0
    ensures AvailabilityConsistent(p)
    ensures p.sellerId == seller && p.status == Active && p.stock == stock && p.price == price && p.title == title
    ensures ValidProduct(p) <==> title != "" && stock >= 0
  {
    Product(title, description, price, category, stock, condition, brand, AvailabilityFor(stock), seller, Active)
  }

  /** createProduct: 500 when the schema refuses the record (a required
      field missing or a negative stock), otherwise 201 and the product is
      inserted. The category is not looked up. */
  method CreateProduct(db: Store, seller: UserId, title: Option<string>, description: Option<string>, price: Option<int>,
                       category: Option<CategoryId>, stock: Option<int>, condition: Option<Condition>,
                       brand: Option<string>, newId: ProductId) returns (status: Status)
    requires newId !in db.products
    modifies db`products
    ensures status == Created <==> RequiredGiven(title, price, category, stock, condition) && stock.value >= 0
    ensures status != Created ==> status == ServerError && db.products == old(db.products)
    ensures status == Created ==>
      db.products == old(db.products)[newId := NewProduct(seller, title.value, description, price.value, category.value,
                                                          stock.value, condition.value, brand)]
  {
    if !RequiredGiven(title, price, category, stock, condition) {
      return ServerError;
    }
    var product := Product(title.value, description, price.value, category.value, stock.value, condition.value, brand,
                           if stock.value > 0 then InStock else PreOrder, seller, Active);
    if !ValidProduct(product) {
      return ServerError;
    }
    db.products := db.products[newId := product];
    status := Created;
  }

  // ---------------------------------------------------------------------
  // Update and delete
  // ---------------------------------------------------------------------

  /** `Product.findOne({ _id: id, sellerId })`. */
  predicate OwnedBy(products: map<ProductId, Product>, id: ProductId, seller: UserId)
  {
    id in products && products[id].sellerId == seller
  }

  /** updateProduct's merge. A field given falsy keeps its old value: an
      empty title or brand, and a price of 0, are ignored. Stock is
      replaced whenever given, 0 included, and only then is availability
      recomputed. */
  function MergedProduct(p: Product, title: Option<string>, description: Option<string>, price: Option<int>,
                         category: Option<CategoryId>, stock: Option<int>, condition: Option<Condition>,
                         brand: Option<string>): (r: Product)
    ensures price == Some(0) || price.None? ==> r.price == p.price
    ensures price.Some? && price.value != 0 ==> r.price == price.value
    ensures stock.Some? ==> r.stock == stock.value && r.availability == AvailabilityFor(stock.value)
    ensures stock.None? ==> r.stock == p.stock && r.availability == p.availability
    ensures r.title == (if Truthy(title) then title.value else p.title)
    ensures r.description == OrElse(description, p.description) && r.brand == OrElse(brand, p.brand)
    ensures r.category == (if category.Some? then category.value else p.category)
    ensures r.condition == (if condition.Some? then condition.value else p.condition)
    ensures r.sellerId == p.sellerId && r.status == p.status
    ensures AvailabilityConsistent(p) || stock.Some? ==> AvailabilityConsistent(r)
  {
    p.(title := if Truthy(title) then title.value else p.title,
       description := OrElse(description, p.description),
       price := if price.Some? && price.value != 0 then price.value else p.price,
       category := if category.Some? then category.value else p.category,
       stock := if stock.Some? then stock.value else p.stock,
       condition := if condition.Some? then condition.value else p.condition,
       brand := OrElse(brand, p.brand),
       availability := if stock.Some? then AvailabilityFor(stock.value) else p.availability)
  }

  /** updateProduct: 404 unless the caller owns the product and it is not
      deleted; 500 when the merged record fails the schema (a negative
      stock); otherwise the merged record is saved. */
  method UpdateProduct(db: Store, seller: UserId, id: ProductId, title: Option<string>, description: Option<string>,
                       price: Option<int>, category: Option<CategoryId>, stock: Option<int>,
                       condition: Option<Condition>, brand: Option<string>) returns (status: Status)
    modifies db`products
    ensures !(OwnedBy(old(db.products), id, seller) && old(db.products)[id].status != Deleted) ==>
      status == NotFound && db.products == old(db.products)
    ensures status == Ok <==>
      OwnedBy(old(db.products), id, seller) && old(db.products)[id].status != Deleted
      && ValidProduct(MergedProduct(old(db.products)[id], title, description, price, category, stock, condition, brand))
    ensures status != Ok ==> status in {NotFound, ServerError} && db.products == old(db.products)
    ensures status == Ok ==>
      db.products == old(db.products)[id := MergedProduct(old(db.products)[id], title, description, price, category, stock, condition, brand)]
  {
    if !(id in db.products && db.products[id].sellerId == seller) || db.products[id].status == Deleted {
      return NotFound;
    }
    var product := MergedProduct(db.products[id], title, description, price, category, stock, condition, brand);
    if !ValidProduct(product) {
      return ServerError;
    }
    db.products := db.products[id := product];
    status := Ok;
  }

  /** deleteProduct: 404 unless the caller owns the product, 400 when it is
      already deleted. The save then validates the whole loaded record, so a
      stock driven below 0 by the payment's unchecked `$inc` makes it fail
      with 500 and the product stays as it was; otherwise only the status
      changes, to "deleted". */
  method DeleteProduct(db: Store, seller: UserId, id: ProductId) returns (status: Status)
    modifies db`products
    ensures status == Ok <==>
      OwnedBy(old(db.products), id, seller) && old(db.products)[id].status == Active && ValidProduct(old(db.products)[id])
    ensures !OwnedBy(old(db.products), id, seller) ==> status == NotFound
    ensures OwnedBy(old(db.products), id, seller) && old(db.products)[id].status == Deleted ==> status == BadRequest
    ensures OwnedBy(old(db.products), id, seller) && old(db.products)[id].status == Active && !ValidProduct(old(db.products)[id])
      ==> status == ServerError
    ensures status != Ok ==> db.products == old(db.products)
    ensures status == Ok ==> db.products == old(db.products)[id := old(db.products)[id].(status := Deleted)]
    ensures status == Ok ==> !IsActive(db.products, id)
  {
    if !(id in db.products && db.products[id].sellerId == seller) {
      return NotFound;
    }
    var product := db.products[id];
    if product.status == Deleted {
      return BadRequest;
    }
    if !ValidProduct(product) {
      return ServerError;
    }
    db.products := db.products[id := product.(status := Deleted)];
    status := Ok;
  }
}

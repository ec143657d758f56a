/** `Sale`: a completed sale with a copied product and a computed total; it has no mutators. */
module SaleModel {
  import opened Wrappers
  import opened Errors
  import opened Calendar
  import opened JsValues

  /** The values a sale's getters return, for the whole life of the object. */
  datatype Sale = Sale(
    saleId: JsValue, product: JsValue, date: DateTime, description: string,
    category: JsValue, price: int, quantityProduct: int, total: int)

  /** `product.id` is a non-empty string. */
  predicate HasValidProductId(product: JsValue)
  {
    IdOf(product).Str? && IdOf(product).s != ""
  }

  /** The constructor's arguments, taken together, are acceptable. */
  predicate SaleArgsOk(saleId: JsValue, product: JsValue, date: JsValue, description: JsValue,
                       category: JsValue, price: JsValue, quantityProduct: JsValue)
  {
    && Truthy(saleId) && Truthy(product) && Truthy(category)
    && IsValidDate(date)
    && price.Num? && price.n >= 0
    && quantityProduct.Num? && quantityProduct.n >= 1
    && (!Truthy(description) || description.Str?)
    && HasValidProductId(product)
  }

  /**
   * `new Sale(...)`: required properties, date, price, quantity, the description's
   * type and, last, the product's id. The product is stored as a shallow copy and
   * the total is computed once.
   */
  function NewSale(saleId: JsValue, product: JsValue, date: JsValue, description: JsValue,
                   category: JsValue, price: JsValue, quantityProduct: JsValue)
    : (r: Result<Sale, Error>)
    ensures r.Success? <==> SaleArgsOk(saleId, product, date, description, category, price, quantityProduct)
    ensures r.Success? ==>
      && r.value.saleId == saleId && r.value.category == category && DateObj(r.value.date) == date
      && Num(r.value.price) == price && Num(r.value.quantityProduct) == quantityProduct
      && r.value.total == r.value.price * r.value.quantityProduct
      && r.value.price >= 0 && r.value.quantityProduct >= 1 && r.value.date.WellFormed()
      && (Truthy(description) ==> Str(r.value.description) == description)
      && (!Truthy(description) ==> r.value.description == "")
    // the copy holds exactly the properties of the product passed in
    ensures r.Success? ==> r.value.product == product && HasValidProductId(r.value.product)
    ensures !Truthy(saleId) || !Truthy(product) || !Truthy(category) ==> r == Failure(SaleMissingFields)
    // the product id is checked last: its error means every other check passed
    ensures r == Failure(InvalidProductId) ==>
      SaleArgsOk(saleId, Obj(map["id" := Str("p")]), date, description, category, price, quantityProduct)
    // and once every other check passes, it is raised exactly when the id is not a non-empty string
    ensures Truthy(product) && SaleArgsOk(saleId, Obj(map["id" := Str("p")]), date, description, category, price, quantityProduct)
            ==> (r == Failure(InvalidProductId) <==> !HasValidProductId(product))
  {
    if !Truthy(saleId) || !Truthy(product) || !Truthy(category) then
      Failure(SaleMissingFields)
    else if !IsValidDate(date) then
      Failure(InvalidDate)
    else if TypeOf(price) != NumberType || price.n < 0 then
      Failure(PriceNotPositive)
    else if TypeOf(quantityProduct) != NumberType || quantityProduct.n < 1 then
      Failure(QuantityNotPositive)
    else if Truthy(description) && TypeOf(description) != StringType then
      Failure(DescriptionNotString)
    else if !Truthy(IdOf(product)) || TypeOf(IdOf(product)) != StringType then
      Failure(InvalidProductId)
    else
      Success(Sale(saleId, Spread(product), date.time, DescriptionOrEmpty(description), category,
                   price.n, quantityProduct.n, price.n * quantityProduct.n))
  }

  /** Once the required properties are present, the date is checked before the price. */
  lemma SaleDateBeforePrice(saleId: JsValue, product: JsValue, date: JsValue, description: JsValue,
                            category: JsValue, price: JsValue, quantityProduct: JsValue)
    requires Truthy(saleId) && Truthy(product) && Truthy(category)
    ensures !IsValidDate(date) ==>
      NewSale(saleId, product, date, description, category, price, quantityProduct) == Failure(InvalidDate)
    ensures IsValidDate(date) && !(price.Num? && price.n >= 0) ==>
      NewSale(saleId, product, date, description, category, price, quantityProduct) == Failure(PriceNotPositive)
  {
  }

  /** After a valid date and price, a quantity that is not a number of at least 1 is refused, whatever the description or product id. */
  lemma SaleQuantityBeforeDescription(saleId: JsValue, product: JsValue, date: JsValue, description: JsValue,
                                      category: JsValue, price: JsValue, quantityProduct: JsValue)
    requires Truthy(saleId) && Truthy(product) && Truthy(category)
    requires IsValidDate(date) && price.Num? && price.n >= 0
    ensures !(quantityProduct.Num? && quantityProduct.n >= 1) ==>
      NewSale(saleId, product, date, description, category, price, quantityProduct) == Failure(QuantityNotPositive)
    ensures quantityProduct.Num? && quantityProduct.n >= 1 && Truthy(description) && !description.Str? ==>
      NewSale(saleId, product, date, description, category, price, quantityProduct) == Failure(DescriptionNotString)
  {
  }

  /**
   * With every other argument valid, a product whose `id` is missing, empty or not
   * a string is refused, as is a product that only has a name.
   */
  lemma SaleProductIdMustBeNonEmptyString(saleId: JsValue, date: JsValue, description: JsValue, category: JsValue,
                                          price: JsValue, quantityProduct: JsValue, id: JsValue, name: JsValue)
    requires SaleArgsOk(saleId, Obj(map["id" := Str("p")]), date, description, category, price, quantityProduct)
    requires !(id.Str? && id.s != "")
    ensures NewSale(saleId, Obj(map["id" := id]), date, description, category, price, quantityProduct)
            == Failure(InvalidProductId)
    ensures NewSale(saleId, Obj(map["name" := name]), date, description, category, price, quantityProduct)
            == Failure(InvalidProductId)
  {
  }
}

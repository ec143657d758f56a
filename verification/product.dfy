/** The identity shared by every product: `productId`, `name` and `category`, fixed at construction. */
module ProductModel {
  import opened Wrappers
  import opened Errors
  import opened JsValues

  /** A constructed product; there are no setters, so its fields keep these values. */
  datatype Product = Product(productId: JsValue, name: JsValue, category: JsValue)

  /** `new Product(productId, name, category)`. */
  function NewProduct(productId: JsValue, name: JsValue, category: JsValue): (r: Result<Product, Error>)
    ensures r.Success? <==> Truthy(productId) && Truthy(name) && Truthy(category)
    ensures r.Failure? ==> r.error == ProductMissingFields
    ensures r.Success? ==>
      r.value.productId == productId && r.value.name == name && r.value.category == category
  {
    if !Truthy(productId) || !Truthy(name) || !Truthy(category) then
      Failure(ProductMissingFields)
    else
      Success(Product(productId, name, category))
  }
}

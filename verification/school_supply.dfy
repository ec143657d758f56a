/** `SchoolSupply`: a product whose category is always "util escolar", with a mutable stock. */
module SchoolSupplyModel {
  import opened Wrappers
  import opened Errors
  import opened JsValues
  import opened ProductModel
  import StockHelper

  const SchoolSupplyCategory: string := "util escolar"

  /** The values a school supply's getters return. */
  datatype SchoolSupplyRecord = SchoolSupplyRecord(
    base: Product, price: int, section: JsValue, stock: int, brand: JsValue, description: string)

  /** What every constructed school supply satisfies, and what `updateStock` keeps. */
  predicate ValidSchoolSupply(s: SchoolSupplyRecord)
  {
    && s.base.category == Str(SchoolSupplyCategory)
    && Truthy(s.base.productId) && Truthy(s.base.name)
    && Truthy(s.section) && Truthy(s.brand)
    && s.price >= 0 && s.stock >= 0
  }

  /** The constructor's arguments, taken together, are acceptable. */
  predicate SchoolSupplyArgsOk(supplyId: JsValue, name: JsValue, price: JsValue, section: JsValue,
                               stock: JsValue, brand: JsValue, description: JsValue)
  {
    && Truthy(supplyId) && Truthy(name) && Truthy(section) && Truthy(brand)
    && price.Num? && price.n >= 0
    && stock.Num? && stock.n >= 0
    && (!Truthy(description) || description.Str?)
  }

  /**
   * The validation chain of `new SchoolSupply(...)`: base product, required
   * section and brand, price, stock, then the description's type. A falsy
   * description is stored as the empty string.
   */
  function CheckSchoolSupply(supplyId: JsValue, name: JsValue, price: JsValue, section: JsValue,
                             stock: JsValue, brand: JsValue, description: JsValue)
    : (r: Result<SchoolSupplyRecord, Error>)
    ensures r.Success? <==> SchoolSupplyArgsOk(supplyId, name, price, section, stock, brand, description)
    ensures r.Success? ==> ValidSchoolSupply(r.value)
    ensures r.Success? ==>
      && r.value.base == Product(supplyId, name, Str(SchoolSupplyCategory))
      && r.value.section == section && r.value.brand == brand
      && Num(r.value.price) == price && Num(r.value.stock) == stock
      && (Truthy(description) ==> Str(r.value.description) == description)
      && (!Truthy(description) ==> r.value.description == "")
    ensures !Truthy(supplyId) || !Truthy(name) ==> r == Failure(ProductMissingFields)
    ensures Truthy(supplyId) && Truthy(name) && (!Truthy(section) || !Truthy(brand)) ==>
      r == Failure(SchoolSupplyMissingFields)
    ensures r == Failure(DescriptionNotString) ==> SchoolSupplyArgsOk(supplyId, name, price, section, stock, brand, Undefined)
    ensures SchoolSupplyArgsOk(supplyId, name, price, section, stock, brand, Undefined) ==>
      (r == Failure(DescriptionNotString) <==> Truthy(description) && !description.Str?)
  {
    var base := NewProduct(supplyId, name, Str(SchoolSupplyCategory));
    if base.Failure? then
      Failure(base.error)
    else if !Truthy(section) || !Truthy(brand) then
      Failure(SchoolSupplyMissingFields)
    else if TypeOf(price) != NumberType || price.n < 0 then
      Failure(PriceNotPositive)
    else if TypeOf(stock) != NumberType || stock.n < 0 then
      Failure(StockNotPositive)
    else if Truthy(description) && TypeOf(description) != StringType then
      Failure(DescriptionNotString)
    else
      Success(SchoolSupplyRecord(base.value, price.n, section, stock.n, brand, DescriptionOrEmpty(description)))
  }

  /** Price and stock: non-numbers and negatives are refused in that order, each with its own message. */
  lemma SchoolSupplyPriceAndStockBounds(supplyId: JsValue, name: JsValue, price: JsValue, section: JsValue,
                                        stock: JsValue, brand: JsValue, description: JsValue)
    requires Truthy(supplyId) && Truthy(name) && Truthy(section) && Truthy(brand)
    ensures !(price.Num? && price.n >= 0) ==>
      CheckSchoolSupply(supplyId, name, price, section, stock, brand, description) == Failure(PriceNotPositive)
    ensures price.Num? && price.n >= 0 && !(stock.Num? && stock.n >= 0) ==>
      CheckSchoolSupply(supplyId, name, price, section, stock, brand, description) == Failure(StockNotPositive)
  {
  }

  /** A school supply object: every field but the stock is fixed at construction. */
  class SchoolSupply {
    const base: Product
    const price: int
    const section: JsValue
    const brand: JsValue
    const description: string
    var stock: int

    /** What the getters return. */
    function Record(): SchoolSupplyRecord
      reads this
    {
      SchoolSupplyRecord(base, price, section, stock, brand, description)
    }

    constructor (rec: SchoolSupplyRecord)
      ensures Record() == rec
    {
      base, price, section, brand, description := rec.base, rec.price, rec.section, rec.brand, rec.description;
      stock := rec.stock;
    }

    /**
     * `updateStock(quantity)`: the stock becomes what the ledger returns; when the
     * ledger throws, the stock is left as it was. No other field changes.
     */
    method UpdateStock(quantity: JsValue) returns (outcome: Outcome<Error>)
      modifies this
      ensures var r := StockHelper.UpdateStock(old(stock), quantity);
        && (r.Success? ==> outcome == Pass && stock == r.value)
        && (r.Failure? ==> outcome == Fail(r.error) && stock == old(stock))
      ensures Record() == old(Record()).(stock := stock)
      ensures ValidSchoolSupply(old(Record())) ==> ValidSchoolSupply(Record())
    {
      var r := StockHelper.UpdateStock(stock, quantity);
      if r.Failure? {
        return Fail(r.error);
      }
      stock := r.value;
      outcome := Pass;
    }
  }

  /** `new SchoolSupply(...)`: an object exists exactly when validation succeeds. */
  method NewSchoolSupply(supplyId: JsValue, name: JsValue, price: JsValue, section: JsValue,
                         stock: JsValue, brand: JsValue, description: JsValue)
    returns (r: Result<SchoolSupply, Error>)
    ensures var c := CheckSchoolSupply(supplyId, name, price, section, stock, brand, description);
      && (c.Failure? ==> r == Failure(c.error))
      && (c.Success? ==> r.Success? && fresh(r.value) && r.value.Record() == c.value)
  {
    var c := CheckSchoolSupply(supplyId, name, price, section, stock, brand, description);
    if c.Failure? {
      return Failure(c.error);
    }
    var s := new SchoolSupply(c.value);
    r := Success(s);
  }
}

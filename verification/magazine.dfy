/** `Magazine`: a product whose category is always "revista", with a mutable stock. */
module MagazineModel {
  import opened Wrappers
  import opened Errors
  import opened Calendar
  import opened JsValues
  import opened ProductModel
  import StockHelper

  const MagazineCategory: string := "revista"

  /** The values a magazine's getters return. */
  datatype MagazineRecord = MagazineRecord(
    base: Product, issn: JsValue, price: int, section: JsValue, stock: int,
    date: DateTime, number: int, issueNumber: int)

  /** What every constructed magazine satisfies, and what `updateStock` keeps. */
  predicate ValidMagazine(m: MagazineRecord)
  {
    && m.base.category == Str(MagazineCategory)
    && Truthy(m.base.productId) && Truthy(m.base.name)
    && Truthy(m.issn) && Truthy(m.section)
    && m.price >= 0 && m.stock >= 0 && m.number >= 1 && m.issueNumber >= 1
    && m.date.WellFormed()
  }

  /** The constructor's arguments, taken together, are acceptable. */
  predicate MagazineArgsOk(magazineId: JsValue, name: JsValue, price: JsValue, issn: JsValue, number: JsValue,
                           section: JsValue, date: JsValue, stock: JsValue, issueNumber: JsValue)
  {
    && Truthy(magazineId) && Truthy(name) && Truthy(issn) && Truthy(section)
    && price.Num? && price.n >= 0
    && stock.Num? && stock.n >= 0
    && number.Num? && number.n >= 1
    && issueNumber.Num? && issueNumber.n >= 1
    && IsValidDate(date)
  }

  /**
   * The validation chain of `new Magazine(...)`: the base product checks, then the
   * presence of the required properties, then price, stock, number, issue number
   * and, last, the date; the first failing check decides the error.
   */
  function CheckMagazine(magazineId: JsValue, name: JsValue, price: JsValue, issn: JsValue, number: JsValue,
                         section: JsValue, date: JsValue, stock: JsValue, issueNumber: JsValue)
    : (r: Result<MagazineRecord, Error>)
    ensures r.Success? <==> MagazineArgsOk(magazineId, name, price, issn, number, section, date, stock, issueNumber)
    ensures r.Success? ==> ValidMagazine(r.value)
    ensures r.Success? ==>
      && r.value.base == Product(magazineId, name, Str(MagazineCategory))
      && r.value.issn == issn && r.value.section == section && r.value.date == date.time
      && Num(r.value.price) == price && Num(r.value.stock) == stock
      && Num(r.value.number) == number && Num(r.value.issueNumber) == issueNumber
    // the base product is checked before anything of the magazine's own
    ensures !Truthy(magazineId) || !Truthy(name) ==> r == Failure(ProductMissingFields)
    // the date is checked last: its error means every other check passed
    ensures r == Failure(InvalidDate) ==>
      && Truthy(magazineId) && Truthy(name) && Truthy(issn) && Truthy(section)
      && price.Num? && price.n >= 0 && stock.Num? && stock.n >= 0
      && number.Num? && number.n >= 1 && issueNumber.Num? && issueNumber.n >= 1
    // and once every other check has passed, a date that is present but not a valid `Date` gets that error
    ensures && Truthy(magazineId) && Truthy(name) && Truthy(issn) && Truthy(section) && Truthy(date)
            && price.Num? && price.n >= 0 && stock.Num? && stock.n >= 0
            && number.Num? && number.n >= 1 && issueNumber.Num? && issueNumber.n >= 1
            ==> (r == Failure(InvalidDate) <==> !IsValidDate(date))
  {
    var base := NewProduct(magazineId, name, Str(MagazineCategory));
    if base.Failure? then
      Failure(base.error)
    else if !Truthy(issn) || !Truthy(section) || !Truthy(date)
            || TypeOf(number) == UndefinedType || TypeOf(issueNumber) == UndefinedType then
      Failure(MagazineMissingFields)
    else if TypeOf(price) != NumberType || price.n < 0 then
      Failure(PriceNotPositive)
    else if TypeOf(stock) != NumberType || stock.n < 0 then
      Failure(StockNotPositive)
    else if TypeOf(number) != NumberType || number.n < 1 then
      Failure(NumberNotPositive)
    else if TypeOf(issueNumber) != NumberType || issueNumber.n < 1 then
      Failure(IssueNumberNotPositive)
    else if !IsValidDate(date) then
      Failure(InvalidDate)
    else
      Success(MagazineRecord(base.value, issn, price.n, section, stock.n, date.time, number.n, issueNumber.n))
  }

  /**
   * Price is checked before stock, each with its own message: a price that is not
   * a number, or is negative, hides a bad stock, and such a stock is refused once
   * the price is fine.
   */
  lemma MagazinePriceBeforeStock(magazineId: JsValue, name: JsValue, price: JsValue, issn: JsValue, number: JsValue,
                                 section: JsValue, date: JsValue, stock: JsValue, issueNumber: JsValue)
    requires Truthy(magazineId) && Truthy(name) && Truthy(issn) && Truthy(section) && Truthy(date)
    requires number != Undefined && issueNumber != Undefined
    ensures !(price.Num? && price.n >= 0) ==>
      CheckMagazine(magazineId, name, price, issn, number, section, date, stock, issueNumber)
      == Failure(PriceNotPositive)
    ensures price.Num? && price.n >= 0 && !(stock.Num? && stock.n >= 0) ==>
      CheckMagazine(magazineId, name, price, issn, number, section, date, stock, issueNumber)
      == Failure(StockNotPositive)
  {
  }

  /**
   * Once price and stock are fine, a number that is not a number of at least 1 is
   * refused before the issue number is looked at, and such an issue number has its
   * own message.
   */
  lemma MagazineNumberBeforeIssueNumber(magazineId: JsValue, name: JsValue, price: JsValue, issn: JsValue,
                                        number: JsValue, section: JsValue, date: JsValue, stock: JsValue,
                                        issueNumber: JsValue)
    requires Truthy(magazineId) && Truthy(name) && Truthy(issn) && Truthy(section) && Truthy(date)
    requires issueNumber != Undefined
    requires price.Num? && price.n >= 0 && stock.Num? && stock.n >= 0
    ensures number != Undefined && !(number.Num? && number.n >= 1) ==>
      CheckMagazine(magazineId, name, price, issn, number, section, date, stock, issueNumber)
      == Failure(NumberNotPositive)
    ensures number.Num? && number.n >= 1 && !(issueNumber.Num? && issueNumber.n >= 1) ==>
      CheckMagazine(magazineId, name, price, issn, number, section, date, stock, issueNumber)
      == Failure(IssueNumberNotPositive)
  {
  }

  /** A missing issn, section or date, or an undefined number or issue number, is reported as missing. */
  lemma MagazineMissingProperties(magazineId: JsValue, name: JsValue, price: JsValue, issn: JsValue, number: JsValue,
                                  section: JsValue, date: JsValue, stock: JsValue, issueNumber: JsValue)
    requires Truthy(magazineId) && Truthy(name)
    requires !Truthy(issn) || !Truthy(section) || !Truthy(date) || number == Undefined || issueNumber == Undefined
    ensures CheckMagazine(magazineId, name, price, issn, number, section, date, stock, issueNumber)
            == Failure(MagazineMissingFields)
  {
  }

  /** A stocked magazine object: every field but the stock is fixed at construction. */
  class Magazine {
    const base: Product
    const issn: JsValue
    const price: int
    const section: JsValue
    const date: DateTime
    const number: int
    const issueNumber: int
    var stock: int

    /** What the getters return. */
    function Record(): MagazineRecord
      reads this
    {
      MagazineRecord(base, issn, price, section, stock, date, number, issueNumber)
    }

    constructor (rec: MagazineRecord)
      ensures Record() == rec
    {
      base, issn, price, section := rec.base, rec.issn, rec.price, rec.section;
      date, number, issueNumber := rec.date, rec.number, rec.issueNumber;
      stock := rec.stock;
    }

    /**
     * `updateStock(quantity)`: the stock becomes what the ledger returns; when the
     * ledger throws, the stock is left as it was. No other field changes.
     */
    method UpdateStock(quantity: JsValue) returns (outcome: Outcome<Error>)
      modifies this
      ensures var r := StockHelper.UpdateStock(old(stock), quantity);
        && (r.Success? ==> outcome == Pass && stock == r.value)
        && (r.Failure? ==> outcome == Fail(r.error) && stock == old(stock))
      ensures Record() == old(Record()).(stock := stock)
      ensures ValidMagazine(old(Record())) ==> ValidMagazine(Record())
    {
      var r := StockHelper.UpdateStock(stock, quantity);
      if r.Failure? {
        return Fail(r.error);
      }
      stock := r.value;
      outcome := Pass;
    }
  }

  /** `new Magazine(...)`: an object exists exactly when validation succeeds. */
  method NewMagazine(magazineId: JsValue, name: JsValue, price: JsValue, issn: JsValue, number: JsValue,
                     section: JsValue, date: JsValue, stock: JsValue, issueNumber: JsValue)
    returns (r: Result<Magazine, Error>)
    ensures var c := CheckMagazine(magazineId, name, price, issn, number, section, date, stock, issueNumber);
      && (c.Failure? ==> r == Failure(c.error))
      && (c.Success? ==> r.Success? && fresh(r.value) && r.value.Record() == c.value)
  {
    var c := CheckMagazine(magazineId, name, price, issn, number, section, date, stock, issueNumber);
    if c.Failure? {
      return Failure(c.error);
    }
    var m := new Magazine(c.value);
    r := Success(m);
  }

  /** The two constructions from the magazine tests, with a price of 999 cents. */
  lemma MagazineScenarios(date: DateTime)
    requires date.WellFormed()
    ensures CheckMagazine(Str("M1"), Str("Rev"), Num(999), Str("1234-5678"), Num(0), Str("A"),
                          DateObj(date), Num(100), Num(1)) == Failure(NumberNotPositive)
    ensures var r := CheckMagazine(Str("M1"), Str("Rev"), Num(999), Str("1234-5678"), Num(1), Str("A"),
                                   DateObj(date), Num(100), Num(1));
            r.Success? && r.value.base.category == Str("revista")
  {
  }
}

/** The stock ledger shared by every stocked product: `updateStock(currentStock, quantity)`. */
module StockHelper {
  import opened Wrappers
  import opened Errors
  import opened JsValues

  /**
   * Adds a signed quantity to the stock on hand. The type check comes first, so a
   * non-number fails the same way whatever the current stock is; a result below
   * zero is refused, while reaching exactly zero is allowed.
   */
  function UpdateStock(currentStock: int, quantity: JsValue): (r: Result<int, Error>)
    ensures !quantity.Num? ==> r == Failure(QuantityNotNumber)
    ensures quantity.Num? && currentStock + quantity.n < 0 ==> r == Failure(NegativeStock)
    ensures r.Success? <==> quantity.Num? && currentStock + quantity.n >= 0
    ensures r.Success? ==> r.value >= 0 && r.value - currentStock == quantity.n
  {
    if TypeOf(quantity) != NumberType then
      Failure(QuantityNotNumber)
    else
      var newStock := currentStock + quantity.n;
      if newStock < 0 then Failure(NegativeStock) else Success(newStock)
  }

  /** Adding zero leaves any non-negative stock as it is. */
  lemma ZeroQuantityKeepsStock(currentStock: int)
    requires currentStock >= 0
    ensures UpdateStock(currentStock, Num(0)) == Success(currentStock)
  {
  }

  /** Selling back what was just received restores the stock: the two updates are inverse. */
  lemma RestockThenSellRestores(currentStock: int, q: int)
    requires currentStock >= 0
    requires UpdateStock(currentStock, Num(q)).Success?
    ensures UpdateStock(UpdateStock(currentStock, Num(q)).value, Num(-q)) == Success(currentStock)
  {
  }

  /**
   * The stock of an entity after it receives these `updateStock` calls in turn: a
   * call that throws leaves the stock as it was.
   */
  function StockAfter(stock: int, quantities: seq<JsValue>): int
    decreases |quantities|
  {
    if quantities == [] then stock
    else
      var r := UpdateStock(stock, quantities[0]);
      StockAfter(if r.Success? then r.value else stock, quantities[1..])
  }

  /** The sum of the quantities that the ledger accepts along the way. */
  function AcceptedTotal(stock: int, quantities: seq<JsValue>): int
    decreases |quantities|
  {
    if quantities == [] then 0
    else
      var r := UpdateStock(stock, quantities[0]);
      if r.Success? then quantities[0].n + AcceptedTotal(r.value, quantities[1..])
      else AcceptedTotal(stock, quantities[1..])
  }

  /**
   * However many updates an entity receives, and whichever of them throw, a stock
   * that starts non-negative stays non-negative, and it moves by exactly the sum of
   * the accepted quantities.
   */
  lemma {:induction false} StockNeverNegative(stock: int, quantities: seq<JsValue>)
    requires stock >= 0
    ensures StockAfter(stock, quantities) >= 0
    ensures StockAfter(stock, quantities) == stock + AcceptedTotal(stock, quantities)
    decreases |quantities|
  {
    if quantities != [] {
      var r := UpdateStock(stock, quantities[0]);
      StockNeverNegative(if r.Success? then r.value else stock, quantities[1..]);
    }
  }
}

/** `Order`: a purchase from a supplier, with a computed total and a status state machine. */
module OrderModel {
  import opened Wrappers
  import opened Errors
  import opened Calendar
  import opened JsValues

  /** `Order.STATUS_TYPES`. */
  datatype Status = Pending | Confirmed | Delivered | Cancelled
  {
    /** The string value the enum entry holds. */
    function Name(): string
    {
      match this
      case Pending => "pending"
      case Confirmed => "confirmed"
      case Delivered => "delivered"
      case Cancelled => "cancelled"
    }
  }

  /** `Object.values(Order.STATUS_TYPES).includes(v)`, returning the entry that matched. */
  function ParseStatus(v: JsValue): (r: Option<Status>)
    ensures r.Some? ==> v == Str(r.value.Name())
    ensures r.None? ==> forall s: Status :: v != Str(s.Name())
  {
    if v == Str("pending") then Some(Pending)
    else if v == Str("confirmed") then Some(Confirmed)
    else if v == Str("delivered") then Some(Delivered)
    else if v == Str("cancelled") then Some(Cancelled)
    else None
  }

  /** Every enum entry's value is recognised as that entry. */
  lemma ParseStatusName(s: Status)
    ensures ParseStatus(Str(s.Name())) == Some(s)
  {
  }

  /**
   * The status `updateStatus(newStatus)` moves to, or the error it throws. The
   * target is checked against the enum first; a cancelled order accepts nothing;
   * a delivered order accepts only cancellation; pending and confirmed orders
   * accept every enum value.
   */
  function NextStatus(current: Status, newStatus: JsValue): (r: Result<Status, Error>)
    ensures ParseStatus(newStatus).None? ==> r == Failure(InvalidStatus)
    ensures current == Cancelled ==> r.Failure?
    ensures current == Delivered ==> (r.Success? <==> newStatus == Str("cancelled"))
    ensures (current == Pending || current == Confirmed) ==> (r.Success? <==> ParseStatus(newStatus).Some?)
    ensures r.Success? ==> newStatus == Str(r.value.Name())
  {
    var target := ParseStatus(newStatus);
    if target.None? then Failure(InvalidStatus)
    else if current == Cancelled then Failure(CancelledOrder)
    else if current == Delivered && target.value != Cancelled then Failure(DeliveredOnlyCancelled)
    else Success(target.value)
  }

  /** The errors of a valid target: which message a refused transition throws. */
  lemma RefusedTransitionMessages(current: Status, target: Status)
    ensures current == Cancelled ==> NextStatus(current, Str(target.Name())) == Failure(CancelledOrder)
    ensures current == Delivered && target != Cancelled ==>
      NextStatus(current, Str(target.Name())) == Failure(DeliveredOnlyCancelled)
  {
  }

  /** The status after a series of `updateStatus` calls; a call that throws leaves the status as it was. */
  function StatusAfter(status: Status, requests: seq<JsValue>): Status
    decreases |requests|
  {
    if requests == [] then status
    else
      var r := NextStatus(status, requests[0]);
      StatusAfter(if r.Success? then r.value else status, requests[1..])
  }

  /** Cancelled is terminal: no series of updates leaves it. */
  lemma {:induction false} CancelledIsTerminal(requests: seq<JsValue>)
    ensures StatusAfter(Cancelled, requests) == Cancelled
    decreases |requests|
  {
    if requests != [] {
      CancelledIsTerminal(requests[1..]);
    }
  }

  /** A delivered order never returns to pending or confirmed, whatever is requested. */
  lemma {:induction false} DeliveredNeverReopens(requests: seq<JsValue>)
    ensures StatusAfter(Delivered, requests) == Delivered || StatusAfter(Delivered, requests) == Cancelled
    decreases |requests|
  {
    if requests != [] {
      var r := NextStatus(Delivered, requests[0]);
      if r.Success? {
        CancelledIsTerminal(requests[1..]);
      } else {
        DeliveredNeverReopens(requests[1..]);
      }
    }
  }

  /**
   * From an open order every status is one call away, including a direct jump to
   * delivered and staying where it is: `updateStatus` does not enforce a linear order.
   */
  lemma OpenOrderReachesEveryStatus(current: Status, target: Status)
    requires current == Pending || current == Confirmed
    ensures NextStatus(current, Str(target.Name())) == Success(target)
  {
  }

  /** The values an order's getters return. */
  datatype OrderRecord = OrderRecord(
    orderId: JsValue, supplierId: JsValue, product: JsValue, date: DateTime, description: string,
    category: JsValue, price: int, quantityProduct: int, status: Status, total: int)

  /** What every constructed order satisfies; `updateStatus` keeps it. */
  predicate ValidOrder(o: OrderRecord)
  {
    && Truthy(o.orderId) && Truthy(o.supplierId) && Truthy(o.category) && o.product.Obj?
    && o.date.WellFormed() && o.price >= 0 && o.quantityProduct >= 1
    && o.total == o.price * o.quantityProduct
  }

  /** The constructor's arguments, taken together, are acceptable. */
  predicate OrderArgsOk(orderId: JsValue, supplierId: JsValue, product: JsValue, date: JsValue,
                        description: JsValue, category: JsValue, price: JsValue, quantityProduct: JsValue,
                        status: JsValue)
  {
    && Truthy(orderId) && Truthy(supplierId) && Truthy(product) && Truthy(category)
    && IsValidDate(date)
    && price.Num? && price.n >= 0
    && quantityProduct.Num? && quantityProduct.n >= 1
    && (status == Undefined || ParseStatus(status).Some?)
    && (!Truthy(description) || description.Str?)
  }

  /**
   * The validation chain of `new Order(...)`: required properties, date, price,
   * quantity, status (undefined means pending), then the description's type. The
   * product is stored as a shallow copy and the total is computed once.
   */
  function CheckOrder(orderId: JsValue, supplierId: JsValue, product: JsValue, date: JsValue,
                      description: JsValue, category: JsValue, price: JsValue, quantityProduct: JsValue,
                      status: JsValue)
    : (r: Result<OrderRecord, Error>)
    ensures r.Success? <==>
      OrderArgsOk(orderId, supplierId, product, date, description, category, price, quantityProduct, status)
    ensures r.Success? ==> ValidOrder(r.value)
    ensures r.Success? ==>
      && r.value.orderId == orderId && r.value.supplierId == supplierId && r.value.category == category
      && r.value.product == Spread(product) && DateObj(r.value.date) == date
      && Num(r.value.price) == price && Num(r.value.quantityProduct) == quantityProduct
      && (status == Undefined ==> r.value.status == Pending)
      && (status != Undefined ==> Str(r.value.status.Name()) == status)
      && (Truthy(description) ==> Str(r.value.description) == description)
      && (!Truthy(description) ==> r.value.description == "")
    ensures !Truthy(orderId) || !Truthy(supplierId) || !Truthy(product) || !Truthy(category) ==>
      r == Failure(OrderMissingFields)
    // the description's type is checked last
    ensures OrderArgsOk(orderId, supplierId, product, date, Undefined, category, price, quantityProduct, status) ==>
      (r == Failure(DescriptionNotString) <==> Truthy(description) && !description.Str?)
  {
    var status := if status == Undefined then Str(Pending.Name()) else status;
    if !Truthy(orderId) || !Truthy(supplierId) || !Truthy(product) || !Truthy(category) then
      Failure(OrderMissingFields)
    else if !IsValidDate(date) then
      Failure(InvalidDate)
    else if TypeOf(price) != NumberType || price.n < 0 then
      Failure(PriceNotPositive)
    else if TypeOf(quantityProduct) != NumberType || quantityProduct.n < 1 then
      Failure(QuantityNotPositive)
    else if ParseStatus(status).None? then
      Failure(InvalidStatus)
    else if Truthy(description) && TypeOf(description) != StringType then
      Failure(DescriptionNotString)
    else
      Success(OrderRecord(orderId, supplierId, Spread(product), date.time, DescriptionOrEmpty(description),
                          category, price.n, quantityProduct.n, ParseStatus(status).value,
                          price.n * quantityProduct.n))
  }

  /** Once the required properties are present, the date is checked before the price. */
  lemma OrderDateBeforePrice(orderId: JsValue, supplierId: JsValue, product: JsValue, date: JsValue,
                             description: JsValue, category: JsValue, price: JsValue, quantityProduct: JsValue,
                             status: JsValue)
    requires Truthy(orderId) && Truthy(supplierId) && Truthy(product) && Truthy(category)
    ensures !IsValidDate(date) ==>
      CheckOrder(orderId, supplierId, product, date, description, category, price, quantityProduct, status)
      == Failure(InvalidDate)
    ensures IsValidDate(date) && !(price.Num? && price.n >= 0) ==>
      CheckOrder(orderId, supplierId, product, date, description, category, price, quantityProduct, status)
      == Failure(PriceNotPositive)
  {
  }

  /** After a valid date and price, the quantity is checked before the status, and the status before the description. */
  lemma OrderQuantityBeforeStatus(orderId: JsValue, supplierId: JsValue, product: JsValue, date: JsValue,
                                  description: JsValue, category: JsValue, price: JsValue,
                                  quantityProduct: JsValue, status: JsValue)
    requires Truthy(orderId) && Truthy(supplierId) && Truthy(product) && Truthy(category)
    requires IsValidDate(date) && price.Num? && price.n >= 0
    ensures !(quantityProduct.Num? && quantityProduct.n >= 1) ==>
      CheckOrder(orderId, supplierId, product, date, description, category, price, quantityProduct, status)
      == Failure(QuantityNotPositive)
    ensures quantityProduct.Num? && quantityProduct.n >= 1 && status != Undefined && ParseStatus(status).None? ==>
      CheckOrder(orderId, supplierId, product, date, description, category, price, quantityProduct, status)
      == Failure(InvalidStatus)
  {
  }

  /** An order object: only the status changes after construction. */
  class Order {
    const orderId: JsValue
    const supplierId: JsValue
    const product: JsValue
    const date: DateTime
    const description: string
    const category: JsValue
    const price: int
    const quantityProduct: int
    const total: int
    var status: Status

    /** What the getters return (the product getter returns a copy of this value). */
    function Record(): OrderRecord
      reads this
    {
      OrderRecord(orderId, supplierId, product, date, description, category, price, quantityProduct, status, total)
    }

    constructor (rec: OrderRecord)
      ensures Record() == rec
    {
      orderId, supplierId, product, date, description := rec.orderId, rec.supplierId, rec.product, rec.date, rec.description;
      category, price, quantityProduct, total := rec.category, rec.price, rec.quantityProduct, rec.total;
      status := rec.status;
    }

    /**
     * `updateStatus(newStatus)`: moves to the status `NextStatus` allows, or throws
     * its error and leaves the status unchanged. Nothing else changes, the total
     * included.
     */
    method UpdateStatus(newStatus: JsValue) returns (outcome: Outcome<Error>)
      modifies this
      ensures var r := NextStatus(old(status), newStatus);
        && (r.Success? ==> outcome == Pass && status == r.value)
        && (r.Failure? ==> outcome == Fail(r.error) && status == old(status))
      ensures Record() == old(Record()).(status := status)
      ensures ValidOrder(old(Record())) ==> ValidOrder(Record())
    {
      var target := ParseStatus(newStatus);
      if target.None? {
        return Fail(InvalidStatus);
      }
      if status == Cancelled {
        return Fail(CancelledOrder);
      }
      if status == Delivered && target.value != Cancelled {
        return Fail(DeliveredOnlyCancelled);
      }
      status := target.value;
      outcome := Pass;
    }
  }

  /** `new Order(...)`: an object exists exactly when validation succeeds. */
  method NewOrder(orderId: JsValue, supplierId: JsValue, product: JsValue, date: JsValue,
                  description: JsValue, category: JsValue, price: JsValue, quantityProduct: JsValue,
                  status: JsValue)
    returns (r: Result<Order, Error>)
    ensures var c := CheckOrder(orderId, supplierId, product, date, description, category, price, quantityProduct, status);
      && (c.Failure? ==> r == Failure(c.error))
      && (c.Success? ==> r.Success? && fresh(r.value) && r.value.Record() == c.value)
  {
    var c := CheckOrder(orderId, supplierId, product, date, description, category, price, quantityProduct, status);
    if c.Failure? {
      return Failure(c.error);
    }
    var o := new Order(c.value);
    r := Success(o);
  }

  /** The status scenario of the order tests: pending, then cancelled, then every further update throws. */
  method CancelThenUpdate(o: Order, next: Status) returns (first: Outcome<Error>, second: Outcome<Error>)
    requires o.status == Pending
    modifies o
    ensures first == Pass && second == Fail(CancelledOrder) && o.status == Cancelled
  {
    first := o.UpdateStatus(Str(Cancelled.Name()));
    second := o.UpdateStatus(Str(next.Name()));
  }
}

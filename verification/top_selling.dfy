/**
 * The top-selling report of the sale controller: a range keyword picks a start
 * date, the sales dated between that start and now are tallied per product, and
 * the per-product totals are listed from the largest down.
 */
module TopSelling {
  import opened Wrappers
  import opened Calendar

  /** The fields of a stored sale that the report reads. */
  datatype SaleDoc = SaleDoc(product: string, quantityProduct: int, date: DateTime)

  /** One line of the report: `{ productId, quantity }`. */
  datatype Entry = Entry(productId: string, quantity: int)

  // ---------------------------------------------------------------- range

  /**
   * The start of the reporting window for the `range` query parameter (`None` when
   * it is absent). Unknown keywords, like an absent one, mean "the last week".
   */
  function RangeStart(range: Option<string>, now: DateTime): (from: DateTime)
    requires now.WellFormed()
    ensures from.WellFormed() && NotAfter(from, now)
    ensures range == Some("month") ==>
      from.year == now.year && from.month == now.month && from.day == 1 && from.millis == 0
    ensures range == Some("quarter") ==>
      MonthNumber(from) == MonthNumber(now) - 2 && from.day == 1 && from.millis == 0
    ensures range == Some("sixmonths") ==>
      MonthNumber(from) == MonthNumber(now) - 5 && from.day == 1 && from.millis == 0
    ensures range == Some("year") ==>
      from.year == now.year && from.month == 1 && from.day == 1 && from.millis == 0
    ensures range !in {Some("month"), Some("quarter"), Some("sixmonths"), Some("year")} ==>
      DayNumber(from) == DayNumber(now) - 7 && from.millis == now.millis
  {
    match range
    case Some("month") =>
      MonthStart(now, 0)
    case Some("quarter") =>
      MonthStart(now, 2)
    case Some("sixmonths") =>
      MonthStart(now, 5)
    case Some("year") =>
      DateTime(now.year, 1, 1, 0)
    case _ =>
      WeekBefore(now)
  }

  /** The query `{ date: { $gte: from, $lte: now } }`. */
  predicate InRange(sale: SaleDoc, from: DateTime, now: DateTime)
  {
    NotAfter(from, sale.date) && NotAfter(sale.date, now)
  }

  /** The sales the query returns: those in the window, each as often as it is stored. */
  function InWindow(sales: seq<SaleDoc>, from: DateTime, now: DateTime): (r: seq<SaleDoc>)
    ensures forall x :: multiset(r)[x] == if InRange(x, from, now) then multiset(sales)[x] else 0
    ensures forall i :: 0 <= i < |r| ==> InRange(r[i], from, now)
  {
    if sales == [] then []
    else
      var rest := InWindow(sales[1..], from, now);
      assert sales == [sales[0]] + sales[1..];
      if InRange(sales[0], from, now) then [sales[0]] + rest else rest
  }

  // ---------------------------------------------------------------- specification

  /** Every product id that occurs, once each, in order of first occurrence. */
  function Products(sales: seq<SaleDoc>): (ids: seq<string>)
    ensures forall i, j :: 0 <= i < j < |ids| ==> ids[i] != ids[j]
    decreases |sales|
  {
    if sales == [] then []
    else
      var ids := Products(sales[..|sales| - 1]);
      if sales[|sales| - 1].product in ids then ids else ids + [sales[|sales| - 1].product]
  }

  /** The sum of `quantityProduct` over the sales of product `id`. */
  function Total(sales: seq<SaleDoc>, id: string): int
    decreases |sales|
  {
    if sales == [] then 0
    else
      var last := sales[|sales| - 1];
      Total(sales[..|sales| - 1], id) + if last.product == id then last.quantityProduct else 0
  }

  /** The ids listed are exactly the products that were sold. */
  lemma {:induction false} ProductsCover(sales: seq<SaleDoc>, id: string)
    ensures id in Products(sales) <==> exists k :: 0 <= k < |sales| && sales[k].product == id
    decreases |sales|
  {
    if sales != [] {
      var prefix := sales[..|sales| - 1];
      ProductsCover(prefix, id);
      assert forall k :: 0 <= k < |prefix| ==> prefix[k] == sales[k];
    }
  }

  /** A product that was not sold totals 0. */
  lemma {:induction false} TotalUnsold(sales: seq<SaleDoc>, id: string)
    requires id !in Products(sales)
    ensures Total(sales, id) == 0
    decreases |sales|
  {
    if sales != [] {
      TotalUnsold(sales[..|sales| - 1], id);
    }
  }

  /** One entry per id of `ids`, carrying that product's total. */
  function EntriesFor(ids: seq<string>, sales: seq<SaleDoc>): (r: seq<Entry>)
    ensures |r| == |ids|
    ensures forall i :: 0 <= i < |ids| ==> r[i] == Entry(ids[i], Total(sales, ids[i]))
  {
    if ids == [] then [] else [Entry(ids[0], Total(sales, ids[0]))] + EntriesFor(ids[1..], sales)
  }

  /** The per-product totals of `sales`, before sorting. */
  function Aggregate(sales: seq<SaleDoc>): seq<Entry>
  {
    EntriesFor(Products(sales), sales)
  }

  /** Non-increasing in quantity. */
  predicate SortedDesc(entries: seq<Entry>)
  {
    forall i, j :: 0 <= i < j < |entries| ==> entries[i].quantity >= entries[j].quantity
  }

  /** No product id occurs twice. */
  predicate DistinctIds(entries: seq<Entry>)
  {
    forall i, j :: 0 <= i < j < |entries| ==> entries[i].productId != entries[j].productId
  }

  /** The sum of `quantityProduct` over all sales. */
  function SaleQuantity(sales: seq<SaleDoc>): int
    decreases |sales|
  {
    if sales == [] then 0 else SaleQuantity(sales[..|sales| - 1]) + sales[|sales| - 1].quantityProduct
  }

  /** The sum of the quantities of a report. */
  function EntrySum(entries: seq<Entry>): int
  {
    if entries == [] then 0 else entries[0].quantity + EntrySum(entries[1..])
  }

  /** Appending a sale adds its product at the end unless it was already there. */
  lemma {:induction false} ProductsSnoc(sales: seq<SaleDoc>, x: SaleDoc)
    ensures Products(sales + [x]) == if x.product in Products(sales) then Products(sales) else Products(sales) + [x.product]
  {
    assert (sales + [x])[..|sales|] == sales;
  }

  /** Appending a sale adds its quantity to its own product's total only. */
  lemma {:induction false} TotalSnoc(sales: seq<SaleDoc>, x: SaleDoc, id: string)
    ensures Total(sales + [x], id) == Total(sales, id) + if x.product == id then x.quantityProduct else 0
  {
    assert (sales + [x])[..|sales|] == sales;
  }

  // ---------------------------------------------------------------- the aggregation

  /** `productSales` holds, for the sales seen so far, exactly their products, each with its total. */
  ghost predicate Tallied(sales: seq<SaleDoc>, totals: map<string, int>, keys: seq<string>)
  {
    && keys == Products(sales)
    && (forall id :: id in totals <==> id in keys)
    && (forall id :: id in totals ==> totals[id] == Total(sales, id))
  }

  /** One more sale: its product's total grows by its quantity, starting from 0 for a new key. */
  lemma {:induction false} TallyStep(sales: seq<SaleDoc>, i: int, totals: map<string, int>, keys: seq<string>,
                                     totals': map<string, int>, keys': seq<string>)
    requires 0 <= i < |sales| && Tallied(sales[..i], totals, keys)
    requires var p := sales[i].product;
      totals' == totals[p := (if p in totals then totals[p] else 0) + sales[i].quantityProduct]
    requires keys' == if sales[i].product in totals then keys else keys + [sales[i].product]
    ensures Tallied(sales[..i + 1], totals', keys')
  {
    var x := sales[i];
    assert sales[..i + 1] == sales[..i] + [x];
    ProductsSnoc(sales[..i], x);
    forall id | id in totals'
      ensures totals'[id] == Total(sales[..i + 1], id)
    {
      TotalSnoc(sales[..i], x, id);
      if id !in totals {
        TotalUnsold(sales[..i], id);
      }
    }
  }

  /**
   * The body of the `forEach`: a key that is absent, or whose total is 0, is set
   * to 0 first, and then the quantity is added. A new key goes after the others.
   */
  method AddSale(totals: map<string, int>, keys: seq<string>, productId: string, quantity: int)
    returns (totals': map<string, int>, keys': seq<string>)
    ensures totals' == totals[productId := (if productId in totals then totals[productId] else 0) + quantity]
    ensures keys' == if productId in totals then keys else keys + [productId]
  {
    totals', keys' := totals, keys;
    if productId !in totals' || totals'[productId] == 0 {
      if productId !in totals' {
        keys' := keys' + [productId];
      }
      totals' := totals'[productId := 0];
    }
    totals' := totals'[productId := totals'[productId] + quantity];
  }

  /**
   * The `forEach` over the returned sales: `productSales` as a map, and the order
   * in which its keys were first created.
   */
  method Tally(sales: seq<SaleDoc>) returns (totals: map<string, int>, keys: seq<string>)
    ensures keys == Products(sales)
    ensures forall id :: id in totals <==> id in keys
    ensures forall id :: id in totals ==> totals[id] == Total(sales, id)
  {
    totals, keys := map[], [];
    var i := 0;
    while i < |sales|
      invariant 0 <= i <= |sales|
      invariant Tallied(sales[..i], totals, keys)
    {
      var totals', keys' := AddSale(totals, keys, sales[i].product, sales[i].quantityProduct);
      TallyStep(sales, i, totals, keys, totals', keys');
      totals, keys := totals', keys';
      i := i + 1;
    }
    assert sales[..i] == sales;
  }

  /**
   * Midway through one insertion pass: `s[..i + 1]` is in order except for the
   * entry being moved, at `j`, whose quantity exceeds every one after it.
   */
  predicate Inserting(s: seq<Entry>, j: int, i: int)
  {
    && 0 <= j <= i < |s|
    && (forall p, q :: 0 <= p < q <= i && p != j && q != j ==> s[p].quantity >= s[q].quantity)
    && (forall q :: j < q <= i ==> s[j].quantity > s[q].quantity)
  }

  /** A pass starts with the entry at `i` behind a sorted prefix. */
  lemma InsertingStart(s: seq<Entry>, i: int)
    requires 0 <= i < |s| && SortedDesc(s[..i])
    ensures Inserting(s, i, i)
  {
    assert forall p :: 0 <= p < i ==> s[..i][p] == s[p];
  }

  /** Swapping the moving entry with a smaller left neighbour keeps the pass's invariant and the contents. */
  lemma InsertingSwap(s: seq<Entry>, j: int, i: int)
    requires Inserting(s, j, i) && j > 0 && s[j - 1].quantity < s[j].quantity
    ensures Inserting(s[j - 1 := s[j]][j := s[j - 1]], j - 1, i)
    ensures multiset(s[j - 1 := s[j]][j := s[j - 1]]) == multiset(s)
  {
  }

  /** The pass stops at the front or behind an entry at least as large, and the prefix is sorted. */
  lemma InsertingDone(s: seq<Entry>, j: int, i: int)
    requires Inserting(s, j, i) && (j == 0 || s[j - 1].quantity >= s[j].quantity)
    ensures SortedDesc(s[..i + 1])
  {
  }

  /** One pass of the insertion sort: moves `a[i]` left past every strictly smaller quantity. */
  method InsertAt(a: array<Entry>, i: int)
    requires 0 <= i < a.Length
    requires SortedDesc(a[..i])
    modifies a
    ensures SortedDesc(a[..i + 1])
    ensures multiset(a[..]) == old(multiset(a[..]))
  {
    InsertingStart(a[..], i);
    var j := i;
    while j > 0 && a[j - 1].quantity < a[j].quantity
      invariant Inserting(a[..], j, i)
      invariant multiset(a[..]) == old(multiset(a[..]))
    {
      ghost var s := a[..];
      InsertingSwap(s, j, i);
      a[j - 1], a[j] := a[j], a[j - 1];
      assert a[..] == s[j - 1 := s[j]][j := s[j - 1]];
      j := j - 1;
    }
    InsertingDone(a[..], j, i);
  }

  /** The comparator `(a, b) => b[1] - a[1]`, applied in place by a stable insertion sort. */
  method SortByQuantity(a: array<Entry>)
    modifies a
    ensures SortedDesc(a[..])
    ensures multiset(a[..]) == old(multiset(a[..]))
  {
    var i := 0;
    while i < a.Length
      invariant 0 <= i <= a.Length
      invariant SortedDesc(a[..i])
      invariant multiset(a[..]) == old(multiset(a[..]))
    {
      InsertAt(a, i);
      i := i + 1;
    }
    assert a[..] == a[..a.Length];
  }

  /**
   * `getTopSellingProducts` without the request and the database: the report for
   * `sales` (every stored sale), the `range` parameter and the current time.
   */
  method TopSellingProducts(sales: seq<SaleDoc>, range: Option<string>, now: DateTime)
    returns (report: seq<Entry>)
    requires now.WellFormed()
    ensures var window := InWindow(sales, RangeStart(range, now), now);
      && SortedDesc(report)
      && multiset(report) == multiset(Aggregate(window))
      && DistinctIds(report)
      && (forall i :: 0 <= i < |report| ==>
            report[i].productId in Products(window) && report[i].quantity == Total(window, report[i].productId))
      && (forall id :: id in Products(window) ==> exists i :: 0 <= i < |report| && report[i].productId == id)
      && EntrySum(report) == SaleQuantity(window)
    ensures sales == [] ==> report == []
  {
    var from := RangeStart(range, now);
    var window := InWindow(sales, from, now);
    var totals, keys := Tally(window);
    var entries := new Entry[|keys|](i requires 0 <= i < |keys| => Entry(keys[i], totals[keys[i]]));
    assert entries[..] == Aggregate(window);
    SortByQuantity(entries);
    report := entries[..];
    RankingEntries(report, window);
    RankingDistinct(report, window);
    RankingSum(report, window);
  }

  // ---------------------------------------------------------------- properties of the report

  /** Sums split over concatenation. */
  lemma {:induction false} EntrySumAppend(a: seq<Entry>, b: seq<Entry>)
    ensures EntrySum(a + b) == EntrySum(a) + EntrySum(b)
  {
    if a == [] {
      assert a + b == b;
    } else {
      assert (a + b)[0] == a[0];
      assert (a + b)[1..] == a[1..] + b;
      EntrySumAppend(a[1..], b);
    }
  }

  /** Taking out the entry at `k` takes its quantity off the sum. */
  lemma {:induction false} EntrySumRemove(b: seq<Entry>, k: int)
    requires 0 <= k < |b|
    ensures EntrySum(b) == b[k].quantity + EntrySum(b[..k] + b[k + 1..])
  {
    var tail := [b[k]] + b[k + 1..];
    assert b == b[..k] + tail;
    EntrySumAppend(b[..k], tail);
    EntrySumAppend(b[..k], b[k + 1..]);
    assert tail[1..] == b[k + 1..];
  }

  /** Taking out the entry at `k` takes one copy of it off the contents. */
  lemma {:induction false} MultisetRemove(b: seq<Entry>, k: int)
    requires 0 <= k < |b|
    ensures multiset(b) == multiset(b[..k] + b[k + 1..]) + multiset{b[k]}
  {
    assert b == b[..k] + [b[k]] + b[k + 1..];
  }

  /** Equal after adding the same element, equal before. */
  lemma MultisetCancel(p: multiset<Entry>, q: multiset<Entry>, x: Entry)
    requires p + multiset{x} == q + multiset{x}
    ensures p == q
  {
    assert forall e :: p[e] == (p + multiset{x})[e] - multiset{x}[e];
    assert forall e :: q[e] == (q + multiset{x})[e] - multiset{x}[e];
  }

  /** Reordering a report does not change its sum. */
  lemma {:induction false} EntrySumPermutation(a: seq<Entry>, b: seq<Entry>)
    requires multiset(a) == multiset(b)
    ensures EntrySum(a) == EntrySum(b)
    decreases |a|
  {
    if a == [] {
      assert |b| == |multiset(b)| == 0;
    } else {
      var x := a[0];
      assert x in multiset(b);
      var k :| 0 <= k < |b| && b[k] == x;
      var rest := b[..k] + b[k + 1..];
      EntrySumRemove(b, k);
      MultisetRemove(b, k);
      assert a == [x] + a[1..];
      assert multiset(a) == multiset(a[1..]) + multiset{x};
      MultisetCancel(multiset(a[1..]), multiset(rest), x);
      EntrySumPermutation(a[1..], rest);
    }
  }

  /** Adding one more sale raises the sum over distinct `ids` by its quantity exactly when its product is one of them. */
  lemma {:induction false} EntriesForSnoc(ids: seq<string>, sales: seq<SaleDoc>, x: SaleDoc)
    requires forall i, j :: 0 <= i < j < |ids| ==> ids[i] != ids[j]
    ensures EntrySum(EntriesFor(ids, sales + [x]))
         == EntrySum(EntriesFor(ids, sales)) + if x.product in ids then x.quantityProduct else 0
  {
    if ids != [] {
      assert ids == [ids[0]] + ids[1..];
      TotalSnoc(sales, x, ids[0]);
      EntriesForSnoc(ids[1..], sales, x);
    }
  }

  /** A sale of a product not sold before adds an entry holding exactly its quantity. */
  lemma {:induction false} AggregateSnocNew(prefix: seq<SaleDoc>, x: SaleDoc)
    requires x.product !in Products(prefix)
    ensures EntrySum(Aggregate(prefix + [x])) == EntrySum(Aggregate(prefix)) + x.quantityProduct
  {
    var sales, ids := prefix + [x], Products(prefix);
    ProductsSnoc(prefix, x);
    EntriesForSnoc(ids, prefix, x);
    var last := Entry(x.product, Total(sales, x.product));
    assert EntriesFor(ids + [x.product], sales) == EntriesFor(ids, sales) + [last];
    EntrySumAppend(EntriesFor(ids, sales), [last]);
    TotalSnoc(prefix, x, x.product);
    TotalUnsold(prefix, x.product);
  }

  /** A sale of a product already sold raises that product's entry by its quantity. */
  lemma {:induction false} AggregateSnocOld(prefix: seq<SaleDoc>, x: SaleDoc)
    requires x.product in Products(prefix)
    ensures EntrySum(Aggregate(prefix + [x])) == EntrySum(Aggregate(prefix)) + x.quantityProduct
  {
    ProductsSnoc(prefix, x);
    EntriesForSnoc(Products(prefix), prefix, x);
  }

  /** The report's sum equals the sum of the quantities sold. */
  lemma {:induction false} AggregateSum(sales: seq<SaleDoc>)
    ensures EntrySum(Aggregate(sales)) == SaleQuantity(sales)
    decreases |sales|
  {
    if sales != [] {
      var prefix, x := sales[..|sales| - 1], sales[|sales| - 1];
      assert sales == prefix + [x];
      AggregateSum(prefix);
      if x.product in Products(prefix) {
        AggregateSnocOld(prefix, x);
      } else {
        AggregateSnocNew(prefix, x);
      }
    }
  }

  /** A report with distinct ids holds each entry at most once. */
  lemma {:induction false} DistinctIdsOnce(s: seq<Entry>, e: Entry)
    requires DistinctIds(s)
    ensures multiset(s)[e] <= 1
  {
    if s != [] {
      assert s == [s[0]] + s[1..];
      assert s[0] !in s[1..];
      DistinctIdsOnce(s[1..], e);
    }
  }

  /** Every entry of a reordering of the totals is a product of the window with its total, and every product is there. */
  lemma RankingEntries(report: seq<Entry>, sales: seq<SaleDoc>)
    requires multiset(report) == multiset(Aggregate(sales))
    ensures forall i :: 0 <= i < |report| ==>
      report[i].productId in Products(sales) && report[i].quantity == Total(sales, report[i].productId)
    ensures forall id :: id in Products(sales) ==> exists i :: 0 <= i < |report| && report[i].productId == id
  {
    var ids := Products(sales);
    forall i | 0 <= i < |report|
      ensures report[i].productId in ids && report[i].quantity == Total(sales, report[i].productId)
    {
      assert report[i] in multiset(Aggregate(sales));
    }
    forall id | id in ids
      ensures exists i :: 0 <= i < |report| && report[i].productId == id
    {
      var k :| 0 <= k < |ids| && ids[k] == id;
      assert Aggregate(sales)[k] in multiset(report);
    }
  }

  /** Two positions holding the same entry make it occur twice. */
  lemma RepeatedEntry(report: seq<Entry>, i: int, j: int)
    requires 0 <= i < j < |report| && report[i] == report[j]
    ensures multiset(report)[report[i]] >= 2
  {
    assert report == report[..j] + [report[j]] + report[j + 1..];
    assert report[i] in report[..j];
  }

  /** A reordering of the totals names each product once. */
  lemma RankingDistinct(report: seq<Entry>, sales: seq<SaleDoc>)
    requires multiset(report) == multiset(Aggregate(sales))
    ensures DistinctIds(report)
  {
    RankingEntries(report, sales);
    forall i, j | 0 <= i < j < |report|
      ensures report[i].productId != report[j].productId
    {
      if report[i].productId == report[j].productId {
        RepeatedEntry(report, i, j);
        DistinctIdsOnce(Aggregate(sales), report[i]);
      }
    }
  }

  /** A reordering of the totals sums to the quantity sold. */
  lemma RankingSum(report: seq<Entry>, sales: seq<SaleDoc>)
    requires multiset(report) == multiset(Aggregate(sales))
    ensures EntrySum(report) == SaleQuantity(sales)
  {
    EntrySumPermutation(report, Aggregate(sales));
    AggregateSum(sales);
  }

  /** The three sales of the controller test: two of "p1" and one of "p2". */
  function TestSales(date: DateTime): seq<SaleDoc>
  {
    [SaleDoc("p1", 5, date), SaleDoc("p2", 3, date), SaleDoc("p1", 2, date)]
  }

  /** The products of the controller test's sales, in order of first sale. */
  lemma TestSalesProducts(date: DateTime)
    ensures Products(TestSales(date)) == ["p1", "p2"]
  {
    var a, b, c := SaleDoc("p1", 5, date), SaleDoc("p2", 3, date), SaleDoc("p1", 2, date);
    assert [a] == [] + [a];
    ProductsSnoc([], a);
    assert [a, b] == [a] + [b];
    ProductsSnoc([a], b);
    assert TestSales(date) == [a, b] + [c];
    ProductsSnoc([a, b], c);
  }

  /** The per-product totals of the controller test's sales. */
  lemma TestSalesTotal(date: DateTime, id: string)
    ensures Total(TestSales(date), id) == if id == "p1" then 7 else if id == "p2" then 3 else 0
  {
    var a, b, c := SaleDoc("p1", 5, date), SaleDoc("p2", 3, date), SaleDoc("p1", 2, date);
    assert "p1" != "p2" by {
      assert "p1"[1] != "p2"[1];
    }
    assert [a] == [] + [a];
    TotalSnoc([], a, id);
    assert Total([a], id) == if id == "p1" then 5 else 0;
    assert [a, b] == [a] + [b];
    TotalSnoc([a], b, id);
    assert Total([a, b], id) == if id == "p1" then 5 else if id == "p2" then 3 else 0;
    assert TestSales(date) == [a, b] + [c];
    TotalSnoc([a, b], c, id);
  }

  /** The totals of the controller test's sales, in order of first sale. */
  lemma TestSalesAggregate(date: DateTime)
    ensures Aggregate(TestSales(date)) == [Entry("p1", 7), Entry("p2", 3)]
  {
    TestSalesProducts(date);
    TestSalesTotal(date, "p1");
    TestSalesTotal(date, "p2");
  }

  /** Two entries with different quantities have one sorted arrangement. */
  lemma OnlySortedPair(report: seq<Entry>, first: Entry, second: Entry)
    requires first.quantity > second.quantity
    requires SortedDesc(report) && multiset(report) == multiset([first, second])
    ensures report == [first, second]
  {
    assert |report| == 2 by {
      assert |multiset(report)| == |multiset([first, second])|;
    }
    assert report == [report[0], report[1]];
    assert report[0] in multiset([first, second]) && report[1] in multiset([first, second]);
  }

  /** The controller test's expected report is the only sorted arrangement of their totals. */
  lemma TestSalesRanking(date: DateTime, report: seq<Entry>)
    requires SortedDesc(report) && multiset(report) == multiset(Aggregate(TestSales(date)))
    ensures report == [Entry("p1", 7), Entry("p2", 3)]
  {
    TestSalesAggregate(date);
    OnlySortedPair(report, Entry("p1", 7), Entry("p2", 3));
  }
}

# LosVoraces domain model in Dafny

This project models the validated domain entities of the LosVoraces shop
(a bookshop and stationery store). It also models the "top-selling products"
report of its sale controller:

- `updateStock`: the stock ledger shared by magazines and school supplies
  (`stock_helper.dfy`).
- `Product`, the base entity (`product.dfy`).
- `Magazine` and `SchoolSupply`: products with a stock that only `updateStock`
  changes (`magazine.dfy`, `school_supply.dfy`).
- `Order`: a purchase from a supplier, with a computed total and a status state
  machine: pending, confirmed, delivered, cancelled (`order.dfy`).
- `Sale`: a completed sale with a computed total and no mutators (`sale.dfy`).
- `Supplier`: e-mail and phone validation, and a catalog of items with unique ids
  that `addToCatalog` and `removeFromCatalog` change (`supplier.dfy`).
- `getTopSellingProducts`, covering three steps (`top_selling.dfy`):
  - the `range` keyword (week, month, quarter, sixmonths, year) is turned into a
    start date;
  - only the sales in `[from, now]` are kept;
  - quantities are summed per product, and the totals are sorted from the largest
    down.

Shared pieces:

- `wrappers.dfy`: `Option`, `Result` and `Outcome`.
- `errors.dfy`: every error the entities throw, with its exact message.
- `js_values.dfy`: the JavaScript values that constructor arguments can be. This
  covers truthiness, `typeof`, `instanceof Date && !isNaN`, `.id` and `{...v}`.
- `calendar.dfy`: the civil calendar that the report's date arithmetic needs.

How the JavaScript is represented:

- A JavaScript class whose fields change after construction becomes a Dafny
  `class`. Its fixed fields are `const` and the changing field is a `var`. This
  applies to Magazine, SchoolSupply, Order (status) and Supplier (catalog).
- Its constructor's validation chain is a pure `Check…` function returning
  `Result`. Each `New…` method allocates an object exactly when that function
  succeeds.
- A thrown `Error` is a `Failure` or `Fail` value carrying an `Errors.Error`.
- Numbers are integers, so prices are in cents.

The report's `forEach` over the sales is a method with a loop over a
`map<string, int>`. The `sort` is an in-place insertion sort on an `array`. Both
are proved against specification functions: `Products`, `Total` and `Aggregate`.

Validation messages say "must be a positive number" for price and stock, but the
code accepts zero (`price < 0` is the test). The model follows the code.

## Model

| member | source | states |
|---|---|---|
| StockHelper.UpdateStock | Version-1.0/model/helpers/stockHelper.js:1-10 | a non-number fails with "Quantity must be a number"; a sum below zero fails with "Stock cannot be negative"; it succeeds exactly when the quantity is a number and the sum is non-negative, and then the new stock is ≥ 0 and differs from the old by the quantity |
| StockHelper.ZeroQuantityKeepsStock | Version-1.0/model/helpers/stockHelper.js:5-9 | adding 0 to a non-negative stock returns it unchanged |
| StockHelper.RestockThenSellRestores | Version-1.0/model/helpers/stockHelper.js:5-9 | adding q and then −q restores the original stock (the two updates are inverse) |
| StockHelper.StockNeverNegative | Version-1.0/model/helpers/stockHelper.js:1-10 | over any series of updates, with failed ones leaving the stock alone, a non-negative stock stays non-negative and moves by exactly the sum of the accepted quantities |
| ProductModel.NewProduct | Version-1.0/model/Product.js:6-14 | succeeds exactly when productId, name and category are all truthy; otherwise fails with the missing-fields error; on success the getters return the arguments |
| MagazineModel.CheckMagazine | Version-1.0/model/Magazine.js:12-41 | succeeds exactly when every argument is acceptable; the result is a valid magazine with category "revista" echoing the arguments; the base product's checks come first; a date error means every other check passed, and once every other check passes a present date fails with "Date must be a valid Date object" exactly when it is not a valid `Date` |
| MagazineModel.MagazinePriceBeforeStock | Version-1.0/model/Magazine.js:18-23 | a price that is not a number, or is negative, is reported before the stock is looked at; with a valid price, a stock that is not a number or is negative gets its own message |
| MagazineModel.MagazineNumberBeforeIssueNumber | Version-1.0/model/Magazine.js:24-29 | a number that is not a number of at least 1 (a string, say, or 0) is reported before the issue number; with a valid number, such an issue number gets its own message |
| MagazineModel.MagazineMissingProperties | Version-1.0/model/Magazine.js:15-17 | a falsy issn, section or date, or an undefined number or issue number, gives "Magazine must have all required properties" |
| MagazineModel.MagazineScenarios | Version-1.0/model/Magazine.js:12-41 | number 0 is refused with the number message; number 1 with the same arguments succeeds with category "revista" |
| MagazineModel.Magazine.constructor | Version-1.0/model/Magazine.js:34-40 | the object's getters return the validated record |
| MagazineModel.Magazine.UpdateStock | Version-1.0/model/Magazine.js:71-74 | the stock becomes what the ledger returns, or stays unchanged when the ledger throws; no other field changes; a valid magazine stays valid |
| MagazineModel.NewMagazine | Version-1.0/model/Magazine.js:12-41 | a fresh magazine holding the validated record exists exactly when validation succeeds; otherwise the validation error is returned |
| SchoolSupplyModel.CheckSchoolSupply | Version-1.0/model/SchoolSupply.js:9-30 | succeeds exactly when every argument is acceptable; the result has category "util escolar" and echoes the arguments; a falsy description becomes ""; with the base product valid, a falsy section or brand gives the missing-properties error; once every other check passes, the description error is raised exactly when the description is truthy and not a string, and it means every other check passed |
| SchoolSupplyModel.SchoolSupplyPriceAndStockBounds | Version-1.0/model/SchoolSupply.js:15-20 | a price that is not a number, or is negative, is reported before the stock; with a valid price, a stock that is not a number or is negative gets its own message |
| SchoolSupplyModel.SchoolSupply.constructor | Version-1.0/model/SchoolSupply.js:25-29 | the object's getters return the validated record |
| SchoolSupplyModel.SchoolSupply.UpdateStock | Version-1.0/model/SchoolSupply.js:52-55 | the stock becomes what the ledger returns, or stays unchanged when the ledger throws; no other field changes; a valid supply stays valid |
| SchoolSupplyModel.NewSchoolSupply | Version-1.0/model/SchoolSupply.js:9-30 | a fresh supply holding the validated record exists exactly when validation succeeds |
| OrderModel.ParseStatus | Version-1.0/model/Order.js:13-18 | a recognised value is exactly the string of that enum entry; an unrecognised value equals no entry's string |
| OrderModel.ParseStatusName | Version-1.0/model/Order.js:13-18 | every entry's string is recognised as that entry |
| OrderModel.NextStatus | Version-1.0/model/Order.js:97-111 | an invalid target fails with "Invalid order status"; a cancelled order accepts nothing; a delivered order accepts exactly "cancelled"; pending and confirmed orders accept every enum value; on success the new status is the requested one |
| OrderModel.RefusedTransitionMessages | Version-1.0/model/Order.js:103-108 | leaving cancelled throws "Cannot update status of a cancelled order"; leaving delivered for anything but cancelled throws "Delivered order can only be cancelled" |
| OrderModel.CancelledIsTerminal | Version-1.0/model/Order.js:103-105 | no series of updates moves a cancelled order |
| OrderModel.DeliveredNeverReopens | Version-1.0/model/Order.js:106-108 | after any series of updates a delivered order is delivered or cancelled |
| OrderModel.OpenOrderReachesEveryStatus | Version-1.0/model/Order.js:97-111 | from pending or confirmed every status, including delivered, is one call away |
| OrderModel.CheckOrder | Version-1.0/model/Order.js:20-55 | succeeds exactly when every argument is acceptable; an undefined status means pending; the product is stored as a shallow copy; total = price × quantity; a falsy description becomes ""; missing fields are reported first; once every other check passes, "Description must be a string" is raised exactly when the description is truthy and not a string |
| OrderModel.OrderDateBeforePrice | Version-1.0/model/Order.js:25-31 | with the required properties present, an invalid date is reported before the price, and a price that is not a number, or is negative, after a valid date |
| OrderModel.OrderQuantityBeforeStatus | Version-1.0/model/Order.js:33-39 | after a valid date and price, a quantity that is not a number of at least 1 is reported before the status, and an unknown status after a valid quantity |
| OrderModel.Order.constructor | Version-1.0/model/Order.js:45-54 | the object's getters return the validated record |
| OrderModel.Order.UpdateStatus | Version-1.0/model/Order.js:97-111 | moves to the status NextStatus allows, or returns its error with the status unchanged; nothing else changes, the total included; a valid order stays valid |
| OrderModel.NewOrder | Version-1.0/model/Order.js:20-55 | a fresh order holding the validated record exists exactly when validation succeeds |
| OrderModel.CancelThenUpdate | Version-1.0/model/Order.js:103-105 | cancelling a pending order succeeds, and any later update throws the cancelled-order error and keeps the status cancelled |
| SaleModel.NewSale | Version-1.0/model/Sale.js:11-44 | succeeds exactly when every argument is acceptable; total = price × quantity; the stored product equals the one passed and has a non-empty string id; missing fields are reported first; a product-id error means every other check passed, and once every other check passes, "Product must have a valid ID" is raised exactly when the product's id is not a non-empty string |
| SaleModel.SaleDateBeforePrice | Version-1.0/model/Sale.js:16-22 | an invalid date is reported before the price, and a price that is not a number, or is negative, after a valid date |
| SaleModel.SaleQuantityBeforeDescription | Version-1.0/model/Sale.js:24-30 | a quantity that is not a number of at least 1 is reported before the description, and a non-string description after a valid quantity |
| SaleModel.SaleProductIdMustBeNonEmptyString | Version-1.0/model/Sale.js:32-34 | with every other argument valid (any description, price and quantity the other checks accept), a product whose id is empty or not a string, or that only has a name, gives "Product must have a valid ID" |
| SupplierModel.EmailTest | Version-1.0/model/Supplier.js:15-16 | `emailRegex.test(email)` on a string, computed by splitting at the first `@`; EmailTestMatchesPattern proves it accepts exactly the regular expression's language |
| SupplierModel.EmailTestSound | Version-1.0/model/Supplier.js:15-16 | every string the e-mail check accepts has the shape `[^\s@]+@[^\s@]+\.[^\s@]+` |
| SupplierModel.EmailTestComplete | Version-1.0/model/Supplier.js:15-16 | every string of that shape passes the e-mail check |
| SupplierModel.EmailTestMatchesPattern | Version-1.0/model/Supplier.js:15-18 | the executable e-mail check and the declarative pattern agree on every string |
| SupplierModel.EmailExample | Version-1.0/model/Supplier.js:15-18 | "test@example.com" passes |
| SupplierModel.InvalidEmailExample | Version-1.0/model/Supplier.js:15-18 | "invalid-email" fails |
| SupplierModel.StripNonDigits | Version-1.0/model/Supplier.js:21 | the result has only digits, is no longer than the input, and equals the input when that is all digits |
| SupplierModel.StripNonDigitsKeepsDigits | Version-1.0/model/Supplier.js:21 | each digit occurs in the result exactly as often as in the input, and no other character occurs |
| SupplierModel.StripNonDigitsIdempotent | Version-1.0/model/Supplier.js:21 | stripping twice is the same as stripping once |
| SupplierModel.StripNonDigitsAppend | Version-1.0/model/Supplier.js:21 | stripping distributes over concatenation |
| SupplierModel.FormattedPhoneDigits | Version-1.0/model/Supplier.js:21-24 | "(123) 456-7890" keeps 10 digits, so it passes the length test |
| SupplierModel.AreaCodeDigits | Version-1.0/model/Supplier.js:21 | "(123) " keeps 3 digits |
| SupplierModel.LocalNumberDigits | Version-1.0/model/Supplier.js:21 | "456-7890" keeps 7 digits |
| SupplierModel.ShortPhoneDigits | Version-1.0/model/Supplier.js:21-24 | "123-456" keeps only 6 digits, so it is refused as too short |
| SupplierModel.SupplierPhoneCheck | Version-1.0/model/Supplier.js:20-24 | once the required properties and the e-mail pass, a non-string phone fails in `replace`, and a string phone is refused as too short exactly when it has fewer than 9 digits |
| SupplierModel.HasId | Version-1.0/model/Supplier.js:66 | `catalog.some(existing => existing.id === id)`: some entry's id equals the given one; FindIndex's contract ties it to the search result |
| SupplierModel.IsCatalogItem | Version-1.0/model/Supplier.js:63 | the item passes when none of `!item`, `typeof item !== 'object'` and `!item.id` holds: a truthy object value with a truthy id |
| SupplierModel.FindIndex | Version-1.0/model/Supplier.js:73 | returns the first index whose id matches, and −1 exactly when no entry has that id |
| SupplierModel.AddItem | Version-1.0/model/Supplier.js:62-70 | succeeds exactly when the item is well formed and its id is new; a malformed item fails with "Invalid catalog item"; a valid item fails as a duplicate exactly when its id is present; on success the item is appended, earlier entries are unchanged, and unique ids stay unique |
| SupplierModel.RemoveItem | Version-1.0/model/Supplier.js:72-78 | fails with "Item not found in catalog" exactly when no entry has the id; otherwise exactly the first match is removed: the length drops by one, the entries before it keep their places, the entries after it move down by one, and together with the removed entry the rest holds the same multiset; with unique ids the id is then gone |
| SupplierModel.SpliceOut | Version-1.0/model/Supplier.js:77 | `splice(index, 1)` leaves one entry fewer, shifts the later entries down by one, and together with the removed entry holds the same multiset as before |
| SupplierModel.SpliceOutUnique | Version-1.0/model/Supplier.js:77 | splicing an entry out of a catalog with unique ids keeps them unique and removes that id entirely |
| SupplierModel.AddThenRemoveRestores | Version-1.0/model/Supplier.js:62-78 | removing the id of an item just added gives back the original catalog |
| SupplierModel.AddTwiceFails | Version-1.0/model/Supplier.js:66-68 | adding an item with an id just added fails as a duplicate |
| SupplierModel.RemoveTwiceFails | Version-1.0/model/Supplier.js:72-78 | with unique ids, removing the same id twice fails the second time |
| SupplierModel.CheckSupplier | Version-1.0/model/Supplier.js:9-36 | succeeds exactly when the required properties are truthy, the e-mail matches the pattern, the phone has ≥ 9 digits and the catalog is an array or undefined; an undefined catalog is empty; entries are stored as shallow copies; the result is a valid supplier; with the required properties present, "Invalid email format" is raised exactly when the e-mail is not a string matching the pattern; once e-mail and phone pass, "Catalog must be an array" is raised exactly when the catalog is neither undefined nor an array |
| SupplierModel.Supplier.constructor | Version-1.0/model/Supplier.js:30-35 | the object's getters return the validated record |
| SupplierModel.Supplier.AddToCatalog | Version-1.0/model/Supplier.js:62-70 | the catalog becomes AddItem's result, or is unchanged with its error; no other field changes; validity is kept |
| SupplierModel.Supplier.RemoveFromCatalog | Version-1.0/model/Supplier.js:72-78 | the catalog becomes RemoveItem's result, or is unchanged with its error; no other field changes; validity is kept |
| SupplierModel.Supplier.GetCatalog | Version-1.0/model/Supplier.js:58-60 | returns a freshly allocated array with the catalog's entries, so writing to it cannot reach the supplier |
| SupplierModel.NewSupplier | Version-1.0/model/Supplier.js:9-36 | a fresh supplier holding the validated record exists exactly when validation succeeds |
| JsValues.TypeOf | Version-1.0/model/Magazine.js:18 | `typeof v`: "undefined", "boolean", "number", "string", and "object" for null, dates, arrays and plain objects |
| JsValues.Truthy | Version-1.0/model/Product.js:7 | the negation of `!v`: false exactly for undefined, null, false, 0 and the empty string |
| JsValues.IsValidDate | Version-1.0/model/Magazine.js:30 | `v instanceof Date && !isNaN(v)`: a `Date` holding a well-formed instant |
| JsValues.IdOf | Version-1.0/model/Sale.js:32 | `v.id`: the `id` property of a plain object, and undefined for every other value |
| JsValues.Spread | Version-1.0/model/Order.js:47 | `{...v}` is always an object, and copying an object gives an equal object |
| Calendar.WeekBefore | Version-1.1/backend/controller/SaleController.js:244-245 | the date 7 days earlier: exactly 7 fewer days in the day count, the same time of day, well formed and not after the original |
| Calendar.MonthStart | Version-1.1/backend/controller/SaleController.js:231-237 | the 1st of the month k months earlier at midnight, with year roll-over: the month count drops by exactly k, and the result is well formed and not after the original |
| Calendar.NotAfterIsChronological | Version-1.1/backend/controller/SaleController.js:248 | the order used for `$gte`/`$lte` is the chronological one: an earlier day count, or the same day and no later time |
| Calendar.DaysBeforeYearGrows | Version-1.1/backend/controller/SaleController.js:244-245 | later years start on later days |
| TopSelling.RangeStart | Version-1.1/backend/controller/SaleController.js:224-246 | "month" is the 1st of this month; "quarter" and "sixmonths" are the 1st of the month 2 or 5 back; "year" is 1 January; anything else, or no keyword, is exactly 7 days back; the start is never after now |
| TopSelling.InWindow | Version-1.1/backend/controller/SaleController.js:248 | keeps each sale with from ≤ date ≤ now as often as it occurs, and drops every other sale |
| TopSelling.Products | Version-1.1/backend/controller/SaleController.js:252-262 | the product ids of the sales are listed without repetition |
| TopSelling.ProductsCover | Version-1.1/backend/controller/SaleController.js:252-262 | an id is listed exactly when some sale is of that product |
| TopSelling.TotalUnsold | Version-1.1/backend/controller/SaleController.js:253-259 | a product with no sale totals 0 |
| TopSelling.EntriesFor | Version-1.1/backend/controller/SaleController.js:262-264 | one entry per id, carrying that id's total |
| TopSelling.ProductsSnoc | Version-1.1/backend/controller/SaleController.js:256-258 | a new sale adds its product id at the end exactly when the id is new |
| TopSelling.TotalSnoc | Version-1.1/backend/controller/SaleController.js:259 | a new sale raises only its own product's total, by its quantity |
| TopSelling.AddSale | Version-1.1/backend/controller/SaleController.js:253-259 | a new key is appended to the key order and starts from 0; the sale's quantity is added to its key's value; every other key keeps its value |
| TopSelling.TallyStep | Version-1.1/backend/controller/SaleController.js:253-260 | one more sale keeps the dictionary equal to the keys and totals of the sales seen so far |
| TopSelling.Tally | Version-1.1/backend/controller/SaleController.js:250-260 | the dictionary has exactly the products sold as keys, in order of first sale, and each value is that product's total |
| TopSelling.InsertAt | Version-1.1/backend/controller/SaleController.js:262-263 | one insertion pass extends the sorted prefix by one entry and keeps the array's contents |
| TopSelling.SortByQuantity | Version-1.1/backend/controller/SaleController.js:262-263 | the array ends non-increasing in quantity and is a permutation of what it held |
| TopSelling.TopSellingProducts | Version-1.1/backend/controller/SaleController.js:224-264 | the report for the window is sorted non-increasing, is a permutation of the per-product totals, names each product once, covers every product sold in the window with its total, sums to the quantity sold in the window, and is empty when there are no sales |
| TopSelling.EntrySumPermutation | Version-1.1/backend/controller/SaleController.js:262-263 | reordering the entries keeps their sum |
| TopSelling.AggregateSum | Version-1.1/backend/controller/SaleController.js:252-260 | the per-product totals sum to the sum of the quantities sold |
| TopSelling.RankingEntries | Version-1.1/backend/controller/SaleController.js:252-264 | every entry of a reordered report is a product sold with its total, and every product sold has an entry |
| TopSelling.RankingDistinct | Version-1.1/backend/controller/SaleController.js:252-264 | a reordered report names each product once |
| TopSelling.RankingSum | Version-1.1/backend/controller/SaleController.js:252-264 | a reordered report sums to the quantity sold |
| TopSelling.TestSalesAggregate | Version-1.1/backend/tests/unit/controller/SaleController.test.js:204-224 | sales p1:5, p2:3, p1:2 total p1:7 and p2:3 |
| TopSelling.TestSalesRanking | Version-1.1/backend/tests/unit/controller/SaleController.test.js:204-224 | the only sorted report for those sales is [{p1, 7}, {p2, 3}] |

## Left out

- CRUD handlers, routes, Express requests and responses, Mongoose persistence and the error-500 path are not part of this model.
- The database query `Sale.find({ date: { $gte, $lte } })` is a filter over a sequence of stored sales.
- The clock (`new Date()`) is a parameter. Time zones, daylight saving and string-to-date parsing are not modelled. Dates are calendar day plus milliseconds into the day.
- Numbers are integers, and prices are in cents. NaN, Infinity and fractional values are not modelled.
- A sale document with a missing or non-numeric `quantityProduct` is not modelled: quantities are integers. In JavaScript a `null` quantity adds 0, a string quantity turns the total into a string, and an `undefined` one makes it NaN, which the next sale of that product resets to 0 because NaN is falsy.
- Product ids that name members inherited from `Object.prototype` (`constructor`, `toString`, `__proto__`) are not modelled: `productSales` is a plain object, so for such an id the first lookup reads an inherited value, the reset to 0 is skipped and `+=` concatenates strings, and a `__proto__` key is never stored. The model's dictionary starts empty for every id.
- Equality of JavaScript values is structural. JavaScript `===` compares objects by reference, so two distinct objects with equal contents count as different ids in the catalog and the status check; the model treats them as equal.
- Class inheritance (`Magazine`, `SchoolSupply` extending `Product`) is a `base: Product` field.
- Getters that return `{...product}` return the value itself: there is no aliasing between values.
- SupplierModel.Supplier.GetCatalog: copies only the array. It does not model that JavaScript elements are shared objects, because catalog entries are values here.
- SupplierModel.CheckSupplier: a non-string e-mail always fails. In JavaScript, `test` first converts the value to a string, so an array holding one valid address would pass.
- SupplierModel.EmailTestMatchesPattern: `\s` is taken as the ASCII whitespace characters (space, tab, line feed, carriage return, vertical tab, form feed). Unicode spaces are not included.
- TopSelling.TopSellingProducts: the order of products with equal totals is not constrained. JavaScript's stable sort keeps them in `Object.entries` order, which lists integer-like keys first. The model states the report is sorted and a permutation of the totals.
- The `range` query parameter is an optional string. An array-valued parameter, like an unknown keyword, falls through to the week default, which is what `switch` does with it.
- `Book.js` and the per-version duplicates of these models are not part of this model.

/** `Supplier`: contact data checked at construction, and a catalog list changed in place. */
module SupplierModel {
  import opened Wrappers
  import opened Errors
  import opened JsValues

  // ---------------------------------------------------------------- e-mail

  /** `\s`, restricted to ASCII whitespace. */
  predicate IsSpace(c: char)
  {
    c == ' ' || c == '\t' || c == '\n' || c == '\r' || c == '\U{B}' || c == '\U{C}'
  }

  /** Every character is matched by `[^\s@]`. */
  predicate NoSpaceOrAt(s: string)
  {
    forall i :: 0 <= i < |s| ==> !IsSpace(s[i]) && s[i] != '@'
  }

  /**
   * The language of `/^[^\s@]+@[^\s@]+\.[^\s@]+$/`: a non-empty local part, `@`, and
   * a domain made of two non-empty parts around a dot, with no whitespace and no
   * further `@` anywhere.
   */
  ghost predicate MatchesEmailPattern(s: string)
  {
    exists at, dot ::
      && 0 < at && at + 1 < dot && dot + 1 < |s|
      && s[at] == '@' && s[dot] == '.'
      && NoSpaceOrAt(s[..at]) && NoSpaceOrAt(s[at + 1..dot]) && NoSpaceOrAt(s[dot + 1..])
  }

  /** The index of the first occurrence of `c`, or -1. */
  function FirstIndexOf(s: string, c: char): (i: int)
    ensures -1 <= i < |s|
    ensures i >= 0 ==> s[i] == c && forall j :: 0 <= j < i ==> s[j] != c
    ensures i == -1 ==> forall j :: 0 <= j < |s| ==> s[j] != c
  {
    if s == [] then -1
    else if s[0] == c then 0
    else
      var k := FirstIndexOf(s[1..], c);
      if k == -1 then -1 else k + 1
  }

  /** `emailRegex.test(email)` on a string: split at the first `@` and check both sides. */
  predicate EmailTest(s: string)
  {
    var at := FirstIndexOf(s, '@');
    && at > 0
    && NoSpaceOrAt(s[..at])
    && NoSpaceOrAt(s[at + 1..])
    && exists k :: at + 1 < k < |s| - 1 && s[k] == '.'
  }

  /** A separator that `[^\s@]` matches splits the property between the two sides. */
  lemma NoSpaceOrAtAround(u: string, c: char, v: string)
    requires !IsSpace(c) && c != '@'
    ensures NoSpaceOrAt(u + [c] + v) <==> NoSpaceOrAt(u) && NoSpaceOrAt(v)
  {
    var w := u + [c] + v;
    if NoSpaceOrAt(w) {
      assert forall i :: 0 <= i < |u| ==> u[i] == w[i];
      assert forall i :: 0 <= i < |v| ==> v[i] == w[|u| + 1 + i];
    }
  }

  /** Every string the check accepts has the shape of the pattern. */
  lemma EmailTestSound(s: string)
    requires EmailTest(s)
    ensures MatchesEmailPattern(s)
  {
    var at := FirstIndexOf(s, '@');
    var dot :| at + 1 < dot < |s| - 1 && s[dot] == '.';
    assert s[at + 1..] == s[at + 1..dot] + [s[dot]] + s[dot + 1..];
    NoSpaceOrAtAround(s[at + 1..dot], s[dot], s[dot + 1..]);
    assert 0 < at && at + 1 < dot && dot + 1 < |s| && s[at] == '@' && s[dot] == '.'
      && NoSpaceOrAt(s[..at]) && NoSpaceOrAt(s[at + 1..dot]) && NoSpaceOrAt(s[dot + 1..]);
  }

  /** Every string of the pattern's shape passes the check: its only `@` is the first one. */
  lemma EmailTestComplete(s: string, a: int, dot: int)
    requires 0 < a && a + 1 < dot && dot + 1 < |s| && s[a] == '@' && s[dot] == '.'
    requires NoSpaceOrAt(s[..a]) && NoSpaceOrAt(s[a + 1..dot]) && NoSpaceOrAt(s[dot + 1..])
    ensures EmailTest(s)
  {
    var at := FirstIndexOf(s, '@');
    if at != a {
      assert false;
    }
    assert s[a + 1..] == s[a + 1..dot] + [s[dot]] + s[dot + 1..];
    NoSpaceOrAtAround(s[a + 1..dot], s[dot], s[dot + 1..]);
    assert at + 1 < dot < |s| - 1 && s[dot] == '.';
  }

  /** The check accepts exactly the strings the pattern describes. */
  lemma EmailTestMatchesPattern(s: string)
    ensures EmailTest(s) <==> MatchesEmailPattern(s)
  {
    if EmailTest(s) {
      EmailTestSound(s);
    }
    if MatchesEmailPattern(s) {
      var a, dot :| && 0 < a && a + 1 < dot && dot + 1 < |s|
                    && s[a] == '@' && s[dot] == '.'
                    && NoSpaceOrAt(s[..a]) && NoSpaceOrAt(s[a + 1..dot]) && NoSpaceOrAt(s[dot + 1..]);
      EmailTestComplete(s, a, dot);
    }
  }

  /** The address of the supplier tests passes. */
  lemma EmailExample()
    ensures EmailTest("test@example.com")
  {
    var s := "test@example.com";
    assert s[..4] == "test" && s[5..12] == "example" && s[13..] == "com";
    EmailTestComplete(s, 4, 12);
  }

  /** The malformed address of the supplier tests, which has no `@`, fails. */
  lemma InvalidEmailExample()
    ensures !EmailTest("invalid-email")
  {
    var s := "invalid-email";
    assert s == "invalid" + ['-'] + "email";
    assert '@' !in "invalid" && '@' !in "email";
    assert '@' !in s;
    assert FirstIndexOf(s, '@') == -1;
  }

  // ---------------------------------------------------------------- phone

  predicate IsDigit(c: char)
  {
    '0' <= c <= '9'
  }

  /** `s.replace(/\D/g, '')`: the ASCII digits of `s`, in order. */
  function StripNonDigits(s: string): (r: string)
    ensures |r| <= |s|
    ensures forall i :: 0 <= i < |r| ==> IsDigit(r[i])
    ensures (forall i :: 0 <= i < |s| ==> IsDigit(s[i])) ==> r == s
  {
    if s == [] then []
    else (if IsDigit(s[0]) then [s[0]] else []) + StripNonDigits(s[1..])
  }

  /** Stripping keeps every digit of the input as often as it occurs there, and nothing else. */
  lemma {:induction false} StripNonDigitsKeepsDigits(s: string, c: char)
    ensures multiset(StripNonDigits(s))[c] == if IsDigit(c) then multiset(s)[c] else 0
    decreases |s|
  {
    if s != [] {
      assert s == [s[0]] + s[1..];
      StripNonDigitsKeepsDigits(s[1..], c);
    }
  }

  /** Stripping is idempotent: the digits of the digits are the digits. */
  lemma StripNonDigitsIdempotent(s: string)
    ensures StripNonDigits(StripNonDigits(s)) == StripNonDigits(s)
  {
  }

  /** Stripping distributes over concatenation, so digits are counted wherever they stand. */
  lemma {:induction false} StripNonDigitsAppend(a: string, b: string)
    ensures StripNonDigits(a + b) == StripNonDigits(a) + StripNonDigits(b)
    decreases |a|
  {
    if a == [] {
      assert a + b == b;
    } else {
      assert (a + b)[0] == a[0];
      assert (a + b)[1..] == a[1..] + b;
      StripNonDigitsAppend(a[1..], b);
    }
  }

  /** The area-code part "(123) " keeps its 3 digits. */
  lemma AreaCodeDigits()
    ensures |StripNonDigits("(123) ")| == 3
  {
  }

  /** The local part "456-7890" keeps its 7 digits. */
  lemma LocalNumberDigits()
    ensures |StripNonDigits("456-7890")| == 7
  {
  }

  /** The accepted phone number of the supplier tests, "(123) 456-7890", keeps its 10 digits. */
  lemma FormattedPhoneDigits()
    ensures |StripNonDigits("(123) 456-7890")| == 10
  {
    var area, local := "(123) ", "456-7890";
    assert "(123) 456-7890" == area + local;
    StripNonDigitsAppend(area, local);
    AreaCodeDigits();
    LocalNumberDigits();
  }

  /** The refused phone number of the supplier tests, "123-456", keeps only 6 digits. */
  lemma ShortPhoneDigits()
    ensures |StripNonDigits("123-456")| == 6
  {
    assert "123-456" == "123" + "-456";
    StripNonDigitsAppend("123", "-456");
  }

  // ---------------------------------------------------------------- catalog

  /** `catalog.some(existing => existing.id === id)`. */
  predicate HasId(catalog: seq<JsValue>, id: JsValue)
  {
    exists i :: 0 <= i < |catalog| && IdOf(catalog[i]) == id
  }

  /** No two entries share an id. */
  predicate UniqueIds(catalog: seq<JsValue>)
  {
    forall i, j :: 0 <= i < j < |catalog| ==> IdOf(catalog[i]) != IdOf(catalog[j])
  }

  /** `item` passes `addToCatalog`'s shape check: a non-null object with a truthy `id`. */
  predicate IsCatalogItem(item: JsValue)
  {
    Truthy(item) && TypeOf(item) == ObjectType && Truthy(IdOf(item))
  }

  /** `catalog.findIndex(item => item.id === id)`. */
  function FindIndex(catalog: seq<JsValue>, id: JsValue): (i: int)
    ensures -1 <= i < |catalog|
    ensures i >= 0 ==> IdOf(catalog[i]) == id && forall j :: 0 <= j < i ==> IdOf(catalog[j]) != id
    ensures i == -1 <==> !HasId(catalog, id)
  {
    if catalog == [] then -1
    else if IdOf(catalog[0]) == id then 0
    else
      var k := FindIndex(catalog[1..], id);
      assert forall j :: 1 <= j < |catalog| ==> catalog[j] == catalog[1..][j - 1];
      if k == -1 then -1 else k + 1
  }

  /**
   * The catalog `addToCatalog(item)` leaves, or the error it throws: malformed
   * items first, then duplicate ids; otherwise a copy of the item goes at the end.
   */
  function AddItem(catalog: seq<JsValue>, item: JsValue): (r: Result<seq<JsValue>, Error>)
    ensures r.Success? <==> IsCatalogItem(item) && !HasId(catalog, IdOf(item))
    ensures !IsCatalogItem(item) ==> r == Failure(InvalidCatalogItem)
    ensures IsCatalogItem(item) ==> (r == Failure(DuplicateCatalogItem) <==> HasId(catalog, IdOf(item)))
    ensures r.Success? ==>
      && |r.value| == |catalog| + 1 && r.value[..|catalog|] == catalog
      && r.value[|catalog|] == item && IdOf(r.value[|catalog|]) == IdOf(item)
    ensures r.Success? && UniqueIds(catalog) ==> UniqueIds(r.value)
  {
    if !Truthy(item) || TypeOf(item) != ObjectType || !Truthy(IdOf(item)) then
      Failure(InvalidCatalogItem)
    else if HasId(catalog, IdOf(item)) then
      Failure(DuplicateCatalogItem)
    else
      Success(catalog + [Spread(item)])
  }

  /** Splicing out position `index` keeps every other entry, in order. */
  lemma SpliceOut(catalog: seq<JsValue>, index: int)
    requires 0 <= index < |catalog|
    ensures var rest := catalog[..index] + catalog[index + 1..];
      && |rest| == |catalog| - 1
      && (forall j :: 0 <= j < index ==> rest[j] == catalog[j])
      && (forall j :: index <= j < |rest| ==> rest[j] == catalog[j + 1])
      && multiset(rest) + multiset{catalog[index]} == multiset(catalog)
  {
    assert catalog == catalog[..index] + [catalog[index]] + catalog[index + 1..];
  }

  /** Splicing an entry out of a catalog with unique ids leaves unique ids, none of them the removed one's. */
  lemma SpliceOutUnique(catalog: seq<JsValue>, index: int)
    requires 0 <= index < |catalog|
    ensures UniqueIds(catalog) ==>
      && UniqueIds(catalog[..index] + catalog[index + 1..])
      && !HasId(catalog[..index] + catalog[index + 1..], IdOf(catalog[index]))
  {
    if UniqueIds(catalog) {
      SpliceOut(catalog, index);
      var rest := catalog[..index] + catalog[index + 1..];
      assert forall j :: 0 <= j < |rest| ==> rest[j] == catalog[if j < index then j else j + 1];
    }
  }

  /**
   * The catalog `removeFromCatalog(id)` leaves, or the error it throws: the first
   * entry with that id is spliced out and the others keep their order.
   */
  function RemoveItem(catalog: seq<JsValue>, id: JsValue): (r: Result<seq<JsValue>, Error>)
    ensures r.Failure? <==> !HasId(catalog, id)
    ensures r.Failure? ==> r.error == CatalogItemNotFound
    ensures r.Success? ==> |r.value| == |catalog| - 1
    ensures r.Success? ==> var k := FindIndex(catalog, id);
      && (forall j :: 0 <= j < k ==> r.value[j] == catalog[j])
      && (forall j :: k <= j < |r.value| ==> r.value[j] == catalog[j + 1])
    ensures r.Success? ==> multiset(r.value) + multiset{catalog[FindIndex(catalog, id)]} == multiset(catalog)
    ensures r.Success? && UniqueIds(catalog) ==> UniqueIds(r.value) && !HasId(r.value, id)
  {
    var index := FindIndex(catalog, id);
    if index == -1 then
      Failure(CatalogItemNotFound)
    else
      SpliceOut(catalog, index);
      SpliceOutUnique(catalog, index);
      Success(catalog[..index] + catalog[index + 1..])
  }

  /** Adding an item and then removing its id gives back the catalog: the two are inverse. */
  lemma AddThenRemoveRestores(catalog: seq<JsValue>, item: JsValue)
    requires AddItem(catalog, item).Success?
    ensures RemoveItem(AddItem(catalog, item).value, IdOf(item)) == Success(catalog)
  {
    var added := AddItem(catalog, item).value;
    assert IdOf(added[|catalog|]) == IdOf(item);
    var index := FindIndex(added, IdOf(item));
    assert index == |catalog|;
    assert added[..index] == catalog;
    assert added[index + 1..] == [];
    assert added[..index] + added[index + 1..] == catalog;
  }

  /** Adding the same id twice fails the second time. */
  lemma AddTwiceFails(catalog: seq<JsValue>, item: JsValue, again: JsValue)
    requires AddItem(catalog, item).Success?
    requires IsCatalogItem(again) && IdOf(again) == IdOf(item)
    ensures AddItem(AddItem(catalog, item).value, again) == Failure(DuplicateCatalogItem)
  {
    var added := AddItem(catalog, item).value;
    assert IdOf(added[|catalog|]) == IdOf(again);
  }

  /** With unique ids, removing the same id twice fails the second time. */
  lemma RemoveTwiceFails(catalog: seq<JsValue>, id: JsValue)
    requires UniqueIds(catalog) && RemoveItem(catalog, id).Success?
    ensures RemoveItem(RemoveItem(catalog, id).value, id) == Failure(CatalogItemNotFound)
  {
  }

  // ---------------------------------------------------------------- supplier

  /** The values a supplier's getters return. */
  datatype SupplierRecord = SupplierRecord(
    supplierId: JsValue, name: JsValue, phoneNumber: string, email: string, category: JsValue,
    catalog: seq<JsValue>)

  /** What every constructed supplier satisfies. */
  ghost predicate ValidSupplier(s: SupplierRecord)
  {
    && Truthy(s.supplierId) && Truthy(s.name) && Truthy(s.category)
    && MatchesEmailPattern(s.email)
    && |StripNonDigits(s.phoneNumber)| >= 9
    && forall i :: 0 <= i < |s.catalog| ==> s.catalog[i].Obj?
  }

  /**
   * The validation chain of `new Supplier(...)`: required properties, the e-mail
   * pattern, the phone digits, then the catalog (undefined means empty), whose
   * entries are stored as shallow copies.
   */
  function CheckSupplier(supplierId: JsValue, name: JsValue, phoneNumber: JsValue, email: JsValue,
                         category: JsValue, catalog: JsValue)
    : (r: Result<SupplierRecord, Error>)
    ensures !Truthy(supplierId) || !Truthy(name) || !Truthy(phoneNumber) || !Truthy(email) || !Truthy(category)
            ==> r == Failure(SupplierMissingFields)
    ensures r.Success? <==>
      && Truthy(supplierId) && Truthy(name) && Truthy(category)
      && email.Str? && MatchesEmailPattern(email.s)
      && phoneNumber.Str? && |StripNonDigits(phoneNumber.s)| >= 9
      && (catalog == Undefined || catalog.Arr?)
    ensures r.Success? ==>
      && r.value.supplierId == supplierId && r.value.name == name && r.value.category == category
      && Str(r.value.email) == email && Str(r.value.phoneNumber) == phoneNumber
      && (catalog == Undefined ==> r.value.catalog == [])
      && (catalog.Arr? ==>
            (&& |r.value.catalog| == |catalog.items|
             && forall i :: 0 <= i < |catalog.items| ==> r.value.catalog[i] == Spread(catalog.items[i])))
    ensures r.Success? ==> ValidSupplier(r.value)
    // with the required properties present, the e-mail is checked first
    ensures Truthy(supplierId) && Truthy(name) && Truthy(phoneNumber) && Truthy(email) && Truthy(category) ==>
      (r == Failure(InvalidEmail) <==> !(email.Str? && MatchesEmailPattern(email.s)))
    // and the catalog last: anything but undefined or an array is refused
    ensures && Truthy(supplierId) && Truthy(name) && Truthy(category)
            && email.Str? && MatchesEmailPattern(email.s) && phoneNumber.Str? && |StripNonDigits(phoneNumber.s)| >= 9
            ==> (r == Failure(CatalogNotArray) <==> catalog != Undefined && !catalog.Arr?)
  {
    if !Truthy(supplierId) || !Truthy(name) || !Truthy(phoneNumber) || !Truthy(email) || !Truthy(category) then
      Failure(SupplierMissingFields)
    else if !email.Str? || !EmailTest(email.s) then
      EmailTestMatchesPattern(if email.Str? then email.s else "");
      Failure(InvalidEmail)
    else if !phoneNumber.Str? then
      Failure(PhoneNotString)
    else if |StripNonDigits(phoneNumber.s)| < 9 then
      Failure(PhoneTooShort)
    else
      EmailTestMatchesPattern(email.s);
      var catalog := if catalog == Undefined then Arr([]) else catalog;
      if !catalog.Arr? then
        Failure(CatalogNotArray)
      else
        var items := catalog.items;
        Success(SupplierRecord(supplierId, name, phoneNumber.s, email.s, category,
                               seq(|items|, i requires 0 <= i < |items| => Spread(items[i]))))
  }

  /**
   * Once the required properties and the e-mail pass, the phone number decides:
   * a non-string one fails in `replace`, one with fewer than nine digits is too short.
   */
  lemma SupplierPhoneCheck(supplierId: JsValue, name: JsValue, phoneNumber: JsValue, email: string,
                           category: JsValue, catalog: JsValue)
    requires Truthy(supplierId) && Truthy(name) && Truthy(phoneNumber) && Truthy(category)
    requires MatchesEmailPattern(email)
    ensures !phoneNumber.Str? ==>
      CheckSupplier(supplierId, name, phoneNumber, Str(email), category, catalog) == Failure(PhoneNotString)
    ensures phoneNumber.Str? ==>
      (CheckSupplier(supplierId, name, phoneNumber, Str(email), category, catalog) == Failure(PhoneTooShort)
       <==> |StripNonDigits(phoneNumber.s)| < 9)
  {
    EmailTestMatchesPattern(email);
  }

  /** A supplier object: only the catalog changes after construction. */
  class Supplier {
    const supplierId: JsValue
    const name: JsValue
    const phoneNumber: string
    const email: string
    const category: JsValue
    var catalog: seq<JsValue>

    /** What the getters return (the catalog getter returns a copy of this list). */
    function Record(): SupplierRecord
      reads this
    {
      SupplierRecord(supplierId, name, phoneNumber, email, category, catalog)
    }

    constructor (rec: SupplierRecord)
      ensures Record() == rec
    {
      supplierId, name, phoneNumber, email, category := rec.supplierId, rec.name, rec.phoneNumber, rec.email, rec.category;
      catalog := rec.catalog;
    }

    /** `addToCatalog(item)`: appends a copy, or throws and leaves the catalog as it was. */
    method AddToCatalog(item: JsValue) returns (outcome: Outcome<Error>)
      modifies this
      ensures var r := AddItem(old(catalog), item);
        && (r.Success? ==> outcome == Pass && catalog == r.value)
        && (r.Failure? ==> outcome == Fail(r.error) && catalog == old(catalog))
      ensures Record() == old(Record()).(catalog := catalog)
      ensures ValidSupplier(old(Record())) ==> ValidSupplier(Record())
    {
      if !Truthy(item) || TypeOf(item) != ObjectType || !Truthy(IdOf(item)) {
        return Fail(InvalidCatalogItem);
      }
      if HasId(catalog, IdOf(item)) {
        return Fail(DuplicateCatalogItem);
      }
      catalog := catalog + [Spread(item)];
      outcome := Pass;
    }

    /** `removeFromCatalog(itemId)`: splices out the first entry with that id, or throws and changes nothing. */
    method RemoveFromCatalog(itemId: JsValue) returns (outcome: Outcome<Error>)
      modifies this
      ensures var r := RemoveItem(old(catalog), itemId);
        && (r.Success? ==> outcome == Pass && catalog == r.value)
        && (r.Failure? ==> outcome == Fail(r.error) && catalog == old(catalog))
      ensures Record() == old(Record()).(catalog := catalog)
      ensures ValidSupplier(old(Record())) ==> ValidSupplier(Record())
    {
      var index := FindIndex(catalog, itemId);
      if index == -1 {
        return Fail(CatalogItemNotFound);
      }
      catalog := catalog[..index] + catalog[index + 1..];
      outcome := Pass;
    }

    /** The `catalog` getter: a new list with the same entries, so changing it cannot reach this object. */
    method GetCatalog() returns (copy: array<JsValue>)
      ensures fresh(copy) && copy[..] == catalog
    {
      copy := new JsValue[|catalog|](i requires 0 <= i < |catalog| reads this => catalog[i]);
    }
  }

  /** `new Supplier(...)`: an object exists exactly when validation succeeds. */
  method NewSupplier(supplierId: JsValue, name: JsValue, phoneNumber: JsValue, email: JsValue,
                     category: JsValue, catalog: JsValue)
    returns (r: Result<Supplier, Error>)
    ensures var c := CheckSupplier(supplierId, name, phoneNumber, email, category, catalog);
      && (c.Failure? ==> r == Failure(c.error))
      && (c.Success? ==> r.Success? && fresh(r.value) && r.value.Record() == c.value)
  {
    var c := CheckSupplier(supplierId, name, phoneNumber, email, category, catalog);
    if c.Failure? {
      return Failure(c.error);
    }
    var s := new Supplier(c.value);
    r := Success(s);
  }
}

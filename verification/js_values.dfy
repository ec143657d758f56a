/**
 * The dynamically typed values that the entity constructors receive, and the
 * JavaScript operations their checks use: truthiness, `typeof`, `instanceof Date`,
 * property access and object spread (`{...v}`).
 */
module JsValues {
  import opened Calendar

  /**
   * Numbers are integers (prices in cents). A `Date` whose time value is NaN is
   * `InvalidDateObj`; plain objects are maps from own enumerable keys to values.
   */
  datatype JsValue =
    | Undefined
    | Null
    | Bool(b: bool)
    | Num(n: int)
    | Str(s: string)
    | DateObj(time: DateTime)
    | InvalidDateObj
    | Arr(items: seq<JsValue>)
    | Obj(props: map<string, JsValue>)

  /** The results of `typeof` that the checks compare against. */
  datatype JsType = UndefinedType | ObjectType | BooleanType | NumberType | StringType

  function TypeOf(v: JsValue): JsType
  {
    match v
    case Undefined => UndefinedType
    case Bool(_) => BooleanType
    case Num(_) => NumberType
    case Str(_) => StringType
    case _ => ObjectType  // null, dates, arrays and plain objects
  }

  /** `!!v`: false exactly for undefined, null, false, 0 and the empty string. */
  predicate Truthy(v: JsValue)
  {
    match v
    case Undefined => false
    case Null => false
    case Bool(b) => b
    case Num(n) => n != 0
    case Str(s) => s != ""
    case _ => true
  }

  /** `v instanceof Date && !isNaN(v)`. */
  predicate IsValidDate(v: JsValue)
  {
    v.DateObj? && v.time.WellFormed()
  }

  /** `v.id`: only a plain object can carry an `id` property; on anything else it reads undefined. */
  function IdOf(v: JsValue): JsValue
  {
    if v.Obj? && "id" in v.props then v.props["id"] else Undefined
  }

  /** `description || ''` once `description` is known to be a string whenever it is truthy. */
  function DescriptionOrEmpty(description: JsValue): string
    requires !Truthy(description) || description.Str?
  {
    if Truthy(description) then description.s else ""
  }

  /** The decimal spelling of an index, as used for array and string keys. */
  function IndexKey(n: nat): string
  {
    var digit := ['0' + (n % 10) as char];
    if n < 10 then digit else IndexKey(n / 10) + digit
  }

  /** The own enumerable properties of an array with these elements, keyed by index. */
  function IndexedProps(items: seq<JsValue>): map<string, JsValue>
  {
    if items == [] then map[]
    else IndexedProps(items[..|items| - 1])[IndexKey(|items| - 1) := items[|items| - 1]]
  }

  /** `{...v}`: a shallow copy of a plain object; other values contribute their own enumerable properties. */
  function Spread(v: JsValue): (r: JsValue)
    ensures r.Obj?
    ensures v.Obj? ==> r == v
  {
    match v
    case Obj(props) => Obj(props)
    case Arr(items) => Obj(IndexedProps(items))
    case Str(s) => Obj(IndexedProps(seq(|s|, i requires 0 <= i < |s| => Str([s[i]]))))
    case _ => Obj(map[])
  }
}

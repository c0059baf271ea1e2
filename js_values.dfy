/** Optional values and the JavaScript notion of "truthiness" that the
    dashboard's `||` defaults and `&&` guards rely on. */
module JsValues {

  /** `undefined` (or `null`) versus a present value of a typed field. */
  datatype Option<+T> = None | Some(value: T)

  /** An untyped value (job payload, options, progress, return value).
      Numbers are integers here; objects and arrays are opaque references. */
  datatype JsValue =
    | Undefined
    | Null
    | Bool(b: bool)
    | Number(n: int)
    | Str(s: string)
    | Object(ref: nat)

  /** JavaScript truthiness of an untyped value. */
  predicate Truthy(v: JsValue)
  {
    match v
    case Bool(b) => b
    case Number(n) => n != 0
    case Str(s) => s != ""
    case Object(_) => true
    case _ => false
  }

  /** Truthiness of an optional string field: present and not empty. */
  predicate TruthyStr(o: Option<string>)
  {
    o.Some? && o.value != ""
  }

  /** Truthiness of an optional number field: present and not zero. */
  predicate TruthyNum(o: Option<int>)
  {
    o.Some? && o.value != 0
  }

  /** `o || fallback` for an optional string field. */
  function StrOr(o: Option<string>, fallback: string): (r: string)
    ensures TruthyStr(o) ==> r == o.value
    ensures !TruthyStr(o) ==> r == fallback
    ensures fallback != "" ==> r != ""
  {
    if TruthyStr(o) then o.value else fallback
  }

  /** `o || fallback` for an optional number field. */
  function NumOr(o: Option<int>, fallback: int): (r: int)
    ensures TruthyNum(o) ==> r == o.value
    ensures !TruthyNum(o) ==> r == fallback
    ensures fallback != 0 ==> r != 0
  {
    if TruthyNum(o) then o.value else fallback
  }

  /** `a || b` for two untyped values. */
  function ValueOr(a: JsValue, b: JsValue): (r: JsValue)
    ensures Truthy(a) ==> r == a
    ensures !Truthy(a) ==> r == b
    ensures Truthy(r) <==> Truthy(a) || Truthy(b)
  {
    if Truthy(a) then a else b
  }
}

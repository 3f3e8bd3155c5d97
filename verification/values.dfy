/**
 * JavaScript values as `JSON.parse` produces them and as property reads see
 * them: the JSON types plus `undefined`, which is what reading a missing
 * property yields.
 */
module Values {
  import opened Wrappers

  datatype Value =
    | Undefined
    | Null
    | Bool(b: bool)
    | Num(n: real)
    | Str(s: string)
    | Arr(items: seq<Value>)
    | Obj(props: map<string, Value>)

  /** `typeof v === 'object'`: objects, arrays, and null. */
  predicate IsObject(v: Value) {
    v.Null? || v.Arr? || v.Obj?
  }

  /** Whether `v` is truthy (a JSON number is never NaN). */
  predicate Truthy(v: Value) {
    match v
    case Undefined => false
    case Null => false
    case Bool(b) => b
    case Num(n) => n != 0.0
    case Str(s) => s != ""
    case _ => true
  }

  /**
   * `v[k]` for the property names the profile code reads: a missing property
   * is `undefined`; arrays, strings, numbers and booleans have none of those
   * names; reading from `undefined` or `null` throws (`None`).
   */
  function Get(v: Value, k: string): (r: Option<Value>)
    ensures r.None? <==> v.Undefined? || v.Null?
    ensures v.Obj? ==> r == Some(if k in v.props then v.props[k] else Undefined)
  {
    match v
    case Undefined => None
    case Null => None
    case Obj(props) => Some(if k in props then props[k] else Undefined)
    case _ => Some(Undefined)
  }
}

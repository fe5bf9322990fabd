/** The JavaScript values that flow through the feed action: request parameters, stored
    documents and the bodies of responses. */
module Json {

  /** A JavaScript value. `Undefined` is a property that is present but holds `undefined`
      (an absent property is a key missing from the surrounding map); `Frac` is any number
      that is not an integer (NaN is not modelled). */
  datatype Value =
    | Undefined
    | Null
    | Bool(b: bool)
    | Num(n: int)
    | Frac
    | Str(s: string)
    | Arr(items: seq<Value>)
    | Obj(props: map<string, Value>)

  /** JavaScript truthiness: `undefined`, `null`, `false`, `0` and `''` are falsy. */
  predicate Truthy(v: Value) {
    match v
    case Undefined => false
    case Null => false
    case Bool(b) => b
    case Num(n) => n != 0
    case Frac => true
    case Str(s) => s != ""
    case Arr(_) => true
    case Obj(_) => true
  }

  /** `o[key]` on a plain object given as its property map. */
  function Get(o: map<string, Value>, key: string): (v: Value)
    ensures key !in o ==> v == Undefined
  {
    if key in o then o[key] else Undefined
  }

  /** `v[key]` on a value that is neither `undefined` nor `null` (on those two the access
      throws): a primitive has no such property, an array is not indexed by these names. */
  function Prop(v: Value, key: string): (r: Value)
    requires v != Undefined && v != Null
    ensures !v.Obj? ==> r == Undefined
  {
    if v.Obj? then Get(v.props, key) else Undefined
  }

  /** `String(v)` for a falsy value, as a template literal or `+` prints it. */
  function FalsyText(v: Value): (s: string)
    requires !Truthy(v)
    ensures v.Str? ==> s == ""
  {
    match v
    case Undefined => "undefined"
    case Null => "null"
    case Bool(_) => "false"
    case Num(_) => "0"
    case Str(_) => ""
  }

  /** A plain JavaScript object whose properties are added, overwritten and deleted in place. */
  class JsObject {
    var props: map<string, Value>

    /** `Object.assign({}, source)`: a new object with the same own properties. */
    constructor (props: map<string, Value>)
      ensures this.props == props
    {
      this.props := props;
    }
  }
}

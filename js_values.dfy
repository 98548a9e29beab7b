/** The slice of JavaScript value semantics that client configuration goes
    through: `typeof`, property access (which throws on `null` and
    `undefined`) and the "every own value is undefined" test. */
module JsValues {
  import opened Common

  /** A JavaScript value as it appears in a configuration entry. Arrays are
      objects whose keys are indices; functions and symbols never occur in
      parsed configuration. */
  datatype Value =
    | Undefined
    | Null
    | Bool(b: bool)
    | Num(n: int)
    | Str(s: string)
    | Object(props: map<string, Value>)

  /** `typeof v === 'object'`; true for `null` as well. */
  predicate TypeofObject(v: Value) {
    v.Null? || v.Object?
  }

  /** `v[key]`: throws a TypeError on `null` and `undefined`, yields
      `undefined` for a missing key and for any key of a primitive that
      configuration reads (`url`, `apiKey`, `type`). */
  function Prop(v: Value, key: string): (r: Result<Value>)
    ensures r.Err? <==> v.Undefined? || v.Null?
    ensures r.Ok? && r.value != Undefined ==> v.Object? && key in v.props && v.props[key] == r.value
    ensures v.Object? && key in v.props ==> r == Ok(v.props[key])
    ensures v.Object? && key !in v.props ==> r == Ok(Undefined)
    ensures v.Bool? || v.Num? || v.Str? ==> r == Ok(Undefined)
  {
    match v
    case Undefined => Err("TypeError: cannot read properties of undefined")
    case Null => Err("TypeError: cannot read properties of null")
    case Object(props) => Ok(if key in props then props[key] else Undefined)
    case _ => Ok(Undefined)
  }

  /** `Object.values(props).every(x => x === undefined)`; true of `{}`. */
  predicate AllValuesUndefined(props: map<string, Value>) {
    forall k :: k in props ==> props[k] == Undefined
  }

  /** A string that may be unset, as read from the process environment. */
  function FromEnv(v: Option<string>): (r: Value)
    ensures r == Undefined <==> v.None?
  {
    match v
    case None => Undefined
    case Some(s) => Str(s)
  }
}

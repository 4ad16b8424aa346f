/** JavaScript values as they arrive in a parsed JSON request body, and the
    truthiness rule the route handlers use to decide whether a field is present. */
module Values {

  datatype Option<+T> = None | Some(value: T)

  /** A value read out of `req.body`. `Undefined` is what destructuring yields for
      a key the body does not have; `Composite` stands for any object or array. */
  datatype JsValue =
    | Undefined
    | Null
    | Bool(b: bool)
    | Num(x: real)
    | Str(s: string)
    | Composite

  /** JavaScript's ToBoolean on the values above: `undefined`, `null`, `false`,
      `0` and `""` are falsy, everything else (including `{}` and `[]`) is truthy. */
  predicate Truthy(v: JsValue)
  {
    match v
    case Undefined => false
    case Null => false
    case Bool(b) => b
    case Num(x) => x != 0.0
    case Str(s) => s != ""
    case Composite => true
  }

  /** The falsy values are exactly the five above; a truthy value is never
      `undefined` or `null`. */
  lemma FalsyExactly(v: JsValue)
    ensures !Truthy(v) <==> v in [Undefined, Null, Bool(false), Num(0.0), Str("")]
    ensures Truthy(v) ==> v != Undefined && v != Null
  {
  }

  /** A parsed JSON object body: key to value. */
  type Body = map<string, JsValue>

  /** `req.body[key]`, or `undefined` when the key is absent. */
  function Field(body: Body, key: string): JsValue
  {
    if key in body then body[key] else Undefined
  }

  /** What the SQLite driver stores for a bound parameter: `undefined` is bound as NULL. */
  function Bind(v: JsValue): (b: JsValue)
    ensures b != Undefined
    ensures v == Undefined ==> b == Null
    ensures v != Undefined ==> b == v
  {
    if v == Undefined then Null else v
  }

  /** SQL `COALESCE(?, column)` with the parameter bound from `v`: the column keeps
      its value when the bound parameter is NULL. */
  function Coalesce(v: JsValue, column: JsValue): (c: JsValue)
    ensures v == Undefined || v == Null ==> c == column
    ensures v != Undefined && v != Null ==> c == v
  {
    if Bind(v) == Null then column else Bind(v)
  }

  /** A patch that leaves a field out, or sends it as null, keeps the stored value;
      any other value, falsy ones such as "" and 0 included, replaces it. */
  lemma CoalesceKeepsAbsent(body: Body, key: string, column: JsValue)
    ensures key !in body ==> Coalesce(Field(body, key), column) == column
    ensures Field(body, key) == Null ==> Coalesce(Field(body, key), column) == column
    ensures Field(body, key) != Undefined && Field(body, key) != Null ==>
              Coalesce(Field(body, key), column) == body[key]
  {
  }
}

/** Values shared by every part of the model: optional values, the JSON values that travel
    between the server and the browser, and how JavaScript reads them. */
module Base {

  datatype Option<T> = None | Some(value: T)

  /** A JSON value as it appears in a response body or a socket frame. Numbers are integers. */
  datatype Json = JNull | JBool(b: bool) | JInt(n: int) | JStr(s: string)

  /** A JavaScript value read from a parsed object: a key that is absent reads as `undefined`. */
  datatype JsValue = Undefined | Defined(v: Json)

  /** A parsed JSON object (a socket frame, a response body, a channel-layer event). */
  type Object = map<string, Json>

  /** `obj.key` in JavaScript. */
  function Get(o: Object, key: string): (r: JsValue)
    ensures r.Defined? <==> key in o
    ensures key in o ==> r.v == o[key]
  {
    if key in o then Defined(o[key]) else Undefined
  }

  /** JavaScript truthiness of a value that holds JSON or `undefined`. */
  predicate Truthy(x: JsValue)
  {
    match x
    case Undefined => false
    case Defined(JNull) => false
    case Defined(JBool(b)) => b
    case Defined(JInt(n)) => n != 0
    case Defined(JStr(s)) => s != []
  }

  /** JavaScript truthiness of an optional string (`null`/`undefined` or the empty string are falsy). */
  predicate TruthyString(s: Option<string>)
  {
    s.Some? && s.value != []
  }

  /** A string value when the JavaScript value is one, else nothing. */
  function AsString(x: JsValue): Option<string>
  {
    if x.Defined? && x.v.JStr? then Some(x.v.s) else None
  }

  /** Is the value the given string (`x === s`)? */
  predicate IsString(x: JsValue, s: string)
  {
    x == Defined(JStr(s))
  }
}

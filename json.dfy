/**
 * JSON values as they travel through `fetch`, `request.json()` and
 * `JSON.stringify`, with the JavaScript rules the handlers rely on: reading
 * a property (which throws on `null`) and truthiness.
 */
module Json {
  import opened Opt

  /** A parsed JSON document. Numbers are integers in this model. */
  datatype Json =
    | JNull
    | JBool(b: bool)
    | JNumber(n: int)
    | JString(s: string)
    | JArray(items: seq<Json>)
    | JObject(fields: map<string, Json>)

  /** A JavaScript value read out of a JSON document: possibly `undefined`. */
  datatype JsValue = Undefined | Defined(value: Json)

  /**
   * The keys the handlers read. No JavaScript value inherits them from its
   * prototype, unlike `length`, `constructor` or `toString`, so reading one
   * that a value does not hold gives `undefined`.
   */
  const HandlerKeys: set<string> := {"content", "error", "projects"}

  /**
   * `v.key` (or the destructuring `const { key } = v`) for a key of
   * `HandlerKeys`: `None` when the access throws, which happens exactly for
   * `null`; `undefined` for a key the object lacks and for any non-object.
   */
  function Property(v: Json, key: string): (r: Option<JsValue>)
    requires key in HandlerKeys
    ensures r.None? <==> v.JNull?
    ensures r == Some(Undefined) <==> !v.JNull? && !(v.JObject? && key in v.fields)
    ensures forall x :: r == Some(Defined(x)) <==> v.JObject? && key in v.fields && v.fields[key] == x
  {
    match v
    case JNull => None
    case JObject(fields) => Some(if key in fields then Defined(fields[key]) else Undefined)
    case _ => Some(Undefined)
  }

  /** JavaScript truthiness of a value (NaN is not representable here). */
  predicate Truthy(v: JsValue) {
    match v
    case Undefined => false
    case Defined(JNull) => false
    case Defined(JBool(b)) => b
    case Defined(JNumber(n)) => n != 0
    case Defined(JString(s)) => s != ""
    case Defined(_) => true
  }

  /** `{ key: text }`: an object holding one string under `key`. */
  function Single(key: string, text: string): (r: Json)
    requires key in HandlerKeys
    ensures Property(r, key) == Some(Defined(JString(text)))
    ensures r.JObject? && r.fields.Keys == {key}
  {
    JObject(map[key := JString(text)])
  }

  /** `{ error: message }`, the body of every error response here. */
  function ErrorBody(message: string): (r: Json)
    ensures Property(r, "error") == Some(Defined(JString(message)))
    ensures r.JObject? && r.fields.Keys == {"error"}
  {
    Single("error", message)
  }
}

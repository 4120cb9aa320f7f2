/**
  The JavaScript values the server handles: parsed JSON payloads, `Error`
  objects, and the result of reading a property such as `payload.method`.
 */
module JsValues {
  import opened Wrappers

  /** A value produced by `JSON.parse`. Object keys are unique (the last
      duplicate wins), so an object is a map. */
  datatype Json =
    | JNull
    | JBool(b: bool)
    | JNumber(n: real)
    | JString(s: string)
    | JArray(items: seq<Json>)
    | JObject(fields: map<string, Json>)

  /** An `Error` passed to a callback; only its message and `stack` matter. */
  datatype Error = Error(message: string, stack: string)

  /** What a property read evaluates to: `undefined`, or a JSON value. */
  datatype Property = Undefined | Defined(value: Json)

  /** `v.method` as JavaScript evaluates it on a parsed JSON value.
      `None` means the read throws a TypeError, which happens exactly for
      `null`; arrays, strings, numbers and booleans have no `method`
      property and give `undefined`. */
  function ReadMethodAsWritten(v: Json): (r: Option<Property>)
    ensures r.None? <==> v.JNull?
    ensures r.Some? && r.value.Defined? <==> v.JObject? && "method" in v.fields
    ensures r.Some? && r.value.Defined? ==> r.value.value == v.fields["method"]
  {
    match v
    case JNull => None
    case JObject(fields) =>
      Some(if "method" in fields then Defined(fields["method"]) else Undefined)
    case _ => Some(Undefined)
  }

  /** `v.method` with `null` read as having no method: the read never
      throws, and agrees with `ReadMethodAsWritten` wherever that one does
      not throw. */
  function ReadMethod(v: Json): (r: Property)
    ensures v.JNull? ==> r == Undefined
    ensures !v.JNull? ==> ReadMethodAsWritten(v) == Some(r)
  {
    match v
    case JObject(fields) =>
      if "method" in fields then Defined(fields["method"]) else Undefined
    case _ => Undefined
  }
}

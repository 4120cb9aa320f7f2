/**
  The per-request handler of the HTTP server: once the body has been read,
  decide the status, headers and body of the response from the HTTP verb,
  whether the body parses as JSON, and how the provider's dispatch ended;
  and say which method names are logged.

  JSON parsing and serialisation and the provider's `sendAsync` are
  function-typed parameters: `parse` returns `None` where `JSON.parse`
  throws, and `send` gives the outcome the provider reports for a payload.
 */
module HttpHandler {
  import opened Wrappers
  import opened JsValues

  /** A written response: what `writeHead` and `end` receive. */
  datatype Response = Response(status: nat, headers: map<string, string>, body: string)

  /** What the provider passes to the `sendAsync` callback. */
  datatype DispatchOutcome = Failed(err: Error) | Succeeded(result: Json)

  /** The method names logged for a payload, and whether reading one of
      them threw before the handler finished. */
  datatype Logging = Logging(lines: seq<Property>, threw: bool)

  /** Everything one exchange does: the logged method names, the payload
      handed to the provider (if any) and the response; or, when the
      handler throws, only what it logged before that. */
  datatype Exchange =
    | Replied(log: seq<Property>, dispatched: Option<Json>, response: Response)
    | Threw(log: seq<Property>)

  const ContentType := "Content-Type"
  const TextPlain := "text/plain"
  const ApplicationJson := "application/json"
  const BadRequestBody := "400 Bad Request"

  /** The permissive cross-origin headers built for every request. */
  const CorsHeaders: map<string, string> :=
    map["Access-Control-Allow-Headers" := "Origin, X-Requested-With, Content-Type, Accept",
        "Access-Control-Allow-Origin" := "*",
        "Access-Control-Allow-Methods" := "*"]

  /** The headers carry each cross-origin header with its fixed value. */
  predicate HasCorsHeaders(headers: map<string, string>)
  {
    forall k :: k in CorsHeaders ==> k in headers && headers[k] == CorsHeaders[k]
  }

  // ---------------------------------------------------------------------
  // The response
  // ---------------------------------------------------------------------

  /** The response written for a request with verb `verb` and body `body`.
      `send` is consulted only for a POST whose body parses. */
  function ResponseFor(verb: string, body: string, parse: string -> Option<Json>,
                       stringify: Json -> string, send: Json -> DispatchOutcome): (r: Response)
    ensures HasCorsHeaders(r.headers)
    ensures r.headers.Keys == CorsHeaders.Keys + {ContentType}
    ensures r.headers[ContentType] == ApplicationJson <==> verb == "POST" && r.status == 200
    ensures r.headers[ContentType] != ApplicationJson ==> r.headers[ContentType] == TextPlain
    ensures r.status == 200 || r.status == 400 || r.status == 500
    ensures verb == "OPTIONS" ==> r.status == 200 && r.body == ""
    ensures r.status == 400 <==> verb != "OPTIONS" && (verb != "POST" || parse(body).None?)
    ensures r.status == 400 ==> r.body == BadRequestBody
    ensures r.status == 500 <==> verb == "POST" && parse(body).Some? && send(parse(body).value).Failed?
    ensures r.status == 500 ==> r.body == send(parse(body).value).err.stack
    ensures verb == "POST" && r.status == 200 ==>
              && parse(body).Some?
              && send(parse(body).value).Succeeded?
              && r.body == stringify(send(parse(body).value).result)
  {
    var headers := CorsHeaders;
    if verb == "OPTIONS" then
      Response(200, headers[ContentType := TextPlain], "")
    else if verb == "POST" then
      match parse(body)
      case None => Response(400, headers[ContentType := TextPlain], BadRequestBody)
      case Some(payload) =>
        match send(payload)
        case Failed(err) => Response(500, headers[ContentType := TextPlain], err.stack)
        case Succeeded(result) =>
          Response(200, headers[ContentType := ApplicationJson], stringify(result))
    else
      // the other verbs get a header object of their own, written out in full
      Response(400,
               map["Access-Control-Allow-Headers" := "Origin, X-Requested-With, Content-Type, Accept",
                   "Access-Control-Allow-Origin" := "*",
                   "Access-Control-Allow-Methods" := "*",
                   "Content-Type" := "text/plain"],
               BadRequestBody)
  }

  /** When a JSON reader inverts the writer, a client reading a successful
      POST response recovers exactly the provider's result. */
  lemma ClientRecoversResult(body: string, parse: string -> Option<Json>,
                             stringify: Json -> string, send: Json -> DispatchOutcome)
    requires forall j :: parse(stringify(j)) == Some(j)
    ensures var r := ResponseFor("POST", body, parse, stringify, send);
            r.status == 200 ==> parse(r.body) == Some(send(parse(body).value).result)
  {
  }

  // ---------------------------------------------------------------------
  // Logging
  // ---------------------------------------------------------------------

  /** The loop over a batch as written: log each element's `method` in
      order, stopping with a throw at the first `null` element. */
  function BatchLogAsWritten(items: seq<Json>): (r: Logging)
    ensures |r.lines| <= |items|
    ensures forall i :: 0 <= i < |r.lines| ==> items[i] != JNull && r.lines[i] == ReadMethod(items[i])
    ensures !r.threw ==> |r.lines| == |items|
    ensures r.threw ==> |r.lines| < |items| && items[|r.lines|] == JNull
    decreases |items|
  {
    if |items| == 0 then Logging([], false)
    else
      match ReadMethodAsWritten(items[0])
      case None => Logging([], true)
      case Some(m) =>
        var rest := BatchLogAsWritten(items[1..]);
        Logging([m] + rest.lines, rest.threw)
  }

  /** What reading the method names of `payload` logs, as written: every
      element's name for an array, the payload's own name otherwise. */
  function LogPayloadAsWritten(payload: Json): (r: Logging)
    ensures !payload.JArray? ==> (r.threw <==> payload == JNull)
    ensures !payload.JArray? && !r.threw ==> r.lines == [ReadMethod(payload)]
  {
    match payload
    case JArray(items) => BatchLogAsWritten(items)
    case _ =>
      match ReadMethodAsWritten(payload)
      case None => Logging([], true)
      case Some(m) => Logging([m], false)
  }

  /** The `method` of each element, in order. */
  function MethodsOf(items: seq<Json>): (lines: seq<Property>)
    ensures |lines| == |items|
    ensures forall i :: 0 <= i < |items| ==> lines[i] == ReadMethod(items[i])
    decreases |items|
  {
    if |items| == 0 then [] else [ReadMethod(items[0])] + MethodsOf(items[1..])
  }

  /** The method names logged for a parsed payload, with `null` read as
      having no method. */
  function LogPayload(payload: Json): seq<Property>
  {
    if payload.JArray? then MethodsOf(payload.items) else [ReadMethod(payload)]
  }

  /** A payload on which some `method` read of the logging throws: `null`
      itself, or a batch with a `null` element. */
  predicate ThrowsOnLogging(payload: Json)
  {
    if payload.JArray? then exists i :: 0 <= i < |payload.items| && payload.items[i] == JNull
    else payload == JNull
  }

  /** The logging as written throws exactly on `ThrowsOnLogging` payloads;
      otherwise it logs what `LogPayload` logs, and before a throw it has
      logged a proper prefix of that. */
  lemma LoggingAgrees(payload: Json)
    ensures LogPayloadAsWritten(payload).threw <==> ThrowsOnLogging(payload)
    ensures !LogPayloadAsWritten(payload).threw ==>
              LogPayloadAsWritten(payload).lines == LogPayload(payload)
    ensures LogPayloadAsWritten(payload).threw ==>
              |LogPayloadAsWritten(payload).lines| < |LogPayload(payload)|
    ensures LogPayloadAsWritten(payload).lines
         <= LogPayload(payload)
  {
  }

  // ---------------------------------------------------------------------
  // The handler
  // ---------------------------------------------------------------------

  /** The request handler with `method` reads that never throw: every
      request gets a response; only a POST whose body parses reaches the
      provider, and only its payload's method names are logged. */
  function Handle(verb: string, body: string, parse: string -> Option<Json>,
                  stringify: Json -> string, send: Json -> DispatchOutcome): (x: Exchange)
    ensures x.Replied?
    ensures x.response == ResponseFor(verb, body, parse, stringify, send)
    ensures x.dispatched.Some? <==> verb == "POST" && parse(body).Some?
    ensures x.dispatched.Some? ==> parse(body) == x.dispatched
    ensures x.dispatched.None? ==> x.log == []
    ensures x.dispatched.Some? && x.dispatched.value.JArray? ==>
              && |x.log| == |x.dispatched.value.items|
              && forall i :: 0 <= i < |x.log| ==> x.log[i] == ReadMethod(x.dispatched.value.items[i])
    ensures x.dispatched.Some? && !x.dispatched.value.JArray? ==>
              x.log == [ReadMethod(x.dispatched.value)]
  {
    var response := ResponseFor(verb, body, parse, stringify, send);
    if verb == "POST" && parse(body).Some? then
      Replied(LogPayload(parse(body).value), parse(body), response)
    else
      Replied([], None, response)
  }

  /** The request handler as written: a parsed POST payload that is `null`,
      or a batch holding a `null` element, throws while logging, and no
      response is written. In every other case it is `Handle`. */
  function HandleAsWritten(verb: string, body: string, parse: string -> Option<Json>,
                           stringify: Json -> string, send: Json -> DispatchOutcome): (x: Exchange)
    ensures x.Threw? <==> verb == "POST" && parse(body).Some? && ThrowsOnLogging(parse(body).value)
    ensures x.Replied? ==> x == Handle(verb, body, parse, stringify, send)
    ensures x.Threw? ==> x.log < Handle(verb, body, parse, stringify, send).log
  {
    if verb == "POST" && parse(body).Some? then
      var payload := parse(body).value;
      var logging := LogPayloadAsWritten(payload);
      LoggingAgrees(payload);
      if logging.threw then Threw(logging.lines)
      else Replied(logging.lines, Some(payload), ResponseFor(verb, body, parse, stringify, send))
    else
      Handle(verb, body, parse, stringify, send)
  }

  /** The body `null` parses, yet the handler as written throws on it and
      answers nothing; `Handle` answers it and logs one `undefined`. */
  lemma NullBodyGetsNoResponse()
    ensures var parse := (s: string) => if s == "null" then Some(JNull) else None;
            var stringify := (j: Json) => "null";
            var send := (j: Json) => Succeeded(JNull);
            && HandleAsWritten("POST", "null", parse, stringify, send).Threw?
            && Handle("POST", "null", parse, stringify, send).Replied?
            && Handle("POST", "null", parse, stringify, send).log == [Undefined]
  {
  }

  /** A request that is not a parseable POST never reaches the provider:
      its exchange is the same whatever the provider would answer. */
  lemma ProviderNotConsulted(verb: string, body: string, parse: string -> Option<Json>,
                             stringify: Json -> string,
                             send1: Json -> DispatchOutcome, send2: Json -> DispatchOutcome)
    requires verb != "POST" || parse(body).None?
    ensures Handle(verb, body, parse, stringify, send1) == Handle(verb, body, parse, stringify, send2)
    ensures HandleAsWritten(verb, body, parse, stringify, send1)
         == HandleAsWritten(verb, body, parse, stringify, send2)
  {
  }
}

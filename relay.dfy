/**
 * The Express relay (server.js): the startup check on the upstream credential,
 * the `messages` validation in front of POST /api/chat, the forwarding of the
 * request to the completion service, and the mapping of every outcome to a
 * status and a JSON body.
 */
module Relay {
  import opened Wrappers
  import opened Http
  import opened Strings

  /** A parsed JSON value; numbers are modelled as integers. */
  datatype Json =
    | JNull
    | JBool(b: bool)
    | JNumber(n: int)
    | JString(s: string)
    | JArray(items: seq<Json>)
    | JObject(fields: seq<(string, Json)>)

  /** The member named `key`; with duplicate keys the last one wins, as `JSON.parse` does. */
  function Lookup(fields: seq<(string, Json)>, key: string): (v: Option<Json>)
    ensures v.None? <==> forall k :: 0 <= k < |fields| ==> fields[k].0 != key
    ensures v.Some? ==>
      exists k :: 0 <= k < |fields| && fields[k] == (key, v.value) &&
        forall j :: k < j < |fields| ==> fields[j].0 != key
    decreases |fields|
  {
    if fields == [] then None
    else if fields[|fields| - 1].0 == key then Some(fields[|fields| - 1].1)
    else Lookup(fields[..|fields| - 1], key)
  }

  /**
   * `v?.key` and `v.key` on a parsed value: only objects have such members;
   * None stands for `undefined`.
   */
  function Member(v: Option<Json>, key: string): Option<Json> {
    if v.Some? && v.value.JObject? then Lookup(v.value.fields, key) else None
  }

  /** JavaScript truthiness of a parsed value, None being `undefined`. */
  predicate Truthy(v: Option<Json>) {
    match v
    case None => false
    case Some(JNull) => false
    case Some(JBool(b)) => b
    case Some(JNumber(n)) => n != 0
    case Some(JString(s)) => s != []
    case Some(JArray(_)) => true
    case Some(JObject(_)) => true
  }

  /** `String(v)` for the values a message can take. */
  lemma JsStringCases(s: string, n: nat, fields: seq<(string, Json)>, x: Json)
    ensures ToJsString(JString(s)) == s
    ensures DigitsValue(ToJsString(JNumber(n))) == n
    ensures ToJsString(JObject(fields)) == "[object Object]"
    ensures ToJsString(JArray([])) == []
    ensures ToJsString(JArray([x])) == if x.JNull? then [] else ToJsString(x)
  {
    NatToStringValue(n);
    assert seq(1, i requires 0 <= i < 1 => if [x][i].JNull? then [] else ToJsString([x][i]))
        == [if x.JNull? then [] else ToJsString(x)];
  }

  /** `String(v)`, as a template literal converts its substitutions. */
  function ToJsString(v: Json): string
    decreases v
  {
    match v
    case JNull => "null"
    case JBool(b) => if b then "true" else "false"
    case JNumber(n) => IntToString(n)
    case JString(s) => s
    case JArray(items) =>
      Join(seq(|items|, i requires 0 <= i < |items| =>
        if items[i].JNull? then [] else ToJsString(items[i])), ",")
    case JObject(_) => "[object Object]"
  }

  /** The JSON body of a response: upstream data passed through, or an error record. */
  datatype Body = Passthrough(data: Json) | Failure(error: string, details: Option<string>)

  datatype Response = Response(status: int, body: Body)

  const InvalidRequest := "Invalid request: messages array is required"
  const UpstreamFailed := "Error communicating with Groq API"
  const InternalFailure := "Internal server error"
  const UpstreamMarker := "Groq API error"
  const Development := "development"

  /** The request carries a non-empty `messages` array. */
  predicate HasMessages(body: Json) {
    var messages := Member(Some(body), "messages");
    messages.Some? && messages.value.JArray? && messages.value.items != []
  }

  /** The TypeError destructuring `messages` out of a `null` body throws. */
  const NullBodyError := "Cannot destructure property 'messages' of 'req.body' as it is null."

  /**
   * `validateChatRequest`: stop with a 400, pass control to the handler, or
   * throw, which Express hands to the error middleware.
   */
  datatype Validation = Rejected(response: Response) | Accepted | Threw(message: string)

  function ValidateChatRequest(body: Json): (v: Validation)
    ensures v.Threw? <==> body.JNull?
    ensures v.Threw? ==> v.message == NullBodyError
    ensures v.Accepted? <==> HasMessages(body)
    ensures v.Rejected? ==> v.response == Response(400, Failure(InvalidRequest, None))
  {
    if body.JNull? then
      Threw(NullBodyError)
    else
      var messages := Member(Some(body), "messages");
      if !Truthy(messages) || !messages.value.JArray? || messages.value.items == [] then
        Rejected(Response(400, Failure(InvalidRequest, None)))
      else
        Accepted
  }

  /** The POST sent to the completion service. */
  datatype UpstreamRequest = UpstreamRequest(url: string, authorization: string, contentType: string, body: Json)

  const CompletionsUrl := "https://api.groq.com/openai/v1/chat/completions"

  function Forward(apiKey: string, body: Json): UpstreamRequest {
    UpstreamRequest(CompletionsUrl, "Bearer " + apiKey, "application/json", body)
  }

  /** Reading a response body as JSON: a value, or the message of the error it throws. */
  datatype JsonRead = Parsed(value: Json) | Unparsable(message: string)

  /** How the upstream call settles: a response with its status and body, or a thrown error. */
  datatype Upstream = Responded(status: int, payload: JsonRead) | Unreachable(message: string)

  /** `errorData?.error?.message`, where an unreadable body reads as `null`. */
  function UpstreamMessage(payload: JsonRead): Option<Json> {
    var errorData := if payload.Parsed? then Some(payload.value) else Some(JNull);
    Member(Member(errorData, "error"), "message")
  }

  /** The upstream's error message is absent unless the body is an object whose `error` member is one. */
  lemma UpstreamMessageAbsent(payload: JsonRead)
    ensures payload.Unparsable? ==> UpstreamMessage(payload).None?
    ensures payload.Parsed? && !payload.value.JObject? ==> UpstreamMessage(payload).None?
    ensures payload.Parsed? && payload.value.JObject? ==>
      var error := Lookup(payload.value.fields, "error");
      (error.None? || !error.value.JObject?) ==> UpstreamMessage(payload).None?
  {
  }

  /** With an object under `error`, the message is that object's `message` member. */
  lemma UpstreamMessageNested(fields: seq<(string, Json)>, errorFields: seq<(string, Json)>)
    requires Lookup(fields, "error") == Some(JObject(errorFields))
    ensures UpstreamMessage(Parsed(JObject(fields))) == Lookup(errorFields, "message")
  {
  }

  /** The usual error body `{"error": {"message": s}}`. */
  function ErrorPayload(s: string): Json {
    JObject([("error", JObject([("message", JString(s))]))])
  }

  lemma UpstreamMessageOf(s: string)
    ensures UpstreamMessage(Parsed(ErrorPayload(s))) == Some(JString(s))
  {
  }

  /** `errorData?.error?.message || 'Unknown error'`, converted to a string. */
  function UpstreamDetail(payload: JsonRead): string {
    var message := UpstreamMessage(payload);
    if Truthy(message) then ToJsString(message.value) else "Unknown error"
  }

  /** The message of the error thrown for a non-ok upstream status. */
  function UpstreamErrorText(status: int, payload: JsonRead): (text: string)
    ensures Includes(text, UpstreamMarker)
    ensures text == UpstreamMarker + ": " + IntToString(status) + " - " + UpstreamDetail(payload)
  {
    var tail := ": " + IntToString(status) + " - " + UpstreamDetail(payload);
    IncludesPrefix(UpstreamMarker, tail);
    UpstreamMarker + tail
  }

  /** A non-empty upstream message is quoted after the status. */
  lemma UpstreamTextWithMessage(status: int, s: string)
    requires s != []
    ensures UpstreamErrorText(status, Parsed(ErrorPayload(s)))
         == UpstreamMarker + ": " + IntToString(status) + " - " + s
  {
    UpstreamMessageOf(s);
  }

  /** Without a usable upstream message the text ends in "Unknown error". */
  lemma UpstreamTextUnknown(status: int, payload: JsonRead)
    requires !Truthy(UpstreamMessage(payload))
    ensures UpstreamErrorText(status, payload)
         == UpstreamMarker + ": " + IntToString(status) + " - " + "Unknown error"
  {
  }

  /** What the `try` block ends with: the data to send back, or the message of a thrown error. */
  datatype Attempt = Data(value: Json) | Thrown(message: string)

  function TryRelay(upstream: Upstream): (a: Attempt)
    ensures a.Data? <==> upstream.Responded? && IsOk(upstream.status) && upstream.payload.Parsed?
    ensures a.Data? ==> a.value == upstream.payload.value
    ensures upstream.Responded? && !IsOk(upstream.status) ==>
      a == Thrown(UpstreamErrorText(upstream.status, upstream.payload))
    ensures upstream.Unreachable? ==> a == Thrown(upstream.message)
    ensures upstream.Responded? && IsOk(upstream.status) && upstream.payload.Unparsable? ==>
      a == Thrown(upstream.payload.message)
  {
    match upstream
    case Unreachable(message) => Thrown(message)
    case Responded(status, payload) =>
      if !IsOk(status) then Thrown(UpstreamErrorText(status, payload))
      else match payload
        case Parsed(data) => Data(data)
        case Unparsable(message) => Thrown(message)
  }

  /** The 500 reply of both the handler's `catch` and the fallback error middleware. */
  function InternalError(message: string, nodeEnv: Option<string>): (r: Response)
    ensures r.status == 500 && r.body.Failure? && r.body.error == InternalFailure
    ensures r.body.details.Some? <==> nodeEnv == Some(Development)
    ensures r.body.details.Some? ==> r.body.details.value == message
  {
    Response(500, Failure(InternalFailure, if nodeEnv == Some(Development) then Some(message) else None))
  }

  /** The handler's `catch`: classification of a thrown error by its message alone. */
  function CatchError(message: string, nodeEnv: Option<string>): (r: Response)
    ensures r.status == 502 <==> Includes(message, UpstreamMarker)
    ensures r.status == 502 ==> r.body == Failure(UpstreamFailed, Some(message))
    ensures r.status != 502 ==> r == InternalError(message, nodeEnv)
  {
    if Includes(message, UpstreamMarker) then
      Response(502, Failure(UpstreamFailed, Some(message)))
    else
      InternalError(message, nodeEnv)
  }

  /** The process configuration the handlers read. */
  datatype Config = Config(apiKey: string, nodeEnv: Option<string>)

  /** The request body as `express.json` leaves it: parsed, or a parse error passed on. */
  datatype Incoming = JsonBody(body: Json) | BodyError(message: string)

  /** What one POST /api/chat does: the upstream call it makes, if any, and its reply. */
  datatype Exchange = Exchange(forwarded: Option<UpstreamRequest>, response: Response)

  /** The route handler once validation has passed. */
  function ChatHandler(config: Config, upstream: Upstream): Response {
    match TryRelay(upstream)
    case Data(data) => Response(200, Passthrough(data))
    case Thrown(message) => CatchError(message, config.nodeEnv)
  }

  /** POST /api/chat through the body parser, the validator, the handler and the fallback. */
  function HandleChat(config: Config, incoming: Incoming, upstream: Upstream): Exchange {
    match incoming
    case BodyError(message) => Exchange(None, InternalError(message, config.nodeEnv))
    case JsonBody(body) =>
      match ValidateChatRequest(body)
      case Rejected(response) => Exchange(None, response)
      case Threw(message) => Exchange(None, InternalError(message, config.nodeEnv))
      case Accepted => Exchange(Some(Forward(config.apiKey, body)), ChatHandler(config, upstream))
  }

  /**
   * Exactly the requests with a non-empty `messages` array are forwarded, with
   * their body unchanged and the server's credential; the others get a 400 or,
   * when the body did not parse or is `null`, a 500 from the error middleware.
   */
  lemma ForwardedIffValid(config: Config, incoming: Incoming, upstream: Upstream)
    ensures var ex := HandleChat(config, incoming, upstream);
      && (ex.forwarded.Some? <==> incoming.JsonBody? && HasMessages(incoming.body))
      && (ex.forwarded.Some? ==>
            ex.forwarded.value == UpstreamRequest(CompletionsUrl, "Bearer " + config.apiKey,
                                                  "application/json", incoming.body))
      && (incoming.JsonBody? && !incoming.body.JNull? && !HasMessages(incoming.body) ==>
            ex.response == Response(400, Failure(InvalidRequest, None)))
      && (incoming.JsonBody? && incoming.body.JNull? ==>
            ex.response == InternalError(NullBodyError, config.nodeEnv))
      && (incoming.BodyError? ==> ex.response == InternalError(incoming.message, config.nodeEnv))
  {
  }

  /** An ok upstream reply is passed back verbatim with status 200. */
  lemma UpstreamSuccess(config: Config, body: Json, status: int, data: Json)
    requires HasMessages(body) && IsOk(status)
    ensures HandleChat(config, JsonBody(body), Responded(status, Parsed(data))).response
         == Response(200, Passthrough(data))
  {
  }

  /** A non-ok upstream status always becomes a 502 carrying the error text, never a 200. */
  lemma UpstreamFailure(config: Config, body: Json, status: int, payload: JsonRead)
    requires HasMessages(body) && !IsOk(status)
    ensures var r := HandleChat(config, JsonBody(body), Responded(status, payload)).response;
      && r == Response(502, Failure(UpstreamFailed, Some(UpstreamErrorText(status, payload))))
      && r.status != 200
  {
  }

  /**
   * A forwarded request whose upstream call rejects, or whose ok reply does not
   * parse, is answered by the `catch` on that error's own message.
   */
  lemma UpstreamErrorCaught(config: Config, body: Json, upstream: Upstream)
    requires HasMessages(body)
    requires upstream.Unreachable? || (IsOk(upstream.status) && upstream.payload.Unparsable?)
    ensures var m := if upstream.Unreachable? then upstream.message else upstream.payload.message;
      var r := HandleChat(config, JsonBody(body), upstream).response;
      && r == CatchError(m, config.nodeEnv)
      && (!Includes(m, UpstreamMarker) ==> r == InternalError(m, config.nodeEnv))
  {
  }

  /**
   * Every reply is a 200, 400, 500 or 502; a 200 happens only when the upstream
   * answered ok with JSON, and then carries that JSON.
   */
  lemma StatusCodes(config: Config, incoming: Incoming, upstream: Upstream)
    ensures var ex := HandleChat(config, incoming, upstream);
      && ex.response.status in {200, 400, 500, 502}
      && (ex.response.status == 200 <==>
            ex.forwarded.Some? && upstream.Responded? && IsOk(upstream.status) && upstream.payload.Parsed?)
      && (ex.response.status == 200 ==> ex.response.body == Passthrough(upstream.payload.value))
      && (ex.response.status == 400 <==>
            incoming.JsonBody? && !incoming.body.JNull? && !HasMessages(incoming.body))
  {
  }

  /**
   * Error details: a 502 always carries them; a 500 carries them exactly in
   * development mode; a 400 never does.
   */
  lemma DetailsOnlyInDevelopment(config: Config, incoming: Incoming, upstream: Upstream)
    ensures var r := HandleChat(config, incoming, upstream).response;
      && (r.status == 502 ==> r.body.Failure? && r.body.details.Some?)
      && (r.status == 500 ==> r.body.Failure? && (r.body.details.Some? <==> config.nodeEnv == Some(Development)))
      && (r.status == 400 ==> r.body.Failure? && r.body.details.None?)
  {
  }

  /** The environment after `.env` has been loaded: API_KEY, PORT and NODE_ENV. */
  datatype Environment = Environment(apiKey: Option<string>, port: Option<string>, nodeEnv: Option<string>)

  /** `PORT || 3000`: the variable's text when set and non-empty, else the number. */
  datatype Port = Named(text: string) | Default(number: int)

  datatype Startup = Exited(code: int) | Listening(port: Port, config: Config)

  /** Start-up: exit with status 1 before listening unless API_KEY is set and non-empty. */
  function Start(env: Environment): (s: Startup)
    ensures s.Exited? <==> env.apiKey.None? || env.apiKey == Some([])
    ensures s.Exited? ==> s.code == 1
    ensures s.Listening? ==> s.config == Config(env.apiKey.value, env.nodeEnv) && s.config.apiKey != []
    ensures s.Listening? ==> s.port == if env.port.Some? && env.port.value != [] then Named(env.port.value) else Default(3000)
  {
    if env.apiKey.None? || env.apiKey.value == [] then Exited(1)
    else
      var port := if env.port.Some? && env.port.value != [] then Named(env.port.value) else Default(3000);
      Listening(port, Config(env.apiKey.value, env.nodeEnv))
  }

  /** A request to a started server; None when the process exited before listening. */
  function Serve(env: Environment, incoming: Incoming, upstream: Upstream): Option<Exchange> {
    match Start(env)
    case Exited(_) => None
    case Listening(_, config) => Some(HandleChat(config, incoming, upstream))
  }

  /**
   * Without a credential nothing is served; with one, every upstream call
   * carries it as a bearer token.
   */
  lemma ServedOnlyWithKey(env: Environment, incoming: Incoming, upstream: Upstream)
    ensures Serve(env, incoming, upstream).None? <==> env.apiKey.None? || env.apiKey == Some([])
    ensures var ex := Serve(env, incoming, upstream);
      ex.Some? && ex.value.forwarded.Some? ==>
        ex.value.forwarded.value.authorization == "Bearer " + env.apiKey.value && env.apiKey.value != []
  {
  }
}

/** The handling of one decoded request (lines 162-276 of the server loop):
    the id check, routing on `method`, the `tools/call` sub-dispatch, and the
    outer exception handler that turns a raised exception into an internal
    error response. */
module Dispatcher {
  import opened Outcomes
  import opened JsonData
  import opened Collaborators
  import opened Protocol
  import opened Tools

  const UNKNOWN_TOOL_PREFIX: string := "알 수 없는 도구: "

  /** What handling one input line does to the output and to the process. */
  datatype Effect =
    | Silent
    | Respond(response: Response)
    | Terminate(message: string)

  /** How the `try` block ends for one decoded value: `continue` before any
      output, a response ready to print, or an exception. */
  datatype Attempt =
    | Skipped
    | Completed(response: Response, calls: seq<Call>)
    | Raised(message: string)

  /** The `id` the server reads from a request object; `None` when absent. */
  function IdOf(request: map<string, Json>): Json {
    Lookup(request, "id", JNull)
  }

  function MethodOf(request: map<string, Json>): Json {
    Lookup(request, "method", JNull)
  }

  /** `request.get("params", {})`. */
  function ParamsOf(request: map<string, Json>): Json {
    Lookup(request, "params", JObject(map[]))
  }

  /** A decoded value that gets past the id check: a dict whose `id` is
      present and not null. Falsy ids such as 0, "" or false qualify. */
  predicate Identified(request: Json) {
    request.JObject? && IdOf(request.fields) != JNull
  }

  /** The body of a `tools/call` (lines 225-235): pick the tool by
      `params.name`, default `query` to "" and `max_results` to 5, and run it.
      The only failures are those of `.get` on a `params`, or on the
      `arguments` of a search, that is not a dict. */
  function CallTool(env: Env, request: map<string, Json>): (r: Result<Traced<string>>)
  {
    var params := ParamsOf(request);
    match Get(params, "name", JNull)
    case Failure(m) => Failure(m)
    case Success(name) =>
      var arguments := Lookup(params.fields, "arguments", JObject(map[]));
      if name == JString(SEARCH_TOOL) then
        match Get(arguments, "query", JString(""))
        case Failure(m) => Failure(m)
        case Success(query) =>
          Success(SearchDocument(env, query, Lookup(arguments.fields, "max_results", JInt(5))))
      else if name == JString(INFO_TOOL) then
        Success(GetDocumentInfo(env))
      else
        Success(Traced(UNKNOWN_TOOL_PREFIX + PyStr(name, env.repr), []))
  }

  /** Routing on `method` (lines 168-258) for a request that passed the id
      check; `Failure` when handling raised. */
  function Route(env: Env, request: map<string, Json>): Result<Traced<Body>> {
    var name := MethodOf(request);
    if name == JString("initialize") then
      Success(Traced(ResultBody(InitializeResult), []))
    else if name == JString("tools/list") then
      Success(Traced(ResultBody(ToolsListResult()), []))
    else if name == JString("tools/call") then
      match CallTool(env, request)
      case Failure(m) => Failure(m)
      case Success(t) => Success(Traced(ResultBody(ToolTextResult(t.value)), t.calls))
    else
      Success(Traced(ErrorBody(METHOD_NOT_FOUND, METHOD_NOT_FOUND_MESSAGE), []))
  }

  /** The `try` block (lines 162-262) for a decoded value. */
  function TryRequest(env: Env, request: Json): Attempt {
    match Get(request, "id", JNull)
    case Failure(m) => Raised(m)
    case Success(id) =>
      if id == JNull then Skipped
      else
        match Route(env, request.fields)
        case Failure(m) => Raised(m)
        case Success(t) => Completed(Response(id, t.value), t.calls)
  }

  /** The `except` handler (lines 264-276). `last` is the `request` local as
      the handler sees it: `None` when it was never assigned, otherwise the
      value most recently decoded, possibly on an earlier line. When that
      value is not a dict, `request.get` raises again inside the handler and
      the loop ends. */
  function Recover(last: Option<Json>, message: string): (e: Effect)
    ensures e.Respond? <==> last.Some? && Identified(last.value)
    ensures e.Respond? ==> e.response == Response(IdOf(last.value.fields), ErrorBody(INTERNAL_ERROR, INTERNAL_ERROR_PREFIX + message))
    ensures e.Terminate? <==> last.Some? && !last.value.JObject?
  {
    match last
    case None => Silent
    case Some(request) =>
      match Get(request, "id", JNull)
      case Failure(m) => Terminate(m)
      case Success(id) =>
        if id == JNull then Silent
        else Respond(Response(id, ErrorBody(INTERNAL_ERROR, INTERNAL_ERROR_PREFIX + message)))
  }

  /** One decoded value through the `try` block and, if that raised, the
      `except` handler; with the collaborator calls made on the way. */
  function HandleRequest(env: Env, request: Json): (r: Traced<Effect>)
    ensures r.value.Respond? <==> Identified(request)
    ensures r.value.Terminate? <==> !request.JObject?
    ensures r.value.Respond? ==> r.value.response.id == IdOf(request.fields)
  {
    match TryRequest(env, request)
    case Skipped => Traced(Silent, [])
    case Completed(response, calls) => Traced(Respond(response), calls)
    case Raised(m) => Traced(Recover(Some(request), m), [])
  }

  /** A request that the `tools/call` branch cannot read: its `params` is
      present but not a dict, or it names the search tool with `arguments`
      that are not a dict. Returns the value whose `.get` raises. */
  function Unreadable(request: map<string, Json>): Option<Json> {
    var params := ParamsOf(request);
    if !params.JObject? then Some(params)
    else
      var arguments := Lookup(params.fields, "arguments", JObject(map[]));
      if Lookup(params.fields, "name", JNull) == JString(SEARCH_TOOL) && !arguments.JObject?
      then Some(arguments)
      else None
  }

  /** The `tools/call` branch raises exactly on an unreadable request, with
      the AttributeError of the value it could not read. */
  lemma CallToolFailsExactlyWhenUnreadable(env: Env, request: map<string, Json>)
    ensures CallTool(env, request).Failure? <==> Unreadable(request).Some?
    ensures CallTool(env, request).Failure? ==>
      CallTool(env, request).message == NoGetMessage(Unreadable(request).value)
  {
  }

  /** Routing raises only in the `tools/call` branch, and a successful route
      is never an internal error. */
  lemma RouteOutcome(env: Env, request: map<string, Json>)
    ensures Route(env, request).Failure? <==>
      MethodOf(request) == JString("tools/call") && CallTool(env, request).Failure?
    ensures Route(env, request).Failure? ==> Route(env, request).message == CallTool(env, request).message
    ensures Route(env, request).Success? && Route(env, request).value.value.ErrorBody? ==>
      Route(env, request).value.value == ErrorBody(METHOD_NOT_FOUND, METHOD_NOT_FOUND_MESSAGE)
  {
  }

  /** An identified request is answered with the routed body, or with an
      internal error carrying the message of what routing raised. */
  lemma HandleIdentified(env: Env, request: Json)
    requires Identified(request)
    ensures HandleRequest(env, request).value ==
      match Route(env, request.fields)
      case Failure(m) => Respond(Response(IdOf(request.fields), ErrorBody(INTERNAL_ERROR, INTERNAL_ERROR_PREFIX + m)))
      case Success(t) => Respond(Response(IdOf(request.fields), t.value))
  {
  }

  /** A dict without an id, or with a null id, gets no response and calls no
      collaborator, whatever its method. */
  lemma UnidentifiedIsSilent(env: Env, request: Json)
    requires request.JObject? && IdOf(request.fields) == JNull
    ensures HandleRequest(env, request) == Traced(Silent, [])
  {
  }

  /** A decoded value that is not a dict (a list, string, number, boolean or
      null) makes `request.get` raise in the `try` block and again in the
      handler: the loop ends. */
  lemma NonObjectTerminates(env: Env, request: Json)
    requires !request.JObject?
    ensures HandleRequest(env, request) == Traced(Terminate(NoGetMessage(request)), [])
  {
  }

  /** Every identified request gets exactly one response, carrying its own id;
      the only error codes are "method not found" and "internal error". */
  lemma IdentifiedGetsResponse(env: Env, request: Json)
    requires Identified(request)
    ensures var e := HandleRequest(env, request).value;
      && e.Respond?
      && e.response.id == IdOf(request.fields)
      && (e.response.body.ErrorBody? ==> e.response.body.code in {METHOD_NOT_FOUND, INTERNAL_ERROR})
  {
  }

  /** An unknown or missing method is answered with -32601 "Method not found"
      and no collaborator is called. */
  lemma UnknownMethod(env: Env, request: Json)
    requires Identified(request)
    requires MethodOf(request.fields) !in {JString("initialize"), JString("tools/list"), JString("tools/call")}
    ensures HandleRequest(env, request) ==
      Traced(Respond(Response(IdOf(request.fields), ErrorBody(METHOD_NOT_FOUND, METHOD_NOT_FOUND_MESSAGE))), [])
  {
  }

  /** `initialize` and `tools/list` answer with their fixed results and call
      no collaborator. */
  lemma FixedMethods(env: Env, request: Json)
    requires Identified(request)
    ensures MethodOf(request.fields) == JString("initialize") ==>
      HandleRequest(env, request) == Traced(Respond(Response(IdOf(request.fields), ResultBody(InitializeResult))), [])
    ensures MethodOf(request.fields) == JString("tools/list") ==>
      HandleRequest(env, request) == Traced(Respond(Response(IdOf(request.fields), ResultBody(ToolsListResult()))), [])
  {
  }

  /** An identified request gets an internal error exactly when it is a
      `tools/call` the branch cannot read, and the message names the type of
      the value that could not be read. */
  lemma InternalErrorExactly(env: Env, request: Json)
    requires Identified(request)
    ensures var e := HandleRequest(env, request).value;
      (e.Respond? && e.response.body.ErrorBody? && e.response.body.code == INTERNAL_ERROR)
      <==> (MethodOf(request.fields) == JString("tools/call") && Unreadable(request.fields).Some?)
    ensures MethodOf(request.fields) == JString("tools/call") && Unreadable(request.fields).Some? ==>
      HandleRequest(env, request).value.response.body ==
        ErrorBody(INTERNAL_ERROR, INTERNAL_ERROR_PREFIX + NoGetMessage(Unreadable(request.fields).value))
  {
    HandleIdentified(env, request);
    RouteOutcome(env, request.fields);
    CallToolFailsExactlyWhenUnreadable(env, request.fields);
  }

  /** A readable `tools/call` always succeeds at the protocol level, whatever
      the collaborators do: tool failures, unknown tools and empty searches are
      reported inside a single text item. */
  lemma ToolFailureIsNotProtocolFailure(env: Env, request: Json)
    requires Identified(request)
    requires MethodOf(request.fields) == JString("tools/call")
    requires Unreadable(request.fields).None?
    ensures var e := HandleRequest(env, request).value;
      && e.Respond?
      && e.response.body.ResultBody?
      && ToolText(e.response.body.value).Some?
  {
  }

  /** A tool name other than the two known ones (a missing `params` or
      `name` reads as `None`) yields the text "알 수 없는 도구: " followed by the
      name, and calls no collaborator. */
  lemma UnknownToolIsText(env: Env, request: Json)
    requires Identified(request)
    requires MethodOf(request.fields) == JString("tools/call")
    requires ParamsOf(request.fields).JObject?
    requires Lookup(ParamsOf(request.fields).fields, "name", JNull) !in {JString(SEARCH_TOOL), JString(INFO_TOOL)}
    ensures var name := Lookup(ParamsOf(request.fields).fields, "name", JNull);
      HandleRequest(env, request) ==
        Traced(Respond(Response(IdOf(request.fields), ResultBody(ToolTextResult(UNKNOWN_TOOL_PREFIX + PyStr(name, env.repr))))), [])
    ensures "params" !in request.fields ==>
      HandleRequest(env, request).value.response.body == ResultBody(ToolTextResult(UNKNOWN_TOOL_PREFIX + "None"))
  {
  }

  /** A search reads `query` (default "") and `max_results` (default 5) from
      the arguments without validating them, and its text is the search
      handler's text. */
  lemma SearchCall(env: Env, request: Json)
    requires Identified(request)
    requires MethodOf(request.fields) == JString("tools/call")
    requires ParamsOf(request.fields).JObject?
    requires Lookup(ParamsOf(request.fields).fields, "name", JNull) == JString(SEARCH_TOOL)
    requires Lookup(ParamsOf(request.fields).fields, "arguments", JObject(map[])).JObject?
    ensures var arguments := Lookup(ParamsOf(request.fields).fields, "arguments", JObject(map[])).fields;
      var search := SearchDocument(env, Lookup(arguments, "query", JString("")), Lookup(arguments, "max_results", JInt(5)));
      HandleRequest(env, request) ==
        Traced(Respond(Response(IdOf(request.fields), ResultBody(ToolTextResult(search.value)))), search.calls)
  {
  }

  /** `get_document_info` counts the chunks once, and its text, the info
      text for the count or the failure text, is the result; a failed count
      is reported as text in a successful response. */
  lemma InfoCall(env: Env, request: Json)
    requires Identified(request)
    requires MethodOf(request.fields) == JString("tools/call")
    requires ParamsOf(request.fields).JObject?
    requires Lookup(ParamsOf(request.fields).fields, "name", JNull) == JString(INFO_TOOL)
    ensures HandleRequest(env, request) ==
      Traced(Respond(Response(IdOf(request.fields), ResultBody(ToolTextResult(GetDocumentInfo(env).value)))), [CountChunks])
    ensures env.chunkCount.Failure? ==>
      HandleRequest(env, request).value ==
        Respond(Response(IdOf(request.fields), ResultBody(ToolTextResult(INFO_FAILED_PREFIX + env.chunkCount.message))))
  {
  }
}

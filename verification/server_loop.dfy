/** The read-dispatch-print loop of `handle_mcp_request` as a fold over the
    finite sequence of lines read from standard input. End of input does not
    stop the source loop (an empty read is skipped like a blank line), so a
    run that reads all its lines without exiting is still listening.

    The loop is stated over the two things it calls, the decoder and the
    dispatcher, and its properties are proved for every dispatcher that keeps
    the dispatcher's contract; `Serve` runs it with the server's own. */
module ServerLoop {
  import opened Outcomes
  import opened Text
  import opened JsonData
  import opened Collaborators
  import opened Protocol
  import opened Dispatcher

  /** `Exited(1)` is `sys.exit(1)` in `main` after an exception escaped the loop. */
  datatype Status = Listening | Exited(code: int)

  /** The loop's state: the `request` local (which survives from one
      iteration to the next), the responses printed so far, and whether the
      process is still running. */
  datatype LoopState = LoopState(last: Option<Json>, emitted: seq<Response>, status: Status)

  const Start: LoopState := LoopState(None, [], Listening)

  /** What the loop calls: `json.loads` on a stripped line, the handling of
      a decoded value (the `try` block and, if it raised, the handler), and
      the handler on its own, for an exception raised by the decoder. */
  datatype Server = Server(
    parse: string -> ParseOutcome,
    dispatch: Json -> Effect,
    recover: (Option<Json>, string) -> Effect)

  /** What the loop relies on from the dispatcher: a response exactly for an
      identified request, carrying its id, and an exit exactly for a value
      that is not a dict. */
  ghost predicate Dispatches(dispatch: Json -> Effect) {
    forall v ::
      && (dispatch(v).Respond? <==> Identified(v))
      && (dispatch(v).Terminate? <==> !v.JObject?)
      && (dispatch(v).Respond? ==> dispatch(v).response.id == IdOf(v.fields))
  }

  /** What the loop relies on from the handler: an internal error for the
      id of the `request` local exactly when that is an identified request,
      and an exit exactly when it is not a dict. */
  ghost predicate Recovers(recover: (Option<Json>, string) -> Effect) {
    forall last, m ::
      && (recover(last, m).Respond? <==> last.Some? && Identified(last.value))
      && (recover(last, m).Respond? ==>
            recover(last, m).response == Response(IdOf(last.value.fields), ErrorBody(INTERNAL_ERROR, INTERNAL_ERROR_PREFIX + m)))
      && (recover(last, m).Terminate? <==> last.Some? && !last.value.JObject?)
  }

  ghost predicate Conforms(srv: Server) {
    Dispatches(srv.dispatch) && Recovers(srv.recover)
  }

  /** The server as `handle_mcp_request` runs it. */
  function ServerOf(env: Env): Server {
    Server(env.parse, v => HandleRequest(env, v).value, (last, m) => Recover(last, m))
  }

  lemma ServerOfConforms(env: Env)
    ensures Conforms(ServerOf(env))
  {
  }

  /** A line is skipped outright when it strips to nothing. */
  predicate Blank(line: string) {
    Strip(line) == []
  }

  function ApplyEffect(st: LoopState, e: Effect): (r: LoopState)
    ensures st.emitted <= r.emitted && r.last == st.last
  {
    match e
    case Silent => st
    case Respond(r) => st.(emitted := st.emitted + [r])
    case Terminate(_) => st.(status := Exited(1))
  }

  /** One iteration of the loop on one line. */
  function Step(srv: Server, st: LoopState, line: string): LoopState
    requires st.status == Listening
  {
    var text := Strip(line);
    if text == [] then st
    else
      match srv.parse(text)
      case Malformed => st
      case ParserRaised(m) => ApplyEffect(st, srv.recover(st.last, m))
      case Parsed(v) => ApplyEffect(st.(last := Some(v)), srv.dispatch(v))
  }

  /** Unfolds `Step` on a line that decodes to a value. */
  lemma StepOnParsed(srv: Server, st: LoopState, line: string, v: Json)
    requires st.status == Listening
    requires !Blank(line) && srv.parse(Strip(line)) == Parsed(v)
    ensures Step(srv, st, line) == ApplyEffect(st.(last := Some(v)), srv.dispatch(v))
  {
  }

  /** Unfolds `Step` on a line whose decoding raised something other than a
      JSONDecodeError. */
  lemma StepOnParserRaised(srv: Server, st: LoopState, line: string, m: string)
    requires st.status == Listening
    requires !Blank(line) && srv.parse(Strip(line)) == ParserRaised(m)
    ensures Step(srv, st, line) == ApplyEffect(st, srv.recover(st.last, m))
  {
  }

  /** A decoder exception leaves the `request` local as it was and prints at
      most the internal error for that local's id: exactly when the local
      holds an identified request. The loop ends only if the local is not a
      dict. */
  lemma StepOnDecoderException(srv: Server, st: LoopState, line: string, m: string)
    requires Conforms(srv)
    requires st.status == Listening
    requires !Blank(line) && srv.parse(Strip(line)) == ParserRaised(m)
    ensures var r := Step(srv, st, line);
      && r.last == st.last
      && (if st.last.Some? && Identified(st.last.value)
          then r.emitted == st.emitted + [Response(IdOf(st.last.value.fields), ErrorBody(INTERNAL_ERROR, INTERNAL_ERROR_PREFIX + m))]
          else r.emitted == st.emitted)
      && (r.status.Exited? <==> st.last.Some? && !st.last.value.JObject?)
  {
    StepOnParserRaised(srv, st, line, m);
    var e := srv.recover(st.last, m);
    if st.last.Some? && Identified(st.last.value) {
      assert e.Respond?;
    } else if st.last.Some? && !st.last.value.JObject? {
      assert e.Terminate?;
    } else {
      assert e.Silent?;
    }
  }

  /** The loop over the remaining lines; once exited, nothing further happens. */
  function Run(srv: Server, st: LoopState, lines: seq<string>): (r: LoopState)
    ensures st.status.Exited? ==> r == st
    decreases |lines|
  {
    if |lines| == 0 || st.status.Exited? then st
    else Run(srv, Step(srv, st, lines[0]), lines[1..])
  }

  /** The whole run of the server on its input lines. */
  function Serve(env: Env, lines: seq<string>): LoopState {
    Run(ServerOf(env), Start, lines)
  }

  /** One step prints at most one line, and leaves what was printed before alone. */
  lemma StepAppends(srv: Server, st: LoopState, line: string)
    requires st.status == Listening
    ensures var r := Step(srv, st, line);
      && |st.emitted| <= |r.emitted| <= |st.emitted| + 1
      && r.emitted[..|st.emitted|] == st.emitted
      && (r.status == Listening || r.status == Exited(1))
  {
    var text := Strip(line);
    if text != [] {
      match srv.parse(text)
      case Malformed =>
      case ParserRaised(m) =>
        StepOnParserRaised(srv, st, line, m);
      case Parsed(v) =>
        StepOnParsed(srv, st, line, v);
    }
  }

  /** Output is only ever appended to, and the only way out of the loop is
      exit status 1. */
  lemma {:induction false} RunAppends(srv: Server, st: LoopState, lines: seq<string>)
    requires st.status == Listening
    ensures var r := Run(srv, st, lines);
      && |st.emitted| <= |r.emitted| <= |st.emitted| + |lines|
      && r.emitted[..|st.emitted|] == st.emitted
      && (r.status == Listening || r.status == Exited(1))
    decreases |lines|
  {
    if |lines| > 0 {
      var next := Step(srv, st, lines[0]);
      StepAppends(srv, st, lines[0]);
      if next.status == Listening {
        RunAppends(srv, next, lines[1..]);
        var r := Run(srv, next, lines[1..]);
        assert r.emitted[..|st.emitted|] == r.emitted[..|next.emitted|][..|st.emitted|];
      }
    }
  }

  /** Running over `a + b` is running over `a`, then over `b`. */
  lemma {:induction false} RunAppend(srv: Server, st: LoopState, a: seq<string>, b: seq<string>)
    ensures Run(srv, st, a + b) == Run(srv, Run(srv, st, a), b)
    decreases |a|
  {
    if |a| == 0 {
      assert a + b == b;
    } else if st.status == Listening {
      assert (a + b)[0] == a[0];
      assert (a + b)[1..] == a[1..] + b;
      RunAppend(srv, Step(srv, st, a[0]), a[1..], b);
    }
  }

  /** A line that is blank or not valid JSON. */
  predicate Ignored(srv: Server, line: string) {
    Blank(line) || srv.parse(Strip(line)) == Malformed
  }

  /** A blank or undecodable line can be deleted from the input without
      changing anything: it produces no output, does not touch the `request`
      local, and does not stop the lines after it from being processed. */
  lemma IgnoredLineRemovable(srv: Server, a: seq<string>, line: string, b: seq<string>)
    requires Ignored(srv, line)
    ensures Run(srv, Start, a + [line] + b) == Run(srv, Start, a + b)
  {
    RunAppend(srv, Start, a + [line], b);
    RunAppend(srv, Start, a, [line]);
    RunAppend(srv, Start, a, b);
    var mid := Run(srv, Start, a);
    if mid.status == Listening {
      assert [line][1..] == [];
      assert Run(srv, mid, [line]) == Run(srv, Step(srv, mid, line), []);
    }
  }

  /** The same, for the server as it runs. */
  lemma ServeIgnoresIgnoredLine(env: Env, a: seq<string>, line: string, b: seq<string>)
    requires Blank(line) || env.parse(Strip(line)) == Malformed
    ensures Serve(env, a + [line] + b) == Serve(env, a + b)
  {
    IgnoredLineRemovable(ServerOf(env), a, line, b);
  }

  /** A line holding a dict with no id, or a null id, prints nothing and the
      loop goes on, whatever its method. */
  lemma UnidentifiedLineSilent(env: Env, st: LoopState, line: string)
    requires st.status == Listening
    requires !Blank(line)
    requires env.parse(Strip(line)).Parsed?
    requires var v := env.parse(Strip(line)).value; v.JObject? && IdOf(v.fields) == JNull
    ensures Step(ServerOf(env), st, line).emitted == st.emitted
    ensures Step(ServerOf(env), st, line).status == Listening
  {
    var v := env.parse(Strip(line)).value;
    UnidentifiedIsSilent(env, v);
  }

  /** A line whose text decodes to something other than a dict ends the run. */
  predicate Fatal(srv: Server, line: string) {
    && !Blank(line)
    && srv.parse(Strip(line)).Parsed?
    && !srv.parse(Strip(line)).value.JObject?
  }

  /** While the loop is listening, the `request` local is unset or a dict:
      a decoded non-dict stops the loop at once. */
  predicate LastIsObject(st: LoopState) {
    st.last.None? || st.last.value.JObject?
  }

  /** A line that is blank, undecodable, or a dict. */
  predicate Benign(srv: Server, line: string) {
    Ignored(srv, line) || (srv.parse(Strip(line)).Parsed? && srv.parse(Strip(line)).value.JObject?)
  }

  /** The request a line carries when it decodes to a dict that passes the id check. */
  function Identify(srv: Server, line: string): (r: Option<Json>)
    ensures r.Some? ==> Identified(r.value)
  {
    var text := Strip(line);
    if text != [] && srv.parse(text).Parsed? && Identified(srv.parse(text).value)
    then Some(srv.parse(text).value) else None
  }

  /** A line that decodes to a non-dict ends the run. */
  lemma StepOnFatal(srv: Server, st: LoopState, line: string)
    requires st.status == Listening
    requires Conforms(srv)
    requires Fatal(srv, line)
    ensures Step(srv, st, line).status == Exited(1)
  {
    var v := srv.parse(Strip(line)).value;
    StepOnParsed(srv, st, line, v);
    assert srv.dispatch(v).Terminate?;
  }

  /** Any other line leaves the loop listening, with a dict (or nothing) in
      the `request` local. */
  lemma StepOnNonFatal(srv: Server, st: LoopState, line: string)
    requires st.status == Listening && LastIsObject(st)
    requires Conforms(srv)
    requires !Fatal(srv, line)
    ensures Step(srv, st, line).status == Listening
    ensures LastIsObject(Step(srv, st, line))
  {
    var text := Strip(line);
    if text != [] {
      match srv.parse(text)
      case Malformed =>
      case ParserRaised(m) =>
        StepOnParserRaised(srv, st, line, m);
        assert !srv.recover(st.last, m).Terminate?;
      case Parsed(v) =>
        StepOnParsed(srv, st, line, v);
        assert !srv.dispatch(v).Terminate?;
    }
  }

  /** A blank, undecodable or dict line appends the dispatcher's response
      exactly when it carries an identified request. */
  lemma StepOnBenign(srv: Server, st: LoopState, line: string)
    requires st.status == Listening
    requires Conforms(srv)
    requires Benign(srv, line)
    ensures Step(srv, st, line).status == Listening
    ensures Step(srv, st, line).emitted == st.emitted +
      (match Identify(srv, line)
       case Some(v) => [srv.dispatch(v).response]
       case None => [])
  {
    var text := Strip(line);
    if text != [] && srv.parse(text).Parsed? {
      var v := srv.parse(text).value;
      StepOnParsed(srv, st, line, v);
      var e := srv.dispatch(v);
      assert !e.Terminate?;
      if Identified(v) {
        assert Identify(srv, line) == Some(v);
        assert e.Respond?;
      } else {
        assert Identify(srv, line) == None;
        assert e.Silent?;
      }
    }
  }

  lemma {:induction false} RunExitsOnFatal(srv: Server, st: LoopState, lines: seq<string>)
    requires Conforms(srv)
    requires st.status == Listening && LastIsObject(st)
    ensures var r := Run(srv, st, lines);
      && (r.status.Exited? <==> exists i :: 0 <= i < |lines| && Fatal(srv, lines[i]))
      && (r.status == Listening ==> LastIsObject(r))
    decreases |lines|
  {
    if |lines| > 0 {
      var next := Step(srv, st, lines[0]);
      if Fatal(srv, lines[0]) {
        StepOnFatal(srv, st, lines[0]);
      } else {
        StepOnNonFatal(srv, st, lines[0]);
        RunExitsOnFatal(srv, next, lines[1..]);
        if exists i :: 0 <= i < |lines| && Fatal(srv, lines[i]) {
          var i :| 0 <= i < |lines| && Fatal(srv, lines[i]);
          assert lines[i] == lines[1..][i - 1];
        }
        if exists i :: 0 <= i < |lines| - 1 && Fatal(srv, lines[1..][i]) {
          var i :| 0 <= i < |lines| - 1 && Fatal(srv, lines[1..][i]);
          assert lines[1..][i] == lines[i + 1];
        }
      }
    }
  }

  /** The server exits, with status 1, exactly when some line decodes to a
      value that is not a dict; running out of input never ends it. */
  lemma ServeExitsExactlyOnFatal(env: Env, lines: seq<string>)
    ensures Serve(env, lines).status.Exited? <==>
      exists i :: 0 <= i < |lines| && Fatal(ServerOf(env), lines[i])
    ensures Serve(env, lines).status.Exited? ==> Serve(env, lines).status == Exited(1)
  {
    var srv := ServerOf(env);
    ServerOfConforms(env);
    RunExitsOnFatal(srv, Start, lines);
    RunAppends(srv, Start, lines);
  }

  /** The decoded requests that pass the id check, in input order. */
  function Requests(srv: Server, lines: seq<string>): (r: seq<Json>)
    ensures forall k :: 0 <= k < |r| ==> Identified(r[k])
    ensures |r| <= |lines|
  {
    if |lines| == 0 then []
    else
      var head := match Identify(srv, lines[0]) case Some(v) => [v] case None => [];
      head + Requests(srv, lines[1..])
  }

  /** The dispatcher's response to each of a sequence of identified requests. */
  function Answers(srv: Server, requests: seq<Json>): (r: seq<Response>)
    requires Conforms(srv)
    requires forall k :: 0 <= k < |requests| ==> Identified(requests[k])
    ensures |r| == |requests|
    ensures forall k :: 0 <= k < |r| ==> r[k] == srv.dispatch(requests[k]).response
  {
    if |requests| == 0 then []
    else [srv.dispatch(requests[0]).response] + Answers(srv, requests[1..])
  }

  lemma AppendAssociates<T>(a: seq<T>, b: seq<T>, c: seq<T>)
    ensures a + b + c == a + (b + c)
  {
  }

  lemma {:induction false} AnswersAppend(srv: Server, a: seq<Json>, b: seq<Json>)
    requires Conforms(srv)
    requires forall k :: 0 <= k < |a| ==> Identified(a[k])
    requires forall k :: 0 <= k < |b| ==> Identified(b[k])
    ensures Answers(srv, a + b) == Answers(srv, a) + Answers(srv, b)
  {
    var ab := a + b;
    assert forall k :: 0 <= k < |ab| ==> Identified(ab[k]) by {
      forall k | 0 <= k < |ab| ensures Identified(ab[k]) {
        if k < |a| { assert ab[k] == a[k]; } else { assert ab[k] == b[k - |a|]; }
      }
    }
    var l := Answers(srv, ab);
    var r := Answers(srv, a) + Answers(srv, b);
    assert |l| == |r|;
    forall k | 0 <= k < |l| ensures l[k] == r[k] {
      if k < |a| { assert ab[k] == a[k]; } else { assert ab[k] == b[k - |a|]; }
    }
  }

  lemma {:induction false} RunAnswersRequests(srv: Server, st: LoopState, lines: seq<string>)
    requires Conforms(srv)
    requires st.status == Listening
    requires forall i :: 0 <= i < |lines| ==> Benign(srv, lines[i])
    ensures Run(srv, st, lines).status == Listening
    ensures Run(srv, st, lines).emitted == st.emitted + Answers(srv, Requests(srv, lines))
    decreases |lines|
  {
    if |lines| == 0 {
      assert st.emitted + [] == st.emitted;
    } else {
      var next := Step(srv, st, lines[0]);
      StepOnBenign(srv, st, lines[0]);
      var head := match Identify(srv, lines[0]) case Some(v) => [v] case None => [];
      assert next.emitted == st.emitted + Answers(srv, head) by {
        match Identify(srv, lines[0])
        case None =>
        case Some(v) => assert Answers(srv, [v]) == [srv.dispatch(v).response];
      }
      assert forall i :: 0 <= i < |lines| - 1 ==> lines[1..][i] == lines[i + 1];
      RunAnswersRequests(srv, next, lines[1..]);
      var rest := Requests(srv, lines[1..]);
      AnswersAppend(srv, head, rest);
      AppendAssociates(st.emitted, Answers(srv, head), Answers(srv, rest));
    }
  }

  /** On input made of blank lines, undecodable lines and dicts, the server
      keeps running and prints exactly one response per identified request,
      in input order, each the dispatcher's answer and carrying that request's
      id; requests without an id get nothing. */
  lemma ServeAnswersEachRequestOnce(env: Env, lines: seq<string>)
    requires forall i :: 0 <= i < |lines| ==> Benign(ServerOf(env), lines[i])
    ensures var out := Serve(env, lines);
      var requests := Requests(ServerOf(env), lines);
      && out.status == Listening
      && |out.emitted| == |requests|
      && forall k :: 0 <= k < |requests| ==>
           out.emitted[k] == HandleRequest(env, requests[k]).value.response
           && out.emitted[k].id == IdOf(requests[k].fields)
  {
    var srv := ServerOf(env);
    ServerOfConforms(env);
    RunAnswersRequests(srv, Start, lines);
    assert [] + Answers(srv, Requests(srv, lines)) == Answers(srv, Requests(srv, lines));
  }

  /** Every printed line has the JSON-RPC 2.0 response shape. This holds by
      construction: `Encode` gives every response that shape, so the loop
      plays no part in it. */
  lemma EmittedAreWireResponses(env: Env, lines: seq<string>)
    ensures forall r :: r in Serve(env, lines).emitted ==> IsWireResponse(Encode(r))
  {
  }

  /** An exception from the decoder itself (not a JSONDecodeError) reaches the
      outer handler while the `request` local still holds the value decoded
      from an earlier line. If that was an identified request, its id is
      answered a second time, with an internal error. */
  lemma ParserFailureReusesEarlierId(srv: Server, first: string, second: string, v: Json, m: string)
    requires Conforms(srv)
    requires !Blank(first) && srv.parse(Strip(first)) == Parsed(v) && Identified(v)
    requires !Blank(second) && srv.parse(Strip(second)) == ParserRaised(m)
    ensures var out := Run(srv, Start, [first, second]).emitted;
      && |out| == 2
      && out[0] == srv.dispatch(v).response
      && out[0].id == IdOf(v.fields)
      && out[1] == Response(IdOf(v.fields), ErrorBody(INTERNAL_ERROR, INTERNAL_ERROR_PREFIX + m))
  {
    var e := srv.dispatch(v);
    StepOnParsed(srv, Start, first, v);
    var s1 := Step(srv, Start, first);
    assert s1 == LoopState(Some(v), [e.response], Listening);
    StepOnParserRaised(srv, s1, second, m);
    var s2 := Step(srv, s1, second);
    var err := Response(IdOf(v.fields), ErrorBody(INTERNAL_ERROR, INTERNAL_ERROR_PREFIX + m));
    assert s2 == LoopState(Some(v), [e.response, err], Listening);
    assert [first, second][1..] == [second];
    assert [second][1..] == [];
    assert Run(srv, Start, [first, second]) == Run(srv, s1, [second]) == Run(srv, s2, []) == s2;
  }

  /** The same for the server as it runs: the earlier request is answered
      by `HandleRequest`, and then its id again with an internal error. */
  lemma ServeRepeatsIdAfterParserFailure(env: Env, first: string, second: string, v: Json, m: string)
    requires !Blank(first) && env.parse(Strip(first)) == Parsed(v) && Identified(v)
    requires !Blank(second) && env.parse(Strip(second)) == ParserRaised(m)
    ensures var out := Serve(env, [first, second]).emitted;
      && |out| == 2
      && out[0] == HandleRequest(env, v).value.response
      && out[1] == Response(IdOf(v.fields), ErrorBody(INTERNAL_ERROR, INTERNAL_ERROR_PREFIX + m))
  {
    ServerOfConforms(env);
    ParserFailureReusesEarlierId(ServerOf(env), first, second, v, m);
  }

  /** A decoder exception before any line has been decoded prints nothing. */
  lemma ParserFailureFirstIsSilent(env: Env, line: string, m: string)
    requires !Blank(line) && env.parse(Strip(line)) == ParserRaised(m)
    ensures Step(ServerOf(env), Start, line) == Start
  {
  }
}

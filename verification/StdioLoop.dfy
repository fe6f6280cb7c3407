/** The line loop of the direct server over standard input and output, against what JSON-RPC 2.0 asks of a server
    that is sent one message a line. */
module StdioLoop {
  import opened Prelude

  const PARSE_ERROR := -32700
  const INVALID_REQUEST := -32600
  const METHOD_NOT_FOUND := -32601
  const INVALID_PARAMS := -32602
  const INTERNAL_ERROR := -32603

  /** A request id other than null; the last kind is any other JSON value. */
  datatype Id = Text(text: string) | Number(number: real) | OtherId(json: string)
  datatype IdMember = Absent | Null | Given(id: Id)

  datatype Params = NoParams | NamedParams | ListParams | OtherParams

  /** A parsed object: whether its version is "2.0", its id, its method (None when absent or not a text) and its
      parameters. */
  datatype Request = Request(versioned: bool, id: IdMember, verb: Option<string>, params: Params)

  datatype Value = Scalar | Object(request: Request) | Batch(items: seq<Value>)

  /** What the loop can meet on a line. The reader raises on a line that is too long, whatever it holds, and the
      decoder on bytes that are no text. */
  datatype Line = Blank | Unparsable | Undecodable | TooLong(content: Line) | Json(value: Value)

  /** A reply as the source builds it, with its optional members; a null id is None. */
  datatype Reply = Reply(id: Option<Id>, result: Option<string>, error: Option<int>)

  // ---------------------------------------------------------------------------------------
  // One request
  // ---------------------------------------------------------------------------------------

  /** What the handler of a method returns, or the code of what it raises. */
  datatype Outcome = Result(result: string) | Raised(code: int)

  function Dispatch(request: Request): Outcome {
    if request.verb == Some("initialize") then Result("server info")
    else if request.verb == Some("tools/list") then Result("tools")
    else if request.verb == Some("tools/call") then
      if request.params.NamedParams? || request.params.NoParams? then Result("content") else Raised(INTERNAL_ERROR)
    else if request.verb == Some("ping") then Result("{}")
    else Raised(METHOD_NOT_FOUND)
  }

  /** `handle_request`. */
  function HandleRequest(request: Request): (r: Option<Reply>)
    ensures r.None? <==> !request.id.Given?
    ensures r.Some? ==> r.value.id == Some(request.id.id) && (r.value.result.Some? <==> r.value.error.None?)
  {
    if !request.id.Given? then None
    else
      match Dispatch(request)
      case Result(result) => Some(Reply(Some(request.id.id), Some(result), None))
      case Raised(code) => Some(Reply(Some(request.id.id), None, Some(code)))
  }

  /** What the loop writes for one line. */
  function Written(line: Line): seq<Reply> {
    match line
    case Unparsable => [Reply(None, None, Some(PARSE_ERROR))]
    case Json(Object(request)) => if HandleRequest(request).Some? then [HandleRequest(request).value] else []
    case _ => []
  }

  function AllWritten(lines: seq<Line>): seq<Reply> {
    if lines == [] then [] else AllWritten(lines[..|lines| - 1]) + Written(lines[|lines| - 1])
  }

  // ---------------------------------------------------------------------------------------
  // The protocol
  // ---------------------------------------------------------------------------------------

  /** Section 4 of JSON-RPC 2.0: a version of "2.0", a text as method, structured parameters if any, and as id a
      text, a number or null, if any. */
  predicate ValidRequest(r: Request) {
    r.versioned && r.verb.Some? && !r.params.OtherParams? && !(r.id.Given? && r.id.id.OtherId?)
  }

  /** Sections 4.1 and 5.1: everything but a valid notification asks for a reply. */
  predicate CallAsks(v: Value) {
    v.Object? ==> !(ValidRequest(v.request) && v.request.id.Absent?)
  }

  /** Section 6: so does a batch that is empty or has a member that does. */
  predicate ValueAsks(v: Value) {
    match v
    case Batch(items) => items == [] || exists item | item in items :: CallAsks(item)
    case _ => CallAsks(v)
  }

  predicate Asks(line: Line) {
    match line
    case Blank => false
    case Unparsable | Undecodable => true
    case TooLong(content) => Asks(content)
    case Json(value) => ValueAsks(value)
  }

  const VERBS := ["initialize", "tools/list", "tools/call", "ping"]

  /** The error a single value asks for by section 5.1: it is no request, its method is unknown, or it is a tool call
      whose parameters have no names. */
  function ErrorFor(v: Value): Option<int> {
    if !v.Object? || !ValidRequest(v.request) then Some(INVALID_REQUEST)
    else if v.request.verb.value !in VERBS then Some(METHOD_NOT_FOUND)
    else if v.request.verb.value == VERBS[2] && v.request.params.ListParams? then Some(INVALID_PARAMS)
    else None
  }

  /** The id a reply must carry: that of a valid request, else null. */
  function IdFor(v: Value): Option<Id> {
    if v.Object? && ValidRequest(v.request) && v.request.id.Given? then Some(v.request.id.id) else None
  }

  /** Whether a reply is one for that line: the right id, with exactly one of result and error, and the right error.
      A batch with members takes one array of replies, so no single reply is one for it. */
  predicate Answers(reply: Reply, line: Line) {
    match line
    case Blank => false
    case Unparsable | Undecodable => reply == Reply(None, None, Some(PARSE_ERROR))
    case TooLong(content) => Answers(reply, content)
    case Json(v) =>
      && ValueAsks(v) && (v.Batch? ==> v.items == [])
      && reply.id == IdFor(v) && (reply.result.Some? <==> reply.error.None?) && reply.error == ErrorFor(v)
  }

  /** The positions of the lines that ask for a reply. */
  function AskingAt(lines: seq<Line>): (r: seq<nat>) {
    if lines == [] then []
    else
      var before := AskingAt(lines[..|lines| - 1]);
      if Asks(lines[|lines| - 1]) then before + [|lines| - 1] else before
  }

  /** They are in increasing order and miss no such line. */
  lemma {:induction false} AskingAtIsComplete(lines: seq<Line>)
    ensures var r := AskingAt(lines);
            && (forall i, j | 0 <= i < j < |r| :: r[i] < r[j])
            && (forall k: nat :: k in r <==> k < |lines| && Asks(lines[k]))
  {
    if lines != [] {
      AskingAtIsComplete(lines[..|lines| - 1]);
      var before := AskingAt(lines[..|lines| - 1]);
      forall i | 0 <= i < |before| ensures before[i] < |lines| - 1 {
        assert before[i] in before;
      }
    }
  }

  /** One right reply for each line that asks for one, in order, and nothing else. */
  ghost predicate RepliesTo(out: seq<Reply>, lines: seq<Line>) {
    var at := AskingAt(lines);
    |out| == |at| && forall k | 0 <= k < |out| :: at[k] < |lines| && Answers(out[k], lines[at[k]])
  }

  // ---------------------------------------------------------------------------------------
  // The loop
  // ---------------------------------------------------------------------------------------

  /** A line on which the loop ends: an exception that only the handler around the whole loop catches. */
  predicate Fatal(line: Line) {
    line.Undecodable? || line.TooLong? || (line.Json? && !line.value.Object?)
  }

  /** The lines that are read before the loop ends. */
  function Live(lines: seq<Line>): (r: seq<Line>)
    ensures r <= lines
  {
    if lines == [] || Fatal(lines[0]) then [] else [lines[0]] + Live(lines[1..])
  }

  lemma {:induction false} LiveStops(lines: seq<Line>, n: nat)
    requires n <= |lines| && (forall k | 0 <= k < n :: !Fatal(lines[k])) && (n < |lines| ==> Fatal(lines[n]))
    ensures Live(lines) == lines[..n]
  {
    if n > 0 {
      LiveStops(lines[1..], n - 1);
      assert lines[..n] == [lines[0]] + lines[1..][..n - 1];
    }
  }

  /** `run_stdio`, from the first line to the end of the input or the first fatal line. */
  method RunStdio(lines: seq<Line>) returns (out: seq<Reply>)
    ensures out == AllWritten(Live(lines))
  {
    out := [];
    var i := 0;
    while i < |lines| && !Fatal(lines[i])
      invariant i <= |lines|
      invariant forall k | 0 <= k < i :: !Fatal(lines[k])
      invariant out == AllWritten(lines[..i])
    {
      var more := [];
      match lines[i] {
        case Blank =>
        case Unparsable =>
          more := [Reply(None, None, Some(PARSE_ERROR))];
        case Json(value) =>
          var response := HandleRequest(value.request);
          if response.Some? {
            more := [response.value];
          }
      }
      assert lines[..i + 1][..i] == lines[..i];
      out := out + more;
      i := i + 1;
    }
    LiveStops(lines, i);
  }

  // ---------------------------------------------------------------------------------------
  // When the protocol is met
  // ---------------------------------------------------------------------------------------

  /** The objects the loop handles as the protocol asks: valid requests, but for those with a null id, which it takes
      for notifications, and tool calls with a list of parameters, which it answers with an internal error. */
  predicate Handled(r: Request) {
    && r.versioned && r.verb.Some? && (r.id.Absent? || (r.id.Given? && (r.id.id.Text? || r.id.id.Number?)))
    && (r.params.NoParams? || r.params.NamedParams?
        || (r.params.ListParams? && (r.id.Absent? || r.verb != Some("tools/call"))))
  }

  /** The loop does for this line what the protocol asks. */
  predicate Right(line: Line) {
    if Asks(line) then |Written(line)| == 1 && Answers(Written(line)[0], line) else Written(line) == []
  }

  lemma RightIff(line: Line)
    requires !Fatal(line)
    ensures Right(line) <==> (line.Json? ==> Handled(line.value.request))
  {
    if line.Json? {
      RightObject(line.value.request);
    }
  }

  lemma RightObject(r: Request)
    ensures Right(Json(Object(r))) <==> Handled(r)
  {
    assert VERBS[0] == "initialize" && VERBS[1] == "tools/list" && VERBS[2] == "tools/call" && VERBS[3] == "ping";
    if r.id.Given? {
      RightCall(r);
    }
  }

  lemma RightCall(r: Request)
    requires r.id.Given?
    ensures Answers(HandleRequest(r).value, Json(Object(r))) <==> Handled(r)
  {
    assert VERBS[0] == "initialize" && VERBS[1] == "tools/list" && VERBS[2] == "tools/call" && VERBS[3] == "ping";
  }

  /** The loop never writes where nothing is asked, nor more than one reply. */
  lemma WritesOnlyWhenAsked(line: Line)
    ensures |Written(line)| <= if Asks(line) then 1 else 0
  {
  }

  lemma {:induction false} WritesAtMost(lines: seq<Line>)
    ensures |AllWritten(lines)| <= |AskingAt(lines)|
  {
    if lines != [] {
      WritesAtMost(lines[..|lines| - 1]);
      WritesOnlyWhenAsked(lines[|lines| - 1]);
    }
  }

  lemma {:induction false} AskingInRange(lines: seq<Line>)
    ensures forall k | k in AskingAt(lines) :: k < |lines|
  {
    if lines != [] {
      AskingInRange(lines[..|lines| - 1]);
    }
  }

  /** One more line, with what is written for it. */
  lemma RepliesExtend(out: seq<Reply>, lines: seq<Line>, line: Line, more: seq<Reply>)
    requires RepliesTo(out, lines)
    requires if Asks(line) then |more| == 1 && Answers(more[0], line) else more == []
    ensures RepliesTo(out + more, lines + [line])
  {
    assert (lines + [line])[..|lines + [line]| - 1] == lines;
    AskingInRange(lines);
    if more == [] {
      assert out + more == out;
    }
  }

  lemma RepliesShrink(out: seq<Reply>, lines: seq<Line>, line: Line, more: seq<Reply>)
    requires |out| <= |AskingAt(lines)| && |more| <= if Asks(line) then 1 else 0
    requires RepliesTo(out + more, lines + [line])
    ensures RepliesTo(out, lines)
    ensures if Asks(line) then |more| == 1 && Answers(more[0], line) else more == []
  {
    var longer, at, both := lines + [line], AskingAt(lines), out + more;
    assert longer[..|longer| - 1] == lines && longer[|longer| - 1] == line;
    AskingInRange(lines);
    forall k | 0 <= k < |out| ensures at[k] < |lines| && Answers(out[k], lines[at[k]]) {
      assert at[k] in at && both[k] == out[k] && AskingAt(longer)[k] == at[k];
    }
    if Asks(line) {
      assert both[|out|] == more[0] && AskingAt(longer)[|out|] == |lines|;
    }
  }

  /** What is written for all lines answers them exactly when each line is handled right. */
  lemma {:induction false} AllRight(lines: seq<Line>)
    ensures RepliesTo(AllWritten(lines), lines) <==> forall l | l in lines :: Right(l)
  {
    if lines != [] {
      var before, last := lines[..|lines| - 1], lines[|lines| - 1];
      AllRight(before);
      WritesAtMost(before);
      WritesOnlyWhenAsked(last);
      var out, more := AllWritten(before), Written(last);
      assert lines == before + [last];
      if RepliesTo(out + more, lines) {
        RepliesShrink(out, before, last, more);
      }
      if RepliesTo(out, before) && Right(last) {
        RepliesExtend(out, before, last, more);
      }
    }
  }

  lemma {:induction false} AskingAppend(a: seq<Line>, b: seq<Line>)
    ensures |AskingAt(a + b)| == |AskingAt(a)| + |AskingAt(b)|
    ensures AskingAt(b) == [] ==> AskingAt(a + b) == AskingAt(a)
  {
    if b == [] {
      assert a + b == a;
    } else {
      assert (a + b)[..|a + b| - 1] == a + b[..|b| - 1];
      AskingAppend(a, b[..|b| - 1]);
    }
  }

  lemma RepliesToMore(out: seq<Reply>, live: seq<Line>, rest: seq<Line>)
    requires |out| <= |AskingAt(live)|
    ensures RepliesTo(out, live + rest) <==> RepliesTo(out, live) && AskingAt(rest) == []
  {
    AskingAppend(live, rest);
    if AskingAt(rest) == [] {
      RepliesToSame(out, live, rest);
    }
  }

  lemma RepliesToSame(out: seq<Reply>, live: seq<Line>, rest: seq<Line>)
    requires AskingAt(live + rest) == AskingAt(live)
    ensures RepliesTo(out, live + rest) <==> RepliesTo(out, live)
  {
    var at := AskingAt(live);
    AskingInRange(live);
    forall k | 0 <= k < |at| ensures at[k] < |live| && (live + rest)[at[k]] == live[at[k]] {
      assert at[k] in at;
    }
  }

  lemma {:induction false} LiveIsMaximal(lines: seq<Line>)
    ensures forall k | 0 <= k < |Live(lines)| :: !Fatal(lines[k])
    ensures |Live(lines)| < |lines| ==> Fatal(lines[|Live(lines)|])
  {
    if lines != [] && !Fatal(lines[0]) {
      LiveIsMaximal(lines[1..]);
      forall k | 0 <= k < |Live(lines)| ensures !Fatal(lines[k]) {
        assert k > 0 ==> lines[k] == lines[1..][k - 1];
      }
    }
  }

  /** A line that asks for a reply, from a fatal one on. */
  ghost predicate LeftUnanswered(lines: seq<Line>) {
    exists i, j :: 0 <= i <= j < |lines| && Fatal(lines[i]) && Asks(lines[j])
  }

  lemma UnansweredRest(lines: seq<Line>)
    ensures LeftUnanswered(lines) <==> AskingAt(lines[|Live(lines)|..]) != []
  {
    var n := |Live(lines)|;
    var rest := lines[n..];
    LiveIsMaximal(lines);
    AskingAtIsComplete(rest);
    if AskingAt(rest) == [] {
      forall i, j | 0 <= i <= j < |lines| && Fatal(lines[i]) ensures !Asks(lines[j]) {
        assert i >= n;
        var k: nat := j - n;
        assert k !in AskingAt(rest) && lines[j] == rest[k];
      }
    } else {
      var k := AskingAt(rest)[0];
      assert k in AskingAt(rest);
      assert rest[0] == lines[n] && rest[k] == lines[n + k];
      assert Fatal(lines[n]) && n <= n + k;
    }
  }

  /** Every object that is not handled as the protocol asks does ask for a reply. */
  lemma UnhandledAsks(r: Request)
    ensures !Handled(r) ==> Asks(Json(Object(r)))
  {
  }

  /** What the loop writes answers the whole input as the protocol asks exactly when every object of it is a valid
      request without a null id that is no tool call with a list of parameters, and from the first fatal line on, that
      one included, nothing asks for a reply. */
  lemma AllAnsweredIff(lines: seq<Line>)
    ensures RepliesTo(AllWritten(Live(lines)), lines) <==>
            && (forall l | l in lines && l.Json? && l.value.Object? :: Handled(l.value.request))
            && !LeftUnanswered(lines)
  {
    var live := Live(lines);
    var rest := lines[|live|..];
    assert lines == live + rest;
    LiveIsMaximal(lines);
    WritesAtMost(live);
    RepliesToMore(AllWritten(live), live, rest);
    UnansweredRest(lines);
    AllRight(live);
    forall l | l in live ensures !Fatal(l) && (Right(l) <==> (l.Json? ==> Handled(l.value.request))) {
      var k :| 0 <= k < |live| && live[k] == l;
      assert lines[k] == l;
      RightIff(l);
    }
    AskingAtIsComplete(rest);
    if AskingAt(rest) == [] {
      forall l | l in rest && l.Json? && l.value.Object? ensures Handled(l.value.request) {
        var k :| 0 <= k < |rest| && rest[k] == l;
        UnhandledAsks(l.value.request);
        assert k !in AskingAt(rest);
      }
    }
  }

  /** Blank lines, unparsable lines and handled objects are all answered, or not, as the protocol asks. */
  lemma OrdinaryLinesAreAnswered(lines: seq<Line>)
    requires forall l | l in lines :: !Fatal(l) && (l.Json? ==> Handled(l.value.request))
    ensures RepliesTo(AllWritten(Live(lines)), lines)
  {
    AllAnsweredIff(lines);
  }

  /** A ping with a null id is a request, and gets no reply. */
  lemma NullIdGetsNoReply()
    ensures var ping := Json(Object(Request(true, Null, Some("ping"), NoParams)));
            Asks(ping) && AllWritten(Live([ping])) == [] && !RepliesTo([], [ping])
  {
    var ping := Json(Object(Request(true, Null, Some("ping"), NoParams)));
    assert !Handled(ping.value.request);
    LiveStops([ping], 1);
    assert [ping][..1] == [ping] && [ping][..0] == [];
    assert ping in [ping];
    AllAnsweredIff([ping]);
  }

  /** An array, as in a batch, ends the loop, and the ping after it is never answered. */
  lemma ArrayEndsTheLoop(items: seq<Value>)
    ensures var ping := Json(Object(Request(true, Given(Number(1.0)), Some("ping"), NoParams)));
            AllWritten(Live([Json(Batch(items)), ping])) == [] && LeftUnanswered([Json(Batch(items)), ping])
  {
    var ping := Json(Object(Request(true, Given(Number(1.0)), Some("ping"), NoParams)));
    var lines := [Json(Batch(items)), ping];
    LiveStops(lines, 0);
    assert Fatal(lines[0]) && Asks(lines[1]);
  }

  /** A member of a batch that asks for nothing: an object of version "2.0" with a method, without an id, and with
      structured parameters if any. */
  predicate IsNotification(v: Value) {
    v.Object? && v.request.versioned && v.request.verb.Some? && v.request.id.Absent? && !v.request.params.OtherParams?
  }

  /** So an input that starts with a batch is answered as the protocol asks exactly if the batch is a non-empty one of
      notifications and no later line asks for a reply. */
  lemma BatchFirst(items: seq<Value>, rest: seq<Line>)
    ensures var lines := [Json(Batch(items))] + rest;
            RepliesTo(AllWritten(Live(lines)), lines)
            <==> items != [] && (forall v | v in items :: IsNotification(v)) && (forall l | l in rest :: !Asks(l))
  {
    var lines := [Json(Batch(items))] + rest;
    AllAnsweredIff(lines);
    assert Asks(lines[0]) <==> items == [] || exists v :: v in items && !IsNotification(v);
    FromTheFirst(lines);
    assert lines[0] in lines && forall l | l in rest :: l in lines;
    forall l | l in lines && l.Json? && l.value.Object? ensures !Asks(l) ==> Handled(l.value.request) {
      UnhandledAsks(l.value.request);
    }
  }

  lemma FromTheFirst(lines: seq<Line>)
    requires lines != [] && Fatal(lines[0])
    ensures LeftUnanswered(lines) <==> exists l :: l in lines && Asks(l)
  {
    if l :| l in lines && Asks(l) {
      var j :| 0 <= j < |lines| && lines[j] == l;
      assert Fatal(lines[0]) && Asks(lines[j]);
    }
  }
}

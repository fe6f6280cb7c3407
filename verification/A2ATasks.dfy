/** The task store of the agent-to-agent handler: tasks that change state in place, and the requests that
    create, read and cancel them. */
module A2ATasks {
  import opened Prelude

  datatype Phase = Submitted | Working | Completed | Failed | Canceled

  /** What a skill does to its task: the artifacts it adds, and the text of the exception it ends with, if any. */
  datatype Outcome = Outcome(artifacts: seq<string>, failure: Option<string>)

  /** What a task reports of itself. */
  datatype View = View(id: string, state: Phase, history: seq<Phase>, artifacts: seq<string>, message: Option<string>)

  /** A send without an id gets a generated one. `Malformed` is a supported request whose parameters make the
      handler raise before it reaches a task. */
  datatype Request =
    | Send(given: Option<string>, generated: string, outcome: Outcome)
    | Get(id: string)
    | Cancel(id: string)
    | Malformed
    | Unsupported

  datatype Reply = Shown(view: View) | Error(code: int)

  // ---------------------------------------------------------------------------------------
  // Specification
  // ---------------------------------------------------------------------------------------

  datatype Record = Record(history: seq<Phase>, artifacts: seq<string>, error: Option<string>)

  type Store = map<string, Record>

  function Show(id: string, r: Record): View
    requires r.history != []
  {
    View(id, r.history[|r.history| - 1], r.history, r.artifacts, if r.error == Some("") then None else r.error)
  }

  function Executed(outcome: Outcome): Record {
    Record([Submitted, Working, if outcome.failure.None? then Completed else Failed], outcome.artifacts,
        outcome.failure)
  }

  /** The id a send works under; an empty one counts as missing. */
  function TaskId(r: Request): string
    requires r.Send?
  {
    if r.given.None? || r.given == Some("") then r.generated else r.given.value
  }

  function Updated(s: Store, r: Request): Store {
    match r
    case Send(_, _, outcome) => s[TaskId(r) := Executed(outcome)]
    case Cancel(id) => if id in s then s[id := s[id].(history := s[id].history + [Canceled])] else s
    case _ => s
  }

  predicate NonEmpty(s: Store) { forall id | id in s :: s[id].history != [] }

  function Answer(s: Store, r: Request): Reply
    requires NonEmpty(s)
  {
    match r
    case Send(_, _, outcome) => Shown(Show(TaskId(r), Executed(outcome)))
    case Get(id) => if id in s then Shown(Show(id, s[id])) else Error(-32000)
    case Cancel(id) => if id in s then Shown(Show(id, s[id].(history := s[id].history + [Canceled]))) else Error(-32000)
    case Malformed => Error(-32000)
    case Unsupported => Error(-32601)
  }

  /** The store after a sequence of requests. */
  function After(requests: seq<Request>): Store {
    if requests == [] then map[] else Updated(After(requests[..|requests| - 1]), requests[|requests| - 1])
  }

  // ---------------------------------------------------------------------------------------
  // The handler
  // ---------------------------------------------------------------------------------------

  class Task {
    const id: string
    var state: Phase
    var history: seq<Phase>
    var artifacts: seq<string>
    var error: Option<string>

    ghost predicate Valid()
      reads this
    {
      history != [] && state == history[|history| - 1]
    }

    ghost function Now(): Record
      reads this
    {
      Record(history, artifacts, error)
    }

    constructor (id: string)
      ensures Valid() && this.id == id && Now() == Record([Submitted], [], None)
    {
      this.id, state, history, artifacts, error := id, Submitted, [Submitted], [], None;
    }

    method Transition(next: Phase)
      modifies this
      ensures Valid() && Now() == old(Now()).(history := old(history) + [next])
    {
      state := next;
      history := history + [next];
    }

    method AddArtifact(artifact: string)
      modifies `artifacts
      ensures artifacts == old(artifacts) + [artifact]
    {
      artifacts := artifacts + [artifact];
    }

    method Fail(text: string)
      modifies this
      ensures Valid() && Now() == old(Now()).(history := old(history) + [Failed], error := Some(text))
    {
      error := Some(text);
      Transition(Failed);
    }

    /** `to_dict`: an empty error text is not reported. */
    method ToDict() returns (view: View)
      requires Valid()
      ensures view == Show(id, Now())
    {
      var message := None;
      if error.Some? && error.value != "" {
        message := error;
      }
      view := View(id, state, history, artifacts, message);
    }
  }

  class Handler {
    var tasks: map<string, Task>

    /** Every task is stored under its own id. */
    ghost predicate Valid()
      reads this, tasks.Values
    {
      forall id | id in tasks :: tasks[id].id == id && tasks[id].Valid()
    }

    ghost function Now(): Store
      reads this, tasks.Values
    {
      map id | id in tasks :: tasks[id].Now()
    }

    constructor ()
      ensures Valid() && Now() == map[] && tasks == map[]
    {
      tasks := map[];
    }

    /** `handle`. */
    method Handle(r: Request) returns (reply: Reply)
      requires Valid()
      modifies this, tasks.Values
      ensures Valid() && NonEmpty(old(Now()))
      ensures Now() == Updated(old(Now()), r)
      ensures reply == Answer(old(Now()), r)
    {
      assert NonEmpty(Now());
      match r {
        case Send(_, _, _) =>
          var view := HandleSend(r);
          reply := Shown(view);
        case Get(id) =>
          if id in tasks {
            var view := tasks[id].ToDict();
            reply := Shown(view);
          } else {
            reply := Error(-32000);
          }
        case Cancel(id) =>
          if id in tasks {
            var view := HandleCancel(id);
            reply := Shown(view);
          } else {
            reply := Error(-32000);
          }
        case Malformed => reply := Error(-32000);
        case Unsupported => reply := Error(-32601);
      }
    }

    /** `_handle_send`: the task is created, stored and run. */
    method HandleSend(r: Request) returns (view: View)
      requires Valid() && r.Send?
      modifies `tasks
      ensures Valid() && Now() == Updated(old(Now()), r)
      ensures view == Show(TaskId(r), Executed(r.outcome))
    {
      var id := TaskId(r);
      ghost var before := Now();
      var task := new Task(id);
      tasks := tasks[id := task];
      view := RunTask(task, r.outcome);
      forall k | k in tasks && k != id ensures k in before && tasks[k].Valid() && tasks[k].Now() == before[k] {
        assert tasks[k] == old(tasks)[k];
      }
      StoreHolds(before, id, Executed(r.outcome));
    }

    lemma StoreHolds(before: Store, id: string, record: Record)
      requires tasks.Keys == before.Keys + {id} && tasks[id].Now() == record
      requires forall k | k in tasks && k != id :: tasks[k].Now() == before[k]
      ensures Now() == before[id := record]
    {
    }

    method RunTask(task: Task, outcome: Outcome) returns (view: View)
      requires task.Valid() && task.Now() == Record([Submitted], [], None)
      modifies task
      ensures task.Valid() && task.Now() == Executed(outcome) && view == Show(task.id, Executed(outcome))
    {
      task.Transition(Working);
      Execute(task, outcome);
      view := task.ToDict();
    }

    /** The skill and what follows it. */
    method Execute(task: Task, outcome: Outcome)
      requires task.Valid() && task.Now() == Record([Submitted, Working], [], None)
      modifies task
      ensures task.Valid() && task.Now() == Executed(outcome)
    {
      for i := 0 to |outcome.artifacts|
        invariant task.Valid() && task.Now() == Record([Submitted, Working], outcome.artifacts[..i], None)
      {
        task.AddArtifact(outcome.artifacts[i]);
      }
      match outcome.failure {
        case None => task.Transition(Completed);
        case Some(text) => task.Fail(text);
      }
    }

    method HandleCancel(id: string) returns (view: View)
      requires Valid() && id in tasks
      modifies tasks[id]
      ensures Valid() && tasks == old(tasks) && Now() == Updated(old(Now()), Cancel(id))
      ensures view == Show(id, old(Now())[id].(history := old(Now())[id].history + [Canceled]))
    {
      tasks[id].Transition(Canceled);
      view := tasks[id].ToDict();
    }
  }

  // ---------------------------------------------------------------------------------------
  // The endpoint
  // ---------------------------------------------------------------------------------------

  /** The route in front of the handler, which makes a new one for every request. */
  method Serve(r: Request) returns (reply: Reply)
    ensures reply == Answer(map[], r)
  {
    var handler := new Handler();
    reply := handler.Handle(r);
  }

  /** So a task that was sent can be neither got nor cancelled over the endpoint, although the handler that ran it
      would answer both. */
  lemma EndpointForgets(send: Request, id: string)
    requires send.Send? && TaskId(send) == id
    ensures Answer(map[], Get(id)) == Error(-32000) && Answer(map[], Cancel(id)) == Error(-32000)
    ensures After([send]) == Updated(map[], send) && NonEmpty(After([send]))
    ensures Answer(After([send]), Get(id)) == Answer(map[], send)
  {
    assert [send][..0] == [];
    assert After([send]) == Updated(After([]), send);
  }

  // ---------------------------------------------------------------------------------------
  // Histories
  // ---------------------------------------------------------------------------------------

  /** submitted, working, then completed or failed, then any number of canceled. */
  ghost predicate InLanguage(h: seq<Phase>) {
    && |h| >= 3 && h[0] == Submitted && h[1] == Working && h[2] in [Completed, Failed]
    && forall i | 3 <= i < |h| :: h[i] == Canceled
  }

  /** Over every request sequence each stored history is in the language, and a task has an error exactly when
      its history has a failure. */
  lemma {:induction false} HistoriesInLanguage(requests: seq<Request>)
    ensures forall id | id in After(requests) ::
              InLanguage(After(requests)[id].history)
                  && (After(requests)[id].error.Some? <==> Failed in After(requests)[id].history)
  {
    if requests != [] {
      HistoriesInLanguage(requests[..|requests| - 1]);
    }
  }

  /** A message is shown exactly when the history has a failure, unless the failure has an empty text. */
  lemma MessageMeansFailure(requests: seq<Request>, id: string)
    requires id in After(requests)
    ensures var r := After(requests)[id];
            && r.history != []
            && ((Show(id, r).message.Some? <==> Failed in r.history) <==> r.error != Some(""))
  {
    HistoriesInLanguage(requests);
  }

  /** A failure with an empty text shows no message. */
  lemma SilentFailure(id: string)
    requires id != ""
    ensures var r := After([Send(Some(id), "", Outcome([], Some("")))]);
            id in r && Failed in r[id].history && Show(id, r[id]).message.None?
  {
    var send := Send(Some(id), "", Outcome([], Some("")));
    assert [send][..0] == [];
    var r := After([send]);
    assert r == Updated(After([]), send);
    assert r[id].history[2] == Failed;
  }

  // ---------------------------------------------------------------------------------------
  // What a get returns
  // ---------------------------------------------------------------------------------------

  lemma StoresAreNonEmpty(requests: seq<Request>)
    ensures NonEmpty(After(requests))
  {
    HistoriesInLanguage(requests);
  }

  predicate Touches(r: Request, id: string) {
    (r.Send? && TaskId(r) == id) || (r.Cancel? && r.id == id)
  }

  /** What the latest send or cancel of an id was answered with, if any was answered with a task. */
  ghost function Latest(requests: seq<Request>, id: string): Option<View> {
    if requests == [] then None
    else
      var before, last := requests[..|requests| - 1], requests[|requests| - 1];
      StoresAreNonEmpty(before);
      if Touches(last, id) && Answer(After(before), last).Shown? then Some(Answer(After(before), last).view)
      else Latest(before, id)
  }

  /** A get returns what the latest send or cancel of that id returned, and an error when there was none. */
  lemma {:induction false} GetReturnsLatest(requests: seq<Request>, id: string)
    ensures NonEmpty(After(requests))
    ensures Answer(After(requests), Get(id))
            == match Latest(requests, id) case None => Error(-32000) case Some(v) => Shown(v)
  {
    StoresAreNonEmpty(requests);
    if requests != [] {
      GetReturnsLatest(requests[..|requests| - 1], id);
    }
  }

  // ---------------------------------------------------------------------------------------
  // What every answer shows
  // ---------------------------------------------------------------------------------------

  /** A send answers with its own task: completed with its artifacts, or failed with the text of the exception. */
  ghost predicate ShowsSend(send: Request, v: View)
    requires send.Send?
  {
    && (v.id == if send.given.Some? && send.given.value != "" then send.given.value else send.generated)
    && v.history == [Submitted, Working, v.state] && v.artifacts == send.outcome.artifacts
    && match send.outcome.failure
       case None => v.state == Completed && v.message == None
       case Some(text) => v.state == Failed && v.message == if text == "" then None else Some(text)
  }

  /** The task in the view ends as the latest request on it left it. */
  ghost predicate ShowsTask(v: View) {
    && InLanguage(v.history) && v.state == v.history[|v.history| - 1]
    && (v.message.Some? ==> v.message != Some("") && v.history[2] == Failed)
  }

  /** Over every request sequence: every task shown is in the state its history ends with, and a request is refused
      exactly if it is unsupported, malformed, or asks for an id no send has used. */
  lemma AnswersShowTheTask(requests: seq<Request>, r: Request)
    ensures NonEmpty(After(requests))
    ensures match Answer(After(requests), r)
            case Shown(v) =>
              && ShowsTask(v) && (r.Send? ==> ShowsSend(r, v))
              && (r.Cancel? ==> v.id == r.id && v.state == Canceled) && (r.Get? ==> v.id == r.id)
            case Error(code) =>
              && code == (if r.Unsupported? then -32601 else -32000)
              && (r.Unsupported? || r.Malformed? || ((r.Get? || r.Cancel?) && !EverSent(requests, r.id)))
  {
    HistoriesInLanguage(requests);
    if r.Get? || r.Cancel? {
      StoredIsSent(requests, r.id);
    }
  }

  ghost predicate EverSent(requests: seq<Request>, id: string) {
    exists send :: send in requests && send.Send? && TaskId(send) == id
  }

  lemma {:induction false} StoredIsSent(requests: seq<Request>, id: string)
    ensures id in After(requests) <==> EverSent(requests, id)
  {
    if requests != [] {
      var before, last := requests[..|requests| - 1], requests[|requests| - 1];
      StoredIsSent(before, id);
      assert requests == before + [last];
    }
  }
}

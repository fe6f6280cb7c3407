/** The build side of the direct server: accepted builds run as tasks that serialise on one lock. Between two
    scheduling points a task runs alone, so every event below is one uninterrupted segment of some task. */
module DirectServer {
  import opened Prelude

  /** Where a build task stands: created but not yet run, queued at the lock, or in the body of the build
      (loading the index, then building), or finished. */
  datatype Stage = Created | Waiting | Loading | Building | Done

  datatype Reply = Started | AlreadyBuilding

  /** What the loader thread reports: an exception, or a normal end that has or has not made an index. */
  datatype Load = Raised | Loaded(index: bool)

  datatype State = State(
    building: bool,
    initDone: bool,
    hasIndex: bool,
    locked: bool,
    waiters: seq<nat>,
    tasks: seq<Stage>,
    replies: seq<Reply>,
    arrived: seq<nat>,
    begun: seq<nat>)

  const INITIAL := State(false, false, false, false, [], [], [], [], [])

  /** `Request` is a call of the build tool; `FirstRun`, `Woken`, `LoadEnds` and `BuildEnds` are segments of
      build tasks; `OtherLoad` is an index load finished on behalf of some other tool. */
  datatype Event = Request | FirstRun(task: nat) | Woken | LoadEnds(task: nat, load: Load) | BuildEnds(task: nat)
      | OtherLoad(load: Load)

  predicate Enabled(s: State, e: Event) {
    match e
    case Request => true
    case FirstRun(t) => t < |s.tasks| && s.tasks[t] == Created
    case Woken => !s.locked && s.waiters != [] && s.waiters[0] < |s.tasks|
    case LoadEnds(t, _) => t < |s.tasks| && s.tasks[t] == Loading
    case BuildEnds(t) => t < |s.tasks| && s.tasks[t] == Building
    case OtherLoad(_) => true
  }

  // ---------------------------------------------------------------------------------------
  // Specification of the segments
  // ---------------------------------------------------------------------------------------

  /** The `finally` and the release of the lock. */
  function Finish(s: State, t: nat): State
    requires t < |s.tasks|
  {
    s.(building := false, locked := false, tasks := s.tasks[t := Done])
  }

  /** From an initialised server: build if there is an index. */
  function BuildOrReturn(s: State, t: nat): State
    requires t < |s.tasks|
  {
    if s.hasIndex then s.(tasks := s.tasks[t := Building]) else Finish(s, t)
  }

  /** The lock is taken and the body starts. */
  function Take(s: State, t: nat): State
    requires t < |s.tasks|
  {
    s.(locked := true, building := true, begun := s.begun + [t], tasks := s.tasks[t := Loading])
  }

  function Begin(s: State, t: nat): State
    requires t < |s.tasks|
  {
    if s.initDone then BuildOrReturn(Take(s, t), t) else Take(s, t)
  }

  function AfterLoad(s: State, load: Load): State {
    match load
    case Raised => s
    case Loaded(index) => s.(initDone := true, hasIndex := s.hasIndex || index)
  }

  function Apply(s: State, e: Event): State
    requires Enabled(s, e)
  {
    match e
    case Request =>
      if s.building then s.(replies := s.replies + [AlreadyBuilding])
      else s.(replies := s.replies + [Started], tasks := s.tasks + [Created])
    case FirstRun(t) =>
      var here := s.(arrived := s.arrived + [t]);
      if !s.locked && s.waiters == [] then Begin(here, t)
      else here.(waiters := s.waiters + [t], tasks := s.tasks[t := Waiting])
    case Woken => Begin(s.(waiters := s.waiters[1..]), s.waiters[0])
    case LoadEnds(t, load) => if load.Raised? then Finish(s, t) else BuildOrReturn(AfterLoad(s, load), t)
    case BuildEnds(t) => Finish(s, t)
    case OtherLoad(load) => AfterLoad(s, load)
  }

  /** The state after a run, or nothing when some event of it was not enabled. */
  function After(events: seq<Event>): Option<State> {
    if events == [] then Some(INITIAL)
    else
      var before, last := After(events[..|events| - 1]), events[|events| - 1];
      if before.Some? && Enabled(before.value, last) then Some(Apply(before.value, last)) else None
  }

  // ---------------------------------------------------------------------------------------
  // The server
  // ---------------------------------------------------------------------------------------

  class Server {
    var building: bool
    var initDone: bool
    var hasIndex: bool
    var locked: bool
    var waiters: seq<nat>
    var tasks: seq<Stage>
    ghost var replies: seq<Reply>
    ghost var arrived: seq<nat>
    ghost var begun: seq<nat>

    ghost function Now(): State
      reads this
    {
      State(building, initDone, hasIndex, locked, waiters, tasks, replies, arrived, begun)
    }

    constructor ()
      ensures Now() == INITIAL
    {
      building, initDone, hasIndex, locked := false, false, false, false;
      waiters, tasks, replies, arrived, begun := [], [], [], [], [];
    }

    /** `tool_build`. */
    method ToolBuild() returns (reply: Reply)
      modifies this
      ensures Now() == Apply(old(Now()), Request)
      ensures replies == old(replies) + [reply]
    {
      if building {
        reply := AlreadyBuilding;
      } else {
        tasks := tasks + [Created];
        reply := Started;
      }
      replies := replies + [reply];
    }

    /** The first segment of a build task: up to the lock, or into the body when the lock is free and nobody queues. */
    method RunBuild(t: nat)
      requires Enabled(Now(), FirstRun(t))
      modifies this
      ensures Now() == Apply(old(Now()), FirstRun(t))
    {
      arrived := arrived + [t];
      if !locked && waiters == [] {
        Body(t);
      } else {
        waiters := waiters + [t];
        tasks := tasks[t := Waiting];
      }
    }

    /** The segment of the first waiter after the lock was released. */
    method Wake()
      requires Enabled(Now(), Woken)
      modifies this
      ensures Now() == Apply(old(Now()), Woken)
    {
      var t := waiters[0];
      waiters := waiters[1..];
      Body(t);
    }

    method Body(t: nat)
      requires t < |tasks|
      modifies this
      ensures Now() == Begin(old(Now()), t)
    {
      locked := true;
      building := true;
      begun := begun + [t];
      tasks := tasks[t := Loading];
      if initDone {
        Continue(t);
      }
    }

    /** The body after `_ensure_init`. */
    method Continue(t: nat)
      requires t < |tasks|
      modifies this
      ensures Now() == BuildOrReturn(old(Now()), t)
    {
      if !hasIndex {
        Release(t);
      } else {
        tasks := tasks[t := Building];
      }
    }

    method Release(t: nat)
      requires t < |tasks|
      modifies this
      ensures Now() == Finish(old(Now()), t)
    {
      building := false;
      locked := false;
      tasks := tasks[t := Done];
    }

    /** The end of `_ensure_init` for whoever waited for the loader thread. */
    method EndLoad(load: Load)
      modifies this
      ensures Now() == AfterLoad(old(Now()), load)
    {
      if load.Loaded? {
        hasIndex := hasIndex || load.index;
        initDone := true;
      }
    }

    method ResumeAfterLoad(t: nat, load: Load)
      requires Enabled(Now(), LoadEnds(t, load))
      modifies this
      ensures Now() == Apply(old(Now()), LoadEnds(t, load))
    {
      EndLoad(load);
      if load.Raised? {
        Release(t);
      } else {
        Continue(t);
      }
    }

    method ResumeAfterBuild(t: nat)
      requires Enabled(Now(), BuildEnds(t))
      modifies this
      ensures Now() == Apply(old(Now()), BuildEnds(t))
    {
      Release(t);
    }
  }

  // ---------------------------------------------------------------------------------------
  // Counting
  // ---------------------------------------------------------------------------------------

  predicate Active(st: Stage) { st == Loading || st == Building }

  function CountOf(tasks: seq<Stage>, what: set<Stage>): nat {
    if tasks == [] then 0
    else CountOf(tasks[..|tasks| - 1], what) + if tasks[|tasks| - 1] in what then 1 else 0
  }

  lemma {:induction false} CountUpdate(tasks: seq<Stage>, t: nat, st: Stage, what: set<Stage>)
    requires t < |tasks|
    ensures CountOf(tasks[t := st], what)
         == CountOf(tasks, what) - (if tasks[t] in what then 1 else 0) + (if st in what then 1 else 0)
  {
    var n := |tasks| - 1;
    if t == n {
      assert tasks[t := st][..n] == tasks[..n];
    } else {
      assert tasks[t := st][..n] == tasks[..n][t := st];
      CountUpdate(tasks[..n], t, st, what);
    }
  }

  lemma CountAppend(tasks: seq<Stage>, st: Stage, what: set<Stage>)
    ensures CountOf(tasks + [st], what) == CountOf(tasks, what) + if st in what then 1 else 0
  {
    assert (tasks + [st])[..|tasks + [st]| - 1] == tasks;
  }

  function StartedIn(replies: seq<Reply>): nat {
    if replies == [] then 0
    else StartedIn(replies[..|replies| - 1]) + if replies[|replies| - 1] == Started then 1 else 0
  }

  lemma StartedAppend(replies: seq<Reply>, r: Reply)
    ensures StartedIn(replies + [r]) == StartedIn(replies) + if r == Started then 1 else 0
  {
    assert (replies + [r])[..|replies + [r]| - 1] == replies;
  }

  // ---------------------------------------------------------------------------------------
  // The invariant
  // ---------------------------------------------------------------------------------------

  ghost predicate Holds(s: State, t: nat) { t < |s.tasks| && Active(s.tasks[t]) }

  /** The tasks that have run at all came to the lock once; those still queued there are the waiting ones, and
      the others entered the body in the order in which they came. */
  ghost predicate InOrder(s: State) {
    && s.begun + s.waiters == s.arrived && Distinct(s.arrived)
    && (forall t: nat :: t in s.arrived <==> t < |s.tasks| && s.tasks[t] != Created)
    && (forall t: nat :: t in s.waiters <==> t < |s.tasks| && s.tasks[t] == Waiting)
  }

  /** The building flag is up exactly while some task holds the lock, and at most one task is in the body. */
  ghost predicate Exclusive(s: State) {
    && s.building == s.locked
    && (s.building <==> exists t: nat :: Holds(s, t))
    && (forall t: nat, u: nat | Holds(s, t) && Holds(s, u) :: t == u)
  }

  /** Every `started` reply stands for one task that is finished, in the body, waiting, or not yet run. */
  ghost predicate Accounted(s: State) {
    && |s.waiters| == CountOf(s.tasks, {Waiting})
    && CountOf(s.tasks, {Loading, Building}) == (if s.building then 1 else 0)
    && StartedIn(s.replies) == |s.tasks|
    && |s.tasks| == CountOf(s.tasks, {Done}) + (if s.building then 1 else 0) + |s.waiters| + CountOf(s.tasks, {Created})
  }

  ghost predicate Serialised(s: State) { InOrder(s) && Exclusive(s) && Accounted(s) }

  // ---------------------------------------------------------------------------------------
  // What every segment keeps
  // ---------------------------------------------------------------------------------------

  /** The counts after one task has moved to another stage. */
  lemma Moved(tasks: seq<Stage>, t: nat, st: Stage)
    requires t < |tasks|
    ensures CountOf(tasks[t := st], {Done})
            == CountOf(tasks, {Done}) - (if tasks[t] == Done then 1 else 0) + (if st == Done then 1 else 0)
    ensures CountOf(tasks[t := st], {Waiting})
            == CountOf(tasks, {Waiting}) - (if tasks[t] == Waiting then 1 else 0) + (if st == Waiting then 1 else 0)
    ensures CountOf(tasks[t := st], {Created})
            == CountOf(tasks, {Created}) - (if tasks[t] == Created then 1 else 0) + (if st == Created then 1 else 0)
    ensures CountOf(tasks[t := st], {Loading, Building})
         == CountOf(tasks, {Loading, Building}) - (if Active(tasks[t]) then 1 else 0) + (if Active(st) then 1 else 0)
  {
    CountUpdate(tasks, t, st, {Done});
    CountUpdate(tasks, t, st, {Waiting});
    CountUpdate(tasks, t, st, {Created});
    CountUpdate(tasks, t, st, {Loading, Building});
  }

  lemma FinishKeeps(s: State, t: nat)
    requires Serialised(s) && Holds(s, t)
    ensures Serialised(Finish(s, t))
  {
    var r := Finish(s, t);
    Moved(s.tasks, t, Done);
    forall u: nat | Holds(r, u) ensures Holds(s, u) && u != t {
    }
  }

  lemma BuildOrReturnKeeps(s: State, t: nat)
    requires Serialised(s) && Holds(s, t)
    ensures Serialised(BuildOrReturn(s, t))
  {
    if s.hasIndex {
      var r := BuildOrReturn(s, t);
      Moved(s.tasks, t, Building);
      forall u: nat ensures Holds(r, u) <==> Holds(s, u) {
      }
    } else {
      FinishKeeps(s, t);
    }
  }

  /** A task that is next in line takes the free lock. */
  ghost predicate NextInLine(s: State, r: State, t: nat) {
    && t < |s.tasks|
    && ((s.tasks[t] == Created && s.waiters == [] && r == s.(arrived := s.arrived + [t]))
        || (s.waiters != [] && s.waiters[0] == t && r == s.(waiters := s.waiters[1..])))
  }

  lemma TakeIsExclusive(s: State, r: State, t: nat)
    requires Serialised(s) && !s.locked && NextInLine(s, r, t)
    ensures Exclusive(Take(r, t))
  {
    var taken := Take(r, t);
    assert Holds(taken, t);
    forall u: nat | Holds(taken, u) ensures u == t {
      assert u == t || Holds(s, u);
    }
  }

  lemma TakeIsAccounted(s: State, r: State, t: nat)
    requires Serialised(s) && !s.locked && NextInLine(s, r, t)
    ensures Accounted(Take(r, t))
  {
    Moved(s.tasks, t, Loading);
    if s.tasks[t] != Created {
      assert t in s.waiters;
    }
  }

  lemma ArriveInOrder(s: State, t: nat, st: Stage)
    requires InOrder(s) && t < |s.tasks| && s.tasks[t] == Created && st != Created
    ensures Distinct(s.arrived + [t])
    ensures forall u: nat :: u in s.arrived + [t] <==> u < |s.tasks| && s.tasks[t := st][u] != Created
  {
    assert t !in s.arrived;
  }

  lemma FirstComerIsInOrder(s: State, t: nat)
    requires InOrder(s) && s.waiters == [] && t < |s.tasks| && s.tasks[t] == Created
    ensures InOrder(Take(s.(arrived := s.arrived + [t]), t))
  {
    var taken := Take(s.(arrived := s.arrived + [t]), t);
    ArriveInOrder(s, t, Loading);
    assert s.begun == s.arrived;
    assert taken.begun + taken.waiters == taken.arrived;
  }

  lemma WokenIsInOrder(s: State, t: nat)
    requires InOrder(s) && s.waiters != [] && s.waiters[0] == t && t < |s.tasks|
    ensures InOrder(Take(s.(waiters := s.waiters[1..]), t))
  {
    var taken := Take(s.(waiters := s.waiters[1..]), t);
    assert s.waiters == [t] + s.waiters[1..];
    assert taken.begun + taken.waiters == taken.arrived;
    assert t in s.waiters;
    HeadLeaves(s, t);
  }

  lemma HeadLeaves(s: State, t: nat)
    requires InOrder(s) && s.waiters != [] && s.waiters[0] == t
    ensures forall u: nat :: u in s.waiters[1..] <==> u in s.waiters && u != t
  {
    forall i | 0 < i < |s.waiters| ensures s.waiters[i] != t {
      assert s.arrived[|s.begun|] == t && s.arrived[|s.begun| + i] == s.waiters[i];
    }
  }

  lemma BeginKeeps(s: State, r: State, t: nat)
    requires Serialised(s) && !s.locked && NextInLine(s, r, t)
    ensures Serialised(Begin(r, t))
  {
    TakeIsExclusive(s, r, t);
    TakeIsAccounted(s, r, t);
    if s.tasks[t] == Created && s.waiters == [] {
      FirstComerIsInOrder(s, t);
    } else {
      WokenIsInOrder(s, t);
    }
    if r.initDone {
      BuildOrReturnKeeps(Take(r, t), t);
    }
  }

  lemma QueueKeeps(s: State, t: nat)
    requires Serialised(s) && Enabled(s, FirstRun(t)) && (s.locked || s.waiters != [])
    ensures Serialised(Apply(s, FirstRun(t)))
  {
    var r := Apply(s, FirstRun(t));
    Moved(s.tasks, t, Waiting);
    ArriveInOrder(s, t, Waiting);
    assert r.begun + r.waiters == (s.begun + s.waiters) + [t];
    forall u: nat ensures Holds(r, u) <==> Holds(s, u) {
    }
  }

  lemma RequestKeeps(s: State)
    requires Serialised(s)
    ensures Serialised(Apply(s, Request))
  {
    var r := Apply(s, Request);
    forall u: nat ensures Holds(r, u) <==> Holds(s, u) {
    }
    assert Exclusive(r);
    RequestInOrder(s);
    RequestIsAccounted(s);
  }

  lemma RequestInOrder(s: State)
    requires InOrder(s)
    ensures InOrder(Apply(s, Request))
  {
  }

  lemma RequestIsAccounted(s: State)
    requires Accounted(s)
    ensures Accounted(Apply(s, Request))
  {
    if s.building {
      StartedAppend(s.replies, AlreadyBuilding);
    } else {
      StartedAppend(s.replies, Started);
      CountAppend(s.tasks, Created, {Done});
      CountAppend(s.tasks, Created, {Waiting});
      CountAppend(s.tasks, Created, {Created});
      CountAppend(s.tasks, Created, {Loading, Building});
    }
  }

  /** Every segment of every task keeps the builds serialised. */
  lemma EventKeeps(s: State, e: Event)
    requires Serialised(s) && Enabled(s, e)
    ensures Serialised(Apply(s, e))
  {
    match e
    case Request => RequestKeeps(s);
    case FirstRun(t) =>
      if !s.locked && s.waiters == [] {
        BeginKeeps(s, s.(arrived := s.arrived + [t]), t);
      } else {
        QueueKeeps(s, t);
      }
    case Woken => BeginKeeps(s, s.(waiters := s.waiters[1..]), s.waiters[0]);
    case LoadEnds(t, load) =>
      if load.Raised? {
        FinishKeeps(s, t);
      } else {
        LoadKeeps(s, load);
        BuildOrReturnKeeps(AfterLoad(s, load), t);
      }
    case BuildEnds(t) => FinishKeeps(s, t);
    case OtherLoad(load) => LoadKeeps(s, load);
  }

  lemma LoadKeeps(s: State, load: Load)
    requires Serialised(s)
    ensures Serialised(AfterLoad(s, load))
    ensures forall t: nat :: Holds(AfterLoad(s, load), t) <==> Holds(s, t)
  {
    forall t: nat ensures Holds(AfterLoad(s, load), t) <==> Holds(s, t) {
    }
  }

  /** At every scheduling point of every interleaving. */
  lemma {:induction false} BuildsAreSerialised(events: seq<Event>)
    requires After(events).Some?
    ensures Serialised(After(events).value)
  {
    if events != [] {
      BuildsAreSerialised(events[..|events| - 1]);
      EventKeeps(After(events[..|events| - 1]).value, events[|events| - 1]);
    }
  }

  // ---------------------------------------------------------------------------------------
  // Progress
  // ---------------------------------------------------------------------------------------

  function Left(st: Stage): nat {
    match st case Created => 4 case Waiting => 3 case Loading => 2 case Building => 1 case Done => 0
  }

  /** How many segments the tasks can still take. */
  function Work(tasks: seq<Stage>): nat {
    if tasks == [] then 0 else Work(tasks[..|tasks| - 1]) + Left(tasks[|tasks| - 1])
  }

  lemma {:induction false} WorkUpdate(tasks: seq<Stage>, t: nat, st: Stage)
    requires t < |tasks|
    ensures Work(tasks[t := st]) == Work(tasks) - Left(tasks[t]) + Left(st)
  {
    var n := |tasks| - 1;
    if t == n {
      assert tasks[t := st][..n] == tasks[..n];
    } else {
      assert tasks[t := st][..n] == tasks[..n][t := st];
      WorkUpdate(tasks[..n], t, st);
    }
  }

  predicate IsTaskSegment(e: Event) { !e.Request? && !e.OtherLoad? }

  /** Every segment of a build task uses some work up. */
  lemma SegmentsUseWork(s: State, e: Event)
    requires Serialised(s) && Enabled(s, e) && IsTaskSegment(e)
    ensures Work(Apply(s, e).tasks) < Work(s.tasks)
  {
    var t := if e.Woken? then s.waiters[0] else e.task;
    assert e.Woken? ==> t in s.waiters;
    var r := Apply(s, e);
    assert r.tasks == s.tasks[t := r.tasks[t]];
    WorkUpdate(s.tasks, t, r.tasks[t]);
  }

  lemma {:induction false} WorkLeft(tasks: seq<Stage>) returns (t: nat)
    requires Work(tasks) > 0
    ensures t < |tasks| && tasks[t] != Done
  {
    if tasks[|tasks| - 1] != Done {
      t := |tasks| - 1;
    } else {
      t := WorkLeft(tasks[..|tasks| - 1]);
    }
  }

  /** While a build task is unfinished, some build task can run: there is no deadlock. */
  lemma SomeTaskCanRun(s: State) returns (e: Event)
    requires Serialised(s) && Work(s.tasks) > 0
    ensures Enabled(s, e) && IsTaskSegment(e)
  {
    var t := WorkLeft(s.tasks);
    if s.tasks[t] == Created {
      e := FirstRun(t);
    } else if s.building {
      var u: nat :| Holds(s, u);
      e := if s.tasks[u] == Loading then LoadEnds(u, Raised) else BuildEnds(u);
    } else {
      assert !Holds(s, t);
      assert t in s.waiters;
      assert s.waiters[0] in s.waiters;
      e := Woken;
    }
  }

  lemma {:induction false} NoWorkMeansDone(tasks: seq<Stage>)
    requires Work(tasks) == 0
    ensures CountOf(tasks, {Done}) == |tasks|
  {
    if tasks != [] {
      NoWorkMeansDone(tasks[..|tasks| - 1]);
    }
  }

  /** When no build task can run any more, every started build has finished and none is in progress. */
  lemma QuietMeansFinished(events: seq<Event>)
    requires After(events).Some?
    requires forall e | Enabled(After(events).value, e) :: !IsTaskSegment(e)
    ensures var s := After(events).value;
            StartedIn(s.replies) == CountOf(s.tasks, {Done}) && !s.building && s.begun == s.arrived
  {
    BuildsAreSerialised(events);
    var s := After(events).value;
    if Work(s.tasks) > 0 {
      var e := SomeTaskCanRun(s);
    } else {
      NoWorkMeansDone(s.tasks);
      assert s.begun + [] == s.arrived;
    }
  }

  // ---------------------------------------------------------------------------------------
  // Which builds build
  // ---------------------------------------------------------------------------------------

  /** The event ends a load, for whichever tool, without an exception. */
  predicate Initialises(e: Event) { (e.LoadEnds? || e.OtherLoad?) && e.load.Loaded? }

  predicate MakesIndex(e: Event) { Initialises(e) && e.load.index }

  ghost predicate Happens(events: seq<Event>, what: Event -> bool) { exists e :: e in events && what(e) }

  lemma SomeMore(events: seq<Event>, e: Event, what: Event -> bool)
    ensures Happens(events + [e], what) <==> Happens(events, what) || what(e)
  {
    assert e in events + [e];
    assert forall x | x in events :: x in events + [e];
  }

  /** The server counts as initialised once a load has ended well, and has an index once one has made it. */
  lemma {:induction false} FlagsTellLoads(events: seq<Event>)
    requires After(events).Some?
    ensures After(events).value.initDone <==> Happens(events, Initialises)
    ensures After(events).value.hasIndex <==> Happens(events, MakesIndex)
  {
    if events != [] {
      var before, last := events[..|events| - 1], events[|events| - 1];
      FlagsTellLoads(before);
      SomeMore(before, last, Initialises);
      SomeMore(before, last, MakesIndex);
      assert events == before + [last];
      FlagsAfter(After(before).value, last);
    }
  }

  lemma FlagsAfter(s: State, e: Event)
    requires Enabled(s, e)
    ensures Apply(s, e).initDone == (s.initDone || Initialises(e))
    ensures Apply(s, e).hasIndex == (s.hasIndex || MakesIndex(e))
  {
  }

  /** The task goes from the start of its body, or from before it, to building or to its end. */
  predicate Decided(a: Stage, b: Stage) { a !in {Building, Done} && b in {Building, Done} }

  /** Over every run: a task that enters the body waits for a load exactly if none has ended well yet; and once it has
      what it waits for it builds exactly if its own load did not raise and some load has made an index. */
  lemma BuildsExactlyWithAnIndex(events: seq<Event>, e: Event, t: nat)
    requires After(events + [e]).Some?
    ensures After(events).Some? && |After(events + [e]).value.tasks| >= |After(events).value.tasks|
    ensures var s, r := After(events).value, After(events + [e]).value;
            t < |s.tasks| ==>
              && (t !in s.begun && t in r.begun ==> (r.tasks[t] == Loading <==> !Happens(events, Initialises)))
              && (Decided(s.tasks[t], r.tasks[t]) ==>
                    (r.tasks[t] == Building <==> e != LoadEnds(t, Raised) && Happens(events + [e], MakesIndex)))
              && (s.tasks[t] == Building && r.tasks[t] != Building ==> e == BuildEnds(t) && r.tasks[t] == Done)
  {
    assert (events + [e])[..|events|] == events;
    FlagsTellLoads(events);
    SomeMore(events, e, MakesIndex);
    BuildsAreSerialised(events);
    var s := After(events).value;
    if t < |s.tasks| {
      DecidedByIndex(s, e, t);
    }
  }

  lemma DecidedByIndex(s: State, e: Event, t: nat)
    requires Serialised(s) && Enabled(s, e) && t < |s.tasks|
    ensures DecidesRight(s, e, Apply(s, e), t)
  {
    if e.Woken? {
      assert s.waiters[0] in s.waiters;
      EntryDecides(s.(waiters := s.waiters[1..]), s.waiters[0], t);
    } else if e.FirstRun? {
      EntryDecides(s.(arrived := s.arrived + [e.task]), e.task, t);
    } else {
      OtherSegmentDecides(s, e, t);
    }
  }

  ghost predicate DecidesRight(s: State, e: Event, r: State, t: nat)
    requires t < |s.tasks|
  {
    && |r.tasks| >= |s.tasks|
    && (t !in s.begun && t in r.begun ==> (r.tasks[t] == Loading <==> !s.initDone))
    && (Decided(s.tasks[t], r.tasks[t]) ==>
          (r.tasks[t] == Building <==> e != LoadEnds(t, Raised) && (s.hasIndex || MakesIndex(e))))
    && (s.tasks[t] == Building && r.tasks[t] != Building ==> e == BuildEnds(t) && r.tasks[t] == Done)
  }

  lemma OtherSegmentDecides(s: State, e: Event, t: nat)
    requires Enabled(s, e) && t < |s.tasks| && !e.Woken? && !e.FirstRun?
    ensures DecidesRight(s, e, Apply(s, e), t)
  {
  }

  lemma EntryDecides(s: State, u: nat, t: nat)
    requires u < |s.tasks| && t < |s.tasks| && s.tasks[u] in {Created, Waiting}
    ensures |Begin(s, u).tasks| == |s.tasks|
    ensures var r := Begin(s, u);
            && (t in r.begun <==> t in s.begun || t == u)
            && (t != u ==> r.tasks[t] == s.tasks[t])
            && r.tasks[u] == if !s.initDone then Loading else if s.hasIndex then Building else Done
  {
  }

  /** Over every run a build is refused exactly while some task is in its body, and every call gets one reply. */
  lemma RefusedWhileBuilding(events: seq<Event>)
    requires After(events).Some?
    ensures var s, r := After(events).value, After(events + [Request]);
            r.Some? && r.value.replies
                == s.replies + [if exists t: nat :: Holds(s, t) then AlreadyBuilding else Started]
  {
    assert (events + [Request])[..|events|] == events;
    BuildsAreSerialised(events);
  }

  /** An index that some other tool has loaded is there for the first build, which builds at once. */
  lemma IndexFromElsewhere()
    ensures var s := After([OtherLoad(Loaded(true)), Request, FirstRun(0)]); s.Some? && s.value.tasks == [Building]
  {
    var events := [OtherLoad(Loaded(true)), Request, FirstRun(0)];
    assert events[..2] == [OtherLoad(Loaded(true)), Request];
    assert events[..2][..1] == [OtherLoad(Loaded(true))];
    assert events[..2][..1][..0] == [];
    var one := Apply(INITIAL, OtherLoad(Loaded(true)));
    assert After([OtherLoad(Loaded(true))]) == Some(one);
    var two := Apply(one, Request);
    assert After(events[..2]) == Some(two);
    assert After(events) == Some(Apply(two, FirstRun(0)));
  }

  /** Two builds can be accepted before the first one takes the lock; the second then waits for the first. */
  lemma TwoBuildsAccepted()
    ensures var s := After([Request, Request, FirstRun(0), FirstRun(1)]);
            s.Some? && s.value.replies == [Started, Started] && s.value.building && s.value.waiters == [1]
                && s.value.begun == [0]
  {
    var events := [Request, Request, FirstRun(0), FirstRun(1)];
    assert events[..3] == [Request, Request, FirstRun(0)];
    assert events[..3][..2] == [Request, Request];
    assert events[..3][..2][..1] == [Request];
    assert events[..3][..2][..1][..0] == [];
    var one := Apply(INITIAL, Request);
    assert After([Request]) == Some(one);
    var two := Apply(one, Request);
    assert After([Request, Request]) == Some(two);
    var three := Apply(two, FirstRun(0));
    assert After(events[..3]) == Some(three);
    assert After(events) == Some(Apply(three, FirstRun(1)));
  }
}

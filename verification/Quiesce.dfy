/** Waiting for the pipeline to go idle, the orphaned-barrier gate and the cancel-and-quiesce protocol. */
module Quiesce {
  import opened Prelude
  import opened StageTables

  /** One group of a raw status payload: missing or null, some other non-object (truthy or not), or an
      object whose phase is None when absent or not a string. */
  datatype GroupValue = Absent | NotAnObject(truthy: bool) | Object(phase: Option<Phase>)
  datatype Payload = Payload(groups: Group -> GroupValue, barrierActive: bool)

  /** An HTTP exchange: an exception, or a status code with the payload (None when the body is not an object). */
  datatype Response = NoResponse | Response(code: int, payload: Option<Payload>)

  predicate BusyValue(v: GroupValue) {
    v.Object? && v.phase.Some? && v.phase.value !in TERMINAL_PHASES
  }

  ghost predicate AllTerminal(p: Payload) {
    forall g :: !BusyValue(p.groups(g))
  }

  // ---------------------------------------------------------------------------------------
  // Three separately written busy tests
  // ---------------------------------------------------------------------------------------

  /** `is_any_running` over the listed groups; None where the source raises on a truthy non-object. */
  function AnyRunning(p: Payload, groups: seq<Group>): Option<bool> {
    if groups == [] then Some(false)
    else
      match p.groups(groups[0])
      case NotAnObject(true) => None
      case v => if BusyValue(v) then Some(true) else AnyRunning(p, groups[1..])
  }

  /** The inner loop of `wait_for_pipeline_idle`. */
  method PollShowsBusy(p: Payload) returns (busy: bool)
    ensures busy <==> !AllTerminal(p)
  {
    busy := false;
    for i := 0 to |GROUPS|
      invariant !busy && forall j | 0 <= j < i :: !BusyValue(p.groups(GROUPS[j]))
    {
      var grp := p.groups(GROUPS[i]);
      if !grp.Object? {
        continue;
      }
      if grp.phase.Some? && grp.phase.value !in TERMINAL_PHASES {
        return true;
      }
    }
    EveryGroupListed(p);
  }

  /** `orphaned_barrier_state`: an active barrier that no group in flight justifies. */
  method OrphanedBarrier(r: Response) returns (orphaned: bool)
    ensures orphaned
            <==> && r.Response? && r.code == 200 && r.payload.Some?
                 && r.payload.value.barrierActive && AllTerminal(r.payload.value)
  {
    if r.NoResponse? || r.code != 200 || r.payload.None? || !r.payload.value.barrierActive {
      return false;
    }
    var p := r.payload.value;
    for i := 0 to |GROUPS|
      invariant forall j | 0 <= j < i :: !BusyValue(p.groups(GROUPS[j]))
    {
      if BusyValue(p.groups(GROUPS[i])) {
        return false;
      }
    }
    EveryGroupListed(p);
    return true;
  }

  lemma EveryGroupListed(p: Payload)
    requires forall j | 0 <= j < |GROUPS| :: !BusyValue(p.groups(GROUPS[j]))
    ensures AllTerminal(p)
  {
    forall g ensures !BusyValue(p.groups(g)) {
      var j := match g case FastSync => 0 case DeepEnrichment => 1 case Finalize => 2;
      assert GROUPS[j] == g;
    }
  }

  /** A truthy non-object stands at `i`, before any busy group. */
  ghost predicate RaisesAt(p: Payload, groups: seq<Group>, i: int) {
    && 0 <= i < |groups| && p.groups(groups[i]) == NotAnObject(true)
    && forall j | 0 <= j < i :: !BusyValue(p.groups(groups[j]))
  }

  /** The watch loop's busy test agrees with the runner's whenever it answers, and it answers exactly when
      no truthy non-object stands before the first busy group. */
  lemma BusyTestsAgree(p: Payload)
    ensures AnyRunning(p, GROUPS).Some? ==> (AnyRunning(p, GROUPS).value <==> !AllTerminal(p))
    ensures AnyRunning(p, GROUPS).None? <==> exists i :: RaisesAt(p, GROUPS, i)
  {
    AnyRunningMeans(p, GROUPS);
    if forall j | 0 <= j < |GROUPS| :: !BusyValue(p.groups(GROUPS[j])) {
      EveryGroupListed(p);
    }
  }

  /** The status the watch loop works on, as far as its busy test goes. */
  function StatusOf(p: Payload): Status {
    (g: Group) => Slot(if p.groups(g).Object? then p.groups(g).phase else None, None, None, None)
  }

  /** Where the watch loop's busy test answers, it is the test its model runs on. */
  lemma BusyTestIsTheWatchLoops(p: Payload)
    requires AnyRunning(p, GROUPS).Some?
    ensures AnyRunning(p, GROUPS).value <==> IsAnyRunning(StatusOf(p))
  {
    BusyTestsAgree(p);
    forall g: Group ensures g in GROUPS {
      var j := match g case FastSync => 0 case DeepEnrichment => 1 case Finalize => 2;
      assert GROUPS[j] == g;
    }
    assert forall g: Group :: Busy(StatusOf(p)(g)) <==> BusyValue(p.groups(g));
  }

  lemma {:induction false} AnyRunningMeans(p: Payload, groups: seq<Group>)
    ensures AnyRunning(p, groups).None? <==> exists i :: RaisesAt(p, groups, i)
    ensures AnyRunning(p, groups) == Some(false) ==> forall j | 0 <= j < |groups| :: !BusyValue(p.groups(groups[j]))
    ensures AnyRunning(p, groups) == Some(true) ==> exists j :: 0 <= j < |groups| && BusyValue(p.groups(groups[j]))
  {
    if groups != [] {
      AnyRunningMeans(p, groups[1..]);
      if p.groups(groups[0]) == NotAnObject(true) {
        assert RaisesAt(p, groups, 0);
      } else if !BusyValue(p.groups(groups[0])) {
        assert forall i :: RaisesAt(p, groups[1..], i) ==> RaisesAt(p, groups, i + 1);
        assert forall i :: RaisesAt(p, groups, i) ==> i > 0 && RaisesAt(p, groups[1..], i - 1);
        assert AnyRunning(p, groups) == AnyRunning(p, groups[1..]);
        if AnyRunning(p, groups) == Some(true) {
          var j :| 0 <= j < |groups[1..]| && BusyValue(p.groups(groups[1..][j]));
          assert BusyValue(p.groups(groups[j + 1]));
        }
      }
    }
  }

  // ---------------------------------------------------------------------------------------
  // Phases
  // ---------------------------------------------------------------------------------------

  /** Terminal and cancellable phases split the ten pipeline phases. */
  lemma PhasesPartition()
    ensures TERMINAL_PHASES + CANCELLABLE_PHASES == PIPELINE_PHASES
    ensures TERMINAL_PHASES !! CANCELLABLE_PHASES
  {
  }

  predicate Cancellable(v: GroupValue) {
    v.Object? && v.phase.Some? && v.phase.value in CANCELLABLE_PHASES
  }

  /** The groups a snapshot names for cancellation, in order. */
  function Targets(snapshot: Option<Payload>, groups: seq<Group>): (r: seq<Group>)
    ensures forall g :: g in r <==> g in groups && snapshot.Some? && Cancellable(snapshot.value.groups(g))
  {
    if groups == [] || snapshot.None? then []
    else
      var rest := Targets(snapshot, groups[..|groups| - 1]);
      if Cancellable(snapshot.value.groups(groups[|groups| - 1])) then rest + [groups[|groups| - 1]] else rest
  }

  /** The groups cancelled are exactly the busy ones if and only if every phase reported is one of the ten. */
  lemma TargetsAreBusyGroups(p: Payload)
    ensures (forall g :: g in Targets(Some(p), GROUPS) <==> BusyValue(p.groups(g)))
            <==> (forall g | p.groups(g).Object? && p.groups(g).phase.Some? ::
                    p.groups(g).phase.value in PIPELINE_PHASES)
  {
    PhasesPartition();
    forall g: Group ensures g in GROUPS {
      var j := match g case FastSync => 0 case DeepEnrichment => 1 case Finalize => 2;
      assert GROUPS[j] == g;
    }
    forall g | p.groups(g).Object? && p.groups(g).phase.Some?
      ensures (Cancellable(p.groups(g)) <==> BusyValue(p.groups(g))) <==> p.groups(g).phase.value in PIPELINE_PHASES
    {
    }
  }

  // ---------------------------------------------------------------------------------------
  // The protocol
  // ---------------------------------------------------------------------------------------

  /** One turn of the wait loop: the clock when the deadline is checked, and what the poll then answers. */
  datatype Turn = Turn(now: real, response: Response)

  ghost predicate ShowsIdle(r: Response) {
    r.Response? && r.code == 200 && r.payload.Some? && AllTerminal(r.payload.value)
  }

  /** Turn `i` is polled, and it is the first to show every group terminal. */
  ghost predicate FirstIdle(turns: seq<Turn>, start: real, maxSeconds: real, i: int) {
    && 0 <= i < |turns| && ShowsIdle(turns[i].response)
    && (forall j | 0 <= j <= i :: turns[j].now - start < maxSeconds)
    && (forall j | 0 <= j < i :: !ShowsIdle(turns[j].response))
  }

  /** Turn `i` is the first at which the budget is spent, and no poll before it showed every group terminal. */
  ghost predicate GivesUpAt(turns: seq<Turn>, start: real, maxSeconds: real, i: int) {
    && 0 <= i < |turns| && turns[i].now - start >= maxSeconds
    && forall j | 0 <= j < i :: turns[j].now - start < maxSeconds && !ShowsIdle(turns[j].response)
  }

  /** The clock is never before the start, and every turn sleeps at least the poll interval. */
  ghost predicate Paced(turns: seq<Turn>, start: real, pollInterval: real) {
    && (turns != [] ==> turns[0].now >= start)
    && forall i | 0 <= i < |turns| - 1 :: turns[i + 1].now >= turns[i].now + pollInterval
  }

  lemma {:induction false} PacedClock(turns: seq<Turn>, start: real, pollInterval: real, n: nat)
    requires n < |turns| && Paced(turns, start, pollInterval)
    ensures turns[n].now >= start + n as real * pollInterval
  {
    if n > 0 {
      PacedClock(turns, start, pollInterval, n - 1);
      assert n as real * pollInterval == (n - 1) as real * pollInterval + pollInterval;
    }
  }

  /** More turns than the budget has poll intervals. */
  ghost predicate OutlastsBudget(turns: seq<Turn>, maxSeconds: real, pollInterval: real) {
    turns != [] && (|turns| - 1) as real * pollInterval >= maxSeconds
  }

  lemma DeadlineIsReached(turns: seq<Turn>, start: real, maxSeconds: real, pollInterval: real)
    requires Paced(turns, start, pollInterval) && OutlastsBudget(turns, maxSeconds, pollInterval)
    ensures turns[|turns| - 1].now - start >= maxSeconds
  {
    PacedClock(turns, start, pollInterval, |turns| - 1);
  }

  /** `wait_for_pipeline_idle`; None when the script of turns ends before the loop does, which it cannot once the
      turns outlast the budget. */
  method WaitForIdle(turns: seq<Turn>, start: real, maxSeconds: real, pollInterval: real) returns (r: Option<bool>)
    ensures r == Some(true) <==> exists i :: FirstIdle(turns, start, maxSeconds, i)
    ensures r == Some(false) <==> exists i :: GivesUpAt(turns, start, maxSeconds, i)
    ensures Paced(turns, start, pollInterval) && OutlastsBudget(turns, maxSeconds, pollInterval) ==> r.Some?
  {
    var deadline := start + maxSeconds;
    for i := 0 to |turns|
      invariant forall j | 0 <= j < i :: turns[j].now < deadline && !ShowsIdle(turns[j].response)
    {
      if turns[i].now >= deadline {
        assert GivesUpAt(turns, start, maxSeconds, i);
        return Some(false);
      }
      var response := turns[i].response;
      if response.Response? && response.code == 200 && response.payload.Some? {
        var busy := PollShowsBusy(response.payload.value);
        if !busy {
          assert FirstIdle(turns, start, maxSeconds, i);
          return Some(true);
        }
      }
    }
    if Paced(turns, start, pollInterval) && OutlastsBudget(turns, maxSeconds, pollInterval) {
      DeadlineIsReached(turns, start, maxSeconds, pollInterval);
    }
    return None;
  }

  /** `cancel_and_quiesce`: cancels what the snapshot shows as cancellable, one group at a time, then waits.
      It reports success only if some poll within the budget saw every group terminal. */
  method CancelAndQuiesce(snapshot: Response, turns: seq<Turn>, start: real, maxSeconds: real, pollInterval: real)
    returns (quiesced: Option<bool>, posted: seq<Group>)
    ensures posted == Targets(if snapshot.Response? && snapshot.code == 200 then snapshot.payload else None, GROUPS)
    ensures quiesced == Some(true) <==> exists i :: FirstIdle(turns, start, maxSeconds, i)
    ensures Paced(turns, start, pollInterval) && OutlastsBudget(turns, maxSeconds, pollInterval) ==> quiesced.Some?
  {
    var seen := if snapshot.Response? && snapshot.code == 200 then snapshot.payload else None;
    posted := [];
    for i := 0 to |GROUPS|
      invariant posted == Targets(seen, GROUPS[..i])
    {
      assert GROUPS[..i + 1][..i] == GROUPS[..i];
      if seen.Some? && Cancellable(seen.value.groups(GROUPS[i])) {
        posted := posted + [GROUPS[i]];
      }
    }
    assert GROUPS[..|GROUPS|] == GROUPS;
    quiesced := WaitForIdle(turns, start, maxSeconds, pollInterval);
  }
}

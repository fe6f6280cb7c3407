/** Idle detection and settling of the watch loop, over every run. */
module WatchIdle {
  import opened Prelude
  import opened StageTables
  import opened WatchLoop
  import opened WatchProofs
  import opened WatchTermination

  // ---------------------------------------------------------------------------------------
  // The idle span
  // ---------------------------------------------------------------------------------------

  predicate RunningPoll(e: Event) { e.Polled? && e.running }
  predicate IdlePoll(e: Event) { e.Polled? && !e.running }
  predicate NotPoll(e: Event) { !e.Polled? && !e.SettledIdle? }

  ghost predicate RunningSeen(log: seq<Event>, from: int, to: int) {
    exists m :: from < m < to && 0 <= m < |log| && RunningPoll(log[m])
  }

  /** The idle span the log ends in starts at `j`: no poll since saw a running group, and every
      earlier idle poll was followed by a running one before `j`. */
  ghost predicate IdleFrom(log: seq<Event>, j: nat) {
    && j < |log| && IdlePoll(log[j])
    && !RunningSeen(log, j, |log|)
    && forall k | 0 <= k < j && IdlePoll(log[k]) :: RunningSeen(log, k, j)
  }

  /** The loop's two idle variables say what the log says. */
  ghost predicate IdleInv(d: Idling, log: seq<Event>) {
    && (d.sawRunning <==> RunningSeen(log, -1, |log|))
    && (d.since.Some? ==> exists j: nat :: IdleFrom(log, j) && log[j].now == d.since.value)
    && (d.since.None? ==> forall k | 0 <= k < |log| && IdlePoll(log[k]) :: RunningSeen(log, k, |log|))
  }

  lemma RunningSeenGrows(log: seq<Event>, e: Event, from: int, to: int)
    requires to <= |log|
    ensures RunningSeen(log + [e], from, to) <==> RunningSeen(log, from, to)
    ensures RunningSeen(log + [e], from, |log| + 1)
            <==> RunningSeen(log, from, |log|) || (from < |log| && RunningPoll(e))
  {
    if RunningSeen(log, from, to) {
      var m :| from < m < to && 0 <= m < |log| && RunningPoll(log[m]);
      assert RunningPoll((log + [e])[m]);
    }
    if RunningSeen(log, from, |log|) {
      var m :| from < m < |log| && 0 <= m < |log| && RunningPoll(log[m]);
      assert RunningPoll((log + [e])[m]);
    }
    if from < |log| && RunningPoll(e) {
      assert RunningPoll((log + [e])[|log|]);
    }
  }

  lemma IdleFromStays(log: seq<Event>, e: Event, j: nat)
    requires IdleFrom(log, j) && !RunningPoll(e)
    ensures IdleFrom(log + [e], j)
  {
    RunningSeenGrows(log, e, j, |log|);
    forall k | 0 <= k < j && IdlePoll((log + [e])[k]) ensures RunningSeen(log + [e], k, j) {
      RunningSeenGrows(log, e, k, j);
    }
  }

  lemma QuietEventKeepsIdle(d: Idling, log: seq<Event>, e: Event)
    requires IdleInv(d, log) && !e.Polled?
    ensures IdleInv(d, log + [e])
  {
    RunningSeenGrows(log, e, -1, |log|);
    if d.since.Some? {
      var j: nat :| IdleFrom(log, j) && log[j].now == d.since.value;
      IdleFromStays(log, e, j);
    } else {
      forall k | 0 <= k < |log + [e]| && IdlePoll((log + [e])[k]) ensures RunningSeen(log + [e], k, |log + [e]|) {
        RunningSeenGrows(log, e, k, |log|);
      }
    }
  }

  lemma PollKeepsIdle(d: Idling, log: seq<Event>, now: real, running: bool, target: Option<Group>)
    requires IdleInv(d, log)
    ensures IdleInv(SeeRunning(d, now, running), log + [Polled(now, running, target)])
  {
    var e := Polled(now, running, target);
    RunningSeenGrows(log, e, -1, |log|);
    if running {
      forall k | 0 <= k < |log + [e]| && IdlePoll((log + [e])[k]) ensures RunningSeen(log + [e], k, |log + [e]|) {
        RunningSeenGrows(log, e, k, |log|);
      }
    } else if d.since.Some? {
      var j: nat :| IdleFrom(log, j) && log[j].now == d.since.value;
      IdleFromStays(log, e, j);
    } else {
      forall k | 0 <= k < |log| && IdlePoll((log + [e])[k]) ensures RunningSeen(log + [e], k, |log|) {
        RunningSeenGrows(log, e, k, |log|);
      }
      assert IdleFrom(log + [e], |log|);
    }
  }

  // ---------------------------------------------------------------------------------------
  // Settling
  // ---------------------------------------------------------------------------------------

  /** A return as settled at `m`: some poll saw a running group, and after the last such poll every
      successful poll, over a span of at least `settle` up to the moment of the return, saw none. */
  ghost predicate JustSettled(settle: real, log: seq<Event>, now: real) {
    exists j: nat, k: nat ::
      && IdleFrom(log, j) && j <= k < |log| && IdlePoll(log[k]) && log[k].now == now
      && RunningSeen(log, -1, j)
      && now - log[j].now >= settle
  }

  ghost predicate SettleInv(settle: real, log: seq<Event>) {
    forall m | 0 <= m < |log| && log[m].SettledIdle? :: JustSettled(settle, log[..m], log[m].now)
  }

  ghost predicate IdleAndSettle(settle: real, d: Idling, log: seq<Event>) {
    IdleInv(d, log) && SettleInv(settle, log)
  }

  lemma SettleInvStep(settle: real, log: seq<Event>, e: Event)
    requires SettleInv(settle, log)
    requires e.SettledIdle? ==> JustSettled(settle, log, e.now)
    ensures SettleInv(settle, log + [e])
  {
    forall m | 0 <= m < |log + [e]| && (log + [e])[m].SettledIdle?
      ensures JustSettled(settle, (log + [e])[..m], (log + [e])[m].now)
    {
      assert (log + [e])[..m] == log[..m];
      if m == |log| {
        assert log[..m] == log;
      }
    }
  }

  lemma {:induction false} QuietGrowthKeepsIdle(settle: real, d: Idling, earlier: seq<Event>, later: seq<Event>)
    requires IdleAndSettle(settle, d, earlier) && Grows(earlier, later, NotPoll)
    ensures IdleAndSettle(settle, d, later)
    decreases |later|
  {
    if |earlier| == |later| {
      assert later == earlier;
    } else {
      var before, e := later[..|later| - 1], later[|later| - 1];
      assert before[..|earlier|] == later[..|earlier|];
      assert later == before + [e];
      QuietGrowthKeepsIdle(settle, d, earlier, before);
      QuietEventKeepsIdle(d, before, e);
      SettleInvStep(settle, before, e);
    }
  }

  /** Settling at the latest poll, number `k`, is justified by the log. */
  lemma SettledIsJust(settle: real, d: Idling, log: seq<Event>, k: nat, now: real)
    requires IdleInv(d, log) && d.sawRunning && d.since.Some? && now - d.since.value >= settle
    requires k < |log| && IdlePoll(log[k]) && log[k].now == now && forall i | k < i < |log| :: !log[i].Polled?
    ensures JustSettled(settle, log, now)
  {
    var j: nat :| IdleFrom(log, j) && log[j].now == d.since.value;
    var m :| -1 < m < |log| && RunningPoll(log[m]);
    assert m < j;
    assert RunningSeen(log, -1, j);
  }

  lemma PostsAreNotPolls(cfg: Config, elapsed: real, p: Pausing, r: Report, t: Tick)
    ensures Grows(r.log, PausePhase(cfg, elapsed, p, r, t).1.log, NotPoll)
  {
  }

  lemma ActionsAreNotPolls(cfg: Config, elapsed: real, s: State, t: Tick)
    ensures var after := ActionPhase(cfg, elapsed, s, t);
            Grows(s.report.log, after.report.log, NotPoll) && after.idling == s.idling
  {
    var (c1, r1) := ScheduledPhase(cfg, elapsed, s.sched, s.report, t);
    PostsAreNotPolls(cfg, elapsed, s.pausing, r1, t);
    var (p2, r2) := PausePhase(cfg, elapsed, s.pausing, r1, t);
    GrowsTransitive(s.report.log, r1.log, r2.log, NotPoll);
    GrowsTransitive(s.report.log, r2.log, RecoveryPhase(c1, r2, t).1.log, NotPoll);
  }

  lemma AfterPollKeepsIdle(cfg: Config, elapsed: real, s: State, t: Tick)
    requires t.poll.StatusOk? && IdleAndSettle(cfg.settle, s.idling, s.report.log)
    ensures var after := AfterPoll(cfg, elapsed, s, t);
            var k := |s.report.log|;
            && IdleAndSettle(cfg.settle, after.idling, after.report.log)
            && k < |after.report.log| && after.report.log[k].Polled?
            && after.report.log[k].now == t.now && after.report.log[k].running == IsAnyRunning(t.poll.status)
            && forall i | k < i < |after.report.log| :: !after.report.log[i].Polled?
  {
    var running, target := IsAnyRunning(t.poll.status), FirstRunning(t.poll.status, GROUPS);
    var e := Polled(t.now, running, target);
    var r := Note(s.report, e);
    InspectGrows(cfg, elapsed, s.sched.recovery, s.checks, r, t.poll.status, t.poll.dom, t.poll.results);
    var after := AfterPoll(cfg, elapsed, s, t);
    assert Grows(r.log, after.report.log, NotPoll);
    PollKeepsIdle(s.idling, s.report.log, t.now, running, target);
    SettleInvStep(cfg.settle, s.report.log, e);
    QuietGrowthKeepsIdle(cfg.settle, after.idling, r.log, after.report.log);
    assert after.report.log[|s.report.log|] == after.report.log[..|r.log|][|s.report.log|] == e;
  }

  predicate Settles(cfg: Config, d: Idling, now: real) {
    d.sawRunning && d.since.Some? && d.since.value != 0.0 && now - d.since.value >= cfg.settle
  }

  /** A settling decision logs it, and perhaps a remark; any other one logs neither a poll nor a settling. */
  lemma DecideGrowsQuietly(cfg: Config, elapsed: real, s: State, now: real, running: bool)
    ensures var after := Decide(cfg, elapsed, s, now, running).st;
            var base := if Settles(cfg, s.idling, now) then s.report.log + [SettledIdle(now)] else s.report.log;
            Grows(base, after.report.log, NotPoll) && after.idling == s.idling
  {
  }

  lemma DecideKeepsIdle(cfg: Config, elapsed: real, s: State, k: nat, now: real, running: bool)
    requires IdleAndSettle(cfg.settle, s.idling, s.report.log)
    requires k < |s.report.log| && s.report.log[k].Polled? && s.report.log[k].now == now
             && s.report.log[k].running == running
    requires forall i | k < i < |s.report.log| :: !s.report.log[i].Polled?
    requires running ==> s.idling.since.None?
    ensures var after := Decide(cfg, elapsed, s, now, running).st;
            IdleAndSettle(cfg.settle, after.idling, after.report.log)
  {
    var d, log := s.idling, s.report.log;
    var after := Decide(cfg, elapsed, s, now, running).st.report.log;
    DecideGrowsQuietly(cfg, elapsed, s, now, running);
    if Settles(cfg, d, now) {
      SettlingKeepsIdle(cfg.settle, d, log, k, now);
      QuietGrowthKeepsIdle(cfg.settle, d, log + [SettledIdle(now)], after);
    } else {
      QuietGrowthKeepsIdle(cfg.settle, d, log, after);
    }
  }

  lemma SettlingKeepsIdle(settle: real, d: Idling, log: seq<Event>, k: nat, now: real)
    requires IdleAndSettle(settle, d, log) && d.sawRunning && d.since.Some? && now - d.since.value >= settle
    requires k < |log| && IdlePoll(log[k]) && log[k].now == now && forall i | k < i < |log| :: !log[i].Polled?
    ensures IdleAndSettle(settle, d, log + [SettledIdle(now)])
  {
    SettledIsJust(settle, d, log, k, now);
    QuietEventKeepsIdle(d, log, SettledIdle(now));
    SettleInvStep(settle, log, SettledIdle(now));
  }

  lemma PollPhaseKeepsIdle(cfg: Config, elapsed: real, s: State, t: Tick)
    requires IdleAndSettle(cfg.settle, s.idling, s.report.log)
    ensures var after := PollPhase(cfg, elapsed, s, t).st; IdleAndSettle(cfg.settle, after.idling, after.report.log)
  {
    if t.poll.StatusFailed? {
      QuietGrowthKeepsIdle(cfg.settle, s.idling, s.report.log, s.report.log + [PollFailed]);
    } else {
      AfterPollKeepsIdle(cfg, elapsed, s, t);
      DecideKeepsIdle(cfg, elapsed, AfterPoll(cfg, elapsed, s, t), |s.report.log|, t.now, IsAnyRunning(t.poll.status));
    }
  }

  lemma ActionsKeepIdle(cfg: Config, elapsed: real, s: State, t: Tick)
    requires IdleAndSettle(cfg.settle, s.idling, s.report.log)
    ensures var after := ActionPhase(cfg, elapsed, s, t); IdleAndSettle(cfg.settle, after.idling, after.report.log)
  {
    ActionsAreNotPolls(cfg, elapsed, s, t);
    QuietGrowthKeepsIdle(cfg.settle, s.idling, s.report.log, ActionPhase(cfg, elapsed, s, t).report.log);
  }

  lemma TimeoutKeepsIdle(cfg: Config, s: State)
    requires IdleAndSettle(cfg.settle, s.idling, s.report.log)
    ensures var after := PastBudget(cfg, s).st; IdleAndSettle(cfg.settle, after.idling, after.report.log)
  {
    QuietGrowthKeepsIdle(cfg.settle, s.idling, s.report.log, PastBudget(cfg, s).st.report.log);
  }

  /** In every run the idle variables describe the log, and every return as settled is justified: some
      poll saw a running group, and after the last such poll every successful poll, over a span of at
      least the settle time, saw none. */
  lemma SettledMeansIdle(cfg: Config, t0: real, ticks: seq<Tick>)
    ensures var s := Run(cfg, t0, ticks).st; IdleInv(s.idling, s.report.log) && SettleInv(cfg.settle, s.report.log)
  {
    var inv := (s: State) => IdleAndSettle(cfg.settle, s.idling, s.report.log);
    forall elapsed: real, s: State, t: Tick | inv(s) ensures KeptBy(cfg, elapsed, s, t, inv) {
      TimeoutKeepsIdle(cfg, s);
      ActionsKeepIdle(cfg, elapsed, s, t);
      PollPhaseKeepsIdle(cfg, elapsed, s, t);
    }
    RunKeeps(cfg, t0, ticks, inv);
  }

  lemma SeenWidens(log: seq<Event>, from: int, to: int, wider: int)
    requires to <= wider
    ensures RunningSeen(log, from, to) ==> RunningSeen(log, from, wider)
  {
    if RunningSeen(log, from, to) {
      var m :| from < m < to && 0 <= m < |log| && RunningPoll(log[m]);
      assert from < m < wider;
    }
  }

  /** The idle span has one start. */
  lemma NoLaterStart(log: seq<Event>, i: nat, j: nat)
    requires IdleFrom(log, i) && i < j
    ensures !IdleFrom(log, j)
  {
    if j < |log| {
      SeenWidens(log, i, j, |log|);
    }
  }

  /** The decision settles exactly when a running group has been seen and the idle span is long enough, unless
      the span started at clock value zero, which the loop takes for unset. */
  lemma DecisionSettlesWhen(cfg: Config, s: State, now: real)
    requires IdleInv(s.idling, s.report.log)
    ensures var d, log := s.idling, s.report.log;
            Settles(cfg, d, now)
            <==> exists j: nat :: && IdleFrom(log, j) && RunningSeen(log, -1, j)
                                  && now - log[j].now >= cfg.settle && log[j].now != 0.0
  {
    var d, log := s.idling, s.report.log;
    if d.since.Some? {
      var j: nat :| IdleFrom(log, j) && log[j].now == d.since.value;
      if RunningSeen(log, -1, |log|) {
        var m :| -1 < m < |log| && 0 <= m < |log| && RunningPoll(log[m]);
        assert m < j;
        assert RunningSeen(log, -1, j);
      }
      SeenWidens(log, -1, j, |log|);
      forall i: nat | i != j ensures !IdleFrom(log, i) {
        if j < i {
          NoLaterStart(log, j, i);
        } else if IdleFrom(log, i) {
          NoLaterStart(log, i, j);
        }
      }
    }
  }

  // ---------------------------------------------------------------------------------------
  // Polls are spaced out, so only the first one can come at clock value zero
  // ---------------------------------------------------------------------------------------

  predicate Unpolled(e: Event) { !e.Polled? }

  ghost predicate Spaced(nextPoll: real, log: seq<Event>) {
    && 0.0 <= nextPoll
    && (forall i | 0 <= i < |log| && log[i].Polled? :: 0.0 <= log[i].now && log[i].now + POLL_INTERVAL <= nextPoll)
    && (forall i, j | 0 <= i < j < |log| && log[i].Polled? && log[j].Polled? :: log[j].now >= POLL_INTERVAL)
  }

  lemma SpacedGrows(nextPoll: real, a: seq<Event>, b: seq<Event>)
    requires Spaced(nextPoll, a) && Grows(a, b, Unpolled)
    ensures Spaced(nextPoll, b)
  {
    forall i | 0 <= i < |b| && b[i].Polled? ensures i < |a| && a[i] == b[i] {
      assert i < |a| ==> b[..|a|][i] == b[i];
    }
  }

  lemma PollKeepsSpaced(cfg: Config, elapsed: real, s: State, t: Tick)
    requires Spaced(s.nextPoll, s.report.log) && t.now >= s.nextPoll
    ensures var after := PollPhase(cfg, elapsed, s, t).st; Spaced(after.nextPoll, after.report.log)
  {
    var after := PollPhase(cfg, elapsed, s, t).st;
    if t.poll.StatusFailed? {
      SpacedGrows(t.now + POLL_INTERVAL, s.report.log, s.report.log + [PollFailed]);
    } else {
      var first := s.report.log + [Polled(t.now, IsAnyRunning(t.poll.status), FirstRunning(t.poll.status, GROUPS))];
      PollPhaseTail(cfg, elapsed, s, t);
      PollSetsNext(cfg, elapsed, s, t);
      assert Grows(first, after.report.log, Unpolled);
      SpacedGrows(t.now + POLL_INTERVAL, first, after.report.log);
    }
  }

  lemma PollSetsNext(cfg: Config, elapsed: real, s: State, t: Tick)
    ensures PollPhase(cfg, elapsed, s, t).st.nextPoll == t.now + POLL_INTERVAL
  {
  }

  lemma ActionsKeepSpaced(cfg: Config, elapsed: real, s: State, t: Tick)
    requires Spaced(s.nextPoll, s.report.log)
    ensures var after := ActionPhase(cfg, elapsed, s, t); Spaced(after.nextPoll, after.report.log)
  {
    ActionsAreNotPolls(cfg, elapsed, s, t);
    SpacedGrows(s.nextPoll, s.report.log, ActionPhase(cfg, elapsed, s, t).report.log);
  }

  lemma TimeoutKeepsSpaced(cfg: Config, s: State)
    requires Spaced(s.nextPoll, s.report.log)
    ensures var after := PastBudget(cfg, s).st; Spaced(after.nextPoll, after.report.log)
  {
    SpacedGrows(s.nextPoll, s.report.log, PastBudget(cfg, s).st.report.log);
  }

  lemma RunKeepsSpaced(cfg: Config, t0: real, ticks: seq<Tick>)
    ensures var s := Run(cfg, t0, ticks).st; Spaced(s.nextPoll, s.report.log)
  {
    var inv := (s: State) => Spaced(s.nextPoll, s.report.log);
    forall elapsed: real, s: State, t: Tick | inv(s) ensures KeptBy(cfg, elapsed, s, t, inv) {
      TimeoutKeepsSpaced(cfg, s);
      ActionsKeepSpaced(cfg, elapsed, s, t);
      if t.now >= s.nextPoll {
        PollKeepsSpaced(cfg, elapsed, s, t);
      }
    }
    RunKeeps(cfg, t0, ticks, inv);
  }

  lemma SpanAfterRunning(nextPoll: real, log: seq<Event>, j: nat)
    requires Spaced(nextPoll, log) && IdleFrom(log, j) && RunningSeen(log, -1, j)
    ensures log[j].now >= POLL_INTERVAL
  {
  }

  // ---------------------------------------------------------------------------------------
  // When a run settles
  // ---------------------------------------------------------------------------------------

  /** Events other than polls do not move the idle span. */
  lemma SpanStays(a: seq<Event>, b: seq<Event>, j: nat)
    requires Grows(a, b, Unpolled)
    ensures IdleFrom(a, j) && RunningSeen(a, -1, j) <==> IdleFrom(b, j) && RunningSeen(b, -1, j)
  {
    assert forall m | 0 <= m < |a| :: b[..|a|][m] == b[m];
    forall from: int, to: int ensures RunningSeen(a, from, to) <==> RunningSeen(b, from, to) {
      if RunningSeen(a, from, to) {
        var m :| from < m < to && 0 <= m < |a| && RunningPoll(a[m]);
        assert RunningPoll(b[m]);
      }
      if RunningSeen(b, from, to) {
        var m :| from < m < to && 0 <= m < |b| && RunningPoll(b[m]);
        assert RunningPoll(a[m]);
      }
    }
    SeenInRange(a);
    SeenInRange(b);
  }

  lemma SeenInRange(log: seq<Event>)
    ensures forall from: int, to: int | to >= |log| :: RunningSeen(log, from, to) <==> RunningSeen(log, from, |log|)
  {
    forall from: int, to: int | to >= |log| && RunningSeen(log, from, to) ensures RunningSeen(log, from, |log|) {
      var m :| from < m < to && 0 <= m < |log| && RunningPoll(log[m]);
      assert from < m < |log|;
    }
    forall from: int, to: int | to >= |log| {
      SeenWidens(log, from, |log|, to);
    }
  }

  predicate HasSettled(log: seq<Event>) {
    exists m: nat :: m < |log| && log[m].SettledIdle?
  }

  /** An open watch that decides has settled afterwards exactly when the settle test held. */
  lemma DecideLogs(cfg: Config, elapsed: real, s: State, now: real, running: bool)
    requires StillOpen(s.report.log)
    ensures var d, log := s.idling, Decide(cfg, elapsed, s, now, running).st.report.log;
            && Grows(s.report.log, log, Unpolled)
            && (HasSettled(log) <==> Settles(cfg, d, now))
  {
    var d, log := s.idling, Decide(cfg, elapsed, s, now, running).st.report.log;
    if Settles(cfg, d, now) {
      assert log[|s.report.log|] == SettledIdle(now);
    } else {
      forall m: nat | m < |log| ensures !log[m].SettledIdle? {
        if m < |s.report.log| {
          assert s.report.log[m] == log[m];
        }
      }
    }
  }

  /** In every run, a successful poll ends the watch as settled if and only if some poll of the log saw a running
      group and after the last such poll every successful poll, over at least the settle time, saw none. The loop
      takes an idle start of zero for unset, which no run can tell: see `ZeroStartNeverMatters`. */
  lemma SettlesExactlyWhen(cfg: Config, t0: real, ticks: seq<Tick>, t: Tick)
    requires var o := Run(cfg, t0, ticks); o.verdict.None? && t.now >= o.st.nextPoll
    requires Elapsed(t0, t) <= cfg.budget && t.poll.StatusOk?
    ensures var log := Run(cfg, t0, ticks + [t]).st.report.log;
            HasSettled(log)
            <==> exists j: nat :: IdleFrom(log, j) && RunningSeen(log, -1, j) && t.now - log[j].now >= cfg.settle
  {
    var elapsed, s := Elapsed(t0, t), Run(cfg, t0, ticks).st;
    var s1 := ActionPhase(cfg, elapsed, s, t);
    var s2 := AfterPoll(cfg, elapsed, s1, t);
    var running := IsAnyRunning(t.poll.status);
    assert (ticks + [t])[..|ticks + [t]| - 1] == ticks && (ticks + [t])[|ticks|] == t;
    var log := Run(cfg, t0, ticks + [t]).st.report.log;
    assert log == Decide(cfg, elapsed, s2, t.now, running).st.report.log;
    RunConcludes(cfg, t0, ticks);
    ActionsStayOpen(cfg, elapsed, s, t);
    AfterPollStaysOpen(cfg, elapsed, s1, t);
    SettledMeansIdle(cfg, t0, ticks);
    ActionsKeepIdle(cfg, elapsed, s, t);
    AfterPollKeepsIdle(cfg, elapsed, s1, t);
    DecideLogs(cfg, elapsed, s2, t.now, running);
    DecisionSettlesWhen(cfg, s2, t.now);
    RunKeepsSpaced(cfg, t0, ticks + [t]);
    SettledSpan(cfg, Run(cfg, t0, ticks + [t]).st.nextPoll, s2.report.log, log, t.now);
  }

  ghost predicate GivenUp(log: seq<Event>, unexpected: bool) { NoActivity(unexpected) in log }

  lemma DecideGivesUpWhen(cfg: Config, elapsed: real, s: State, now: real, running: bool)
    requires StillOpen(s.report.log) && (running ==> s.idling.sawRunning)
    ensures var log := Decide(cfg, elapsed, s, now, running).st.report.log;
            && Grows(s.report.log, log, Unpolled)
            && forall unexpected ::
                 GivenUp(log, unexpected)
                 <==> !s.idling.sawRunning && elapsed > cfg.grace * 2.0 && unexpected == cfg.expectActivity
  {
    var log := Decide(cfg, elapsed, s, now, running).st.report.log;
    forall unexpected ensures !GivenUp(s.report.log, unexpected) {
      OpenHasNotGivenUp(s.report.log, unexpected);
    }
    if !s.idling.sawRunning && elapsed > cfg.grace * 2.0 {
      assert log[|s.report.log|] == NoActivity(cfg.expectActivity);
    }
  }

  lemma OpenHasNotGivenUp(log: seq<Event>, unexpected: bool)
    requires StillOpen(log)
    ensures !GivenUp(log, unexpected)
  {
  }

  lemma SeenThrough(a: seq<Event>, b: seq<Event>)
    requires Grows(a, b, Unpolled)
    ensures RunningSeen(a, -1, |a|) <==> RunningSeen(b, -1, |b|)
  {
    assert forall m | 0 <= m < |a| :: b[..|a|][m] == b[m];
    if RunningSeen(b, -1, |b|) {
      var m :| -1 < m < |b| && RunningPoll(b[m]);
      assert m >= |a| ==> Unpolled(b[m]);
      assert a[m] == b[m];
    }
  }

  /** In every run, a successful poll ends the watch for lack of activity if and only if no poll of the log, this one
      included, saw a running group and more than twice the grace period has passed; and whether that is noted as
      unexpected is what the configuration says. */
  lemma GivesUpExactlyWhen(cfg: Config, t0: real, ticks: seq<Tick>, t: Tick, unexpected: bool)
    requires var o := Run(cfg, t0, ticks); o.verdict.None? && t.now >= o.st.nextPoll
    requires Elapsed(t0, t) <= cfg.budget && t.poll.StatusOk?
    ensures var log := Run(cfg, t0, ticks + [t]).st.report.log;
            GivenUp(log, unexpected)
            <==> !RunningSeen(log, -1, |log|) && t.now - t0 > 2.0 * cfg.grace && unexpected == cfg.expectActivity
  {
    var elapsed, s := Elapsed(t0, t), Run(cfg, t0, ticks).st;
    var s1 := ActionPhase(cfg, elapsed, s, t);
    var s2 := AfterPoll(cfg, elapsed, s1, t);
    var running := IsAnyRunning(t.poll.status);
    assert (ticks + [t])[..|ticks + [t]| - 1] == ticks && (ticks + [t])[|ticks|] == t;
    var log := Run(cfg, t0, ticks + [t]).st.report.log;
    assert log == Decide(cfg, elapsed, s2, t.now, running).st.report.log;
    RunConcludes(cfg, t0, ticks);
    ActionsStayOpen(cfg, elapsed, s, t);
    AfterPollStaysOpen(cfg, elapsed, s1, t);
    SettledMeansIdle(cfg, t0, ticks);
    ActionsKeepIdle(cfg, elapsed, s, t);
    AfterPollKeepsIdle(cfg, elapsed, s1, t);
    DecideGivesUpWhen(cfg, elapsed, s2, t.now, running);
    SeenThrough(s2.report.log, log);
  }

  lemma SettledSpan(cfg: Config, nextPoll: real, a: seq<Event>, b: seq<Event>, now: real)
    requires Grows(a, b, Unpolled) && Spaced(nextPoll, b)
    ensures (exists j: nat :: && IdleFrom(a, j) && RunningSeen(a, -1, j)
                              && now - a[j].now >= cfg.settle && a[j].now != 0.0)
            <==> (exists j: nat :: IdleFrom(b, j) && RunningSeen(b, -1, j) && now - b[j].now >= cfg.settle)
  {
    assert forall m | 0 <= m < |a| :: b[..|a|][m] == b[m];
    forall j: nat | IdleFrom(b, j) && RunningSeen(b, -1, j)
      ensures IdleFrom(a, j) && RunningSeen(a, -1, j) && a[j] == b[j] && a[j].now != 0.0
    {
      SpanStays(a, b, j);
      SpanAfterRunning(nextPoll, b, j);
    }
    forall j: nat | IdleFrom(a, j) && RunningSeen(a, -1, j)
      ensures IdleFrom(b, j) && RunningSeen(b, -1, j) && a[j] == b[j]
    {
      SpanStays(a, b, j);
    }
  }

  /** An idle start of zero, which the loop takes for unset, occurs in no run that has seen a running group. */
  lemma ZeroStartNeverMatters(cfg: Config, t0: real, ticks: seq<Tick>)
    ensures var d := Run(cfg, t0, ticks).st.idling; d.since == Some(0.0) ==> !d.sawRunning
  {
    var s := Run(cfg, t0, ticks).st;
    var log := s.report.log;
    SettledMeansIdle(cfg, t0, ticks);
    RunKeepsSpaced(cfg, t0, ticks);
    if s.idling.since.Some? && s.idling.sawRunning {
      StartAfterRunning(s.nextPoll, s.idling, log);
    }
  }

  lemma StartAfterRunning(nextPoll: real, d: Idling, log: seq<Event>)
    requires IdleInv(d, log) && Spaced(nextPoll, log) && d.since.Some? && d.sawRunning
    ensures d.since.value >= POLL_INTERVAL
  {
    var j: nat :| IdleFrom(log, j) && log[j].now == d.since.value;
    var m :| -1 < m < |log| && 0 <= m < |log| && RunningPoll(log[m]);
    assert m < j && RunningSeen(log, -1, j);
    SpanAfterRunning(nextPoll, log, j);
  }

  /** There is such a start: a first poll at clock value zero that sees the pipeline at rest. */
  lemma SpanFromZero(cfg: Config, t0: real, t: Tick)
    requires t.now == 0.0 && Elapsed(t0, t) <= cfg.budget && t.poll.StatusOk? && !IsAnyRunning(t.poll.status)
    ensures Run(cfg, t0, [t]).st.idling == Idling(false, Some(0.0))
  {
    assert [t][..0] == [];
    assert Run(cfg, t0, [t][..0]) == Outcome(INITIAL, None);
    var s1 := ActionPhase(cfg, Elapsed(t0, t), INITIAL, t);
    ActionsAreNotPolls(cfg, Elapsed(t0, t), INITIAL, t);
    PollPhaseTail(cfg, Elapsed(t0, t), s1, t);
  }
}

/** The desync and invariant-failure events of the watch loop against what its polls observed, over every run. */
module WatchReports {
  import opened Prelude
  import opened StageTables
  import opened StageVerdicts
  import opened FailureGate
  import opened WatchLoop
  import opened WatchProofs

  /** One comparison of a drawn row with its stage's verdict. */
  type Comparison = (Stage, Option<Desync>)

  /** What a log holds for this module: the invariant results fed to the gate, the failure events,
      the row comparisons and the desync events, each in order. */
  datatype View = View(observations: seq<Obs>, failures: seq<(string, string)>,
                       comparisons: seq<Comparison>, desyncs: seq<(Stage, Desync)>)

  function Extend(v: View, e: Event): View {
    match e
    case Observed(o) => v.(observations := v.observations + [o])
    case FailureLogged(id, sig) => v.(failures := v.failures + [(id, sig)])
    case Compared(stage, found) => v.(comparisons := v.comparisons + [(stage, found)])
    case DesyncLogged(stage, d) => v.(desyncs := v.desyncs + [(stage, d)])
    case _ => v
  }

  function ViewOf(log: seq<Event>): View {
    if log == [] then View([], [], [], []) else Extend(ViewOf(log[..|log| - 1]), log[|log| - 1])
  }

  predicate Unseen(e: Event) {
    !e.Observed? && !e.FailureLogged? && !e.Compared? && !e.DesyncLogged?
  }

  lemma {:induction false} ViewIgnores(earlier: seq<Event>, later: seq<Event>)
    requires Grows(earlier, later, Unseen)
    ensures ViewOf(later) == ViewOf(earlier)
    decreases |later|
  {
    if |earlier| == |later| {
      assert later == earlier;
    } else {
      var before := later[..|later| - 1];
      assert before[..|earlier|] == later[..|earlier|];
      ViewIgnores(earlier, before);
    }
  }

  lemma ViewStep(log: seq<Event>, e: Event)
    ensures ViewOf(log + [e]) == Extend(ViewOf(log), e)
  {
    LogStep(log, e);
  }

  // ---------------------------------------------------------------------------------------
  // Which comparisons are reported
  // ---------------------------------------------------------------------------------------

  /** The desync events of a history of comparisons: each disagreement other than the one last reported
      for its stage. */
  function DesyncsOf(h: seq<Comparison>): seq<(Stage, Desync)> {
    if h == [] then []
    else
      var before, last := DesyncsOf(h[..|h| - 1]), h[|h| - 1];
      if last.1.Some? && LatestOf(before, last.0) != last.1 then before + [(last.0, last.1.value)] else before
  }

  /** Comparison `i` of the history is reported. */
  predicate Reported(h: seq<Comparison>, i: nat)
    requires i < |h|
  {
    h[i].1.Some? && LatestOf(DesyncsOf(h[..i]), h[i].0) != h[i].1
  }

  /** The latest disagreement a history saw for a stage, reported or not. */
  function LastSeen(h: seq<Comparison>, stage: Stage): Option<Desync> {
    if h == [] then None
    else if h[|h| - 1].0 == stage && h[|h| - 1].1.Some? then h[|h| - 1].1
    else LastSeen(h[..|h| - 1], stage)
  }

  lemma DesyncsStep(h: seq<Comparison>, stage: Stage, found: Option<Desync>)
    ensures DesyncsOf(h + [(stage, found)])
         == if found.Some? && LatestOf(DesyncsOf(h), stage) != found then DesyncsOf(h) + [(stage, found.value)]
            else DesyncsOf(h)
  {
    var longer := h + [(stage, found)];
    assert longer[..|longer| - 1] == h;
  }

  /** No stage is reported with the same disagreement twice in a row, and the last one reported is the last one seen. */
  lemma {:induction false} ReportedIsSeen(h: seq<Comparison>)
    ensures NeverRepeats(DesyncsOf(h))
    ensures forall stage :: LatestOf(DesyncsOf(h), stage) == LastSeen(h, stage)
  {
    if h != [] {
      var before, last := h[..|h| - 1], h[|h| - 1];
      ReportedIsSeen(before);
      if last.1.Some? && LatestOf(DesyncsOf(before), last.0) != last.1 {
        NeverRepeatsStep(DesyncsOf(before), last.0, last.1.value);
      }
    }
  }

  /** `k` saw another disagreement of the stage of `i`. */
  predicate SawAnother(h: seq<Comparison>, i: nat, k: nat)
    requires i < |h| && k < |h|
  {
    h[k].0 == h[i].0 && h[k].1.Some? && h[k].1 != h[i].1
  }

  /** Up to `j`, the disagreement of `i` is still the last one seen unless another one was; and the first other one
      was reported. */
  lemma {:induction false} SeenSince(h: seq<Comparison>, i: nat, j: nat)
    requires i < j <= |h| && h[i].1.Some?
    requires forall k: nat | i < k < j :: h[k] != h[i]
    ensures LastSeen(h[..j], h[i].0) == h[i].1 <==> forall k: nat | i < k < j :: !SawAnother(h, i, k)
    ensures (exists k: nat :: i < k < j && SawAnother(h, i, k))
        ==> exists k: nat :: i < k < j && SawAnother(h, i, k) && Reported(h, k)
    decreases j
  {
    assert h[..j][..j - 1] == h[..j - 1] && h[..j][j - 1] == h[j - 1];
    if i < j - 1 {
      SeenSince(h, i, j - 1);
      ReportedIsSeen(h[..j - 1]);
      if SawAnother(h, i, j - 1) && forall k: nat | i < k < j - 1 :: !SawAnother(h, i, k) {
        assert Reported(h, j - 1);
      }
    }
  }

  /** A disagreement that comes back after it was last seen at `i` is reported if and only if another one of
      its stage was reported in between; agreements in between change nothing. */
  lemma ReturningDesync(h: seq<Comparison>, i: nat, j: nat)
    requires i < j < |h| && h[i] == h[j] && h[i].1.Some?
    requires forall k: nat | i < k < j :: h[k] != h[i]
    ensures Reported(h, j) <==> exists k: nat :: i < k < j && h[k].0 == h[i].0 && Reported(h, k)
  {
    SeenSince(h, i, j);
    ReportedIsSeen(h[..j]);
    forall k: nat | i < k < j && h[k].0 == h[i].0 && Reported(h, k) ensures SawAnother(h, i, k) {
      assert h[k] != h[i];
    }
  }

  // ---------------------------------------------------------------------------------------
  // What every run keeps
  // ---------------------------------------------------------------------------------------

  /** The remembered signatures are those of the latest desync events, which are the ones the comparisons give. */
  ghost predicate DesyncInv(last: map<Stage, Desync>, h: seq<Comparison>, desyncs: seq<(Stage, Desync)>) {
    && desyncs == DesyncsOf(h)
    && forall stage :: LatestOf(desyncs, stage) == if stage in last then Some(last[stage]) else None
  }

  /** The gate has been fed exactly the logged observations, the failure events are exactly those the observations
      give, and the desync events those the comparisons give. */
  ghost predicate ViewInv(c: Checks, v: View) {
    && c.gate == Replay(v.observations, INVARIANT_PERSISTENCE_TICKS)
    && v.failures == EmittedBy(v.observations, INVARIANT_PERSISTENCE_TICKS)
    && DesyncInv(c.lastDesync, v.comparisons, v.desyncs)
  }

  lemma LatestStep(events: seq<(Stage, Desync)>, stage: Stage, d: Desync)
    ensures forall other ::
            LatestOf(events + [(stage, d)], other) == if other == stage then Some(d) else LatestOf(events, other)
  {
    var longer := events + [(stage, d)];
    assert longer[..|longer| - 1] == events;
  }

  lemma DesyncInvStep(last: map<Stage, Desync>, h: seq<Comparison>, desyncs: seq<(Stage, Desync)>, stage: Stage,
                      found: Option<Desync>)
    requires DesyncInv(last, h, desyncs)
    ensures if found.None? || (stage in last && last[stage] == found.value)
            then DesyncInv(last, h + [(stage, found)], desyncs)
            else DesyncInv(last[stage := found.value], h + [(stage, found)], desyncs + [(stage, found.value)])
  {
    DesyncsStep(h, stage, found);
    if found.Some? {
      LatestStep(desyncs, stage, found.value);
    }
  }

  /** What filing a comparison adds to the logged lists. */
  lemma FileDesyncView(c: Checks, r: Report, stage: Stage, found: Option<Desync>)
    ensures var (v, after) := (ViewOf(r.log), ViewOf(FileDesync(c, r, stage, found).1.log));
            var seen := v.(comparisons := v.comparisons + [(stage, found)]);
            after == if found.None? || (stage in c.lastDesync && c.lastDesync[stage] == found.value) then seen
                     else seen.(desyncs := v.desyncs + [(stage, found.value)])
  {
    ViewStep(r.log, Compared(stage, found));
    if found.Some? {
      ViewStep(r.log + [Compared(stage, found)], DesyncLogged(stage, found.value));
    }
  }

  lemma FileDesyncKeepsView(c: Checks, r: Report, stage: Stage, found: Option<Desync>)
    requires ViewInv(c, ViewOf(r.log))
    ensures var (c1, r1) := FileDesync(c, r, stage, found); ViewInv(c1, ViewOf(r1.log))
  {
    FileDesyncView(c, r, stage, found);
    DesyncInvStep(c.lastDesync, ViewOf(r.log).comparisons, ViewOf(r.log).desyncs, stage, found);
  }

  lemma CheckStageKeepsView(c: Checks, r: Report, stage: Stage, status: Status, dom: map<Stage, DomRow>)
    requires GroupOf(stage).Some? && ViewInv(c, ViewOf(r.log))
    ensures var (c1, r1) := CheckStage(c, r, stage, status, dom); ViewInv(c1, ViewOf(r1.log))
  {
    if stage in dom {
      FileDesyncKeepsView(c, r, stage, Disagreement(StageVerdict(stage, status), dom[stage], IsAnyRunning(status)));
    }
  }

  lemma {:induction false} CheckStagesKeepView(c: Checks, r: Report, n: nat, status: Status, dom: map<Stage, DomRow>)
    requires n <= |STAGE_ORDER| && ViewInv(c, ViewOf(r.log))
    ensures var (c1, r1) := CheckStages(c, r, n, status, dom); ViewInv(c1, ViewOf(r1.log))
  {
    if n > 0 {
      CheckStagesKeepView(c, r, n - 1, status, dom);
      OrderMatchesTable(n - 1);
      var (c1, r1) := CheckStages(c, r, n - 1, status, dom);
      CheckStageKeepsView(c1, r1, STAGE_ORDER[n - 1].0, status, dom);
    }
  }

  /** One more observation for the gate and for the history. */
  lemma ObservationStep(h: seq<Obs>, o: Obs)
    ensures var (mem, emit) := Observe(Replay(h, INVARIANT_PERSISTENCE_TICKS), o, INVARIANT_PERSISTENCE_TICKS);
            && Replay(h + [o], INVARIANT_PERSISTENCE_TICKS) == mem
            && EmittedBy(h + [o], INVARIANT_PERSISTENCE_TICKS)
            == if emit && o.failure.Some? then EmittedBy(h, INVARIANT_PERSISTENCE_TICKS) + [(o.id, o.failure.value)]
               else EmittedBy(h, INVARIANT_PERSISTENCE_TICKS)
  {
    assert (h + [o])[..|h + [o]| - 1] == h && (h + [o])[|h + [o]| - 1] == o;
  }

  /** The gate step against the logged lists alone. */
  lemma GateViewStep(c: Checks, v: View, o: Obs, ok: bool)
    requires ViewInv(c, v)
    ensures var (mem, emit) := Observe(c.gate, o, INVARIANT_PERSISTENCE_TICKS);
            var seen := v.(observations := v.observations + [o]);
            ViewInv(c.(gate := mem, ok := ok),
                    if emit && o.failure.Some? then seen.(failures := v.failures + [(o.id, o.failure.value)]) else seen)
  {
    ObservationStep(v.observations, o);
  }

  /** What feeding the gate adds to the logged lists. */
  lemma FeedGateView(c: Checks, r: Report, o: Obs)
    ensures var (mem, emit) := Observe(c.gate, o, INVARIANT_PERSISTENCE_TICKS);
            var v := ViewOf(r.log);
            var seen := v.(observations := v.observations + [o]);
            ViewOf(FeedGate(c, r, o).1.log)
            == if emit && o.failure.Some? then seen.(failures := v.failures + [(o.id, o.failure.value)]) else seen
  {
    ViewStep(r.log, Observed(o));
    if o.failure.Some? {
      ViewStep(r.log + [Observed(o)], FailureLogged(o.id, o.failure.value));
    }
  }

  lemma FeedGateKeepsView(c: Checks, r: Report, o: Obs)
    requires ViewInv(c, ViewOf(r.log))
    ensures var (c1, r1) := FeedGate(c, r, o); ViewInv(c1, ViewOf(r1.log))
  {
    FeedGateView(c, r, o);
    GateViewStep(c, ViewOf(r.log), o, FeedGate(c, r, o).0.ok);
  }

  lemma {:induction false} FeedAllKeepsView(c: Checks, r: Report, results: seq<Obs>)
    requires ViewInv(c, ViewOf(r.log))
    ensures var (c1, r1) := FeedAll(c, r, results); ViewInv(c1, ViewOf(r1.log))
  {
    if results != [] {
      FeedAllKeepsView(c, r, results[..|results| - 1]);
      var (c1, r1) := FeedAll(c, r, results[..|results| - 1]);
      FeedGateKeepsView(c1, r1, results[|results| - 1]);
    }
  }

  lemma InspectKeepsView(cfg: Config, elapsed: real, recovery: bool, c: Checks, r: Report,
                         status: Status, dom: map<Stage, DomRow>, results: Option<seq<Obs>>)
    requires ViewInv(c, ViewOf(r.log))
    ensures var (c1, r1) := InspectPhase(cfg, elapsed, recovery, c, r, status, dom, results);
            ViewInv(c1, ViewOf(r1.log))
  {
    if elapsed > cfg.grace {
      CheckStagesKeepView(c, r, |STAGE_ORDER|, status, dom);
      var (c1, r1) := CheckStages(c, r, |STAGE_ORDER|, status, dom);
      if results.Some? {
        FeedAllKeepsView(c1, r1, results.value);
      }
      ErrorKeepsView(c1, r1);
    }
  }

  lemma ErrorKeepsView(c: Checks, r: Report)
    requires ViewInv(c, ViewOf(r.log))
    ensures ViewInv(c, ViewOf(NoteError(r, InvariantsRaised).log))
  {
    ViewStep(r.log, InvariantsRaised);
  }

  lemma AfterPollKeepsView(cfg: Config, elapsed: real, s: State, t: Tick)
    requires t.poll.StatusOk? && ViewInv(s.checks, ViewOf(s.report.log))
    ensures var after := AfterPoll(cfg, elapsed, s, t); ViewInv(after.checks, ViewOf(after.report.log))
  {
    var e := Polled(t.now, IsAnyRunning(t.poll.status), FirstRunning(t.poll.status, GROUPS));
    ViewStep(s.report.log, e);
    InspectKeepsView(cfg, elapsed, s.sched.recovery, s.checks, Note(s.report, e), t.poll.status, t.poll.dom,
        t.poll.results);
  }

  lemma PollKeepsView(cfg: Config, elapsed: real, s: State, t: Tick)
    requires ViewInv(s.checks, ViewOf(s.report.log))
    ensures var after := PollPhase(cfg, elapsed, s, t).st; ViewInv(after.checks, ViewOf(after.report.log))
  {
    if t.poll.StatusFailed? {
      ViewStep(s.report.log, PollFailed);
    } else {
      AfterPollKeepsView(cfg, elapsed, s, t);
      var s1 := AfterPoll(cfg, elapsed, s, t);
      DecideGrowsUnseen(cfg, elapsed, s1, t.now, IsAnyRunning(t.poll.status));
      ViewIgnores(s1.report.log, Decide(cfg, elapsed, s1, t.now, IsAnyRunning(t.poll.status)).st.report.log);
    }
  }

  lemma DecideGrowsUnseen(cfg: Config, elapsed: real, s: State, now: real, running: bool)
    ensures var after := Decide(cfg, elapsed, s, now, running).st;
            Grows(s.report.log, after.report.log, Unseen) && after.checks == s.checks
  {
  }

  lemma ScheduledGrowsUnseen(cfg: Config, elapsed: real, c: Sched, r: Report, t: Tick)
    ensures Grows(r.log, ScheduledPhase(cfg, elapsed, c, r, t).1.log, Unseen)
  {
  }

  lemma PausesGrowUnseen(cfg: Config, elapsed: real, p: Pausing, r: Report, t: Tick)
    ensures Grows(r.log, PausePhase(cfg, elapsed, p, r, t).1.log, Unseen)
  {
  }

  lemma ActionsKeepView(cfg: Config, elapsed: real, s: State, t: Tick)
    requires ViewInv(s.checks, ViewOf(s.report.log))
    ensures var after := ActionPhase(cfg, elapsed, s, t); ViewInv(after.checks, ViewOf(after.report.log))
  {
    var (c1, r1) := ScheduledPhase(cfg, elapsed, s.sched, s.report, t);
    ScheduledGrowsUnseen(cfg, elapsed, s.sched, s.report, t);
    ViewIgnores(s.report.log, r1.log);
    var (p2, r2) := PausePhase(cfg, elapsed, s.pausing, r1, t);
    PausesGrowUnseen(cfg, elapsed, s.pausing, r1, t);
    ViewIgnores(r1.log, r2.log);
    var r3 := RecoveryPhase(c1, r2, t).1;
    assert Grows(r2.log, r3.log, Unseen);
    ViewIgnores(r2.log, r3.log);
  }

  lemma TimeoutKeepsView(cfg: Config, s: State)
    requires ViewInv(s.checks, ViewOf(s.report.log))
    ensures var after := PastBudget(cfg, s).st; ViewInv(after.checks, ViewOf(after.report.log))
  {
    ViewIgnores(s.report.log, PastBudget(cfg, s).st.report.log);
  }

  lemma RunKeepsView(cfg: Config, t0: real, ticks: seq<Tick>)
    ensures var s := Run(cfg, t0, ticks).st; ViewInv(s.checks, ViewOf(s.report.log))
  {
    var inv := (s: State) => ViewInv(s.checks, ViewOf(s.report.log));
    forall elapsed: real, s: State, t: Tick | inv(s) ensures KeptBy(cfg, elapsed, s, t, inv) {
      TimeoutKeepsView(cfg, s);
      ActionsKeepView(cfg, elapsed, s, t);
      PollKeepsView(cfg, elapsed, s, t);
    }
    RunKeeps(cfg, t0, ticks, inv);
  }

  /** In every run the invariant-failure events are exactly those the persistence rule gives for the
      observations made, and the desync events are exactly the disagreements that differ from the one last
      reported for their stage. Neither repeat the latest signature of their key. */
  lemma ReportsFollowObservations(cfg: Config, t0: real, ticks: seq<Tick>)
    ensures var v := ViewOf(Run(cfg, t0, ticks).st.report.log);
            && v.failures == EmittedBy(v.observations, INVARIANT_PERSISTENCE_TICKS)
            && v.desyncs == DesyncsOf(v.comparisons)
            && NeverRepeats(v.failures)
            && NeverRepeats(v.desyncs)
  {
    RunKeepsView(cfg, t0, ticks);
    var v := ViewOf(Run(cfg, t0, ticks).st.report.log);
    EventsNeverRepeat(v.observations, INVARIANT_PERSISTENCE_TICKS);
    ReportedIsSeen(v.comparisons);
  }

  // ---------------------------------------------------------------------------------------
  // What one poll adds
  // ---------------------------------------------------------------------------------------

  /** The comparisons of one poll: each drawn stage of the published order with its verdict. */
  function RowsCompared(n: nat, status: Status, dom: map<Stage, DomRow>): seq<Comparison>
    requires n <= |STAGE_ORDER|
  {
    if n == 0 then []
    else
      OrderMatchesTable(n - 1);
      var before, stage := RowsCompared(n - 1, status, dom), STAGE_ORDER[n - 1].0;
      if stage in dom then
        before + [(stage, Disagreement(StageVerdict(stage, status), dom[stage], IsAnyRunning(status)))]
      else before
  }

  lemma {:induction false} StagesAreCompared(c: Checks, r: Report, n: nat, status: Status, dom: map<Stage, DomRow>)
    requires n <= |STAGE_ORDER|
    ensures var (c1, r1) := CheckStages(c, r, n, status, dom);
            && c1.gate == c.gate
            && ViewOf(r1.log).observations == ViewOf(r.log).observations
            && ViewOf(r1.log).comparisons == ViewOf(r.log).comparisons + RowsCompared(n, status, dom)
  {
    if n > 0 {
      StagesAreCompared(c, r, n - 1, status, dom);
      OrderMatchesTable(n - 1);
      var (c1, r1) := CheckStages(c, r, n - 1, status, dom);
      var stage := STAGE_ORDER[n - 1].0;
      if stage in dom {
        FileDesyncView(c1, r1, stage, Disagreement(StageVerdict(stage, status), dom[stage], IsAnyRunning(status)));
      }
    }
  }

  lemma {:induction false} ResultsAreObserved(c: Checks, r: Report, results: seq<Obs>)
    ensures var r1 := FeedAll(c, r, results).1;
            && ViewOf(r1.log).observations == ViewOf(r.log).observations + results
            && ViewOf(r1.log).comparisons == ViewOf(r.log).comparisons
  {
    if results != [] {
      ResultsAreObserved(c, r, results[..|results| - 1]);
      var (c1, r1) := FeedAll(c, r, results[..|results| - 1]);
      FeedGateView(c1, r1, results[|results| - 1]);
      assert results == results[..|results| - 1] + [results[|results| - 1]];
    }
  }

  lemma InspectIsRecorded(cfg: Config, elapsed: real, recovery: bool, c: Checks, r: Report,
                          status: Status, dom: map<Stage, DomRow>, results: Option<seq<Obs>>)
    ensures var before := ViewOf(r.log);
            var after := ViewOf(InspectPhase(cfg, elapsed, recovery, c, r, status, dom, results).1.log);
            && after.comparisons
               == before.comparisons + (if elapsed <= cfg.grace then [] else RowsCompared(|STAGE_ORDER|, status, dom))
            && after.observations
               == before.observations
                   + (if elapsed <= cfg.grace || recovery || results.None? then [] else results.value)
  {
    if elapsed > cfg.grace {
      StagesAreCompared(c, r, |STAGE_ORDER|, status, dom);
      var (c1, r1) := CheckStages(c, r, |STAGE_ORDER|, status, dom);
      ViewStep(r1.log, InvariantsRaised);
      if results.Some? {
        ResultsAreObserved(c1, r1, results.value);
      }
    }
  }

  /** What a successful poll adds to the logged lists: nothing within the grace period, afterwards the comparison
      of every drawn row, and the invariant results unless the page is recovering from a reload. */
  lemma PollIsRecorded(cfg: Config, elapsed: real, s: State, t: Tick)
    requires t.poll.StatusOk?
    ensures var before, after := ViewOf(s.report.log), ViewOf(AfterPoll(cfg, elapsed, s, t).report.log);
            && after.comparisons
               == before.comparisons
                + (if elapsed <= cfg.grace then [] else RowsCompared(|STAGE_ORDER|, t.poll.status, t.poll.dom))
            && after.observations
               == before.observations
                + (if elapsed <= cfg.grace || s.sched.recovery
                    || t.poll.results.None? then [] else t.poll.results.value)
  {
    var e := Polled(t.now, IsAnyRunning(t.poll.status), FirstRunning(t.poll.status, GROUPS));
    ViewStep(s.report.log, e);
    InspectIsRecorded(cfg, elapsed, s.sched.recovery, s.checks, Note(s.report, e), t.poll.status, t.poll.dom,
        t.poll.results);
  }

  /** A poll during post-reload recovery leaves the gate and its history as they were. */
  lemma RecoveryFreezesGate(cfg: Config, elapsed: real, s: State, t: Tick)
    requires t.poll.StatusOk? && s.sched.recovery
    ensures var after := AfterPoll(cfg, elapsed, s, t);
            after.checks.gate == s.checks.gate
                && ViewOf(after.report.log).observations == ViewOf(s.report.log).observations
  {
    PollIsRecorded(cfg, elapsed, s, t);
    var e := Polled(t.now, IsAnyRunning(t.poll.status), FirstRunning(t.poll.status, GROUPS));
    StagesAreCompared(s.checks, Note(s.report, e), |STAGE_ORDER|, t.poll.status, t.poll.dom);
  }

  // ---------------------------------------------------------------------------------------
  // A desync that disappears and comes back
  // ---------------------------------------------------------------------------------------

  /** A poll that sees a pipeline at rest and one drawn row. */
  function OneRow(now: real, status: Status, state: DomState): Tick {
    Tick(now, true, true, UpdateAccepted, Accepted, Accepted,
         StatusOk(status, map[Structural := DomRow(state, None)], Some([])), {})
  }

  lemma {:induction false} OneRowCompared(n: nat, status: Status, row: DomRow)
    requires 1 <= n <= |STAGE_ORDER|
    ensures RowsCompared(n, status, map[Structural := row])
         == [(Structural, Disagreement(StageVerdict(Structural, status), row, IsAnyRunning(status)))]
  {
    OrderMatchesTable(n - 1);
    OnlyFirstIsStructural(n - 1);
    if n > 1 {
      OneRowCompared(n - 1, status, row);
    } else {
      assert RowsCompared(0, status, map[Structural := row]) == [];
    }
  }

  lemma OnlyFirstIsStructural(i: nat)
    requires i < |STAGE_ORDER|
    ensures STAGE_ORDER[i].0 == Structural <==> i == 0
  {
    OrderMatchesTable(i);
    GroupListsMatchTable(FastSync);
    if i < 5 {
      assert STAGE_ORDER[i].0 == FAST_SYNC_STAGES[i];
    }
  }

  /** Nothing is scheduled, and `elapsed` lies between one and two grace periods. */
  predicate Watching(cfg: Config, elapsed: real) {
    && cfg.refreshAt.None? && cfg.updateAt.None? && cfg.pauseAt.None? && cfg.resumeAt.None?
    && cfg.grace < elapsed <= cfg.grace * 2.0 && elapsed <= cfg.budget
  }

  /** The watch is open, has seen nothing running and is not recovering; its next poll is due by `now`. */
  predicate OpenAt(o: Outcome, now: real) {
    o.verdict.None? && !o.st.sched.recovery && !o.st.idling.sawRunning && now >= o.st.nextPoll
  }

  /** What the comparison finds in such a row. */
  function Lie(state: DomState): Option<Desync> {
    if CanonOf(state) == Running then Some(DomClaimsRunningWhileApiIdle(state)) else None
  }

  /** Such a poll neither acts nor ends the watch. */
  lemma OneRowGoesOn(cfg: Config, elapsed: real, s: State, now: real, status: Status, state: DomState)
    requires OpenAt(Outcome(s, None), now) && Watching(cfg, elapsed) && !IsAnyRunning(status)
    ensures var t := OneRow(now, status, state);
            Step(cfg, elapsed, s, t) == Outcome(AfterPoll(cfg, elapsed, s, t), None)
  {
  }

  lemma OneRowAdds(cfg: Config, elapsed: real, s: State, now: real, status: Status, state: DomState)
    requires OpenAt(Outcome(s, None), now) && Watching(cfg, elapsed)
    requires !IsAnyRunning(status) && StageVerdict(Structural, status) == Unknown
    ensures var o := Step(cfg, elapsed, s, OneRow(now, status, state));
            && OpenAt(o, now + POLL_INTERVAL)
            && ViewOf(o.st.report.log).comparisons == ViewOf(s.report.log).comparisons + [(Structural, Lie(state))]
  {
    OneRowGoesOn(cfg, elapsed, s, now, status, state);
    PollIsRecorded(cfg, elapsed, s, OneRow(now, status, state));
    OneRowCompared(|STAGE_ORDER|, status, DomRow(state, None));
  }

  lemma OneRowExtends(cfg: Config, t0: real, ticks: seq<Tick>, now: real, status: Status, state: DomState)
    requires OpenAt(Run(cfg, t0, ticks), now) && Watching(cfg, now - t0)
    requires !IsAnyRunning(status) && StageVerdict(Structural, status) == Unknown
    ensures var o := Run(cfg, t0, ticks + [OneRow(now, status, state)]);
            && OpenAt(o, now + POLL_INTERVAL)
            && ViewOf(o.st.report.log).comparisons
               == ViewOf(Run(cfg, t0, ticks).st.report.log).comparisons + [(Structural, Lie(state))]
  {
    var t := OneRow(now, status, state);
    var longer := ticks + [t];
    assert longer[..|longer| - 1] == ticks && longer[|longer| - 1] == t;
    OneRowAdds(cfg, Elapsed(t0, t), Run(cfg, t0, ticks).st, now, status, state);
  }

  lemma FlapHistory(lie: Desync)
    ensures DesyncsOf([(Structural, Some(lie)), (Structural, None), (Structural, Some(lie))]) == [(Structural, lie)]
  {
    var first, second: seq<Comparison> := [(Structural, Some(lie))], [(Structural, Some(lie)), (Structural, None)];
    DesyncsStep([], Structural, Some(lie));
    LatestStep([], Structural, lie);
    DesyncsStep(first, Structural, None);
    DesyncsStep(second, Structural, Some(lie));
    assert [] + [(Structural, Some(lie))] == first && first + [(Structural, None)] == second;
    assert second + [(Structural, Some(lie))] == [(Structural, Some(lie)), (Structural, None), (Structural, Some(lie))];
  }

  /** Three such polls, two seconds apart: the row is drawn as running, then as idle, then as running again. */
  ghost predicate Flaps(cfg: Config, t0: real, status: Status, a: Tick, b: Tick, c: Tick) {
    && !IsAnyRunning(status) && StageVerdict(Structural, status) == Unknown
    && a == OneRow(a.now, status, DomRunning) && b == OneRow(b.now, status, DomIdle)
        && c == OneRow(c.now, status, DomRunning)
    && 0.0 <= a.now && a.now + POLL_INTERVAL <= b.now && b.now + POLL_INTERVAL <= c.now
    && Watching(cfg, a.now - t0) && Watching(cfg, b.now - t0) && Watching(cfg, c.now - t0)
  }

  lemma FlapsFirst(cfg: Config, t0: real, status: Status, a: Tick, b: Tick, c: Tick)
    requires Flaps(cfg, t0, status, a, b, c)
    ensures OpenAt(Run(cfg, t0, [a]), b.now)
    ensures ViewOf(Run(cfg, t0, [a]).st.report.log).comparisons == [(Structural, Lie(DomRunning))]
  {
    OneRowExtends(cfg, t0, [], a.now, status, DomRunning);
    assert [] + [a] == [a];
  }

  lemma FlapsSecond(cfg: Config, t0: real, status: Status, a: Tick, b: Tick, c: Tick)
    requires Flaps(cfg, t0, status, a, b, c)
    ensures OpenAt(Run(cfg, t0, [a, b]), c.now)
    ensures ViewOf(Run(cfg, t0, [a, b]).st.report.log).comparisons
            == [(Structural, Lie(DomRunning)), (Structural, None)]
  {
    FlapsFirst(cfg, t0, status, a, b, c);
    OneRowExtends(cfg, t0, [a], b.now, status, DomIdle);
    assert [a] + [b] == [a, b];
  }

  /** A row drawn as running while the pipeline is at rest, then as idle, then as running again: three comparisons,
      of which the second agrees, and one desync event. */
  lemma FlappingDesync(cfg: Config, t0: real, status: Status, a: Tick, b: Tick, c: Tick)
    requires Flaps(cfg, t0, status, a, b, c)
    ensures var lie := DomClaimsRunningWhileApiIdle(DomRunning);
            var v := ViewOf(Run(cfg, t0, [a, b, c]).st.report.log);
            && v.comparisons == [(Structural, Some(lie)), (Structural, None), (Structural, Some(lie))]
            && v.desyncs == [(Structural, lie)]
  {
    FlapsSecond(cfg, t0, status, a, b, c);
    OneRowExtends(cfg, t0, [a, b], c.now, status, DomRunning);
    assert [a, b] + [c] == [a, b, c];
    ReportsFollowObservations(cfg, t0, [a, b, c]);
    FlapHistory(DomClaimsRunningWhileApiIdle(DomRunning));
  }

  /** There are such polls. */
  lemma FlapsHappen(status: Status, a: Tick, b: Tick, c: Tick)
    requires !IsAnyRunning(status) && StageVerdict(Structural, status) == Unknown
    requires a == OneRow(11.0, status, DomRunning) && b == OneRow(13.0, status, DomIdle)
             && c == OneRow(15.0, status, DomRunning)
    ensures Flaps(Config(60.0, 10.0, 8.0, None, None, None, None, false), 0.0, status, a, b, c)
  {
  }
}

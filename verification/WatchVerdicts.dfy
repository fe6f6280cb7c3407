/** The watch loop's counters, its pass flag and its events file, over every run. */
module WatchVerdicts {
  import opened Prelude
  import opened StageTables
  import opened StageVerdicts
  import opened FailureGate
  import opened WatchLoop
  import opened WatchProofs
  import opened WatchDriver

  // ---------------------------------------------------------------------------------------
  // Counters and the pass flag
  // ---------------------------------------------------------------------------------------

  predicate IsError(e: Event) {
    match e
    case TimedOut | PollFailed | InvariantsRaised => true
    case Refreshed(succeeded) => !succeeded
    case UpdatePost(answer) => answer == UpdateFailed
    case PausePost(_, outcome) => outcome == Errored
    case ResumePost(_, outcome) => outcome == Errored
    case NoActivity(unexpected) => unexpected
    case _ => false
  }

  /** How many error, desync and invariant-failure events a log holds. */
  datatype Counts = Counts(errors: nat, desyncs: nat, failures: nat)

  function Tally(log: seq<Event>): Counts {
    if log == [] then Counts(0, 0, 0)
    else
      Counted(Tally(log[..|log| - 1]), log[|log| - 1])
  }

  function Counted(before: Counts, e: Event): Counts {
    Counts(before.errors + (if IsError(e) then 1 else 0),
           before.desyncs + (if e.DesyncLogged? then 1 else 0),
           before.failures + (if e.FailureLogged? then 1 else 0))
  }

  /** The counters count the log. */
  ghost predicate Tallied(r: Report) {
    Tally(r.log) == Counts(r.errors, r.desyncs, r.failures)
  }

  ghost predicate FlagInv(c: Checks, r: Report) {
    Tallied(r) && (c.ok <==> r.desyncs == 0 && r.failures == 0)
  }

  /** The flag and the counters survive every event but a desync and an invariant failure. */
  lemma NoteKeepsFlag(c: Checks, r: Report, e: Event)
    requires FlagInv(c, r) && !e.DesyncLogged? && !e.FailureLogged?
    ensures FlagInv(c, NoteMaybe(r, e, IsError(e)))
  {
    LogStep(r.log, e);
  }

  lemma UnfiredKeepsFlag(cfg: Config, p: Pausing, c: Checks, r: Report)
    requires FlagInv(c, r)
    ensures FlagInv(c, NoteUnfired(cfg, p, r))
  {
    if cfg.pauseAt.Some? && !p.fired {
      NoteKeepsFlag(c, r, PauseNeverFired);
    } else if cfg.resumeAt.Some? && p.fired && !p.resumed {
      NoteKeepsFlag(c, r, ResumeNeverFired);
    }
  }

  lemma ScheduledKeepsFlag(cfg: Config, elapsed: real, sched: Sched, c: Checks, r: Report, t: Tick)
    requires FlagInv(c, r)
    ensures FlagInv(c, ScheduledPhase(cfg, elapsed, sched, r, t).1)
  {
    var (refresh, update) := AdvanceScheduled(cfg, elapsed, sched.refreshFired, sched.updateFired);
    NoteKeepsFlag(c, r, Refreshed(t.reloadOk));
    var r1 := if refresh then NoteMaybe(r, Refreshed(t.reloadOk), !t.reloadOk) else r;
    NoteKeepsFlag(c, r1, UpdatePost(t.update));
  }

  lemma PauseKeepsFlag(cfg: Config, elapsed: real, p: Pausing, c: Checks, r: Report, t: Tick)
    requires FlagInv(c, r)
    ensures FlagInv(c, PausePhase(cfg, elapsed, p, r, t).1)
  {
    var (pause, resume) := AdvancePause(cfg, elapsed, p);
    var out, back := Classify(t.pause), Classify(t.resume);
    NoteKeepsFlag(c, r, PausePost(PauseGroup(p), out));
    var p1 := if pause then DoPause(p, out) else p;
    var r1 := if pause then NoteMaybe(r, PausePost(PauseGroup(p), out), out == Errored) else r;
    NoteKeepsFlag(c, r1, ResumePost(ResumeGroup(p1), back));
  }

  lemma EndingIsNoted(c: Checks, r: Report, e: Event)
    requires FlagInv(c, r) && (e.SettledIdle? || e == NoActivity(false))
    ensures FlagInv(c, Note(r, e))
  {
    TallyMore(r.log, e);
  }

  lemma TallyMore(log: seq<Event>, e: Event)
    ensures Tally(log + [e]) == Counted(Tally(log), e)
  {
    LogStep(log, e);
  }

  lemma EndingKeepsFlag(cfg: Config, p: Pausing, c: Checks, r: Report, e: Event)
    requires FlagInv(c, r) && (e.SettledIdle? || e == NoActivity(false))
    ensures FlagInv(c, NoteUnfired(cfg, p, Note(r, e)))
  {
    EndingIsNoted(c, r, e);
    UnfiredKeepsFlag(cfg, p, c, Note(r, e));
  }

  /** The reports a decision can leave. */
  ghost predicate Decided(cfg: Config, p: Pausing, r: Report, now: real, after: Report) {
    || after == r
    || after == NoteUnfired(cfg, p, Note(r, SettledIdle(now)))
    || after == NoteError(r, NoActivity(true))
    || after == NoteUnfired(cfg, p, Note(r, NoActivity(false)))
  }

  lemma DecidedKeepsFlag(cfg: Config, p: Pausing, c: Checks, r: Report, now: real, after: Report)
    requires FlagInv(c, r) && Decided(cfg, p, r, now, after)
    ensures FlagInv(c, after)
  {
    if after == NoteError(r, NoActivity(true)) {
      NoteKeepsFlag(c, r, NoActivity(true));
    } else if after == NoteUnfired(cfg, p, Note(r, SettledIdle(now))) {
      EndingKeepsFlag(cfg, p, c, r, SettledIdle(now));
    } else if after == NoteUnfired(cfg, p, Note(r, NoActivity(false))) {
      EndingKeepsFlag(cfg, p, c, r, NoActivity(false));
    }
  }

  lemma DecideLeaves(cfg: Config, elapsed: real, s: State, now: real, running: bool)
    ensures var after := Decide(cfg, elapsed, s, now, running).st;
            after.checks == s.checks && Decided(cfg, s.pausing, s.report, now, after.report)
  {
  }

  lemma {:induction false} StagesKeepFlag(c: Checks, r: Report, n: nat, status: Status, dom: map<Stage, DomRow>)
    requires n <= |STAGE_ORDER| && FlagInv(c, r)
    ensures var (c1, r1) := CheckStages(c, r, n, status, dom); FlagInv(c1, r1)
  {
    if n > 0 {
      StagesKeepFlag(c, r, n - 1, status, dom);
      OrderMatchesTable(n - 1);
      var (c1, r1) := CheckStages(c, r, n - 1, status, dom);
      StageKeepsFlag(c1, r1, STAGE_ORDER[n - 1].0, status, dom);
    }
  }

  lemma StageKeepsFlag(c: Checks, r: Report, stage: Stage, status: Status, dom: map<Stage, DomRow>)
    requires GroupOf(stage).Some? && FlagInv(c, r)
    ensures var (c1, r1) := CheckStage(c, r, stage, status, dom); FlagInv(c1, r1)
  {
    if stage in dom {
      FileDesyncKeepsFlag(c, r, stage, Disagreement(StageVerdict(stage, status), dom[stage], IsAnyRunning(status)));
    }
  }

  lemma FileDesyncKeepsFlag(c: Checks, r: Report, stage: Stage, found: Option<Desync>)
    requires FlagInv(c, r)
    ensures var (c1, r1) := FileDesync(c, r, stage, found); FlagInv(c1, r1)
  {
    NoteKeepsFlag(c, r, Compared(stage, found));
    if found.Some? {
      LogStep(r.log + [Compared(stage, found)], DesyncLogged(stage, found.value));
    }
  }

  lemma {:induction false} GateKeepsFlag(c: Checks, r: Report, results: seq<Obs>)
    requires FlagInv(c, r)
    ensures var (c1, r1) := FeedAll(c, r, results); FlagInv(c1, r1)
  {
    if results != [] {
      GateKeepsFlag(c, r, results[..|results| - 1]);
      var (c1, r1) := FeedAll(c, r, results[..|results| - 1]);
      FeedKeepsFlag(c1, r1, results[|results| - 1]);
    }
  }

  lemma FeedKeepsFlag(c: Checks, r: Report, o: Obs)
    requires FlagInv(c, r)
    ensures var (c1, r1) := FeedGate(c, r, o); FlagInv(c1, r1)
  {
    LogStep(r.log, Observed(o));
    if o.failure.Some? {
      LogStep(r.log + [Observed(o)], FailureLogged(o.id, o.failure.value));
    }
  }

  lemma InspectKeepsFlag(cfg: Config, elapsed: real, recovery: bool, c: Checks, r: Report,
                         status: Status, dom: map<Stage, DomRow>, results: Option<seq<Obs>>)
    requires FlagInv(c, r)
    ensures var (c1, r1) := InspectPhase(cfg, elapsed, recovery, c, r, status, dom, results); FlagInv(c1, r1)
  {
    if elapsed > cfg.grace {
      StagesKeepFlag(c, r, |STAGE_ORDER|, status, dom);
      var (c1, r1) := CheckStages(c, r, |STAGE_ORDER|, status, dom);
      if !recovery {
        NoteKeepsFlag(c1, r1, InvariantsRaised);
        if results.Some? {
          GateKeepsFlag(c1, r1, results.value);
        }
      }
    }
  }

  lemma AfterPollKeepsFlag(cfg: Config, elapsed: real, s: State, t: Tick)
    requires t.poll.StatusOk? && FlagInv(s.checks, s.report)
    ensures var after := AfterPoll(cfg, elapsed, s, t); FlagInv(after.checks, after.report)
  {
    var running, target := IsAnyRunning(t.poll.status), FirstRunning(t.poll.status, GROUPS);
    var r := Note(s.report, Polled(t.now, running, target));
    NoteKeepsFlag(s.checks, s.report, Polled(t.now, running, target));
    InspectKeepsFlag(cfg, elapsed, s.sched.recovery, s.checks, r, t.poll.status, t.poll.dom, t.poll.results);
  }

  lemma PollKeepsFlag(cfg: Config, elapsed: real, s: State, t: Tick)
    requires FlagInv(s.checks, s.report)
    ensures var after := PollPhase(cfg, elapsed, s, t).st; FlagInv(after.checks, after.report)
  {
    if t.poll.StatusFailed? {
      NoteKeepsFlag(s.checks, s.report, PollFailed);
    } else {
      var s1 := AfterPoll(cfg, elapsed, s, t);
      AfterPollKeepsFlag(cfg, elapsed, s, t);
      var o := Decide(cfg, elapsed, s1, t.now, IsAnyRunning(t.poll.status));
      DecideLeaves(cfg, elapsed, s1, t.now, IsAnyRunning(t.poll.status));
      DecidedKeepsFlag(cfg, s1.pausing, s1.checks, s1.report, t.now, o.st.report);
    }
  }

  lemma ActionsKeepFlag(cfg: Config, elapsed: real, s: State, t: Tick)
    requires FlagInv(s.checks, s.report)
    ensures var after := ActionPhase(cfg, elapsed, s, t); FlagInv(after.checks, after.report)
  {
    ScheduledKeepsFlag(cfg, elapsed, s.sched, s.checks, s.report, t);
    var (c1, r1) := ScheduledPhase(cfg, elapsed, s.sched, s.report, t);
    PauseKeepsFlag(cfg, elapsed, s.pausing, s.checks, r1, t);
    NoteKeepsFlag(s.checks, PausePhase(cfg, elapsed, s.pausing, r1, t).1, Recovered);
  }

  lemma TimeoutKeepsFlag(cfg: Config, s: State)
    requires FlagInv(s.checks, s.report)
    ensures var after := PastBudget(cfg, s).st; FlagInv(after.checks, after.report)
  {
    NoteKeepsFlag(s.checks, s.report, TimedOut);
    UnfiredKeepsFlag(cfg, s.pausing, s.checks, NoteError(s.report, TimedOut));
  }

  /** In every run the three counters equal the number of error, desync and invariant-failure events of
      the loop (failed screenshots are not among them), and the pass flag is up exactly while no desync and no invariant
      failure has been. */
  lemma {:induction false} CountersAreExact(cfg: Config, t0: real, ticks: seq<Tick>)
    ensures var s := Run(cfg, t0, ticks).st; FlagInv(s.checks, s.report)
  {
    var inv := (s: State) => FlagInv(s.checks, s.report);
    forall elapsed: real, s: State, t: Tick | inv(s) ensures KeptBy(cfg, elapsed, s, t, inv) {
      TimeoutKeepsFlag(cfg, s);
      ActionsKeepFlag(cfg, elapsed, s, t);
      PollKeepsFlag(cfg, elapsed, s, t);
    }
    RunKeeps(cfg, t0, ticks, inv);
  }

  // ---------------------------------------------------------------------------------------
  // The events file
  // ---------------------------------------------------------------------------------------

  /** How many lines of the events file are errors, and how many of them are failed screenshots. */
  function ErrorLines(file: seq<Line>): nat {
    if file == [] then 0
    else
      var before, last := ErrorLines(file[..|file| - 1]), file[|file| - 1];
      if last.SnapFailed? || IsError(last.event) then before + 1 else before
  }

  function FailedSnaps(file: seq<Line>): nat {
    if file == [] then 0
    else
      var before := FailedSnaps(file[..|file| - 1]);
      if file[|file| - 1].SnapFailed? then before + 1 else before
  }

  lemma {:induction false} ErrorsOfFile(file: seq<Line>)
    ensures ErrorLines(file) == Tally(EventsIn(file)).errors + FailedSnaps(file)
  {
    if file != [] {
      var before, last := file[..|file| - 1], file[|file| - 1];
      ErrorsOfFile(before);
      if last.Logged? {
        LogStep(EventsIn(before), last.event);
      }
    }
  }

  // ---------------------------------------------------------------------------------------
  // The file the loop leaves
  // ---------------------------------------------------------------------------------------

  lemma ActionsExtend(cfg: Config, elapsed: real, s: State, t: Tick)
    ensures s.report.log <= ActionPhase(cfg, elapsed, s, t).report.log
  {
    var (c1, r1) := ScheduledPhase(cfg, elapsed, s.sched, s.report, t);
    ScheduledGrows(cfg, elapsed, s.sched, s.report, t);
    var (p2, r2) := PausePhase(cfg, elapsed, s.pausing, r1, t);
    assert r1.log <= r2.log;
    RecoveryGrows(c1, r2, t);
  }

  lemma PollExtends(cfg: Config, elapsed: real, s: State, t: Tick)
    ensures s.report.log <= PollPhase(cfg, elapsed, s, t).st.report.log
  {
    if t.poll.StatusOk? {
      var polled := Polled(t.now, IsAnyRunning(t.poll.status), FirstRunning(t.poll.status, GROUPS));
      var after := PollPhase(cfg, elapsed, s, t).st.report.log;
      PollPhaseTail(cfg, elapsed, s, t);
      assert after[..|s.report.log|] == (s.report.log + [polled])[..|s.report.log|];
    }
  }

  lemma StepExtends(cfg: Config, elapsed: real, s: State, t: Tick)
    ensures s.report.log <= Step(cfg, elapsed, s, t).st.report.log
  {
    TimeoutGrows(cfg, s);
    ActionsExtend(cfg, elapsed, s, t);
    PollExtends(cfg, elapsed, ActionPhase(cfg, elapsed, s, t), t);
  }

  /** The events of the loop's file are its log. */
  lemma {:induction false} FileHoldsLog(cfg: Config, t0: real, ticks: seq<Tick>)
    ensures EventsIn(FileOf(cfg, t0, ticks)) == Run(cfg, t0, ticks).st.report.log
  {
    if ticks != [] {
      var before, t := ticks[..|ticks| - 1], ticks[|ticks| - 1];
      var earlier, later := Run(cfg, t0, before).st.report.log, Run(cfg, t0, ticks).st.report.log;
      FileHoldsLog(cfg, t0, before);
      StepExtends(cfg, Elapsed(t0, t), Run(cfg, t0, before).st, t);
      EventsInLines(FileOf(cfg, t0, before), Added(earlier, later), t.lost);
    }
  }

  /** In the file the loop leaves, however many screenshots fail and whenever, the error lines are those the error
      counter counts and the failed screenshots. */
  lemma ErrorLinesExceedCounter(cfg: Config, t0: real, ticks: seq<Tick>)
    ensures ErrorLines(FileOf(cfg, t0, ticks))
            == Run(cfg, t0, ticks).st.report.errors + FailedSnaps(FileOf(cfg, t0, ticks))
  {
    FileHoldsLog(cfg, t0, ticks);
    ErrorsOfFile(FileOf(cfg, t0, ticks));
    CountersAreExact(cfg, t0, ticks);
  }

  lemma TimedOutRun(cfg: Config, t0: real, t: Tick)
    requires Elapsed(t0, t) > cfg.budget && cfg.pauseAt.None?
    ensures Run(cfg, t0, [t]).st.report == Report(1, 0, 0, [TimedOut])
  {
    assert [t][..0] == [];
    assert Run(cfg, t0, [t][..0]) == Outcome(INITIAL, None);
  }

  lemma TimedOutLines(lost: set<Snap>)
    requires AtTimeout in lost
    ensures LinesOf([TimedOut], lost) == [Logged(TimedOut), SnapFailed(AtTimeout)]
    ensures ErrorLines([Logged(TimedOut), SnapFailed(AtTimeout)]) == 2
  {
    var file := [Logged(TimedOut), SnapFailed(AtTimeout)];
    LinesOfMore([], TimedOut, lost);
    assert [] + [TimedOut] == [TimedOut];
    assert file[..1] == [Logged(TimedOut)] && file[..1][..0] == [];
  }

  /** A watch past its budget whose last screenshot fails: one counted error, two error lines. */
  lemma UncountedError(cfg: Config, t0: real, t: Tick)
    requires Elapsed(t0, t) > cfg.budget && cfg.pauseAt.None? && AtTimeout in t.lost
    ensures FileOf(cfg, t0, [t]) == [Logged(TimedOut), SnapFailed(AtTimeout)]
    ensures Run(cfg, t0, [t]).st.report.errors == 1 && ErrorLines(FileOf(cfg, t0, [t])) == 2
  {
    TimedOutRun(cfg, t0, t);
    TimedOutLines(t.lost);
    assert [t][..0] == [];
    assert Run(cfg, t0, []).st.report.log == [];
    assert Added([], [TimedOut]) == [TimedOut];
    FirstFile(cfg, t0, t);
  }

  lemma FirstFile(cfg: Config, t0: real, t: Tick)
    ensures FileOf(cfg, t0, [t]) == LinesOf(Added([], Run(cfg, t0, [t]).st.report.log), t.lost)
  {
    assert [t][..0] == [];
    assert FileOf(cfg, t0, []) == [] && Run(cfg, t0, []).st.report.log == [];
  }
}

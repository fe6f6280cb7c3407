/** The watch loop always returns within its budget, and what its verdict says. */
module WatchTermination {
  import opened Prelude
  import opened StageTables
  import opened WatchLoop
  import opened WatchProofs
  import opened WatchVerdicts

  // ---------------------------------------------------------------------------------------
  // Termination
  // ---------------------------------------------------------------------------------------

  /** The clock never runs backwards past the start and every iteration sleeps at least a quarter second. */
  ghost predicate ClockAdvances(t0: real, ticks: seq<Tick>) {
    && (ticks != [] ==> ticks[0].now >= t0)
    && forall i | 0 <= i < |ticks| - 1 :: ticks[i + 1].now >= ticks[i].now + 0.25
  }

  lemma {:induction false} ElapsedGrows(t0: real, ticks: seq<Tick>, i: nat)
    requires ClockAdvances(t0, ticks) && i < |ticks|
    ensures ticks[i].now - t0 >= i as real * 0.25
  {
    if i > 0 {
      ElapsedGrows(t0, ticks, i - 1);
    }
  }

  /** An iteration that goes on was within the budget. */
  lemma OpenMeansInBudget(cfg: Config, elapsed: real, s: State, t: Tick)
    ensures Step(cfg, elapsed, s, t).verdict.None? ==> elapsed <= cfg.budget
  {
  }

  /** Whatever the world answers, the loop has returned once the number of iterations exceeds four per
      second of budget by more than one. */
  lemma LoopTerminates(cfg: Config, t0: real, ticks: seq<Tick>)
    requires ClockAdvances(t0, ticks) && ticks != []
    requires |ticks| as real > 4.0 * cfg.budget + 1.0
    ensures Run(cfg, t0, ticks).verdict.Some?
  {
    var n := |ticks| - 1;
    ElapsedGrows(t0, ticks, n);
    OpenMeansInBudget(cfg, Elapsed(t0, ticks[n]), Run(cfg, t0, ticks[..n]).st, ticks[n]);
    assert n as real * 0.25 > cfg.budget;
  }

  /** Under a process-wide cap no watch outlasts the cap, whatever it asked for: a raisable budget is the cap
      itself, another one is never raised. */
  lemma CapBoundsTheWatch(cfg: Config, requested: real, cap: real, raisable: bool, t0: real, ticks: seq<Tick>)
    requires cfg.budget == EffectiveBudget(requested, Some(cap), raisable)
    requires ClockAdvances(t0, ticks) && ticks != []
    requires |ticks| as real > 4.0 * cap + 1.0
    ensures Run(cfg, t0, ticks).verdict.Some?
    ensures if raisable then cfg.budget == cap else cfg.budget <= requested
  {
    LoopTerminates(cfg, t0, ticks);
  }

  // ---------------------------------------------------------------------------------------
  // The verdict
  // ---------------------------------------------------------------------------------------

  /** The events that end a watch. */
  predicate Ending(e: Event) {
    e.TimedOut? || e.SettledIdle? || e.NoActivity?
  }

  predicate NotEnding(e: Event) { !Ending(e) }

  /** An ending that is not a failure by itself. */
  predicate Benign(e: Event) {
    e.SettledIdle? || e == NoActivity(false)
  }

  /** How the log relates to the verdict: an open watch has no ending; a closed one has exactly one, and
      passes exactly when that ending is benign and the pass flag is still up. */
  ghost predicate Concluded(o: Outcome) {
    var log := o.st.report.log;
    match o.verdict
    case None => forall i | 0 <= i < |log| :: !Ending(log[i])
    case Some(v) =>
      exists i :: && 0 <= i < |log| && Ending(log[i])
                  && (forall k | 0 <= k < |log| && k != i :: !Ending(log[k]))
                  && (v <==> Benign(log[i]) && o.st.checks.ok)
  }

  ghost predicate StillOpen(log: seq<Event>) {
    forall i | 0 <= i < |log| :: !Ending(log[i])
  }

  lemma OpenGrows(a: seq<Event>, b: seq<Event>)
    requires StillOpen(a) && Grows(a, b, NotEnding)
    ensures StillOpen(b)
  {
    forall i | 0 <= i < |b| ensures !Ending(b[i]) {
      if i < |a| {
        assert b[..|a|][i] == b[i];
      }
    }
  }

  lemma ActionsStayOpen(cfg: Config, elapsed: real, s: State, t: Tick)
    requires StillOpen(s.report.log)
    ensures StillOpen(ActionPhase(cfg, elapsed, s, t).report.log)
  {
    var (c1, r1) := ScheduledPhase(cfg, elapsed, s.sched, s.report, t);
    assert Grows(s.report.log, r1.log, NotEnding) by { ScheduledGrowsOpen(cfg, elapsed, s.sched, s.report, t); }
    OpenGrows(s.report.log, r1.log);
    var (p2, r2) := PausePhase(cfg, elapsed, s.pausing, r1, t);
    assert Grows(r1.log, r2.log, NotEnding) by { PauseGrowsOpen(cfg, elapsed, s.pausing, r1, t); }
    OpenGrows(r1.log, r2.log);
  }

  lemma ScheduledGrowsOpen(cfg: Config, elapsed: real, c: Sched, r: Report, t: Tick)
    ensures Grows(r.log, ScheduledPhase(cfg, elapsed, c, r, t).1.log, NotEnding)
  {
  }

  lemma PauseGrowsOpen(cfg: Config, elapsed: real, p: Pausing, r: Report, t: Tick)
    ensures Grows(r.log, PausePhase(cfg, elapsed, p, r, t).1.log, NotEnding)
  {
  }

  lemma AfterPollStaysOpen(cfg: Config, elapsed: real, s: State, t: Tick)
    requires t.poll.StatusOk? && StillOpen(s.report.log)
    ensures StillOpen(AfterPoll(cfg, elapsed, s, t).report.log)
  {
    var r := Note(s.report, Polled(t.now, IsAnyRunning(t.poll.status), FirstRunning(t.poll.status, GROUPS)));
    InspectGrows(cfg, elapsed, s.sched.recovery, s.checks, r, t.poll.status, t.poll.dom, t.poll.results);
    assert Grows(r.log, AfterPoll(cfg, elapsed, s, t).report.log, NotEnding);
    OpenGrows(r.log, AfterPoll(cfg, elapsed, s, t).report.log);
  }

  lemma DecideConcludes(cfg: Config, elapsed: real, s: State, now: real, running: bool)
    requires StillOpen(s.report.log)
    ensures Concluded(Decide(cfg, elapsed, s, now, running))
  {
    var o := Decide(cfg, elapsed, s, now, running);
    if o.verdict.Some? {
      var i := |s.report.log|;
      var e := o.st.report.log[i];
      assert Ending(e) && (Benign(e) ==> o.verdict.value == s.checks.ok) && (!Benign(e) ==> !o.verdict.value);
      EndedAt(o.st.report.log, s.report.log, i);
    }
  }

  /** A log that was open and has grown by an ending, and perhaps by a remark, has one ending. */
  lemma EndedAt(log: seq<Event>, open: seq<Event>, i: nat)
    requires StillOpen(open) && i == |open| < |log| && log[..i] == open
    requires forall k | i < k < |log| :: !Ending(log[k])
    ensures forall k | 0 <= k < |log| && k != i :: !Ending(log[k])
  {
    forall k | 0 <= k < i ensures !Ending(log[k]) {
      assert log[..i][k] == log[k];
    }
  }

  lemma BudgetConcludes(cfg: Config, s: State)
    requires StillOpen(s.report.log)
    ensures Concluded(PastBudget(cfg, s))
  {
    assert Ending(PastBudget(cfg, s).st.report.log[|s.report.log|]);
  }

  lemma PollConcludes(cfg: Config, elapsed: real, s: State, t: Tick)
    requires StillOpen(s.report.log)
    ensures Concluded(PollPhase(cfg, elapsed, s, t))
  {
    if t.poll.StatusOk? {
      AfterPollStaysOpen(cfg, elapsed, s, t);
      DecideConcludes(cfg, elapsed, AfterPoll(cfg, elapsed, s, t), t.now, IsAnyRunning(t.poll.status));
    }
  }

  lemma StepConcludes(cfg: Config, elapsed: real, s: State, t: Tick)
    requires StillOpen(s.report.log)
    ensures Concluded(Step(cfg, elapsed, s, t))
  {
    ActionsStayOpen(cfg, elapsed, s, t);
    BudgetConcludes(cfg, s);
    PollConcludes(cfg, elapsed, ActionPhase(cfg, elapsed, s, t), t);
  }

  lemma {:induction false} RunConcludes(cfg: Config, t0: real, ticks: seq<Tick>)
    ensures Concluded(Run(cfg, t0, ticks))
  {
    if ticks != [] {
      RunConcludes(cfg, t0, ticks[..|ticks| - 1]);
      var before := Run(cfg, t0, ticks[..|ticks| - 1]);
      if before.verdict.None? {
        StepConcludes(cfg, Elapsed(t0, ticks[|ticks| - 1]), before.st, ticks[|ticks| - 1]);
      }
    }
  }

  /** A watch that returned passed exactly when it ended by settling or by an expected lack of activity
      and no desync and no invariant failure was ever logged. */
  lemma PassesExactlyWhenClean(cfg: Config, t0: real, ticks: seq<Tick>)
    requires Run(cfg, t0, ticks).verdict.Some?
    ensures var log := Run(cfg, t0, ticks).st.report.log;
            Run(cfg, t0, ticks).verdict.value <==>
              && (exists i :: 0 <= i < |log| && Benign(log[i]))
              && (forall i | 0 <= i < |log| :: !log[i].DesyncLogged? && !log[i].FailureLogged?)
  {
    RunConcludes(cfg, t0, ticks);
    CountersAreExact(cfg, t0, ticks);
    TallyIsZero(Run(cfg, t0, ticks).st.report.log);
  }

  lemma {:induction false} TallyIsZero(log: seq<Event>)
    ensures Tally(log).desyncs == 0 && Tally(log).failures == 0
            <==> forall i | 0 <= i < |log| :: !log[i].DesyncLogged? && !log[i].FailureLogged?
  {
    if log != [] {
      var before := log[..|log| - 1];
      TallyIsZero(before);
      assert forall i | 0 <= i < |before| :: before[i] == log[i];
    }
  }
}

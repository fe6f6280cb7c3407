/** What the end of a watch notes about actions that never fired. */
module WatchEndings {
  import opened Prelude
  import opened StageTables
  import opened StageVerdicts
  import opened FailureGate
  import opened WatchLoop
  import opened WatchProofs
  import opened WatchTriggers

  // ---------------------------------------------------------------------------------------
  // Actions that never fired
  // ---------------------------------------------------------------------------------------

  predicate Closing(e: Event) { e.PauseNeverFired? || e.ResumeNeverFired? || e.NoActivity? }
  predicate NotClosing(e: Event) { !Closing(e) }

  /** A pause is noted as never fired exactly if one is scheduled and none is live, and a resume exactly if one is
      scheduled and a live pause has not been resumed. */
  ghost predicate NotesUnfired(cfg: Config, log: seq<Event>) {
    && (PauseNeverFired in log <==> cfg.pauseAt.Some? && Without(log, LivePause))
    && (ResumeNeverFired in log <==> cfg.resumeAt.Some? && !Without(log, LivePause) && Without(log, IsResume))
  }

  /** An open watch notes nothing of the kind, and neither does one that fails for lack of activity. */
  ghost predicate EndsNoted(cfg: Config, o: Outcome) {
    var log := o.st.report.log;
    if o.verdict.None? || NoActivity(true) in log then PauseNeverFired !in log && ResumeNeverFired !in log
    else NotesUnfired(cfg, log)
  }

  lemma StaysWithout(a: seq<Event>, b: seq<Event>)
    requires Without(a, Closing) && Grows(a, b, NotClosing)
    ensures Without(b, Closing)
  {
    forall e | e in b ensures !Closing(e) {
      var i :| 0 <= i < |b| && b[i] == e;
      if i < |a| {
        assert b[..|a|][i] == a[i];
      }
    }
  }

  lemma ActionsNotClosing(cfg: Config, elapsed: real, s: State, t: Tick)
    ensures Grows(s.report.log, ActionPhase(cfg, elapsed, s, t).report.log, NotClosing)
  {
    var (c1, r1) := ScheduledPhase(cfg, elapsed, s.sched, s.report, t);
    ScheduledNotClosing(cfg, elapsed, s.sched, s.report, t);
    var (p2, r2) := PausePhase(cfg, elapsed, s.pausing, r1, t);
    PauseNotClosing(cfg, elapsed, s.pausing, r1, t);
    GrowsTransitive(s.report.log, r1.log, r2.log, NotClosing);
    RecoveryNotClosing(c1, r2, t);
    GrowsTransitive(s.report.log, r2.log, RecoveryPhase(c1, r2, t).1.log, NotClosing);
  }

  lemma ScheduledNotClosing(cfg: Config, elapsed: real, c: Sched, r: Report, t: Tick)
    ensures Grows(r.log, ScheduledPhase(cfg, elapsed, c, r, t).1.log, NotClosing)
  {
  }

  lemma PauseNotClosing(cfg: Config, elapsed: real, p: Pausing, r: Report, t: Tick)
    ensures Grows(r.log, PausePhase(cfg, elapsed, p, r, t).1.log, NotClosing)
  {
  }

  lemma RecoveryNotClosing(c: Sched, r: Report, t: Tick)
    ensures Grows(r.log, RecoveryPhase(c, r, t).1.log, NotClosing)
  {
  }

  /** A state the loop can be in: its pause flags tell its log, and no closing event has been logged. */
  ghost predicate Ongoing(s: State) { PauseInv(s.pausing, s.report.log) && Without(s.report.log, Closing) }

  lemma AfterPollOngoing(cfg: Config, elapsed: real, s: State, t: Tick)
    requires Ongoing(s) && t.poll.StatusOk?
    ensures Ongoing(AfterPoll(cfg, elapsed, s, t))
  {
    var running, target := IsAnyRunning(t.poll.status), FirstRunning(t.poll.status, GROUPS);
    var r := Note(s.report, Polled(t.now, running, target));
    var after := AfterPoll(cfg, elapsed, s, t).report.log;
    PollKeepsPauseInv(s.pausing, s.report.log, t.now, running, target);
    InspectGrows(cfg, elapsed, s.sched.recovery, s.checks, r, t.poll.status, t.poll.dom, t.poll.results);
    CheckEventsAreNeutral(r.log, after);
    FollowIgnoresNeutral(r.log, after);
    WithoutMore(s.report.log, Polled(t.now, running, target), Closing);
    ChecksNotClosing(r.log, after);
    StaysWithout(r.log, after);
  }

  lemma ChecksNotClosing(a: seq<Event>, b: seq<Event>)
    requires Grows(a, b, IsCheck)
    ensures Grows(a, b, NotClosing)
  {
  }

  /** The end of a watch other than one for lack of activity. */
  lemma CloseNotes(cfg: Config, p: Pausing, r: Report, e: Event)
    requires PauseInv(p, r.log) && Without(r.log, Closing)
    requires e == TimedOut || e.SettledIdle? || e == NoActivity(false)
    ensures var log := NoteUnfired(cfg, p, Note(r, e)).log; NotesUnfired(cfg, log) && NoActivity(true) !in log
    ensures NoteUnfired(cfg, p, NoteError(r, e)).log == NoteUnfired(cfg, p, Note(r, e)).log
  {
    var closed := r.log + [e];
    var log := NoteUnfired(cfg, p, Note(r, e)).log;
    FiredMeansLive(p, r.log);
    ResumedMeansResume(p, r.log);
    WithoutMore(r.log, e, LivePause);
    WithoutMore(r.log, e, IsResume);
    WithoutMore(closed, PauseNeverFired, LivePause);
    WithoutMore(closed, PauseNeverFired, IsResume);
    WithoutMore(closed, ResumeNeverFired, LivePause);
    WithoutMore(closed, ResumeNeverFired, IsResume);
    assert forall x :: x in closed <==> x in r.log || x == e;
    assert log == closed || log == closed + [PauseNeverFired] || log == closed + [ResumeNeverFired];
  }

  lemma ActionsStayOngoing(cfg: Config, elapsed: real, s: State, t: Tick)
    requires Ongoing(s)
    ensures Ongoing(ActionPhase(cfg, elapsed, s, t))
  {
    ActionsKeepProtocol(cfg, elapsed, s, t);
    ActionsNotClosing(cfg, elapsed, s, t);
    StaysWithout(s.report.log, ActionPhase(cfg, elapsed, s, t).report.log);
  }

  lemma OngoingIsNoted(cfg: Config, s: State)
    requires Ongoing(s)
    ensures EndsNoted(cfg, Outcome(s, None))
  {
  }

  lemma BudgetEndsNoted(cfg: Config, s: State)
    requires Ongoing(s)
    ensures EndsNoted(cfg, PastBudget(cfg, s)) && PastBudget(cfg, s).verdict.Some?
  {
    CloseNotes(cfg, s.pausing, s.report, TimedOut);
  }

  lemma StepEndsNoted(cfg: Config, elapsed: real, s: State, t: Tick)
    requires Ongoing(s)
    ensures EndsNoted(cfg, Step(cfg, elapsed, s, t))
    ensures Step(cfg, elapsed, s, t).verdict.None? ==> Ongoing(Step(cfg, elapsed, s, t).st)
  {
    var s1 := ActionPhase(cfg, elapsed, s, t);
    ActionsStayOngoing(cfg, elapsed, s, t);
    OngoingIsNoted(cfg, s1);
    BudgetEndsNoted(cfg, s);
    PollEndsNoted(cfg, elapsed, s1, t);
  }

  lemma PollEndsNoted(cfg: Config, elapsed: real, s: State, t: Tick)
    requires Ongoing(s)
    ensures EndsNoted(cfg, PollPhase(cfg, elapsed, s, t))
    ensures PollPhase(cfg, elapsed, s, t).verdict.None? ==> Ongoing(PollPhase(cfg, elapsed, s, t).st)
  {
    if t.poll.StatusFailed? {
      var after := PollPhase(cfg, elapsed, s, t).st;
      assert Grows(s.report.log, after.report.log, NotClosing) && Grows(s.report.log, after.report.log, Neutral);
      StaysWithout(s.report.log, after.report.log);
      FollowIgnoresNeutral(s.report.log, after.report.log);
    } else {
      AfterPollOngoing(cfg, elapsed, s, t);
      DecideEndsNoted(cfg, elapsed, AfterPoll(cfg, elapsed, s, t), t.now, IsAnyRunning(t.poll.status));
    }
  }

  lemma DecideEndsNoted(cfg: Config, elapsed: real, s: State, now: real, running: bool)
    requires Ongoing(s)
    ensures EndsNoted(cfg, Decide(cfg, elapsed, s, now, running))
    ensures Decide(cfg, elapsed, s, now, running).verdict.None? ==> Ongoing(Decide(cfg, elapsed, s, now, running).st)
  {
    CloseNotes(cfg, s.pausing, s.report, SettledIdle(now));
    CloseNotes(cfg, s.pausing, s.report, NoActivity(false));
    assert NoActivity(true) in s.report.log + [NoActivity(true)];
  }

  /** In every run that ends otherwise than for lack of activity, a scheduled pause or resume that never fired is noted
      as such, and only then. */
  lemma {:induction false} UnfiredActionsAreNoted(cfg: Config, t0: real, ticks: seq<Tick>)
    ensures EndsNoted(cfg, Run(cfg, t0, ticks))
    ensures Run(cfg, t0, ticks).verdict.None? ==> Ongoing(Run(cfg, t0, ticks).st)
  {
    if ticks != [] {
      var before, t := Run(cfg, t0, ticks[..|ticks| - 1]), ticks[|ticks| - 1];
      UnfiredActionsAreNoted(cfg, t0, ticks[..|ticks| - 1]);
      if before.verdict.None? {
        StepEndsNoted(cfg, Elapsed(t0, t), before.st, t);
      }
    }
  }
}

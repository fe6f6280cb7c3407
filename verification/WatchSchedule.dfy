/** The scheduled refresh and update over whole runs, and the recovery that a reload starts. */
module WatchSchedule {
  import opened Prelude
  import opened StageTables
  import opened StageVerdicts
  import opened FailureGate
  import opened WatchLoop
  import opened WatchProofs

  /** How often each side effect has fired, whether a reload still waits for its panel, and whether no invariant
      result was taken while one did. */
  datatype Trail = Trail(refreshes: nat, updates: nat, recovering: bool, clean: bool)

  function TrailOf(log: seq<Event>): Trail {
    if log == [] then Trail(0, 0, false, true)
    else
      var before := TrailOf(log[..|log| - 1]);
      match log[|log| - 1]
      case Refreshed(succeeded) => before.(refreshes := before.refreshes + 1, recovering := before.recovering
          || succeeded)
      case UpdatePost(_) => before.(updates := before.updates + 1)
      case Recovered => before.(recovering := false)
      case Observed(_) => before.(clean := before.clean && !before.recovering)
      case _ => before
  }

  /** The flags of the loop say exactly what the log shows. */
  ghost predicate SchedInv(c: Sched, log: seq<Event>) {
    TrailOf(log) == Trail(if c.refreshFired then 1 else 0, if c.updateFired then 1 else 0, c.recovery, true)
  }

  predicate Unscheduled(e: Event) { !e.Refreshed? && !e.UpdatePost? && !e.Recovered? }
  predicate Untraced(e: Event) { Unscheduled(e) && !e.Observed? }

  lemma {:induction false} TrailStays(earlier: seq<Event>, later: seq<Event>)
    requires Grows(earlier, later, Unscheduled)
    requires TrailOf(earlier).recovering ==> Grows(earlier, later, Untraced)
    ensures TrailOf(later) == TrailOf(earlier)
    decreases |later|
  {
    if |earlier| == |later| {
      assert later == earlier;
    } else {
      var before := later[..|later| - 1];
      assert before[..|earlier|] == later[..|earlier|];
      TrailStays(earlier, before);
    }
  }

  // ---------------------------------------------------------------------------------------
  // What the pieces of an iteration keep
  // ---------------------------------------------------------------------------------------

  lemma TrailAfterRefresh(log: seq<Event>, succeeded: bool)
    ensures TrailOf(log + [Refreshed(succeeded)])
         == TrailOf(log).(refreshes := TrailOf(log).refreshes + 1, recovering := TrailOf(log).recovering || succeeded)
  {
    LogStep(log, Refreshed(succeeded));
  }

  lemma TrailAfterUpdate(log: seq<Event>, answer: UpdateAnswer)
    ensures TrailOf(log + [UpdatePost(answer)]) == TrailOf(log).(updates := TrailOf(log).updates + 1)
  {
    LogStep(log, UpdatePost(answer));
  }

  lemma ScheduledKeepsTrail(cfg: Config, elapsed: real, c: Sched, r: Report, t: Tick)
    requires SchedInv(c, r.log)
    ensures var (c1, r1) := ScheduledPhase(cfg, elapsed, c, r, t); SchedInv(c1, r1.log)
  {
    var (refresh, update) := AdvanceScheduled(cfg, elapsed, c.refreshFired, c.updateFired);
    TrailAfterRefresh(r.log, t.reloadOk);
    if refresh {
      TrailAfterUpdate(r.log + [Refreshed(t.reloadOk)], t.update);
    } else {
      TrailAfterUpdate(r.log, t.update);
    }
  }

  lemma PauseKeepsTrail(cfg: Config, elapsed: real, p: Pausing, r: Report, t: Tick)
    ensures TrailOf(PausePhase(cfg, elapsed, p, r, t).1.log) == TrailOf(r.log)
  {
    var after := PausePhase(cfg, elapsed, p, r, t).1.log;
    assert Grows(r.log, after, Untraced);
    assert Grows(r.log, after, Unscheduled);
    TrailStays(r.log, after);
  }

  lemma RecoveryKeepsTrail(c: Sched, r: Report, t: Tick)
    requires SchedInv(c, r.log)
    ensures var (c1, r1) := RecoveryPhase(c, r, t); SchedInv(c1, r1.log)
  {
    LogStep(r.log, Recovered);
  }

  lemma ActionsKeepTrail(cfg: Config, elapsed: real, s: State, t: Tick)
    requires SchedInv(s.sched, s.report.log)
    ensures var after := ActionPhase(cfg, elapsed, s, t); SchedInv(after.sched, after.report.log)
  {
    ScheduledKeepsTrail(cfg, elapsed, s.sched, s.report, t);
    var (c1, r1) := ScheduledPhase(cfg, elapsed, s.sched, s.report, t);
    PauseKeepsTrail(cfg, elapsed, s.pausing, r1, t);
    RecoveryKeepsTrail(c1, PausePhase(cfg, elapsed, s.pausing, r1, t).1, t);
  }

  lemma {:induction false} StagesAreUntraced(c: Checks, r: Report, n: nat, status: Status, dom: map<Stage, DomRow>)
    requires n <= |STAGE_ORDER|
    ensures Grows(r.log, CheckStages(c, r, n, status, dom).1.log, Untraced)
  {
    if n > 0 {
      StagesAreUntraced(c, r, n - 1, status, dom);
    }
  }

  lemma InspectKeepsTrail(cfg: Config, elapsed: real, recovery: bool, c: Checks, r: Report,
                          status: Status, dom: map<Stage, DomRow>, results: Option<seq<Obs>>)
    requires recovery == TrailOf(r.log).recovering
    ensures TrailOf(InspectPhase(cfg, elapsed, recovery, c, r, status, dom, results).1.log) == TrailOf(r.log)
  {
    var after := InspectPhase(cfg, elapsed, recovery, c, r, status, dom, results).1.log;
    InspectGrows(cfg, elapsed, recovery, c, r, status, dom, results);
    assert Grows(r.log, after, Unscheduled);
    if recovery {
      StagesAreUntraced(c, r, |STAGE_ORDER|, status, dom);
      assert Grows(r.log, after, Untraced);
    }
    TrailStays(r.log, after);
  }

  lemma DecideKeepsTrail(cfg: Config, elapsed: real, s: State, now: real, running: bool)
    ensures var after := Decide(cfg, elapsed, s, now, running).st;
            TrailOf(after.report.log) == TrailOf(s.report.log) && after.sched == s.sched
  {
    var after := Decide(cfg, elapsed, s, now, running).st.report.log;
    assert Grows(s.report.log, after, Untraced);
    assert Grows(s.report.log, after, Unscheduled);
    TrailStays(s.report.log, after);
  }

  lemma AfterPollKeepsTrail(cfg: Config, elapsed: real, s: State, t: Tick)
    requires t.poll.StatusOk? && s.sched.recovery == TrailOf(s.report.log).recovering
    ensures TrailOf(AfterPoll(cfg, elapsed, s, t).report.log) == TrailOf(s.report.log)
  {
    var e := Polled(t.now, IsAnyRunning(t.poll.status), FirstRunning(t.poll.status, GROUPS));
    LogStep(s.report.log, e);
    InspectKeepsTrail(cfg, elapsed, s.sched.recovery, s.checks, Note(s.report, e), t.poll.status, t.poll.dom,
        t.poll.results);
  }

  lemma FailedPollKeepsTrail(r: Report)
    ensures TrailOf(NoteError(r, PollFailed).log) == TrailOf(r.log)
  {
    LogStep(r.log, PollFailed);
  }

  lemma PollKeepsTrail(cfg: Config, elapsed: real, s: State, t: Tick)
    requires SchedInv(s.sched, s.report.log)
    ensures var after := PollPhase(cfg, elapsed, s, t).st; SchedInv(after.sched, after.report.log)
  {
    if t.poll.StatusFailed? {
      FailedPollKeepsTrail(s.report);
    } else {
      AfterPollKeepsTrail(cfg, elapsed, s, t);
      DecideKeepsTrail(cfg, elapsed, AfterPoll(cfg, elapsed, s, t), t.now, IsAnyRunning(t.poll.status));
    }
  }

  lemma TimeoutKeepsTrail(cfg: Config, s: State)
    requires SchedInv(s.sched, s.report.log)
    ensures var after := PastBudget(cfg, s).st; SchedInv(after.sched, after.report.log)
  {
    var after := PastBudget(cfg, s).st.report.log;
    assert Grows(s.report.log, after, Untraced);
    assert Grows(s.report.log, after, Unscheduled);
    TrailStays(s.report.log, after);
  }

  lemma RunKeepsTrail(cfg: Config, t0: real, ticks: seq<Tick>)
    ensures var s := Run(cfg, t0, ticks).st; SchedInv(s.sched, s.report.log)
  {
    var inv := (s: State) => SchedInv(s.sched, s.report.log);
    forall elapsed: real, s: State, t: Tick | inv(s) ensures KeptBy(cfg, elapsed, s, t, inv) {
      TimeoutKeepsTrail(cfg, s);
      ActionsKeepTrail(cfg, elapsed, s, t);
      PollKeepsTrail(cfg, elapsed, s, t);
    }
    RunKeeps(cfg, t0, ticks, inv);
  }

  // ---------------------------------------------------------------------------------------
  // What the trail means
  // ---------------------------------------------------------------------------------------

  /** At the end of a log a successful reload has not been followed by a recovery. */
  ghost predicate AwaitsPanel(log: seq<Event>) {
    exists i :: 0 <= i < |log| && log[i] == Refreshed(true) && forall j | i < j < |log| :: !log[j].Recovered?
  }

  lemma AwaitsPanelStep(log: seq<Event>, e: Event)
    ensures AwaitsPanel(log + [e]) <==> e == Refreshed(true) || (AwaitsPanel(log) && !e.Recovered?)
  {
    var more := log + [e];
    assert more[|log|] == e;
    if AwaitsPanel(log) && !e.Recovered? {
      var i :| 0 <= i < |log| && log[i] == Refreshed(true) && forall j | i < j < |log| :: !log[j].Recovered?;
      assert more[i] == Refreshed(true);
    }
    if i :| 0 <= i < |log| && more[i] == Refreshed(true) && forall j | i < j < |more| :: !more[j].Recovered? {
      assert log[i] == Refreshed(true) && forall j | i < j < |log| :: more[j] == log[j];
    }
  }

  lemma {:induction false} RecoveringMeans(log: seq<Event>)
    ensures TrailOf(log).recovering <==> AwaitsPanel(log)
  {
    if log != [] {
      var before, last := log[..|log| - 1], log[|log| - 1];
      RecoveringMeans(before);
      AwaitsPanelStep(before, last);
      assert log == before + [last];
    }
  }

  lemma {:induction false} CleanMeans(log: seq<Event>, k: nat)
    requires TrailOf(log).clean && k < |log| && log[k].Observed?
    ensures !AwaitsPanel(log[..k])
  {
    var before := log[..|log| - 1];
    if k == |log| - 1 {
      RecoveringMeans(before);
    } else {
      CleanMeans(before, k);
      assert before[..k] == log[..k];
    }
  }

  lemma {:induction false} FiredOnce(log: seq<Event>, i: nat, j: nat)
    requires i < j < |log|
    ensures log[i].Refreshed? && log[j].Refreshed? ==> TrailOf(log).refreshes >= 2
    ensures log[i].UpdatePost? && log[j].UpdatePost? ==> TrailOf(log).updates >= 2
  {
    var before := log[..|log| - 1];
    if j == |log| - 1 {
      FiredBefore(before, i);
    } else {
      FiredOnce(before, i, j);
    }
  }

  lemma {:induction false} FiredBefore(log: seq<Event>, i: nat)
    requires i < |log|
    ensures log[i].Refreshed? ==> TrailOf(log).refreshes >= 1
    ensures log[i].UpdatePost? ==> TrailOf(log).updates >= 1
  {
    if i < |log| - 1 {
      FiredBefore(log[..|log| - 1], i);
    }
  }

  /** In every run the page is reloaded at most once and the update posted at most once, whatever the answers;
      and no invariant result is taken between a successful reload and the recovery from it. */
  lemma SideEffectsAtMostOnce(cfg: Config, t0: real, ticks: seq<Tick>)
    ensures var log := Run(cfg, t0, ticks).st.report.log;
            && (forall i, j | 0 <= i < j < |log| :: !(log[i].Refreshed? && log[j].Refreshed?))
            && (forall i, j | 0 <= i < j < |log| :: !(log[i].UpdatePost? && log[j].UpdatePost?))
            && (forall k | 0 <= k < |log| && log[k].Observed? :: !AwaitsPanel(log[..k]))
            && (Run(cfg, t0, ticks).st.sched.recovery <==> AwaitsPanel(log))
  {
    var log := Run(cfg, t0, ticks).st.report.log;
    RunKeepsTrail(cfg, t0, ticks);
    RecoveringMeans(log);
    forall i, j | 0 <= i < j < |log|
      ensures !(log[i].Refreshed? && log[j].Refreshed?) && !(log[i].UpdatePost? && log[j].UpdatePost?)
    {
      FiredOnce(log, i, j);
    }
    forall k | 0 <= k < |log| && log[k].Observed? ensures !AwaitsPanel(log[..k]) {
      CleanMeans(log, k);
    }
  }
}

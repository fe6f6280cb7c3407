/** When the watch loop fires each scheduled action, told by the log alone. */
module WatchTriggers {
  import opened Prelude
  import opened StageTables
  import opened StageVerdicts
  import opened FailureGate
  import opened WatchLoop
  import opened WatchProofs
  import opened WatchSchedule

  // ---------------------------------------------------------------------------------------
  // What calls for an action
  // ---------------------------------------------------------------------------------------

  /** The tick comes at least the scheduled number of seconds after the start; an unscheduled time never comes. */
  predicate Arrives(at: Option<real>, t0: real, t: Tick) {
    match at
    case None => false
    case Some(seconds) => t.now - t0 >= seconds
  }

  ghost predicate Without<T(!new)>(log: seq<T>, what: T -> bool) { forall e | e in log :: !what(e) }

  predicate IsRefresh(e: Event) { e.Refreshed? }
  predicate IsUpdate(e: Event) { e.UpdatePost? }
  predicate IsPause(e: Event) { e.PausePost? }
  predicate IsResume(e: Event) { e.ResumePost? }
  predicate IsAction(e: Event) { IsRefresh(e) || IsUpdate(e) || IsPause(e) || IsResume(e) }
  predicate IsRecovery(e: Event) { e.Recovered? }
  predicate Inert(e: Event) { !IsAction(e) && !IsRecovery(e) }

  /** The latest poll saw group `g` running. */
  ghost predicate Sees(log: seq<Event>, g: Group) { LatelyRunning(log, |log|, g) }

  ghost predicate SeesAny(log: seq<Event>) { exists g :: Sees(log, g) }

  /** A poll follows a live pause. */
  ghost predicate PauseObserved(log: seq<Event>) {
    exists i: nat, k: nat :: i < k < |log| && LivePause(log[i]) && log[k].Polled?
  }

  ghost predicate Paused(log: seq<Event>, g: Group) {
    exists i: nat :: i < |log| && LivePause(log[i]) && log[i].group == g
  }

  /** What an outcome in the log says of the answer to the request. */
  predicate OutcomeFits(outcome: PostClass, answer: PostAnswer) {
    && (outcome == Posted <==> answer.Accepted?)
    && (outcome == Rejected <==> answer.Raised? && (answer.statusCode == Some(400) || answer.statusCode == Some(409)))
    && (outcome == Transport <==> answer == Raised(None, true))
  }

  /** The actions among the events that one tick adds to the log. */
  ghost predicate FiresWhenDue(cfg: Config, t0: real, t: Tick, log: seq<Event>, added: seq<Event>) {
    && (!Without(added, IsRefresh) <==> Arrives(cfg.refreshAt, t0, t) && Without(log, IsRefresh))
    && (!Without(added, IsUpdate) <==> Arrives(cfg.updateAt, t0, t) && Without(log, IsUpdate))
    && (!Without(added, IsPause) <==> Arrives(cfg.pauseAt, t0, t) && Without(log, LivePause) && SeesAny(log))
    && (!Without(added, IsResume) <==> Arrives(cfg.resumeAt, t0, t) && Without(log, IsResume) && PauseObserved(log))
    && (!Without(added, IsRecovery) <==> t.panelPresent && (AwaitsPanel(log) || Refreshed(true) in added))
  }

  /** What the fired actions aim at and how they end. */
  ghost predicate FiresRight(t: Tick, log: seq<Event>, e: Event) {
    match e
    case Refreshed(succeeded) => succeeded == t.reloadOk
    case UpdatePost(answer) => answer == t.update
    case PausePost(g, outcome) => Sees(log, g) && OutcomeFits(outcome, t.pause)
    case ResumePost(g, outcome) => Paused(log, g) && OutcomeFits(outcome, t.resume)
    case _ => true
  }

  // ---------------------------------------------------------------------------------------
  // The events of one turn
  // ---------------------------------------------------------------------------------------

  function If(fires: bool, e: Event): seq<Event> { if fires then [e] else [] }

  /** The actions of one turn in the order in which they fire. */
  function Actions(cfg: Config, elapsed: real, s: State, t: Tick): seq<Event> {
    var (refresh, update) := AdvanceScheduled(cfg, elapsed, s.sched.refreshFired, s.sched.updateFired);
    var (pause, resume) := AdvancePause(cfg, elapsed, s.pausing);
    If(refresh, Refreshed(t.reloadOk)) + If(update, UpdatePost(t.update))
    + (If(pause, PausePost(PauseGroup(s.pausing), Classify(t.pause)))
       + If(resume, ResumePost(ResumeGroup(s.pausing), Classify(t.resume))))
  }

  lemma ScheduledLog(cfg: Config, elapsed: real, c: Sched, r: Report, t: Tick)
    ensures var (refresh, update) := AdvanceScheduled(cfg, elapsed, c.refreshFired, c.updateFired);
            ScheduledPhase(cfg, elapsed, c, r, t).1.log
            == r.log + (If(refresh, Refreshed(t.reloadOk)) + If(update, UpdatePost(t.update)))
  {
  }

  /** A pause and a resume never fire together. */
  lemma PauseLog(cfg: Config, elapsed: real, p: Pausing, r: Report, t: Tick)
    ensures var (pause, resume) := AdvancePause(cfg, elapsed, p);
            PausePhase(cfg, elapsed, p, r, t).1.log
            == r.log + (If(pause, PausePost(PauseGroup(p), Classify(t.pause)))
                        + If(resume, ResumePost(ResumeGroup(p), Classify(t.resume))))
  {
  }

  /** The panel is back after a reload, of this turn or an earlier one. */
  predicate Recovers(cfg: Config, elapsed: real, s: State, t: Tick) {
    t.panelPresent
    && (s.sched.recovery || (AdvanceScheduled(cfg, elapsed, s.sched.refreshFired, s.sched.updateFired).0 && t.reloadOk))
  }

  /** Everything that happens in a turn before its poll. */
  function BeforePoll(cfg: Config, elapsed: real, s: State, t: Tick): seq<Event> {
    Actions(cfg, elapsed, s, t) + If(Recovers(cfg, elapsed, s, t), Recovered)
  }

  lemma ActionPhaseLog(cfg: Config, elapsed: real, s: State, t: Tick)
    ensures ActionPhase(cfg, elapsed, s, t).report.log == s.report.log + BeforePoll(cfg, elapsed, s, t)
  {
    var (c1, r1) := ScheduledPhase(cfg, elapsed, s.sched, s.report, t);
    ScheduledLog(cfg, elapsed, s.sched, s.report, t);
    PauseLog(cfg, elapsed, s.pausing, r1, t);
    var r2 := PausePhase(cfg, elapsed, s.pausing, r1, t).1;
    assert r2.log == s.report.log + Actions(cfg, elapsed, s, t);
    RecoveryLog(c1, r2, t);
    assert c1.recovery && t.panelPresent <==> Recovers(cfg, elapsed, s, t);
  }

  lemma RecoveryLog(c: Sched, r: Report, t: Tick)
    ensures RecoveryPhase(c, r, t).1.log == r.log + If(c.recovery && t.panelPresent, Recovered)
  {
  }

  lemma ChecksAreInert(a: seq<Event>, b: seq<Event>)
    requires Grows(a, b, IsCheck)
    ensures Grows(a, b, Inert)
  {
  }

  lemma DecideInert(cfg: Config, elapsed: real, s: State, now: real, running: bool)
    ensures Grows(s.report.log, Decide(cfg, elapsed, s, now, running).st.report.log, Inert)
  {
  }

  lemma PollPhaseInert(cfg: Config, elapsed: real, s: State, t: Tick)
    ensures Grows(s.report.log, PollPhase(cfg, elapsed, s, t).st.report.log, Inert)
  {
    if t.poll.StatusOk? {
      var running, target := IsAnyRunning(t.poll.status), FirstRunning(t.poll.status, GROUPS);
      var r := Note(s.report, Polled(t.now, running, target));
      InspectGrows(cfg, elapsed, s.sched.recovery, s.checks, r, t.poll.status, t.poll.dom, t.poll.results);
      var s1 := AfterPoll(cfg, elapsed, s, t);
      ChecksAreInert(r.log, s1.report.log);
      GrowsTransitive(s.report.log, r.log, s1.report.log, Inert);
      DecideInert(cfg, elapsed, s1, t.now, running);
      GrowsTransitive(s.report.log, s1.report.log, PollPhase(cfg, elapsed, s, t).st.report.log, Inert);
    }
  }

  lemma TurnLog(cfg: Config, elapsed: real, s: State, t: Tick)
    ensures Grows(s.report.log + BeforePoll(cfg, elapsed, s, t), Turn(cfg, elapsed, s, t).st.report.log, Inert)
  {
    ActionPhaseLog(cfg, elapsed, s, t);
    PollPhaseInert(cfg, elapsed, ActionPhase(cfg, elapsed, s, t), t);
  }

  // ---------------------------------------------------------------------------------------
  // The flags, told by the log
  // ---------------------------------------------------------------------------------------

  lemma {:induction false} LatestPollIsTarget(log: seq<Event>, k: nat)
    requires LatestPoll(log, k)
    ensures Follow(log).target == log[k].target
  {
    if k < |log| - 1 {
      assert LatestPoll(log[..|log| - 1], k);
      LatestPollIsTarget(log[..|log| - 1], k);
    }
  }

  lemma TargetIsSeen(log: seq<Event>, g: Group)
    ensures Follow(log).target == Some(g) <==> Sees(log, g)
  {
    assert log[..|log|] == log;
    if Follow(log).target == Some(g) {
      TargetIsLatestPoll(log, g);
    }
    if Sees(log, g) {
      var k: nat :| LatestPoll(log, k) && log[k].target == Some(g);
      LatestPollIsTarget(log, k);
    }
  }

  /** A pause that no poll has seen yet is not followed by one. */
  lemma {:induction false} UnseenPause(log: seq<Event>, i: nat, k: nat)
    requires Follow(log).phase.Holding? && !Follow(log).phase.observed
    requires i < k < |log| && LivePause(log[i])
    ensures !log[k].Polled?
  {
    var before := log[..|log| - 1];
    PhaseMeaning(before);
    assert before[i] == log[i];
    if Follow(before).phase.Holding? && k < |log| - 1 {
      UnseenPause(before, i, k);
    }
  }

  lemma FiredMeansLive(p: Pausing, log: seq<Event>)
    requires PauseInv(p, log)
    ensures p.fired <==> !Without(log, LivePause)
  {
    PhaseMeaning(log);
    if p.fired {
      LiveInLog(log, p.group.value);
    }
  }

  lemma LiveInLog(log: seq<Event>, g: Group)
    requires (exists observed :: Follow(log).phase == Holding(g, observed)) || Follow(log).phase == Finished(g)
    ensures Paused(log, g) && !Without(log, LivePause)
  {
    PhaseMeaning(log);
    if Follow(log).phase.Holding? {
      var i: nat :| OnlyPause(log, i, g);
      assert log[i] in log;
    } else {
      var i: nat, k: nat, j: nat :| ResumedAfter(log, i, k, j, g);
      assert log[i] in log;
    }
  }

  lemma ResumedMeansResume(p: Pausing, log: seq<Event>)
    requires PauseInv(p, log)
    ensures p.resumed <==> !Without(log, IsResume)
  {
    PhaseMeaning(log);
    if p.resumed {
      var i: nat, k: nat, j: nat :| ResumedAfter(log, i, k, j, p.group.value);
      assert IsResume(log[j]) && log[j] in log;
    }
  }

  lemma PolledMeansObserved(p: Pausing, log: seq<Event>)
    requires PauseInv(p, log) && !p.resumed
    ensures p.fired && p.polls >= 1 <==> PauseObserved(log)
  {
    PhaseMeaning(log);
    if p.fired && p.polls >= 1 {
      var i: nat :| OnlyPause(log, i, p.group.value) && exists k :: i < k < |log| && log[k].Polled?;
      var k: nat :| i < k < |log| && log[k].Polled?;
    }
    if i: nat, k: nat :| i < k < |log| && LivePause(log[i]) && log[k].Polled? {
      FiredMeansLive(p, log);
      assert log[i] in log;
      if p.polls < 1 {
        UnseenPause(log, i, k);
        assert false;
      }
    }
  }

  lemma WithoutMore<T(!new)>(log: seq<T>, e: T, what: T -> bool)
    ensures Without(log + [e], what) <==> Without(log, what) && !what(e)
  {
    assert e in log + [e];
    assert forall x | x in log :: x in log + [e];
  }

  lemma {:induction false} TrailCounts(log: seq<Event>)
    ensures TrailOf(log).refreshes == 0 <==> Without(log, IsRefresh)
    ensures TrailOf(log).updates == 0 <==> Without(log, IsUpdate)
  {
    if log != [] {
      var before, last := log[..|log| - 1], log[|log| - 1];
      TrailCounts(before);
      WithoutMore(before, last, IsRefresh);
      WithoutMore(before, last, IsUpdate);
      assert log == before + [last];
    }
  }

  lemma DueMeansArrives(at: Option<real>, t0: real, t: Tick)
    ensures Due(at, Elapsed(t0, t)) <==> Arrives(at, t0, t)
  {
  }

  lemma ClassifyFits(answer: PostAnswer)
    ensures OutcomeFits(Classify(answer), answer)
  {
  }

  // ---------------------------------------------------------------------------------------
  // Runs
  // ---------------------------------------------------------------------------------------

  /** The flags of an action phase by what the log calls for. */
  lemma FlagsByLog(cfg: Config, t0: real, t: Tick, s: State)
    requires PauseInv(s.pausing, s.report.log) && SchedInv(s.sched, s.report.log)
    ensures var log, elapsed := s.report.log, Elapsed(t0, t);
            var (refresh, update) := AdvanceScheduled(cfg, elapsed, s.sched.refreshFired, s.sched.updateFired);
            var (pause, resume) := AdvancePause(cfg, elapsed, s.pausing);
            && (refresh <==> Arrives(cfg.refreshAt, t0, t) && Without(log, IsRefresh))
            && (update <==> Arrives(cfg.updateAt, t0, t) && Without(log, IsUpdate))
            && (pause <==> Arrives(cfg.pauseAt, t0, t) && Without(log, LivePause) && SeesAny(log))
            && (resume <==> Arrives(cfg.resumeAt, t0, t) && Without(log, IsResume) && PauseObserved(log))
            && (pause ==> Sees(log, PauseGroup(s.pausing)))
            && (resume ==> Paused(log, ResumeGroup(s.pausing)))
  {
    var log := s.report.log;
    DueMeansArrives(cfg.refreshAt, t0, t);
    DueMeansArrives(cfg.updateAt, t0, t);
    DueMeansArrives(cfg.pauseAt, t0, t);
    DueMeansArrives(cfg.resumeAt, t0, t);
    TrailCounts(log);
    FiredMeansLive(s.pausing, log);
    ResumedMeansResume(s.pausing, log);
    if !s.pausing.resumed {
      PolledMeansObserved(s.pausing, log);
    }
    forall g ensures s.pausing.target == Some(g) <==> Sees(log, g) {
      TargetIsSeen(log, g);
    }
    if s.pausing.fired {
      LiveInLog(log, s.pausing.group.value);
    }
  }

  /** What a turn adds after the actions has no action. */
  lemma AddedActions(log: seq<Event>, acts: seq<Event>, after: seq<Event>)
    requires Grows(log + acts, after, Inert)
    ensures log <= after && forall e | !Inert(e) :: e in after[|log|..] <==> e in acts
  {
    var added := after[|log|..];
    assert after[..|log|] == after[..|log + acts|][..|log|] == log;
    assert added == acts + after[|log + acts|..] by {
      assert after[..|log + acts|] + after[|log + acts|..] == after;
    }
  }

  /** Over every run: while the watch is open and within its budget, a tick refreshes and updates exactly when the own
      time has come and the log has none yet; it posts a pause exactly when its time has come, no pause is live and
      the latest poll saw a group running; it posts a resume exactly when its time has come, a poll has followed a
      live pause and nothing has been resumed; and it notes the recovery exactly when the panel is there and a reload
      waits for it. */
  lemma ActionsFireWhenDue(cfg: Config, t0: real, ticks: seq<Tick>, t: Tick)
    requires Run(cfg, t0, ticks).verdict.None? && t.now - t0 <= cfg.budget
    ensures var log, after := Run(cfg, t0, ticks).st.report.log, Run(cfg, t0, ticks + [t]).st.report.log;
            && log <= after && FiresWhenDue(cfg, t0, t, log, after[|log|..])
            && forall e | e in after[|log|..] :: FiresRight(t, log, e)
  {
    var s, elapsed := Run(cfg, t0, ticks).st, Elapsed(t0, t);
    assert (ticks + [t])[..|ticks|] == ticks;
    var after := Run(cfg, t0, ticks + [t]).st.report.log;
    assert after == Turn(cfg, elapsed, s, t).st.report.log;
    RunFollowsProtocol(cfg, t0, ticks);
    RunKeepsTrail(cfg, t0, ticks);
    TurnLog(cfg, elapsed, s, t);
    AddedActions(s.report.log, BeforePoll(cfg, elapsed, s, t), after);
    ActionsFit(cfg, t0, t, s, after[|s.report.log|..]);
  }

  lemma ActionsFit(cfg: Config, t0: real, t: Tick, s: State, added: seq<Event>)
    requires PauseInv(s.pausing, s.report.log) && SchedInv(s.sched, s.report.log)
    requires forall e | !Inert(e) :: e in added <==> e in BeforePoll(cfg, Elapsed(t0, t), s, t)
    ensures FiresWhenDue(cfg, t0, t, s.report.log, added) && forall e | e in added :: FiresRight(t, s.report.log, e)
  {
    FlagsByLog(cfg, t0, t, s);
    FiredByFlags(cfg, Elapsed(t0, t), s, t, added);
    RecoveryFits(cfg, Elapsed(t0, t), s, t, added);
    ClassifyFits(t.pause);
    ClassifyFits(t.resume);
  }

  lemma RecoveryFits(cfg: Config, elapsed: real, s: State, t: Tick, added: seq<Event>)
    requires SchedInv(s.sched, s.report.log)
    requires forall e | !Inert(e) :: e in added <==> e in BeforePoll(cfg, elapsed, s, t)
    ensures !Without(added, IsRecovery) <==> t.panelPresent && (AwaitsPanel(s.report.log) || Refreshed(true) in added)
  {
    OnlyOne(added, IsRecovery, Recovers(cfg, elapsed, s, t), Recovered);
    RecoveringMeans(s.report.log);
    assert IsAction(Refreshed(true));
  }

  lemma FiredByFlags(cfg: Config, elapsed: real, s: State, t: Tick, added: seq<Event>)
    requires forall e | IsAction(e) :: e in added <==> e in Actions(cfg, elapsed, s, t)
    ensures var (refresh, update) := AdvanceScheduled(cfg, elapsed, s.sched.refreshFired, s.sched.updateFired);
            var (pause, resume) := AdvancePause(cfg, elapsed, s.pausing);
            && (Without(added, IsRefresh) <==> !refresh) && (Without(added, IsUpdate) <==> !update)
            && (Without(added, IsPause) <==> !pause) && (Without(added, IsResume) <==> !resume)
            && (forall e | e in added && IsRefresh(e) :: e == Refreshed(t.reloadOk))
            && (forall e | e in added && IsUpdate(e) :: e == UpdatePost(t.update))
            && (forall e | e in added && IsPause(e) :: e == PausePost(PauseGroup(s.pausing), Classify(t.pause)))
            && (forall e | e in added && IsResume(e) :: e == ResumePost(ResumeGroup(s.pausing), Classify(t.resume)))
  {
    var (refresh, update) := AdvanceScheduled(cfg, elapsed, s.sched.refreshFired, s.sched.updateFired);
    var (pause, resume) := AdvancePause(cfg, elapsed, s.pausing);
    OnlyOne(added, IsRefresh, refresh, Refreshed(t.reloadOk));
    OnlyOne(added, IsUpdate, update, UpdatePost(t.update));
    OnlyOne(added, IsPause, pause, PausePost(PauseGroup(s.pausing), Classify(t.pause)));
    OnlyOne(added, IsResume, resume, ResumePost(ResumeGroup(s.pausing), Classify(t.resume)));
  }

  lemma OnlyOne(added: seq<Event>, what: Event -> bool, fires: bool, only: Event)
    requires what(only) && forall e | what(e) :: e in added <==> fires && e == only
    ensures Without(added, what) <==> !fires
  {
    if fires {
      assert only in added;
    }
  }
}

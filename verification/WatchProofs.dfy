/** What every run of the watch loop keeps, for every script of answers the world may give. */
module WatchProofs {
  import opened Prelude
  import opened StageTables
  import opened StageVerdicts
  import opened FailureGate
  import opened WatchLoop

  /** `later` is `earlier` followed by events that all satisfy `quiet`. */
  ghost predicate Grows(earlier: seq<Event>, later: seq<Event>, quiet: Event -> bool) {
    && |earlier| <= |later|
    && later[..|earlier|] == earlier
    && forall i | |earlier| <= i < |later| :: quiet(later[i])
  }

  lemma GrowsTransitive(a: seq<Event>, b: seq<Event>, c: seq<Event>, quiet: Event -> bool)
    requires Grows(a, b, quiet) && Grows(b, c, quiet)
    ensures Grows(a, c, quiet)
  {
    assert c[..|a|] == b[..|a|];
  }

  // ---------------------------------------------------------------------------------------
  // Kinds of events
  // ---------------------------------------------------------------------------------------

  predicate IsPost(e: Event) { e.PausePost? || e.ResumePost? }
  predicate IsCheck(e: Event) { e.Compared? || e.DesyncLogged? || e.Observed? || e.FailureLogged?
      || e.InvariantsRaised? }
  /** Neither a post nor a poll: nothing the pause protocol or the idle detector reacts to. */
  predicate Neutral(e: Event) { !IsPost(e) && !e.Polled? }

  /** Unfolds a log by its last event, for every fold over logs. */
  lemma LogStep(log: seq<Event>, e: Event)
    ensures (log + [e])[..|log + [e]| - 1] == log && (log + [e])[|log + [e]| - 1] == e && log + [e] != []
  {
  }

  // ---------------------------------------------------------------------------------------
  // The checks of one poll add check events only
  // ---------------------------------------------------------------------------------------

  lemma {:induction false} CheckStagesGrows(c: Checks, r: Report, n: nat, status: Status, dom: map<Stage, DomRow>)
    requires n <= |STAGE_ORDER|
    ensures Grows(r.log, CheckStages(c, r, n, status, dom).1.log, IsCheck)
  {
    if n > 0 {
      CheckStagesGrows(c, r, n - 1, status, dom);
    }
  }

  lemma {:induction false} FeedAllGrows(c: Checks, r: Report, results: seq<Obs>)
    ensures Grows(r.log, FeedAll(c, r, results).1.log, IsCheck)
  {
    if results != [] {
      FeedAllGrows(c, r, results[..|results| - 1]);
    }
  }

  lemma InspectGrows(cfg: Config, elapsed: real, recovery: bool, c: Checks, r: Report,
                     status: Status, dom: map<Stage, DomRow>, results: Option<seq<Obs>>)
    ensures Grows(r.log, InspectPhase(cfg, elapsed, recovery, c, r, status, dom, results).1.log, IsCheck)
  {
    if elapsed > cfg.grace {
      CheckStagesGrows(c, r, |STAGE_ORDER|, status, dom);
      var (c1, r1) := CheckStages(c, r, |STAGE_ORDER|, status, dom);
      if !recovery && results.Some? {
        FeedAllGrows(c1, r1, results.value);
        GrowsTransitive(r.log, r1.log, FeedAll(c1, r1, results.value).1.log, IsCheck);
      }
    }
  }

  lemma DecideGrows(cfg: Config, elapsed: real, s: State, now: real, running: bool)
    ensures var after := Decide(cfg, elapsed, s, now, running).st;
            Grows(s.report.log, after.report.log, Neutral) && after == s.(report := after.report)
  {
  }

  lemma ScheduledGrows(cfg: Config, elapsed: real, c: Sched, r: Report, t: Tick)
    ensures Grows(r.log, ScheduledPhase(cfg, elapsed, c, r, t).1.log, Neutral)
  {
  }

  lemma RecoveryGrows(c: Sched, r: Report, t: Tick)
    ensures Grows(r.log, RecoveryPhase(c, r, t).1.log, Neutral)
  {
  }

  lemma TimeoutGrows(cfg: Config, s: State)
    ensures Grows(s.report.log, NoteUnfired(cfg, s.pausing, NoteError(s.report, TimedOut)).log, Neutral)
  {
  }

  /** After the poll itself, nothing in the poll phase is a post or a poll. */
  lemma PollPhaseTail(cfg: Config, elapsed: real, s: State, t: Tick)
    requires t.poll.StatusOk?
    ensures var running, target := IsAnyRunning(t.poll.status), FirstRunning(t.poll.status, GROUPS);
            var after := PollPhase(cfg, elapsed, s, t).st;
            && Grows(s.report.log + [Polled(t.now, running, target)], after.report.log, Neutral)
            && after.pausing == SeeTarget(s.pausing, target)
            && after.idling == SeeRunning(s.idling, t.now, running)
  {
    var running, target := IsAnyRunning(t.poll.status), FirstRunning(t.poll.status, GROUPS);
    var r := Note(s.report, Polled(t.now, running, target));
    InspectGrows(cfg, elapsed, s.sched.recovery, s.checks, r, t.poll.status, t.poll.dom, t.poll.results);
    var s1 := AfterPoll(cfg, elapsed, s, t);
    DecideGrows(cfg, elapsed, s1, t.now, running);
    CheckEventsAreNeutral(r.log, s1.report.log);
    GrowsTransitive(r.log, s1.report.log, Decide(cfg, elapsed, s1, t.now, running).st.report.log, Neutral);
  }

  lemma CheckEventsAreNeutral(a: seq<Event>, b: seq<Event>)
    requires Grows(a, b, IsCheck)
    ensures Grows(a, b, Neutral)
  {
  }

  // ---------------------------------------------------------------------------------------
  // Induction over runs
  // ---------------------------------------------------------------------------------------

  /** Each piece of an iteration keeps `inv`; the poll only has to when it is due. */
  ghost predicate KeptBy(cfg: Config, elapsed: real, s: State, t: Tick, inv: State -> bool) {
    && inv(PastBudget(cfg, s).st)
    && inv(ActionPhase(cfg, elapsed, s, t))
    && (t.now >= s.nextPoll ==> inv(PollPhase(cfg, elapsed, s, t).st))
  }

  lemma StepKeeps(cfg: Config, elapsed: real, s: State, t: Tick, inv: State -> bool)
    requires KeptBy(cfg, elapsed, s, t, inv) && KeptBy(cfg, elapsed, ActionPhase(cfg, elapsed, s, t), t, inv)
    ensures inv(Step(cfg, elapsed, s, t).st)
  {
  }

  /** A property that holds at the start and that every piece keeps holds after every run. */
  lemma {:induction false} RunKeeps(cfg: Config, t0: real, ticks: seq<Tick>, inv: State -> bool)
    requires inv(INITIAL)
    requires forall elapsed: real, s: State, t: Tick {:trigger KeptBy(cfg, elapsed, s, t, inv)} | inv(s) ::
               KeptBy(cfg, elapsed, s, t, inv)
    ensures inv(Run(cfg, t0, ticks).st)
  {
    if ticks != [] {
      var before, t := Run(cfg, t0, ticks[..|ticks| - 1]).st, ticks[|ticks| - 1];
      var elapsed := Elapsed(t0, t);
      RunKeeps(cfg, t0, ticks[..|ticks| - 1], inv);
      assert KeptBy(cfg, elapsed, before, t, inv);
      assert KeptBy(cfg, elapsed, ActionPhase(cfg, elapsed, before, t), t, inv);
      StepKeeps(cfg, elapsed, before, t, inv);
    }
  }

  // ---------------------------------------------------------------------------------------
  // The pause/resume protocol
  // ---------------------------------------------------------------------------------------

  /** Where a log stands in the protocol: a pause may be tried until one is not rejected; that group is
      held; once a poll has seen it, it may be resumed; then nothing more is posted. */
  datatype Protocol = Waiting | Holding(group: Group, observed: bool) | Finished(group: Group) | Broken
  datatype Track = Track(target: Option<Group>, phase: Protocol)

  function Follow(log: seq<Event>): Track {
    if log == [] then Track(None, Waiting)
    else
      var before := Follow(log[..|log| - 1]);
      match log[|log| - 1]
      case PausePost(g, outcome) =>
        if !before.phase.Waiting? || before.target != Some(g) then before.(phase := Broken)
        else if outcome == Rejected then before
        else before.(phase := Holding(g, false))
      case ResumePost(g, _) =>
        before.(phase := if before.phase == Holding(g, true) then Finished(g) else Broken)
      case Polled(_, _, target) =>
        Track(target, if before.phase.Holding? then Holding(before.phase.group, true) else before.phase)
      case _ => before
  }

  function ExpectedPhase(p: Pausing): Protocol {
    if p.group.None? then Waiting
    else if !p.fired then Waiting
    else if !p.resumed then Holding(p.group.value, p.polls >= 1)
    else Finished(p.group.value)
  }

  ghost predicate PauseInv(p: Pausing, log: seq<Event>) {
    && Follow(log) == Track(p.target, ExpectedPhase(p))
    && (p.fired ==> p.group.Some?)
    && (p.resumed ==> p.fired)
  }

  lemma {:induction false} FollowIgnoresNeutral(earlier: seq<Event>, later: seq<Event>)
    requires Grows(earlier, later, Neutral)
    ensures Follow(later) == Follow(earlier)
    decreases |later|
  {
    if |earlier| == |later| {
      assert later == earlier;
    } else {
      var before := later[..|later| - 1];
      assert before[..|earlier|] == later[..|earlier|];
      FollowIgnoresNeutral(earlier, before);
    }
  }

  lemma PausePhaseKeeps(cfg: Config, elapsed: real, p: Pausing, r: Report, t: Tick)
    requires PauseInv(p, r.log)
    ensures var (p1, r1) := PausePhase(cfg, elapsed, p, r, t); PauseInv(p1, r1.log)
  {
    var (pause, resume) := AdvancePause(cfg, elapsed, p);
    var out, back := Classify(t.pause), Classify(t.resume);
    if pause {
      LogStep(r.log, PausePost(PauseGroup(p), out));
    } else if resume {
      LogStep(r.log, ResumePost(ResumeGroup(p), back));
    }
  }

  lemma PollKeepsPauseInv(p: Pausing, log: seq<Event>, now: real, running: bool, target: Option<Group>)
    requires PauseInv(p, log)
    ensures PauseInv(SeeTarget(p, target), log + [Polled(now, running, target)])
  {
    LogStep(log, Polled(now, running, target));
  }

  lemma ActionsKeepProtocol(cfg: Config, elapsed: real, s: State, t: Tick)
    requires PauseInv(s.pausing, s.report.log)
    ensures var s1 := ActionPhase(cfg, elapsed, s, t); PauseInv(s1.pausing, s1.report.log)
  {
    var (c1, r1) := ScheduledPhase(cfg, elapsed, s.sched, s.report, t);
    ScheduledGrows(cfg, elapsed, s.sched, s.report, t);
    FollowIgnoresNeutral(s.report.log, r1.log);
    PausePhaseKeeps(cfg, elapsed, s.pausing, r1, t);
    var (p2, r2) := PausePhase(cfg, elapsed, s.pausing, r1, t);
    RecoveryGrows(c1, r2, t);
    FollowIgnoresNeutral(r2.log, RecoveryPhase(c1, r2, t).1.log);
  }

  lemma PollKeepsProtocol(cfg: Config, elapsed: real, s: State, t: Tick)
    requires PauseInv(s.pausing, s.report.log)
    ensures var s1 := PollPhase(cfg, elapsed, s, t).st; PauseInv(s1.pausing, s1.report.log)
  {
    var after := PollPhase(cfg, elapsed, s, t).st;
    if t.poll.StatusFailed? {
      FollowIgnoresNeutral(s.report.log, after.report.log);
    } else {
      var running, target := IsAnyRunning(t.poll.status), FirstRunning(t.poll.status, GROUPS);
      PollKeepsPauseInv(s.pausing, s.report.log, t.now, running, target);
      PollPhaseTail(cfg, elapsed, s, t);
      FollowIgnoresNeutral(s.report.log + [Polled(t.now, running, target)], after.report.log);
    }
  }

  lemma TimeoutKeepsProtocol(cfg: Config, s: State)
    requires PauseInv(s.pausing, s.report.log)
    ensures var after := PastBudget(cfg, s).st; PauseInv(after.pausing, after.report.log)
  {
    TimeoutGrows(cfg, s);
    FollowIgnoresNeutral(s.report.log, PastBudget(cfg, s).st.report.log);
  }

  /** In every run the log follows the protocol and the loop's flags say exactly where it stands. */
  lemma RunFollowsProtocol(cfg: Config, t0: real, ticks: seq<Tick>)
    ensures var s := Run(cfg, t0, ticks).st; PauseInv(s.pausing, s.report.log)
  {
    var inv := (s: State) => PauseInv(s.pausing, s.report.log);
    forall elapsed: real, s: State, t: Tick | inv(s) ensures KeptBy(cfg, elapsed, s, t, inv) {
      TimeoutKeepsProtocol(cfg, s);
      ActionsKeepProtocol(cfg, elapsed, s, t);
      PollKeepsProtocol(cfg, elapsed, s, t);
    }
    RunKeeps(cfg, t0, ticks, inv);
  }

  // ---------------------------------------------------------------------------------------
  // What following the protocol means
  // ---------------------------------------------------------------------------------------

  /** A pause the daemon did not refuse. */
  predicate LivePause(e: Event) {
    e.PausePost? && e.outcome != Rejected
  }

  /** The one live pause of `log` is at `i` and no pause is posted after it. */
  ghost predicate OnlyPause(log: seq<Event>, i: nat, g: Group) {
    && i < |log| && LivePause(log[i]) && log[i].group == g
    && forall k | 0 <= k < |log| && log[k].PausePost? && k != i :: k < i && log[k].outcome == Rejected
  }

  /** A resume of `g` at `j` that follows the live pause of `g` at `i` with a poll at `k` in between. */
  ghost predicate ResumedAfter(log: seq<Event>, i: nat, k: nat, j: nat, g: Group) {
    i < k < j < |log| && OnlyPause(log, i, g) && log[k].Polled? && log[j].ResumePost? && log[j].group == g
  }

  ghost predicate NoResume(log: seq<Event>) {
    forall j | 0 <= j < |log| :: !log[j].ResumePost?
  }

  ghost predicate Means(log: seq<Event>, phase: Protocol) {
    match phase
    case Waiting => NoResume(log) && forall i | 0 <= i < |log| :: !LivePause(log[i])
    case Holding(g, observed) =>
      && NoResume(log)
      && exists i: nat :: OnlyPause(log, i, g) && (observed ==> exists k :: i < k < |log| && log[k].Polled?)
    case Finished(g) =>
      exists i: nat, k: nat, j: nat ::
          ResumedAfter(log, i, k, j, g) && forall m | 0 <= m < |log| && log[m].ResumePost? :: m == j
    case Broken => true
  }

  lemma OnlyPauseStays(log: seq<Event>, e: Event, i: nat, g: Group)
    requires OnlyPause(log, i, g) && !e.PausePost?
    ensures OnlyPause(log + [e], i, g)
  {
  }

  /** One event at a time, the phase means what it says. */
  lemma MeansStep(log: seq<Event>, e: Event)
    requires Means(log, Follow(log).phase)
    ensures Means(log + [e], Follow(log + [e]).phase)
  {
    LogStep(log, e);
    var phase := Follow(log).phase;
    match Follow(log + [e]).phase
    case Waiting =>
    case Broken =>
    case Holding(g, observed) =>
      if phase.Waiting? {
        assert OnlyPause(log + [e], |log|, g);
      } else {
        var i: nat :| OnlyPause(log, i, g) && (phase.observed ==> exists k :: i < k < |log| && log[k].Polled?);
        OnlyPauseStays(log, e, i, g);
        if observed {
          var k := if phase.observed then var k :| i < k < |log| && log[k].Polled?; k else |log|;
          assert (log + [e])[k].Polled?;
        }
      }
    case Finished(g) =>
      if phase.Holding? {
        var i: nat :| OnlyPause(log, i, g) && (phase.observed ==> exists k :: i < k < |log| && log[k].Polled?);
        var k :| i < k < |log| && log[k].Polled?;
        OnlyPauseStays(log, e, i, g);
        assert ResumedAfter(log + [e], i, k, |log|, g);
      } else {
        var i: nat, k: nat, j: nat :| ResumedAfter(log, i, k, j, g) && forall m | 0 <= m < |log|
            && log[m].ResumePost? :: m == j;
        OnlyPauseStays(log, e, i, g);
        assert ResumedAfter(log + [e], i, k, j, g);
      }
  }

  lemma {:induction false} PhaseMeaning(log: seq<Event>)
    ensures Means(log, Follow(log).phase)
  {
    if log != [] {
      PhaseMeaning(log[..|log| - 1]);
      MeansStep(log[..|log| - 1], log[|log| - 1]);
      assert log == log[..|log| - 1] + [log[|log| - 1]];
    }
  }

  /** The latest successful poll of `log` is at `k`. */
  ghost predicate LatestPoll(log: seq<Event>, k: nat) {
    k < |log| && log[k].Polled? && forall m | k < m < |log| :: !log[m].Polled?
  }

  /** The latest successful poll before `i` saw group `g` as the first one running. */
  ghost predicate LatelyRunning(log: seq<Event>, i: nat, g: Group) {
    i <= |log| && exists k: nat :: LatestPoll(log[..i], k) && log[k].target == Some(g)
  }

  /** The tracked target is the running group the latest successful poll reported. */
  lemma {:induction false} TargetIsLatestPoll(log: seq<Event>, g: Group)
    requires Follow(log).target == Some(g)
    ensures exists k: nat :: LatestPoll(log, k) && log[k].target == Some(g)
  {
    var before := log[..|log| - 1];
    if log[|log| - 1].Polled? {
      assert LatestPoll(log, |log| - 1);
    } else {
      TargetIsLatestPoll(before, g);
      var k: nat :| LatestPoll(before, k) && before[k].target == Some(g);
      assert LatestPoll(log, k);
    }
  }

  /** Every pause of a log that follows the protocol aims at the group the latest poll saw running. */
  lemma {:induction false} PauseAimsAtRunning(log: seq<Event>, i: nat)
    requires i < |log| && Follow(log).phase != Broken && log[i].PausePost?
    ensures LatelyRunning(log, i, log[i].group)
  {
    var before := log[..|log| - 1];
    if i < |log| - 1 {
      PauseAimsAtRunning(before, i);
      assert before[..i] == log[..i];
    } else {
      TargetIsLatestPoll(before, log[i].group);
    }
  }

  /** The pause/resume protocol, over every run: at most one pause is left un-rejected and none follows it;
      at most one resume is posted; it follows that pause, aims at the same group, and a successful poll
      lies in between; and every pause aims at the group the latest successful poll before it saw running. */
  lemma PauseResumeProtocol(cfg: Config, t0: real, ticks: seq<Tick>)
    ensures var log := Run(cfg, t0, ticks).st.report.log;
            && (forall i, j | 0 <= i < j < |log| :: !(LivePause(log[i]) && log[j].PausePost?))
            && (forall j, m | 0 <= j < m < |log| :: !(log[j].ResumePost? && log[m].ResumePost?))
            && (forall j | 0 <= j < |log| && log[j].ResumePost? ::
                  exists i: nat, k: nat ::
                      i < k < j && LivePause(log[i]) && log[i].group == log[j].group && log[k].Polled?)
            && (forall i: nat | i < |log| && log[i].PausePost? :: LatelyRunning(log, i, log[i].group))
  {
    var log := Run(cfg, t0, ticks).st.report.log;
    RunFollowsProtocol(cfg, t0, ticks);
    PhaseMeaning(log);
    forall i: nat | i < |log| && log[i].PausePost? ensures LatelyRunning(log, i, log[i].group) {
      PauseAimsAtRunning(log, i);
    }
    if Follow(log).phase.Finished? {
      var g := Follow(log).phase.group;
      var i: nat, k: nat, j: nat :| ResumedAfter(log, i, k, j, g) && forall m | 0 <= m < |log| && log[m].ResumePost? ::
          m == j;
    } else if Follow(log).phase.Holding? {
      var i: nat :| OnlyPause(log, i, Follow(log).phase.group);
    }
  }
}

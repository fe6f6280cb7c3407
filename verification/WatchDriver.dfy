/** The watch loop as the program runs it: a method over its local variables, its log and its
    counters, proved to follow `WatchLoop.Run`. */
module WatchDriver {
  import opened Prelude
  import opened StageTables
  import opened StageVerdicts
  import opened FailureGate
  import opened WatchLoop

  // ---------------------------------------------------------------------------------------
  // What an iteration adds to the events file
  // ---------------------------------------------------------------------------------------

  /** The file has grown by events with the screenshots around them, of which `lost` could not be taken. */
  ghost predicate Appends(start: seq<Line>, file: seq<Line>, lost: set<Snap>) {
    exists events: seq<Event> :: file == start + LinesOf(events, lost)
  }

  lemma AppendsNothing(start: seq<Line>, lost: set<Snap>)
    ensures Appends(start, start, lost)
  {
    assert start == start + LinesOf([], lost);
  }

  lemma LinesOfMore(events: seq<Event>, e: Event, lost: set<Snap>)
    ensures LinesOf(events + [e], lost) == LinesOf(events, lost) + Around(e, lost)
  {
    assert (events + [e])[..|events|] == events;
  }

  lemma AppendsEvent(start: seq<Line>, before: seq<Line>, after: seq<Line>, e: Event, lost: set<Snap>)
    requires Appends(start, before, lost)
    requires after == before + Around(e, lost)
    ensures Appends(start, after, lost)
  {
    var events: seq<Event> :| before == start + LinesOf(events, lost);
    LinesOfMore(events, e, lost);
    Associative(start, LinesOf(events, lost), Around(e, lost));
  }

  lemma {:induction false} EventsInLines(start: seq<Line>, events: seq<Event>, lost: set<Snap>)
    ensures EventsIn(start + LinesOf(events, lost)) == EventsIn(start) + events
  {
    if events == [] {
      assert start + LinesOf(events, lost) == start;
    } else {
      var before, e := events[..|events| - 1], events[|events| - 1];
      EventsInLines(start, before, lost);
      EventsInMore(start, before, e, lost);
      assert events == before + [e];
    }
  }

  lemma EventsInMore(start: seq<Line>, before: seq<Event>, e: Event, lost: set<Snap>)
    requires EventsIn(start + LinesOf(before, lost)) == EventsIn(start) + before
    ensures EventsIn(start + LinesOf(before + [e], lost)) == EventsIn(start) + (before + [e])
  {
    LinesOfMore(before, e, lost);
    var lines, more, logged := LinesOf(before, lost), Around(e, lost), EventsIn(start);
    Associative(start, lines, more);
    EventsInAround(start + lines, e, lost);
    Associative(logged, before, [e]);
  }

  lemma EventsInAround(file: seq<Line>, e: Event, lost: set<Snap>)
    ensures EventsIn(file + Around(e, lost)) == EventsIn(file) + [e]
  {
    var a := file + SnapLine(SnapBefore(e), lost);
    var b := a + [Logged(e)];
    assert file + Around(e, lost) == b + SnapLine(SnapAfter(e), lost);
    NoEventInSnap(file, SnapBefore(e), lost);
    assert b[..|b| - 1] == a;
    NoEventInSnap(b, SnapAfter(e), lost);
  }

  lemma NoEventInSnap(file: seq<Line>, snap: Option<Snap>, lost: set<Snap>)
    ensures EventsIn(file + SnapLine(snap, lost)) == EventsIn(file)
  {
    var longer := file + SnapLine(snap, lost);
    if SnapLine(snap, lost) == [] {
      assert longer == file;
    } else {
      assert longer[..|longer| - 1] == file;
    }
  }

  /** What an iteration adds is settled by the events it adds. */
  lemma AppendsIsLinesOf(start: seq<Line>, file: seq<Line>, lost: set<Snap>)
    requires Appends(start, file, lost)
    ensures file == start + LinesOf(Added(EventsIn(start), EventsIn(file)), lost)
  {
    var events: seq<Event> :| file == start + LinesOf(events, lost);
    EventsInLines(start, events, lost);
    assert Added(EventsIn(start), EventsIn(file)) == events;
  }

  /** At most one request is posted: a pause exactly if its time has come, none has been fired and a group to pause is
      known, and a resume exactly if its time has come and a poll has seen the fired pause, which none has resumed. */
  ghost predicate PostsWhenDue(cfg: Config, elapsed: real, p: Pausing, before: seq<Event>, after: seq<Event>) {
    && before <= after && |after| <= |before| + 1
    && (|before| < |after| && after[|before|].PausePost? <==>
          match cfg.pauseAt case None => false case Some(at) => elapsed >= at && !p.fired && p.target.Some?)
    && (|before| < |after| && after[|before|].ResumePost? <==>
          match cfg.resumeAt case None => false
                             case Some(at) => elapsed >= at && p.fired && p.polls >= 1 && !p.resumed)
  }

  lemma PostsByFlags(cfg: Config, elapsed: real, p: Pausing, r: Report, t: Tick)
    ensures PostsWhenDue(cfg, elapsed, p, r.log, PausePhase(cfg, elapsed, p, r, t).1.log)
  {
  }

  class RunContext {
    var file: seq<Line>
    var errorCount: nat
    var desyncCount: nat
    var invariantFailureCount: nat

    constructor ()
      ensures Recorded() == Report(0, 0, 0, [])
    {
      file, errorCount, desyncCount, invariantFailureCount := [], 0, 0, 0;
    }

    /** The counters and the events; lines left by failed screenshots are not among them. */
    ghost function Recorded(): Report
      reads this
    {
      Report(errorCount, desyncCount, invariantFailureCount, EventsIn(file))
    }

    /** `log`. */
    method Log(e: Event)
      modifies this
      ensures Recorded() == Note(old(Recorded()), e) && file == old(file) + [Logged(e)]
    {
      assert (file + [Logged(e)])[..|file|] == file;
      file := file + [Logged(e)];
    }

    /** `snap`: a screenshot that cannot be taken leaves an error line that no counter counts. */
    method Snapshot(snap: Option<Snap>, lost: set<Snap>)
      modifies this
      ensures Recorded() == old(Recorded()) && file == old(file) + SnapLine(snap, lost)
    {
      if snap.Some? && snap.value in lost {
        assert (file + [SnapFailed(snap.value)])[..|file|] == file;
        file := file + [SnapFailed(snap.value)];
      }
    }

    /** An event with the screenshots around it; `start` is the file at the start of the iteration. */
    method Record(e: Event, lost: set<Snap>, ghost start: seq<Line>)
      requires Appends(start, file, lost)
      modifies this
      ensures Appends(start, file, lost)
      ensures Recorded() == Note(old(Recorded()), e)
    {
      ghost var before := file;
      Snapshot(SnapBefore(e), lost);
      Log(e);
      Snapshot(SnapAfter(e), lost);
      assert file == before + Around(e, lost);
      AppendsEvent(start, before, file, e, lost);
    }

    method RecordError(e: Event, lost: set<Snap>, ghost start: seq<Line>)
      requires Appends(start, file, lost)
      modifies this
      ensures Appends(start, file, lost)
      ensures Recorded() == NoteError(old(Recorded()), e)
    {
      Record(e, lost, start);
      errorCount := errorCount + 1;
    }

    /** `_log_unfired_pause`. */
    method LogUnfiredPause(cfg: Config, p: Pausing, lost: set<Snap>, ghost start: seq<Line>)
      requires Appends(start, file, lost)
      modifies this
      ensures Appends(start, file, lost)
      ensures Recorded() == NoteUnfired(cfg, p, old(Recorded()))
    {
      if cfg.pauseAt.Some? && !p.fired {
        Record(PauseNeverFired, lost, start);
      } else if cfg.resumeAt.Some? && p.fired && !p.resumed {
        Record(ResumeNeverFired, lost, start);
      }
    }

    /** Fires the scheduled refresh and update. */
    method FireScheduled(cfg: Config, elapsed: real, t: Tick, c: Sched, ghost start: seq<Line>) returns (c': Sched)
      requires Appends(start, file, t.lost)
      modifies this
      ensures Appends(start, file, t.lost)
      ensures (c', Recorded()) == ScheduledPhase(cfg, elapsed, c, old(Recorded()), t)
    {
      var (refresh, update) := AdvanceScheduled(cfg, elapsed, c.refreshFired, c.updateFired);
      c' := c.(refreshFired := c.refreshFired || refresh, updateFired := c.updateFired || update);
      if refresh {
        if t.reloadOk {
          Record(Refreshed(true), t.lost, start);
          c' := c'.(recovery := true);
        } else {
          RecordError(Refreshed(false), t.lost, start);
        }
      }
      if update {
        if t.update == UpdateFailed {
          RecordError(UpdatePost(t.update), t.lost, start);
        } else {
          Record(UpdatePost(t.update), t.lost, start);
        }
      }
    }

    /** Fires the scheduled pause and resume. */
    method FirePause(cfg: Config, elapsed: real, t: Tick, p: Pausing, ghost start: seq<Line>) returns (p': Pausing)
      requires Appends(start, file, t.lost)
      modifies this
      ensures Appends(start, file, t.lost)
      ensures (p', Recorded()) == PausePhase(cfg, elapsed, p, old(Recorded()), t)
      ensures PostsWhenDue(cfg, elapsed, p, old(Recorded()).log, Recorded().log)
    {
      PostsByFlags(cfg, elapsed, p, Recorded(), t);
      var (pause, resume) := AdvancePause(cfg, elapsed, p);
      p' := p.(fired := p.fired || pause, resumed := p.resumed || resume);
      if pause {
        var group := if p'.target.Some? then p'.target.value else FastSync;
        p' := p'.(polls := 0);
        match Classify(t.pause) {
          case Posted =>
            Record(PausePost(group, Posted), t.lost, start);
            p' := p'.(group := Some(group));
          case Rejected =>
            Record(PausePost(group, Rejected), t.lost, start);
            p' := p'.(fired := false);
          case Transport =>
            Record(PausePost(group, Transport), t.lost, start);
            p' := p'.(group := Some(group));
          case Errored =>
            RecordError(PausePost(group, Errored), t.lost, start);
            p' := p'.(group := Some(group));
        }
      }
      if resume {
        var group := if p'.group.Some? then p'.group.value else if p'.target.Some? then p'.target.value else FastSync;
        var outcome := Classify(t.resume);
        if outcome == Errored {
          RecordError(ResumePost(group, outcome), t.lost, start);
        } else {
          Record(ResumePost(group, outcome), t.lost, start);
        }
      }
    }

    /** The scheduled side effects of one tick, then the recovery from a reload. */
    method FireActions(cfg: Config, elapsed: real, t: Tick, c: Sched, p: Pausing, ghost s: State,
                       ghost start: seq<Line>)
      returns (c': Sched, p': Pausing)
      requires s.sched == c && s.pausing == p && s.report == Recorded()
      requires Appends(start, file, t.lost)
      modifies this
      ensures Appends(start, file, t.lost)
      ensures ActionPhase(cfg, elapsed, s, t) == s.(sched := c', pausing := p', report := Recorded())
    {
      c' := FireScheduled(cfg, elapsed, t, c, start);
      p' := FirePause(cfg, elapsed, t, p, start);
      if c'.recovery && t.panelPresent {
        Record(Recovered, t.lost, start);
        c' := c'.(recovery := false);
      }
    }

    /** One stage of the desync detector. */
    method DetectDesync(stage: Stage, status: Status, dom: map<Stage, DomRow>, running: bool, lost: set<Snap>,
                        c: Checks, ghost start: seq<Line>)
      returns (c': Checks)
      requires GroupOf(stage).Some? && running == IsAnyRunning(status)
      requires Appends(start, file, lost)
      modifies this
      ensures Appends(start, file, lost)
      ensures (c', Recorded()) == CheckStage(c, old(Recorded()), stage, status, dom)
    {
      if stage !in dom {
        return c;
      }
      c' := FileComparison(stage, Disagreement(StageVerdict(stage, status), dom[stage], running), lost, c, start);
    }

    /** The outcome of one comparison. */
    method FileComparison(stage: Stage, disagreement: Option<Desync>, lost: set<Snap>, c: Checks,
                          ghost start: seq<Line>) returns (c': Checks)
      requires Appends(start, file, lost)
      modifies this
      ensures Appends(start, file, lost)
      ensures (c', Recorded()) == FileDesync(c, old(Recorded()), stage, disagreement)
    {
      c' := c;
      Record(Compared(stage, disagreement), lost, start);
      if disagreement.None? {
        return;
      }
      if stage in c.lastDesync && c.lastDesync[stage] == disagreement.value {
        return;
      }
      desyncCount := desyncCount + 1;
      Record(DesyncLogged(stage, disagreement.value), lost, start);
      c' := c.(lastDesync := c.lastDesync[stage := disagreement.value], ok := false);
    }

    /** The desync detector over all stages. */
    method DetectDesyncs(status: Status, dom: map<Stage, DomRow>, lost: set<Snap>, c: Checks, ghost start: seq<Line>)
      returns (c': Checks)
      requires Appends(start, file, lost)
      modifies this
      ensures Appends(start, file, lost)
      ensures (c', Recorded()) == CheckStages(c, old(Recorded()), |STAGE_ORDER|, status, dom)
    {
      c' := c;
      var running := IsAnyRunning(status);
      for i := 0 to |STAGE_ORDER|
        invariant Appends(start, file, lost)
        invariant (c', Recorded()) == CheckStages(c, old(Recorded()), i, status, dom)
      {
        OrderMatchesTable(i);
        c' := DetectDesync(STAGE_ORDER[i].0, status, dom, running, lost, c', start);
      }
    }

    /** Feeds one invariant result through the gate. */
    method CheckInvariant(result: Obs, lost: set<Snap>, gate: InvariantGate, c: Checks, ghost start: seq<Line>)
      returns (c': Checks)
      requires c.gate == gate.Held() && Appends(start, file, lost)
      modifies this, gate
      ensures Appends(start, file, lost)
      ensures (c', Recorded()) == FeedGate(c, old(Recorded()), result)
      ensures c'.gate == gate.Held()
    {
      Record(Observed(result), lost, start);
      if result.failure.None? {
        gate.ClearPending(result.id);
        return c.(gate := gate.Held());
      }
      var emit := gate.ShouldEmit(result.id, result.failure.value, INVARIANT_PERSISTENCE_TICKS);
      c' := c.(gate := gate.Held());
      if !emit {
        return;
      }
      invariantFailureCount := invariantFailureCount + 1;
      Record(FailureLogged(result.id, result.failure.value), lost, start);
      c' := c'.(ok := false);
    }

    /** All invariant results of one poll. */
    method CheckInvariants(results: seq<Obs>, lost: set<Snap>, gate: InvariantGate, c: Checks, ghost start: seq<Line>)
      returns (c': Checks)
      requires c.gate == gate.Held() && Appends(start, file, lost)
      modifies this, gate
      ensures Appends(start, file, lost)
      ensures (c', Recorded()) == FeedAll(c, old(Recorded()), results)
      ensures c'.gate == gate.Held()
    {
      c' := c;
      for i := 0 to |results|
        invariant Appends(start, file, lost)
        invariant (c', Recorded()) == FeedAll(c, old(Recorded()), results[..i])
        invariant c'.gate == gate.Held()
      {
        assert results[..i + 1][..i] == results[..i];
        c' := CheckInvariant(results[i], lost, gate, c', start);
      }
      assert results[..|results|] == results;
    }

    /** The desync and invariant checks on one successful poll. */
    method Inspect(cfg: Config, elapsed: real, t: Tick, gate: InvariantGate, recovery: bool, c: Checks,
                   ghost start: seq<Line>)
      returns (c': Checks)
      requires t.poll.StatusOk? && c.gate == gate.Held()
      requires Appends(start, file, t.lost)
      modifies this, gate
      ensures Appends(start, file, t.lost)
      ensures (c', Recorded())
              == InspectPhase(cfg, elapsed, recovery, c, old(Recorded()), t.poll.status, t.poll.dom, t.poll.results)
      ensures c'.gate == gate.Held()
    {
      c' := c;
      if elapsed > cfg.grace {
        c' := DetectDesyncs(t.poll.status, t.poll.dom, t.lost, c, start);
        CheckStagesKeepsGate(c, old(Recorded()), |STAGE_ORDER|, t.poll.status, t.poll.dom);
        if !recovery {
          if t.poll.results.None? {
            RecordError(InvariantsRaised, t.lost, start);
          } else {
            c' := CheckInvariants(t.poll.results.value, t.lost, gate, c', start);
          }
        }
      }
    }

    /** Ends the watch, or not, after a successful poll. */
    method Conclude(cfg: Config, elapsed: real, now: real, running: bool, lost: set<Snap>, ghost s: State,
                    d: Idling, ok: bool, p: Pausing, ghost start: seq<Line>)
      returns (verdict: Option<bool>)
      requires s.idling == d && s.checks.ok == ok && s.pausing == p && s.report == Recorded()
      requires Appends(start, file, lost)
      modifies this
      ensures Appends(start, file, lost)
      ensures Outcome(s.(report := Recorded()), verdict) == Decide(cfg, elapsed, s, now, running)
    {
      verdict := None;
      if d.sawRunning && d.since.Some? && d.since.value != 0.0 && now - d.since.value >= cfg.settle {
        Record(SettledIdle(now), lost, start);
        LogUnfiredPause(cfg, p, lost, start);
        return Some(ok);
      }
      if !d.sawRunning && elapsed > cfg.grace * 2.0 && !running {
        if cfg.expectActivity {
          RecordError(NoActivity(true), lost, start);
          return Some(false);
        }
        Record(NoActivity(false), lost, start);
        LogUnfiredPause(cfg, p, lost, start);
        return Some(ok);
      }
    }

    /** Records a successful poll and what it tells the pause scheduler and the idle detector. */
    method SeePoll(now: real, running: bool, target: Option<Group>, p: Pausing, d: Idling, lost: set<Snap>,
                   ghost start: seq<Line>)
      returns (p': Pausing, d': Idling)
      requires Appends(start, file, lost)
      modifies this
      ensures Appends(start, file, lost)
      ensures Recorded() == Note(old(Recorded()), Polled(now, running, target))
      ensures p' == SeeTarget(p, target) && d' == SeeRunning(d, now, running)
    {
      Record(Polled(now, running, target), lost, start);
      p', d' := p.(target := target), d;
      if p'.fired {
        p' := p'.(polls := p'.polls + 1);
      }
      if running {
        d' := Idling(true, None);
      } else if d'.since.None? {
        d' := d'.(since := Some(now));
      }
    }

    /** What a successful poll records, and the checks on it. */
    method Examine(cfg: Config, elapsed: real, t: Tick, gate: InvariantGate, recovery: bool, p: Pausing, d: Idling,
                   c: Checks, ghost s: State, ghost start: seq<Line>)
      returns (p': Pausing, d': Idling, c': Checks)
      requires t.poll.StatusOk? && c.gate == gate.Held() && Appends(start, file, t.lost)
      requires s.sched.recovery == recovery && s.pausing == p && s.idling == d && s.checks == c
               && s.report == Recorded()
      modifies this, gate
      ensures Appends(start, file, t.lost)
      ensures AfterPoll(cfg, elapsed, s, t) == State(s.sched, p', d', t.now + POLL_INTERVAL, c', Recorded())
      ensures c'.gate == gate.Held()
    {
      var running := IsAnyRunning(t.poll.status);
      var target := FirstRunning(t.poll.status, GROUPS);
      p', d' := SeePoll(t.now, running, target, p, d, t.lost, start);
      c' := Inspect(cfg, elapsed, t, gate, recovery, c, start);
    }

    /** One status poll and everything that hangs on it. */
    method Poll(cfg: Config, elapsed: real, t: Tick, gate: InvariantGate, recovery: bool, p: Pausing, d: Idling,
                c: Checks, ghost s: State, ghost start: seq<Line>)
      returns (p': Pausing, d': Idling, c': Checks, verdict: Option<bool>)
      requires c.gate == gate.Held() && Appends(start, file, t.lost)
      requires s.sched.recovery == recovery && s.pausing == p && s.idling == d && s.checks == c
               && s.report == Recorded()
      modifies this, gate
      ensures Appends(start, file, t.lost)
      ensures PollPhase(cfg, elapsed, s, t)
              == Outcome(State(s.sched, p', d', t.now + POLL_INTERVAL, c', Recorded()), verdict)
      ensures c'.gate == gate.Held()
    {
      p', d', c', verdict := p, d, c, None;
      if t.poll.StatusFailed? {
        RecordError(PollFailed, t.lost, start);
        return;
      }
      p', d', c' := Examine(cfg, elapsed, t, gate, recovery, p, d, c, s, start);
      ghost var s1 := State(s.sched, p', d', t.now + POLL_INTERVAL, c', Recorded());
      verdict := Conclude(cfg, elapsed, t.now, IsAnyRunning(t.poll.status), t.lost, s1, d', c'.ok, p', start);
    }

    /** The end of the watch at its budget. */
    method TimeOut(cfg: Config, t: Tick, p: Pausing, ghost start: seq<Line>)
      requires Appends(start, file, t.lost)
      modifies this
      ensures Appends(start, file, t.lost)
      ensures Recorded() == NoteUnfired(cfg, p, NoteError(old(Recorded()), TimedOut))
    {
      RecordError(TimedOut, t.lost, start);
      LogUnfiredPause(cfg, p, t.lost, start);
    }

    /** An iteration within the budget: the scheduled actions, then a poll when one is due. */
    method Turn(cfg: Config, elapsed: real, t: Tick, gate: InvariantGate,
                c: Sched, p: Pausing, d: Idling, due: real, k: Checks, ghost start: seq<Line>)
      returns (c': Sched, p': Pausing, d': Idling, due': real, k': Checks, verdict: Option<bool>)
      requires k.gate == gate.Held()
      requires Appends(start, file, t.lost)
      modifies this, gate
      ensures Appends(start, file, t.lost)
      ensures WatchLoop.Turn(cfg, elapsed, State(c, p, d, due, k, old(Recorded())), t)
           == Outcome(State(c', p', d', due', k', Recorded()), verdict)
      ensures k'.gate == gate.Held()
    {
      ghost var s := State(c, p, d, due, k, Recorded());
      c', p' := FireActions(cfg, elapsed, t, c, p, s, start);
      d', due', k', verdict := d, due, k, None;
      if t.now < due {
        return;
      }
      ghost var s1 := State(c', p', d, due, k, Recorded());
      due' := t.now + POLL_INTERVAL;
      p', d', k', verdict := Poll(cfg, elapsed, t, gate, c'.recovery, p', d, k, s1, start);
    }

    /** One iteration; past the budget the watch ends. */
    method Iterate(cfg: Config, elapsed: real, t: Tick, gate: InvariantGate,
                   c: Sched, p: Pausing, d: Idling, due: real, k: Checks, ghost start: seq<Line>)
      returns (c': Sched, p': Pausing, d': Idling, due': real, k': Checks, verdict: Option<bool>)
      requires k.gate == gate.Held()
      requires Appends(start, file, t.lost)
      modifies this, gate
      ensures Appends(start, file, t.lost)
      ensures Step(cfg, elapsed, State(c, p, d, due, k, old(Recorded())), t)
           == Outcome(State(c', p', d', due', k', Recorded()), verdict)
      ensures k'.gate == gate.Held()
    {
      if elapsed > cfg.budget {
        TimeOut(cfg, t, p, start);
        return c, p, d, due, k, Some(false);
      }
      c', p', d', due', k', verdict := Turn(cfg, elapsed, t, gate, c, p, d, due, k, start);
    }
  }

  /** The desync detector does not touch the gate. */
  lemma {:induction false} CheckStagesKeepsGate(c: Checks, r: Report, n: nat, status: Status, dom: map<Stage, DomRow>)
    requires n <= |STAGE_ORDER|
    ensures CheckStages(c, r, n, status, dom).0.gate == c.gate
  {
    if n > 0 {
      CheckStagesKeepsGate(c, r, n - 1, status, dom);
    }
  }

  /** A verdict, once reached, is the verdict of every longer script. */
  lemma {:induction false} VerdictIsFinal(cfg: Config, t0: real, ticks: seq<Tick>, n: nat)
    requires n <= |ticks| && Run(cfg, t0, ticks[..n]).verdict.Some?
    ensures Run(cfg, t0, ticks) == Run(cfg, t0, ticks[..n])
    decreases |ticks|
  {
    if n == |ticks| {
      assert ticks[..n] == ticks;
    } else {
      assert ticks[..|ticks| - 1][..n] == ticks[..n];
      VerdictIsFinal(cfg, t0, ticks[..|ticks| - 1], n);
    }
  }

  /** One more tick of an open run. */
  lemma RunStep(cfg: Config, t0: real, ticks: seq<Tick>, i: nat, s: State)
    requires i < |ticks| && Run(cfg, t0, ticks[..i]) == Outcome(s, None)
    ensures Run(cfg, t0, ticks[..i + 1]) == Step(cfg, Elapsed(t0, ticks[i]), s, ticks[i])
  {
    assert ticks[..i + 1][..i] == ticks[..i];
  }

  /** The file grows with the run. */
  lemma FileStep(cfg: Config, t0: real, ticks: seq<Tick>, i: nat, first: seq<Line>, before: seq<Line>, after: seq<Line>)
    requires i < |ticks| && before == first + FileOf(cfg, t0, ticks[..i]) && Appends(before, after, ticks[i].lost)
    requires EventsIn(before) == Run(cfg, t0, ticks[..i]).st.report.log
    requires EventsIn(after) == Run(cfg, t0, ticks[..i + 1]).st.report.log
    ensures after == first + FileOf(cfg, t0, ticks[..i + 1])
  {
    assert ticks[..i + 1][..i] == ticks[..i];
    AppendsIsLinesOf(before, after, ticks[i].lost);
    Associative(first, FileOf(cfg, t0, ticks[..i]), LinesOf(Added(EventsIn(before), EventsIn(after)), ticks[i].lost));
  }

  /** After the verdict nothing is added to the file. */
  lemma {:induction false} FileIsFinal(cfg: Config, t0: real, ticks: seq<Tick>, n: nat)
    requires n <= |ticks| && Run(cfg, t0, ticks[..n]).verdict.Some?
    ensures FileOf(cfg, t0, ticks) == FileOf(cfg, t0, ticks[..n])
    decreases |ticks|
  {
    if n == |ticks| {
      assert ticks[..n] == ticks;
    } else {
      var before := ticks[..|ticks| - 1];
      assert before[..n] == ticks[..n];
      VerdictIsFinal(cfg, t0, before, n);
      VerdictIsFinal(cfg, t0, ticks, n);
      FileIsFinal(cfg, t0, before, n);
      assert LinesOf([], ticks[|ticks| - 1].lost) == [];
    }
  }

  /** `watch_until_idle` on a context that holds no events yet. The verdict is None when the script of answers ends
      before the loop returns. The events file gains the run's events with, around them, a line for each screenshot
      that its tick loses. */
  method WatchUntilIdle(cfg: Config, t0: real, ticks: seq<Tick>, ctx: RunContext) returns (verdict: Option<bool>)
    requires ctx.Recorded() == INITIAL.report
    modifies ctx
    ensures verdict == Run(cfg, t0, ticks).verdict
    ensures ctx.Recorded() == Run(cfg, t0, ticks).st.report
    ensures ctx.file == old(ctx.file) + FileOf(cfg, t0, ticks)
  {
    var gate := new InvariantGate();
    var sched := Sched(false, false, false);
    var pausing := Pausing(false, false, None, None, 0);
    var idling := Idling(false, None);
    var nextPoll := 0.0;
    var checks := Checks(map[], Memory(map[], map[]), true);
    for i := 0 to |ticks|
      invariant fresh(gate) && gate.Held() == checks.gate
      invariant Run(cfg, t0, ticks[..i])
                == Outcome(State(sched, pausing, idling, nextPoll, checks, ctx.Recorded()), None)
      invariant ctx.file == old(ctx.file) + FileOf(cfg, t0, ticks[..i])
    {
      ghost var start := ctx.file;
      AppendsNothing(start, ticks[i].lost);
      RunStep(cfg, t0, ticks, i, State(sched, pausing, idling, nextPoll, checks, ctx.Recorded()));
      sched, pausing, idling, nextPoll, checks, verdict :=
        ctx.Iterate(cfg, Elapsed(t0, ticks[i]), ticks[i], gate, sched, pausing, idling, nextPoll, checks, start);
      FileStep(cfg, t0, ticks, i, old(ctx.file), start, ctx.file);
      if verdict.Some? {
        VerdictIsFinal(cfg, t0, ticks, i + 1);
        FileIsFinal(cfg, t0, ticks, i + 1);
        return;
      }
    }
    assert ticks[..|ticks|] == ticks;
    verdict := None;
  }
}

/** When the watch loop polls the status. */
module WatchPolls {
  import opened Prelude
  import opened StageTables
  import opened WatchLoop
  import opened WatchProofs
  import opened WatchTriggers
  import opened WatchFiles

  predicate IsPoll(e: Event) { e.Polled? || e.PollFailed? }
  predicate NotPoll(e: Event) { !IsPoll(e) }

  /** The tick with number `i` asks for the status, with or without success. */
  ghost predicate PollsAt(cfg: Config, t0: real, ticks: seq<Tick>, i: nat) {
    i < |ticks| && !Without(AddedAt(cfg, t0, ticks, i), IsPoll)
  }

  ghost predicate LastPoll(cfg: Config, t0: real, ticks: seq<Tick>, i: nat) {
    PollsAt(cfg, t0, ticks, i) && forall j: nat | i < j < |ticks| :: !PollsAt(cfg, t0, ticks, j)
  }

  ghost predicate NoPoll(cfg: Config, t0: real, ticks: seq<Tick>) {
    forall i: nat :: !PollsAt(cfg, t0, ticks, i)
  }

  predicate TwoSecondsLater(earlier: Tick, t: Tick) { t.now - earlier.now >= 2.0 }

  // ---------------------------------------------------------------------------------------
  // One tick
  // ---------------------------------------------------------------------------------------

  lemma ActionsDoNotPoll(cfg: Config, elapsed: real, s: State, t: Tick)
    ensures Grows(s.report.log, ActionPhase(cfg, elapsed, s, t).report.log, NotPoll)
  {
    var (c1, r1) := ScheduledPhase(cfg, elapsed, s.sched, s.report, t);
    ScheduledDoesNotPoll(cfg, elapsed, s.sched, s.report, t);
    var (p2, r2) := PausePhase(cfg, elapsed, s.pausing, r1, t);
    PauseDoesNotPoll(cfg, elapsed, s.pausing, r1, t);
    GrowsTransitive(s.report.log, r1.log, r2.log, NotPoll);
    RecoveryDoesNotPoll(c1, r2, t);
    GrowsTransitive(s.report.log, r2.log, RecoveryPhase(c1, r2, t).1.log, NotPoll);
  }

  lemma ScheduledDoesNotPoll(cfg: Config, elapsed: real, c: Sched, r: Report, t: Tick)
    ensures Grows(r.log, ScheduledPhase(cfg, elapsed, c, r, t).1.log, NotPoll)
  {
  }

  lemma PauseDoesNotPoll(cfg: Config, elapsed: real, p: Pausing, r: Report, t: Tick)
    ensures Grows(r.log, PausePhase(cfg, elapsed, p, r, t).1.log, NotPoll)
  {
  }

  lemma RecoveryDoesNotPoll(c: Sched, r: Report, t: Tick)
    ensures Grows(r.log, RecoveryPhase(c, r, t).1.log, NotPoll)
  {
  }

  lemma GrowsWithout(a: seq<Event>, b: seq<Event>)
    requires Grows(a, b, NotPoll)
    ensures Without(Added(a, b), IsPoll)
  {
    forall e | e in Added(a, b) ensures !IsPoll(e) {
      var added := Added(a, b);
      var i :| 0 <= i < |added| && added[i] == e;
      assert added[i] == b[|a| + i];
    }
  }

  /** Where a log goes on with a poll, it has gained one. */
  lemma GainsPoll(a: seq<Event>, mid: seq<Event>, e: Event, b: seq<Event>)
    requires a <= mid && mid + [e] <= b && IsPoll(e)
    ensures !Without(Added(a, b), IsPoll)
  {
    assert b[|mid|] == e;
    assert Added(a, b)[|mid| - |a|] == e;
  }

  lemma PollPhasePolls(cfg: Config, elapsed: real, s: State, t: Tick) returns (e: Event)
    ensures IsPoll(e) && s.report.log + [e] <= PollPhase(cfg, elapsed, s, t).st.report.log
    ensures PollPhase(cfg, elapsed, s, t).st.nextPoll == t.now + POLL_INTERVAL
  {
    if t.poll.StatusFailed? {
      e := PollFailed;
    } else {
      e := Polled(t.now, IsAnyRunning(t.poll.status), FirstRunning(t.poll.status, GROUPS));
      PollPhaseTail(cfg, elapsed, s, t);
    }
  }

  /** A tick within the budget polls exactly when the time kept for that has come, and then sets the next one. */
  lemma TurnPollsWhenDue(cfg: Config, elapsed: real, s: State, t: Tick)
    ensures var after := Turn(cfg, elapsed, s, t).st;
            && (!Without(Added(s.report.log, after.report.log), IsPoll) <==> t.now >= s.nextPoll)
            && after.nextPoll == if t.now >= s.nextPoll then t.now + POLL_INTERVAL else s.nextPoll
  {
    var s1 := ActionPhase(cfg, elapsed, s, t);
    ActionsDoNotPoll(cfg, elapsed, s, t);
    if t.now >= s.nextPoll {
      var e := PollPhasePolls(cfg, elapsed, s1, t);
      GainsPoll(s.report.log, s1.report.log, e, PollPhase(cfg, elapsed, s1, t).st.report.log);
    } else {
      GrowsWithout(s.report.log, s1.report.log);
    }
  }

  // ---------------------------------------------------------------------------------------
  // Runs
  // ---------------------------------------------------------------------------------------

  /** The time kept for the next poll, by the polls so far. */
  ghost predicate NextPollTells(cfg: Config, t0: real, ticks: seq<Tick>) {
    var next := Run(cfg, t0, ticks).st.nextPoll;
    && (NoPoll(cfg, t0, ticks) ==> next == 0.0)
    && forall i: nat | LastPoll(cfg, t0, ticks, i) :: next == ticks[i].now + POLL_INTERVAL
  }

  lemma PollsEarlier(cfg: Config, t0: real, ticks: seq<Tick>, t: Tick, i: nat)
    requires i < |ticks|
    ensures PollsAt(cfg, t0, ticks + [t], i) <==> PollsAt(cfg, t0, ticks, i)
  {
    var more := ticks + [t];
    assert more[..i] == ticks[..i] && more[..i + 1] == ticks[..i + 1];
  }

  /** The last poll of a longer run. */
  lemma LastPollMore(cfg: Config, t0: real, ticks: seq<Tick>, t: Tick)
    ensures NoPoll(cfg, t0, ticks + [t]) <==> NoPoll(cfg, t0, ticks) && !PollsAt(cfg, t0, ticks + [t], |ticks|)
    ensures forall i: nat | LastPoll(cfg, t0, ticks + [t], i) ::
              if PollsAt(cfg, t0, ticks + [t], |ticks|) then i == |ticks| else LastPoll(cfg, t0, ticks, i)
  {
    forall i: nat | i < |ticks| ensures PollsAt(cfg, t0, ticks + [t], i) <==> PollsAt(cfg, t0, ticks, i) {
      PollsEarlier(cfg, t0, ticks, t, i);
    }
  }

  /** One more tick of an open run within the budget. */
  lemma LastTick(cfg: Config, t0: real, ticks: seq<Tick>, t: Tick)
    requires Run(cfg, t0, ticks).verdict.None? && Elapsed(t0, t) <= cfg.budget
    ensures Run(cfg, t0, ticks + [t]) == Turn(cfg, Elapsed(t0, t), Run(cfg, t0, ticks).st, t)
    ensures AddedAt(cfg, t0, ticks + [t], |ticks|)
         == Added(Run(cfg, t0, ticks).st.report.log, Run(cfg, t0, ticks + [t]).st.report.log)
  {
    var more := ticks + [t];
    assert more[..|ticks|] == ticks && more[..|ticks| + 1] == more;
  }

  lemma NextPollMore(cfg: Config, t0: real, ticks: seq<Tick>, t: Tick)
    requires Run(cfg, t0, ticks).verdict.None? && Elapsed(t0, t) <= cfg.budget && NextPollTells(cfg, t0, ticks)
    ensures NextPollTells(cfg, t0, ticks + [t])
    ensures PollsAt(cfg, t0, ticks + [t], |ticks|) <==> t.now >= Run(cfg, t0, ticks).st.nextPoll
  {
    LastTick(cfg, t0, ticks, t);
    TurnPollsWhenDue(cfg, Elapsed(t0, t), Run(cfg, t0, ticks).st, t);
    LastPollMore(cfg, t0, ticks, t);
  }

  lemma {:induction false} OpenRunsTellNextPoll(cfg: Config, t0: real, ticks: seq<Tick>)
    requires Run(cfg, t0, ticks).verdict.None?
    ensures NextPollTells(cfg, t0, ticks)
  {
    if ticks != [] {
      var before, t := ticks[..|ticks| - 1], ticks[|ticks| - 1];
      assert ticks == before + [t];
      OpenRunsTellNextPoll(cfg, t0, before);
      NextPollMore(cfg, t0, before, t);
    }
  }

  /** In every run, while the watch is open and within its budget, a tick polls the status if and only if its clock is
      at least two seconds past that of the last polling tick, whether that poll succeeded or not; the first poll only
      waits for a clock that is not negative. */
  lemma PollsEveryTwoSeconds(cfg: Config, t0: real, ticks: seq<Tick>, t: Tick)
    requires Run(cfg, t0, ticks).verdict.None? && t.now - t0 <= cfg.budget
    ensures NoPoll(cfg, t0, ticks) ==> (PollsAt(cfg, t0, ticks + [t], |ticks|) <==> t.now >= 0.0)
    ensures forall i: nat | LastPoll(cfg, t0, ticks, i) ::
              PollsAt(cfg, t0, ticks + [t], |ticks|) <==> TwoSecondsLater(ticks[i], t)
  {
    OpenRunsTellNextPoll(cfg, t0, ticks);
    NextPollMore(cfg, t0, ticks, t);
  }
}

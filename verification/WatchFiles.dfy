/** Which screenshots the watch loop's events file tells of, and where. */
module WatchFiles {
  import opened Prelude
  import opened WatchLoop

  /** The event with which a screenshot is taken. */
  predicate TakenWith(s: Snap, e: Event) {
    match s
    case AtTimeout => e.TimedOut?
    case BeforeRefresh => e.Refreshed?
    case AfterRefresh => e == Refreshed(true)
    case BeforeUpdate => e.UpdatePost?
    case AfterUpdate => e == UpdatePost(UpdateAccepted)
    case BeforePause => e.PausePost?
    case AfterPause => e.PausePost? && e.outcome == Posted
    case BeforeResume => e.ResumePost?
    case AfterResume => e.ResumePost? && e.outcome == Posted
    case AtRecovery => e.Recovered?
    case AtDesync(stage) => e.DesyncLogged? && e.stage == stage
    case AtFailure(id) => e.FailureLogged? && e.id == id
    case AtSettled => e.SettledIdle?
    case AtNoActivity(unexpected) => e == NoActivity(unexpected)
  }

  predicate IsBefore(s: Snap) { s in {BeforeRefresh, BeforeUpdate, BeforePause, BeforeResume} }

  lemma SnapsByEvent(s: Snap, e: Event)
    ensures SnapBefore(e) == Some(s) <==> IsBefore(s) && TakenWith(s, e)
    ensures SnapAfter(e) == Some(s) <==> !IsBefore(s) && TakenWith(s, e)
  {
  }

  /** A line of a screenshot that failed stands next to the event it belongs to: directly before it for a screenshot
      of the moment before an action, else directly after it. */
  ghost predicate WellPlaced(file: seq<Line>) {
    forall k: nat | k < |file| && file[k].SnapFailed? :: StandsNext(file, k)
  }

  ghost predicate StandsNext(file: seq<Line>, k: nat)
    requires k < |file| && file[k].SnapFailed?
  {
    if IsBefore(file[k].snap)
        then k + 1 < |file| && file[k + 1].Logged? && TakenWith(file[k].snap, file[k + 1].event)
    else k > 0 && file[k - 1].Logged? && TakenWith(file[k].snap, file[k - 1].event)
  }

  lemma PlacedTogether(a: seq<Line>, b: seq<Line>)
    requires WellPlaced(a) && WellPlaced(b)
    ensures WellPlaced(a + b)
  {
    forall k: nat | k < |a + b| && (a + b)[k].SnapFailed? ensures StandsNext(a + b, k) {
      if k < |a| {
        assert StandsNext(a, k);
      } else {
        assert StandsNext(b, k - |a|);
      }
    }
  }

  lemma AroundIsPlaced(e: Event, lost: set<Snap>)
    ensures WellPlaced(Around(e, lost))
    ensures forall s :: SnapFailed(s) in Around(e, lost) <==> s in lost && TakenWith(s, e)
  {
    forall s: Snap
        ensures (SnapBefore(e) == Some(s) <==> IsBefore(s) && TakenWith(s, e))
             && (SnapAfter(e) == Some(s) <==> !IsBefore(s) && TakenWith(s, e)) {
      SnapsByEvent(s, e);
    }
  }

  lemma {:induction false} LinesTellScreenshots(events: seq<Event>, lost: set<Snap>)
    ensures WellPlaced(LinesOf(events, lost))
    ensures forall s ::
              SnapFailed(s) in LinesOf(events, lost) <==> s in lost && exists e :: e in events && TakenWith(s, e)
  {
    if events != [] {
      var before, last := events[..|events| - 1], events[|events| - 1];
      LinesTellScreenshots(before, lost);
      AroundIsPlaced(last, lost);
      PlacedTogether(LinesOf(before, lost), Around(last, lost));
      assert events == before + [last];
    }
  }

  /** What the tick with number `i` adds to the log. */
  ghost function AddedAt(cfg: Config, t0: real, ticks: seq<Tick>, i: nat): seq<Event>
    requires i < |ticks|
  {
    Added(Run(cfg, t0, ticks[..i]).st.report.log, Run(cfg, t0, ticks[..i + 1]).st.report.log)
  }

  /** Some tick loses the screenshot while it adds an event the screenshot is taken with. */
  ghost predicate LostAt(cfg: Config, t0: real, ticks: seq<Tick>, s: Snap, i: nat) {
    i < |ticks| && s in ticks[i].lost && exists e :: e in AddedAt(cfg, t0, ticks, i) && TakenWith(s, e)
  }

  /** In every run the events file tells of exactly the screenshots that are lost while an event they are taken with
      is logged (one after an action only if the action succeeded), each next to such an event. */
  lemma {:induction false} FileTellsScreenshots(cfg: Config, t0: real, ticks: seq<Tick>)
    ensures WellPlaced(FileOf(cfg, t0, ticks))
    ensures forall s :: SnapFailed(s) in FileOf(cfg, t0, ticks) <==> exists i: nat :: LostAt(cfg, t0, ticks, s, i)
  {
    if ticks != [] {
      var n := |ticks| - 1;
      var before := ticks[..n];
      FileTellsScreenshots(cfg, t0, before);
      assert ticks[..n + 1] == ticks;
      var added := AddedAt(cfg, t0, ticks, n);
      LinesTellScreenshots(added, ticks[n].lost);
      PlacedTogether(FileOf(cfg, t0, before), LinesOf(added, ticks[n].lost));
      forall s ensures SnapFailed(s) in FileOf(cfg, t0, ticks) <==> exists i: nat :: LostAt(cfg, t0, ticks, s, i) {
        LostEarlier(cfg, t0, ticks, before, s);
      }
    }
  }

  lemma LostEarlier(cfg: Config, t0: real, ticks: seq<Tick>, before: seq<Tick>, s: Snap)
    requires ticks != [] && before == ticks[..|ticks| - 1]
    ensures (exists i: nat :: LostAt(cfg, t0, ticks, s, i))
            <==> (exists i: nat :: LostAt(cfg, t0, before, s, i)) || LostAt(cfg, t0, ticks, s, |ticks| - 1)
  {
    var n := |ticks| - 1;
    forall i: nat | i < n ensures LostAt(cfg, t0, before, s, i) <==> LostAt(cfg, t0, ticks, s, i) {
      LostSame(cfg, t0, ticks, before, s, i);
    }
    assert forall i: nat :: LostAt(cfg, t0, ticks, s, i) ==> i < n || i == n;
  }

  lemma LostSame(cfg: Config, t0: real, ticks: seq<Tick>, before: seq<Tick>, s: Snap, i: nat)
    requires i < |before| && before <= ticks
    ensures LostAt(cfg, t0, before, s, i) <==> LostAt(cfg, t0, ticks, s, i)
  {
    assert before[..i] == ticks[..i] && before[..i + 1] == ticks[..i + 1];
  }
}

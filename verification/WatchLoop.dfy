/** The clocked polling loop that watches a pipeline until it is idle: scheduled side effects,
    desync and invariant reporting, idle detection and the pass/fail verdict. */
module WatchLoop {
  import opened Prelude
  import opened StageTables
  import opened StageVerdicts
  import opened FailureGate

  /** `_effective_watch_budget`. */
  function EffectiveBudget(requested: real, cap: Option<real>, raisable: bool): real {
    match cap
    case None => requested
    case Some(c) => if raisable || c < requested then c else requested
  }

  datatype Config = Config(
    budget: real, grace: real, settle: real,
    refreshAt: Option<real>, updateAt: Option<real>, pauseAt: Option<real>, resumeAt: Option<real>,
    expectActivity: bool)

  const POLL_INTERVAL := 2.0

  // ---------------------------------------------------------------------------------------
  // What the world answers during one iteration
  // ---------------------------------------------------------------------------------------

  /** A pause or resume POST: accepted, or an exception with the response status code it carries, if any. */
  datatype PostAnswer = Accepted | Raised(statusCode: Option<int>, transportError: bool)
  datatype PostClass = Posted | Rejected | Transport | Errored

  /** `_log_pause_action_failure`, with acceptance as a fourth outcome. */
  function Classify(a: PostAnswer): PostClass {
    match a
    case Accepted => Posted
    case Raised(code, transportError) =>
      if code == Some(400) || code == Some(409) then Rejected
      else if code.None? && transportError then Transport
      else Errored
  }

  datatype UpdateAnswer = UpdateAccepted | UpdateAlreadyRunning | UpdateTransport | UpdateFailed

  /** A status poll: an exception, or a payload with the stage rows scraped next to it and the
      invariant results for both (None when running the invariants raised). */
  datatype PollAnswer =
    | StatusFailed
    | StatusOk(status: Status, dom: map<Stage, DomRow>, results: Option<seq<Obs>>)

  /** The moments at which the loop takes a screenshot. */
  datatype Snap =
    | AtTimeout
    | BeforeRefresh | AfterRefresh
    | BeforeUpdate | AfterUpdate
    | BeforePause | AfterPause
    | BeforeResume | AfterResume
    | AtRecovery
    | AtDesync(stage: Stage)
    | AtFailure(id: string)
    | AtSettled
    | AtNoActivity(unexpected: bool)

  /** One iteration's answers; `lost` holds the screenshots that cannot be taken. */
  datatype Tick = Tick(
    now: real, reloadOk: bool, panelPresent: bool,
    update: UpdateAnswer, pause: PostAnswer, resume: PostAnswer, poll: PollAnswer, lost: set<Snap>)

  /** Everything the loop does to the world or learns from it, in order. */
  datatype Event =
    | TimedOut
    | Refreshed(succeeded: bool)
    | UpdatePost(answer: UpdateAnswer)
    | PausePost(group: Group, outcome: PostClass)
    | ResumePost(group: Group, outcome: PostClass)
    | Recovered
    | PollFailed
    | Polled(now: real, running: bool, target: Option<Group>)
    | Compared(stage: Stage, found: Option<Desync>)
    | DesyncLogged(stage: Stage, desync: Desync)
    | InvariantsRaised
    | Observed(obs: Obs)
    | FailureLogged(id: string, sig: string)
    | PauseNeverFired
    | ResumeNeverFired
    | SettledIdle(now: real)
    | NoActivity(unexpected: bool)

  /** A line of the events file: an event, or the error that a failed screenshot leaves there. */
  datatype Line = Logged(event: Event) | SnapFailed(snap: Snap)

  function EventsIn(file: seq<Line>): seq<Event> {
    if file == [] then []
    else
      var before, last := EventsIn(file[..|file| - 1]), file[|file| - 1];
      if last.Logged? then before + [last.event] else before
  }

  /** The screenshots taken just before and just after an event. */
  function SnapBefore(e: Event): Option<Snap> {
    match e
    case Refreshed(_) => Some(BeforeRefresh)
    case UpdatePost(_) => Some(BeforeUpdate)
    case PausePost(_, _) => Some(BeforePause)
    case ResumePost(_, _) => Some(BeforeResume)
    case _ => None
  }

  function SnapAfter(e: Event): Option<Snap> {
    match e
    case TimedOut => Some(AtTimeout)
    case Refreshed(succeeded) => if succeeded then Some(AfterRefresh) else None
    case UpdatePost(answer) => if answer == UpdateAccepted then Some(AfterUpdate) else None
    case PausePost(_, outcome) => if outcome == Posted then Some(AfterPause) else None
    case ResumePost(_, outcome) => if outcome == Posted then Some(AfterResume) else None
    case Recovered => Some(AtRecovery)
    case DesyncLogged(stage, _) => Some(AtDesync(stage))
    case FailureLogged(id, _) => Some(AtFailure(id))
    case SettledIdle(_) => Some(AtSettled)
    case NoActivity(unexpected) => Some(AtNoActivity(unexpected))
    case _ => None
  }

  /** The line a screenshot leaves: none when it can be taken. */
  function SnapLine(snap: Option<Snap>, lost: set<Snap>): seq<Line> {
    if snap.Some? && snap.value in lost then [SnapFailed(snap.value)] else []
  }

  /** An event and its screenshots. */
  function Around(e: Event, lost: set<Snap>): seq<Line> {
    SnapLine(SnapBefore(e), lost) + [Logged(e)] + SnapLine(SnapAfter(e), lost)
  }

  /** The lines of events that happen while the given screenshots are lost. */
  function LinesOf(events: seq<Event>, lost: set<Snap>): seq<Line> {
    if events == [] then []
    else
      LinesOf(events[..|events| - 1], lost) + Around(events[|events| - 1], lost)
  }

  // ---------------------------------------------------------------------------------------
  // The two schedulers
  // ---------------------------------------------------------------------------------------

  predicate Due(at: Option<real>, elapsed: real) {
    at.Some? && elapsed >= at.value
  }

  /** `_advance_scheduled_actions`: which of refresh and update fire on this tick; the refresh goes first. */
  function AdvanceScheduled(cfg: Config, elapsed: real, refreshFired: bool, updateFired: bool): (bool, bool) {
    (Due(cfg.refreshAt, elapsed) && !refreshFired, Due(cfg.updateAt, elapsed) && !updateFired)
  }

  /** `_advance_pause_actions`: which of pause and resume fire on this tick. */
  function AdvancePause(cfg: Config, elapsed: real, p: Pausing): (bool, bool) {
    (Due(cfg.pauseAt, elapsed) && !p.fired && p.target.Some?,
     Due(cfg.resumeAt, elapsed) && !p.resumed && p.fired && p.polls >= 1)
  }

  // ---------------------------------------------------------------------------------------
  // One iteration
  // ---------------------------------------------------------------------------------------

  /** The run context's log and counters. */
  datatype Report = Report(errors: nat, desyncs: nat, failures: nat, log: seq<Event>)

  /** The loop's variables, by concern. */
  datatype Sched = Sched(refreshFired: bool, updateFired: bool, recovery: bool)
  datatype Pausing = Pausing(fired: bool, resumed: bool, target: Option<Group>, group: Option<Group>, polls: nat)
  datatype Idling = Idling(sawRunning: bool, since: Option<real>)
  datatype Checks = Checks(lastDesync: map<Stage, Desync>, gate: Memory, ok: bool)
  datatype State = State(sched: Sched, pausing: Pausing, idling: Idling, nextPoll: real, checks: Checks, report: Report)

  const INITIAL := State(
    Sched(false, false, false), Pausing(false, false, None, None, 0), Idling(false, None), 0.0,
    Checks(map[], Memory(map[], map[]), true), Report(0, 0, 0, []))

  datatype Outcome = Outcome(st: State, verdict: Option<bool>)

  function Note(r: Report, e: Event): Report {
    r.(log := r.log + [e])
  }

  function NoteError(r: Report, e: Event): Report {
    r.(log := r.log + [e], errors := r.errors + 1)
  }

  /** An event that counts as an error exactly when `isError`. */
  function NoteMaybe(r: Report, e: Event, isError: bool): Report {
    if isError then NoteError(r, e) else Note(r, e)
  }

  /** `_log_unfired_pause`. */
  function NoteUnfired(cfg: Config, p: Pausing, r: Report): Report {
    if cfg.pauseAt.Some? && !p.fired then Note(r, PauseNeverFired)
    else if cfg.resumeAt.Some? && p.fired && !p.resumed then Note(r, ResumeNeverFired)
    else r
  }

  function ScheduledPhase(cfg: Config, elapsed: real, c: Sched, r: Report, t: Tick): (Sched, Report) {
    var (refresh, update) := AdvanceScheduled(cfg, elapsed, c.refreshFired, c.updateFired);
    var r1 := if refresh then NoteMaybe(r, Refreshed(t.reloadOk), !t.reloadOk) else r;
    var r2 := if update then NoteMaybe(r1, UpdatePost(t.update), t.update == UpdateFailed) else r1;
    (Sched(c.refreshFired || refresh, c.updateFired || update, c.recovery || (refresh && t.reloadOk)), r2)
  }

  function PauseGroup(p: Pausing): Group {
    if p.target.Some? then p.target.value else FastSync
  }

  function ResumeGroup(p: Pausing): Group {
    if p.group.Some? then p.group.value else PauseGroup(p)
  }

  /** A rejected pause is un-latched; any other one keeps its group for the resume. */
  function DoPause(p: Pausing, outcome: PostClass): Pausing {
    if outcome == Rejected then p.(polls := 0, fired := false)
    else p.(polls := 0, fired := true, group := Some(PauseGroup(p)))
  }

  function PausePhase(cfg: Config, elapsed: real, p: Pausing, r: Report, t: Tick): (Pausing, Report) {
    var (pause, resume) := AdvancePause(cfg, elapsed, p);
    var out, back := Classify(t.pause), Classify(t.resume);
    var p1 := if pause then DoPause(p, out) else p;
    var r1 := if pause then NoteMaybe(r, PausePost(PauseGroup(p), out), out == Errored) else r;
    var r2 := if resume then NoteMaybe(r1, ResumePost(ResumeGroup(p1), back), back == Errored) else r1;
    (p1.(resumed := p.resumed || resume), r2)
  }

  function RecoveryPhase(c: Sched, r: Report, t: Tick): (Sched, Report) {
    if c.recovery && t.panelPresent then (c.(recovery := false), Note(r, Recovered)) else (c, r)
  }

  /** What a successful poll tells the pause scheduler. */
  function SeeTarget(p: Pausing, target: Option<Group>): Pausing {
    p.(target := target, polls := if p.fired then p.polls + 1 else p.polls)
  }

  /** What a successful poll tells the idle detector. */
  function SeeRunning(d: Idling, now: real, running: bool): Idling {
    Idling(d.sawRunning || running, if running then None else if d.since.None? then Some(now) else d.since)
  }

  /** The outcome of one comparison: a disagreement is logged unless it is the one last logged for its stage. */
  function FileDesync(c: Checks, r: Report, stage: Stage, found: Option<Desync>): (Checks, Report) {
    var r1 := Note(r, Compared(stage, found));
    if found.None? || (stage in c.lastDesync && c.lastDesync[stage] == found.value) then (c, r1)
    else (c.(lastDesync := c.lastDesync[stage := found.value], ok := false),
          Note(r1, DesyncLogged(stage, found.value)).(desyncs := r.desyncs + 1))
  }

  /** The desync rules for one stage row. */
  function CheckStage(c: Checks, r: Report, stage: Stage, status: Status, dom: map<Stage, DomRow>): (Checks, Report)
    requires GroupOf(stage).Some?
  {
    if stage !in dom then (c, r)
    else FileDesync(c, r, stage, Disagreement(StageVerdict(stage, status), dom[stage], IsAnyRunning(status)))
  }

  /** The desync detector over the first `n` stages of the published order. */
  function CheckStages(c: Checks, r: Report, n: nat, status: Status, dom: map<Stage, DomRow>): (Checks, Report)
    requires n <= |STAGE_ORDER|
  {
    if n == 0 then (c, r)
    else
      OrderMatchesTable(n - 1);
      var (c1, r1) := CheckStages(c, r, n - 1, status, dom);
      CheckStage(c1, r1, STAGE_ORDER[n - 1].0, status, dom)
  }

  function FeedGate(c: Checks, r: Report, o: Obs): (Checks, Report) {
    var (mem, emit) := Observe(c.gate, o, INVARIANT_PERSISTENCE_TICKS);
    var r1 := Note(r, Observed(o));
    if emit && o.failure.Some? then
      (c.(gate := mem, ok := false), Note(r1, FailureLogged(o.id, o.failure.value)).(failures := r.failures + 1))
    else (c.(gate := mem), r1)
  }

  function FeedAll(c: Checks, r: Report, results: seq<Obs>): (Checks, Report) {
    if results == [] then (c, r)
    else
      var (c1, r1) := FeedAll(c, r, results[..|results| - 1]);
      FeedGate(c1, r1, results[|results| - 1])
  }

  /** Desync rules, then invariants; both only after the grace period, the latter not during recovery. */
  function InspectPhase(cfg: Config, elapsed: real, recovery: bool, c: Checks, r: Report,
                        status: Status, dom: map<Stage, DomRow>, results: Option<seq<Obs>>): (Checks, Report)
  {
    if elapsed <= cfg.grace then (c, r)
    else
      var (c1, r1) := CheckStages(c, r, |STAGE_ORDER|, status, dom);
      if recovery then (c1, r1)
      else
        match results
        case None => (c1, NoteError(r1, InvariantsRaised))
        case Some(s) => FeedAll(c1, r1, s)
  }

  /** Settle, give up for lack of activity, or go on. A recorded idle start of exactly zero is falsy. */
  function Decide(cfg: Config, elapsed: real, s: State, now: real, running: bool): Outcome {
    var d := s.idling;
    if d.sawRunning && d.since.Some? && d.since.value != 0.0 && now - d.since.value >= cfg.settle then
      Outcome(s.(report := NoteUnfired(cfg, s.pausing, Note(s.report, SettledIdle(now)))), Some(s.checks.ok))
    else if !d.sawRunning && elapsed > cfg.grace * 2.0 && !running then
      if cfg.expectActivity then Outcome(s.(report := NoteError(s.report, NoActivity(true))), Some(false))
      else Outcome(s.(report := NoteUnfired(cfg, s.pausing, Note(s.report, NoActivity(false)))), Some(s.checks.ok))
    else Outcome(s, None)
  }

  /** What a successful poll and the checks on it leave, before the loop decides whether to end. */
  function AfterPoll(cfg: Config, elapsed: real, s: State, t: Tick): State
    requires t.poll.StatusOk?
  {
    var running, target := IsAnyRunning(t.poll.status), FirstRunning(t.poll.status, GROUPS);
    var r := Note(s.report, Polled(t.now, running, target));
    var (c1, r1) := InspectPhase(cfg, elapsed, s.sched.recovery, s.checks, r, t.poll.status, t.poll.dom,
        t.poll.results);
    State(s.sched, SeeTarget(s.pausing, target), SeeRunning(s.idling, t.now, running), t.now + POLL_INTERVAL, c1, r1)
  }

  function PollPhase(cfg: Config, elapsed: real, s: State, t: Tick): Outcome {
    if t.poll.StatusFailed? then
      Outcome(s.(nextPoll := t.now + POLL_INTERVAL, report := NoteError(s.report, PollFailed)), None)
    else
      Decide(cfg, elapsed, AfterPoll(cfg, elapsed, s, t), t.now, IsAnyRunning(t.poll.status))
  }

  /** The scheduled side effects and the post-reload recovery. */
  function ActionPhase(cfg: Config, elapsed: real, s: State, t: Tick): State {
    var (c1, r1) := ScheduledPhase(cfg, elapsed, s.sched, s.report, t);
    var (p2, r2) := PausePhase(cfg, elapsed, s.pausing, r1, t);
    var (c3, r3) := RecoveryPhase(c1, r2, t);
    s.(sched := c3, pausing := p2, report := r3)
  }

  /** An iteration within the budget. */
  function Turn(cfg: Config, elapsed: real, s: State, t: Tick): Outcome {
    var s1 := ActionPhase(cfg, elapsed, s, t);
    if t.now >= s1.nextPoll then PollPhase(cfg, elapsed, s1, t) else Outcome(s1, None)
  }

  /** The end of the watch at its budget. */
  function PastBudget(cfg: Config, s: State): Outcome {
    Outcome(s.(report := NoteUnfired(cfg, s.pausing, NoteError(s.report, TimedOut))), Some(false))
  }

  /** One iteration, `elapsed` seconds after the start. */
  function Step(cfg: Config, elapsed: real, s: State, t: Tick): Outcome {
    if elapsed > cfg.budget then PastBudget(cfg, s) else Turn(cfg, elapsed, s, t)
  }

  function Elapsed(t0: real, t: Tick): real {
    t.now - t0
  }

  /** The loop over a whole script of answers; it stops at the first verdict. */
  function Run(cfg: Config, t0: real, ticks: seq<Tick>): Outcome {
    if ticks == [] then Outcome(INITIAL, None)
    else
      var before := Run(cfg, t0, ticks[..|ticks| - 1]);
      if before.verdict.Some? then before else Step(cfg, Elapsed(t0, ticks[|ticks| - 1]), before.st, ticks[|ticks| - 1])
  }

  /** The events file of a run: what each tick adds to the log, with the lines of the screenshots that tick loses. */
  function FileOf(cfg: Config, t0: real, ticks: seq<Tick>): seq<Line> {
    if ticks == [] then []
    else
      var before, t := ticks[..|ticks| - 1], ticks[|ticks| - 1];
      FileOf(cfg, t0, before)
      + LinesOf(Added(Run(cfg, t0, before).st.report.log, Run(cfg, t0, ticks).st.report.log), t.lost)
  }

  /** What a log has gained. */
  function Added(earlier: seq<Event>, later: seq<Event>): seq<Event> {
    if |earlier| <= |later| then later[|earlier|..] else []
  }
}

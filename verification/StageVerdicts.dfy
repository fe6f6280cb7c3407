/** The verdict the watch loop draws from a status payload about one stage, and its
    disagreement with what the dashboard shows. */
module StageVerdicts {
  import opened Prelude
  import opened StageTables

  /** `(None, None)` of the source is `Unknown`. */
  datatype Verdict = Unknown | Says(state: Canon, progress: Option<int>)

  /** `api_stage_verdict`. A stage outside the table is a KeyError in the source. */
  function StageVerdict(stage: Stage, status: Status): Verdict
    requires GroupOf(stage).Some?
  {
    GroupListsMatchTable(GroupOf(stage).value);
    var group := GroupOf(stage).value;
    var slot := status(group);
    if !PhaseIn(slot, VERDICT_ELIGIBLE_PHASES) then Unknown
    else
      match CurrentStage(slot)
      case None => Unknown
      case Some(current) =>
        match IndexOf(InGroup(group), current)
        case None => Unknown
        case Some(curPos) =>
          var pos := IndexOf(InGroup(group), stage).value;
          if pos < curPos then Says(Complete, None)
          else if pos == curPos then Says(Running, slot.progress)
          else Says(Pending, None)
  }

  /** The group reports a stable current stage that belongs to it. */
  predicate HasOwnCurrent(slot: Slot, g: Group) {
    CurrentStage(slot).Some? && GroupOf(CurrentStage(slot).value) == Some(g)
  }

  /** Along the stage order of a group, verdicts are complete up to the current stage, running at it
      and pending after it; and no stage of the group has a verdict unless the phase is running or
      paused and the reported current stage is the group's own. */
  lemma VerdictShape(status: Status, g: Group, p: nat)
    requires p < |InGroup(g)|
    ensures GroupOf(InGroup(g)[p]) == Some(g)
    ensures var v := StageVerdict(InGroup(g)[p], status);
            if PhaseIn(status(g), VERDICT_ELIGIBLE_PHASES) && HasOwnCurrent(status(g), g) then
              exists c: nat ::
                && c < |InGroup(g)| && InGroup(g)[c] == CurrentStage(status(g)).value
                && v == (if p < c then Says(Complete, None) else if p == c then Says(Running, status(g).progress)
                    else Says(Pending, None))
            else v == Unknown
  {
    GroupListsMatchTable(g);
    assert InGroup(g)[p] in InGroup(g);
    var pos := IndexOf(InGroup(g), InGroup(g)[p]).value;
    assert pos == p;
  }

  /** A stage row as the desync detector reads it. */
  datatype DomRow = DomRow(state: DomState, progress: Option<int>)

  datatype Desync =
    | ApiRunningDomNotRunning(raw: DomState)
    | ApiCompleteDomStillRunning(raw: DomState)
    | ProgressGap(api: int, dom: int)
    | DomClaimsRunningWhileApiIdle(raw: DomState)

  function Abs(x: int): int {
    if x < 0 then -x else x
  }

  /** The per-stage rules of the watch loop, in their order; the last one overrides. */
  function Disagreement(v: Verdict, row: DomRow, running: bool): Option<Desync> {
    var dom := CanonOf(row.state);
    match v
    case Unknown => if !running && dom == Running then Some(DomClaimsRunningWhileApiIdle(row.state)) else None
    case Says(state, progress) =>
      if state == Running && dom != Running then Some(ApiRunningDomNotRunning(row.state))
      else if state == Complete && (dom == Running || dom == Failed) then Some(ApiCompleteDomStillRunning(row.state))
      else if state == Running && progress.Some? && row.progress.Some? && Abs(progress.value - row.progress.value) > 5
      then Some(ProgressGap(progress.value, row.progress.value))
      else None
  }

  /** The drawn states of a stage at work. */
  predicate DrawsWork(s: DomState) { s == DomRunning || s == DomRerunning || s == DomRebuilding }

  lemma WorkIsRunning(s: DomState)
    ensures CanonOf(s) == Running <==> DrawsWork(s)
    ensures CanonOf(s) == Failed <==> s == DomError
  {
  }

  /** Exactly which rows of a group with a verdict agree with the API. In particular the row of a
      paused group's current stage agrees only when it is drawn as running. */
  lemma {:induction false} AgreementAt(status: Status, g: Group, c: nat, p: nat, row: DomRow, running: bool)
    requires PhaseIn(status(g), VERDICT_ELIGIBLE_PHASES)
    requires p < |InGroup(g)| && c < |InGroup(g)| && CurrentStage(status(g)) == Some(InGroup(g)[c])
    ensures GroupOf(InGroup(g)[p]) == Some(g)
    ensures Disagreement(StageVerdict(InGroup(g)[p], status), row, running).None? <==>
            if p < c then !DrawsWork(row.state) && row.state != DomError
            else p == c ==>
              && DrawsWork(row.state)
              && (status(g).progress.Some? && row.progress.Some?
                  ==> -5 <= status(g).progress.value - row.progress.value <= 5)
  {
    GroupListsMatchTable(g);
    assert InGroup(g)[c] in InGroup(g);
    VerdictShape(status, g, p);
    WorkIsRunning(row.state);
    Agrees(StageVerdict(InGroup(g)[p], status), row, running);
  }

  /** Without a verdict a row is reported exactly if it draws work while the whole pipeline is at rest. */
  lemma ReportedAtRest(row: DomRow, running: bool)
    ensures Disagreement(Unknown, row, running)
            == if DrawsWork(row.state) && !running then Some(DomClaimsRunningWhileApiIdle(row.state)) else None
  {
    WorkIsRunning(row.state);
  }

  /** A group names its current stage in either of two fields; the verdicts are the same. */
  lemma EitherFieldNames(status: Status, other: Status, stage: Stage)
    requires GroupOf(stage).Some?
    requires forall g :: other(g) == if status(g).currentStage.None? then status(g).(currentStage := status(g).stage)
                                     else status(g)
    ensures StageVerdict(stage, other) == StageVerdict(stage, status)
  {
  }

  lemma Agrees(v: Verdict, row: DomRow, running: bool)
    requires v.Says? && v.state != Failed
    ensures Disagreement(v, row, running).None? <==>
            match v.state
            case Complete => CanonOf(row.state) == Pending || CanonOf(row.state) == Complete
            case Running =>
              && CanonOf(row.state) == Running
              && (v.progress.Some? && row.progress.Some? ==> -5 <= v.progress.value - row.progress.value <= 5)
            case _ => true
  {
  }

  /** The dashboard draws the current stage of a paused group as paused, and the detector reports
      that as a desync: a paused group is eligible for verdicts while its own row state canonises
      to pending. */
  lemma PausedRowIsReported(status: Status, g: Group, progress: Option<int>, running: bool)
    requires status(g).phase == Some(PhPaused) && HasOwnCurrent(status(g), g)
    ensures var stage := CurrentStage(status(g)).value;
            Disagreement(StageVerdict(stage, status), DomRow(DomPaused, progress), running)
            == Some(ApiRunningDomNotRunning(DomPaused))
  {
    GroupListsMatchTable(g);
    VerdictShape(status, g, IndexOf(InGroup(g), CurrentStage(status(g)).value).value);
  }
}

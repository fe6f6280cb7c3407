/** The UI invariants I1, I3 and I13 over the scraped stage rows and a status payload. */
module UiInvariants {
  import opened Prelude
  import opened StageTables
  import opened StageVerdicts

  datatype Row = Row(stage: Stage, state: DomState, hasIndicator: bool)

  predicate ShowsRunning(r: Row) { CanonOf(r.state) == Running }
  predicate ShowsComplete(r: Row) { CanonOf(r.state) == Complete }
  predicate Marked(r: Row) { r.hasIndicator }

  /** `_rows_by_group(rows)[g]`. */
  function RowsOf(rows: seq<Row>, g: Group): (r: seq<Row>)
    ensures forall x :: x in r <==> x in rows && GroupOf(x.stage) == Some(g)
  {
    if rows == [] then []
    else
      var before, last := RowsOf(rows[..|rows| - 1], g), rows[|rows| - 1];
      if GroupOf(last.stage) == Some(g) then before + [last] else before
  }

  function Select(rows: seq<Row>, p: Row -> bool): (r: seq<Row>)
    ensures forall x :: x in r <==> x in rows && p(x)
    ensures |r| <= |rows|
  {
    if rows == [] then []
    else
      var before, last := Select(rows[..|rows| - 1], p), rows[|rows| - 1];
      if p(last) then before + [last] else before
  }

  /** `rows_by_id.get(stage)`: a later row replaces an earlier one. */
  function RowById(rows: seq<Row>, stage: Stage): (r: Option<Row>)
    ensures r.Some? ==> r.value in rows && r.value.stage == stage
    ensures r.None? <==> forall x | x in rows :: x.stage != stage
  {
    if rows == [] then None
    else if rows[|rows| - 1].stage == stage then Some(rows[|rows| - 1])
    else RowById(rows[..|rows| - 1], stage)
  }

  // ---------------------------------------------------------------------------------------
  // What each invariant reports
  // ---------------------------------------------------------------------------------------

  predicate I1Fails(rows: seq<Row>, status: Status, g: Group) {
    PhaseIn(status(g), ACTIVE_PIPELINE_PHASES) && |Select(RowsOf(rows, g), ShowsRunning)| > 1
  }

  predicate I3Fails(rows: seq<Row>, status: Status, g: Group, stage: Stage) {
    && PhaseIn(status(g), ACTIVE_PIPELINE_PHASES)
    && CurrentStage(status(g)).Some?
    && PosInGroup(CurrentStage(status(g)).value).Some?
    && IndexOf(InGroup(g), stage).Some?
    && IndexOf(InGroup(g), stage).value > PosInGroup(CurrentStage(status(g)).value).value
    && RowById(rows, stage).Some?
    && ShowsComplete(RowById(rows, stage).value)
  }

  predicate I13Fails(rows: seq<Row>, status: Status, g: Group) {
    && PhaseIn(status(g), ACTIVE_PIPELINE_PHASES)
    && RowsOf(rows, g) != []
    && |Select(RowsOf(rows, g), Marked)| != 1
  }

  datatype GroupFailure = GroupFailure(group: Group, phase: Phase, rows: seq<Row>)
  datatype StageFailure = StageFailure(group: Group, current: Stage, downstream: Stage, state: DomState)

  /** The I1 failures of the listed groups: each names the running rows of a failing group. */
  function I1Report(rows: seq<Row>, status: Status, groups: seq<Group>): (r: seq<GroupFailure>)
    ensures forall f | f in r :: f.group in groups && I1Fails(rows, status, f.group)
                                 && f.rows == Select(RowsOf(rows, f.group), ShowsRunning)
    ensures forall g | g in groups && I1Fails(rows, status, g) ::
              GroupFailure(g, status(g).phase.value, Select(RowsOf(rows, g), ShowsRunning)) in r
  {
    if groups == [] then []
    else
      var g := groups[|groups| - 1];
      I1Report(rows, status, groups[..|groups| - 1])
      + (if I1Fails(rows, status, g)
          then [GroupFailure(g, status(g).phase.value, Select(RowsOf(rows, g), ShowsRunning))] else [])
  }

  /** The I13 failures of the listed groups: each names the marked rows of a failing group. */
  function I13Report(rows: seq<Row>, status: Status, groups: seq<Group>): (r: seq<GroupFailure>)
    ensures forall f | f in r :: f.group in groups && I13Fails(rows, status, f.group)
                                 && f.rows == Select(RowsOf(rows, f.group), Marked)
    ensures forall g | g in groups && I13Fails(rows, status, g) ::
              GroupFailure(g, status(g).phase.value, Select(RowsOf(rows, g), Marked)) in r
  {
    if groups == [] then []
    else
      var g := groups[|groups| - 1];
      I13Report(rows, status, groups[..|groups| - 1])
      + (if I13Fails(rows, status, g) then [GroupFailure(g, status(g).phase.value, Select(RowsOf(rows, g), Marked))]
          else [])
  }

  function I3Entry(rows: seq<Row>, status: Status, g: Group, stage: Stage): (r: seq<StageFailure>)
    ensures r == [] || (|r| == 1 && r[0].group == g && r[0].downstream == stage)
    ensures r == [] <==> !I3Fails(rows, status, g, stage)
  {
    if I3Fails(rows, status, g, stage)
    then [StageFailure(g, CurrentStage(status(g)).value, stage, RowById(rows, stage).value.state)] else []
  }

  /** The I3 failures of one group among the listed stages. */
  function I3GroupReport(rows: seq<Row>, status: Status, g: Group, stages: seq<Stage>): seq<StageFailure> {
    if stages == [] then []
    else I3GroupReport(rows, status, g, stages[..|stages| - 1]) + I3Entry(rows, status, g, stages[|stages| - 1])
  }

  ghost predicate Reports(failures: seq<StageFailure>, g: Group, stage: Stage) {
    exists f :: f in failures && f.group == g && f.downstream == stage
  }

  lemma ReportsAppend(a: seq<StageFailure>, b: seq<StageFailure>, g: Group, stage: Stage)
    ensures Reports(a + b, g, stage) <==> Reports(a, g, stage) || Reports(b, g, stage)
  {
    if Reports(a, g, stage) {
      var f :| f in a && f.group == g && f.downstream == stage;
      assert f in a + b;
    }
    if Reports(b, g, stage) {
      var f :| f in b && f.group == g && f.downstream == stage;
      assert f in a + b;
    }
  }

  lemma EntryReports(rows: seq<Row>, status: Status, h: Group, last: Stage, g: Group, stage: Stage)
    ensures Reports(I3Entry(rows, status, h, last), g, stage)
            <==> g == h && stage == last && I3Fails(rows, status, h, last)
  {
    var found := I3Entry(rows, status, h, last);
    if found != [] {
      assert found[0] in found;
    }
  }

  lemma {:induction false} I3GroupReportIsExact(rows: seq<Row>, status: Status, h: Group, stages: seq<Stage>, g: Group,
                                                stage: Stage)
    ensures Reports(I3GroupReport(rows, status, h, stages), g, stage)
            <==> g == h && stage in stages && I3Fails(rows, status, h, stage)
  {
    if stages != [] {
      var before, last := stages[..|stages| - 1], stages[|stages| - 1];
      I3GroupReportIsExact(rows, status, h, before, g, stage);
      EntryReports(rows, status, h, last, g, stage);
      ReportsAppend(I3GroupReport(rows, status, h, before), I3Entry(rows, status, h, last), g, stage);
      assert stage in stages <==> stage in before || stage == last;
    }
  }

  function I3Report(rows: seq<Row>, status: Status, groups: seq<Group>): seq<StageFailure> {
    if groups == [] then []
    else
      var g := groups[|groups| - 1];
      I3Report(rows, status, groups[..|groups| - 1]) + I3GroupReport(rows, status, g, InGroup(g))
  }

  /** I3 reports a stage of a listed group exactly when that stage fails. */
  lemma {:induction false} I3ReportIsExact(rows: seq<Row>, status: Status, groups: seq<Group>, g: Group, stage: Stage)
    ensures Reports(I3Report(rows, status, groups), g, stage) <==> g in groups && I3Fails(rows, status, g, stage)
  {
    if groups != [] {
      var before, last := groups[..|groups| - 1], groups[|groups| - 1];
      I3ReportIsExact(rows, status, before, g, stage);
      I3GroupReportIsExact(rows, status, last, InGroup(last), g, stage);
      ReportsAppend(I3Report(rows, status, before), I3GroupReport(rows, status, last, InGroup(last)), g, stage);
    }
  }

  method CollectRows(rows: seq<Row>, p: Row -> bool) returns (r: seq<Row>)
    ensures r == Select(rows, p)
  {
    r := [];
    for i := 0 to |rows|
      invariant r == Select(rows[..i], p)
    {
      assert rows[..i + 1][..i] == rows[..i];
      if p(rows[i]) {
        r := r + [rows[i]];
      }
    }
    assert rows[..|rows|] == rows;
  }

  method RowsByGroup(rows: seq<Row>) returns (byGroup: map<Group, seq<Row>>)
    ensures byGroup.Keys == {FastSync, DeepEnrichment, Finalize}
    ensures forall g :: g in byGroup ==> byGroup[g] == RowsOf(rows, g)
  {
    byGroup := map[FastSync := [], DeepEnrichment := [], Finalize := []];
    for i := 0 to |rows|
      invariant byGroup.Keys == {FastSync, DeepEnrichment, Finalize}
      invariant forall g :: g in byGroup ==> byGroup[g] == RowsOf(rows[..i], g)
    {
      assert rows[..i + 1][..i] == rows[..i];
      var g := GroupOf(rows[i].stage);
      if g.Some? {
        byGroup := byGroup[g.value := byGroup[g.value] + [rows[i]]];
      }
    }
    assert rows[..|rows|] == rows;
  }

  /** I1. */
  method OneRunningRowPerGroup(rows: seq<Row>, status: Status) returns (failures: seq<GroupFailure>)
    ensures failures == I1Report(rows, status, GROUPS)
  {
    failures := [];
    var byGroup := RowsByGroup(rows);
    for i := 0 to |GROUPS|
      invariant failures == I1Report(rows, status, GROUPS[..i])
    {
      assert GROUPS[..i + 1][..i] == GROUPS[..i];
      var group := GROUPS[i];
      var slot := status(group);
      if PhaseIn(slot, ACTIVE_PIPELINE_PHASES) {
        var running := CollectRows(byGroup[group], ShowsRunning);
        if |running| > 1 {
          failures := failures + [GroupFailure(group, slot.phase.value, running)];
        }
      }
    }
    assert GROUPS[..|GROUPS|] == GROUPS;
  }

  /** I3. */
  method DownstreamNotComplete(rows: seq<Row>, status: Status) returns (failures: seq<StageFailure>)
    ensures failures == I3Report(rows, status, GROUPS)
  {
    failures := [];
    var byId: map<Stage, Row> := map[];
    for i := 0 to |rows|
      invariant forall s :: RowById(rows[..i], s) == if s in byId then Some(byId[s]) else None
    {
      assert rows[..i + 1][..i] == rows[..i];
      byId := byId[rows[i].stage := rows[i]];
    }
    assert rows[..|rows|] == rows;
    for i := 0 to |GROUPS|
      invariant failures == I3Report(rows, status, GROUPS[..i])
    {
      assert GROUPS[..i + 1][..i] == GROUPS[..i];
      var found := GroupDownstream(rows, byId, status, GROUPS[i]);
      failures := failures + found;
    }
    assert GROUPS[..|GROUPS|] == GROUPS;
  }

  /** The body of I3's loop over one group. */
  method GroupDownstream(rows: seq<Row>, byId: map<Stage, Row>, status: Status, group: Group)
    returns (failures: seq<StageFailure>)
    requires forall s :: RowById(rows, s) == if s in byId then Some(byId[s]) else None
    ensures failures == I3GroupReport(rows, status, group, InGroup(group))
  {
    failures := [];
    var slot := status(group);
    var current := CurrentStage(slot);
    if !PhaseIn(slot, ACTIVE_PIPELINE_PHASES) || current.None? || PosInGroup(current.value).None? {
      NothingToReport(rows, status, group, InGroup(group));
      return;
    }
    var curPos := PosInGroup(current.value).value;
    var order := InGroup(group);
    for pos := 0 to |order|
      invariant failures == I3GroupReport(rows, status, group, order[..pos])
    {
      I3AtPosition(rows, status, group, pos);
      I3Snoc(rows, status, group, order, pos);
      var entry := [];
      if pos > curPos && order[pos] in byId && ShowsComplete(byId[order[pos]]) {
        entry := [StageFailure(group, current.value, order[pos], byId[order[pos]].state)];
      }
      failures := failures + entry;
    }
    assert order[..|order|] == order;
  }

  lemma I3Snoc(rows: seq<Row>, status: Status, g: Group, stages: seq<Stage>, pos: nat)
    requires pos < |stages|
    ensures I3GroupReport(rows, status, g, stages[..pos + 1])
         == I3GroupReport(rows, status, g, stages[..pos]) + I3Entry(rows, status, g, stages[pos])
  {
    assert stages[..pos + 1][..pos] == stages[..pos];
  }

  lemma I3AtPosition(rows: seq<Row>, status: Status, g: Group, pos: nat)
    requires PhaseIn(status(g), ACTIVE_PIPELINE_PHASES) && CurrentStage(status(g)).Some?
    requires PosInGroup(CurrentStage(status(g)).value).Some? && pos < |InGroup(g)|
    ensures var row := RowById(rows, InGroup(g)[pos]);
            I3Fails(rows, status, g, InGroup(g)[pos])
            <==> pos > PosInGroup(CurrentStage(status(g)).value).value && row.Some? && ShowsComplete(row.value)
  {
    GroupListsMatchTable(g);
    assert InGroup(g)[pos] in InGroup(g);
    var i := IndexOf(InGroup(g), InGroup(g)[pos]).value;
    assert i == pos;
  }

  lemma {:induction false} NothingToReport(rows: seq<Row>, status: Status, g: Group, stages: seq<Stage>)
    requires forall stage :: !I3Fails(rows, status, g, stage)
    ensures I3GroupReport(rows, status, g, stages) == []
  {
    if stages != [] {
      NothingToReport(rows, status, g, stages[..|stages| - 1]);
    }
  }

  /** I13. */
  method CurrentStageDecoration(rows: seq<Row>, status: Status) returns (failures: seq<GroupFailure>)
    ensures failures == I13Report(rows, status, GROUPS)
  {
    failures := [];
    var byGroup := RowsByGroup(rows);
    for i := 0 to |GROUPS|
      invariant failures == I13Report(rows, status, GROUPS[..i])
    {
      assert GROUPS[..i + 1][..i] == GROUPS[..i];
      var group := GROUPS[i];
      var slot := status(group);
      if PhaseIn(slot, ACTIVE_PIPELINE_PHASES) && byGroup[group] != [] {
        var marked := CollectRows(byGroup[group], Marked);
        if |marked| != 1 {
          failures := failures + [GroupFailure(group, slot.phase.value, marked)];
        }
      }
    }
    assert GROUPS[..|GROUPS|] == GROUPS;
  }

  // ---------------------------------------------------------------------------------------
  // The invariants against the verdicts
  // ---------------------------------------------------------------------------------------

  /** Where a group has verdicts, I3 fires on exactly the rows whose verdict is pending and whose
      canonical state is complete. */
  lemma I3IsPendingButComplete(rows: seq<Row>, status: Status, g: Group, stage: Stage)
    requires PhaseIn(status(g), VERDICT_ELIGIBLE_PHASES) && HasOwnCurrent(status(g), g)
    requires GroupOf(stage) == Some(g)
    ensures I3Fails(rows, status, g, stage) <==>
            && RowById(rows, stage).Some?
            && CanonOf(RowById(rows, stage).value.state) == Complete
            && StageVerdict(stage, status) == Says(Pending, None)
  {
    GroupListsMatchTable(g);
  }

  /** An I3 failure is backed by a pending verdict exactly when the group is running or paused and
      the stage it reports is its own; otherwise there is no verdict at all. I3 compares positions
      even when the reported stage belongs to another group. */
  lemma I3BackedByVerdict(rows: seq<Row>, status: Status, g: Group, stage: Stage)
    requires I3Fails(rows, status, g, stage)
    ensures GroupOf(stage) == Some(g)
    ensures var v := StageVerdict(stage, status);
            if PhaseIn(status(g), VERDICT_ELIGIBLE_PHASES) && HasOwnCurrent(status(g), g)
            then v == Says(Pending, None) else v == Unknown
  {
    GroupListsMatchTable(g);
    VerdictShape(status, g, IndexOf(InGroup(g), stage).value);
  }

  lemma {:induction false} FirstHasIndex(stages: seq<Stage>)
    requires |stages| > 1 && stages[0] != stages[1]
    ensures IndexOf(stages, stages[0]) == Some(0) && IndexOf(stages, stages[1]) == Some(1)
  {
    assert stages[1..][0] == stages[1];
    assert IndexOf(stages[1..], stages[1]) == Some(0);
  }

  /** Where the first stage of the first group and the second stage of the second group stand. */
  lemma FirstAndSecond()
    ensures PosInGroup(Structural) == Some(0)
    ensures IndexOf(InGroup(DeepEnrichment), GroupReasoning) == Some(1)
            && IndexOf(InGroup(DeepEnrichment), Structural).None?
  {
    GroupListsAre(DeepEnrichment);
    GroupListsAre(FastSync);
    FirstHasIndex(DEEP_STAGES);
    FirstHasIndex(FAST_SYNC_STAGES);
    assert Structural !in DEEP_STAGES;
  }

  lemma OnlyRow(r: Row)
    ensures RowById([r], r.stage) == Some(r)
  {
    assert [r][|[r]| - 1] == r;
  }

  /** A group that reports the first stage of another group: I3 fires on a stage without a verdict. */
  lemma I3FiresWithoutVerdict()
    ensures var status: Status := _ => Slot(Some(PhRunning), Some(Structural), None, None);
            var rows := [Row(GroupReasoning, DomStale, false)];
            I3Fails(rows, status, DeepEnrichment, GroupReasoning) && StageVerdict(GroupReasoning, status) == Unknown
  {
    FirstAndSecond();
    OnlyRow(Row(GroupReasoning, DomStale, false));
  }

  /** A row that is drawn running while its stage has no running verdict. */
  ghost predicate RunningAgainstVerdict(r: Row, status: Status, g: Group) {
    GroupOf(r.stage) == Some(g) && ShowsRunning(r)
    && (StageVerdict(r.stage, status).Unknown? || StageVerdict(r.stage, status).state != Running)
  }

  /** Only the current stage of a group with verdicts has a running verdict. */
  lemma RunningVerdictIsCurrent(status: Status, g: Group, stage: Stage)
    requires GroupOf(stage) == Some(g)
    ensures (StageVerdict(stage, status).Says? && StageVerdict(stage, status).state == Running)
            <==> PhaseIn(status(g), VERDICT_ELIGIBLE_PHASES) && CurrentStage(status(g)) == Some(stage)
  {
    GroupListsMatchTable(g);
    VerdictShape(status, g, IndexOf(InGroup(g), stage).value);
  }

  /** An I1 failure comes with a running row that contradicts its verdict, exactly unless the group has verdicts and
      all its running rows draw the current stage. */
  lemma I1ForcesDisagreement(rows: seq<Row>, status: Status, g: Group)
    requires I1Fails(rows, status, g)
    ensures (exists r :: r in rows && RunningAgainstVerdict(r, status, g)) <==>
            !(&& PhaseIn(status(g), VERDICT_ELIGIBLE_PHASES) && HasOwnCurrent(status(g), g)
              && forall r | r in rows && GroupOf(r.stage) == Some(g) && ShowsRunning(r) ::
                  CurrentStage(status(g)) == Some(r.stage))
  {
    var running := Select(RowsOf(rows, g), ShowsRunning);
    assert running[0] in running;
    forall r | r in rows && GroupOf(r.stage) == Some(g)
      ensures RunningAgainstVerdict(r, status, g) <==>
              ShowsRunning(r)
                  && !(PhaseIn(status(g), VERDICT_ELIGIBLE_PHASES) && CurrentStage(status(g)) == Some(r.stage))
    {
      RunningVerdictIsCurrent(status, g, r.stage);
    }
  }

  /** Two running rows of the current stage: I1 fails, and no row contradicts its verdict. */
  lemma DoubledRowIsNoDisagreement(status: Status, r: Row)
    requires status(FastSync).phase == Some(PhRunning) && CurrentStage(status(FastSync)) == Some(Structural)
    requires r.stage == Structural && ShowsRunning(r)
    ensures I1Fails([r, r], status, FastSync) && !exists x :: x in [r, r] && RunningAgainstVerdict(x, status, FastSync)
  {
    assert [r, r][..1] == [r] && [r][..0] == [];
    assert RowsOf([r], FastSync) == [r] && RowsOf([r, r], FastSync) == [r, r];
    assert Select([r], ShowsRunning) == [r] && Select([r, r], ShowsRunning) == [r, r];
    RunningVerdictIsCurrent(status, FastSync, Structural);
  }

  // ---------------------------------------------------------------------------------------
  // Rows of distinct stages
  // ---------------------------------------------------------------------------------------

  ghost predicate DistinctStages(rows: seq<Row>) {
    forall i, j | 0 <= i < j < |rows| :: rows[i].stage != rows[j].stage
  }

  lemma {:induction false} RowsOfDistinct(rows: seq<Row>, g: Group)
    requires DistinctStages(rows)
    ensures DistinctStages(RowsOf(rows, g))
  {
    if rows != [] {
      RowsOfDistinct(rows[..|rows| - 1], g);
    }
  }

  lemma {:induction false} SelectDistinct(rows: seq<Row>, p: Row -> bool)
    requires DistinctStages(rows)
    ensures DistinctStages(Select(rows, p))
  {
    if rows != [] {
      var before, last := rows[..|rows| - 1], rows[|rows| - 1];
      SelectDistinct(before, p);
      forall x | x in Select(before, p) ensures x.stage != last.stage {
        assert x in before;
      }
    }
  }

  /** Among rows of distinct stages, more than one is of a kind exactly when two stages have one. */
  lemma TwoOfKind(rows: seq<Row>, test: Row -> bool)
    requires DistinctStages(rows)
    ensures |Select(rows, test)| > 1 <==>
            exists a, b :: a in rows && b in rows && test(a) && test(b) && a.stage != b.stage
  {
    var found := Select(rows, test);
    SelectDistinct(rows, test);
    if |found| > 1 {
      assert found[0] in found && found[1] in found;
    }
    if a, b :| a in rows && b in rows && test(a) && test(b) && a.stage != b.stage {
      var i :| 0 <= i < |found| && found[i] == a;
      var j :| 0 <= j < |found| && found[j] == b;
    }
  }

  /** Exactly one is of a kind exactly when one stage has one and no other stage does. */
  lemma OneOfKind(rows: seq<Row>, test: Row -> bool)
    requires DistinctStages(rows)
    ensures |Select(rows, test)| == 1 <==>
            exists a :: a in rows && test(a) && forall b | b in rows && test(b) :: b.stage == a.stage
  {
    var found := Select(rows, test);
    TwoOfKind(rows, test);
    if |found| == 1 {
      assert found[0] in found;
    }
    if a :| a in rows && test(a) && forall b | b in rows && test(b) :: b.stage == a.stage {
      assert a in found;
    }
  }
}

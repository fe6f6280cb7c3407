/** The dashboard's stage rows as the component draws them from a status payload and from the data of the stages,
    and what the UI invariants and the desync detector make of them. */
module Dashboard {
  import opened Prelude
  import opened StageTables
  import opened StageVerdicts
  import opened UiInvariants

  /** `StageState`: what the data of a stage can compute. Paused is drawn, never computed. */
  type StageState = s: DomState | s != DomPaused && !s.OtherState? witness DomIdle

  /** What a status leaves open about one group: whether its rows are on the page at all, the state each stage's own
      data and flags compute, the stage the finalize group falls back on when it reports none, whether a failure was
      a pause by the user, and which stages have been seen complete before. */
  datatype Panel = Panel(collapsed: bool, computed: Stage -> StageState, fallback: Option<Stage>, pausedByUser: bool,
                         wasComplete: Stage -> bool)
  datatype Page = Page(rebuilding: bool, panels: Group -> Panel)

  // ---------------------------------------------------------------------------------------
  // What the page takes from the status
  // ---------------------------------------------------------------------------------------

  /** The phases in which the page believes a group's current stage. They are not the active phases of the
      invariants: paused and cancelling are missing, queued is one of them. */
  const ANCHORED_PHASES: set<Phase> := {PhRunning, PhQueued, PhPausing, PhRecovering}

  /** `normalizeFastStage`: the old name of the catalogue stage. */
  function Normalised(g: Group, stage: Option<Stage>): Option<Stage> {
    if g == FastSync && stage == Some(OtherStage("augment")) then Some(Catalogue) else stage
  }

  /** The current stage the page works with. */
  function Anchor(slot: Slot, panel: Panel, g: Group): Option<Stage> {
    if !PhaseIn(slot, ANCHORED_PHASES) then None
    else if slot.currentStage.None? && g == Finalize then panel.fallback
    else Normalised(g, slot.currentStage)
  }

  function AnchorPos(slot: Slot, panel: Panel, g: Group): Option<nat> {
    match Anchor(slot, panel, g)
    case None => None
    case Some(stage) => PosInGroup(stage)
  }

  predicate PausedFlag(slot: Slot, panel: Panel) {
    PhaseIn(slot, {PhPaused, PhPausing}) || (slot.phase == Some(PhFailed) && panel.pausedByUser)
  }

  // ---------------------------------------------------------------------------------------
  // The state of one row
  // ---------------------------------------------------------------------------------------

  /** `promoteForRebuild`. */
  function Promoted(rebuilding: bool, state: StageState): StageState {
    if rebuilding && (state == DomRunning || state == DomQueued) then DomRebuilding else state
  }

  predicate After(pos: Option<nat>, anchor: Option<nat>) {
    pos.Some? && anchor.Some? && pos.value > anchor.value
  }

  /** `i3SafeStageState`: a stage after the current one is not shown complete. */
  function SafeState(state: StageState, pos: Option<nat>, anchor: Option<nat>, phase: Option<Phase>): StageState {
    if phase == Some(PhCompleted) then DomComplete
    else if CanonOf(state) == Complete && After(pos, anchor) then DomNotBuilt
    else state
  }

  /** `regressedStates`. */
  predicate Regressed(state: StageState) {
    state in [DomNotBuilt, DomDisabled, DomQueued, DomWaiting, DomIdle, DomStale, DomWarning]
  }

  /** The state of a row once the rebuild has frozen the stages it has passed, before pausing. */
  function ShownState(slot: Slot, page: Page, g: Group, stage: Stage): StageState {
    var panel, pos := page.panels(g), PosInGroup(stage);
    var anchor := AnchorPos(slot, panel, g);
    var safe := SafeState(Promoted(page.rebuilding, panel.computed(stage)), pos, anchor, slot.phase);
    if page.rebuilding && panel.wasComplete(stage) && Regressed(safe) && !After(pos, anchor) then DomComplete else safe
  }

  predicate Settled(state: DomState) { state == DomComplete || state == DomDisabled }

  /** Some row of the group is running or rebuilding. */
  predicate GroupBusy(slot: Slot, page: Page, g: Group) {
    exists stage | stage in InGroup(g) :: ShownState(slot, page, g, stage) in [DomRunning, DomRebuilding]
  }

  /** The first `n` rows of a group are settled. */
  predicate SettledBefore(slot: Slot, page: Page, g: Group, n: nat)
    requires n <= |InGroup(g)|
  {
    forall i | 0 <= i < n :: Settled(ShownState(slot, page, g, InGroup(g)[i]))
  }

  /** `isStagePaused`: the stage the pause names, else the first one that is not settled; none while a row runs. A
      group whose stages are all settled is not paused, which the last test implies. */
  predicate IsPausedRow(slot: Slot, page: Page, g: Group, stage: Stage) {
    && stage in InGroup(g)
    && PausedFlag(slot, page.panels(g)) && !GroupBusy(slot, page, g)
    && !Settled(ShownState(slot, page, g, stage))
    && if slot.currentStage.Some? then slot.currentStage == Some(stage)
       else SettledBefore(slot, page, g, IndexOf(InGroup(g), stage).value)
  }

  /** `data-stage-state`. */
  function DrawnState(slot: Slot, page: Page, g: Group, stage: Stage): DomState {
    if IsPausedRow(slot, page, g, stage) then DomPaused else ShownState(slot, page, g, stage)
  }

  /** A row carries the current-stage indicator while it runs, is paused, or shows an error under a rebuild. */
  function DrawnRow(slot: Slot, page: Page, g: Group, stage: Stage): Row {
    var state := ShownState(slot, page, g, stage);
    Row(stage, DrawnState(slot, page, g, stage),
        CanonOf(state) == Running || (state == DomError && page.rebuilding) || IsPausedRow(slot, page, g, stage))
  }

  function DrawnRows(slot: Slot, page: Page, g: Group, stages: seq<Stage>): (rows: seq<Row>)
    ensures |rows| == |stages| && forall i | 0 <= i < |rows| :: rows[i] == DrawnRow(slot, page, g, stages[i])
  {
    if stages == [] then []
    else DrawnRows(slot, page, g, stages[..|stages| - 1]) + [DrawnRow(slot, page, g, stages[|stages| - 1])]
  }

  /** One group: one row per stage in order, or no row at all. */
  function DrawnGroup(status: Status, page: Page, g: Group): seq<Row> {
    if page.panels(g).collapsed then [] else DrawnRows(status(g), page, g, InGroup(g))
  }

  function Drawn(status: Status, page: Page): seq<Row> {
    DrawnGroup(status, page, FastSync) + DrawnGroup(status, page, DeepEnrichment) + DrawnGroup(status, page, Finalize)
  }

  // ---------------------------------------------------------------------------------------
  // The rows of one group
  // ---------------------------------------------------------------------------------------

  ghost predicate AllOf(rows: seq<Row>, g: Group) { forall r | r in rows :: GroupOf(r.stage) == Some(g) }

  lemma {:induction false} RowsOfAppend(a: seq<Row>, b: seq<Row>, g: Group)
    ensures RowsOf(a + b, g) == RowsOf(a, g) + RowsOf(b, g)
  {
    if b == [] {
      assert a + b == a;
    } else {
      assert (a + b)[..|a + b| - 1] == a + b[..|b| - 1];
      RowsOfAppend(a, b[..|b| - 1], g);
    }
  }

  lemma {:induction false} RowsOfOwn(rows: seq<Row>, g: Group)
    requires AllOf(rows, g)
    ensures RowsOf(rows, g) == rows
  {
    if rows != [] {
      var before, last := rows[..|rows| - 1], rows[|rows| - 1];
      assert last in rows;
      RowsOfOwn(before, g);
      assert rows == before + [last];
    }
  }

  lemma {:induction false} RowsOfOther(rows: seq<Row>, h: Group, g: Group)
    requires AllOf(rows, h) && g != h
    ensures RowsOf(rows, g) == []
  {
    if rows != [] {
      var before, last := rows[..|rows| - 1], rows[|rows| - 1];
      assert last in rows;
      RowsOfOther(before, h, g);
    }
  }

  lemma DrawnGroupStages(status: Status, page: Page, g: Group)
    ensures AllOf(DrawnGroup(status, page, g), g)
    ensures DistinctStages(DrawnGroup(status, page, g))
  {
    GroupListsMatchTable(g);
    var rows := DrawnGroup(status, page, g);
    forall r | r in rows ensures GroupOf(r.stage) == Some(g) {
      var i :| 0 <= i < |rows| && rows[i] == r;
      assert r.stage == InGroup(g)[i] && InGroup(g)[i] in InGroup(g);
    }
  }

  lemma RowsOfThree(a: seq<Row>, b: seq<Row>, c: seq<Row>, g: Group)
    requires AllOf(a, FastSync) && AllOf(b, DeepEnrichment) && AllOf(c, Finalize)
    ensures RowsOf(a + b + c, g) == match g case FastSync => a case DeepEnrichment => b case Finalize => c
  {
    RowsOfAppend(a + b, c, g);
    RowsOfAppend(a, b, g);
    match g
    case FastSync =>
      RowsOfOwn(a, g);
      RowsOfOther(b, DeepEnrichment, g);
      RowsOfOther(c, Finalize, g);
      assert a + [] + [] == a;
    case DeepEnrichment =>
      RowsOfOther(a, FastSync, g);
      RowsOfOwn(b, g);
      RowsOfOther(c, Finalize, g);
      assert [] + b + [] == b;
    case Finalize =>
      RowsOfOther(a, FastSync, g);
      RowsOfOther(b, DeepEnrichment, g);
      RowsOfOwn(c, g);
      assert [] + [] + c == c;
  }

  lemma RowsOfDrawn(status: Status, page: Page, g: Group)
    ensures RowsOf(Drawn(status, page), g) == DrawnGroup(status, page, g)
  {
    DrawnGroupStages(status, page, FastSync);
    DrawnGroupStages(status, page, DeepEnrichment);
    DrawnGroupStages(status, page, Finalize);
    RowsOfThree(DrawnGroup(status, page, FastSync), DrawnGroup(status, page, DeepEnrichment),
                DrawnGroup(status, page, Finalize), g);
  }

  /** A drawn row of a group is the row its status gives for some stage of the group. */
  lemma DrawnRowIs(status: Status, page: Page, g: Group, r: Row)
    requires r in DrawnGroup(status, page, g)
    ensures r == DrawnRow(status(g), page, g, r.stage) && r.stage in InGroup(g) && !page.panels(g).collapsed
  {
    var rows := DrawnGroup(status, page, g);
    var i :| 0 <= i < |rows| && rows[i] == r;
    assert InGroup(g)[i] in InGroup(g);
  }

  // ---------------------------------------------------------------------------------------
  // Rows in terms of what the page is given
  // ---------------------------------------------------------------------------------------

  /** The computed states that are shown as running: under a rebuild also a queued one. */
  predicate Lights(page: Page, g: Group, stage: Stage) {
    var state := page.panels(g).computed(stage);
    CanonOf(state) == Running || (page.rebuilding && state == DomQueued)
  }

  /** The computed states that are shown complete where no anchor forbids it: under a rebuild also those of a stage
      that was complete before, unless it runs, waits in the queue or has failed. */
  predicate Green(page: Page, g: Group, stage: Stage) {
    var state := page.panels(g).computed(stage);
    CanonOf(state) == Complete
    || (page.rebuilding && page.panels(g).wasComplete(stage)
        && state in [DomNotBuilt, DomDisabled, DomWaiting, DomIdle])
  }

  lemma ShownRunning(slot: Slot, page: Page, g: Group, stage: Stage)
    ensures CanonOf(ShownState(slot, page, g, stage)) == Running
            <==> slot.phase != Some(PhCompleted) && Lights(page, g, stage)
  {
  }

  lemma ShownError(slot: Slot, page: Page, g: Group, stage: Stage)
    ensures CanonOf(ShownState(slot, page, g, stage)) == Failed
            <==> slot.phase != Some(PhCompleted) && page.panels(g).computed(stage) == DomError
  {
  }

  lemma ShownGreen(slot: Slot, page: Page, g: Group, stage: Stage)
    requires slot.phase != Some(PhCompleted)
    ensures CanonOf(ShownState(slot, page, g, stage)) == Complete
            <==> Green(page, g, stage) && !After(PosInGroup(stage), AnchorPos(slot, page.panels(g), g))
  {
  }

  /** A row is drawn running when its computed state lights it and it is not the paused one. */
  predicate RunsOnPage(status: Status, page: Page, g: Group, stage: Stage) {
    status(g).phase != Some(PhCompleted) && Lights(page, g, stage) && !IsPausedRow(status(g), page, g, stage)
  }

  /** A row is lit when it runs, is paused, or has failed under a rebuild. */
  predicate LitOnPage(status: Status, page: Page, g: Group, stage: Stage) {
    || (status(g).phase != Some(PhCompleted)
        && (Lights(page, g, stage) || (page.rebuilding && page.panels(g).computed(stage) == DomError)))
    || IsPausedRow(status(g), page, g, stage)
  }

  lemma RowMeans(status: Status, page: Page, g: Group, stage: Stage)
    ensures var row := DrawnRow(status(g), page, g, stage);
            && (ShowsRunning(row) <==> RunsOnPage(status, page, g, stage))
            && (Marked(row) <==> LitOnPage(status, page, g, stage))
  {
    ShownRunning(status(g), page, g, stage);
    ShownError(status(g), page, g, stage);
  }

  /** The page works with this stage as the current one: the group is running, queued, pausing or recovering and
      reports it, by the old name of the catalogue stage too, or is the finalize group, reports none and falls back
      on it. */
  predicate Knows(slot: Slot, panel: Panel, g: Group, current: Stage) {
    && (slot.phase == Some(PhRunning) || slot.phase == Some(PhQueued) || slot.phase == Some(PhPausing)
        || slot.phase == Some(PhRecovering))
    && match slot.currentStage
       case Some(OtherStage("augment")) => current == if g == FastSync then Catalogue else OtherStage("augment")
       case Some(stage) => current == stage
       case None => g == Finalize && panel.fallback == Some(current)
  }

  ghost predicate KnowsEarlier(slot: Slot, panel: Panel, g: Group, stage: Stage) {
    exists current :: Knows(slot, panel, g, current) && After(PosInGroup(stage), PosInGroup(current))
  }

  lemma AnchorIsKnown(slot: Slot, panel: Panel, g: Group, stage: Stage)
    ensures After(PosInGroup(stage), AnchorPos(slot, panel, g)) <==> KnowsEarlier(slot, panel, g, stage)
  {
    if Anchor(slot, panel, g).Some? {
      assert Knows(slot, panel, g, Anchor(slot, panel, g).value);
    }
    assert forall current :: Knows(slot, panel, g, current) ==> Anchor(slot, panel, g) == Some(current);
  }

  /** The row shows its stage as done or switched off, and the page knows no current stage before it. */
  ghost predicate DoneOnPage(slot: Slot, page: Page, g: Group, stage: Stage) {
    var panel := page.panels(g);
    var state := panel.computed(stage);
    || state == DomDisabled
    || (!KnowsEarlier(slot, panel, g, stage)
        && (state == DomComplete
            || (page.rebuilding && panel.wasComplete(stage)
                && state in [DomNotBuilt, DomWaiting, DomIdle, DomStale, DomWarning])))
  }

  lemma SettledIsDone(slot: Slot, page: Page, g: Group, stage: Stage)
    requires slot.phase != Some(PhCompleted)
    ensures Settled(ShownState(slot, page, g, stage)) <==> DoneOnPage(slot, page, g, stage)
  {
    AnchorIsKnown(slot, page.panels(g), g, stage);
  }

  /** The stage's own data, or its place in the rebuild's queue, has it run or be rebuilt. */
  predicate Turns(page: Page, g: Group, stage: Stage) {
    var state := page.panels(g).computed(stage);
    state == DomRunning || state == DomRebuilding || (page.rebuilding && state == DomQueued)
  }

  predicate SaysPaused(slot: Slot, panel: Panel) {
    slot.phase == Some(PhPaused) || slot.phase == Some(PhPausing)
    || (slot.phase == Some(PhFailed) && panel.pausedByUser)
  }

  ghost predicate AllDoneBefore(slot: Slot, page: Page, g: Group, stage: Stage) {
    forall other | other in InGroup(g) && After(PosInGroup(stage), PosInGroup(other)) ::
        DoneOnPage(slot, page, g, other)
  }

  /** A row is drawn as paused exactly if its group is paused or pausing, or failed by a pause of the user, no row of
      the group runs or is rebuilt, and the row is not done and is the one the group names or, where it names
      none, the first that is not done. */
  ghost predicate PausesOnPage(slot: Slot, page: Page, g: Group, stage: Stage) {
    && SaysPaused(slot, page.panels(g)) && (forall other | other in InGroup(g) :: !Turns(page, g, other))
    && stage in InGroup(g) && !DoneOnPage(slot, page, g, stage)
    && (slot.currentStage == Some(stage) || (slot.currentStage.None? && AllDoneBefore(slot, page, g, stage)))
  }

  lemma PausedRowIs(slot: Slot, page: Page, g: Group, stage: Stage)
    ensures IsPausedRow(slot, page, g, stage) <==> PausesOnPage(slot, page, g, stage)
    ensures DrawnState(slot, page, g, stage) == DomPaused <==> PausesOnPage(slot, page, g, stage)
  {
    PausedFlagSays(slot, page.panels(g));
    if SaysPaused(slot, page.panels(g)) {
      BusyMeansTurning(slot, page, g);
      SettledIsDone(slot, page, g, stage);
      if stage in InGroup(g) {
        EarlierDone(slot, page, g, stage);
      }
    }
    ShownIsNeverPaused(slot, page, g, stage);
  }

  lemma PausedFlagSays(slot: Slot, panel: Panel)
    ensures PausedFlag(slot, panel) <==> SaysPaused(slot, panel)
    ensures SaysPaused(slot, panel) ==> slot.phase != Some(PhCompleted)
  {
  }

  lemma ShownIsNeverPaused(slot: Slot, page: Page, g: Group, stage: Stage)
    ensures DrawnState(slot, page, g, stage) == DomPaused <==> IsPausedRow(slot, page, g, stage)
  {
  }

  lemma BusyMeansTurning(slot: Slot, page: Page, g: Group)
    requires slot.phase != Some(PhCompleted)
    ensures GroupBusy(slot, page, g) <==> exists other :: other in InGroup(g) && Turns(page, g, other)
  {
    forall other ensures ShownState(slot, page, g, other) in [DomRunning, DomRebuilding] <==> Turns(page, g, other) {
      ShownTurning(slot, page, g, other);
    }
  }

  lemma ShownTurning(slot: Slot, page: Page, g: Group, stage: Stage)
    requires slot.phase != Some(PhCompleted)
    ensures ShownState(slot, page, g, stage) in [DomRunning, DomRebuilding] <==> Turns(page, g, stage)
  {
  }

  /** The rows above one are those of the earlier stages. */
  lemma EarlierDone(slot: Slot, page: Page, g: Group, stage: Stage)
    requires slot.phase != Some(PhCompleted) && stage in InGroup(g)
    ensures SettledBefore(slot, page, g, IndexOf(InGroup(g), stage).value) <==> AllDoneBefore(slot, page, g, stage)
  {
    var n := IndexOf(InGroup(g), stage).value;
    OwnPosition(g, stage);
    forall i: nat | i < |InGroup(g)| ensures PosInGroup(InGroup(g)[i]) == Some(i) {
      PositionIs(g, i);
    }
    if SettledBefore(slot, page, g, n) {
      forall other | other in InGroup(g) && After(PosInGroup(stage), PosInGroup(other))
          ensures DoneOnPage(slot, page, g, other) {
        OwnPosition(g, other);
        var i := IndexOf(InGroup(g), other).value;
        assert InGroup(g)[i] == other && Settled(ShownState(slot, page, g, InGroup(g)[i]));
        SettledIsDone(slot, page, g, other);
      }
    }
    if AllDoneBefore(slot, page, g, stage) {
      forall i | 0 <= i < n ensures Settled(ShownState(slot, page, g, InGroup(g)[i])) {
        var other := InGroup(g)[i];
        assert other in InGroup(g) && After(PosInGroup(stage), PosInGroup(other));
        SettledIsDone(slot, page, g, other);
      }
    }
  }

  /** At most one row of a group is drawn as paused. */
  lemma OnePausedRow(slot: Slot, page: Page, g: Group, a: Stage, b: Stage)
    requires IsPausedRow(slot, page, g, a) && IsPausedRow(slot, page, g, b)
    ensures a == b
  {
    var i, j := IndexOf(InGroup(g), a).value, IndexOf(InGroup(g), b).value;
    assert InGroup(g)[i] == a && InGroup(g)[j] == b;
  }

  // ---------------------------------------------------------------------------------------
  // The invariants on a drawn page
  // ---------------------------------------------------------------------------------------

  lemma DrawnHas(status: Status, page: Page, g: Group, stage: Stage)
    requires stage in InGroup(g) && !page.panels(g).collapsed
    ensures DrawnRow(status(g), page, g, stage) in DrawnGroup(status, page, g)
  {
    var i :| 0 <= i < |InGroup(g)| && InGroup(g)[i] == stage;
    assert DrawnGroup(status, page, g)[i] == DrawnRow(status(g), page, g, stage);
  }

  ghost predicate TwoRun(status: Status, page: Page, g: Group) {
    exists a, b :: a in InGroup(g) && b in InGroup(g) && a != b
                   && RunsOnPage(status, page, g, a) && RunsOnPage(status, page, g, b)
  }

  /** I1 faults a group of the page exactly when it is active and open and two of its rows run. */
  lemma PageUnderI1(status: Status, page: Page, g: Group)
    ensures I1Fails(Drawn(status, page), status, g) <==>
            PhaseIn(status(g), ACTIVE_PIPELINE_PHASES) && !page.panels(g).collapsed && TwoRun(status, page, g)
  {
    var rows := DrawnGroup(status, page, g);
    RowsOfDrawn(status, page, g);
    DrawnGroupStages(status, page, g);
    TwoOfKind(rows, ShowsRunning);
    forall r | r in rows ensures ShowsRunning(r) <==> RunsOnPage(status, page, g, r.stage) {
      DrawnRowIs(status, page, g, r);
      RowMeans(status, page, g, r.stage);
    }
    if !page.panels(g).collapsed {
      forall stage | stage in InGroup(g) ensures exists r :: r in rows && r.stage == stage {
        DrawnHas(status, page, g, stage);
      }
    }
    forall r | r in rows ensures r.stage in InGroup(g) {
      DrawnRowIs(status, page, g, r);
    }
  }

  ghost predicate OneLit(status: Status, page: Page, g: Group) {
    exists a :: a in InGroup(g) && LitOnPage(status, page, g, a)
                && forall b | b in InGroup(g) && LitOnPage(status, page, g, b) :: b == a
  }

  /** I13 faults a group of the page exactly when it is active and open and not exactly one of its rows is lit. */
  lemma PageUnderI13(status: Status, page: Page, g: Group)
    ensures I13Fails(Drawn(status, page), status, g) <==>
            PhaseIn(status(g), ACTIVE_PIPELINE_PHASES) && !page.panels(g).collapsed && !OneLit(status, page, g)
  {
    var rows := DrawnGroup(status, page, g);
    RowsOfDrawn(status, page, g);
    DrawnGroupStages(status, page, g);
    OneOfKind(rows, Marked);
    forall r | r in rows ensures r.stage in InGroup(g) && (Marked(r) <==> LitOnPage(status, page, g, r.stage)) {
      DrawnRowIs(status, page, g, r);
      RowMeans(status, page, g, r.stage);
    }
    GroupListsAre(g);
    if !page.panels(g).collapsed {
      forall stage | stage in InGroup(g) ensures exists r :: r in rows && r.stage == stage {
        DrawnHas(status, page, g, stage);
      }
    }
  }

  lemma OwnPosition(g: Group, stage: Stage)
    requires stage in InGroup(g)
    ensures GroupOf(stage) == Some(g) && PosInGroup(stage) == IndexOf(InGroup(g), stage)
  {
    GroupListsMatchTable(g);
  }

  lemma RowInGroup(status: Status, page: Page, g: Group, r: Row)
    requires r in Drawn(status, page) && GroupOf(r.stage) == Some(g)
    ensures r == DrawnRow(status(g), page, g, r.stage) && !page.panels(g).collapsed
  {
    RowsOfDrawn(status, page, g);
    assert r in RowsOf(Drawn(status, page), g);
    DrawnRowIs(status, page, g, r);
  }

  /** The row of a stage on an open page. */
  lemma RowOf(status: Status, page: Page, g: Group, stage: Stage)
    requires stage in InGroup(g)
    ensures RowById(Drawn(status, page), stage)
         == if page.panels(g).collapsed then None else Some(DrawnRow(status(g), page, g, stage))
  {
    var row := RowById(Drawn(status, page), stage);
    OwnPosition(g, stage);
    if !page.panels(g).collapsed {
      DrawnHas(status, page, g, stage);
      RowsOfDrawn(status, page, g);
      assert DrawnRow(status(g), page, g, stage) in RowsOf(Drawn(status, page), g);
    }
    if row.Some? {
      RowInGroup(status, page, g, row.value);
    }
  }

  /** Where the invariants place the current stage of a group. */
  function CurrentPos(slot: Slot): Option<nat> {
    match CurrentStage(slot)
    case None => None
    case Some(stage) => PosInGroup(stage)
  }

  /** I3 faults a stage of the page exactly when its group is active and open, the stage comes after the current one
      and is shown complete all the same: it is not the paused row, and the page has no anchor before it. */
  lemma PageUnderI3(status: Status, page: Page, g: Group, stage: Stage)
    requires stage in InGroup(g)
    ensures I3Fails(Drawn(status, page), status, g, stage) <==>
            && PhaseIn(status(g), ACTIVE_PIPELINE_PHASES) && !page.panels(g).collapsed
            && After(PosInGroup(stage), CurrentPos(status(g)))
            && Green(page, g, stage) && !IsPausedRow(status(g), page, g, stage)
            && !KnowsEarlier(status(g), page.panels(g), g, stage)
  {
    OwnPosition(g, stage);
    RowOf(status, page, g, stage);
    if PhaseIn(status(g), ACTIVE_PIPELINE_PHASES) {
      CompleteRow(status(g), page, g, stage);
    }
  }

  lemma CompleteRow(slot: Slot, page: Page, g: Group, stage: Stage)
    requires slot.phase != Some(PhCompleted)
    ensures ShowsComplete(DrawnRow(slot, page, g, stage)) <==>
            && Green(page, g, stage) && !IsPausedRow(slot, page, g, stage)
            && !KnowsEarlier(slot, page.panels(g), g, stage)
  {
    AnchorIsKnown(slot, page.panels(g), g, stage);
    ShownGreen(slot, page, g, stage);
  }

  /** Every row of a completed group is drawn complete, whatever its data say. */
  lemma CompletedGroup(slot: Slot, page: Page, g: Group, stage: Stage)
    requires slot.phase == Some(PhCompleted)
    ensures DrawnState(slot, page, g, stage) == DomComplete
  {
    PausedFlagSays(slot, page.panels(g));
  }

  /** The page knows the current stage of a group: its phase is an anchored one and it reports the stage itself. */
  predicate Anchored(slot: Slot) { PhaseIn(slot, ANCHORED_PHASES) && slot.currentStage.Some? }

  /** An anchored group never fails I3, whatever its stages compute, also under a rebuild. */
  lemma AnchoredPassesI3(status: Status, page: Page, g: Group, stage: Stage)
    requires Anchored(status(g)) && stage in InGroup(g)
    ensures !I3Fails(Drawn(status, page), status, g, stage)
  {
    AnchorIsCurrent(status(g), page.panels(g), g, stage);
    PageUnderI3(status, page, g, stage);
  }

  lemma AnchorIsCurrent(slot: Slot, panel: Panel, g: Group, stage: Stage)
    requires Anchored(slot)
    ensures After(PosInGroup(stage), CurrentPos(slot)) ==> KnowsEarlier(slot, panel, g, stage)
  {
    if CurrentPos(slot).Some? {
      assert Knows(slot, panel, g, slot.currentStage.value);
    }
  }

  lemma NoAnchor(slot: Slot, panel: Panel, g: Group, stage: Stage)
    requires PhaseIn(slot, {PhPaused, PhCancelling})
    ensures PhaseIn(slot, ACTIVE_PIPELINE_PHASES) && !KnowsEarlier(slot, panel, g, stage)
  {
  }

  /** A group that is paused or being cancelled has no anchor: it fails I3 at every later stage that is green from an
      earlier run, the paused row excepted. */
  lemma UnanchoredUnderI3(status: Status, page: Page, g: Group, stage: Stage)
    requires PhaseIn(status(g), {PhPaused, PhCancelling}) && stage in InGroup(g) && !page.panels(g).collapsed
    requires After(PosInGroup(stage), CurrentPos(status(g)))
    ensures I3Fails(Drawn(status, page), status, g, stage) <==>
            Green(page, g, stage) && !IsPausedRow(status(g), page, g, stage)
  {
    NoAnchor(status(g), page.panels(g), g, stage);
    PageUnderI3(status, page, g, stage);
  }

  /** Of a paused group that names its current stage, every later stage that is green from an earlier run fails I3. */
  lemma PausedGreenRow(status: Status, page: Page, g: Group, stage: Stage)
    requires status(g).phase == Some(PhPaused) && status(g).currentStage.Some? && !page.panels(g).collapsed
    requires stage in InGroup(g) && After(PosInGroup(stage), CurrentPos(status(g))) && Green(page, g, stage)
    ensures I3Fails(Drawn(status, page), status, g, stage)
  {
    UnanchoredUnderI3(status, page, g, stage);
  }

  /** A group paused at clustering while deepening is complete from an earlier run: I3 fails. */
  lemma PausedPageFailsI3(status: Status, page: Page)
    requires status(DeepEnrichment).phase == Some(PhPaused) && status(DeepEnrichment).currentStage == Some(Clustering)
    requires !page.panels(DeepEnrichment).collapsed && page.panels(DeepEnrichment).computed(Deepening) == DomComplete
    ensures I3Fails(Drawn(status, page), status, DeepEnrichment, Deepening)
  {
    DeepPositions();
    PausedGreenRow(status, page, DeepEnrichment, Deepening);
  }

  lemma DeepPositions()
    ensures Deepening in InGroup(DeepEnrichment) && PosInGroup(Deepening) == Some(3)
            && PosInGroup(Clustering) == Some(2)
    ensures Enrichment in InGroup(DeepEnrichment) && PosInGroup(Enrichment) == Some(0)
    ensures Clustering in InGroup(DeepEnrichment)
  {
    GroupListsAre(DeepEnrichment);
    GroupListsMatchTable(DeepEnrichment);
    PositionIs(DeepEnrichment, 0);
    PositionIs(DeepEnrichment, 2);
    PositionIs(DeepEnrichment, 3);
  }

  lemma PositionIs(g: Group, p: nat)
    requires p < |InGroup(g)|
    ensures PosInGroup(InGroup(g)[p]) == Some(p)
  {
    assert InGroup(g)[p] in InGroup(g);
    OwnPosition(g, InGroup(g)[p]);
    GroupListsMatchTable(g);
  }

  /** A page on which exactly one row of an anchored group is lit passes all three invariants for that group. */
  lemma PagePasses(status: Status, page: Page, g: Group, stage: Stage)
    requires PhaseIn(status(g), ACTIVE_PIPELINE_PHASES) ==> Anchored(status(g)) && OneLit(status, page, g)
    ensures var rows := Drawn(status, page);
            !I1Fails(rows, status, g) && !I3Fails(rows, status, g, stage) && !I13Fails(rows, status, g)
  {
    PageUnderI1(status, page, g);
    PageUnderI13(status, page, g);
    if Anchored(status(g)) && stage in InGroup(g) {
      AnchoredPassesI3(status, page, g, stage);
    }
  }

  // ---------------------------------------------------------------------------------------
  // The desync detector on a drawn page
  // ---------------------------------------------------------------------------------------

  predicate ProgressIsOff(api: Option<int>, drawn: Option<int>) {
    api.Some? && drawn.Some? && !(-5 <= api.value - drawn.value <= 5)
  }

  /** In a group with verdicts: an earlier stage that still runs on the page or shows an error, and the current one
      unless it runs there with about the same progress. In any other group: a stage that runs on the page while the
      whole pipeline is at rest. */
  predicate IsReported(status: Status, page: Page, g: Group, stage: Stage, progress: Option<int>)
    requires stage in InGroup(g)
  {
    var slot, runs := status(g), RunsOnPage(status, page, g, stage);
    if PhaseIn(slot, VERDICT_ELIGIBLE_PHASES) && HasOwnCurrent(slot, g) then
      if After(CurrentPos(slot), PosInGroup(stage)) then
        runs || (page.panels(g).computed(stage) == DomError && !IsPausedRow(slot, page, g, stage))
      else
        CurrentPos(slot) == PosInGroup(stage) && !(runs && !ProgressIsOff(slot.progress, progress))
    else !IsAnyRunning(status) && runs
  }

  lemma DrawnCanon(status: Status, page: Page, g: Group, stage: Stage)
    ensures var state := DrawnState(status(g), page, g, stage);
            && (CanonOf(state) == Running <==> RunsOnPage(status, page, g, stage))
            && (CanonOf(state) == Failed <==>
                  && status(g).phase != Some(PhCompleted) && page.panels(g).computed(stage) == DomError
                  && !IsPausedRow(status(g), page, g, stage))
  {
    ShownRunning(status(g), page, g, stage);
    ShownError(status(g), page, g, stage);
  }

  lemma VerdictOfCurrent(status: Status, g: Group, stage: Stage)
    requires stage in InGroup(g)
    ensures GroupOf(stage) == Some(g)
    ensures StageVerdict(stage, status).Says?
            <==> PhaseIn(status(g), VERDICT_ELIGIBLE_PHASES) && HasOwnCurrent(status(g), g)
  {
    GroupListsMatchTable(g);
    VerdictShape(status, g, IndexOf(InGroup(g), stage).value);
  }

  lemma DetectorWithVerdict(status: Status, page: Page, g: Group, stage: Stage, progress: Option<int>)
    requires stage in InGroup(g) && PhaseIn(status(g), VERDICT_ELIGIBLE_PHASES) && HasOwnCurrent(status(g), g)
    ensures GroupOf(stage) == Some(g)
    ensures Disagreement(StageVerdict(stage, status), DomRow(DrawnState(status(g), page, g, stage), progress),
              IsAnyRunning(status)).Some?
            <==> IsReported(status, page, g, stage, progress)
  {
    var current := CurrentStage(status(g)).value;
    GroupListsMatchTable(g);
    OwnPosition(g, stage);
    OwnPosition(g, current);
    var p, c := PosInGroup(stage).value, PosInGroup(current).value;
    DrawnCanon(status, page, g, stage);
    WorkIsRunning(DrawnState(status(g), page, g, stage));
    AgreementAt(status, g, c, p, DomRow(DrawnState(status(g), page, g, stage), progress), IsAnyRunning(status));
  }

  /** The desync detector reports exactly those rows of a drawn page. */
  lemma DetectorOnPage(status: Status, page: Page, g: Group, stage: Stage, progress: Option<int>)
    requires stage in InGroup(g)
    ensures GroupOf(stage) == Some(g)
    ensures Disagreement(StageVerdict(stage, status), DomRow(DrawnState(status(g), page, g, stage), progress),
              IsAnyRunning(status)).Some?
            <==> IsReported(status, page, g, stage, progress)
  {
    VerdictOfCurrent(status, g, stage);
    if StageVerdict(stage, status).Says? {
      DetectorWithVerdict(status, page, g, stage, progress);
    } else {
      DrawnCanon(status, page, g, stage);
    }
  }

  /** A stage of a running group runs on the page exactly when its computed state lights it. */
  lemma RunningGroupRow(status: Status, page: Page, g: Group, stage: Stage)
    requires status(g).phase == Some(PhRunning)
    ensures RunsOnPage(status, page, g, stage) <==> Lights(page, g, stage)
  {
  }

  /** In a running group, every row before the current one that its own data lights is reported; with the current one
      lit as well, I1 fails. */
  lemma StaleRow(status: Status, page: Page, g: Group, stage: Stage, current: Stage)
    requires status(g).phase == Some(PhRunning) && CurrentStage(status(g)) == Some(current)
    requires stage in InGroup(g) && current in InGroup(g) && After(PosInGroup(current), PosInGroup(stage))
    requires Lights(page, g, stage)
    ensures GroupOf(stage) == Some(g)
    ensures Disagreement(StageVerdict(stage, status), DomRow(DrawnState(status(g), page, g, stage), None),
                         IsAnyRunning(status)).Some?
    ensures !page.panels(g).collapsed && Lights(page, g, current) ==> I1Fails(Drawn(status, page), status, g)
  {
    OwnPosition(g, current);
    RunningGroupRow(status, page, g, stage);
    RunningGroupRow(status, page, g, current);
    PageUnderI1(status, page, g);
    DetectorOnPage(status, page, g, stage, None);
  }

  /** A page that lights enrichment from a stale flag while clustering runs: I1 fails, and the detector reports the
      stale row. */
  lemma DoubledPage(status: Status, page: Page)
    requires status(DeepEnrichment).phase == Some(PhRunning) && status(DeepEnrichment).currentStage == Some(Clustering)
    requires var panel := page.panels(DeepEnrichment);
             !panel.collapsed && panel.computed(Enrichment) == DomRunning && panel.computed(Clustering) == DomRunning
    ensures I1Fails(Drawn(status, page), status, DeepEnrichment)
    ensures Disagreement(StageVerdict(Enrichment, status),
                         DomRow(DrawnState(status(DeepEnrichment), page, DeepEnrichment, Enrichment), None),
                         IsAnyRunning(status)).Some?
  {
    DeepPositions();
    StaleRow(status, page, DeepEnrichment, Enrichment, Clustering);
  }
}

/** The vocabulary shared by the watch loop and the UI invariants: the fifteen stages,
    their groups, the pipeline phases and the states a stage row can show. */
module StageTables {
  import opened Prelude

  datatype Group = FastSync | DeepEnrichment | Finalize

  const GROUPS: seq<Group> := [FastSync, DeepEnrichment, Finalize]

  /** A stage id; `OtherStage` is any text outside the published list. */
  datatype Stage =
    | Structural | InferredEdges | Catalogue | Validation | Knowledge
    | Enrichment | GroupReasoning | Clustering | Deepening | DeepKnowledge
    | Atlas | Rules | Concepts | Audit | Antibodies
    | OtherStage(name: string)

  const FAST_SYNC_STAGES := [Structural, InferredEdges, Catalogue, Validation, Knowledge]
  const DEEP_STAGES := [Enrichment, GroupReasoning, Clustering, Deepening, DeepKnowledge]
  const FINALIZE_STAGES := [Atlas, Rules, Concepts, Audit, Antibodies]

  function Tagged(stages: seq<Stage>, g: Group): seq<(Stage, Group)> {
    seq(|stages|, i requires 0 <= i < |stages| => (stages[i], g))
  }

  /** The published order: fast sync, then deep enrichment, then finalize. */
  const STAGE_ORDER: seq<(Stage, Group)> :=
    Tagged(FAST_SYNC_STAGES, FastSync) + Tagged(DEEP_STAGES, DeepEnrichment) + Tagged(FINALIZE_STAGES, Finalize)

  /** The raw `data-stage-state` attribute; `OtherState` is any text outside the table. */
  datatype DomState =
    | DomRunning | DomRerunning | DomRebuilding | DomQueued | DomWaiting | DomIdle | DomNotBuilt
    | DomDisabled | DomPaused | DomComplete | DomStale | DomWarning | DomError
    | OtherState(text: string)

  datatype Canon = Pending | Running | Complete | Failed

  /** `canon_dom_state`: the table, with pending for every text outside it. */
  function CanonOf(s: DomState): Canon {
    match s
    case DomRunning | DomRerunning | DomRebuilding => Running
    case DomQueued | DomWaiting | DomIdle | DomNotBuilt | DomDisabled | DomPaused => Pending
    case DomComplete | DomStale | DomWarning => Complete
    case DomError => Failed
    case OtherState(_) => Pending
  }

  /** The ten phases of the pipeline state machine; `OtherPhase` is any other text. */
  datatype Phase =
    | PhIdle | PhQueued | PhRunning | PhPausing | PhPaused | PhRecovering | PhCancelling
    | PhCompleted | PhCancelled | PhFailed
    | OtherPhase(text: string)

  const PIPELINE_PHASES: set<Phase> :=
    {PhIdle, PhQueued, PhRunning, PhPausing, PhPaused, PhRecovering, PhCancelling, PhCompleted, PhCancelled, PhFailed}
  const TERMINAL_PHASES: set<Phase> := {PhIdle, PhCompleted, PhCancelled, PhFailed}
  const CANCELLABLE_PHASES: set<Phase> := {PhRunning, PhPausing, PhPaused, PhRecovering, PhCancelling, PhQueued}
  const ACTIVE_PIPELINE_PHASES: set<Phase> := {PhRunning, PhPausing, PhPaused, PhRecovering, PhCancelling}
  const VERDICT_ELIGIBLE_PHASES: set<Phase> := {PhRunning, PhPaused}

  /** One group of a status payload. `phase` is None when it is absent or not a string;
      `currentStage` and `stage` are None when absent or empty; `progress` is the percentage
      the slot reports, if any. */
  datatype Slot = Slot(phase: Option<Phase>, currentStage: Option<Stage>, stage: Option<Stage>, progress: Option<int>)

  /** A status payload as the watch loop sees it: a missing group reads as an empty slot. */
  type Status = Group -> Slot

  function CurrentStage(slot: Slot): Option<Stage> {
    if slot.currentStage.Some? then slot.currentStage else slot.stage
  }

  predicate PhaseIn(slot: Slot, phases: set<Phase>) {
    slot.phase.Some? && slot.phase.value in phases
  }

  /** A group whose phase is a text outside the terminal ones still has work in flight. */
  predicate Busy(slot: Slot) {
    slot.phase.Some? && slot.phase.value !in TERMINAL_PHASES
  }

  /** `is_any_running`. */
  predicate IsAnyRunning(status: Status) {
    exists g | g in GROUPS :: Busy(status(g))
  }

  /** The first group, in the fixed order, whose phase is running. */
  function FirstRunning(status: Status, groups: seq<Group>): (r: Option<Group>)
    ensures r.Some? ==> r.value in groups && status(r.value).phase == Some(PhRunning)
    ensures r.None? ==> forall g | g in groups :: status(g).phase != Some(PhRunning)
  {
    if groups == [] then None
    else if status(groups[0]).phase == Some(PhRunning) then Some(groups[0])
    else FirstRunning(status, groups[1..])
  }

  // ---------------------------------------------------------------------------------------
  // Positions in the stage order
  // ---------------------------------------------------------------------------------------

  /** The stages of one group, in publication order. */
  function StagesOf(order: seq<(Stage, Group)>, g: Group): (r: seq<Stage>) {
    if order == [] then []
    else if order[0].1 == g then [order[0].0] + StagesOf(order[1..], g)
    else StagesOf(order[1..], g)
  }

  function InGroup(g: Group): seq<Stage> {
    StagesOf(STAGE_ORDER, g)
  }

  /** `list.index`, None where the list raises ValueError. */
  function IndexOf(s: seq<Stage>, x: Stage): (r: Option<nat>)
    ensures r.None? <==> x !in s
    ensures r.Some? ==> r.value < |s| && s[r.value] == x && x !in s[..r.value]
  {
    if s == [] then None
    else if s[0] == x then Some(0)
    else match IndexOf(s[1..], x)
         case None => None
         case Some(i) =>
           assert s[..i + 1] == [s[0]] + s[1..][..i];
           Some(i + 1)
  }

  /** `STAGE_TO_GROUP.get`. */
  function GroupOf(s: Stage): Option<Group> {
    match s
    case Structural | InferredEdges | Catalogue | Validation | Knowledge => Some(FastSync)
    case Enrichment | GroupReasoning | Clustering | Deepening | DeepKnowledge => Some(DeepEnrichment)
    case Atlas | Rules | Concepts | Audit | Antibodies => Some(Finalize)
    case OtherStage(_) => None
  }

  /** `_stage_pos_in_group`. */
  function PosInGroup(s: Stage): Option<nat> {
    match GroupOf(s)
    case None => None
    case Some(g) => IndexOf(InGroup(g), s)
  }

  lemma {:induction false} StagesOfAppend(a: seq<(Stage, Group)>, b: seq<(Stage, Group)>, g: Group)
    ensures StagesOf(a + b, g) == StagesOf(a, g) + StagesOf(b, g)
  {
    if a == [] {
      assert a + b == b;
    } else {
      assert (a + b)[1..] == a[1..] + b;
      StagesOfAppend(a[1..], b, g);
    }
  }

  lemma {:induction false} StagesOfTagged(stages: seq<Stage>, h: Group, g: Group)
    ensures StagesOf(Tagged(stages, h), g) == if g == h then stages else []
  {
    if stages != [] {
      assert Tagged(stages, h)[1..] == Tagged(stages[1..], h);
      StagesOfTagged(stages[1..], h, g);
    }
  }

  /** Filtering the published order by group gives each group's own list. */
  lemma GroupListsAre(g: Group)
    ensures InGroup(g)
            == match g
                case FastSync => FAST_SYNC_STAGES
                case DeepEnrichment => DEEP_STAGES
                case Finalize => FINALIZE_STAGES
  {
    var fast, deep, final := Tagged(FAST_SYNC_STAGES, FastSync), Tagged(DEEP_STAGES, DeepEnrichment),
        Tagged(FINALIZE_STAGES, Finalize);
    StagesOfAppend(fast + deep, final, g);
    StagesOfAppend(fast, deep, g);
    StagesOfTagged(FAST_SYNC_STAGES, FastSync, g);
    StagesOfTagged(DEEP_STAGES, DeepEnrichment, g);
    StagesOfTagged(FINALIZE_STAGES, Finalize, g);
  }

  /** The lookup table, the per-group lists and the published order tell one story: a stage is in a
      group's list exactly when the table says so, and no list repeats a stage. */
  lemma GroupListsMatchTable(g: Group)
    ensures Distinct(InGroup(g))
    ensures forall s :: s in InGroup(g) <==> GroupOf(s) == Some(g)
  {
    GroupListsAre(g);
    match g
    case FastSync => FastSyncMatches();
    case DeepEnrichment => DeepMatches();
    case Finalize => FinalizeMatches();
  }

  lemma FastSyncMatches()
    ensures Distinct(FAST_SYNC_STAGES) && forall s :: s in FAST_SYNC_STAGES <==> GroupOf(s) == Some(FastSync)
  {
  }

  lemma DeepMatches()
    ensures Distinct(DEEP_STAGES) && forall s :: s in DEEP_STAGES <==> GroupOf(s) == Some(DeepEnrichment)
  {
  }

  lemma FinalizeMatches()
    ensures Distinct(FINALIZE_STAGES) && forall s :: s in FINALIZE_STAGES <==> GroupOf(s) == Some(Finalize)
  {
  }

  /** Every stage of the published order is tagged with the group the table gives it. */
  lemma OrderMatchesTable(i: nat)
    requires i < |STAGE_ORDER|
    ensures GroupOf(STAGE_ORDER[i].0) == Some(STAGE_ORDER[i].1)
  {
    assert |STAGE_ORDER| == 15;
    if i < 5 {
      assert STAGE_ORDER[i] == (FAST_SYNC_STAGES[i], FastSync);
    } else if i < 10 {
      assert STAGE_ORDER[i] == (DEEP_STAGES[i - 5], DeepEnrichment);
    } else {
      assert STAGE_ORDER[i] == (FINALIZE_STAGES[i - 10], Finalize);
    }
  }
}

/** What one session of the runner records, launches and ends with, in terms of the world's answers alone. */
module SessionRecords {
  import opened Prelude
  import opened SessionRunner

  /** The pair at position `i` is still open when a session that started from `m0` comes to it for the first time. */
  ghost predicate IsNew(m0: Manifest, pairs: seq<Key>, i: nat) {
    i < |pairs| && !IsCompleted(m0, pairs[i]) && forall j | 0 <= j < i :: pairs[j] != pairs[i]
  }

  /** The child process of the pair is launched. */
  predicate Launches(a: Answer) { a.kill != BeforeRun && a.ready && !a.orphaned }

  /** The recorded status is the one the child's run directory and return code call for. */
  predicate StatusFits(status: Status, a: Answer) {
    var ran := a.ready && !a.orphaned;
    && (status == Pass <==> ran && a.outcome == Some(Pass) && a.rc == 0)
    && (status == Fail <==> ran && (a.outcome == Some(Fail) || (a.outcome == Some(Pass) && a.rc != 0)))
    && (status == Error <==> ran && (a.outcome == None || a.outcome == Some(Error)))
  }

  /** The pipeline has to be cancelled after the run: it ended badly or with a non-zero code. */
  predicate EndsBadly(a: Answer) { a.rc != 0 || a.outcome !in {Some(Pass), Some(Skipped)} }

  predicate NotesFit(notes: string, a: Answer) {
    if !a.ready || a.orphaned then notes == ClipNotes(a.note)
    else
      var own := if a.outcome == Some(Pass) && a.rc != 0 then a.note + a.rcSuffix else a.note;
      if a.cut1 == NoCut && EndsBadly(a)
          then notes == ClipNotes((if own != "" then own + " \U{00B7} " else "") + "cancel-quiesce: " + a.quiesceNote)
      else notes == own
  }

  /** The session goes on after the pair: nothing kills it and no orphaned barrier ends it. */
  predicate GoesOn(a: Answer) {
    && a.kill != BeforeRun && a.cut1 == NoCut
    && (a.ready ==> !a.orphaned && a.kill == NotKilled && (EndsBadly(a) ==> a.cut2 == NoCut))
  }

  /** Every open pair before position `i` lets the session go on. */
  ghost predicate Reached(m0: Manifest, pairs: seq<Key>, world: nat -> Answer, i: nat) {
    forall j | 0 <= j < i && IsNew(m0, pairs, j) :: GoesOn(world(j))
  }

  ghost predicate Handled(m0: Manifest, pairs: seq<Key>, world: nat -> Answer, i: nat) {
    IsNew(m0, pairs, i) && Reached(m0, pairs, world, i)
  }

  /** A record of the pair is written: the process does not die before that. */
  predicate IsRecorded(a: Answer) { a.kill != BeforeRun && (a.ready && !a.orphaned ==> a.kill == NotKilled) }

  /** The record is that of the pair at position `i`. */
  ghost predicate RecordOf(r: IterResult, pairs: seq<Key>, world: nat -> Answer, i: nat) {
    i < |pairs| && KeyOf(r) == pairs[i] && IsRecorded(world(i)) && StatusFits(r.status, world(i))
    && NotesFit(r.notes, world(i))
  }

  predicate EndsOnOrphan(a: Answer) { a.kill != BeforeRun && a.ready && a.orphaned && a.cut1 == NoCut }

  /** The pairs below position `n` that a session handles and whose answer has the property, by position. */
  ghost function At(m0: Manifest, pairs: seq<Key>, world: nat -> Answer, n: nat, what: Answer -> bool): seq<nat> {
    if n == 0 then []
    else
      At(m0, pairs, world, n - 1, what)
      + if Handled(m0, pairs, world, n - 1) && what(world(n - 1)) then [n - 1] else []
  }

  /** They are in matrix order, and no other pair is among them. */
  lemma {:induction false} AtHolds(m0: Manifest, pairs: seq<Key>, world: nat -> Answer, n: nat, what: Answer -> bool)
    ensures var at := At(m0, pairs, world, n, what);
            && (forall i: nat :: i in at <==> i < n && Handled(m0, pairs, world, i) && what(world(i)))
            && (forall s, t | 0 <= s < t < |at| :: at[s] < at[t])
  {
    if n > 0 {
      AtHolds(m0, pairs, world, n - 1, what);
      var before := At(m0, pairs, world, n - 1, what);
      forall s | 0 <= s < |before| ensures before[s] < n - 1 {
        assert before[s] in before;
      }
    }
  }

  // ---------------------------------------------------------------------------------------
  // What the loop keeps
  // ---------------------------------------------------------------------------------------

  /** The launched children, in matrix order. */
  ghost predicate RanAt(executed: seq<Key>, pairs: seq<Key>, at: seq<nat>) {
    |executed| == |at| && forall t | 0 <= t < |at| :: at[t] < |pairs| && executed[t] == pairs[at[t]]
  }

  /** The records the session started from, then one for each position, in matrix order. */
  ghost predicate RecordsAt(m0: Manifest, m: Manifest, pairs: seq<Key>, world: nat -> Answer, at: seq<nat>) {
    && m0.completed <= m.completed && |m.completed| == |m0.completed| + |at|
    && forall t | 0 <= t < |at| :: RecordOf(m.completed[|m0.completed| + t], pairs, world, at[t])
  }

  ghost predicate OrphanBefore(m0: Manifest, pairs: seq<Key>, world: nat -> Answer, n: nat) {
    exists i: nat :: i < n && Handled(m0, pairs, world, i) && EndsOnOrphan(world(i))
  }

  ghost predicate StopsRight(m0: Manifest, pairs: seq<Key>, world: nat -> Answer, n: nat, stop: Stop) {
    && (stop == Continue <==> Reached(m0, pairs, world, n))
    && (stop == OrphanAbort <==> OrphanBefore(m0, pairs, world, n))
  }

  /** The pairs that no longer are open. */
  ghost predicate Known(m0: Manifest, m: Manifest, pairs: seq<Key>, n: nat) {
    n <= |pairs| && forall k :: IsCompleted(m, k) <==> IsCompleted(m0, k) || k in pairs[..n]
  }

  ghost predicate Inv(m0: Manifest, pairs: seq<Key>, world: nat -> Answer, n: nat, p: Progress) {
    && RanAt(p.executed, pairs, At(m0, pairs, world, n, Launches))
    && RecordsAt(m0, p.memory, pairs, world, At(m0, pairs, world, n, IsRecorded))
    && StopsRight(m0, pairs, world, n, p.stop)
    && (p.stop == Continue ==> Known(m0, p.memory, pairs, n))
  }

  lemma RanMore(executed: seq<Key>, pairs: seq<Key>, at: seq<nat>, n: nat)
    requires RanAt(executed, pairs, at) && n < |pairs|
    ensures RanAt(executed + [pairs[n]], pairs, at + [n])
  {
  }

  lemma RecordsMore(m0: Manifest, m: Manifest, pairs: seq<Key>, world: nat -> Answer, at: seq<nat>, r: IterResult,
                    n: nat)
    requires RecordsAt(m0, m, pairs, world, at) && RecordOf(r, pairs, world, n)
    ensures RecordsAt(m0, Record(m, r), pairs, world, at + [n])
  {
    var more, from := Record(m, r).completed, |m0.completed|;
    forall t | 0 <= t < |at + [n]| ensures RecordOf(more[from + t], pairs, world, (at + [n])[t]) {
      if t < |at| {
        assert more[from + t] == m.completed[from + t];
      }
    }
  }

  lemma KnownMore(m0: Manifest, m: Manifest, pairs: seq<Key>, n: nat, r: IterResult)
    requires n < |pairs| && Known(m0, m, pairs, n) && KeyOf(r) == pairs[n]
    ensures Known(m0, Record(m, r), pairs, n + 1)
  {
    var more := Record(m, r);
    forall k ensures IsCompleted(more, k) <==> IsCompleted(m0, k) || k in pairs[..n + 1] {
      assert IsCompleted(more, k) <==> IsCompleted(m, k) || KeyOf(r) == k by {
        assert r in more.completed;
        assert forall x | x in m.completed :: x in more.completed;
      }
      assert pairs[..n + 1] == pairs[..n] + [pairs[n]];
    }
  }

  /** Nothing changes at a pair that is not open. */
  lemma KnownStays(m0: Manifest, m: Manifest, pairs: seq<Key>, n: nat)
    requires n < |pairs| && Known(m0, m, pairs, n) && IsCompleted(m, pairs[n])
    ensures Known(m0, m, pairs, n + 1) && !IsNew(m0, pairs, n)
  {
    assert pairs[..n + 1] == pairs[..n] + [pairs[n]];
    if !IsCompleted(m0, pairs[n]) {
      var j :| 0 <= j < n && pairs[..n][j] == pairs[n];
      assert pairs[j] == pairs[n];
    }
  }

  lemma OpenIsNew(m0: Manifest, m: Manifest, pairs: seq<Key>, n: nat)
    requires n < |pairs| && Known(m0, m, pairs, n) && !IsCompleted(m, pairs[n])
    ensures IsNew(m0, pairs, n)
  {
    forall j | 0 <= j < n ensures pairs[j] != pairs[n] {
      assert pairs[..n][j] == pairs[j];
    }
  }

  lemma ReachedMore(m0: Manifest, pairs: seq<Key>, world: nat -> Answer, n: nat)
    ensures Reached(m0, pairs, world, n + 1)
            <==> Reached(m0, pairs, world, n) && (IsNew(m0, pairs, n) ==> GoesOn(world(n)))
    ensures OrphanBefore(m0, pairs, world, n + 1)
            <==> OrphanBefore(m0, pairs, world, n) || (Handled(m0, pairs, world, n) && EndsOnOrphan(world(n)))
  {
  }

  /** An orphaned barrier ends the session. */
  lemma OrphanEnds(m0: Manifest, pairs: seq<Key>, world: nat -> Answer, n: nat)
    requires OrphanBefore(m0, pairs, world, n)
    ensures !Reached(m0, pairs, world, n)
  {
    var i: nat :| i < n && Handled(m0, pairs, world, i) && EndsOnOrphan(world(i));
    assert !GoesOn(world(i));
  }

  /** What one visit adds. */
  ghost predicate Adds(p: Progress, q: Progress, k: Key, a: Answer) {
    && q.executed == (if Launches(a) then p.executed + [k] else p.executed)
    && (if IsRecorded(a)
        then exists r ::
            q.memory == Record(p.memory, r) && KeyOf(r) == k && StatusFits(r.status, a) && NotesFit(r.notes, a)
        else q.memory == p.memory)
    && (q.stop == Continue <==> GoesOn(a)) && (q.stop == OrphanAbort <==> EndsOnOrphan(a))
  }

  lemma VisitAdds(p: Progress, k: Key, a: Answer)
    requires p.stop == Continue && !IsCompleted(p.memory, k)
    ensures Adds(p, Visit(p, k, a), k, a)
  {
    if a.kill != BeforeRun {
      if !a.ready || a.orphaned {
        var r := IterResult(k.0, k.1, Skipped, ClipNotes(a.note));
        assert Visit(p, k, a).memory == Record(p.memory, r);
      } else if a.kill != DuringRun {
        var r := ResultOf(k, a);
        var last := if a.cut1 == NoCut && NeedsQuiesce(r, a) then Annotated(r, a) else r;
        assert Visit(p, k, a).memory == Record(p.memory, last);
      }
    }
  }

  lemma VisitKeepsInv(m0: Manifest, pairs: seq<Key>, world: nat -> Answer, n: nat, p: Progress)
    requires n < |pairs| && Inv(m0, pairs, world, n, p) && p.stop == Continue
    ensures Inv(m0, pairs, world, n + 1, Visit(p, pairs[n], world(n)))
  {
    var k, a := pairs[n], world(n);
    ReachedMore(m0, pairs, world, n);
    if IsCompleted(p.memory, k) {
      KnownStays(m0, p.memory, pairs, n);
    } else {
      OpenIsNew(m0, p.memory, pairs, n);
      VisitAdds(p, k, a);
      AddsKeepsInv(m0, pairs, world, n, p, Visit(p, k, a));
    }
  }

  lemma AddsKeepsInv(m0: Manifest, pairs: seq<Key>, world: nat -> Answer, n: nat, p: Progress, q: Progress)
    requires n < |pairs| && Inv(m0, pairs, world, n, p) && p.stop == Continue
    requires IsNew(m0, pairs, n) && Adds(p, q, pairs[n], world(n))
    ensures Inv(m0, pairs, world, n + 1, q)
  {
    assert Handled(m0, pairs, world, n);
    AtMore(m0, pairs, world, n, Launches);
    AtMore(m0, pairs, world, n, IsRecorded);
    if Launches(world(n)) {
      RanMore(p.executed, pairs, At(m0, pairs, world, n, Launches), n);
    }
    AddsRecord(m0, pairs, world, n, p, q, At(m0, pairs, world, n, IsRecorded));
    AddsStop(m0, pairs, world, n, p, q);
  }

  lemma AtMore(m0: Manifest, pairs: seq<Key>, world: nat -> Answer, n: nat, what: Answer -> bool)
    requires Handled(m0, pairs, world, n)
    ensures At(m0, pairs, world, n + 1, what) == At(m0, pairs, world, n, what) + if what(world(n)) then [n] else []
  {
  }

  lemma AddsRecord(m0: Manifest, pairs: seq<Key>, world: nat -> Answer, n: nat, p: Progress, q: Progress, at: seq<nat>)
    requires n < |pairs| && Adds(p, q, pairs[n], world(n))
    requires RecordsAt(m0, p.memory, pairs, world, at) && Known(m0, p.memory, pairs, n)
    ensures RecordsAt(m0, q.memory, pairs, world, at + if IsRecorded(world(n)) then [n] else [])
    ensures q.stop == Continue ==> Known(m0, q.memory, pairs, n + 1)
  {
    if IsRecorded(world(n)) {
      var r :| q.memory == Record(p.memory, r) && KeyOf(r) == pairs[n] && StatusFits(r.status, world(n))
               && NotesFit(r.notes, world(n));
      RecordsMore(m0, p.memory, pairs, world, at, r, n);
      KnownMore(m0, p.memory, pairs, n, r);
    } else {
      assert at + [] == at;
    }
  }

  lemma AddsStop(m0: Manifest, pairs: seq<Key>, world: nat -> Answer, n: nat, p: Progress, q: Progress)
    requires n < |pairs| && StopsRight(m0, pairs, world, n, p.stop) && p.stop == Continue
    requires IsNew(m0, pairs, n) && Adds(p, q, pairs[n], world(n))
    ensures StopsRight(m0, pairs, world, n + 1, q.stop)
  {
    ReachedMore(m0, pairs, world, n);
    if OrphanBefore(m0, pairs, world, n) {
      OrphanEnds(m0, pairs, world, n);
    }
  }

  lemma StoppedKeepsInv(m0: Manifest, pairs: seq<Key>, world: nat -> Answer, n: nat, p: Progress)
    requires n < |pairs| && Inv(m0, pairs, world, n, p) && p.stop != Continue
    ensures Inv(m0, pairs, world, n + 1, p)
  {
    ReachedMore(m0, pairs, world, n);
    NotReached(m0, pairs, world, n, Launches);
    NotReached(m0, pairs, world, n, IsRecorded);
  }

  lemma NotReached(m0: Manifest, pairs: seq<Key>, world: nat -> Answer, n: nat, what: Answer -> bool)
    requires !Reached(m0, pairs, world, n)
    ensures At(m0, pairs, world, n + 1, what) == At(m0, pairs, world, n, what)
  {
  }

  lemma StartKeepsInv(m0: Manifest, d: Disk, pairs: seq<Key>, world: nat -> Answer)
    ensures Inv(m0, pairs, world, 0, Progress(d, m0, [], Continue))
  {
  }

  /** The loop over one more pair. */
  function Step(p: Progress, pairs: seq<Key>, world: nat -> Answer, n: nat): Progress
    requires n < |pairs|
  {
    if p.stop != Continue then p else Visit(p, pairs[n], world(n))
  }

  lemma WalkStep(p: Progress, pairs: seq<Key>, world: nat -> Answer, n: nat)
    requires n < |pairs|
    ensures Walk(p, pairs[..n + 1], world) == Step(Walk(p, pairs[..n], world), pairs, world, n)
  {
    assert pairs[..n + 1][..n] == pairs[..n];
  }

  lemma StepKeepsInv(m0: Manifest, pairs: seq<Key>, world: nat -> Answer, n: nat, p: Progress)
    requires n < |pairs| && Inv(m0, pairs, world, n, p)
    ensures Inv(m0, pairs, world, n + 1, Step(p, pairs, world, n))
  {
    if p.stop == Continue {
      VisitKeepsInv(m0, pairs, world, n, p);
    } else {
      StoppedKeepsInv(m0, pairs, world, n, p);
    }
  }

  lemma {:induction false} WalkKeepsInv(m0: Manifest, d: Disk, pairs: seq<Key>, world: nat -> Answer, n: nat)
    requires n <= |pairs|
    ensures Inv(m0, pairs, world, n, Walk(Progress(d, m0, [], Continue), pairs[..n], world))
  {
    if n == 0 {
      StartKeepsInv(m0, d, pairs, world);
    } else {
      WalkKeepsInv(m0, d, pairs, world, n - 1);
      StepKeepsInv(m0, pairs, world, n - 1, Walk(Progress(d, m0, [], Continue), pairs[..n - 1], world));
      WalkStep(Progress(d, m0, [], Continue), pairs, world, n - 1);
    }
  }

  // ---------------------------------------------------------------------------------------
  // One session
  // ---------------------------------------------------------------------------------------

  /** A session launches, in matrix order, the first occurrence of every pair that has no record yet, as long as no
      earlier one ends it; each one it records gets the status and the notes its own answer calls for; and it completes
      exactly if no pair ends it, and aborts exactly if one of them meets an orphaned barrier. */
  lemma SessionFollowsAnswers(d: Disk, ops: seq<string>, n: int, s: Session)
    requires s.daemonUp && Loaded(d, ops, n, s.mode).Some?
    ensures var m0, pairs, o := Loaded(d, ops, n, s.mode).value, Matrix(ops, n), RunSession(d, ops, n, s);
            && RanAt(o.executed, pairs, At(m0, pairs, s.world, |pairs|, Launches))
            && RecordsAt(m0, o.memory, pairs, s.world, At(m0, pairs, s.world, |pairs|, IsRecorded))
            && (o.ended == Completed <==> Reached(m0, pairs, s.world, |pairs|))
            && (o.ended == AbortedOnOrphan <==> OrphanBefore(m0, pairs, s.world, |pairs|))
  {
    var pairs := Matrix(ops, n);
    WalkKeepsInv(Loaded(d, ops, n, s.mode).value, d, pairs, s.world, |pairs|);
    assert pairs[..|pairs|] == pairs;
  }

  /** The record is that of the first occurrence of its pair. */
  ghost predicate FirstRecord(r: IterResult, pairs: seq<Key>, world: nat -> Answer, i: nat) {
    && i < |pairs| && pairs[i] == KeyOf(r) && (forall j | 0 <= j < i :: pairs[j] != KeyOf(r))
    && StatusFits(r.status, world(i)) && NotesFit(r.notes, world(i))
  }

  lemma NewRecordIsFirst(m0: Manifest, m: Manifest, pairs: seq<Key>, world: nat -> Answer, r: IterResult)
    requires RecordsAt(m0, m, pairs, world, At(m0, pairs, world, |pairs|, IsRecorded))
    requires r in m.completed && r !in m0.completed
    ensures exists i: nat :: FirstRecord(r, pairs, world, i)
  {
    var at := At(m0, pairs, world, |pairs|, IsRecorded);
    var k := PositionOfNew(m0, m, pairs, world, at, r);
    AtHolds(m0, pairs, world, |pairs|, IsRecorded);
    assert at[k] in at;
    HandledIsFirst(m0, pairs, world, at[k], r);
  }

  lemma HandledIsFirst(m0: Manifest, pairs: seq<Key>, world: nat -> Answer, i: nat, r: IterResult)
    requires Handled(m0, pairs, world, i) && RecordOf(r, pairs, world, i)
    ensures FirstRecord(r, pairs, world, i)
  {
  }

  lemma PositionOfNew(m0: Manifest, m: Manifest, pairs: seq<Key>, world: nat -> Answer, at: seq<nat>, r: IterResult)
    returns (k: nat)
    requires RecordsAt(m0, m, pairs, world, at) && r in m.completed && r !in m0.completed
    ensures k < |at| && RecordOf(r, pairs, world, at[k])
  {
    var from := |m0.completed|;
    var x :| 0 <= x < |m.completed| && m.completed[x] == r;
    PrefixHolds(m0.completed, m.completed);
    k := x - from;
    assert m.completed[from + k] == r;
  }

  lemma PrefixHolds(a: seq<IterResult>, b: seq<IterResult>)
    requires a <= b
    ensures forall x | 0 <= x < |a| :: b[x] in a
  {
    forall x | 0 <= x < |a| ensures b[x] in a {
      assert a[x] == b[x];
    }
  }

  /** Every new record belongs to the first position of its pair, and its status is a pass exactly if the child passed
      with return code zero, a fail if it failed or passed with another code, an error if it left no run directory or
      an error, and skipped otherwise. */
  lemma NewRecordsFitAnswers(d: Disk, ops: seq<string>, n: int, s: Session, r: IterResult)
    requires s.daemonUp && Loaded(d, ops, n, s.mode).Some?
    requires r in RunSession(d, ops, n, s).memory.completed
    requires r !in Loaded(d, ops, n, s.mode).value.completed
    ensures exists i: nat :: FirstRecord(r, Matrix(ops, n), s.world, i)
  {
    SessionFollowsAnswers(d, ops, n, s);
    NewRecordIsFirst(Loaded(d, ops, n, s.mode).value, RunSession(d, ops, n, s).memory, Matrix(ops, n), s.world, r);
  }
}

/** The UAT session runner: a job matrix journaled to a manifest by write-then-rename, resumable after
    a crash at any point, with a retry mode and an abort path. */
module SessionRunner {
  import opened Prelude

  datatype Status = Pass | Fail | Skipped | Error
  datatype IterResult = IterResult(op: string, iter: int, status: Status, notes: string)

  /** The part of the manifest the loop reads and writes. */
  datatype Manifest = Manifest(operations: seq<string>, iterations: int, completed: seq<IterResult>)

  type Key = (string, int)

  function KeyOf(r: IterResult): Key { (r.op, r.iter) }

  // ---------------------------------------------------------------------------------------
  // Notes
  // ---------------------------------------------------------------------------------------

  const NOTES_MAX_LEN: nat := 220

  /** `_clip_notes`. */
  function ClipNotes(s: string): (r: string)
    ensures |r| <= NOTES_MAX_LEN
    ensures |s| <= NOTES_MAX_LEN ==> r == s
    ensures |s| > NOTES_MAX_LEN
            ==> |r| == NOTES_MAX_LEN && s[..NOTES_MAX_LEN - 3] == r[..NOTES_MAX_LEN - 3]
                && r[NOTES_MAX_LEN - 3..] == "..."
  {
    if |s| <= NOTES_MAX_LEN then s else s[..NOTES_MAX_LEN - 3] + "..."
  }

  // ---------------------------------------------------------------------------------------
  // The disk
  // ---------------------------------------------------------------------------------------

  /** A file holds a whole manifest, or whatever part of one had been written at a crash. */
  datatype Content = Torn | Whole(manifest: Manifest)
  datatype Disk = Disk(file: Option<Content>, tmp: Option<Content>)

  /** Where, if anywhere, a crash cuts a `persist_manifest` call. */
  datatype Cut = NoCut | WritingTemp | BeforeRename | AfterRename

  function Persisted(d: Disk, m: Manifest, cut: Cut): Disk {
    match cut
    case WritingTemp => d.(tmp := Some(Torn))
    case BeforeRename => d.(tmp := Some(Whole(m)))
    case _ => Disk(Some(Whole(m)), None)
  }

  class FileSystem {
    var file: Option<Content>
    var tmp: Option<Content>

    ghost function State(): Disk
      reads this
    {
      Disk(file, tmp)
    }

    /** `persist_manifest`: write a sibling file, then rename it over the manifest. */
    method Persist(m: Manifest, cut: Cut) returns (crashed: bool)
      modifies this
      ensures State() == Persisted(old(State()), m, cut) && crashed == (cut != NoCut)
      ensures file == if cut == WritingTemp || cut == BeforeRename then old(file) else Some(Whole(m))
    {
      tmp := Some(Torn);
      if cut == WritingTemp {
        return true;
      }
      tmp := Some(Whole(m));
      if cut == BeforeRename {
        return true;
      }
      file, tmp := tmp, None;
      return cut == AfterRename;
    }
  }

  // ---------------------------------------------------------------------------------------
  // One cell of the matrix
  // ---------------------------------------------------------------------------------------

  datatype Kill = NotKilled | BeforeRun | DuringRun

  /** What the world does while one (operation, iteration) pair is handled: the two probes, the barrier
      gate, the status read from the child's run directory (None when there is no directory), its return
      code and the suffix that names the code, the notes, and where the process dies, if it does. */
  datatype Answer = Answer(
    kill: Kill, ready: bool, orphaned: bool, outcome: Option<Status>, rc: int,
    note: string, rcSuffix: string, quiesceNote: string, cut1: Cut, cut2: Cut)

  datatype Stop = Continue | OrphanAbort | Crash

  /** `is_completed`. */
  predicate IsCompleted(m: Manifest, k: Key) {
    exists r | r in m.completed :: KeyOf(r) == k
  }

  function Record(m: Manifest, r: IterResult): Manifest {
    m.(completed := m.completed + [r])
  }

  /** The recorded result of a run: no run directory is an error, and a pass with a non-zero return code is a fail. */
  function ResultOf(k: Key, a: Answer): IterResult {
    match a.outcome
    case None => IterResult(k.0, k.1, Error, a.note)
    case Some(status) =>
      if a.rc != 0 && status == Pass then IterResult(k.0, k.1, Fail, a.note + a.rcSuffix)
      else IterResult(k.0, k.1, status, a.note)
  }

  predicate NeedsQuiesce(r: IterResult, a: Answer) {
    r.status == Error || r.status == Fail || a.rc != 0
  }

  function Annotated(r: IterResult, a: Answer): IterResult {
    r.(notes := ClipNotes((if r.notes != "" then r.notes + " \U{00B7} " else "") + "cancel-quiesce: " + a.quiesceNote))
  }

  datatype Progress = Progress(disk: Disk, memory: Manifest, executed: seq<Key>, stop: Stop)

  /** The body of the matrix loop for one pair. */
  function Visit(p: Progress, k: Key, a: Answer): Progress {
    if IsCompleted(p.memory, k) then p
    else if a.kill == BeforeRun then p.(stop := Crash)
    else if !a.ready || a.orphaned then
      var m := Record(p.memory, IterResult(k.0, k.1, Skipped, ClipNotes(a.note)));
      Progress(Persisted(p.disk, m, a.cut1), m, p.executed,
               if a.cut1 != NoCut then Crash else if !a.ready then Continue else OrphanAbort)
    else
      var ran := p.(executed := p.executed + [k]);
      if a.kill == DuringRun then ran.(stop := Crash)
      else
        var r := ResultOf(k, a);
        var m := Record(p.memory, r);
        var d := Persisted(p.disk, m, a.cut1);
        if a.cut1 != NoCut then Progress(d, m, ran.executed, Crash)
        else if !NeedsQuiesce(r, a) then Progress(d, m, ran.executed, Continue)
        else
          var m2 := Record(p.memory, Annotated(r, a));
          Progress(Persisted(d, m2, a.cut2), m2, ran.executed, if a.cut2 != NoCut then Crash else Continue)
  }

  /** The matrix in loop order. */
  function Row(op: string, n: nat): seq<Key> {
    seq(n, i requires 0 <= i < n => (op, i + 1))
  }

  function AtLeastZero(iterations: int): nat { if iterations < 0 then 0 else iterations }

  function Matrix(ops: seq<string>, iterations: int): seq<Key> {
    if ops == [] then []
    else Matrix(ops[..|ops| - 1], iterations) + Row(ops[|ops| - 1], AtLeastZero(iterations))
  }

  /** The loop over the listed pairs; the world's answers are indexed by position. */
  function Walk(p: Progress, pairs: seq<Key>, world: nat -> Answer): Progress {
    if pairs == [] then p
    else
      var before := Walk(p, pairs[..|pairs| - 1], world);
      if before.stop != Continue then before
      else Visit(before, pairs[|pairs| - 1], world(|pairs| - 1))
  }

  // ---------------------------------------------------------------------------------------
  // A whole session
  // ---------------------------------------------------------------------------------------

  datatype Mode = Fresh | Resume(retryNonPass: bool)

  /** `_apply_retry_non_pass`. */
  function Passes(rs: seq<IterResult>): (r: seq<IterResult>)
    ensures forall x :: x in r <==> x in rs && x.status == Pass
  {
    if rs == [] then []
    else if rs[|rs| - 1].status == Pass then Passes(rs[..|rs| - 1]) + [rs[|rs| - 1]]
    else Passes(rs[..|rs| - 1])
  }

  /** The manifest a session starts from; None when it cannot start (nothing to resume, or not parseable). */
  function Loaded(d: Disk, ops: seq<string>, iterations: int, mode: Mode): Option<Manifest> {
    match mode
    case Fresh => Some(Manifest(ops, iterations, []))
    case Resume(retry) =>
      match d.file
      case Some(Whole(m)) => Some(if retry then m.(completed := Passes(m.completed)) else m)
      case _ => None
  }

  datatype Session = Session(mode: Mode, daemonUp: bool, world: nat -> Answer)
  datatype Ended = Refused | DaemonDown | Crashed | AbortedOnOrphan | Completed
  datatype Outcome = Outcome(disk: Disk, memory: Manifest, executed: seq<Key>, ended: Ended)

  function RunSession(d: Disk, ops: seq<string>, iterations: int, s: Session): Outcome {
    match Loaded(d, ops, iterations, s.mode)
    case None => Outcome(d, Manifest(ops, iterations, []), [], Refused)
    case Some(m) =>
      if !s.daemonUp then Outcome(d, m, [], DaemonDown)
      else
        var p := Walk(Progress(d, m, [], Continue), Matrix(ops, iterations), s.world);
        Outcome(p.disk, p.memory, p.executed,
                match p.stop case Continue => Completed case OrphanAbort => AbortedOnOrphan case Crash => Crashed)
  }

  /** Any number of sessions on one disk; the executed pairs of each, in order. */
  function Campaign(d: Disk, ops: seq<string>, iterations: int, sessions: seq<Session>): (Disk, seq<seq<Key>>) {
    if sessions == [] then (d, [])
    else
      var (before, runs) := Campaign(d, ops, iterations, sessions[..|sessions| - 1]);
      var o := RunSession(before, ops, iterations, sessions[|sessions| - 1]);
      (o.disk, runs + [o.executed])
  }

  // ---------------------------------------------------------------------------------------
  // The program
  // ---------------------------------------------------------------------------------------

  method HasResult(m: Manifest, k: Key) returns (found: bool)
    ensures found == IsCompleted(m, k)
  {
    found := false;
    for i := 0 to |m.completed|
      invariant found <==> exists r | r in m.completed[..i] :: KeyOf(r) == k
    {
      if KeyOf(m.completed[i]) == k {
        assert m.completed[i] in m.completed[..i + 1];
        found := true;
      }
    }
    assert m.completed[..|m.completed|] == m.completed;
  }

  /** One pair, as the loop body runs it against the file system. */
  method RunPair(fs: FileSystem, memory: Manifest, executed: seq<Key>, k: Key, a: Answer)
    returns (m: Manifest, ran: seq<Key>, stop: Stop)
    modifies fs
    ensures Progress(fs.State(), m, ran, stop) == Visit(Progress(old(fs.State()), memory, executed, Continue), k, a)
  {
    m, ran, stop := memory, executed, Continue;
    var done := HasResult(m, k);
    if done {
      return;
    }
    if a.kill == BeforeRun {
      return m, ran, Crash;
    }
    if !a.ready || a.orphaned {
      m := Record(m, IterResult(k.0, k.1, Skipped, ClipNotes(a.note)));
      var crashed := fs.Persist(m, a.cut1);
      stop := if crashed then Crash else if !a.ready then Continue else OrphanAbort;
      return;
    }
    ran := ran + [k];
    if a.kill == DuringRun {
      return m, ran, Crash;
    }
    var result := ResultOf(k, a);
    m := Record(memory, result);
    var crashed := fs.Persist(m, a.cut1);
    if crashed {
      return m, ran, Crash;
    }
    if NeedsQuiesce(result, a) {
      m := Record(memory, Annotated(result, a));
      crashed := fs.Persist(m, a.cut2);
      stop := if crashed then Crash else Continue;
    }
  }

  /** The pairs before an operation and the first `k` of its own. */
  function Upto(done: seq<Key>, op: string, iterations: int, k: nat): seq<Key>
    requires k <= AtLeastZero(iterations)
  {
    done + Row(op, AtLeastZero(iterations))[..k]
  }

  lemma UptoEnds(done: seq<Key>, op: string, iterations: int)
    ensures Upto(done, op, iterations, 0) == done
    ensures Upto(done, op, iterations, AtLeastZero(iterations)) == done + Row(op, AtLeastZero(iterations))
  {
  }

  lemma UptoStep(done: seq<Key>, op: string, iterations: int, iter: nat)
    requires 1 <= iter <= iterations
    ensures var walked := Upto(done, op, iterations, iter);
            && |walked| == |done| + iter && walked[|walked| - 1] == (op, iter)
            && walked[..|walked| - 1] == Upto(done, op, iterations, iter - 1)
  {
  }

  /** One turn of the iteration loop. */
  method RunIteration(fs: FileSystem, memory: Manifest, before: seq<Key>, op: string, ghost iterations: int, iter: nat,
                      a: Answer, ghost world: nat -> Answer, ghost p: Progress, ghost done: seq<Key>)
    returns (m: Manifest, executed: seq<Key>, stop: Stop)
    requires 1 <= iter <= iterations && a == world(|done| + iter - 1)
    requires Progress(fs.State(), memory, before, Continue) == Walk(p, Upto(done, op, iterations, iter - 1), world)
    modifies fs
    ensures Progress(fs.State(), m, executed, stop) == Walk(p, Upto(done, op, iterations, iter), world)
  {
    UptoStep(done, op, iterations, iter);
    m, executed, stop := RunPair(fs, memory, before, (op, iter), a);
  }

  /** The iterations of one operation; stops early when a pair does. `done` are the pairs before them, and
      `count` of its own pairs are walked. */
  method RunRow(fs: FileSystem, memory: Manifest, before: seq<Key>, op: string, iterations: int, position: nat,
                world: nat -> Answer, ghost p: Progress, ghost done: seq<Key>)
    returns (m: Manifest, executed: seq<Key>, stop: Stop, ghost count: nat)
    requires position == |done| && Progress(fs.State(), memory, before, Continue) == Walk(p, done, world)
    modifies fs
    ensures count <= AtLeastZero(iterations) && (stop == Continue ==> count == AtLeastZero(iterations))
    ensures Progress(fs.State(), m, executed, stop) == Walk(p, Upto(done, op, iterations, count), world)
  {
    m, executed, stop, count := memory, before, Continue, 0;
    UptoEnds(done, op, iterations);
    var iter := 1;
    while iter <= iterations
      invariant 1 <= iter == count + 1 && count <= AtLeastZero(iterations) && stop == Continue
      invariant Progress(fs.State(), m, executed, stop) == Walk(p, Upto(done, op, iterations, count), world)
    {
      m, executed,
          stop := RunIteration(fs, m, executed, op, iterations, iter, world(position + iter - 1), world, p, done);
      count := iter;
      if stop != Continue {
        return;
      }
      iter := iter + 1;
    }
  }

  /** The matrix loop of `main`, operation by operation and iteration by iteration. */
  method RunMatrix(fs: FileSystem, start: Manifest, ops: seq<string>, iterations: int, world: nat -> Answer)
    returns (m: Manifest, executed: seq<Key>, stop: Stop)
    modifies fs
    ensures Progress(fs.State(), m, executed, stop)
         == Walk(Progress(old(fs.State()), start, [], Continue), Matrix(ops, iterations), world)
  {
    m, executed, stop := start, [], Continue;
    ghost var p := Progress(old(fs.State()), start, [], Continue);
    var position := 0;
    for i := 0 to |ops|
      invariant stop == Continue && position == |Matrix(ops[..i], iterations)|
      invariant Progress(fs.State(), m, executed, stop) == Walk(p, Matrix(ops[..i], iterations), world)
    {
      assert ops[..i + 1][..i] == ops[..i];
      ghost var count;
      m, executed, stop,
          count := RunRow(fs, m, executed, ops[i], iterations, position, world, p, Matrix(ops[..i], iterations));
      UptoEnds(Matrix(ops[..i], iterations), ops[i], iterations);
      if stop != Continue {
        MatrixPrefix(ops, i + 1, iterations);
        StopIsFinal(p, Upto(Matrix(ops[..i], iterations), ops[i], iterations, count), Matrix(ops, iterations), world);
        return;
      }
      position := position + AtLeastZero(iterations);
    }
    assert ops[..|ops|] == ops;
  }

  lemma {:induction false} MatrixPrefix(ops: seq<string>, i: nat, iterations: int)
    requires i <= |ops|
    ensures Matrix(ops[..i], iterations) <= Matrix(ops, iterations)
    decreases |ops|
  {
    if i < |ops| {
      MatrixPrefix(ops[..|ops| - 1], i, iterations);
      assert ops[..|ops| - 1][..i] == ops[..i];
    } else {
      assert ops[..i] == ops;
    }
  }

  /** Once the loop has stopped, the rest of the matrix is not touched. */
  lemma {:induction false} StopIsFinal(p: Progress, some: seq<Key>, all: seq<Key>, world: nat -> Answer)
    requires some <= all && Walk(p, some, world).stop != Continue
    ensures Walk(p, all, world) == Walk(p, some, world)
    decreases |all|
  {
    if |some| == |all| {
      assert some == all;
    } else {
      StopIsFinal(p, some, all[..|all| - 1], world);
    }
  }

  /** `main` on a given disk: load, prune in memory only, probe, run the matrix. */
  method RunMain(fs: FileSystem, ops: seq<string>, iterations: int, s: Session)
    returns (executed: seq<Key>, memory: Manifest, ended: Ended)
    modifies fs
    ensures Outcome(fs.State(), memory, executed, ended) == RunSession(old(fs.State()), ops, iterations, s)
  {
    executed, memory := [], Manifest(ops, iterations, []);
    if s.mode.Resume? {
      if fs.file.None? || fs.file.value.Torn? {
        return executed, memory, Refused;
      }
      memory := fs.file.value.manifest;
      if s.mode.retryNonPass {
        memory := memory.(completed := Passes(memory.completed));
      }
    }
    if !s.daemonUp {
      return executed, memory, DaemonDown;
    }
    var stop;
    memory, executed, stop := RunMatrix(fs, memory, ops, iterations, s.world);
    ended := match stop case Continue => Completed case OrphanAbort => AbortedOnOrphan case Crash => Crashed;
  }
}

/** Crash and resume safety of the session runner. */
module SessionProofs {
  import opened Prelude
  import opened SessionRunner

  ghost predicate Recorded(m: Manifest, k: Key) {
    exists r :: r in m.completed && KeyOf(r) == k
  }

  /** No pair has two records. */
  ghost predicate OncePerKey(rs: seq<IterResult>) {
    forall i, j | 0 <= i < j < |rs| :: KeyOf(rs[i]) != KeyOf(rs[j])
  }

  /** No pair twice, and every pair inside the matrix. */
  ghost predicate Sound(m: Manifest, pairs: seq<Key>) {
    OncePerKey(m.completed) && forall r | r in m.completed :: KeyOf(r) in pairs
  }

  /** The manifest file is absent or holds one whole sound manifest; it is never torn. */
  ghost predicate SoundDisk(d: Disk, pairs: seq<Key>) {
    d.file.Some? ==> d.file.value.Whole? && Sound(d.file.value.manifest, pairs)
  }

  // ---------------------------------------------------------------------------------------
  // What every step of the matrix loop keeps
  // ---------------------------------------------------------------------------------------

  /** The manifest in memory: sound, and it starts with the records the session started from. */
  ghost predicate MemoryInv(m0: Manifest, pairs: seq<Key>, m: Manifest) {
    Sound(m, pairs) && m0.completed <= m.completed
  }

  /** The disk: the file is as the session found it and nothing has been recorded yet, or it holds a sound
      manifest that starts with the same records; unless the process died, it is the manifest in memory. */
  ghost predicate DiskInv(d0: Disk, m0: Manifest, pairs: seq<Key>, d: Disk, m: Manifest, crashed: bool) {
    || (d.file == d0.file && (crashed || m == m0))
    || (d.file.Some? && d.file.value.Whole? && MemoryInv(m0, pairs, d.file.value.manifest)
        && (crashed || d.file.value.manifest == m))
  }

  /** The pairs executed so far: none was recorded when the session started, none twice, and all are
      recorded by now unless the process died. */
  ghost predicate ExecutedInv(m0: Manifest, executed: seq<Key>, m: Manifest, crashed: bool) {
    && (forall k | k in executed :: !Recorded(m0, k))
    && (!crashed ==> forall k | k in executed :: Recorded(m, k))
    && (forall i, j | 0 <= i < j < |executed| :: executed[i] != executed[j])
  }

  ghost predicate LoopInv(d0: Disk, m0: Manifest, pairs: seq<Key>, p: Progress) {
    && MemoryInv(m0, pairs, p.memory)
    && DiskInv(d0, m0, pairs, p.disk, p.memory, p.stop == Crash)
    && ExecutedInv(m0, p.executed, p.memory, p.stop == Crash)
  }

  lemma RecordedGrows(m: Manifest, r: IterResult)
    ensures Recorded(Record(m, r), KeyOf(r))
    ensures forall k | Recorded(m, k) :: Recorded(Record(m, r), k)
  {
    assert r in Record(m, r).completed;
    forall k | Recorded(m, k) ensures Recorded(Record(m, r), k) {
      var x :| x in m.completed && KeyOf(x) == k;
      assert x in Record(m, r).completed;
    }
  }

  lemma RecordKeepsMemory(m0: Manifest, pairs: seq<Key>, m: Manifest, r: IterResult)
    requires MemoryInv(m0, pairs, m) && !IsCompleted(m, KeyOf(r)) && KeyOf(r) in pairs
    ensures MemoryInv(m0, pairs, Record(m, r))
    ensures !Recorded(m0, KeyOf(r))
  {
    forall i | 0 <= i < |m.completed| ensures KeyOf(m.completed[i]) != KeyOf(r) {
      assert m.completed[i] in m.completed;
    }
    forall x | x in m0.completed ensures KeyOf(x) != KeyOf(r) {
      assert x in m.completed;
    }
  }

  lemma PersistKeepsDisk(d0: Disk, m0: Manifest, pairs: seq<Key>, d: Disk, m: Manifest, m': Manifest, cut: Cut)
    requires DiskInv(d0, m0, pairs, d, m, false) && MemoryInv(m0, pairs, m')
    ensures DiskInv(d0, m0, pairs, Persisted(d, m', cut), m', cut != NoCut)
  {
  }

  lemma ExecutedGrows(m0: Manifest, executed: seq<Key>, m: Manifest, k: Key, r: IterResult, crashed: bool)
    requires ExecutedInv(m0, executed, m, false) && !Recorded(m0, k) && !IsCompleted(m, k) && KeyOf(r) == k
    ensures ExecutedInv(m0, executed + [k], Record(m, r), crashed)
    ensures ExecutedInv(m0, executed + [k], m, true)
    ensures ExecutedInv(m0, executed, Record(m, r), crashed)
  {
    RecordedGrows(m, r);
    forall i | 0 <= i < |executed| ensures executed[i] != k {
      assert executed[i] in executed;
    }
  }

  lemma SkipKeeps(d0: Disk, m0: Manifest, pairs: seq<Key>, p: Progress, k: Key, a: Answer)
    requires LoopInv(d0, m0, pairs, p) && p.stop == Continue && k in pairs && !IsCompleted(p.memory, k)
    requires a.kill != BeforeRun && (!a.ready || a.orphaned)
    ensures LoopInv(d0, m0, pairs, Visit(p, k, a))
  {
    var r := IterResult(k.0, k.1, Skipped, ClipNotes(a.note));
    RecordKeepsMemory(m0, pairs, p.memory, r);
    ExecutedGrows(m0, p.executed, p.memory, k, r, a.cut1 != NoCut);
    PersistKeepsDisk(d0, m0, pairs, p.disk, p.memory, Record(p.memory, r), a.cut1);
  }

  lemma RunKeepsInv(d0: Disk, m0: Manifest, pairs: seq<Key>, p: Progress, k: Key, a: Answer)
    requires LoopInv(d0, m0, pairs, p) && p.stop == Continue && k in pairs && !IsCompleted(p.memory, k)
    requires a.kill != BeforeRun && a.ready && !a.orphaned
    ensures LoopInv(d0, m0, pairs, Visit(p, k, a))
  {
    var r := ResultOf(k, a);
    var m := Record(p.memory, r);
    RecordKeepsMemory(m0, pairs, p.memory, r);
    ExecutedGrows(m0, p.executed, p.memory, k, r, a.cut1 != NoCut);
    PersistKeepsDisk(d0, m0, pairs, p.disk, p.memory, m, a.cut1);
    if a.cut1 == NoCut {
      var r2 := Annotated(r, a);
      RecordKeepsMemory(m0, pairs, p.memory, r2);
      ExecutedGrows(m0, p.executed, p.memory, k, r2, a.cut2 != NoCut);
      PersistKeepsDisk(d0, m0, pairs, Persisted(p.disk, m, a.cut1), m, Record(p.memory, r2), a.cut2);
    }
  }

  lemma VisitKeeps(d0: Disk, m0: Manifest, pairs: seq<Key>, p: Progress, k: Key, a: Answer)
    requires LoopInv(d0, m0, pairs, p) && p.stop == Continue && k in pairs
    ensures LoopInv(d0, m0, pairs, Visit(p, k, a))
  {
    if !IsCompleted(p.memory, k) && a.kill != BeforeRun {
      if !a.ready || a.orphaned {
        SkipKeeps(d0, m0, pairs, p, k, a);
      } else {
        RunKeepsInv(d0, m0, pairs, p, k, a);
      }
    }
  }

  lemma {:induction false} WalkKeeps(d0: Disk, m0: Manifest, pairs: seq<Key>, todo: seq<Key>, world: nat -> Answer)
    requires Sound(m0, pairs)
    requires forall k | k in todo :: k in pairs
    ensures LoopInv(d0, m0, pairs, Walk(Progress(d0, m0, [], Continue), todo, world))
  {
    if todo != [] {
      WalkKeeps(d0, m0, pairs, todo[..|todo| - 1], world);
      var before := Walk(Progress(d0, m0, [], Continue), todo[..|todo| - 1], world);
      if before.stop == Continue {
        VisitKeeps(d0, m0, pairs, before, todo[|todo| - 1], world(|todo| - 1));
      }
    }
  }

  /** A loop that reaches the end has recorded every listed pair. */
  lemma {:induction false} WalkCovers(p: Progress, todo: seq<Key>, world: nat -> Answer)
    requires Walk(p, todo, world).stop == Continue
    ensures forall k | k in todo :: Recorded(Walk(p, todo, world).memory, k)
  {
    if todo != [] {
      var before := Walk(p, todo[..|todo| - 1], world);
      var last := todo[|todo| - 1];
      WalkCovers(p, todo[..|todo| - 1], world);
      VisitRecords(before, last, world(|todo| - 1));
    }
  }

  lemma VisitRecords(p: Progress, k: Key, a: Answer)
    requires p.stop == Continue && Visit(p, k, a).stop == Continue
    ensures Recorded(Visit(p, k, a).memory, k)
    ensures forall x | Recorded(p.memory, x) :: Recorded(Visit(p, k, a).memory, x)
  {
    if !IsCompleted(p.memory, k) {
      var r := ResultOf(k, a);
      RecordedGrows(p.memory, IterResult(k.0, k.1, Skipped, ClipNotes(a.note)));
      RecordedGrows(p.memory, r);
      RecordedGrows(p.memory, Annotated(r, a));
    }
  }

  // ---------------------------------------------------------------------------------------
  // One session
  // ---------------------------------------------------------------------------------------

  lemma OneMoreKey(rs: seq<IterResult>, last: IterResult)
    requires OncePerKey(rs) && forall x | x in rs :: KeyOf(x) != KeyOf(last)
    ensures OncePerKey(rs + [last])
  {
    forall i | 0 <= i < |rs| ensures KeyOf(rs[i]) != KeyOf(last) {
      assert rs[i] in rs;
    }
  }

  lemma {:induction false} PassesOncePerKey(rs: seq<IterResult>)
    requires OncePerKey(rs)
    ensures OncePerKey(Passes(rs))
  {
    if rs != [] {
      var before, last := rs[..|rs| - 1], rs[|rs| - 1];
      PassesOncePerKey(before);
      forall x | x in Passes(before) ensures KeyOf(x) != KeyOf(last) {
        var i :| 0 <= i < |before| && before[i] == x;
        assert rs[i] == x;
      }
      OneMoreKey(Passes(before), last);
    }
  }

  lemma PassesAreSound(m: Manifest, pairs: seq<Key>)
    requires Sound(m, pairs)
    ensures Sound(m.(completed := Passes(m.completed)), pairs)
  {
    PassesOncePerKey(m.completed);
  }

  lemma LoadedIsSound(d: Disk, ops: seq<string>, n: int, mode: Mode)
    requires SoundDisk(d, Matrix(ops, n))
    ensures Loaded(d, ops, n, mode).Some? ==> Sound(Loaded(d, ops, n, mode).value, Matrix(ops, n))
  {
    if mode.Resume? && d.file.Some? {
      PassesAreSound(d.file.value.manifest, Matrix(ops, n));
    }
  }

  /** One session, wherever it crashes: the manifest file stays whole and sound; no pair is executed twice
      nor if its record was kept at the start; and the records kept at the start stay first in the file
      once it is rewritten. */
  lemma SessionIsSafe(d: Disk, ops: seq<string>, n: int, s: Session)
    requires SoundDisk(d, Matrix(ops, n))
    ensures var o := RunSession(d, ops, n, s);
            && SoundDisk(o.disk, Matrix(ops, n))
            && (forall i, j | 0 <= i < j < |o.executed| :: o.executed[i] != o.executed[j])
            && (Loaded(d, ops, n, s.mode).Some? ==>
                  var m0 := Loaded(d, ops, n, s.mode).value;
                  && (forall k | k in o.executed :: !Recorded(m0, k))
                  && (o.disk.file == d.file
                      || (o.disk.file.Some? && m0.completed <= o.disk.file.value.manifest.completed)))
  {
    LoadedIsSound(d, ops, n, s.mode);
    if Loaded(d, ops, n, s.mode).Some? && s.daemonUp {
      WalkKeeps(d, Loaded(d, ops, n, s.mode).value, Matrix(ops, n), Matrix(ops, n), s.world);
    }
  }

  /** A session that ends without a crash or an orphan abort holds every pair of the matrix exactly once, in
      memory and, if there was a file to resume or anything to record, on disk. */
  lemma CompletedMeansExactlyOnce(d: Disk, ops: seq<string>, n: int, s: Session)
    requires SoundDisk(d, Matrix(ops, n)) && RunSession(d, ops, n, s).ended == Completed
    ensures var o := RunSession(d, ops, n, s);
            && Sound(o.memory, Matrix(ops, n))
            && (forall k | k in Matrix(ops, n) :: Recorded(o.memory, k))
            && (o.disk.file == Some(Whole(o.memory))
                || (s.mode == Fresh && Matrix(ops, n) == [] && o.disk.file == d.file))
  {
    LoadedIsSound(d, ops, n, s.mode);
    var m0 := Loaded(d, ops, n, s.mode).value;
    WalkKeeps(d, m0, Matrix(ops, n), Matrix(ops, n), s.world);
    WalkCovers(Progress(d, m0, [], Continue), Matrix(ops, n), s.world);
    var o := RunSession(d, ops, n, s);
    if o.disk.file == d.file && o.memory == m0 {
      NothingRecorded(d, ops, n, s.mode);
    }
  }

  /** If nothing had to be added to a loaded manifest, then retry mode had dropped nothing from it. */
  lemma NothingRecorded(d: Disk, ops: seq<string>, n: int, mode: Mode)
    requires SoundDisk(d, Matrix(ops, n)) && Loaded(d, ops, n, mode).Some?
    requires forall k | k in Matrix(ops, n) :: Recorded(Loaded(d, ops, n, mode).value, k)
    ensures mode.Resume? ==> d.file == Some(Whole(Loaded(d, ops, n, mode).value))
    ensures mode.Fresh? ==> Matrix(ops, n) == []
  {
    var m0 := Loaded(d, ops, n, mode).value;
    if mode.Fresh? {
      if Matrix(ops, n) != [] {
        HasMember(Matrix(ops, n));
      }
    } else if mode.retryNonPass {
      var m := d.file.value.manifest;
      forall r | r in m.completed ensures r.status == Pass {
        assert Recorded(m0, KeyOf(r));
        var x :| x in m0.completed && KeyOf(x) == KeyOf(r);
        SameKeySameRecord(m, Matrix(ops, n), x, r);
      }
      AllPass(m.completed);
    }
  }

  lemma HasMember(pairs: seq<Key>)
    requires pairs != []
    ensures exists k :: k in pairs
  {
    assert pairs[0] in pairs;
  }

  lemma SameKeySameRecord(m: Manifest, pairs: seq<Key>, x: IterResult, y: IterResult)
    requires Sound(m, pairs) && x in m.completed && y in m.completed && KeyOf(x) == KeyOf(y)
    ensures x == y
  {
    var i :| 0 <= i < |m.completed| && m.completed[i] == x;
    var j :| 0 <= j < |m.completed| && m.completed[j] == y;
    assert i == j;
  }

  lemma {:induction false} AllPass(rs: seq<IterResult>)
    requires forall r | r in rs :: r.status == Pass
    ensures Passes(rs) == rs
  {
    if rs != [] {
      var before, last := rs[..|rs| - 1], rs[|rs| - 1];
      assert last in rs;
      AllPass(before);
      assert rs == before + [last];
    }
  }

  // ---------------------------------------------------------------------------------------
  // Any number of sessions
  // ---------------------------------------------------------------------------------------

  /** Crash safety: whatever sessions run and wherever each of them dies, the manifest file is absent or
      one whole manifest with each pair at most once and inside the matrix. */
  lemma {:induction false} ManifestAlwaysSound(d: Disk, ops: seq<string>, n: int, sessions: seq<Session>)
    requires SoundDisk(d, Matrix(ops, n))
    ensures SoundDisk(Campaign(d, ops, n, sessions).0, Matrix(ops, n))
  {
    if sessions != [] {
      var earlier := sessions[..|sessions| - 1];
      ManifestAlwaysSound(d, ops, n, earlier);
      SessionIsSafe(Campaign(d, ops, n, earlier).0, ops, n, sessions[|sessions| - 1]);
    }
  }

  ghost predicate OnDisk(d: Disk, r: IterResult) {
    d.file.Some? && d.file.value.Whole? && r in d.file.value.manifest.completed
  }

  /** A session keeps this record: it resumes, and it is not asked to retry unless the record is a pass. */
  predicate Keeps(s: Session, r: IterResult) {
    s.mode.Resume? && (s.mode.retryNonPass ==> r.status == Pass)
  }

  lemma SessionKeepsRecord(d: Disk, ops: seq<string>, n: int, s: Session, r: IterResult)
    requires SoundDisk(d, Matrix(ops, n)) && OnDisk(d, r) && Keeps(s, r)
    ensures var o := RunSession(d, ops, n, s); OnDisk(o.disk, r) && KeyOf(r) !in o.executed
  {
    SessionIsSafe(d, ops, n, s);
    var m0 := Loaded(d, ops, n, s.mode).value;
    assert r in m0.completed;
    assert Recorded(m0, KeyOf(r));
  }

  /** A result that has reached the disk is never executed again and never lost, over any number of resumed
      sessions that crash anywhere; with retry mode on, this holds for every recorded pass. */
  lemma {:induction false} RecordedNeverReexecuted(d: Disk, ops: seq<string>, n: int, sessions: seq<Session>,
                                                   r: IterResult)
    requires SoundDisk(d, Matrix(ops, n)) && OnDisk(d, r)
    requires forall i | 0 <= i < |sessions| :: Keeps(sessions[i], r)
    ensures var (d1, runs) := Campaign(d, ops, n, sessions);
            OnDisk(d1, r) && |runs| == |sessions| && forall i | 0 <= i < |runs| :: KeyOf(r) !in runs[i]
  {
    if sessions != [] {
      var earlier, last := sessions[..|sessions| - 1], sessions[|sessions| - 1];
      RecordedNeverReexecuted(d, ops, n, earlier, r);
      ManifestAlwaysSound(d, ops, n, earlier);
      SessionKeepsRecord(Campaign(d, ops, n, earlier).0, ops, n, last, r);
    }
  }

  /** A campaign is its first sessions, then the others on the disk they left. */
  lemma {:induction false} CampaignSplit(d: Disk, ops: seq<string>, n: int, a: seq<Session>, b: seq<Session>)
    ensures Campaign(d, ops, n, a + b).0 == Campaign(Campaign(d, ops, n, a).0, ops, n, b).0
    ensures Campaign(d, ops, n, a + b).1 == Campaign(d, ops, n, a).1 + Campaign(Campaign(d, ops, n, a).0, ops, n, b).1
  {
    if b == [] {
      assert a + b == a;
    } else {
      assert (a + b)[..|a + b| - 1] == a + b[..|b| - 1];
      CampaignSplit(d, ops, n, a, b[..|b| - 1]);
    }
  }

  lemma {:induction false} OneRunPerSession(d: Disk, ops: seq<string>, n: int, sessions: seq<Session>)
    ensures |Campaign(d, ops, n, sessions).1| == |sessions|
  {
    if sessions != [] {
      OneRunPerSession(d, ops, n, sessions[..|sessions| - 1]);
    }
  }

  /** Within one campaign, a result that is on the disk after the first `i` sessions is executed in none of the
      later ones and is still there at the end. */
  lemma {:induction false} RecordedOnceInACampaign(d: Disk, ops: seq<string>, n: int, sessions: seq<Session>, i: nat,
                                                   r: IterResult)
    requires SoundDisk(d, Matrix(ops, n)) && i <= |sessions|
    requires OnDisk(Campaign(d, ops, n, sessions[..i]).0, r)
    requires forall j | i <= j < |sessions| :: Keeps(sessions[j], r)
    ensures var (d1, runs) := Campaign(d, ops, n, sessions);
            OnDisk(d1, r) && |runs| == |sessions| && forall j | i <= j < |runs| :: KeyOf(r) !in runs[j]
  {
    assert sessions[..i] + sessions[i..] == sessions;
    CampaignSplit(d, ops, n, sessions[..i], sessions[i..]);
    OneRunPerSession(d, ops, n, sessions[..i]);
    ManifestAlwaysSound(d, ops, n, sessions[..i]);
    var (d0, before) := Campaign(d, ops, n, sessions[..i]);
    RecordedNeverReexecuted(d0, ops, n, sessions[i..], r);
    LaterRuns(before, Campaign(d0, ops, n, sessions[i..]).1, KeyOf(r));
  }

  lemma LaterRuns(before: seq<seq<Key>>, later: seq<seq<Key>>, k: Key)
    requires forall j | 0 <= j < |later| :: k !in later[j]
    ensures forall j | |before| <= j < |before + later| :: k !in (before + later)[j]
  {
  }
}

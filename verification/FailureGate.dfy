/** The persistence and dedup gate that decides which failing invariant observations
    of the watch loop become events. */
module FailureGate {
  import opened Prelude

  /** One invariant result fed to the gate; `failure` holds the evidence signature, None is a pass. */
  datatype Obs = Obs(id: string, failure: Option<string>)

  const INVARIANT_PERSISTENCE_TICKS := 2

  /** What the two dictionaries hold. */
  datatype Memory = Memory(pending: map<string, (string, nat)>, lastEmitted: map<string, string>)

  /** What one observation does to the dictionaries, and whether it produces an event. */
  function Observe(m: Memory, o: Obs, persistence: int): (Memory, bool) {
    match o.failure
    case None => (m.(pending := m.pending - {o.id}), false)
    case Some(sig) =>
      var count := if o.id in m.pending && m.pending[o.id].0 == sig then m.pending[o.id].1 + 1 else 1;
      var m1 := m.(pending := m.pending[o.id := (sig, count)]);
      if count < persistence || (o.id in m.lastEmitted && m.lastEmitted[o.id] == sig) then (m1, false)
      else (m1.(lastEmitted := m1.lastEmitted[o.id := sig]), true)
  }

  class InvariantGate {
    var pending: map<string, (string, nat)>
    var lastEmitted: map<string, string>

    function Held(): Memory
      reads this
    {
      Memory(pending, lastEmitted)
    }

    constructor ()
      ensures Held() == Memory(map[], map[])
    {
      pending, lastEmitted := map[], map[];
    }

    /** `_should_emit_invariant_failure`. */
    method ShouldEmit(id: string, sig: string, persistence: int) returns (emit: bool)
      modifies this
      ensures (Held(), emit) == Observe(old(Held()), Obs(id, Some(sig)), persistence)
    {
      var newCount: nat := 1;
      if id in pending && pending[id].0 == sig {
        newCount := pending[id].1 + 1;
      }
      pending := pending[id := (sig, newCount)];
      if newCount < persistence {
        return false;
      }
      if id in lastEmitted && lastEmitted[id] == sig {
        return false;
      }
      lastEmitted := lastEmitted[id := sig];
      return true;
    }

    /** `_clear_pending_invariant`. */
    method ClearPending(id: string)
      modifies this
      ensures (Held(), false) == Observe(old(Held()), Obs(id, None), 0)
    {
      pending := pending - {id};
    }
  }

  // ---------------------------------------------------------------------------------------
  // The gate as a predicate over its history
  // ---------------------------------------------------------------------------------------

  /** The dictionaries after a whole history of observations. */
  function Replay(h: seq<Obs>, persistence: int): Memory {
    if h == [] then Memory(map[], map[])
    else Observe(Replay(h[..|h| - 1], persistence), h[|h| - 1], persistence).0
  }

  /** Observation `i` of the history produces an event. */
  predicate Emits(h: seq<Obs>, i: nat, persistence: int)
    requires i < |h|
  {
    Observe(Replay(h[..i], persistence), h[i], persistence).1
  }

  /** The results of one invariant, oldest first. */
  function Own(h: seq<Obs>, id: string): seq<Option<string>> {
    if h == [] then []
    else
      var last := h[|h| - 1];
      if last.id == id then Own(h[..|h| - 1], id) + [last.failure] else Own(h[..|h| - 1], id)
  }

  /** The last `n` results, and no longer suffix, are failures with signature `sig`. */
  ghost predicate MaximalRun(own: seq<Option<string>>, sig: string, n: int) {
    && 1 <= n <= |own|
    && (forall k :: |own| - n <= k < |own| ==> own[k] == Some(sig))
    && (n < |own| ==> own[|own| - n - 1] != Some(sig))
  }

  /** The signature carried by the latest event of one invariant. */
  function LatestEvent(h: seq<Obs>, id: string, persistence: int): Option<string> {
    if h == [] then None
    else if h[|h| - 1].id == id && Emits(h, |h| - 1, persistence) then h[|h| - 1].failure
    else LatestEvent(h[..|h| - 1], id, persistence)
  }

  /** A maximal run cannot also be read as a longer one. */
  lemma NoLongerRun(own: seq<Option<string>>, sig: string, m: int, n: int)
    requires MaximalRun(own, sig, m) && m < n
    ensures !MaximalRun(own, sig, n)
  {
    if n <= |own| {
      assert own[|own| - m - 1] != Some(sig);
    }
  }

  /** A further failure with the same signature lengthens the run by one. */
  lemma MaximalRunExtends(own: seq<Option<string>>, sig: string, n: int)
    requires MaximalRun(own, sig, n)
    ensures MaximalRun(own + [Some(sig)], sig, n + 1)
  {
    var longer := own + [Some(sig)];
    if n < |own| {
      assert longer[|longer| - (n + 1) - 1] == own[|own| - n - 1];
    }
  }

  /** The stored count of an invariant is the length of the maximal run of identical failures
      its history ends in, and nothing is stored when the history ends in a pass. */
  lemma {:induction false} PendingIsMaximalRun(h: seq<Obs>, persistence: int, id: string)
    ensures var pending := Replay(h, persistence).pending;
            var own := Own(h, id);
            && (id in pending <==> own != [] && own[|own| - 1].Some?)
            && (id in pending ==> MaximalRun(own, pending[id].0, pending[id].1))
  {
    if h != [] {
      var before, last := h[..|h| - 1], h[|h| - 1];
      PendingIsMaximalRun(before, persistence, id);
      if last.id == id && last.failure.Some? {
        var pending := Replay(before, persistence).pending;
        if id in pending && pending[id].0 == last.failure.value {
          MaximalRunExtends(Own(before, id), pending[id].0, pending[id].1);
        }
      }
    }
  }

  /** Once a run has reached the persistence length its signature is the last one emitted. */
  lemma {:induction false} LongRunWasEmitted(h: seq<Obs>, persistence: int, id: string)
    ensures var m := Replay(h, persistence);
            id in m.pending && m.pending[id].1 >= persistence
            ==> id in m.lastEmitted && m.lastEmitted[id] == m.pending[id].0
  {
    if h != [] {
      LongRunWasEmitted(h[..|h| - 1], persistence, id);
    }
  }

  /** The history grows by one observation at a time. */
  lemma ReplayStep(h: seq<Obs>, n: nat, persistence: int)
    requires n < |h|
    ensures Replay(h[..n + 1], persistence) == Observe(Replay(h[..n], persistence), h[n], persistence).0
    ensures Own(h[..n + 1], h[n].id) == Own(h[..n], h[n].id) + [h[n].failure]
  {
    assert h[..n + 1][..n] == h[..n];
  }

  /** `lastEmitted` holds the signature of the latest event of each invariant, and nothing else. */
  lemma {:induction false} LastEmittedIsLatest(h: seq<Obs>, persistence: int, id: string)
    ensures var last := Replay(h, persistence).lastEmitted;
            LatestEvent(h, id, persistence) == if id in last then Some(last[id]) else None
  {
    if h != [] {
      LastEmittedIsLatest(h[..|h| - 1], persistence, id);
    }
  }

  /** An event is emitted exactly at the observation that brings a run of identical failures to the
      persistence length, unless the latest event of that invariant had the same signature. */
  lemma EmissionRule(h: seq<Obs>, i: nat, persistence: int)
    requires i < |h|
    ensures Emits(h, i, persistence) <==>
            && h[i].failure.Some?
            && MaximalRun(Own(h[..i + 1], h[i].id), h[i].failure.value, Max(1, persistence))
            && LatestEvent(h[..i], h[i].id, persistence) != h[i].failure
  {
    var id := h[i].id;
    ReplayStep(h, i, persistence);
    PendingIsMaximalRun(h[..i + 1], persistence, id);
    LongRunWasEmitted(h[..i], persistence, id);
    LastEmittedIsLatest(h[..i], persistence, id);
    if h[i].failure.Some? {
      var sig := h[i].failure.value;
      var own := Own(h[..i + 1], id);
      var count := Replay(h[..i + 1], persistence).pending[id].1;
      if count < Max(1, persistence) {
        NoLongerRun(own, sig, count, Max(1, persistence));
      } else if Max(1, persistence) < count && MaximalRun(own, sig, Max(1, persistence)) {
        NoLongerRun(own, sig, Max(1, persistence), count);
        assert false;
      }
    }
  }

  /** With no event of its invariant in between, an event stays the latest one. */
  lemma {:induction false} LatestEventStays(h: seq<Obs>, j: nat, i: nat, persistence: int)
    requires j < i <= |h| && Emits(h, j, persistence)
    requires forall k: nat | j < k < i && h[k].id == h[j].id :: !Emits(h, k, persistence)
    ensures LatestEvent(h[..i], h[j].id, persistence) == h[j].failure
    decreases i - j
  {
    assert h[..i][..i - 1] == h[..i - 1];
    if j < i - 1 {
      LatestEventStays(h, j, i - 1, persistence);
    }
  }

  /** Two successive events of one invariant never carry the same signature. */
  lemma ConsecutiveEmissionsDiffer(h: seq<Obs>, j: nat, i: nat, persistence: int)
    requires j < i < |h| && Emits(h, j, persistence) && Emits(h, i, persistence) && h[j].id == h[i].id
    requires forall k: nat | j < k < i && h[k].id == h[j].id :: !Emits(h, k, persistence)
    ensures h[j].failure.Some? && h[i].failure.Some? && h[j].failure != h[i].failure
  {
    LatestEventStays(h, j, i, persistence);
    EmissionRule(h, i, persistence);
    EmissionRule(h, j, persistence);
  }

  // ---------------------------------------------------------------------------------------
  // Event streams that never repeat themselves
  // ---------------------------------------------------------------------------------------

  /** The latest value a stream of keyed events carries for `key`. */
  function LatestOf<K(==), V>(events: seq<(K, V)>, key: K): Option<V> {
    if events == [] then None
    else if events[|events| - 1].0 == key then Some(events[|events| - 1].1)
    else LatestOf(events[..|events| - 1], key)
  }

  /** No event carries the value its key carried the last time. */
  ghost predicate NeverRepeats<K, V>(events: seq<(K, V)>) {
    forall i | 0 <= i < |events| :: LatestOf(events[..i], events[i].0) != Some(events[i].1)
  }

  lemma NeverRepeatsStep<K, V>(events: seq<(K, V)>, key: K, value: V)
    requires NeverRepeats(events) && LatestOf(events, key) != Some(value)
    ensures NeverRepeats(events + [(key, value)])
    ensures forall k :: LatestOf(events + [(key, value)], k) == if k == key then Some(value) else LatestOf(events, k)
  {
    var longer := events + [(key, value)];
    assert longer[..|longer| - 1] == events;
    forall i | 0 <= i < |longer| ensures LatestOf(longer[..i], longer[i].0) != Some(longer[i].1) {
      assert longer[..i] == events[..i];
      assert events[..|events|] == events;
    }
  }

  /** The events a history produces, in order. */
  function EmittedBy(h: seq<Obs>, persistence: int): seq<(string, string)> {
    if h == [] then []
    else
      var before, last := EmittedBy(h[..|h| - 1], persistence), h[|h| - 1];
      if Emits(h, |h| - 1, persistence) && last.failure.Some? then before + [(last.id, last.failure.value)] else before
  }

  /** For every history, the events of one invariant never carry the same signature twice in a row,
      and the remembered signatures are those of the latest events. */
  lemma {:induction false} EventsNeverRepeat(h: seq<Obs>, persistence: int)
    ensures NeverRepeats(EmittedBy(h, persistence))
    ensures forall id :: LatestOf(EmittedBy(h, persistence), id) == LatestEvent(h, id, persistence)
  {
    if h != [] {
      var before, last := h[..|h| - 1], h[|h| - 1];
      EventsNeverRepeat(before, persistence);
      if Emits(h, |h| - 1, persistence) {
        LastEmittedIsLatest(before, persistence, last.id);
        NeverRepeatsStep(EmittedBy(before, persistence), last.id, last.failure.value);
      }
    }
  }
}

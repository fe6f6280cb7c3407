/** Seed promotion and the temporal migration of the concept table: two scripts that rewrite rows in place and
    may be run in any order and any number of times. */
module SeedPromotion {
  import opened Prelude
  import opened Orders
  import opened Text

  /** A row of the table. An absent column reads as null. */
  datatype Row = Row(
    id: string,
    project: string,
    category: Option<string>,
    title: string,
    confidence: Option<real>,
    anchors: Option<string>,
    status: string,
    assertion: Option<string>,
    validFrom: Option<real>,
    updatedAt: Option<real>,
    reviewedAt: Option<real>,
    reviewStatus: Option<string>)

  datatype Query = Query(project: string, category: string, minConfidence: real)

  // ---------------------------------------------------------------------------------------
  // Finding candidates
  // ---------------------------------------------------------------------------------------

  /** The `WHERE` clause. */
  predicate IsEligible(r: Row, q: Query) {
    && r.status == "seed" && r.project == q.project && r.category == Some(q.category)
    && r.confidence.Some? && r.confidence.value >= q.minConfidence
    && r.anchors.Some? && r.anchors.value != "" && r.anchors.value != "[]"
  }

  function Eligible(rows: seq<Row>, q: Query): seq<Row> {
    if rows == [] then []
    else
      var before, last := Eligible(rows[..|rows| - 1], q), rows[|rows| - 1];
      if IsEligible(last, q) then before + [last] else before
  }

  /** The `ORDER BY` clause: confidence descending, then title ascending. */
  predicate Ahead(a: Row, b: Row) {
    Score(a) > Score(b) || (Score(a) == Score(b) && TextLeq(a.title, b.title))
  }

  /** No row without a confidence is ever ranked. */
  function Score(r: Row): real { if r.confidence.Some? then r.confidence.value else 0.0 }

  function Ranking(rows: seq<Row>, q: Query): seq<Row> { Sort(Eligible(rows, q), Ahead) }

  /** The `LIMIT` clause; a negative limit is none. */
  function Limited<T>(s: seq<T>, limit: int): (r: seq<T>)
    ensures r <= s
  {
    if 0 <= limit <= |s| then s[..limit] else s
  }

  function Ids(rows: seq<Row>): (r: seq<string>)
    ensures |r| == |rows| && forall i | 0 <= i < |r| :: r[i] == rows[i].id
  {
    if rows == [] then [] else Ids(rows[..|rows| - 1]) + [rows[|rows| - 1].id]
  }

  // ---------------------------------------------------------------------------------------
  // Promoting
  // ---------------------------------------------------------------------------------------

  predicate IsBlank(s: string) { forall c | c in s :: IsSpace(c) }

  function NewAssertion(r: Row): string {
    if r.assertion.Some? && !IsBlank(r.assertion.value) then r.assertion.value
    else r.title + " (synthetic POC assertion; replace with human-written)"
  }

  /** The first seed row with an id. */
  function SeedAt(rows: seq<Row>, id: string): (r: Option<nat>)
    ensures r.Some? ==> r.value < |rows| && rows[r.value].id == id && rows[r.value].status == "seed"
    ensures r.None? ==> forall i | 0 <= i < |rows| :: !(rows[i].id == id && rows[i].status == "seed")
  {
    if rows == [] then None
    else
      var before := SeedAt(rows[..|rows| - 1], id);
      if before.Some? then before
      else if rows[|rows| - 1].id == id && rows[|rows| - 1].status == "seed" then Some(|rows| - 1)
      else None
  }

  function Activated(r: Row, assertion: string, now: real): Row {
    r.(status := "active", assertion := Some(assertion), validFrom := Some(now), updatedAt := Some(now))
  }

  /** The `UPDATE` of one id. */
  function PromoteOne(rows: seq<Row>, id: string, now: real): (r: seq<Row>)
    ensures |r| == |rows|
  {
    var at := SeedAt(rows, id);
    if at.None? then rows
    else
      var assertion := NewAssertion(rows[at.value]);
      seq(|rows|, i requires 0 <= i < |rows| =>
        if rows[i].id == id && rows[i].status == "seed" then Activated(rows[i], assertion, now) else rows[i])
  }

  function PromoteAll(rows: seq<Row>, ids: seq<string>, now: real): (r: seq<Row>)
    ensures |r| == |rows|
  {
    if ids == [] then rows else PromoteOne(PromoteAll(rows, ids[..|ids| - 1], now), ids[|ids| - 1], now)
  }

  function PromotedCount(rows: seq<Row>, ids: seq<string>, now: real): nat {
    if ids == [] then 0
    else
      PromotedCount(rows, ids[..|ids| - 1], now)
      + if SeedAt(PromoteAll(rows, ids[..|ids| - 1], now), ids[|ids| - 1]).Some? then 1 else 0
  }

  /** One more id. */
  lemma PromoteAllStep(rows: seq<Row>, ids: seq<string>, k: nat, now: real)
    requires k < |ids|
    ensures var before := PromoteAll(rows, ids[..k], now);
            && PromoteAll(rows, ids[..k + 1], now) == PromoteOne(before, ids[k], now)
            && PromotedCount(rows, ids[..k + 1], now)
               == PromotedCount(rows, ids[..k], now) + (if SeedAt(before, ids[k]).Some? then 1 else 0)
            && WouldPromote(rows, ids[..k + 1])
                == WouldPromote(rows, ids[..k]) + (if SeedAt(rows, ids[k]).Some? then 1 else 0)
  {
    assert ids[..k + 1][..k] == ids[..k];
  }

  /** Under a dry run the table stays, so an id counts as often as it is listed. */
  function WouldPromote(rows: seq<Row>, ids: seq<string>): nat {
    if ids == [] then 0
    else WouldPromote(rows, ids[..|ids| - 1]) + if SeedAt(rows, ids[|ids| - 1]).Some? then 1 else 0
  }

  // ---------------------------------------------------------------------------------------
  // Migrating
  // ---------------------------------------------------------------------------------------

  const NEW_COLUMNS := {"reviewed_at", "review_status"}

  /** The two backfill updates on one row. */
  function Backfilled(r: Row): Row {
    r.(reviewStatus := if r.reviewStatus.None? then Some("current") else r.reviewStatus,
       reviewedAt := if r.status == "active" && r.reviewedAt.None? then r.validFrom else r.reviewedAt)
  }

  function Migrated(rows: seq<Row>): (r: seq<Row>)
    ensures |r| == |rows| && forall i | 0 <= i < |r| :: r[i] == Backfilled(rows[i])
  {
    seq(|rows|, i requires 0 <= i < |rows| => Backfilled(rows[i]))
  }

  // ---------------------------------------------------------------------------------------
  // The database
  // ---------------------------------------------------------------------------------------

  class Database {
    var columns: set<string>
    var rows: seq<Row>

    /** `find_candidates`. */
    method FindCandidates(q: Query, limit: int) returns (found: seq<Row>)
      ensures found == Limited(Ranking(rows, q), limit)
      ensures AreTheBest(found, rows, q, limit)
    {
      var eligible := [];
      for i := 0 to |rows|
        invariant eligible == Eligible(rows[..i], q)
      {
        assert rows[..i + 1][..i] == rows[..i];
        if IsEligible(rows[i], q) {
          eligible := eligible + [rows[i]];
        }
      }
      assert rows[..|rows|] == rows;
      found := Limited(Sort(eligible, Ahead), limit);
      FoundAreTheBest(rows, q, limit);
    }

    /** `promote`. */
    method Promote(ids: seq<string>, now: real, dryRun: bool) returns (count: nat)
      modifies `rows
      ensures rows == if dryRun then old(rows) else PromoteAll(old(rows), ids, now)
      ensures count == if dryRun then WouldPromote(old(rows), ids) else PromotedCount(old(rows), ids, now)
    {
      count := 0;
      for k := 0 to |ids|
        invariant rows == if dryRun then old(rows) else PromoteAll(old(rows), ids[..k], now)
        invariant count == if dryRun then WouldPromote(old(rows), ids[..k]) else PromotedCount(old(rows), ids[..k], now)
      {
        PromoteAllStep(old(rows), ids, k, now);
        if SeedAt(rows, ids[k]).Some? {
          if !dryRun {
            rows := PromoteOne(rows, ids[k], now);
          }
          count := count + 1;
        }
      }
      assert ids[..|ids|] == ids;
    }

    /** `migrate`. */
    method Migrate(dryRun: bool) returns (added: nat)
      modifies this
      ensures added == |NEW_COLUMNS - old(columns)|
      ensures dryRun ==> rows == old(rows) && columns == old(columns)
      ensures !dryRun ==> rows == Migrated(old(rows)) && columns == old(columns) + NEW_COLUMNS
    {
      var toAdd := NEW_COLUMNS - columns;
      added := |toAdd|;
      if !dryRun {
        columns := columns + toAdd;
        SetReviewStatus();
        SetReviewedAt();
        assert rows == Migrated(old(rows));
      }
    }

    method SetReviewStatus()
      modifies `rows
      ensures |rows| == |old(rows)|
      ensures forall i | 0 <= i < |rows| ::
                rows[i] == if old(rows)[i].reviewStatus.None? then old(rows)[i].(reviewStatus := Some("current"))
                    else old(rows)[i]
    {
      for i := 0 to |rows|
        invariant |rows| == |old(rows)|
        invariant forall j | i <= j < |rows| :: rows[j] == old(rows)[j]
        invariant forall j | 0 <= j < i ::
                    rows[j] == if old(rows)[j].reviewStatus.None? then old(rows)[j].(reviewStatus := Some("current"))
                        else old(rows)[j]
      {
        if rows[i].reviewStatus.None? {
          rows := rows[i := rows[i].(reviewStatus := Some("current"))];
        }
      }
    }

    method SetReviewedAt()
      modifies `rows
      ensures |rows| == |old(rows)|
      ensures forall i | 0 <= i < |rows| ::
                rows[i] == if old(rows)[i].status == "active" && old(rows)[i].reviewedAt.None?
                           then old(rows)[i].(reviewedAt := old(rows)[i].validFrom) else old(rows)[i]
    {
      for i := 0 to |rows|
        invariant |rows| == |old(rows)|
        invariant forall j | i <= j < |rows| :: rows[j] == old(rows)[j]
        invariant forall j | 0 <= j < i ::
                    rows[j] == if old(rows)[j].status == "active" && old(rows)[j].reviewedAt.None?
                               then old(rows)[j].(reviewedAt := old(rows)[j].validFrom) else old(rows)[j]
      {
        if rows[i].status == "active" && rows[i].reviewedAt.None? && rows[i].validFrom.Some? {
          rows := rows[i := rows[i].(reviewedAt := rows[i].validFrom)];
        }
      }
    }
  }

  // ---------------------------------------------------------------------------------------
  // What promoting does to the table
  // ---------------------------------------------------------------------------------------

  ghost predicate UniqueIds(rows: seq<Row>) {
    forall i, j | 0 <= i < j < |rows| :: rows[i].id != rows[j].id
  }

  /** With unique ids, promoting activates exactly the listed seeds, each with its own assertion. */
  lemma {:induction false} PromoteAllAt(rows: seq<Row>, ids: seq<string>, now: real)
    requires UniqueIds(rows)
    ensures var r := PromoteAll(rows, ids, now);
            forall i | 0 <= i < |rows| ::
              r[i] == PromotedIn(rows[i], ids, now)
  {
    if ids != [] {
      var earlier, id := ids[..|ids| - 1], ids[|ids| - 1];
      var before := PromoteAll(rows, earlier, now);
      PromoteAllAt(rows, earlier, now);
      IdsStay(rows, before);
      PromoteOneAt(before, id, now);
      forall i | 0 <= i < |rows| ensures PromoteAll(rows, ids, now)[i] == PromotedIn(rows[i], ids, now) {
        OneMoreId(rows[i], ids, now);
      }
    }
  }

  function PromotedIn(r: Row, ids: seq<string>, now: real): Row {
    if r.status == "seed" && r.id in ids then Activated(r, NewAssertion(r), now) else r
  }

  lemma OneMoreId(r: Row, ids: seq<string>, now: real)
    requires ids != []
    ensures var earlier, id := ids[..|ids| - 1], ids[|ids| - 1];
            var before := PromotedIn(r, earlier, now);
            PromotedIn(r, ids, now)
            == if before.status == "seed" && before.id == id then Activated(before, NewAssertion(before), now)
                else before
  {
    assert ids == ids[..|ids| - 1] + [ids[|ids| - 1]];
  }

  lemma IdsStay(rows: seq<Row>, after: seq<Row>)
    requires UniqueIds(rows) && |after| == |rows| && forall i | 0 <= i < |rows| :: after[i].id == rows[i].id
    ensures UniqueIds(after)
  {
  }

  lemma PromoteOneAt(rows: seq<Row>, id: string, now: real)
    requires UniqueIds(rows)
    ensures var r := PromoteOne(rows, id, now);
            forall i | 0 <= i < |rows| ::
              r[i] == if rows[i].status == "seed" && rows[i].id == id
                  then Activated(rows[i], NewAssertion(rows[i]), now) else rows[i]
  {
  }

  /** The row has become active at the given time and is otherwise unchanged; an assertion with any visible character
      is kept, and in place of every other one stands the title with a remark. */
  ghost predicate IsPromotion(a: Row, b: Row, now: real) {
    && b == a.(status := "active", assertion := b.assertion, validFrom := Some(now), updatedAt := Some(now))
    && if exists text: string, i: nat :: a.assertion == Some(text) && i < |text| && !IsSpace(text[i])
       then b.assertion == a.assertion
       else b.assertion == Some(a.title + " (synthetic POC assertion; replace with human-written)")
  }

  lemma ActivatedIsPromotion(a: Row, now: real)
    ensures IsPromotion(a, Activated(a, NewAssertion(a), now), now)
  {
    if a.assertion.Some? && !IsBlank(a.assertion.value) {
      var text := a.assertion.value;
      var c :| c in text && !IsSpace(c);
      var i: nat :| i < |text| && text[i] == c;
      assert a.assertion == Some(text) && !IsSpace(text[i]);
    }
  }

  /** Promoting the listed ids promotes exactly their seeds. */
  lemma PromotesExactlyTheListed(rows: seq<Row>, ids: seq<string>, now: real, i: nat)
    requires UniqueIds(rows) && i < |rows|
    ensures var b := PromoteAll(rows, ids, now)[i];
            if rows[i].status == "seed" && rows[i].id in ids then IsPromotion(rows[i], b, now) else b == rows[i]
  {
    PromoteAllAt(rows, ids, now);
    ActivatedIsPromotion(rows[i], now);
  }

  /** Promoting the same ids again changes nothing and counts nothing. */
  lemma PromoteTwice(rows: seq<Row>, ids: seq<string>, first: real, second: real)
    requires UniqueIds(rows)
    ensures var once := PromoteAll(rows, ids, first);
            PromoteAll(once, ids, second) == once && PromotedCount(once, ids, second) == 0
  {
    var once := PromoteAll(rows, ids, first);
    PromoteAllAt(rows, ids, first);
    NothingLeft(once, ids, second);
  }

  lemma {:induction false} NothingLeft(rows: seq<Row>, ids: seq<string>, now: real)
    requires forall i | 0 <= i < |rows| :: rows[i].status == "seed" ==> rows[i].id !in ids
    ensures PromoteAll(rows, ids, now) == rows && PromotedCount(rows, ids, now) == 0
  {
    if ids != [] {
      NothingLeft(rows, ids[..|ids| - 1], now);
      assert ids[|ids| - 1] in ids;
    }
  }

  /** No id of a seed is listed twice. */
  ghost predicate SeedsListedOnce(rows: seq<Row>, ids: seq<string>) {
    forall i, j | 0 <= i < j < |ids| && ids[i] == ids[j] :: SeedAt(rows, ids[i]).None?
  }

  lemma StillSeed(rows: seq<Row>, ids: seq<string>, now: real, id: string)
    requires UniqueIds(rows)
    ensures SeedAt(PromoteAll(rows, ids, now), id).Some? <==> SeedAt(rows, id).Some? && id !in ids
  {
    PromoteAllAt(rows, ids, now);
    var after := PromoteAll(rows, ids, now);
    if SeedAt(after, id).Some? {
      assert after[SeedAt(after, id).value] == PromotedIn(rows[SeedAt(after, id).value], ids, now);
    }
    if SeedAt(rows, id).Some? && id !in ids {
      assert after[SeedAt(rows, id).value] == PromotedIn(rows[SeedAt(rows, id).value], ids, now);
    }
  }

  /** A dry run never counts fewer seeds than the promotion, and as many exactly if no seed is listed twice. */
  lemma {:induction false} DryRunCounts(rows: seq<Row>, ids: seq<string>, now: real)
    requires UniqueIds(rows)
    ensures WouldPromote(rows, ids) >= PromotedCount(rows, ids, now)
    ensures WouldPromote(rows, ids) == PromotedCount(rows, ids, now) <==> SeedsListedOnce(rows, ids)
  {
    if ids != [] {
      var before, last := ids[..|ids| - 1], ids[|ids| - 1];
      DryRunCounts(rows, before, now);
      StillSeed(rows, before, now, last);
      ListedOnceMore(rows, before, last);
      assert ids == before + [last];
    }
  }

  lemma ListedOnceMore(rows: seq<Row>, before: seq<string>, last: string)
    ensures SeedsListedOnce(rows, before + [last])
            <==> SeedsListedOnce(rows, before) && (last in before ==> SeedAt(rows, last).None?)
  {
    var ids := before + [last];
    if SeedsListedOnce(rows, ids) {
      assert forall i | 0 <= i < |before| :: ids[i] == before[i];
      if last in before {
        var i :| 0 <= i < |before| && before[i] == last;
        assert ids[i] == ids[|before|];
      }
    }
  }

  // ---------------------------------------------------------------------------------------
  // Repeated rounds drain the ranking
  // ---------------------------------------------------------------------------------------

  /** One run of the script: find, then promote what was found. */
  function Round(rows: seq<Row>, q: Query, limit: int, now: real): seq<Row> {
    PromoteAll(rows, Ids(Limited(Ranking(rows, q), limit)), now)
  }

  /** The runs of the script, at the given times. */
  function Rounds(rows: seq<Row>, q: Query, limit: int, times: seq<real>): seq<Row> {
    if times == [] then rows
    else Round(Rounds(rows, q, limit, times[..|times| - 1]), q, limit, times[|times| - 1])
  }

  function Without(rows: seq<Row>, ids: seq<string>): seq<Row> {
    if rows == [] then []
    else
      var before, last := Without(rows[..|rows| - 1], ids), rows[|rows| - 1];
      if last.id in ids then before else before + [last]
  }

  /** Promoting takes the promoted rows out of the eligible ones. */
  lemma {:induction false} EligibleAfter(rows: seq<Row>, after: seq<Row>, q: Query, ids: seq<string>, now: real)
    requires |after| == |rows|
    requires forall i | 0 <= i < |rows| ::
               after[i] == if rows[i].status == "seed" && rows[i].id in ids
                   then Activated(rows[i], NewAssertion(rows[i]), now) else rows[i]
    ensures Eligible(after, q) == Without(Eligible(rows, q), ids)
  {
    if rows != [] {
      var n := |rows| - 1;
      EligibleAfter(rows[..n], after[..n], q, ids, now);
      if IsEligible(rows[n], q) {
        var e := Eligible(rows[..n], q) + [rows[n]];
        assert e[..|e| - 1] == Eligible(rows[..n], q);
      }
    }
  }

  // ---------------------------------------------------------------------------------------
  // The ranking
  // ---------------------------------------------------------------------------------------

  lemma AheadIsOrder()
    ensures IsOrder(Ahead)
  {
    forall a: Row, b: Row ensures Ahead(a, b) || Ahead(b, a) {
      TextLeqTotal(a.title, b.title);
    }
    forall a: Row, b: Row, c: Row | Ahead(a, b) && Ahead(b, c) ensures Ahead(a, c) {
      if Score(a) == Score(b) == Score(c) {
        TextLeqTransitive(a.title, b.title, c.title);
      }
    }
  }

  /** No two eligible rows have the same sort key. */
  ghost predicate DistinctKeys(rows: seq<Row>, q: Query) {
    forall x, y | x in Eligible(rows, q) && y in Eligible(rows, q) && Score(x) == Score(y) && x.title == y.title ::
        x == y
  }

  lemma KeysTellApart(rows: seq<Row>, q: Query)
    requires DistinctKeys(rows, q)
    ensures TellsApart(multiset(Eligible(rows, q)), Ahead)
  {
    forall x, y | x in multiset(Eligible(rows, q)) && y in multiset(Eligible(rows, q)) && Ahead(x, y) && Ahead(y, x)
        ensures x == y {
      TextLeqAntisymmetric(x.title, y.title);
      assert x in Eligible(rows, q) && y in Eligible(rows, q);
    }
  }

  lemma {:induction false} EligibleMembers(rows: seq<Row>, q: Query)
    ensures forall r :: r in Eligible(rows, q) <==> r in rows && IsEligible(r, q)
    ensures forall r :: multiset(Eligible(rows, q))[r] <= multiset(rows)[r]
  {
    if rows != [] {
      EligibleMembers(rows[..|rows| - 1], q);
      assert rows == rows[..|rows| - 1] + [rows[|rows| - 1]];
    }
  }

  lemma {:induction false} UniqueCounts(rows: seq<Row>, r: Row)
    requires UniqueIds(rows)
    ensures multiset(rows)[r] <= 1
  {
    if rows != [] {
      var before, last := rows[..|rows| - 1], rows[|rows| - 1];
      UniqueCounts(before, r);
      assert rows == before + [last];
      if last == r {
        assert r !in before;
        assert r !in multiset(before);
      }
    }
  }

  /** The ranking holds exactly the eligible rows, each id once. */
  lemma RankingIsUnique(rows: seq<Row>, q: Query)
    requires UniqueIds(rows)
    ensures SortedBy(Ranking(rows, q), Ahead) && multiset(Ranking(rows, q)) == multiset(Eligible(rows, q))
    ensures forall r :: r in Ranking(rows, q) <==> r in rows && IsEligible(r, q)
    ensures UniqueIds(Ranking(rows, q))
  {
    AheadIsOrder();
    SortSorts(Eligible(rows, q), Ahead);
    EligibleMembers(rows, q);
    var s := Ranking(rows, q);
    forall r ensures r in s <==> r in rows && IsEligible(r, q) {
      assert r in s <==> r in multiset(s);
      assert r in Eligible(rows, q) <==> r in multiset(Eligible(rows, q));
    }
    forall i, j | 0 <= i < j < |s| ensures s[i].id != s[j].id {
      assert s[i] in s && s[j] in s;
      var a :| 0 <= a < |rows| && rows[a] == s[i];
      var b :| 0 <= b < |rows| && rows[b] == s[j];
      if a == b {
        TwiceCounted(s, i, j);
        UniqueCounts(rows, s[i]);
      }
    }
  }

  lemma TwiceCounted<T>(s: seq<T>, i: nat, j: nat)
    requires i < j < |s| && s[i] == s[j]
    ensures multiset(s)[s[i]] >= 2
  {
    assert s == s[..i] + [s[i]] + s[i + 1..j] + [s[j]] + s[j + 1..];
  }

  /** A seed of the project and category, confident enough and with evidence. */
  ghost predicate Wanted(r: Row, q: Query) {
    && r.status == "seed" && r.project == q.project && r.category == Some(q.category)
    && (exists c :: r.confidence == Some(c) && c >= q.minConfidence)
    && (exists evidence :: r.anchors == Some(evidence) && evidence !in {"", "[]"})
  }

  /** `a` is the more confident of the two, or they are equally confident and its title is no later. */
  ghost predicate Leads(a: Row, b: Row) {
    && a.confidence.Some? && b.confidence.Some? && a.confidence.value >= b.confidence.value
    && (a.confidence == b.confidence ==> TextLeq(a.title, b.title))
  }

  /** The found rows are wanted, the most confident ones first; a wanted row is only left out when the limit is
      reached, and every found row leads it. */
  ghost predicate AreTheBest(found: seq<Row>, rows: seq<Row>, q: Query, limit: int) {
    && multiset(found) <= multiset(rows) && (forall r | r in found :: Wanted(r, q))
    && (forall i, j | 0 <= i < j < |found| :: Leads(found[i], found[j]))
    && (limit >= 0 ==> |found| <= limit)
    && (forall r | Wanted(r, q) && multiset(found)[r] < multiset(rows)[r] ::
          |found| == limit && forall f | f in found :: Leads(f, r))
  }

  lemma EligibleIsWanted(r: Row, q: Query)
    ensures IsEligible(r, q) <==> Wanted(r, q)
  {
    if IsEligible(r, q) {
      assert r.confidence == Some(r.confidence.value) && r.anchors == Some(r.anchors.value);
    }
  }

  lemma AheadLeads(a: Row, b: Row, q: Query)
    requires Wanted(a, q) && Wanted(b, q) && Ahead(a, b)
    ensures Leads(a, b)
  {
  }

  lemma {:induction false} EligibleCounts(rows: seq<Row>, q: Query, r: Row)
    ensures multiset(Eligible(rows, q))[r] == if Wanted(r, q) then multiset(rows)[r] else 0
  {
    if rows != [] {
      EligibleCounts(rows[..|rows| - 1], q, r);
      EligibleIsWanted(rows[|rows| - 1], q);
      assert rows == rows[..|rows| - 1] + [rows[|rows| - 1]];
    }
  }

  /** The ranking is sorted and holds the wanted rows, each as often as the table. */
  ghost predicate RanksWanted(s: seq<Row>, rows: seq<Row>, q: Query) {
    && (forall r :: multiset(s)[r] == if Wanted(r, q) then multiset(rows)[r] else 0)
    && (forall i, j | 0 <= i < j < |s| :: Leads(s[i], s[j]))
  }

  lemma RankingRanksWanted(rows: seq<Row>, q: Query)
    ensures RanksWanted(Ranking(rows, q), rows, q)
  {
    AheadIsOrder();
    SortSorts(Eligible(rows, q), Ahead);
    var s := Ranking(rows, q);
    forall r ensures multiset(s)[r] == if Wanted(r, q) then multiset(rows)[r] else 0 {
      EligibleCounts(rows, q, r);
    }
    forall i, j | 0 <= i < j < |s| ensures Leads(s[i], s[j]) {
      assert s[i] in multiset(s) && s[j] in multiset(s);
      AheadLeads(s[i], s[j], q);
    }
  }

  lemma TopIsBest(s: seq<Row>, rows: seq<Row>, q: Query, limit: int)
    requires RanksWanted(s, rows, q)
    ensures AreTheBest(Limited(s, limit), rows, q, limit)
  {
    var found := Limited(s, limit);
    var rest := s[|found|..];
    assert s == found + rest;
    forall r ensures multiset(found)[r] <= multiset(rows)[r] {
      assert multiset(s)[r] == multiset(found)[r] + multiset(rest)[r];
    }
    forall r | r in found ensures Wanted(r, q) {
      assert r in multiset(s);
    }
    forall r | Wanted(r, q) && multiset(found)[r] < multiset(rows)[r]
        ensures |found| == limit && forall f | f in found :: Leads(f, r) {
      assert multiset(s)[r] == multiset(found)[r] + multiset(rest)[r];
      assert r in multiset(rest);
      FrontLeads(s, |found|, r);
    }
  }

  lemma FrontLeads(s: seq<Row>, n: nat, r: Row)
    requires n <= |s| && r in s[n..] && forall i, j | 0 <= i < j < |s| :: Leads(s[i], s[j])
    ensures forall f | f in s[..n] :: Leads(f, r)
  {
    var j :| n <= j < |s| && s[j] == r;
    forall f | f in s[..n] ensures Leads(f, r) {
      var i :| 0 <= i < n && s[i] == f;
    }
  }

  lemma FoundAreTheBest(rows: seq<Row>, q: Query, limit: int)
    ensures AreTheBest(Limited(Ranking(rows, q), limit), rows, q, limit)
  {
    RankingRanksWanted(rows, q);
    TopIsBest(Ranking(rows, q), rows, q, limit);
  }

  // ---------------------------------------------------------------------------------------
  // Taking rows out of the ranking
  // ---------------------------------------------------------------------------------------

  lemma {:induction false} WithoutAppend(a: seq<Row>, b: seq<Row>, ids: seq<string>)
    ensures Without(a + b, ids) == Without(a, ids) + Without(b, ids)
  {
    if b == [] {
      assert a + b == a;
    } else {
      assert (a + b)[..|a + b| - 1] == a + b[..|b| - 1];
      WithoutAppend(a, b[..|b| - 1], ids);
    }
  }

  lemma {:induction false} WithoutAll(a: seq<Row>, ids: seq<string>)
    requires forall r | r in a :: r.id in ids
    ensures Without(a, ids) == []
  {
    if a != [] {
      WithoutAll(a[..|a| - 1], ids);
    }
  }

  lemma {:induction false} WithoutNone(a: seq<Row>, ids: seq<string>)
    requires forall r | r in a :: r.id !in ids
    ensures Without(a, ids) == a
  {
    if a != [] {
      WithoutNone(a[..|a| - 1], ids);
      assert a == a[..|a| - 1] + [a[|a| - 1]];
    }
  }

  lemma IdsOfTop(s: seq<Row>, n: nat)
    requires UniqueIds(s) && n <= |s|
    ensures forall r | r in s[..n] :: r.id in Ids(s[..n])
    ensures forall r | r in s[n..] :: r.id !in Ids(s[..n])
  {
    var ids := Ids(s[..n]);
    forall r | r in s[..n] ensures r.id in ids {
      var i :| 0 <= i < n && s[i] == r;
      assert ids[i] == r.id;
    }
  }

  lemma WithoutTop(s: seq<Row>, n: nat)
    requires UniqueIds(s) && n <= |s|
    ensures Without(s, Ids(s[..n])) == s[n..]
  {
    var top, rest, ids := s[..n], s[n..], Ids(s[..n]);
    IdsOfTop(s, n);
    WithoutAll(top, ids);
    WithoutNone(rest, ids);
    TopAndRest(s, n);
    WithoutAppend(top, rest, ids);
  }

  lemma TopAndRest<T>(s: seq<T>, n: nat)
    requires n <= |s|
    ensures s == s[..n] + s[n..]
  {
  }

  lemma {:induction false} WithoutCounts(s: seq<Row>, ids: seq<string>, r: Row)
    ensures multiset(Without(s, ids))[r] == if r.id in ids then 0 else multiset(s)[r]
  {
    if s != [] {
      WithoutCounts(s[..|s| - 1], ids, r);
      assert s == s[..|s| - 1] + [s[|s| - 1]];
    }
  }

  lemma {:induction false} WithoutSorted(s: seq<Row>, ids: seq<string>)
    requires SortedBy(s, Ahead)
    ensures SortedBy(Without(s, ids), Ahead) && forall r | r in Without(s, ids) :: r in s
  {
    if s != [] {
      var before, last := s[..|s| - 1], s[|s| - 1];
      WithoutSorted(before, ids);
      forall r | r in Without(before, ids) ensures r in s && Ahead(r, last) {
        assert r in before;
        var i :| 0 <= i < |before| && before[i] == r;
        assert s[i] == r;
      }
    }
  }

  /** Taking rows out commutes with ranking. */
  lemma SortWithout(s: seq<Row>, ids: seq<string>)
    requires TellsApart(multiset(s), Ahead)
    ensures Sort(Without(s, ids), Ahead) == Without(Sort(s, Ahead), ids)
  {
    AheadIsOrder();
    SortSorts(s, Ahead);
    SortSorts(Without(s, ids), Ahead);
    var a, b := Sort(Without(s, ids), Ahead), Without(Sort(s, Ahead), ids);
    WithoutSorted(Sort(s, Ahead), ids);
    forall r ensures multiset(a)[r] == multiset(b)[r] && multiset(a)[r] <= multiset(s)[r] {
      WithoutCounts(s, ids, r);
      WithoutCounts(Sort(s, Ahead), ids, r);
    }
    assert multiset(a) == multiset(b);
    SubsetToldApart(multiset(a), multiset(s), Ahead);
    SortedIsUnique(a, b, Ahead);
  }

  // ---------------------------------------------------------------------------------------
  // Rounds
  // ---------------------------------------------------------------------------------------

  lemma {:induction false} AllCounted(rows: seq<Row>, ids: seq<string>, now: real)
    requires UniqueIds(rows) && (forall i, j | 0 <= i < j < |ids| :: ids[i] != ids[j])
    requires forall id | id in ids :: exists r :: r in rows && r.status == "seed" && r.id == id
    ensures PromotedCount(rows, ids, now) == |ids|
  {
    if ids != [] {
      var before, last := ids[..|ids| - 1], ids[|ids| - 1];
      assert forall id | id in before :: id in ids;
      AllCounted(rows, before, now);
      PromoteAllAt(rows, before, now);
      assert last in ids;
      var r :| r in rows && r.status == "seed" && r.id == last;
      var i :| 0 <= i < |rows| && rows[i] == r;
      assert last !in before;
      assert PromoteAll(rows, before, now)[i] == r;
    }
  }

  ghost predicate Ready(rows: seq<Row>, q: Query) { UniqueIds(rows) && DistinctKeys(rows, q) }

  /** The round has activated the first rows of the ranking and no other row, the rest of the ranking is the new one,
      and the round has counted what it activated. */
  ghost predicate TakesTheTop(rows: seq<Row>, after: seq<Row>, q: Query, limit: nat, now: real) {
    var s := Ranking(rows, q);
    var n := Min(limit, |s|);
    && TopActivated(rows, after, s[..n], now) && Ranking(after, q) == s[n..]
    && PromotedCount(rows, Ids(Limited(s, limit)), now) == n
  }

  /** One round activates exactly the top of the ranking by confidence and title, leaves every other row, and leaves
      the rest of the ranking as the new one. Its count falls short of the limit exactly when the ranking was
      shorter. */
  lemma RoundTakesTheTop(rows: seq<Row>, q: Query, limit: nat, now: real)
    requires Ready(rows, q)
    ensures RanksWanted(Ranking(rows, q), rows, q)
    ensures TakesTheTop(rows, Round(rows, q, limit, now), q, limit, now) && Ready(Round(rows, q, limit, now), q)
  {
    var s, after := Ranking(rows, q), Round(rows, q, limit, now);
    var n := Min(limit, |s|);
    var ids := Ids(s[..n]);
    assert Limited(s, limit) == s[..n];
    RankingRanksWanted(rows, q);
    RoundActivates(rows, q, n, now);
    PromoteAllAt(rows, ids, now);
    RankingAfter(rows, after, q, n, now);
    TopIsSeeds(rows, q, n);
    AllCounted(rows, ids, now);
  }

  lemma RankingAfter(rows: seq<Row>, after: seq<Row>, q: Query, n: nat, now: real)
    requires Ready(rows, q) && n <= |Ranking(rows, q)|
    requires after == PromoteAll(rows, Ids(Ranking(rows, q)[..n]), now)
    ensures Ranking(after, q) == Ranking(rows, q)[n..] && Ready(after, q)
  {
    var ids := Ids(Ranking(rows, q)[..n]);
    PromoteAllAt(rows, ids, now);
    EligibleAfter(rows, after, q, ids, now);
    KeysTellApart(rows, q);
    SortWithout(Eligible(rows, q), ids);
    RankingIsUnique(rows, q);
    WithoutTop(Ranking(rows, q), n);
    StillReady(rows, after, q, ids);
  }

  lemma RoundActivates(rows: seq<Row>, q: Query, n: nat, now: real)
    requires Ready(rows, q) && n <= |Ranking(rows, q)|
    ensures var top := Ranking(rows, q)[..n];
            forall i | 0 <= i < |rows| ::
              PromoteAll(rows, Ids(top), now)[i]
              == if rows[i] in top then Activated(rows[i], NewAssertion(rows[i]), now) else rows[i]
  {
    PromoteAllAt(rows, Ids(Ranking(rows, q)[..n]), now);
    TopByIds(rows, q, n);
  }

  /** Among the table's rows, those of the top are the seeds with an id of the top. */
  lemma TopByIds(rows: seq<Row>, q: Query, n: nat)
    requires UniqueIds(rows) && n <= |Ranking(rows, q)|
    ensures forall i | 0 <= i < |rows| ::
              rows[i] in Ranking(rows, q)[..n] <==> rows[i].status == "seed" && rows[i].id in Ids(Ranking(rows, q)[..n])
  {
    RankingIsUnique(rows, q);
    var top := Ranking(rows, q)[..n];
    forall i | 0 <= i < |rows| ensures rows[i] in top <==> rows[i].status == "seed" && rows[i].id in Ids(top) {
      if rows[i] in top {
        var k :| 0 <= k < n && top[k] == rows[i];
        assert Ids(top)[k] == rows[i].id;
      }
      if rows[i].id in Ids(top) {
        var k :| 0 <= k < n && Ids(top)[k] == rows[i].id;
        assert top[k] in Ranking(rows, q);
        var j :| 0 <= j < |rows| && rows[j] == top[k];
        assert i == j;
      }
    }
  }

  lemma TopIsSeeds(rows: seq<Row>, q: Query, n: nat)
    requires UniqueIds(rows) && n <= |Ranking(rows, q)|
    ensures var ids := Ids(Ranking(rows, q)[..n]);
            && (forall i, j | 0 <= i < j < |ids| :: ids[i] != ids[j])
            && (forall id | id in ids :: exists r :: r in rows && r.status == "seed" && r.id == id)
  {
    RankingIsUnique(rows, q);
    var s := Ranking(rows, q);
    var ids := Ids(s[..n]);
    forall id | id in ids ensures exists r :: r in rows && r.status == "seed" && r.id == id {
      var k :| 0 <= k < |ids| && ids[k] == id;
      assert s[k] in s;
    }
  }

  lemma {:induction false} StillReady(rows: seq<Row>, after: seq<Row>, q: Query, ids: seq<string>)
    requires Ready(rows, q) && |after| == |rows| && forall i | 0 <= i < |rows| :: after[i].id == rows[i].id
    requires Eligible(after, q) == Without(Eligible(rows, q), ids)
    ensures Ready(after, q)
  {
    forall r | r in Eligible(after, q) ensures r in Eligible(rows, q) {
      WithoutCounts(Eligible(rows, q), ids, r);
      assert r in multiset(Without(Eligible(rows, q), ids));
      assert r in multiset(Eligible(rows, q));
    }
  }

  /** After k rounds with limit n, exactly the first k n rows of the original ranking are active, each since the
      round its rank belongs to; no other row has changed, and the ranking goes on from there. */
  lemma {:induction false} RoundsDrainInOrder(rows: seq<Row>, q: Query, limit: nat, times: seq<real>)
    requires Ready(rows, q) && limit > 0
    ensures Drained(rows, Rounds(rows, q, limit, times), q, limit, times)
    ensures Ready(Rounds(rows, q, limit, times), q) && RanksWanted(Ranking(rows, q), rows, q)
  {
    RankingRanksWanted(rows, q);
    if times == [] {
      assert Ranking(rows, q)[0..] == Ranking(rows, q);
      assert Min(0, |Ranking(rows, q)|) == 0;
    } else {
      var before := times[..|times| - 1];
      RoundsDrainInOrder(rows, q, limit, before);
      var r := Rounds(rows, q, limit, before);
      RoundTakesTheTop(r, q, limit, times[|times| - 1]);
      RankingIsUnique(rows, q);
      RankingIsUnique(r, q);
      OneMoreRound(rows, r, Rounds(rows, q, limit, times), q, limit, times);
    }
  }

  /** How far down the ranking the rounds have come. */
  function Reached(rows: seq<Row>, q: Query, limit: nat, rounds: nat): nat { Min(rounds * limit, |Ranking(rows, q)|) }

  /** `after` is `r` with the first rows of its ranking activated. */
  ghost predicate TopActivated(r: seq<Row>, after: seq<Row>, top: seq<Row>, now: real) {
    |after| == |r| && forall i | 0 <= i < |r| ::
        after[i] == if r[i] in top then Activated(r[i], NewAssertion(r[i]), now) else r[i]
  }

  /** The row of rank `p` has been activated in the round its rank belongs to. */
  ghost predicate ActiveSince(a: Row, b: Row, p: nat, limit: nat, times: seq<real>)
    requires limit > 0
  {
    p / limit < |times| && b == Activated(a, NewAssertion(a), times[p / limit])
  }

  lemma StillActive(a: Row, b: Row, p: nat, limit: nat, times: seq<real>)
    requires limit > 0 && times != [] && ActiveSince(a, b, p, limit, times[..|times| - 1])
    ensures ActiveSince(a, b, p, limit, times) && b.status == "active"
  {
  }

  lemma NowActive(a: Row, b: Row, p: nat, limit: nat, times: seq<real>)
    requires limit > 0 && times != [] && p / limit == |times| - 1
             && b == Activated(a, NewAssertion(a), times[|times| - 1])
    ensures ActiveSince(a, b, p, limit, times)
  {
  }

  /** The rows of rank below `m` are activated, each at the time of its round, and the others are as before. */
  ghost predicate ActiveBelow(rows: seq<Row>, after: seq<Row>, s: seq<Row>, m: nat, limit: nat, times: seq<real>)
    requires m <= |s| && limit > 0
  {
    && |after| == |rows|
    && (forall i | 0 <= i < |rows| && rows[i] !in s[..m] :: after[i] == rows[i])
    && (forall i, p: nat | 0 <= i < |rows| && p < m && rows[i] == s[p] ::
        ActiveSince(rows[i], after[i], p, limit, times))
  }

  ghost predicate Drained(rows: seq<Row>, after: seq<Row>, q: Query, limit: nat, times: seq<real>)
    requires limit > 0
  {
    var s, m := Ranking(rows, q), Reached(rows, q, limit, |times|);
    Ranking(after, q) == s[m..] && ActiveBelow(rows, after, s, m, limit, times)
  }

  lemma OneMoreRound(rows: seq<Row>, r: seq<Row>, after: seq<Row>, q: Query, limit: nat, times: seq<real>)
    requires limit > 0 && times != [] && UniqueIds(Ranking(rows, q))
    requires Drained(rows, r, q, limit, times[..|times| - 1])
    requires forall x | x in Ranking(r, q) :: x.status == "seed"
    requires var s := Ranking(r, q); var n := Min(limit, |s|);
             TopActivated(r, after, s[..n], times[|times| - 1]) && Ranking(after, q) == s[n..]
    ensures Drained(rows, after, q, limit, times)
  {
    var s, k := Ranking(rows, q), |times| - 1;
    var m0, m := Reached(rows, q, limit, k), Reached(rows, q, limit, k + 1);
    ReachOneMore(rows, q, limit, k);
    DrainMore(rows, r, after, q, s, m0, m, limit, times);
  }

  /** From rank `m0` to rank `m`. */
  lemma DrainMore(rows: seq<Row>, r: seq<Row>, after: seq<Row>, q: Query, s: seq<Row>, m0: nat, m: nat,
                  limit: nat, times: seq<real>)
    requires limit > 0 && times != [] && UniqueIds(s) && m0 <= m <= |s| && Ranking(r, q) == s[m0..]
    requires ActiveBelow(rows, r, s, m0, limit, times[..|times| - 1])
    requires forall x | x in s[m0..] :: x.status == "seed"
    requires TopActivated(r, after, s[m0..][..m - m0], times[|times| - 1]) && Ranking(after, q) == s[m0..][m - m0..]
    requires forall p: nat | m0 <= p < m :: p / limit == |times| - 1
    ensures Ranking(after, q) == s[m..] && ActiveBelow(rows, after, s, m, limit, times)
  {
    SliceOfRest(s, m0, m);
    ActivateMore(rows, r, after, s, m0, m, limit, times);
  }

  lemma SliceOfRest<T>(s: seq<T>, m0: nat, m: nat)
    requires m0 <= m <= |s|
    ensures s[m0..][m - m0..] == s[m..] && s[m0..][..m - m0] == s[m0..m]
    ensures forall x | x in s[m0..m] :: x in s[m0..]
  {
  }

  lemma ReachOneMore(rows: seq<Row>, q: Query, limit: nat, k: nat)
    requires limit > 0
    ensures var m0, m := Reached(rows, q, limit, k), Reached(rows, q, limit, k + 1);
            m == m0 + Min(limit, |Ranking(rows, q)| - m0) && forall p: nat | m0 <= p < m :: p / limit == k
  {
    assert (k + 1) * limit == k * limit + limit;
    var m0, m := Reached(rows, q, limit, k), Reached(rows, q, limit, k + 1);
    forall p: nat | m0 <= p < m ensures p / limit == k {
      RankOfRound(p, k, limit);
    }
  }

  lemma ActivateMore(rows: seq<Row>, r: seq<Row>, after: seq<Row>, s: seq<Row>, m0: nat, m: nat, limit: nat,
                     times: seq<real>)
    requires limit > 0 && times != [] && UniqueIds(s) && m0 <= m <= |s|
    requires ActiveBelow(rows, r, s, m0, limit, times[..|times| - 1])
    requires TopActivated(r, after, s[m0..m], times[|times| - 1])
    requires forall x | x in s[m0..m] :: x.status == "seed"
    requires forall p: nat | m0 <= p < m :: p / limit == |times| - 1
    ensures ActiveBelow(rows, after, s, m, limit, times)
  {
    assert s[..m] == s[..m0] + s[m0..m];
    forall i, p: nat | 0 <= i < |rows| && p < m && rows[i] == s[p]
        ensures ActiveSince(rows[i], after[i], p, limit, times) {
      if p < m0 {
        assert ActiveSince(rows[i], r[i], p, limit, times[..|times| - 1]);
        StillActive(rows[i], r[i], p, limit, times);
      } else {
        NotAbove(s, p, m0);
        assert s[m0..m][p - m0] == rows[i];
        NowActive(rows[i], after[i], p, limit, times);
      }
    }
  }

  lemma NotAbove(s: seq<Row>, p: nat, m0: nat)
    requires UniqueIds(s) && m0 <= p < |s|
    ensures s[p] !in s[..m0]
  {
  }

  lemma RankOfRound(p: nat, k: nat, limit: nat)
    requires limit > 0 && k * limit <= p < k * limit + limit
    ensures p / limit == k
  {
    var d := p / limit - k;
    assert p == (p / limit) * limit + p % limit;
    assert d * limit == (p / limit) * limit - k * limit;
    Multiples(d, limit);
  }

  lemma Multiples(d: int, limit: nat)
    ensures d >= 1 ==> d * limit >= limit
    ensures d <= -1 ==> d * limit + limit <= 0
  {
    if d >= 1 {
      Scaled(1, d, limit);
    }
    if d <= -1 {
      Scaled(1, -d, limit);
      assert d * limit == -(-d * limit);
    }
  }

  lemma Scaled(a: nat, b: nat, c: nat)
    requires a <= b
    ensures a * c <= b * c
  {
    assert (b - a) * c >= 0;
    assert b * c == a * c + (b - a) * c;
  }

  /** The rounds promote only wanted seeds, and every promoted one leads every wanted row that is still a seed. */
  ghost predicate BestFirst(rows: seq<Row>, after: seq<Row>, q: Query) {
    && |after| == |rows|
    && (forall i | 0 <= i < |rows| && after[i] != rows[i] :: Wanted(rows[i], q) && after[i].status == "active")
    && (forall i, j | 0 <= i < |rows| && 0 <= j < |rows| && after[i] != rows[i] && after[j] == rows[j]
                      && Wanted(rows[j], q) :: Leads(rows[i], rows[j]))
  }

  /** Whatever the number of rounds and the limit, the most confident seeds become active first. */
  lemma RoundsTakeTheBest(rows: seq<Row>, q: Query, limit: nat, times: seq<real>)
    requires Ready(rows, q) && limit > 0
    ensures BestFirst(rows, Rounds(rows, q, limit, times), q)
  {
    RoundsDrainInOrder(rows, q, limit, times);
    RankingRanksWanted(rows, q);
    RankingIsUnique(rows, q);
    var s, m := Ranking(rows, q), Reached(rows, q, limit, |times|);
    DrainedIsBestFirst(rows, Rounds(rows, q, limit, times), q, s, m, limit, times);
  }

  lemma RankOf(rows: seq<Row>, s: seq<Row>, q: Query, r: Row) returns (p: nat)
    requires RanksWanted(s, rows, q) && r in rows && Wanted(r, q)
    ensures p < |s| && s[p] == r
  {
    assert r in multiset(rows);
    assert r in multiset(s);
    p :| 0 <= p < |s| && s[p] == r;
  }

  lemma DrainedIsBestFirst(rows: seq<Row>, after: seq<Row>, q: Query, s: seq<Row>, m: nat, limit: nat, times: seq<real>)
    requires RanksWanted(s, rows, q) && m <= |s| && limit > 0 && ActiveBelow(rows, after, s, m, limit, times)
    ensures BestFirst(rows, after, q)
  {
    forall i | 0 <= i < |rows| && after[i] != rows[i]
        ensures Wanted(rows[i], q) && after[i].status == "active" {
      var p := DrainedRank(rows, after, s, m, limit, times, i);
      assert s[p] in multiset(s);
    }
    forall i, j | 0 <= i < |rows| && 0 <= j < |rows| && after[i] != rows[i] && after[j] == rows[j]
                  && Wanted(rows[j], q) ensures Leads(rows[i], rows[j]) {
      var p := DrainedRank(rows, after, s, m, limit, times, i);
      var k := RankOf(rows, s, q, rows[j]);
      StillSeedIsBelow(rows, after, s, m, limit, times, j, k);
      assert p < k;
    }
  }

  lemma StillSeedIsBelow(rows: seq<Row>, after: seq<Row>, s: seq<Row>, m: nat, limit: nat, times: seq<real>, j: nat,
                         k: nat)
    requires m <= |s| && limit > 0 && ActiveBelow(rows, after, s, m, limit, times)
    requires j < |rows| && k < |s| && s[k] == rows[j] == after[j] && rows[j].status == "seed"
    ensures k >= m
  {
    assert k < m ==> ActiveSince(rows[j], after[j], k, limit, times);
  }

  lemma DrainedRank(rows: seq<Row>, after: seq<Row>, s: seq<Row>, m: nat, limit: nat, times: seq<real>, i: nat)
    returns (p: nat)
    requires m <= |s| && limit > 0 && ActiveBelow(rows, after, s, m, limit, times)
    requires i < |rows| && after[i] != rows[i]
    ensures p < m && s[p] == rows[i] && after[i].status == "active"
  {
    assert rows[i] in s[..m];
    p :| 0 <= p < m && s[..m][p] == rows[i];
    assert ActiveSince(rows[i], after[i], p, limit, times);
  }

  // ---------------------------------------------------------------------------------------
  // Any mix of promotions and migrations
  // ---------------------------------------------------------------------------------------

  datatype Job = PromoteJob(ids: seq<string>, now: real) | MigrateJob

  function Rewritten(rows: seq<Row>, job: Job): (r: seq<Row>)
    ensures |r| == |rows|
  {
    match job
    case PromoteJob(ids, now) => PromoteAll(rows, ids, now)
    case MigrateJob => Migrated(rows)
  }

  function AfterJobs(rows: seq<Row>, jobs: seq<Job>): (r: seq<Row>)
    ensures |r| == |rows|
  {
    if jobs == [] then rows else Rewritten(AfterJobs(rows, jobs[..|jobs| - 1]), jobs[|jobs| - 1])
  }

  /** What any job leaves of a row: its identity, an active status, and a review date once there is one; a new
      review date is the date the row is valid from, and then the row is active and keeps that date. */
  ghost predicate Inherits(a: Row, b: Row) {
    && b.id == a.id && b.project == a.project && b.category == a.category && b.title == a.title
    && b.confidence == a.confidence && b.anchors == a.anchors
    && (a.status != "seed" ==> b.status == a.status && b.validFrom == a.validFrom && b.assertion == a.assertion)
    && (a.status == "seed" ==> b.status in ["seed", "active"])
    && (a.reviewedAt.Some? ==> b.reviewedAt == a.reviewedAt)
    && (a.reviewedAt.None? && b.reviewedAt.Some? ==> b.status == "active" && b.reviewedAt == b.validFrom)
    && (a.reviewStatus.Some? ==> b.reviewStatus == a.reviewStatus)
  }

  lemma {:induction false} PromoteInherits(rows: seq<Row>, ids: seq<string>, now: real, i: nat)
    requires i < |rows|
    ensures var b := PromoteAll(rows, ids, now)[i];
            Inherits(rows[i], b) && b.reviewedAt == rows[i].reviewedAt && b.reviewStatus == rows[i].reviewStatus
  {
    if ids != [] {
      PromoteInherits(rows, ids[..|ids| - 1], now, i);
    }
  }

  lemma {:induction false} InheritsThrough(a: Row, b: Row, c: Row)
    requires Inherits(a, b) && Inherits(b, c)
    ensures Inherits(a, c)
  {
  }

  /** Over any mix of runs a review date that is set once is never overwritten. */
  lemma {:induction false} JobsInherit(rows: seq<Row>, jobs: seq<Job>, i: nat)
    requires i < |rows|
    ensures Inherits(rows[i], AfterJobs(rows, jobs)[i])
  {
    if jobs != [] {
      var before, last := AfterJobs(rows, jobs[..|jobs| - 1]), jobs[|jobs| - 1];
      JobsInherit(rows, jobs[..|jobs| - 1], i);
      match last {
        case PromoteJob(ids, now) => PromoteInherits(before, ids, now, i);
        case MigrateJob =>
      }
      InheritsThrough(rows[i], before[i], AfterJobs(rows, jobs)[i]);
    }
  }

  /** A mix that ends in a migration leaves every active row with a validity date reviewed, and every row with a
      review status; a second migration changes nothing. */
  lemma EndingInMigration(rows: seq<Row>, jobs: seq<Job>, i: nat)
    requires i < |rows| && jobs != [] && jobs[|jobs| - 1] == MigrateJob
    ensures var r := AfterJobs(rows, jobs)[i];
            && (r.status == "active" && r.validFrom.Some? ==> r.reviewedAt.Some?)
            && r.reviewStatus.Some? && Backfilled(r) == r
  {
  }
}

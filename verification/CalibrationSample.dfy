/** The stratified sample of the calibration worksheet: confidence bands, and a round-robin pick over
    the categories of a band. */
module CalibrationSample {
  import opened Prelude
  import opened Orders

  datatype Concept = Concept(id: string, title: string, content: string, category: string, confidence: real,
      anchors: seq<string>)

  // ---------------------------------------------------------------------------------------
  // Confidence bands
  // ---------------------------------------------------------------------------------------

  datatype Band = Top | High | Medium | Low | Bottom

  const BANDS: seq<Band> := [Top, High, Medium, Low, Bottom]

  function Target(b: Band): nat {
    match b case Top => 10 case High => 15 case Medium => 15 case Low => 8 case Bottom => 2
  }

  /** The five filters that build the buckets. */
  predicate InBand(b: Band, confidence: real) {
    match b
    case Top => confidence >= 0.95
    case High => 0.85 <= confidence < 0.95
    case Medium => 0.75 <= confidence < 0.85
    case Low => 0.65 <= confidence < 0.75
    case Bottom => confidence < 0.65
  }

  /** `_bucket_for`, and the chain of tests behind the worksheet's summary counter. */
  function BandOf(confidence: real): Band {
    if confidence >= 0.95 then Top
    else if confidence >= 0.85 then High
    else if confidence >= 0.75 then Medium
    else if confidence >= 0.65 then Low
    else Bottom
  }

  /** The filters and the chain classify every confidence alike, so the filters split the pool. */
  lemma BandsAgree(b: Band, confidence: real)
    ensures InBand(b, confidence) <==> BandOf(confidence) == b
  {
  }

  function OfBand(pool: seq<Concept>, b: Band): (r: seq<Concept>)
    ensures forall c | c in r :: c in pool && BandOf(c.confidence) == b
  {
    if pool == [] then []
    else
      var before, last := OfBand(pool[..|pool| - 1], b), pool[|pool| - 1];
      if InBand(b, last.confidence) then before + [last] else before
  }

  /** The band holds every concept of the pool with such a confidence, as often as the pool. */
  lemma {:induction false} OfBandCounts(pool: seq<Concept>, b: Band, c: Concept)
    ensures multiset(OfBand(pool, b))[c] == if InBand(b, c.confidence) then multiset(pool)[c] else 0
  {
    if pool != [] {
      OfBandCounts(pool[..|pool| - 1], b, c);
      assert pool == pool[..|pool| - 1] + [pool[|pool| - 1]];
    }
  }

  // ---------------------------------------------------------------------------------------
  // Grouping by category
  // ---------------------------------------------------------------------------------------

  type Groups = map<string, seq<Concept>>

  /** All concepts held by the listed categories. */
  ghost function Held(groups: Groups, cats: seq<string>): multiset<Concept>
    requires forall c | c in cats :: c in groups
  {
    if cats == [] then multiset{}
    else Held(groups, cats[..|cats| - 1]) + multiset(groups[cats[|cats| - 1]])
  }

  /** The concepts of a list that have a category, in their order. */
  function OfCategory(s: seq<Concept>, cat: string): (r: seq<Concept>)
    ensures forall c :: c in r <==> c in s && c.category == cat
  {
    if s == [] then []
    else
      var before, last := OfCategory(s[..|s| - 1], cat), s[|s| - 1];
      assert s == s[..|s| - 1] + [last];
      if last.category == cat then before + [last] else before
  }

  lemma OfCategoryAppend(s: seq<Concept>, c: Concept, cat: string)
    ensures OfCategory(s + [c], cat) == if c.category == cat then OfCategory(s, cat) + [c] else OfCategory(s, cat)
  {
    assert (s + [c])[..|s|] == s;
  }

  /** Every listed concept has the category it is listed under. */
  ghost predicate Own(groups: Groups) {
    forall cat, c | cat in groups && c in groups[cat] :: c.category == cat
  }

  /** The lists are those of the pool's categories, each holding the pool's concepts of its category. */
  ghost predicate GroupsOf(groups: Groups, pool: seq<Concept>) {
    && (forall cat :: cat in groups <==> OfCategory(pool, cat) != [])
    && forall cat | cat in groups :: multiset(groups[cat]) == multiset(OfCategory(pool, cat))
  }

  lemma GroupsAreOwn(groups: Groups, pool: seq<Concept>)
    requires GroupsOf(groups, pool)
    ensures Own(groups)
  {
    forall cat, c | cat in groups && c in groups[cat] ensures c.category == cat {
      assert c in multiset(groups[cat]);
      assert c in OfCategory(pool, cat);
    }
  }

  /** The grouping has a list for exactly the listed categories, each listed once. */
  ghost predicate Grouping(groups: Groups, cats: seq<string>) {
    Distinct(cats) && forall c :: c in groups <==> c in cats
  }

  lemma {:induction false} HeldElsewhere(groups: Groups, cats: seq<string>, c: string, list: seq<Concept>)
    requires forall x | x in cats :: x in groups
    requires c !in cats
    ensures Held(groups[c := list], cats) == Held(groups, cats)
  {
    if cats != [] {
      HeldElsewhere(groups, cats[..|cats| - 1], c, list);
    }
  }

  lemma {:induction false} HeldUpdate(groups: Groups, cats: seq<string>, c: string, list: seq<Concept>)
    requires Distinct(cats) && c in cats && forall x | x in cats :: x in groups
    ensures Held(groups[c := list], cats) + multiset(groups[c]) == Held(groups, cats) + multiset(list)
  {
    var before, last := cats[..|cats| - 1], cats[|cats| - 1];
    var after := groups[c := list];
    if last == c {
      HeldElsewhere(groups, before, c, list);
      assert Held(after, cats) == Held(groups, before) + multiset(list);
    } else {
      HeldUpdate(groups, before, c, list);
      assert Held(after, cats) == Held(after, before) + multiset(groups[last]);
      Regroup(Held(after, before), multiset(groups[c]), Held(groups, before), multiset(list), multiset(groups[last]));
    }
  }

  lemma Regroup<T>(a: multiset<T>, b: multiset<T>, c: multiset<T>, d: multiset<T>, x: multiset<T>)
    requires a + b == c + d
    ensures (a + x) + b == (c + x) + d
  {
    assert (a + x) + b == (a + b) + x;
    assert (c + x) + d == (c + d) + x;
  }

  /** Two sums that agree after a common part is added agree without it. */
  lemma Cancel<T>(a: multiset<T>, b: multiset<T>, x: multiset<T>)
    requires a + x == b + x
    ensures a == b
  {
    assert (a + x) - x == a && (b + x) - x == b;
  }

  /** `by_cat[c["category"]].append(c)` on a default dictionary. */
  function Added(groups: Groups, c: Concept): Groups {
    groups[c.category := if c.category in groups then groups[c.category] + [c] else [c]]
  }

  lemma AddedHolds(groups: Groups, cats: seq<string>, c: Concept)
    requires Grouping(groups, cats)
    ensures var cats' := if c.category in groups then cats else cats + [c.category];
            Grouping(Added(groups, c), cats') && Held(Added(groups, c), cats') == Held(groups, cats) + multiset{c}
  {
    if c.category in groups {
      var list := groups[c.category];
      HeldUpdate(groups, cats, c.category, list + [c]);
      assert multiset(list + [c]) == multiset{c} + multiset(list);
      assert Held(groups, cats) + (multiset{c} + multiset(list)) == (Held(groups, cats) + multiset{c}) + multiset(list);
      Cancel(Held(Added(groups, c), cats), Held(groups, cats) + multiset{c}, multiset(list));
    } else {
      var cats' := cats + [c.category];
      assert cats'[..|cats'| - 1] == cats;
      HeldElsewhere(groups, cats, c.category, [c]);
    }
  }

  /** Adding a concept of the pool to its list. */
  lemma AddedGroups(groups: Groups, pool: seq<Concept>, c: Concept)
    requires GroupsOf(groups, pool)
    ensures GroupsOf(Added(groups, c), pool + [c])
  {
    var after := Added(groups, c);
    forall cat ensures cat in after <==> OfCategory(pool + [c], cat) != [] {
      OfCategoryAppend(pool, c, cat);
    }
    forall cat | cat in after ensures multiset(after[cat]) == multiset(OfCategory(pool + [c], cat)) {
      OfCategoryAppend(pool, c, cat);
    }
  }

  lemma OneMore<T>(s: seq<T>, i: nat)
    requires i < |s|
    ensures s[..i + 1] == s[..i] + [s[i]] && multiset(s[..i + 1]) == multiset(s[..i]) + multiset{s[i]}
  {
    assert s[..i + 1] == s[..i] + [s[i]];
  }

  /** Each category's list holds exactly the pool's concepts of that category. */
  method GroupByCategory(pool: seq<Concept>) returns (groups: Groups, cats: seq<string>)
    ensures Grouping(groups, cats) && GroupsOf(groups, pool)
    ensures Held(groups, cats) == multiset(pool)
  {
    groups, cats := map[], [];
    for i := 0 to |pool|
      invariant Grouping(groups, cats) && GroupsOf(groups, pool[..i])
      invariant Held(groups, cats) == multiset(pool[..i])
    {
      OneMore(pool, i);
      AddedHolds(groups, cats, pool[i]);
      AddedGroups(groups, pool[..i], pool[i]);
      if pool[i].category !in groups {
        cats := cats + [pool[i].category];
      }
      groups := Added(groups, pool[i]);
    }
    assert pool[..|pool|] == pool;
  }

  // ---------------------------------------------------------------------------------------
  // Round robin
  // ---------------------------------------------------------------------------------------

  /** How often position `j` of a cycle of `n` is visited during the first `idx` visits. */
  function Visits(n: nat, j: nat, idx: nat): nat
    requires j < n
  {
    if idx == 0 then 0 else Visits(n, j, idx - 1) + (if (idx - 1) % n == j then 1 else 0)
  }

  /** Every position gets its fair share of visits: the whole rounds, and one more for those already
      reached in the current round. */
  lemma {:induction false} VisitsAreFair(n: nat, j: nat, idx: nat)
    requires j < n
    ensures Visits(n, j, idx) == idx / n + (if j < idx % n then 1 else 0)
  {
    if idx > 0 {
      VisitsAreFair(n, j, idx - 1);
      NextVisit(n, idx - 1);
    }
  }

  lemma NextVisit(n: nat, i: nat)
    requires 0 < n
    ensures if i % n == n - 1 then (i + 1) / n == i / n + 1 && (i + 1) % n == 0
            else (i + 1) / n == i / n && (i + 1) % n == i % n + 1
  {
    var q, r := i / n, i % n;
    assert i == q * n + r;
    if r == n - 1 {
      assert i + 1 == (q + 1) * n + 0;
      QuotientOf(n, i + 1, q + 1, 0);
    } else {
      QuotientOf(n, i + 1, q, r + 1);
    }
  }

  lemma QuotientOf(n: nat, i: nat, q: nat, r: nat)
    requires r < n && i == q * n + r
    ensures i / n == q && i % n == r
  {
    assert i == (i / n) * n + i % n;
    if i / n < q {
      LargerQuotient(n, i / n, i % n, q, r);
    } else if q < i / n {
      LargerQuotient(n, q, r, i / n, i % n);
    }
  }

  lemma LargerQuotient(n: nat, q: nat, r: nat, q': nat, r': nat)
    requires q < q' && r < n
    ensures q * n + r < q' * n + r'
  {
    AtLeastOnce(q' - q, n);
    assert q' * n - q * n == (q' - q) * n;
  }

  lemma AtLeastOnce(d: nat, n: nat)
    requires d >= 1
    ensures d * n >= n
  {
    assert d * n == (d - 1) * n + n;
  }

  /** Visits of two positions never differ by more than one. */
  lemma VisitsDifferByAtMostOne(n: nat, j: nat, k: nat, idx: nat)
    requires j < n && k < n
    ensures -1 <= Visits(n, j, idx) - Visits(n, k, idx) <= 1
  {
    VisitsAreFair(n, j, idx);
    VisitsAreFair(n, k, idx);
  }

  /** After `idx` visits each category has given min(visits, size) concepts off its end. */
  ghost predicate FairlyTaken(start: Groups, now: Groups, cats: seq<string>, idx: nat) {
    && (forall c | c in cats :: c in start && c in now)
    && forall j | 0 <= j < |cats| ::
         now[cats[j]] == start[cats[j]][..|start[cats[j]]| - Min(Visits(|cats|, j, idx), |start[cats[j]]|)]
  }

  predicate AnyLeft(groups: Groups, cats: seq<string>)
    requires forall c | c in cats :: c in groups
  {
    exists c | c in cats :: groups[c] != []
  }

  function Longest(groups: Groups, cats: seq<string>): (m: nat)
    requires forall c | c in cats :: c in groups
    ensures forall c | c in cats :: |groups[c]| <= m
  {
    if cats == [] then 0
    else Max(Longest(groups, cats[..|cats| - 1]), |groups[cats[|cats| - 1]]|)
  }

  /** While something is left, fewer rounds have gone by than the longest list is long. */
  lemma RoundsAreBounded(start: Groups, now: Groups, cats: seq<string>, idx: nat)
    requires FairlyTaken(start, now, cats, idx) && AnyLeft(now, cats)
    ensures cats != [] && idx < |cats| * Longest(start, cats)
  {
    var c :| c in cats && now[c] != [];
    var j :| 0 <= j < |cats| && cats[j] == c;
    VisitsAreFair(|cats|, j, idx);
    assert idx / |cats| < |start[c]| <= Longest(start, cats);
    BelowProduct(|cats|, idx, Longest(start, cats));
  }

  lemma BelowProduct(n: nat, i: nat, m: nat)
    requires 0 < n && i / n < m
    ensures i < n * m
  {
    AtLeastOnce(m - i / n, n);
    assert (m - i / n) * n == m * n - (i / n) * n;
    assert i == (i / n) * n + i % n;
  }

  lemma {:induction false} NothingHeld(groups: Groups, cats: seq<string>)
    requires forall c | c in cats :: c in groups
    requires !AnyLeft(groups, cats)
    ensures Held(groups, cats) == multiset{}
  {
    if cats != [] {
      NothingHeld(groups, cats[..|cats| - 1]);
    }
  }

  /** The list of the visited category gives its last concept, if it has one. */
  function Popped(now: Groups, cat: string): Groups
    requires cat in now
  {
    if now[cat] == [] then now else now[cat := now[cat][..|now[cat]| - 1]]
  }

  lemma PoppedHolds(now: Groups, cats: seq<string>, cat: string)
    requires Grouping(now, cats) && cat in cats && now[cat] != []
    ensures multiset{now[cat][|now[cat]| - 1]} + Held(Popped(now, cat), cats) == Held(now, cats)
  {
    var rest, last := now[cat][..|now[cat]| - 1], now[cat][|now[cat]| - 1];
    assert now[cat] == rest + [last];
    HeldUpdate(now, cats, cat, rest);
    assert multiset(now[cat]) == multiset(rest) + multiset{last};
    assert (multiset{last} + Held(Popped(now, cat), cats)) + multiset(rest)
           == Held(Popped(now, cat), cats) + multiset(now[cat]);
    Cancel(multiset{last} + Held(Popped(now, cat), cats), Held(now, cats), multiset(rest));
  }

  lemma AllOrEnough(picked: seq<Concept>, left: multiset<Concept>, all: multiset<Concept>, target: nat)
    requires multiset(picked) + left == all && |picked| <= target
    requires |picked| < target ==> left == multiset{}
    ensures |picked| == Min(target, |all|)
  {
    assert |multiset(picked)| == |picked|;
    assert |all| == |picked| + |left|;
  }

  /** One more visit shortens the visited list, if anything is left of it, and no other. */
  lemma VisitsStep(start: Groups, now: Groups, cats: seq<string>, idx: nat)
    requires Grouping(start, cats) && Grouping(now, cats) && FairlyTaken(start, now, cats, idx) && cats != []
    ensures var cat := cats[idx % |cats|];
            FairlyTaken(start, Popped(now, cat), cats, idx + 1)
  {
    var i := idx % |cats|;
    var cat := cats[i];
    var after := Popped(now, cat);
    forall j | 0 <= j < |cats|
      ensures after[cats[j]] == start[cats[j]][..|start[cats[j]]| - Min(Visits(|cats|, j, idx + 1), |start[cats[j]]|)]
    {
      assert Visits(|cats|, j, idx + 1) == Visits(|cats|, j, idx) + (if i == j then 1 else 0);
      if j != i {
        assert cats[j] != cat;
      }
    }
  }

  /** What a category has given and what is left of it make up its list. */
  ghost predicate Given(start: Groups, now: Groups, cats: seq<string>, picked: seq<Concept>)
    requires forall c | c in cats :: c in start && c in now
  {
    forall c | c in cats :: multiset(OfCategory(picked, c)) + multiset(now[c]) == multiset(start[c])
  }

  lemma PoppedIsGiven(start: Groups, now: Groups, cats: seq<string>, picked: seq<Concept>, cat: string)
    requires forall c | c in cats :: c in start && c in now
    requires Given(start, now, cats, picked) && Own(now) && cat in cats && now[cat] != []
    ensures Given(start, Popped(now, cat), cats, picked + [now[cat][|now[cat]| - 1]])
  {
    var rest, last := now[cat][..|now[cat]| - 1], now[cat][|now[cat]| - 1];
    assert now[cat] == rest + [last] && last in now[cat];
    var after := Popped(now, cat);
    forall c | c in cats ensures multiset(OfCategory(picked + [last], c)) + multiset(after[c]) == multiset(start[c]) {
      OfCategoryAppend(picked, last, c);
      if c == cat {
        MoveLast(OfCategory(picked, c), rest, last);
      }
    }
  }

  lemma MoveLast<T>(a: seq<T>, rest: seq<T>, last: T)
    ensures multiset(a + [last]) + multiset(rest) == multiset(a) + multiset(rest + [last])
  {
  }

  lemma PoppedStaysGrouped(now: Groups, cats: seq<string>, cat: string)
    requires Grouping(now, cats) && Own(now) && cat in cats
    ensures Grouping(Popped(now, cat), cats) && Own(Popped(now, cat))
  {
  }

  /** A visit to an exhausted category changes nothing. */
  lemma NothingPopped(now: Groups, cat: string)
    requires cat in now && now[cat] == []
    ensures Popped(now, cat) == now
  {
  }

  /** `picked.append(by_cat[cat].pop())`, seen from the picks. */
  method PickLast(before: Groups, cats: seq<string>, cat: string, had: seq<Concept>) returns (picked: seq<Concept>)
    requires Grouping(before, cats) && cat in cats && before[cat] != []
    ensures picked == had + [before[cat][|before[cat]| - 1]]
    ensures multiset(picked) + Held(Popped(before, cat), cats) == multiset(had) + Held(before, cats)
  {
    PoppedHolds(before, cats, cat);
    picked := had + [before[cat][|before[cat]| - 1]];
  }

  /** The body of the pick loop. */
  method VisitNext(start: Groups, before: Groups, cats: seq<string>, idx: nat, had: seq<Concept>)
    returns (picked: seq<Concept>, now: Groups)
    requires Grouping(start, cats) && Grouping(before, cats) && FairlyTaken(start, before, cats, idx) && cats != []
    requires Own(before) && Given(start, before, cats, had)
    ensures Grouping(now, cats) && FairlyTaken(start, now, cats, idx + 1)
    ensures Own(now) && Given(start, now, cats, picked)
    ensures |picked| <= |had| + 1 && multiset(picked) + Held(now, cats) == multiset(had) + Held(before, cats)
  {
    var cat := cats[idx % |cats|];
    VisitsStep(start, before, cats, idx);
    PoppedStaysGrouped(before, cats, cat);
    now := Popped(before, cat);
    if before[cat] == [] {
      NothingPopped(before, cat);
      picked := had;
    } else {
      PoppedIsGiven(start, before, cats, had, cat);
      picked := PickLast(before, cats, cat, had);
    }
  }

  /** The round-robin pick. Its result is a part of the lists with min(target, size) members; the categories have
      been visited fairly, and each has given as many of its own concepts as its visits and its size allow. */
  method RoundRobin(start: Groups, cats: seq<string>, target: nat) returns (picked: seq<Concept>, now: Groups, idx: nat)
    requires Grouping(start, cats) && Own(start)
    ensures |picked| == Min(target, |Held(start, cats)|)
    ensures FairlyTaken(start, now, cats, idx) && Given(start, now, cats, picked)
    ensures Grouping(now, cats) && multiset(picked) + Held(now, cats) == Held(start, cats)
  {
    picked, now, idx := [], start, 0;
    while |picked| < target && AnyLeft(now, cats)
      invariant Grouping(now, cats) && FairlyTaken(start, now, cats, idx)
      invariant Own(now) && Given(start, now, cats, picked)
      invariant |picked| <= target
      invariant multiset(picked) + Held(now, cats) == Held(start, cats)
      decreases |cats| * Longest(start, cats) - idx
    {
      RoundsAreBounded(start, now, cats, idx);
      picked, now := VisitNext(start, now, cats, idx, picked);
      idx := idx + 1;
    }
    if |picked| < target {
      NothingHeld(now, cats);
    }
    AllOrEnough(picked, Held(now, cats), Held(start, cats), target);
  }

  /** Between any two categories: all of the first is picked, or it gives at least what the other gives minus one. */
  ghost predicate Balanced(picked: seq<Concept>, bucket: seq<Concept>) {
    forall a, b ::
      || multiset(OfCategory(picked, a)) == multiset(OfCategory(bucket, a))
      || |OfCategory(picked, a)| >= |OfCategory(picked, b)| - 1
  }

  /** What a category of the cycle has given: as much as its visits and its size allow. */
  lemma GivenByVisits(start: Groups, now: Groups, cats: seq<string>, picked: seq<Concept>, idx: nat, j: nat)
    requires FairlyTaken(start, now, cats, idx) && Given(start, now, cats, picked) && j < |cats|
    ensures |OfCategory(picked, cats[j])| == Min(Visits(|cats|, j, idx), |start[cats[j]]|)
    ensures now[cats[j]] == [] ==> multiset(OfCategory(picked, cats[j])) == multiset(start[cats[j]])
  {
    var cat := cats[j];
    assert cat in cats;
    assert multiset(OfCategory(picked, cat)) + multiset(now[cat]) == multiset(start[cat]);
    SizesAdd(OfCategory(picked, cat), now[cat], start[cat]);
  }

  lemma SizesAdd<T>(a: seq<T>, b: seq<T>, c: seq<T>)
    requires multiset(a) + multiset(b) == multiset(c)
    ensures |a| + |b| == |c|
  {
    assert |multiset(a)| == |a| && |multiset(b)| == |b| && |multiset(c)| == |c|;
  }

  /** A fair pick out of the bucket's own lists is balanced. */
  lemma FairIsBalanced(start: Groups, now: Groups, cats: seq<string>, picked: seq<Concept>, bucket: seq<Concept>,
                       idx: nat)
    requires FairlyTaken(start, now, cats, idx) && Given(start, now, cats, picked)
    requires GroupsOf(start, bucket) && (forall c :: c in start <==> c in cats)
    requires multiset(picked) <= multiset(bucket)
    ensures Balanced(picked, bucket)
  {
    forall a, b ensures || multiset(OfCategory(picked, a)) == multiset(OfCategory(bucket, a))
                        || |OfCategory(picked, a)| >= |OfCategory(picked, b)| - 1
    {
      PickedCategories(picked, bucket, a);
      PickedCategories(picked, bucket, b);
      if a in cats && b in cats {
        var j: nat :| j < |cats| && cats[j] == a;
        var k: nat :| k < |cats| && cats[k] == b;
        GivenByVisits(start, now, cats, picked, idx, j);
        GivenByVisits(start, now, cats, picked, idx, k);
        VisitsDifferByAtMostOne(|cats|, j, k, idx);
      }
    }
  }

  /** A category the bucket does not have is not picked from. */
  lemma PickedCategories(picked: seq<Concept>, bucket: seq<Concept>, cat: string)
    requires multiset(picked) <= multiset(bucket)
    ensures OfCategory(bucket, cat) == [] ==> OfCategory(picked, cat) == []
  {
    if OfCategory(picked, cat) != [] {
      var c := OfCategory(picked, cat)[0];
      assert c in OfCategory(picked, cat);
      assert c in multiset(picked);
      assert c in multiset(bucket);
      assert c in OfCategory(bucket, cat);
    }
  }

  // ---------------------------------------------------------------------------------------
  // The stratified sample
  // ---------------------------------------------------------------------------------------

  function Rank(b: Band): nat {
    match b case Top => 0 case High => 1 case Medium => 2 case Low => 3 case Bottom => 4
  }

  /** The worksheet order: band, then category, then id. */
  predicate Before(a: Concept, b: Concept) {
    var ra, rb := Rank(BandOf(a.confidence)), Rank(BandOf(b.confidence));
    ra < rb || (ra == rb && ((a.category != b.category && TextLeq(a.category, b.category))
                             || (a.category == b.category && TextLeq(a.id, b.id))))
  }

  lemma BeforeIsOrder()
    ensures IsOrder(Before)
  {
    forall a: Concept, b: Concept ensures Before(a, b) || Before(b, a) {
      TextLeqTotal(a.category, b.category);
      TextLeqTotal(a.id, b.id);
    }
    forall a: Concept, b: Concept, c: Concept | Before(a, b) && Before(b, c) ensures Before(a, c) {
      BeforeTransitive(a, b, c);
    }
  }

  lemma BeforeTransitive(a: Concept, b: Concept, c: Concept)
    requires Before(a, b) && Before(b, c)
    ensures Before(a, c)
  {
    if Rank(BandOf(a.confidence)) == Rank(BandOf(b.confidence)) == Rank(BandOf(c.confidence)) {
      if a.category == b.category == c.category {
        TextLeqTransitive(a.id, b.id, c.id);
      } else if a.category != b.category && b.category != c.category {
        TextLeqTransitive(a.category, b.category, c.category);
        if a.category == c.category {
          TextLeqAntisymmetric(a.category, b.category);
        }
      }
    }
  }

  /** A band boundary lies between the confidences of the two. */
  predicate Above(a: Concept, b: Concept) {
    Parts(0.95, a, b) || Parts(0.85, a, b) || Parts(0.75, a, b) || Parts(0.65, a, b)
  }

  predicate Parts(boundary: real, a: Concept, b: Concept) { b.confidence < boundary <= a.confidence }

  /** No later concept is from a higher band; within a band the categories ascend, and within a category the ids. */
  ghost predicate InWorksheetOrder(s: seq<Concept>) {
    forall i, j | 0 <= i < j < |s| ::
      && !Above(s[j], s[i])
      && (Above(s[i], s[j])
          || if s[i].category == s[j].category then TextLeq(s[i].id, s[j].id)
             else TextLeq(s[i].category, s[j].category))
  }

  lemma AboveByRank(a: Concept, b: Concept)
    ensures Above(a, b) <==> Rank(BandOf(a.confidence)) < Rank(BandOf(b.confidence))
  {
  }

  lemma SortedIsInOrder(s: seq<Concept>)
    requires SortedBy(s, Before)
    ensures InWorksheetOrder(s)
  {
    forall i, j | 0 <= i < j < |s|
      ensures
        && !Above(s[j], s[i])
        && (Above(s[i], s[j])
            || if s[i].category == s[j].category then TextLeq(s[i].id, s[j].id)
               else TextLeq(s[i].category, s[j].category))
    {
      AboveByRank(s[i], s[j]);
      AboveByRank(s[j], s[i]);
      assert Before(s[i], s[j]);
    }
  }

  /** An arbitrary reordering of any list, chosen anew at each numbered call. */
  ghost predicate Shuffles<T(!new)>(shuffle: (nat, seq<T>) -> seq<T>) {
    forall k, s :: multiset(shuffle(k, s)) == multiset(s)
  }

  method ShuffleLists(groups: Groups, cats: seq<string>, ghost pool: seq<Concept>,
                      shuffle: (nat, seq<Concept>) -> seq<Concept>) returns (r: Groups)
    requires Grouping(groups, cats) && GroupsOf(groups, pool) && Shuffles(shuffle)
    ensures Grouping(r, cats) && GroupsOf(r, pool) && Held(r, cats) == Held(groups, cats)
  {
    r := groups;
    for i := 0 to |cats|
      invariant Grouping(r, cats) && GroupsOf(r, pool) && Held(r, cats) == Held(groups, cats)
    {
      var list := shuffle(i, r[cats[i]]);
      HeldUpdate(r, cats, cats[i], list);
      Cancel(Held(r[cats[i] := list], cats), Held(r, cats), multiset(list));
      r := r[cats[i] := list];
    }
  }

  lemma SameMembersDistinct(a: seq<string>, b: seq<string>)
    requires multiset(a) == multiset(b) && Distinct(a)
    ensures Distinct(b) && forall c :: c in a <==> c in b
  {
    forall c ensures c in a <==> c in b {
      assert c in multiset(a) <==> c in multiset(b);
    }
    forall i, j | 0 <= i < j < |b| ensures b[i] != b[j] {
      if b[i] == b[j] {
        assert b == b[..i] + [b[i]] + b[i + 1..j] + [b[j]] + b[j + 1..];
        assert multiset(b)[b[i]] >= 2;
        DistinctOnce(a, b[i]);
        assert false;
      }
    }
  }

  lemma {:induction false} DistinctOnce(a: seq<string>, c: string)
    requires Distinct(a)
    ensures multiset(a)[c] <= 1
  {
    if a != [] {
      DistinctOnce(a[..|a| - 1], c);
      assert a == a[..|a| - 1] + [a[|a| - 1]];
      if a[|a| - 1] == c {
        assert c !in a[..|a| - 1];
        assert c !in multiset(a[..|a| - 1]);
      }
    }
  }

  lemma TakenOut<T>(s: seq<T>, i: nat)
    requires i < |s|
    ensures multiset(s[..i] + s[i + 1..]) + multiset{s[i]} == multiset(s)
  {
    assert s == s[..i] + [s[i]] + s[i + 1..];
  }

  lemma {:induction false} HeldReordered(groups: Groups, a: seq<string>, b: seq<string>)
    requires multiset(a) == multiset(b) && forall c | c in a :: c in groups
    requires forall c | c in b :: c in groups
    ensures Held(groups, a) == Held(groups, b)
    decreases |a|
  {
    assert |multiset(a)| == |a| && |multiset(b)| == |b|;
    if a != [] {
      var before, last := a[..|a| - 1], a[|a| - 1];
      assert last in multiset(b);
      var i :| 0 <= i < |b| && b[i] == last;
      var rest := b[..i] + b[i + 1..];
      TakenOut(b, i);
      assert a == before + [last];
      Cancel(multiset(before), multiset(rest), multiset{last});
      HeldReordered(groups, before, rest);
      HeldPull(groups, b, i);
    }
  }

  lemma {:induction false} HeldPull(groups: Groups, b: seq<string>, i: nat)
    requires i < |b| && forall c | c in b :: c in groups
    ensures forall c | c in b[..i] + b[i + 1..] :: c in groups
    ensures Held(groups, b) == Held(groups, b[..i] + b[i + 1..]) + multiset(groups[b[i]])
    decreases |b|
  {
    var before, last := b[..|b| - 1], b[|b| - 1];
    if i == |b| - 1 {
      assert b[..i] + b[i + 1..] == before;
    } else {
      HeldPull(groups, before, i);
      var rest := before[..i] + before[i + 1..];
      assert b[..i] + b[i + 1..] == rest + [last];
      assert (rest + [last])[..|rest + [last]| - 1] == rest;
    }
  }

  /** The picks of one band: everything when it fits the target, otherwise a round robin over shuffled
      lists and shuffled categories. */
  method PickBand(bucket: seq<Concept>, target: nat, shuffle: (nat, seq<Concept>) -> seq<Concept>,
                  shuffleCats: (nat, seq<string>) -> seq<string>) returns (picked: seq<Concept>)
    requires Shuffles(shuffle) && Shuffles(shuffleCats)
    ensures |picked| == Min(target, |bucket|)
    ensures multiset(picked) <= multiset(bucket)
    ensures Balanced(picked, bucket)
  {
    if |bucket| <= target {
      return bucket;
    }
    var groups, order := ShuffledGroups(bucket, shuffle, shuffleCats);
    GroupsAreOwn(groups, bucket);
    var now, idx;
    picked, now, idx := RoundRobin(groups, order, target);
    assert |multiset(bucket)| == |bucket|;
    assert picked[..target] == picked;
    FairIsBalanced(groups, now, order, picked, bucket, idx);
    return picked[..target];
  }

  method ShuffledGroups(bucket: seq<Concept>, shuffle: (nat, seq<Concept>) -> seq<Concept>,
                        shuffleCats: (nat, seq<string>) -> seq<string>) returns (groups: Groups, order: seq<string>)
    requires Shuffles(shuffle) && Shuffles(shuffleCats)
    ensures Grouping(groups, order) && GroupsOf(groups, bucket) && Held(groups, order) == multiset(bucket)
  {
    var cats;
    groups, cats := GroupByCategory(bucket);
    groups := ShuffleLists(groups, cats, bucket, shuffle);
    order := shuffleCats(0, cats);
    SameMembersDistinct(cats, order);
    HeldReordered(groups, cats, order);
  }

  ghost function Flatten(parts: seq<seq<Concept>>): multiset<Concept> {
    if parts == [] then multiset{} else Flatten(parts[..|parts| - 1]) + multiset(parts[|parts| - 1])
  }

  /** The size the targets and the bucket sizes give for the first `n` bands. */
  function ExpectedSize(pool: seq<Concept>, n: nat): nat
    requires n <= |BANDS|
  {
    if n == 0 then 0 else ExpectedSize(pool, n - 1) + Min(Target(BANDS[n - 1]), |OfBand(pool, BANDS[n - 1])|)
  }

  method FilterBand(pool: seq<Concept>, b: Band) returns (r: seq<Concept>)
    ensures r == OfBand(pool, b)
  {
    r := [];
    for i := 0 to |pool|
      invariant r == OfBand(pool[..i], b)
    {
      assert pool[..i + 1][..i] == pool[..i];
      if InBand(b, pool[i].confidence) {
        r := r + [pool[i]];
      }
    }
    assert pool[..|pool|] == pool;
  }

  /** As many members of a band as its target and its size allow, balanced across its categories. */
  ghost predicate IsPickOf(part: seq<Concept>, pool: seq<Concept>, b: Band) {
    && |part| == Min(Target(b), |OfBand(pool, b)|) && multiset(part) <= multiset(OfBand(pool, b))
    && Balanced(part, OfBand(pool, b))
  }

  method PickFrom(pool: seq<Concept>, b: Band, shuffle: (nat, seq<Concept>) -> seq<Concept>,
                  shuffleCats: (nat, seq<string>) -> seq<string>) returns (picked: seq<Concept>)
    requires Shuffles(shuffle) && Shuffles(shuffleCats)
    ensures IsPickOf(picked, pool, b)
  {
    var bucket := FilterBand(pool, b);
    picked := PickBand(bucket, Target(b), shuffle, shuffleCats);
  }

  /** The picks of the first bands, and their concatenation. */
  ghost predicate PicksOf(parts: seq<seq<Concept>>, sample: seq<Concept>, pool: seq<Concept>) {
    && |parts| <= |BANDS| && multiset(sample) == Flatten(parts) && |sample| == ExpectedSize(pool, |parts|)
    && forall i | 0 <= i < |parts| :: IsPickOf(parts[i], pool, BANDS[i])
  }

  lemma PicksGrow(parts: seq<seq<Concept>>, sample: seq<Concept>, pool: seq<Concept>, picked: seq<Concept>)
    requires PicksOf(parts, sample, pool) && |parts| < |BANDS| && IsPickOf(picked, pool, BANDS[|parts|])
    ensures PicksOf(parts + [picked], sample + picked, pool)
  {
    assert (parts + [picked])[..|parts + [picked]| - 1] == parts;
  }

  /** `stratified_sample` after the rows are read: at most 50 concepts, min(target, size) from each band
      and balanced across its categories, in worksheet order. `parts` are the picks band by band. */
  method StratifiedSample(pool: seq<Concept>, shuffle: (nat, seq<Concept>) -> seq<Concept>,
                          shuffleCats: (nat, seq<string>) -> seq<string>)
    returns (sample: seq<Concept>, ghost parts: seq<seq<Concept>>)
    requires Shuffles(shuffle) && Shuffles(shuffleCats)
    ensures SortedBy(sample, Before) && InWorksheetOrder(sample)
    ensures |parts| == |BANDS| && multiset(sample) == Flatten(parts)
    ensures forall i | 0 <= i < |BANDS| :: IsPickOf(parts[i], pool, BANDS[i])
    ensures forall i | 0 <= i < |BANDS| :: |parts[i]| == Min([10, 15, 15, 8, 2][i], |OfBand(pool, BANDS[i])|)
    ensures |sample| == ExpectedSize(pool, |BANDS|) <= 50
  {
    sample, parts := [], [];
    for i := 0 to |BANDS|
      invariant |parts| == i && PicksOf(parts, sample, pool)
    {
      var picked := PickFrom(pool, BANDS[i], shuffle, shuffleCats);
      PicksGrow(parts, sample, pool, picked);
      sample := sample + picked;
      parts := parts + [picked];
    }
    SizeBound(pool);
    sample := SortSample(sample);
    SortedIsInOrder(sample);
  }

  method SortSample(s: seq<Concept>) returns (r: seq<Concept>)
    ensures SortedBy(r, Before) && multiset(r) == multiset(s) && |r| == |s|
  {
    BeforeIsOrder();
    SortSorts(s, Before);
    r := Sort(s, Before);
    assert |multiset(r)| == |r| && |multiset(s)| == |s|;
  }

  lemma SizeBound(pool: seq<Concept>)
    ensures ExpectedSize(pool, |BANDS|) <= 50
  {
    assert ExpectedSize(pool, 1) <= 10;
    assert ExpectedSize(pool, 2) <= 25;
    assert ExpectedSize(pool, 3) <= 40;
    assert ExpectedSize(pool, 4) <= 48;
  }
}

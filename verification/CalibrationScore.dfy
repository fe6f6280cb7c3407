/** The binned calibration error between stated confidence and labelled truth. */
module CalibrationScore {
  import opened Prelude

  datatype Truth = True | Partial | False

  function FracOf(t: Truth): real {
    match t case True => 1.0 case Partial => 0.5 case False => 0.0
  }

  datatype Labeled = Labeled(confidence: real, truth: Option<Truth>)

  /** A concept with a truth label, reduced to its two numbers. */
  datatype Sample = Sample(conf: real, frac: real)

  function Fully(labeled: seq<Labeled>): seq<Sample> {
    if labeled == [] then []
    else
      var before, last := Fully(labeled[..|labeled| - 1]), labeled[|labeled| - 1];
      if last.truth.Some? then before + [Sample(last.confidence, FracOf(last.truth.value))] else before
  }

  // ---------------------------------------------------------------------------------------
  // Specification
  // ---------------------------------------------------------------------------------------

  /** `bucket_edges[i]`: evenly spaced, with the last edge moved past 1. */
  function Edge(n: nat, i: nat): real
    requires 0 < n && i <= n
  {
    if i == n then 1.01 else i as real / n as real
  }

  function Abs(x: real): real { if x < 0.0 then -x else x }

  function Inside(c: real, lo: real, hi: real): bool { lo <= c < hi }

  /** The samples whose confidence lies between two edges. */
  function Between(s: seq<Sample>, lo: real, hi: real): seq<Sample> {
    if s == [] then []
    else
      var before, last := Between(s[..|s| - 1], lo, hi), s[|s| - 1];
      if Inside(last.conf, lo, hi) then before + [last] else before
  }

  function SumConf(s: seq<Sample>): real {
    if s == [] then 0.0 else SumConf(s[..|s| - 1]) + s[|s| - 1].conf
  }

  function SumFrac(s: seq<Sample>): real {
    if s == [] then 0.0 else SumFrac(s[..|s| - 1]) + s[|s| - 1].frac
  }

  /** Total stated confidence minus total truth between two edges. */
  function Gap(s: seq<Sample>, lo: real, hi: real): real {
    SumConf(Between(s, lo, hi)) - SumFrac(Between(s, lo, hi))
  }

  predicate InBucket(c: real, n: nat, i: nat)
    requires i < n
  {
    Inside(c, Edge(n, i), Edge(n, i + 1))
  }

  /** The samples of bucket `i` of `n`. */
  function Bucket(s: seq<Sample>, n: nat, i: nat): seq<Sample>
    requires i < n
  {
    Between(s, Edge(n, i), Edge(n, i + 1))
  }

  /** The average stated confidence of a bucket equals its average truth. */
  predicate Calibrated(b: seq<Sample>)
    requires b != []
  {
    SumConf(b) / |b| as real == SumFrac(b) / |b| as real
  }

  /** The absolute gaps of the first `m` of `n` buckets, summed. */
  function TotalGap(s: seq<Sample>, n: nat, m: nat): real
    requires 0 < n && m <= n
  {
    if m == 0 then 0.0 else TotalGap(s, n, m - 1) + Abs(Gap(s, Edge(n, m - 1), Edge(n, m)))
  }

  /** The calibration error of a non-empty sample over `n` buckets. */
  function Ece(s: seq<Sample>, n: nat): real
    requires s != [] && 0 < n
  {
    TotalGap(s, n, n) / |s| as real
  }

  // ---------------------------------------------------------------------------------------
  // The program
  // ---------------------------------------------------------------------------------------

  /** The weighted difference of two averages is the difference of the sums over the whole size. */
  lemma WeightedAverages(k: real, n: real, a: real, b: real)
    requires k > 0.0 && n > 0.0
    ensures (k / n) * Abs(a / k - b / k) == Abs(a - b) / n
  {
    assert a / k - b / k == (a - b) / k;
    var d := a - b;
    if d < 0.0 {
      assert d / k < 0.0;
      assert (k / n) * (-(d / k)) == (-d) / n;
    } else {
      assert d / k >= 0.0;
      assert (k / n) * (d / k) == d / n;
    }
  }

  /** `compute_ece_continuous`; None stands for NaN. The source divides by `nBuckets`. */
  method ComputeEce(labeled: seq<Labeled>, nBuckets: nat) returns (r: Option<real>)
    requires 0 < nBuckets
    ensures r.None? <==> Fully(labeled) == []
    ensures r.Some? ==> r.value == Ece(Fully(labeled), nBuckets)
    ensures r.None? <==> forall l | l in labeled :: l.truth.None?
    ensures r.Some? ==> FitsLabels(labeled, nBuckets, r.value)
  {
    FullyCounts(labeled);
    NoneLabelled(labeled);
    var fully: seq<Sample> := [];
    for i := 0 to |labeled|
      invariant fully == Fully(labeled[..i])
    {
      assert labeled[..i + 1][..i] == labeled[..i];
      if labeled[i].truth.Some? {
        fully := fully + [Sample(labeled[i].confidence, FracOf(labeled[i].truth.value))];
      }
    }
    assert labeled[..|labeled|] == labeled;
    if fully == [] {
      return None;
    }
    var ece := 0.0;
    assert 0.0 / |fully| as real == 0.0;
    for i := 0 to nBuckets
      invariant ece == TotalGap(fully, nBuckets, i) / |fully| as real
    {
      var term := BucketTerm(fully, Edge(nBuckets, i), Edge(nBuckets, i + 1));
      AddQuotients(TotalGap(fully, nBuckets, i), Abs(Gap(fully, Edge(nBuckets, i), Edge(nBuckets, i + 1))),
          |fully| as real);
      ece := ece + term;
    }
    EceFitsLabels(labeled, nBuckets);
    return Some(ece);
  }

  lemma AddQuotients(a: real, b: real, n: real)
    requires n > 0.0
    ensures (a + b) / n == a / n + b / n
  {
  }

  /** The weighted difference of one bucket's averages; zero for an empty bucket. */
  method BucketTerm(s: seq<Sample>, lo: real, hi: real) returns (term: real)
    requires s != []
    ensures term == Abs(Gap(s, lo, hi)) / |s| as real
  {
    var count, sumConf, sumFrac := BucketSums(s, lo, hi);
    if count == 0 {
      assert 0.0 / |s| as real == 0.0;
      return 0.0;
    }
    var k, n := count as real, |s| as real;
    WeightedAverages(k, n, sumConf, sumFrac);
    term := (k / n) * Abs(sumConf / k - sumFrac / k);
  }

  lemma BetweenStep(s: seq<Sample>, lo: real, hi: real, i: nat)
    requires i < |s|
    ensures var b, a, x := Between(s[..i], lo, hi), Between(s[..i + 1], lo, hi), s[i];
            if lo <= x.conf && x.conf < hi
            then |a| == |b| + 1 && SumConf(a) == SumConf(b) + x.conf && SumFrac(a) == SumFrac(b) + x.frac
            else a == b
  {
    var b, x := Between(s[..i], lo, hi), s[i];
    assert s[..i + 1][..i] == s[..i];
    assert (b + [x])[..|b|] == b;
  }

  method BucketSums(s: seq<Sample>, lo: real, hi: real) returns (count: nat, sumConf: real, sumFrac: real)
    ensures count == |Between(s, lo, hi)| && sumConf == SumConf(Between(s, lo, hi))
            && sumFrac == SumFrac(Between(s, lo, hi))
  {
    count, sumConf, sumFrac := 0, 0.0, 0.0;
    for i := 0 to |s|
      invariant var b := Between(s[..i], lo, hi); count == |b| && sumConf == SumConf(b) && sumFrac == SumFrac(b)
    {
      BetweenStep(s, lo, hi, i);
      if lo <= s[i].conf && s[i].conf < hi {
        count, sumConf, sumFrac := count + 1, sumConf + s[i].conf, sumFrac + s[i].frac;
      }
    }
    assert s[..|s|] == s;
  }

  // ---------------------------------------------------------------------------------------
  // Edges and buckets
  // ---------------------------------------------------------------------------------------

  lemma FirstEdge(n: nat)
    requires 0 < n
    ensures Edge(n, 0) == 0.0
  {
    assert 0.0 / n as real == 0.0;
  }

  lemma EdgesIncrease(n: nat, i: nat)
    requires 0 < n && i < n
    ensures Edge(n, i) < Edge(n, i + 1)
  {
    DivisionOrder(n as real, i as real, (i + 1) as real);
    assert n as real / n as real == 1.0;
  }

  lemma DivisionOrder(n: real, a: real, b: real)
    requires n > 0.0 && a < b
    ensures a / n < b / n
  {
    assert b / n - a / n == (b - a) / n;
  }

  lemma {:induction false} EdgesOrdered(n: nat, i: nat, j: nat)
    requires 0 < n && i <= j <= n
    ensures Edge(n, i) <= Edge(n, j)
    decreases j - i
  {
    if i < j {
      EdgesOrdered(n, i, j - 1);
      EdgesIncrease(n, j - 1);
    }
  }

  /** Every confidence in [0, 1] falls in exactly one bucket, thanks to the widened last edge. */
  lemma ExactlyOneBucket(n: nat, c: real)
    requires 0 < n && 0.0 <= c <= 1.0
    ensures exists i: nat :: i < n && InBucket(c, n, i) && forall j: nat | j < n && j != i :: !InBucket(c, n, j)
  {
    var i: nat := 0;
    FirstEdge(n);
    while c >= Edge(n, i + 1)
      invariant i < n && Edge(n, i) <= c
      decreases n - i
    {
      i := i + 1;
    }
    assert InBucket(c, n, i);
    forall j: nat | j < n && j != i ensures !InBucket(c, n, j) {
      if j < i {
        EdgesOrdered(n, j + 1, i);
      } else {
        EdgesOrdered(n, i + 1, j);
      }
    }
  }

  /** Edge `i` of `n` buckets is edge `k * i` of `k * n` buckets. */
  lemma EdgesRefine(n: nat, k: nat, i: nat)
    requires 0 < n && 0 < k && i <= n
    ensures 0 < k * n && k * i <= k * n
    ensures Edge(k * n, k * i) == Edge(n, i)
  {
    MultiplyOrder(k, i, n);
    MultiplyOrder(k, 1, n);
    if i < n {
      assert k * i < k * n by { MultiplyOrder(k, i + 1, n); }
      SameRatio(k, i, n);
    }
  }

  lemma SameRatio(k: nat, i: nat, n: nat)
    requires 0 < n && 0 < k && 0 < k * n
    ensures (k * i) as real / (k * n) as real == i as real / n as real
  {
    CancelFactor(k as real, i as real, n as real);
    assert (k * i) as real == k as real * i as real;
    assert (k * n) as real == k as real * n as real;
  }

  lemma MultiplyOrder(k: nat, a: nat, b: nat)
    requires a <= b
    ensures k * a <= k * b
  {
  }

  lemma CancelFactor(k: real, a: real, b: real)
    requires k > 0.0 && b > 0.0
    ensures k * b > 0.0 && (k * a) / (k * b) == a / b
  {
    var q := a / b;
    assert q * b == a;
    assert q * (k * b) == k * a;
  }

  // ---------------------------------------------------------------------------------------
  // Gaps over split intervals
  // ---------------------------------------------------------------------------------------

  lemma {:induction false} GapSplits(s: seq<Sample>, lo: real, mid: real, hi: real)
    requires lo <= mid <= hi
    ensures Gap(s, lo, hi) == Gap(s, lo, mid) + Gap(s, mid, hi)
    ensures |Between(s, lo, hi)| == |Between(s, lo, mid)| + |Between(s, mid, hi)|
  {
    if s != [] {
      var before, last := s[..|s| - 1], s[|s| - 1];
      GapSplits(before, lo, mid, hi);
      GapStep(before, last, lo, hi);
      GapStep(before, last, lo, mid);
      GapStep(before, last, mid, hi);
      assert s == before + [last];
    }
  }

  lemma GapStep(before: seq<Sample>, last: Sample, lo: real, hi: real)
    ensures Gap(before + [last], lo, hi)
            == Gap(before, lo, hi) + (if Inside(last.conf, lo, hi) then last.conf - last.frac else 0.0)
    ensures |Between(before + [last], lo, hi)|
            == |Between(before, lo, hi)| + (if Inside(last.conf, lo, hi) then 1 else 0)
  {
    var s := before + [last];
    assert s[..|s| - 1] == before;
    var b := Between(before, lo, hi);
    assert (b + [last])[..|b + [last]| - 1] == b;
  }

  /** Adding up absolute gaps bucket by bucket is never less than the absolute gap of the joined interval. */
  lemma {:induction false} JoinedGap(s: seq<Sample>, n: nat, i: nat, j: nat)
    requires 0 < n && i <= j <= n
    ensures TotalGap(s, n, j) >= TotalGap(s, n, i) + Abs(Gap(s, Edge(n, i), Edge(n, j)))
    decreases j - i
  {
    if i == j {
      EmptyGap(s, Edge(n, i));
    } else {
      JoinedGap(s, n, i, j - 1);
      EdgesOrdered(n, i, j - 1);
      EdgesIncrease(n, j - 1);
      GapSplits(s, Edge(n, i), Edge(n, j - 1), Edge(n, j));
    }
  }

  lemma {:induction false} EmptyGap(s: seq<Sample>, e: real)
    ensures Gap(s, e, e) == 0.0
  {
    if s != [] {
      EmptyGap(s[..|s| - 1], e);
      GapStep(s[..|s| - 1], s[|s| - 1], e, e);
      assert s == s[..|s| - 1] + [s[|s| - 1]];
    }
  }

  lemma {:induction false} FinerIsLarger(s: seq<Sample>, n: nat, k: nat, m: nat)
    requires 0 < n && 0 < k && m <= n
    ensures 0 < k * n && k * m <= k * n
    ensures TotalGap(s, k * n, k * m) >= TotalGap(s, n, m)
  {
    EdgesRefine(n, k, m);
    if m > 0 {
      FinerIsLarger(s, n, k, m - 1);
      EdgesRefine(n, k, m - 1);
      assert k * (m - 1) <= k * m by { MultiplyOrder(k, m - 1, m); }
      JoinedGap(s, k * n, k * (m - 1), k * m);
    }
  }

  /** Splitting every bucket into `k` never lowers the calibration error. */
  lemma RefinementNeverLowersEce(s: seq<Sample>, n: nat, k: nat)
    requires s != [] && 0 < n && 0 < k
    ensures 0 < k * n
    ensures Ece(s, k * n) >= Ece(s, n)
  {
    FinerIsLarger(s, n, k, n);
    QuotientOrder(TotalGap(s, n, n), TotalGap(s, k * n, k * n), |s| as real);
  }

  lemma QuotientOrder(a: real, b: real, n: real)
    requires a <= b && n > 0.0
    ensures a / n <= b / n
  {
    assert b / n - a / n == (b - a) / n;
  }

  ghost predicate InRange(s: seq<Sample>) {
    forall x | x in s :: 0.0 <= x.conf <= 1.0 && 0.0 <= x.frac <= 1.0
  }

  lemma {:induction false} AllBetween(s: seq<Sample>)
    requires InRange(s)
    ensures Between(s, 0.0, 1.01) == s
  {
    if s != [] {
      AllBetween(s[..|s| - 1]);
    }
  }

  /** The error is at least the distance between mean confidence and mean truth. */
  lemma {:induction false} EceAboveMeanDifference(s: seq<Sample>, n: nat)
    requires s != [] && 0 < n && InRange(s)
    ensures Ece(s, n) >= Abs(SumConf(s) / |s| as real - SumFrac(s) / |s| as real)
  {
    AllBetween(s);
    FirstEdge(n);
    JoinedGap(s, n, 0, n);
    MeanDifference(SumConf(s), SumFrac(s), |s| as real);
    QuotientOrder(Abs(SumConf(s) - SumFrac(s)), TotalGap(s, n, n), |s| as real);
  }

  lemma MeanDifference(a: real, b: real, n: real)
    requires n > 0.0
    ensures Abs(a / n - b / n) == Abs(a - b) / n
  {
    assert a / n - b / n == (a - b) / n;
    if a - b < 0.0 {
      QuotientOrder(a - b, 0.0, n);
    } else {
      QuotientOrder(0.0, a - b, n);
    }
  }

  lemma {:induction false} GapBelowCount(s: seq<Sample>, lo: real, hi: real)
    requires InRange(s)
    ensures Abs(Gap(s, lo, hi)) <= |Between(s, lo, hi)| as real
  {
    if s != [] {
      var before, last := s[..|s| - 1], s[|s| - 1];
      GapBelowCount(before, lo, hi);
      GapStep(before, last, lo, hi);
      assert s == before + [last];
    }
  }

  lemma {:induction false} TotalGapBelowCount(s: seq<Sample>, n: nat, m: nat)
    requires 0 < n && m <= n && InRange(s)
    ensures TotalGap(s, n, m) <= |Between(s, Edge(n, 0), Edge(n, m))| as real
  {
    if m > 0 {
      TotalGapBelowCount(s, n, m - 1);
      GapBelowCount(s, Edge(n, m - 1), Edge(n, m));
      EdgesOrdered(n, 0, m - 1);
      EdgesIncrease(n, m - 1);
      GapSplits(s, Edge(n, 0), Edge(n, m - 1), Edge(n, m));
    }
  }

  /** The error is at most one. */
  lemma EceAtMostOne(s: seq<Sample>, n: nat)
    requires s != [] && 0 < n && InRange(s)
    ensures 0.0 <= Ece(s, n) <= 1.0
  {
    AllBetween(s);
    FirstEdge(n);
    TotalGapBelowCount(s, n, n);
    TotalGapZero(s, n, n);
    BetweenZeroAndOne(TotalGap(s, n, n), |s| as real);
  }

  lemma BetweenZeroAndOne(a: real, n: real)
    requires n > 0.0 && 0.0 <= a <= n
    ensures 0.0 <= a / n <= 1.0
  {
    assert (a / n) * n == a;
  }

  /** The error is zero exactly when in every non-empty bucket the average confidence is the average truth. */
  lemma EceZeroIffCalibrated(s: seq<Sample>, n: nat)
    requires s != [] && 0 < n
    ensures Ece(s, n) == 0.0 <==> forall i: nat | i < n && Bucket(s, n, i) != [] :: Calibrated(Bucket(s, n, i))
  {
    TotalGapZero(s, n, n);
    ZeroQuotient(TotalGap(s, n, n), |s| as real);
    forall i: nat | i < n ensures (Bucket(s, n, i) == [] || Calibrated(Bucket(s, n, i)))
        <==> Balanced(Bucket(s, n, i)) {
      if Bucket(s, n, i) != [] {
        var b := Bucket(s, n, i);
        SameQuotient(SumConf(b), SumFrac(b), |b| as real);
      }
    }
  }

  predicate Balanced(b: seq<Sample>) {
    SumConf(b) == SumFrac(b)
  }

  lemma ZeroQuotient(a: real, n: real)
    requires n > 0.0
    ensures a / n == 0.0 <==> a == 0.0
  {
    assert (a / n) * n == a;
  }

  lemma SameQuotient(a: real, b: real, n: real)
    requires n > 0.0
    ensures a / n == b / n <==> a == b
  {
    assert (a / n) * n == a && (b / n) * n == b;
  }

  lemma {:induction false} TotalGapZero(s: seq<Sample>, n: nat, m: nat)
    requires 0 < n && m <= n
    ensures TotalGap(s, n, m) >= 0.0
    ensures TotalGap(s, n, m) == 0.0 <==> forall i: nat | i < m :: Balanced(Bucket(s, n, i))
  {
    if m > 0 {
      TotalGapZero(s, n, m - 1);
      assert Balanced(Bucket(s, n, m - 1)) <==> Gap(s, Edge(n, m - 1), Edge(n, m)) == 0.0;
    }
  }

  // ---------------------------------------------------------------------------------------
  // The error in terms of labels
  // ---------------------------------------------------------------------------------------

  /** How many concepts carry the label. */
  function Labels(s: seq<Labeled>, t: Truth): nat {
    if s == [] then 0 else Labels(s[..|s| - 1], t) + (if s[|s| - 1].truth == Some(t) then 1 else 0)
  }

  /** How many carry any label, what confidence they state together, and how much truth their labels grant. */
  function Labelled(s: seq<Labeled>): nat { Labels(s, True) + Labels(s, Partial) + Labels(s, False) }

  function Stated(s: seq<Labeled>): real {
    if s == [] then 0.0
    else Stated(s[..|s| - 1]) + (if s[|s| - 1].truth.Some? then s[|s| - 1].confidence else 0.0)
  }

  function Granted(s: seq<Labeled>): real { Labels(s, True) as real + Labels(s, Partial) as real / 2.0 }

  /** The concepts of bucket `i` when [0, 1] is cut into `n` equal buckets and the last one keeps its upper end. */
  function Part(s: seq<Labeled>, n: nat, i: nat): seq<Labeled> {
    if s == [] then []
    else
      var before, last := Part(s[..|s| - 1], n, i), s[|s| - 1];
      if InPart(last.confidence, n, i) then before + [last] else before
  }

  predicate InPart(c: real, n: nat, i: nat) {
    i as real <= c * n as real && (c * n as real < (i + 1) as real || i + 1 == n)
  }

  ghost predicate Stating(s: seq<Labeled>) { forall l | l in s :: 0.0 <= l.confidence <= 1.0 }

  lemma {:induction false} FullyCounts(s: seq<Labeled>)
    ensures |Fully(s)| == Labelled(s) && SumConf(Fully(s)) == Stated(s) && SumFrac(Fully(s)) == Granted(s)
  {
    if s != [] {
      var before, last := s[..|s| - 1], s[|s| - 1];
      FullyCounts(before);
      if last.truth.Some? {
        var more := Fully(before) + [Sample(last.confidence, FracOf(last.truth.value))];
        assert more[..|more| - 1] == Fully(before);
      }
    }
  }

  lemma {:induction false} FullyInRange(s: seq<Labeled>)
    requires Stating(s)
    ensures InRange(Fully(s))
  {
    if s != [] {
      FullyInRange(s[..|s| - 1]);
    }
  }

  /** The test of a bucket by its edges is the test by number. */
  lemma InsideByNumber(c: real, n: nat, i: nat)
    requires i < n && 0.0 <= c <= 1.0
    ensures InBucket(c, n, i) <==> InPart(c, n, i)
  {
    BelowQuotient(c, i as real, n as real);
    BelowQuotient(c, (i + 1) as real, n as real);
  }

  lemma BelowQuotient(c: real, a: real, n: real)
    requires n > 0.0
    ensures c < a / n <==> c * n < a
  {
    var q := a / n;
    assert q * n == a;
    assert q * n - c * n == (q - c) * n;
  }

  lemma {:induction false} BucketIsPart(s: seq<Labeled>, n: nat, i: nat)
    requires i < n && Stating(s)
    ensures Bucket(Fully(s), n, i) == Fully(Part(s, n, i))
  {
    if s != [] {
      var before, last := s[..|s| - 1], s[|s| - 1];
      assert last in s && s == before + [last];
      BucketIsPart(before, n, i);
      InsideByNumber(last.confidence, n, i);
      BucketMore(before, last, n, i);
      FullyMore(Part(before, n, i), last);
    }
  }

  lemma BucketMore(before: seq<Labeled>, last: Labeled, n: nat, i: nat)
    requires i < n
    ensures Bucket(Fully(before + [last]), n, i)
            == Bucket(Fully(before), n, i) + (if InBucket(last.confidence, n, i) then Fully([last]) else [])
  {
    FullyMore(before, last);
    FullyOfOne(last);
    BetweenMore(Fully(before), Edge(n, i), Edge(n, i + 1), Fully([last]));
  }

  lemma FullyOfOne(l: Labeled)
    ensures Fully([l]) == if l.truth.Some? then [Sample(l.confidence, FracOf(l.truth.value))] else []
  {
    assert [l][..0] == [] && Fully([]) == [];
  }

  lemma FullyMore(s: seq<Labeled>, l: Labeled)
    ensures Fully(s + [l]) == Fully(s) + Fully([l])
  {
    assert (s + [l])[..|s|] == s && [l][..0] == [] && Fully([]) == [];
  }

  lemma BetweenMore(s: seq<Sample>, lo: real, hi: real, more: seq<Sample>)
    requires |more| <= 1
    ensures Between(s + more, lo, hi)
            == Between(s, lo, hi) + (if more != [] && Inside(more[0].conf, lo, hi) then more else [])
  {
    if more == [] {
      assert s + more == s;
    } else {
      assert (s + more)[..|s|] == s;
    }
  }

  lemma {:induction false} NoneLabelled(s: seq<Labeled>)
    ensures Labelled(s) == 0 <==> forall l | l in s :: l.truth.None?
  {
    if s != [] {
      var before, last := s[..|s| - 1], s[|s| - 1];
      NoneLabelled(before);
      assert s == before + [last];
      assert last.truth.Some? ==> last.truth.value.True? || last.truth.value.Partial? || last.truth.value.False?;
      assert Labelled(s) == Labelled(before) + (if last.truth.Some? then 1 else 0);
    }
  }

  /** What bucket `i` says of calibration: nothing, or that its mean confidence is its mean truth. */
  predicate PartCalibrated(s: seq<Labeled>, n: nat, i: nat) {
    var part := Part(s, n, i);
    Labelled(part) > 0 ==> Stated(part) / Labelled(part) as real == Granted(part) / Labelled(part) as real
  }

  /** What an error over `n` buckets says about the labels: for confidences in [0, 1] it is at least the distance
      between mean confidence and mean truth, and zero exactly when the two agree in every bucket that holds a label;
      and the error of one labelled concept is the distance of its confidence from the truth of its label. */
  ghost predicate FitsLabels(s: seq<Labeled>, n: nat, error: real) {
    && Labelled(s) > 0
    && (Stating(s) ==> AboveMeans(s, error) && (error == 0.0 <==> forall i: nat | i < n :: PartCalibrated(s, n, i)))
    && (|s| == 1 && Stating(s) ==> error == DistanceFromLabel(s[0]))
  }

  predicate AboveMeans(s: seq<Labeled>, error: real)
    requires Labelled(s) > 0
  {
    error >= Abs(Stated(s) / Labelled(s) as real - Granted(s) / Labelled(s) as real)
  }

  function DistanceFromLabel(l: Labeled): real {
    match l.truth
    case Some(True) => 1.0 - l.confidence
    case Some(Partial) => Abs(l.confidence - 0.5)
    case _ => l.confidence
  }

  lemma EceFitsLabels(s: seq<Labeled>, n: nat)
    requires Labelled(s) > 0 && 0 < n
    ensures Fully(s) != [] && FitsLabels(s, n, Ece(Fully(s), n))
  {
    FullyCounts(s);
    if Stating(s) {
      EceAboveLabels(s, n);
      EceZeroByLabels(s, n);
      if |s| == 1 {
        assert s[..0] == [] && s == [s[0]] && s[0] in s;
        EceOfOneLabel(s[0], n);
      }
    }
  }

  lemma EceAboveLabels(s: seq<Labeled>, n: nat)
    requires Labelled(s) > 0 && 0 < n && Stating(s)
    ensures Fully(s) != [] && AboveMeans(s, Ece(Fully(s), n))
  {
    FullyCounts(s);
    FullyInRange(s);
    EceAboveMeanDifference(Fully(s), n);
  }

  predicate BucketCalibrated(s: seq<Sample>, n: nat, i: nat)
    requires i < n
  {
    Bucket(s, n, i) != [] ==> Calibrated(Bucket(s, n, i))
  }

  lemma BucketByLabels(s: seq<Labeled>, n: nat, i: nat)
    requires i < n && Stating(s)
    ensures BucketCalibrated(Fully(s), n, i) <==> PartCalibrated(s, n, i)
  {
    BucketIsPart(s, n, i);
    FullyCounts(Part(s, n, i));
  }

  lemma EceZeroByLabels(s: seq<Labeled>, n: nat)
    requires Labelled(s) > 0 && 0 < n && Stating(s)
    ensures Fully(s) != []
    ensures Ece(Fully(s), n) == 0.0 <==> forall i: nat | i < n :: PartCalibrated(s, n, i)
  {
    FullyCounts(s);
    EceZeroIffCalibrated(Fully(s), n);
    forall i: nat | i < n ensures BucketCalibrated(Fully(s), n, i) <==> PartCalibrated(s, n, i) {
      BucketByLabels(s, n, i);
    }
    assert forall i: nat | i < n ::
        (Bucket(Fully(s), n, i) != [] ==> Calibrated(Bucket(Fully(s), n, i))) <==> BucketCalibrated(Fully(s), n, i);
  }

  /** One labelled concept: the error is its distance from the truth of its label. */
  lemma EceOfOneLabel(l: Labeled, n: nat)
    requires 0 < n && 0.0 <= l.confidence <= 1.0 && l.truth.Some?
    ensures Fully([l]) != [] && Ece(Fully([l]), n) == DistanceFromLabel(l)
  {
    var c, f := l.confidence, FracOf(l.truth.value);
    FullyOfOne(l);
    TotalGapOfOne(c, f, n);
    QuotientByOne(TotalGap([Sample(c, f)], n, n));
    assert Abs(c - f) == DistanceFromLabel(l) by { TruthDistance(l); }
  }

  lemma QuotientByOne(a: real)
    ensures a / 1 as real == a
  {
  }

  lemma TruthDistance(l: Labeled)
    requires 0.0 <= l.confidence <= 1.0 && l.truth.Some?
    ensures Abs(l.confidence - FracOf(l.truth.value)) == DistanceFromLabel(l)
  {
  }

  lemma TotalGapOfOne(c: real, f: real, n: nat)
    requires 0 < n && 0.0 <= c <= 1.0
    ensures TotalGap([Sample(c, f)], n, n) == Abs(c - f)
  {
    ExactlyOneBucket(n, c);
    var i: nat :| i < n && InBucket(c, n, i) && forall j: nat | j < n && j != i :: !InBucket(c, n, j);
    GapsOfOne(c, f, n, i, n);
  }

  lemma {:induction false} GapsOfOne(c: real, f: real, n: nat, i: nat, m: nat)
    requires i < n && m <= n && InBucket(c, n, i) && forall j: nat | j < n && j != i :: !InBucket(c, n, j)
    ensures TotalGap([Sample(c, f)], n, m) == if i < m then Abs(c - f) else 0.0
  {
    if m > 0 {
      GapsOfOne(c, f, n, i, m - 1);
      GapStep([], Sample(c, f), Edge(n, m - 1), Edge(n, m));
      assert [] + [Sample(c, f)] == [Sample(c, f)];
      assert InBucket(c, n, m - 1) <==> m - 1 == i;
    }
  }
}

/** Text order and stable sorting by an order. */
module Orders {

  /** Order of strings by code points, a prefix first. */
  predicate TextLeq(a: string, b: string) {
    a == "" || (b != "" && (a[0] < b[0] || (a[0] == b[0] && TextLeq(a[1..], b[1..]))))
  }

  lemma {:induction false} TextLeqTotal(a: string, b: string)
    ensures TextLeq(a, b) || TextLeq(b, a)
  {
    if a != "" && b != "" && a[0] == b[0] {
      TextLeqTotal(a[1..], b[1..]);
    }
  }

  lemma {:induction false} TextLeqTransitive(a: string, b: string, c: string)
    requires TextLeq(a, b) && TextLeq(b, c)
    ensures TextLeq(a, c)
  {
    if a != "" && a[0] == b[0] == c[0] {
      TextLeqTransitive(a[1..], b[1..], c[1..]);
    }
  }

  lemma {:induction false} TextLeqAntisymmetric(a: string, b: string)
    requires TextLeq(a, b) && TextLeq(b, a)
    ensures a == b
  {
    if a != "" && b != "" {
      TextLeqAntisymmetric(a[1..], b[1..]);
      assert a == [a[0]] + a[1..] && b == [b[0]] + b[1..];
    }
  }

  /** The first position where two texts differ decides; without one, the shorter comes first. */
  lemma {:induction false} TextLeqByFirstDifference(a: string, b: string)
    ensures TextLeq(a, b) <==> a <= b || exists i: nat :: i < |a| && i < |b| && a[..i] == b[..i] && a[i] < b[i]
  {
    if a != "" && b != "" {
      if a[0] == b[0] {
        TextLeqByFirstDifference(a[1..], b[1..]);
        assert a <= b <==> a[1..] <= b[1..] by {
          assert a == [a[0]] + a[1..] && b == [b[0]] + b[1..];
        }
        forall i: nat | i < |a[1..]| && i < |b[1..]| && a[1..][..i] == b[1..][..i] && a[1..][i] < b[1..][i]
            ensures a[..i + 1] == b[..i + 1] && a[i + 1] < b[i + 1] {
          assert a[..i + 1] == [a[0]] + a[1..][..i] && b[..i + 1] == [b[0]] + b[1..][..i];
        }
        forall i: nat | i < |a| && i < |b| && a[..i] == b[..i] && a[i] < b[i]
            ensures i > 0 && a[1..][..i - 1] == b[1..][..i - 1] && a[1..][i - 1] < b[1..][i - 1] {
          assert a[1..][..i - 1] == a[..i][1..] && b[1..][..i - 1] == b[..i][1..];
        }
      } else {
        assert a[..0] == b[..0];
        forall i: nat | i < |a| && i < |b| && a[..i] == b[..i] ensures i == 0 {
          FirstOfPrefix(a, i);
          FirstOfPrefix(b, i);
        }
      }
    }
  }

  lemma FirstOfPrefix(s: string, i: nat)
    requires i <= |s|
    ensures i > 0 ==> s[..i] != "" && s[..i][0] == s[0]
  {
  }

  ghost predicate IsOrder<T(!new)>(leq: (T, T) -> bool) {
    && (forall x, y :: leq(x, y) || leq(y, x))
    && (forall x, y, z :: leq(x, y) && leq(y, z) ==> leq(x, z))
  }

  ghost predicate SortedBy<T>(s: seq<T>, leq: (T, T) -> bool) {
    forall i, j | 0 <= i < j < |s| :: leq(s[i], s[j])
  }

  /** Insertion after every element that is not larger. */
  function Insert<T>(s: seq<T>, x: T, leq: (T, T) -> bool): seq<T> {
    if s == [] || leq(s[|s| - 1], x) then s + [x]
    else Insert(s[..|s| - 1], x, leq) + [s[|s| - 1]]
  }

  function Sort<T>(s: seq<T>, leq: (T, T) -> bool): seq<T> {
    if s == [] then [] else Insert(Sort(s[..|s| - 1], leq), s[|s| - 1], leq)
  }

  lemma {:induction false} InsertKeepsElements<T(!new)>(s: seq<T>, x: T, leq: (T, T) -> bool)
    ensures multiset(Insert(s, x, leq)) == multiset(s) + multiset{x}
  {
    if s != [] && !leq(s[|s| - 1], x) {
      InsertKeepsElements(s[..|s| - 1], x, leq);
      assert s == s[..|s| - 1] + [s[|s| - 1]];
    }
  }

  lemma {:induction false} InsertSorts<T(!new)>(s: seq<T>, x: T, leq: (T, T) -> bool)
    requires IsOrder(leq) && SortedBy(s, leq)
    ensures SortedBy(Insert(s, x, leq), leq)
  {
    if s == [] || leq(s[|s| - 1], x) {
      forall i | 0 <= i < |s| ensures leq(s[i], x) {
        assert i == |s| - 1 || leq(s[i], s[|s| - 1]);
      }
    } else {
      var before, last := s[..|s| - 1], s[|s| - 1];
      InsertSorts(before, x, leq);
      InsertKeepsElements(before, x, leq);
      var r := Insert(before, x, leq);
      forall i | 0 <= i < |r| ensures leq(r[i], last) {
        assert r[i] in multiset(before) + multiset{x};
      }
    }
  }

  /** Sorting gives the same elements in order. */
  lemma {:induction false} SortSorts<T(!new)>(s: seq<T>, leq: (T, T) -> bool)
    requires IsOrder(leq)
    ensures SortedBy(Sort(s, leq), leq)
    ensures multiset(Sort(s, leq)) == multiset(s)
  {
    if s != [] {
      var before, last := s[..|s| - 1], s[|s| - 1];
      SortSorts(before, leq);
      assert s == before + [last];
      InsertSorts(Sort(before, leq), last, leq);
      InsertKeepsElements(Sort(before, leq), last, leq);
    }
  }

  ghost predicate TellsApart<T>(s: multiset<T>, leq: (T, T) -> bool) {
    forall x, y | x in s && y in s && leq(x, y) && leq(y, x) :: x == y
  }

  lemma TailElements<T>(a: seq<T>)
    requires a != []
    ensures multiset(a[1..]) == multiset(a) - multiset{a[0]}
  {
    assert a == [a[0]] + a[1..];
  }

  lemma FirstsAgree<T(!new)>(a: seq<T>, b: seq<T>, leq: (T, T) -> bool)
    requires SortedBy(a, leq) && SortedBy(b, leq) && multiset(a) == multiset(b) && a != [] && b != []
    requires TellsApart(multiset(a), leq)
    ensures a[0] == b[0]
  {
    FirstIsLeast(a, b, leq);
    FirstIsLeast(b, a, leq);
    assert a[0] in multiset(a) && b[0] in multiset(b);
  }

  lemma TailsSorted<T>(a: seq<T>, leq: (T, T) -> bool)
    requires SortedBy(a, leq) && a != []
    ensures SortedBy(a[1..], leq)
  {
    forall i, j | 0 <= i < j < |a[1..]| ensures leq(a[1..][i], a[1..][j]) {
      assert leq(a[i + 1], a[j + 1]);
    }
  }

  lemma BothEmpty<T>(a: seq<T>, b: seq<T>)
    requires multiset(a) == multiset(b)
    ensures a == [] <==> b == []
  {
    assert |multiset(a)| == |a| && |multiset(b)| == |b|;
  }

  lemma TailsMatch<T(!new)>(a: seq<T>, b: seq<T>, leq: (T, T) -> bool)
    requires SortedBy(a, leq) && SortedBy(b, leq) && multiset(a) == multiset(b) && a != [] && b != []
    requires TellsApart(multiset(a), leq)
    ensures multiset(a[1..]) == multiset(b[1..]) && TellsApart(multiset(a[1..]), leq)
  {
    FirstsAgree(a, b, leq);
    TailElements(a);
    TailElements(b);
    SubsetToldApart(multiset(a[1..]), multiset(a), leq);
  }

  /** Two sorted lists of the same elements are equal when the order tells distinct elements apart. */
  lemma {:induction false} SortedIsUnique<T(!new)>(a: seq<T>, b: seq<T>, leq: (T, T) -> bool)
    requires SortedBy(a, leq) && SortedBy(b, leq) && multiset(a) == multiset(b)
    requires TellsApart(multiset(a), leq)
    ensures a == b
  {
    BothEmpty(a, b);
    if a != [] {
      FirstsAgree(a, b, leq);
      TailsMatch(a, b, leq);
      TailsSorted(a, leq);
      TailsSorted(b, leq);
      SortedIsUnique(a[1..], b[1..], leq);
      assert a == [a[0]] + a[1..] && b == [b[0]] + b[1..];
    }
  }

  lemma SubsetToldApart<T>(s: multiset<T>, t: multiset<T>, leq: (T, T) -> bool)
    requires s <= t && TellsApart(t, leq)
    ensures TellsApart(s, leq)
  {
  }

  lemma FirstIsLeast<T(!new)>(a: seq<T>, b: seq<T>, leq: (T, T) -> bool)
    requires SortedBy(a, leq) && multiset(a) == multiset(b) && a != [] && b != []
    ensures a[0] == b[0] || leq(a[0], b[0])
  {
    assert b[0] in multiset(a);
    var j :| 0 <= j < |a| && a[j] == b[0];
    assert j == 0 || leq(a[0], a[j]);
  }

  lemma TextLeqIsOrder()
    ensures IsOrder(TextLeq)
  {
    forall x: string, y: string ensures TextLeq(x, y) || TextLeq(y, x) {
      TextLeqTotal(x, y);
    }
    forall x: string, y: string, z: string | TextLeq(x, y) && TextLeq(y, z) ensures TextLeq(x, z) {
      TextLeqTransitive(x, y, z);
    }
  }
}

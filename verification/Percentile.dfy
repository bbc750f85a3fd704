/** The 95th percentile that the benchmark reports: the sample at index floor(95n/100) of the
    sorted samples. */
module Percentile {
  predicate Sorted(s: seq<real>) {
    forall i, j :: 0 <= i <= j < |s| ==> s[i] <= s[j]
  }

  function Insert(x: real, s: seq<real>): seq<real> {
    if s == [] || x <= s[0] then [x] + s else [s[0]] + Insert(x, s[1..])
  }

  function Sort(s: seq<real>): seq<real> {
    if s == [] then [] else Insert(s[0], Sort(s[1..]))
  }

  lemma HeadBounds(x: real, t: seq<real>, elements: multiset<real>)
    requires Sorted(t) && multiset(t) == elements && forall y | y in elements :: x <= y
    ensures Sorted([x] + t)
  {
    forall i | 0 <= i < |t| ensures x <= t[i] {
      assert t[i] in multiset(t);
    }
  }

  lemma {:induction false} InsertSorts(x: real, s: seq<real>)
    requires Sorted(s)
    ensures Sorted(Insert(x, s)) && multiset(Insert(x, s)) == multiset(s) + multiset{x}
  {
    if s != [] && x > s[0] {
      InsertSorts(x, s[1..]);
      assert s == [s[0]] + s[1..];
      HeadBounds(s[0], Insert(x, s[1..]), multiset(s[1..]) + multiset{x});
    }
  }

  lemma {:induction false} SortSorts(s: seq<real>)
    ensures Sorted(Sort(s)) && multiset(Sort(s)) == multiset(s)
  {
    if s != [] {
      SortSorts(s[1..]);
      InsertSorts(s[0], Sort(s[1..]));
      assert s == [s[0]] + s[1..];
    }
  }

  lemma HeadIsLeast(s: seq<real>, x: real)
    requires Sorted(s) && x in multiset(s)
    ensures s != [] && s[0] <= x
  {
    assert x in s;
  }

  lemma TailMultiset(s: seq<real>)
    requires s != []
    ensures multiset(s[1..]) == multiset(s) - multiset{s[0]}
  {
    assert s == [s[0]] + s[1..];
  }

  lemma SameHead(s: seq<real>, t: seq<real>)
    requires Sorted(s) && Sorted(t) && multiset(s) == multiset(t) && s != []
    ensures t != [] && s[0] == t[0] && multiset(s[1..]) == multiset(t[1..])
  {
    assert s[0] in multiset(s);
    HeadIsLeast(t, s[0]);
    HeadIsLeast(s, t[0]);
    TailMultiset(s);
    TailMultiset(t);
  }

  /** Sorted sequences are determined by their elements. */
  lemma {:induction false} SortedIsUnique(s: seq<real>, t: seq<real>)
    requires Sorted(s) && Sorted(t) && multiset(s) == multiset(t)
    ensures s == t
  {
    assert |multiset(s)| == |multiset(t)|;
    if s != [] {
      SameHead(s, t);
      SortedIsUnique(s[1..], t[1..]);
      assert s == [s[0]] + s[1..] && t == [t[0]] + t[1..];
    }
  }

  function Rank(n: nat): int {
    95 * n / 100
  }

  function P95(samples: seq<real>): real {
    if samples == [] then 0.0
    else
      SortSorts(samples);
      var s := Sort(samples);
      assert |s| == |samples| by { assert |multiset(s)| == |multiset(samples)|; }
      var idx := if Rank(|s|) >= |s| then |s| - 1 else Rank(|s|);
      s[idx]
  }

  function AtMost(s: seq<real>, v: real): nat {
    if s == [] then 0 else (if s[0] <= v then 1 else 0) + AtMost(s[1..], v)
  }

  lemma {:induction false} AtMostInsert(x: real, s: seq<real>, v: real)
    ensures AtMost(Insert(x, s), v) == (if x <= v then 1 else 0) + AtMost(s, v)
  {
    if s != [] && x > s[0] {
      AtMostInsert(x, s[1..], v);
    }
  }

  lemma {:induction false} AtMostSort(s: seq<real>, v: real)
    ensures AtMost(Sort(s), v) == AtMost(s, v)
  {
    if s != [] {
      AtMostSort(s[1..], v);
      AtMostInsert(s[0], Sort(s[1..]), v);
    }
  }

  /** In a sorted sequence everything up to index k is at most s[k]. */
  lemma {:induction false} AtMostSorted(s: seq<real>, k: nat)
    requires Sorted(s) && k < |s|
    ensures AtMost(s, s[k]) >= k + 1
  {
    if k > 0 {
      AtMostSorted(s[1..], k - 1);
    }
  }

  /** How many samples are strictly less than v. */
  function Below(s: seq<real>, v: real): nat {
    if s == [] then 0 else (if s[0] < v then 1 else 0) + Below(s[1..], v)
  }

  lemma {:induction false} BelowInsert(x: real, s: seq<real>, v: real)
    ensures Below(Insert(x, s), v) == (if x < v then 1 else 0) + Below(s, v)
  {
    if s != [] && x > s[0] {
      BelowInsert(x, s[1..], v);
    }
  }

  lemma {:induction false} BelowSort(s: seq<real>, v: real)
    ensures Below(Sort(s), v) == Below(s, v)
  {
    if s != [] {
      BelowSort(s[1..], v);
      BelowInsert(s[0], Sort(s[1..]), v);
    }
  }

  lemma {:induction false} NoneBelow(s: seq<real>, v: real)
    requires forall i :: 0 <= i < |s| ==> s[i] >= v
    ensures Below(s, v) == 0
  {
    if s != [] {
      NoneBelow(s[1..], v);
    }
  }

  /** In a sorted sequence at most k samples are below s[k]. */
  lemma {:induction false} BelowSorted(s: seq<real>, k: nat)
    requires Sorted(s) && k < |s|
    ensures Below(s, s[k]) <= k
  {
    if k > 0 {
      BelowSorted(s[1..], k - 1);
    } else {
      NoneBelow(s, s[0]);
    }
  }

  /** The counts fix the value: of two samples only one can have at most k samples below it and at least
      k + 1 that are at most it. */
  lemma {:induction false} CountsAreOrdered(s: seq<real>, v: real, w: real)
    requires v < w
    ensures AtMost(s, v) <= Below(s, w)
  {
    if s != [] {
      CountsAreOrdered(s[1..], v, w);
    }
  }

  /** The percentile depends on the samples only, not on their order. */
  lemma OrderIndependent(s: seq<real>, t: seq<real>)
    requires multiset(s) == multiset(t)
    ensures P95(s) == P95(t)
  {
    SortSorts(s);
    SortSorts(t);
    SortedIsUnique(Sort(s), Sort(t));
    assert |multiset(s)| == |multiset(t)|;
  }

  /** It is the sample of rank floor(95n/100), counting from 0: it is one of the samples, at most that
      many samples are below it, more than that many are at most it, and no other number has both. */
  lemma IsOrderStatistic(samples: seq<real>)
    requires samples != []
    ensures var n, v := |samples|, P95(samples);
            && 0 <= 95 * n / 100 < n && v in samples
            && Below(samples, v) <= 95 * n / 100 < AtMost(samples, v)
            && forall w: real :: Below(samples, w) <= 95 * n / 100 < AtMost(samples, w) ==> w == v
    ensures P95([]) == 0.0
  {
    var n, s := |samples|, Sort(samples);
    SortSorts(samples);
    assert |s| == n by { assert |multiset(s)| == |multiset(samples)|; }
    var v := s[Rank(n)];
    AtMostSorted(s, Rank(n));
    AtMostSort(samples, v);
    BelowSorted(s, Rank(n));
    BelowSort(samples, v);
    assert v in multiset(s);
    forall w: real | Below(samples, w) <= Rank(n) < AtMost(samples, w) ensures w == v {
      if w < v {
        CountsAreOrdered(samples, w, v);
      } else if v < w {
        CountsAreOrdered(samples, v, w);
      }
    }
  }

  /** More than 95 percent of the samples are at most it, at most n - 1 - floor(95n/100) are above it,
      and the index never needs clamping. */
  lemma CoversNinetyFivePercent(samples: seq<real>)
    requires samples != []
    ensures var n, v := |samples|, P95(samples);
            && 0 <= 95 * n / 100 < n
            && v in samples
            && 100 * AtMost(samples, v) > 95 * n
            && n - AtMost(samples, v) <= n - 1 - 95 * n / 100
  {
    IsOrderStatistic(samples);
  }
}

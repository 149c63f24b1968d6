/** Medians: the sort-based ones of backend/internal/calculator/subcomponents.go
    and gaming.go, and SQL's PERCENTILE_CONT(0.5), all read off the two middle
    order statistics of a sample. */
module Median {

  predicate Sorted(s: seq<int>) {
    forall i, j :: 0 <= i < j < |s| ==> s[i] <= s[j]
  }

  function Insert(x: int, s: seq<int>): (r: seq<int>)
    ensures |r| == |s| + 1 && multiset(r) == multiset(s) + multiset{x}
  {
    if |s| == 0 then [x]
    else if x <= s[0] then [x] + s
    else
      assert s == [s[0]] + s[1..];
      [s[0]] + Insert(x, s[1..])
  }

  lemma {:induction false} InsertSorts(x: int, s: seq<int>)
    requires Sorted(s)
    ensures Sorted(Insert(x, s))
  {
    if |s| != 0 && x > s[0] {
      var rest := Insert(x, s[1..]);
      InsertSorts(x, s[1..]);
      forall i | 0 <= i < |rest| ensures s[0] <= rest[i] {
        assert rest[i] in multiset(rest);
        assert rest[i] == x || rest[i] in s[1..];
      }
    }
  }

  /** The library sort. */
  function SortAsc(s: seq<int>): (r: seq<int>)
    ensures Sorted(r) && multiset(r) == multiset(s) && |r| == |s|
  {
    if |s| == 0 then []
    else
      assert s == s[..|s| - 1] + [s[|s| - 1]];
      var rest := SortAsc(s[..|s| - 1]);
      InsertSorts(s[|s| - 1], rest);
      Insert(s[|s| - 1], rest)
  }

  /** The two middle order statistics; they coincide for odd lengths. */
  function Lower(xs: seq<int>): int
    requires |xs| > 0
  {
    SortAsc(xs)[(|xs| - 1) / 2]
  }

  function Upper(xs: seq<int>): int
    requires |xs| > 0
  {
    SortAsc(xs)[|xs| / 2]
  }

  /** Go's `/ 2`: halving truncates toward zero. */
  function TruncHalf(n: int): int { if n >= 0 then n / 2 else -(-n / 2) }

  /** The integer median: half the sum of the two middle values. */
  function MedianOf(xs: seq<int>): int
    requires |xs| > 0
  {
    TruncHalf(Lower(xs) + Upper(xs))
  }

  /** PERCENTILE_CONT(0.5), interpolating between the two middle values. */
  function PercentileCont(xs: seq<int>): real
    requires |xs| > 0
  {
    (Lower(xs) + Upper(xs)) as real / 2.0
  }

  // ---------- order statistics by counting ----------

  function CountAtMost(xs: seq<int>, z: int): (c: nat)
    ensures c <= |xs|
  {
    if |xs| == 0 then 0
    else CountAtMost(xs[..|xs| - 1], z) + if xs[|xs| - 1] <= z then 1 else 0
  }

  lemma {:induction false} CountOfConcat(a: seq<int>, b: seq<int>, z: int)
    ensures CountAtMost(a + b, z) == CountAtMost(a, z) + CountAtMost(b, z)
  {
    if |b| == 0 {
      assert a + b == a;
    } else {
      assert (a + b)[..|a + b| - 1] == a + b[..|b| - 1];
      CountOfConcat(a, b[..|b| - 1], z);
    }
  }

  lemma CountWithout(s: seq<int>, j: nat, z: int)
    requires j < |s|
    ensures var rest := s[..j] + s[j + 1..];
      && multiset(rest) == multiset(s) - multiset{s[j]}
      && CountAtMost(s, z) == CountAtMost(rest, z) + if s[j] <= z then 1 else 0
  {
    assert s == s[..j] + [s[j]] + s[j + 1..];
    CountOfConcat(s[..j] + [s[j]], s[j + 1..], z);
    CountOfConcat(s[..j], [s[j]], z);
    CountOfConcat(s[..j], s[j + 1..], z);
  }

  lemma {:induction false} CountIgnoresOrder(a: seq<int>, b: seq<int>, z: int)
    requires multiset(a) == multiset(b)
    ensures CountAtMost(a, z) == CountAtMost(b, z)
    decreases |a|
  {
    if |a| == 0 {
      assert |b| == |multiset(b)| == |multiset(a)| == 0;
    } else {
      hide CountAtMost;
      var k := |a| - 1;
      assert a[k] in multiset(b);
      var j :| 0 <= j < |b| && b[j] == a[k];
      CountWithout(a, k, z);
      CountWithout(b, j, z);
      assert a[..k] + a[k + 1..] == a[..k];
      CountIgnoresOrder(a[..k], b[..j] + b[j + 1..], z);
    }
  }

  lemma {:induction false} CountSorted(s: seq<int>, k: nat, z: int)
    requires Sorted(s) && k < |s|
    ensures s[k] <= z <==> CountAtMost(s, z) >= k + 1
  {
    var n := |s| - 1;
    if k == n {
      if s[n] <= z {
        CountAll(s, z);
      } else {
        assert CountAtMost(s, z) == CountAtMost(s[..n], z) <= n;
      }
    } else {
      CountSorted(s[..n], k, z);
      if s[n] <= z {
        CountAll(s, z);
        assert s[k] <= s[n];
      }
    }
  }

  lemma {:induction false} CountAll(s: seq<int>, z: int)
    requires forall i :: 0 <= i < |s| ==> s[i] <= z
    ensures CountAtMost(s, z) == |s|
  {
    if |s| != 0 {
      CountAll(s[..|s| - 1], z);
    }
  }

  /** Each middle value is determined by how many samples lie at or below each point. */
  lemma MiddleByCount(xs: seq<int>, z: int)
    requires |xs| > 0
    ensures Lower(xs) <= z <==> CountAtMost(xs, z) >= (|xs| - 1) / 2 + 1
    ensures Upper(xs) <= z <==> CountAtMost(xs, z) >= |xs| / 2 + 1
    ensures Lower(xs) <= Upper(xs)
  {
    hide CountAtMost, Insert, SortAsc;
    var s := SortAsc(xs);
    CountIgnoresOrder(s, xs, z);
    CountSorted(s, (|xs| - 1) / 2, z);
    CountSorted(s, |xs| / 2, z);
  }

  // ---------- the median as a function of the sample ----------

  /** Input order is irrelevant. */
  lemma MedianIgnoresOrder(xs: seq<int>, ys: seq<int>)
    requires |xs| > 0 && multiset(xs) == multiset(ys)
    ensures |ys| == |xs|
    ensures MedianOf(xs) == MedianOf(ys) && PercentileCont(xs) == PercentileCont(ys)
  {
    assert |ys| == |multiset(ys)| == |multiset(xs)| == |xs|;
    MiddlesIgnoreOrder(xs, ys);
  }

  lemma MiddlesIgnoreOrder(xs: seq<int>, ys: seq<int>)
    requires |xs| == |ys| > 0 && multiset(xs) == multiset(ys)
    ensures Lower(xs) == Lower(ys) && Upper(xs) == Upper(ys)
  {
    NotAbove(xs, ys);
    NotAbove(ys, xs);
  }

  lemma NotAbove(xs: seq<int>, ys: seq<int>)
    requires |xs| == |ys| > 0 && multiset(xs) == multiset(ys)
    ensures Lower(xs) <= Lower(ys) && Upper(xs) <= Upper(ys)
  {
    hide Lower, Upper, CountAtMost;
    CountIgnoresOrder(xs, ys, Lower(ys));
    CountIgnoresOrder(xs, ys, Upper(ys));
    MiddleByCount(xs, Lower(ys));
    MiddleByCount(ys, Lower(ys));
    MiddleByCount(xs, Upper(ys));
    MiddleByCount(ys, Upper(ys));
  }

  lemma {:induction false} CountFalls(xs: seq<int>, ys: seq<int>, z: int)
    requires |xs| == |ys|
    requires forall i :: 0 <= i < |xs| ==> xs[i] <= ys[i]
    ensures CountAtMost(ys, z) <= CountAtMost(xs, z)
  {
    if |xs| != 0 {
      CountFalls(xs[..|xs| - 1], ys[..|ys| - 1], z);
    }
  }

  /** Larger samples, pointwise, have a larger median. */
  lemma MedianGrows(xs: seq<int>, ys: seq<int>)
    requires |xs| == |ys| > 0
    requires forall i :: 0 <= i < |xs| ==> xs[i] <= ys[i]
    ensures MedianOf(xs) <= MedianOf(ys) && PercentileCont(xs) <= PercentileCont(ys)
  {
    CountFalls(xs, ys, Lower(ys));
    CountFalls(xs, ys, Upper(ys));
    MiddleByCount(xs, Lower(ys));
    MiddleByCount(ys, Lower(ys));
    MiddleByCount(xs, Upper(ys));
    MiddleByCount(ys, Upper(ys));
    assert Lower(xs) <= Lower(ys) && Upper(xs) <= Upper(ys);
  }

  // ---------- mirrored samples ----------

  function Negated(xs: seq<int>): (r: seq<int>)
    ensures |r| == |xs| && forall i :: 0 <= i < |xs| ==> r[i] == -xs[i]
  {
    seq(|xs|, i requires 0 <= i < |xs| => -xs[i])
  }

  lemma {:induction false} CountNegated(xs: seq<int>, z: int)
    ensures CountAtMost(Negated(xs), z) == |xs| - CountAtMost(xs, -z - 1)
  {
    if |xs| != 0 {
      var k := |xs| - 1;
      assert Negated(xs)[..k] == Negated(xs[..k]);
      CountNegated(xs[..k], z);
    }
  }

  lemma NegatedMiddles(xs: seq<int>, z: int)
    requires |xs| > 0
    ensures Lower(Negated(xs)) <= z <==> -Upper(xs) <= z
    ensures Upper(Negated(xs)) <= z <==> -Lower(xs) <= z
  {
    hide Lower, Upper, CountAtMost;
    CountNegated(xs, z);
    MiddleByCount(Negated(xs), z);
    MiddleByCount(xs, -z - 1);
  }

  /** Both medians are symmetric: the median of the negated sample is the negated
      median, so that of two middle values it favours neither. */
  lemma MedianOfNegated(xs: seq<int>)
    requires |xs| > 0
    ensures MedianOf(Negated(xs)) == -MedianOf(xs)
    ensures PercentileCont(Negated(xs)) == -PercentileCont(xs)
  {
    hide Lower, Upper;
    NegatedMiddles(xs, -Upper(xs));
    NegatedMiddles(xs, -Lower(xs));
    NegatedMiddles(xs, Lower(Negated(xs)));
    NegatedMiddles(xs, Upper(Negated(xs)));
  }

  // ---------- absolute deviations ----------

  function Distance(a: int, b: int): nat { if a <= b then b - a else a - b }

  function TotalDeviation(xs: seq<int>, c: int): nat {
    if |xs| == 0 then 0
    else TotalDeviation(xs[..|xs| - 1], c) + Distance(xs[|xs| - 1], c)
  }

  /** Moving the centre up by one trades the samples above for those at or below. */
  lemma {:induction false} DeviationStep(xs: seq<int>, c: int)
    ensures TotalDeviation(xs, c + 1) == TotalDeviation(xs, c) + 2 * CountAtMost(xs, c) - |xs|
  {
    if |xs| != 0 {
      DeviationStep(xs[..|xs| - 1], c);
    }
  }

  /** To the right of both middle values the deviation does not fall, and past the
      upper one it rises. */
  lemma {:induction false} DeviationRises(xs: seq<int>, m: int, c: int)
    requires |xs| > 0 && Lower(xs) <= m <= c
    ensures TotalDeviation(xs, m) <= TotalDeviation(xs, c)
    ensures m <= Upper(xs) < c ==> TotalDeviation(xs, m) < TotalDeviation(xs, c)
    decreases c - m
  {
    if m < c {
      DeviationRises(xs, m, c - 1);
      DeviationStep(xs, c - 1);
      MiddleByCount(xs, c - 1);
    }
  }

  lemma {:induction false} DeviationFalls(xs: seq<int>, c: int, m: int)
    requires |xs| > 0 && c <= m <= Upper(xs)
    ensures TotalDeviation(xs, m) <= TotalDeviation(xs, c)
    ensures c < Lower(xs) <= m ==> TotalDeviation(xs, m) < TotalDeviation(xs, c)
    decreases m - c
  {
    if c < m {
      DeviationFalls(xs, c + 1, m);
      DeviationStep(xs, c);
      MiddleByCount(xs, c);
    }
  }

  /** Main result. A centre minimises the total absolute deviation over all
      integers exactly when it lies between the two middle values, and the median
      does. */
  lemma MedianMinimisesDeviation(xs: seq<int>, c: int)
    requires |xs| > 0
    ensures TotalDeviation(xs, MedianOf(xs)) <= TotalDeviation(xs, c)
    ensures TotalDeviation(xs, c) == TotalDeviation(xs, MedianOf(xs)) <==> Lower(xs) <= c <= Upper(xs)
  {
    var m := MedianOf(xs);
    MiddleByCount(xs, c);
    assert Lower(xs) <= m <= Upper(xs);
    if c >= m {
      DeviationRises(xs, m, c);
      if c <= Upper(xs) {
        DeviationFalls(xs, m, c);
      }
    } else {
      DeviationFalls(xs, c, m);
      if Lower(xs) <= c {
        DeviationRises(xs, c, m);
      }
    }
  }

  // ---------- pooling samples ----------

  function Max(a: int, b: int): int { if a >= b then a else b }

  function Min(a: int, b: int): int { if a <= b then a else b }

  function Middles(xs: seq<int>): int
    requires |xs| > 0
  {
    Lower(xs) + Upper(xs)
  }

  /** The pooled middles are at most those of one of the two samples. */
  lemma PoolingIsBoundedAbove(a: seq<int>, b: seq<int>)
    requires |a| > 0 && |b| > 0
    ensures Middles(a + b) <= Max(Middles(a), Middles(b))
  {
    hide Lower, Upper, CountAtMost;
    var lo := Max(Lower(a), Lower(b));
    var hi := if Lower(a) >= Lower(b) then Upper(a) else Upper(b);
    CountOfConcat(a, b, lo);
    CountOfConcat(a, b, hi);
    MiddleByCount(a, lo);
    MiddleByCount(b, lo);
    MiddleByCount(a + b, lo);
    MiddleByCount(a, hi);
    MiddleByCount(b, hi);
    MiddleByCount(a + b, hi);
    MiddleByParity(a);
    MiddleByParity(b);
    MiddleByParity(a + b);
  }

  lemma MiddleByParity(xs: seq<int>)
    requires |xs| > 0
    ensures |xs| % 2 == 1 ==> Lower(xs) == Upper(xs)
    ensures Lower(xs) <= Upper(xs)
  {}

  lemma PoolingIsBoundedBelow(a: seq<int>, b: seq<int>)
    requires |a| > 0 && |b| > 0
    ensures Middles(a + b) >= Min(Middles(a), Middles(b))
  {
    hide Lower, Upper, CountAtMost;
    var hi := Min(Upper(a), Upper(b)) - 1;
    var lo := (if Upper(a) <= Upper(b) then Lower(a) else Lower(b)) - 1;
    CountOfConcat(a, b, lo);
    CountOfConcat(a, b, hi);
    MiddleByCount(a, lo);
    MiddleByCount(b, lo);
    MiddleByCount(a + b, lo);
    MiddleByCount(a, hi);
    MiddleByCount(b, hi);
    MiddleByCount(a + b, hi);
    MiddleByParity(a);
    MiddleByParity(b);
    MiddleByParity(a + b);
  }

  function Pool(bags: seq<seq<int>>): seq<int> {
    if |bags| == 0 then [] else Pool(bags[..|bags| - 1]) + bags[|bags| - 1]
  }

  /** Main result. The median of pooled samples lies between the smallest and the
      largest median of the non-empty parts. */
  lemma {:induction false} PooledMedianIsBetween(bags: seq<seq<int>>, low: real, high: real)
    requires forall i :: 0 <= i < |bags| && |bags[i]| > 0 ==> low <= PercentileCont(bags[i]) <= high
    ensures |Pool(bags)| > 0 ==> low <= PercentileCont(Pool(bags)) <= high
  {
    if |bags| != 0 {
      hide Lower, Upper;
      var rest, last := Pool(bags[..|bags| - 1]), bags[|bags| - 1];
      PooledMedianIsBetween(bags[..|bags| - 1], low, high);
      if |rest| == 0 {
        assert Pool(bags) == last;
      } else if |last| == 0 {
        assert Pool(bags) == rest;
      } else {
        PoolingIsBoundedAbove(rest, last);
        PoolingIsBoundedBelow(rest, last);
      }
    }
  }
}

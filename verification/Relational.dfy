/** Just enough SQL: tables are bags of rows written as sequences, an inner join
    carries its ON and WHERE conditions together, and aggregates are sums. */
module Relational {

  function Where<A>(xs: seq<A>, p: A -> bool): (r: seq<A>)
    ensures forall x :: x in r ==> x in xs && p(x)
  {
    if |xs| == 0 then []
    else
      var k := |xs| - 1;
      Where(xs[..k], p) + if p(xs[k]) then [xs[k]] else []
  }

  /** The rows joined to one left row. */
  function Matches<A, B>(a: A, ys: seq<B>, on: (A, B) -> bool): (r: seq<(A, B)>)
    ensures forall row :: row in r ==> row.0 == a && row.1 in ys && on(a, row.1)
  {
    if |ys| == 0 then []
    else
      var k := |ys| - 1;
      Matches(a, ys[..k], on) + if on(a, ys[k]) then [(a, ys[k])] else []
  }

  function Join<A, B>(xs: seq<A>, ys: seq<B>, on: (A, B) -> bool): (r: seq<(A, B)>)
    ensures forall row :: row in r ==> row.0 in xs && row.1 in ys && on(row.0, row.1)
  {
    if |xs| == 0 then []
    else
      var k := |xs| - 1;
      Join(xs[..k], ys, on) + Matches(xs[k], ys, on)
  }

  function SumOf<A>(xs: seq<A>, f: A -> int): int {
    if |xs| == 0 then 0 else SumOf(xs[..|xs| - 1], f) + f(xs[|xs| - 1])
  }

  /** A value where a condition holds, zero elsewhere. */
  function Only<A>(p: A -> bool, f: A -> int): A -> int {
    a => if p(a) then f(a) else 0
  }

  /** A value of the left row of a joined pair. */
  function OnLeft<A, B>(f: A -> int): ((A, B)) -> int { (row: (A, B)) => f(row.0) }

  /** A value of a row's column. */
  function Column<A>(column: A -> int, f: int -> int): A -> int { x => f(column(x)) }

  function One<A>(): A -> int { (a: A) => 1 }

  lemma {:induction false} SumOfConcat<A>(a: seq<A>, b: seq<A>, f: A -> int)
    ensures SumOf(a + b, f) == SumOf(a, f) + SumOf(b, f)
  {
    if |b| == 0 {
      assert a + b == a;
    } else {
      assert (a + b)[..|a + b| - 1] == a + b[..|b| - 1];
      SumOfConcat(a, b[..|b| - 1], f);
    }
  }

  lemma {:induction false} SumOfWhere<A>(xs: seq<A>, p: A -> bool, f: A -> int)
    ensures SumOf(Where(xs, p), f) == SumOf(xs, Only(p, f))
  {
    if |xs| != 0 {
      var k := |xs| - 1;
      SumOfWhere(xs[..k], p, f);
      SumOfConcat(Where(xs[..k], p), if p(xs[k]) then [xs[k]] else [], f);
    }
  }

  lemma {:induction false} SumOfAgrees<A>(xs: seq<A>, f: A -> int, g: A -> int)
    requires forall i :: 0 <= i < |xs| ==> f(xs[i]) == g(xs[i])
    ensures SumOf(xs, f) == SumOf(xs, g)
  {
    if |xs| != 0 {
      SumOfAgrees(xs[..|xs| - 1], f, g);
    }
  }

  lemma {:induction false} SumOfTwo<A>(xs: seq<A>, f: A -> int, g: A -> int, h: A -> int)
    requires forall i :: 0 <= i < |xs| ==> h(xs[i]) == f(xs[i]) + g(xs[i])
    ensures SumOf(xs, h) == SumOf(xs, f) + SumOf(xs, g)
  {
    if |xs| != 0 {
      SumOfTwo(xs[..|xs| - 1], f, g, h);
    }
  }

  lemma {:induction false} CountIsSum<A>(xs: seq<A>)
    ensures SumOf(xs, One()) == |xs|
  {
    if |xs| != 0 {
      CountIsSum(xs[..|xs| - 1]);
    }
  }

  lemma {:induction false} SumOfZero<A>(xs: seq<A>)
    ensures SumOf(xs, (a: A) => 0) == 0
  {
    if |xs| != 0 {
      SumOfZero(xs[..|xs| - 1]);
    }
  }

  lemma {:induction false} SumOfMatches<A, B>(a: A, ys: seq<B>, on: (A, B) -> bool, f: A -> int)
    ensures SumOf(Matches(a, ys, on), OnLeft(f)) == SumOf(ys, (y: B) => if on(a, y) then f(a) else 0)
  {
    if |ys| != 0 {
      var k := |ys| - 1;
      SumOfMatches(a, ys[..k], on, f);
      SumOfConcat(Matches(a, ys[..k], on), if on(a, ys[k]) then [(a, ys[k])] else [], OnLeft(f));
    }
  }

  /** What one right row receives in a join. */
  function Share<A, B>(xs: seq<A>, on: (A, B) -> bool, f: A -> int): B -> int {
    (y: B) => SumOf(Where(xs, x => on(x, y)), f)
  }

  lemma {:induction false} WhereAgrees<A>(xs: seq<A>, p: A -> bool, q: A -> bool)
    requires forall i :: 0 <= i < |xs| ==> p(xs[i]) == q(xs[i])
    ensures Where(xs, p) == Where(xs, q)
  {
    if |xs| != 0 {
      WhereAgrees(xs[..|xs| - 1], p, q);
    }
  }

  lemma {:induction false} WhereNone<A>(xs: seq<A>, p: A -> bool)
    requires forall i :: 0 <= i < |xs| ==> !p(xs[i])
    ensures Where(xs, p) == []
  {
    if |xs| != 0 {
      WhereNone(xs[..|xs| - 1], p);
    }
  }

  lemma {:induction false} WhereIff<A>(xs: seq<A>, p: A -> bool)
    ensures |Where(xs, p)| > 0 <==> exists x :: x in xs && p(x)
  {
    if |xs| != 0 {
      var k := |xs| - 1;
      WhereIff(xs[..k], p);
      assert xs[k] in xs;
      assert forall x :: x in xs ==> x in xs[..k] || x == xs[k];
    }
  }

  lemma ShareOf<A, B>(xs: seq<A>, on: (A, B) -> bool, f: A -> int, y: B, p: A -> bool)
    requires forall i :: 0 <= i < |xs| ==> p(xs[i]) == on(xs[i], y)
    ensures Share(xs, on, f)(y) == SumOf(Where(xs, p), f)
  {
    hide Where, SumOf;
    WhereAgrees(xs, x => on(x, y), p);
  }

  /** Main result. Summing over a join is summing, over the right rows, what each
      receives: no key is needed, and a left row matched twice counts twice. */
  lemma {:induction false} JoinBySharing<A, B>(xs: seq<A>, ys: seq<B>, on: (A, B) -> bool, f: A -> int)
    ensures SumOf(Join(xs, ys, on), OnLeft(f)) == SumOf(ys, Share(xs, on, f))
  {
    if |xs| == 0 {
      SumOfZero(ys);
      SumOfAgrees(ys, Share(xs, on, f), (y: B) => 0);
    } else {
      var k := |xs| - 1;
      var last := (y: B) => if on(xs[k], y) then f(xs[k]) else 0;
      JoinBySharing(xs[..k], ys, on, f);
      SumOfConcat(Join(xs[..k], ys, on), Matches(xs[k], ys, on), OnLeft(f));
      SumOfMatches(xs[k], ys, on, f);
      forall i | 0 <= i < |ys|
        ensures Share(xs, on, f)(ys[i]) == Share(xs[..k], on, f)(ys[i]) + last(ys[i])
      {
        var p := x => on(x, ys[i]);
        SumOfConcat(Where(xs[..k], p), if p(xs[k]) then [xs[k]] else [], f);
      }
      SumOfTwo(ys, Share(xs[..k], on, f), last, Share(xs, on, f));
    }
  }

  // ---------- which rows ----------

  lemma {:induction false} WhereMembers<A>(xs: seq<A>, p: A -> bool)
    ensures forall x :: x in Where(xs, p) <==> x in xs && p(x)
  {
    if |xs| != 0 {
      var k := |xs| - 1;
      WhereMembers(xs[..k], p);
      assert forall x :: x in xs <==> x in xs[..k] || x == xs[k];
    }
  }

  lemma {:induction false} MatchesMembers<A, B>(a: A, ys: seq<B>, on: (A, B) -> bool, y: B)
    ensures (a, y) in Matches(a, ys, on) <==> y in ys && on(a, y)
  {
    if |ys| != 0 {
      var k := |ys| - 1;
      MatchesMembers(a, ys[..k], on, y);
      assert y in ys <==> y in ys[..k] || y == ys[k];
    }
  }

  lemma {:induction false} JoinMembers<A, B>(xs: seq<A>, ys: seq<B>, on: (A, B) -> bool, x: A, y: B)
    ensures (x, y) in Join(xs, ys, on) <==> x in xs && y in ys && on(x, y)
  {
    if |xs| != 0 {
      var k := |xs| - 1;
      JoinMembers(xs[..k], ys, on, x, y);
      MatchesMembers(xs[k], ys, on, y);
      assert x in xs <==> x in xs[..k] || x == xs[k];
    }
  }

  ghost predicate NoTwice<A>(xs: seq<A>) {
    forall i, j :: 0 <= i < j < |xs| ==> xs[i] != xs[j]
  }

  lemma {:induction false} WhereNoTwice<A>(xs: seq<A>, p: A -> bool)
    requires NoTwice(xs)
    ensures NoTwice(Where(xs, p))
  {
    if |xs| != 0 {
      var k := |xs| - 1;
      WhereNoTwice(xs[..k], p);
      assert forall x :: x in xs[..k] ==> x != xs[k];
    }
  }

  lemma {:induction false} MatchesNoTwice<A, B>(a: A, ys: seq<B>, on: (A, B) -> bool)
    requires NoTwice(ys)
    ensures NoTwice(Matches(a, ys, on))
  {
    if |ys| != 0 {
      var k := |ys| - 1;
      MatchesNoTwice(a, ys[..k], on);
      assert forall y :: y in ys[..k] ==> y != ys[k];
    }
  }

  lemma {:induction false} JoinNoTwice<A, B>(xs: seq<A>, ys: seq<B>, on: (A, B) -> bool)
    requires NoTwice(xs) && NoTwice(ys)
    ensures NoTwice(Join(xs, ys, on))
  {
    if |xs| != 0 {
      var k := |xs| - 1;
      JoinNoTwice(xs[..k], ys, on);
      MatchesNoTwice(xs[k], ys, on);
      assert forall x :: x in xs[..k] ==> x != xs[k];
    }
  }

  // ---------- keys ----------

  ghost predicate Keyed<A>(xs: seq<A>, key: A -> int) {
    forall i, j :: 0 <= i < j < |xs| ==> key(xs[i]) != key(xs[j])
  }

  lemma KeyedNoTwice<A>(xs: seq<A>, key: A -> int)
    requires Keyed(xs, key)
    ensures NoTwice(xs)
  {}

  function KeysOf<A>(xs: seq<A>, key: A -> int): set<int> { set i | 0 <= i < |xs| :: key(xs[i]) }

  /** Grouping keyed rows by their key makes one group per row. */
  lemma {:induction false} GroupsOfKeyed<A>(xs: seq<A>, key: A -> int)
    requires Keyed(xs, key)
    ensures |KeysOf(xs, key)| == |xs|
  {
    if |xs| != 0 {
      var k := |xs| - 1;
      GroupsOfKeyed(xs[..k], key);
      assert KeysOf(xs, key) == KeysOf(xs[..k], key) + {key(xs[k])};
      assert key(xs[k]) !in KeysOf(xs[..k], key);
    }
  }

  lemma {:induction false} WhereKeepsKeys<A>(xs: seq<A>, p: A -> bool, key: A -> int)
    requires Keyed(xs, key)
    ensures Keyed(Where(xs, p), key)
  {
    if |xs| != 0 {
      var k := |xs| - 1;
      WhereKeepsKeys(xs[..k], p, key);
      assert forall x :: x in xs[..k] ==> key(x) != key(xs[k]);
    }
  }

  /** At most one right row per left row when the right table is keyed. */
  lemma {:induction false} MatchesOfKeyed<A, B>(a: A, ys: seq<B>, on: (A, B) -> bool, keyY: B -> int, wanted: int)
    requires Keyed(ys, keyY) && forall y :: y in ys && on(a, y) ==> keyY(y) == wanted
    ensures |Matches(a, ys, on)| <= 1
  {
    if |ys| != 0 {
      var k := |ys| - 1;
      MatchesOfKeyed(a, ys[..k], on, keyY, wanted);
      if on(a, ys[k]) {
        assert forall i :: 0 <= i < k ==> ys[i] in ys && keyY(ys[i]) != keyY(ys[k]);
        NoMatches(a, ys[..k], on);
      }
    }
  }

  lemma {:induction false} NoMatches<A, B>(a: A, ys: seq<B>, on: (A, B) -> bool)
    requires forall i :: 0 <= i < |ys| ==> !on(a, ys[i])
    ensures Matches(a, ys, on) == []
  {
    if |ys| != 0 {
      NoMatches(a, ys[..|ys| - 1], on);
    }
  }

  lemma {:induction false} JoinKeepsKeys<A, B>(
      xs: seq<A>, ys: seq<B>, on: (A, B) -> bool, key: A -> int, keyY: B -> int, ref: A -> int)
    requires Keyed(xs, key) && Keyed(ys, keyY)
    requires forall x, y :: x in xs && y in ys && on(x, y) ==> keyY(y) == ref(x)
    ensures Keyed(Join(xs, ys, on), (row: (A, B)) => key(row.0))
  {
    if |xs| != 0 {
      var k := |xs| - 1;
      JoinKeepsKeys(xs[..k], ys, on, key, keyY, ref);
      MatchesOfKeyed(xs[k], ys, on, keyY, ref(xs[k]));
      assert forall x :: x in xs[..k] ==> key(x) != key(xs[k]);
      assert forall row :: row in Join(xs[..k], ys, on) ==> key(row.0) != key(xs[k]);
    }
  }
}

/**
 The score-tuple enumeration of the grade solver: every way of scoring the items
 of one component, from 0 up to each item's perfect score, listed in the order
 `itertools.product` produces them (the first item varies slowest, the last item
 fastest).
 */
module Enumeration {

  /** A tuple of item scores fits the perfect scores: one entry per item, each
      at most that item's perfect score (entries are `nat`, so never negative). */
  predicate InBounds(t: seq<nat>, ps: seq<nat>) {
    |t| == |ps| && forall n :: 0 <= n < |t| ==> t[n] <= ps[n]
  }

  /** The number of tuples that fit `ps`: the product of `ps[n] + 1`. */
  function Count(ps: seq<nat>): (n: nat)
    ensures n >= 1
  {
    if |ps| == 0 then 1 else (ps[0] + 1) * Count(ps[1..])
  }

  /** The all-zero tuple of length `len`. */
  function Zeros(len: nat): seq<nat> {
    seq(len, _ => 0)
  }

  /** Lexicographic "strictly before" on score tuples, the order in which
      `itertools.product` lists its output. */
  predicate LexLess(a: seq<nat>, b: seq<nat>)
    decreases |a|
  {
    |a| > 0 && |b| > 0 && (a[0] < b[0] || (a[0] == b[0] && LexLess(a[1..], b[1..])))
  }

  /** Every tuple is strictly before every later one. */
  predicate StrictlySorted(ts: seq<seq<nat>>) {
    forall x, y :: 0 <= x < y < |ts| ==> LexLess(ts[x], ts[y])
  }

  /** `v` put in front of every tuple of `tails`. */
  function Prefixed(v: nat, tails: seq<seq<nat>>): (r: seq<seq<nat>>)
    ensures |r| == |tails|
  {
    seq(|tails|, n requires 0 <= n < |tails| => [v] + tails[n])
  }

  /** The blocks `Prefixed(v, tails)`, `Prefixed(v + 1, tails)`, ...,
      `Prefixed(p, tails)` one after the other: the outer loop of the product
      for one item whose score runs from `v` to `p`. */
  function Spread(v: nat, p: nat, tails: seq<seq<nat>>): (r: seq<seq<nat>>)
    requires v <= p + 1
    decreases p + 1 - v
    ensures v <= p ==> |r| >= |tails|
    ensures forall n :: 0 <= n < |r| ==> |r[n]| > 0 && v <= r[n][0] <= p && r[n][1..] in tails
    ensures v <= p && |tails| > 0 ==> r[0] == [v] + tails[0]
    ensures v <= p && |tails| > 0 ==> r[|r| - 1] == [p] + tails[|tails| - 1]
  {
    if v > p then []
    else
      var head := Prefixed(v, tails);
      var rest := Spread(v + 1, p, tails);
      var r := head + rest;
      forall n | 0 <= n < |r|
        ensures |r[n]| > 0 && v <= r[n][0] <= p && r[n][1..] in tails
      {
        if n < |head| {
          assert r[n][1..] == tails[n];
        } else {
          assert r[n] == rest[n - |head|];
        }
      }
      r
  }

  /** Models `generate_score_combinations(perfect_scores)`: the list of all
      score tuples, `itertools.product(range(p0 + 1), range(p1 + 1), ...)`.
      Every tuple fits, the first is all zeros and the last is the perfect
      scores themselves. */
  function Product(ps: seq<nat>): (r: seq<seq<nat>>)
    ensures |r| > 0
    ensures forall n :: 0 <= n < |r| ==> InBounds(r[n], ps)
    ensures r[0] == Zeros(|ps|)
    ensures r[|r| - 1] == ps
  {
    if |ps| == 0 then [[]]
    else
      var tails := Product(ps[1..]);
      SpreadFits(ps, tails);
      Spread(0, ps[0], tails)
  }

  /** The step of `Product`: spreading the first item's scores over tails that
      fit the remaining items. */
  lemma SpreadFits(ps: seq<nat>, tails: seq<seq<nat>>)
    requires |ps| > 0 && |tails| > 0
    requires forall n :: 0 <= n < |tails| ==> InBounds(tails[n], ps[1..])
    requires tails[0] == Zeros(|ps| - 1) && tails[|tails| - 1] == ps[1..]
    ensures forall n :: 0 <= n < |Spread(0, ps[0], tails)| ==> InBounds(Spread(0, ps[0], tails)[n], ps)
    ensures Spread(0, ps[0], tails)[0] == Zeros(|ps|)
    ensures Spread(0, ps[0], tails)[|Spread(0, ps[0], tails)| - 1] == ps
  {
    var r := Spread(0, ps[0], tails);
    forall n | 0 <= n < |r|
      ensures InBounds(r[n], ps)
    {
      assert r[n][1..] in tails;
      InBoundsCons(r[n], ps);
    }
    assert r[0] == [0] + tails[0];
    assert r[|r| - 1] == [ps[0]] + ps[1..];
  }

  /** Each block of `Spread` holds every tail once. */
  lemma {:induction false} SpreadLength(v: nat, p: nat, tails: seq<seq<nat>>)
    requires v <= p + 1
    ensures |Spread(v, p, tails)| == (p + 1 - v) * |tails|
    decreases p + 1 - v
  {
    if v <= p {
      SpreadLength(v + 1, p, tails);
      MulSucc(p - v, |tails|);
    }
  }

  lemma MulSucc(a: nat, n: nat)
    ensures (a + 1) * n == n + a * n
  {
  }

  /** Output length: `generate_score_combinations(ps)` holds the product of
      `ps[n] + 1` tuples. */
  lemma {:induction false} ProductCount(ps: seq<nat>)
    ensures |Product(ps)| == Count(ps)
    decreases |ps|
  {
    if |ps| > 0 {
      ProductCount(ps[1..]);
      SpreadLength(0, ps[0], Product(ps[1..]));
    }
  }

  /** A tuple fits when its head fits the first item and its tail fits the rest. */
  lemma InBoundsCons(t: seq<nat>, ps: seq<nat>)
    requires |t| > 0 && |ps| > 0
    requires t[0] <= ps[0] && InBounds(t[1..], ps[1..])
    ensures InBounds(t, ps)
  {
    forall n | 0 <= n < |t|
      ensures t[n] <= ps[n]
    {
      if n > 0 {
        assert t[n] == t[1..][n - 1];
      }
    }
  }

  /** Every block of `Spread` holds every tail behind every score in range. */
  lemma {:induction false} SpreadContains(v: nat, p: nat, tails: seq<seq<nat>>, x: nat, tail: seq<nat>)
    requires v <= x <= p
    requires tail in tails
    ensures [x] + tail in Spread(v, p, tails)
    decreases p - v
  {
    var n :| 0 <= n < |tails| && tails[n] == tail;
    if x == v {
      assert Prefixed(v, tails)[n] == [x] + tail;
    } else {
      SpreadContains(v + 1, p, tails, x, tail);
    }
  }

  /** Completeness: every tuple that fits the perfect scores is generated. */
  lemma {:induction false} ProductComplete(ps: seq<nat>, t: seq<nat>)
    requires InBounds(t, ps)
    ensures t in Product(ps)
    decreases |ps|
  {
    if |ps| == 0 {
      assert t == [];
    } else {
      assert InBounds(t[1..], ps[1..]) by {
        forall n | 0 <= n < |t[1..]|
          ensures t[1..][n] <= ps[1..][n]
        {
          assert t[1..][n] == t[n + 1];
        }
      }
      ProductComplete(ps[1..], t[1..]);
      SpreadContains(0, ps[0], Product(ps[1..]), t[0], t[1..]);
      assert [t[0]] + t[1..] == t;
    }
  }

  /** No tuple is strictly before itself. */
  lemma {:induction false} LexLessIrreflexive(a: seq<nat>)
    ensures !LexLess(a, a)
    decreases |a|
  {
    if |a| > 0 {
      LexLessIrreflexive(a[1..]);
    }
  }

  /** Strictly-before never holds both ways. */
  lemma {:induction false} LexLessAsymmetric(a: seq<nat>, b: seq<nat>)
    requires LexLess(a, b)
    ensures !LexLess(b, a)
    decreases |a|
  {
    if a[0] == b[0] {
      LexLessAsymmetric(a[1..], b[1..]);
    }
  }

  /** Putting the same score in front keeps the order of two tails. */
  lemma PrefixKeepsOrder(v: nat, a: seq<nat>, b: seq<nat>)
    requires LexLess(a, b)
    ensures LexLess([v] + a, [v] + b)
  {
    assert ([v] + a)[1..] == a;
    assert ([v] + b)[1..] == b;
  }

  /** Each `Spread` is strictly sorted when its tails are. */
  lemma {:induction false} SpreadSorted(v: nat, p: nat, tails: seq<seq<nat>>)
    requires v <= p + 1
    requires StrictlySorted(tails)
    ensures StrictlySorted(Spread(v, p, tails))
    decreases p + 1 - v
  {
    if v <= p {
      var head := Prefixed(v, tails);
      var rest := Spread(v + 1, p, tails);
      SpreadSorted(v + 1, p, tails);
      var r := Spread(v, p, tails);
      assert r == head + rest;
      forall x, y | 0 <= x < y < |r|
        ensures LexLess(r[x], r[y])
      {
        if y < |head| {
          PrefixKeepsOrder(v, tails[x], tails[y]);
        } else if x >= |head| {
          assert r[x] == rest[x - |head|] && r[y] == rest[y - |head|];
        } else {
          assert r[y] in rest;
          assert r[x][0] == v < r[y][0];
        }
      }
    }
  }

  /** Ordering: the generated tuples come in strictly increasing
      lexicographic order, last item varying fastest. */
  lemma {:induction false} ProductSorted(ps: seq<nat>)
    ensures StrictlySorted(Product(ps))
    decreases |ps|
  {
    if |ps| > 0 {
      ProductSorted(ps[1..]);
      SpreadSorted(0, ps[0], Product(ps[1..]));
    }
  }

  /** Uniqueness: no tuple is generated twice. */
  lemma ProductUnique(ps: seq<nat>, x: nat, y: nat)
    requires x < |Product(ps)| && y < |Product(ps)| && x != y
    ensures Product(ps)[x] != Product(ps)[y]
  {
    ProductSorted(ps);
    var r := Product(ps);
    if x < y {
      assert LexLess(r[x], r[y]);
      LexLessIrreflexive(r[x]);
    } else {
      assert LexLess(r[y], r[x]);
      LexLessIrreflexive(r[y]);
    }
  }

  /** In a strictly sorted list, the order of two entries is the order of
      their positions. */
  lemma SortedPositions(ts: seq<seq<nat>>, x: nat, y: nat)
    requires StrictlySorted(ts)
    requires x < |ts| && y < |ts|
    ensures LexLess(ts[x], ts[y]) ==> x < y
    ensures ts[x] == ts[y] ==> x == y
  {
    if y < x {
      LexLessAsymmetric(ts[y], ts[x]);
      LexLessIrreflexive(ts[x]);
    } else {
      LexLessIrreflexive(ts[x]);
    }
  }
}

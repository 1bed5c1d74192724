/**
 The brute-force search of the grade solver: walk every written tuple, within
 it every performance tuple, within that every assessment tuple, and stop at
 the first triple that passes the match test.

 The search is written over any match test on triples of tuples; `Solve`
 plugs in the test of autoGrader.py:40 (the final grade rounds to the target).
 */
module Solver {
  import opened Enumeration
  import opened Grading
  import opened Rounding

  datatype Option<T> = None | Some(value: T)

  /** A test on a (written, performance, assessment) triple of score tuples. */
  type MatchTest = (seq<nat>, seq<nat>, seq<nat>) -> bool

  /** Positions in the written, performance and assessment lists. */
  datatype Hit = Hit(i: nat, j: nat, k: nat)

  /** What one run of the solver ends with: the first matching triple, the
      report that none matches, or the `ZeroDivisionError` the component grade
      raises when a component's perfect scores add up to zero. */
  datatype Outcome =
    | Found(written: seq<nat>, performance: seq<nat>, assessment: seq<nat>)
    | NotFound
    | DivisionByZero

  predicate InRange(h: Hit, W: seq<seq<nat>>, P: seq<seq<nat>>, A: seq<seq<nat>>) {
    h.i < |W| && h.j < |P| && h.k < |A|
  }

  /** `x` comes strictly before `y` in the nested loop order: written
      outermost, assessment innermost. */
  predicate Before(x: Hit, y: Hit) {
    x.i < y.i || (x.i == y.i && (x.j < y.j || (x.j == y.j && x.k < y.k)))
  }

  predicate HitMatches(good: MatchTest, W: seq<seq<nat>>, P: seq<seq<nat>>, A: seq<seq<nat>>, h: Hit)
    requires InRange(h, W, P, A)
  {
    good(W[h.i], P[h.j], A[h.k])
  }

  /** The nested search resumed at position (i, j, k): the first matching
      position at or after it. */
  function SearchFrom(good: MatchTest, W: seq<seq<nat>>, P: seq<seq<nat>>, A: seq<seq<nat>>,
                      i: nat, j: nat, k: nat): (r: Option<Hit>)
    requires i <= |W| && j <= |P| && k <= |A|
    decreases |W| - i, |P| - j, |A| - k
    ensures r.Some? ==> InRange(r.value, W, P, A) && !Before(r.value, Hit(i, j, k))
    ensures r.Some? ==> HitMatches(good, W, P, A, r.value)
    ensures r.Some? ==> forall h :: (InRange(h, W, P, A) && !Before(h, Hit(i, j, k)) && Before(h, r.value))
                                      ==> !HitMatches(good, W, P, A, h)
    ensures r.None? ==> forall h :: (InRange(h, W, P, A) && !Before(h, Hit(i, j, k)))
                                      ==> !HitMatches(good, W, P, A, h)
  {
    if i == |W| then None
    else if j == |P| then SearchFrom(good, W, P, A, i + 1, 0, 0)
    else if k == |A| then SearchFrom(good, W, P, A, i, j + 1, 0)
    else if good(W[i], P[j], A[k]) then Some(Hit(i, j, k))
    else SearchFrom(good, W, P, A, i, j, k + 1)
  }

  /** The whole nested search over the three lists: sound, the first match in
      nested order, and "none" only when nothing matches. */
  function Search(good: MatchTest, W: seq<seq<nat>>, P: seq<seq<nat>>, A: seq<seq<nat>>): (r: Option<Hit>)
    ensures r.Some? ==> InRange(r.value, W, P, A) && HitMatches(good, W, P, A, r.value)
    ensures r.Some? ==> forall h :: InRange(h, W, P, A) && Before(h, r.value) ==> !HitMatches(good, W, P, A, h)
    ensures r.None? ==> forall h :: InRange(h, W, P, A) ==> !HitMatches(good, W, P, A, h)
  {
    SearchFrom(good, W, P, A, 0, 0, 0)
  }

  /** autoGrader.py:31-51 as written: three nested loops, a `found` flag and a `break`
      out of each loop once a match is seen. It finds what `Search` finds. */
  method SearchLoop(good: MatchTest, W: seq<seq<nat>>, P: seq<seq<nat>>, A: seq<seq<nat>>) returns (r: Option<Hit>)
    ensures r == Search(good, W, P, A)
  {
    var found := false;
    r := None;
    var i := 0;
    while i < |W|
      invariant i <= |W|
      invariant !found && r.None?
      invariant SearchFrom(good, W, P, A, i, 0, 0) == Search(good, W, P, A)
    {
      var j := 0;
      while j < |P|
        invariant j <= |P|
        invariant !found && r.None?
        invariant SearchFrom(good, W, P, A, i, j, 0) == Search(good, W, P, A)
      {
        var k := 0;
        while k < |A|
          invariant k <= |A|
          invariant !found && r.None?
          invariant SearchFrom(good, W, P, A, i, j, k) == Search(good, W, P, A)
        {
          if good(W[i], P[j], A[k]) {
            r := Some(Hit(i, j, k));
            found := true;
            break;
          }
          k := k + 1;
        }
        if found {
          break;
        }
        j := j + 1;
      }
      if found {
        break;
      }
      i := i + 1;
    }
  }

  /** Nested order on triples of score tuples: written first, then
      performance, then assessment, each lexicographic. */
  predicate Earlier(w': seq<nat>, p': seq<nat>, a': seq<nat>, w: seq<nat>, p: seq<nat>, a: seq<nat>) {
    LexLess(w', w) || (w' == w && (LexLess(p', p) || (p' == p && LexLess(a', a))))
  }

  /** The three tuples fit the three components' perfect scores. */
  predicate Fits(pw: seq<nat>, pp: seq<nat>, pa: seq<nat>, w: seq<nat>, p: seq<nat>, a: seq<nat>) {
    InBounds(w, pw) && InBounds(p, pp) && InBounds(a, pa)
  }

  /** Generate the three lists (autoGrader.py:26-28) and search them; report the
      matching tuples themselves. */
  function Run(good: MatchTest, pw: seq<nat>, pp: seq<nat>, pa: seq<nat>): (r: Option<(seq<nat>, seq<nat>, seq<nat>)>)
    ensures r.Some? ==> Fits(pw, pp, pa, r.value.0, r.value.1, r.value.2)
    ensures r.Some? ==> good(r.value.0, r.value.1, r.value.2)
  {
    var W := Product(pw);
    var P := Product(pp);
    var A := Product(pa);
    match Search(good, W, P, A)
    case None => None
    case Some(h) => Some((W[h.i], P[h.j], A[h.k]))
  }

  /** A fitting tuple has a position in its component's list. */
  lemma PositionOf(ps: seq<nat>, t: seq<nat>) returns (n: nat)
    requires InBounds(t, ps)
    ensures n < |Product(ps)| && Product(ps)[n] == t
  {
    ProductComplete(ps, t);
    var x :| 0 <= x < |Product(ps)| && Product(ps)[x] == t;
    n := x;
  }

  /** In sorted lists, a triple earlier in the nested order of tuples sits at
      an earlier position. */
  lemma EarlierIsBefore(W: seq<seq<nat>>, P: seq<seq<nat>>, A: seq<seq<nat>>, x: Hit, y: Hit)
    requires StrictlySorted(W) && StrictlySorted(P) && StrictlySorted(A)
    requires InRange(x, W, P, A) && InRange(y, W, P, A)
    requires Earlier(W[x.i], P[x.j], A[x.k], W[y.i], P[y.j], A[y.k])
    ensures Before(x, y)
  {
    SortedPositions(W, x.i, y.i);
    SortedPositions(P, x.j, y.j);
    SortedPositions(A, x.k, y.k);
  }

  /** A fitting triple earlier than the one the search found fails the test. */
  lemma EarlierTripleFails(good: MatchTest, pw: seq<nat>, pp: seq<nat>, pa: seq<nat>, h: Hit,
                           w: seq<nat>, p: seq<nat>, a: seq<nat>)
    requires Search(good, Product(pw), Product(pp), Product(pa)) == Some(h)
    requires Fits(pw, pp, pa, w, p, a)
    requires Earlier(w, p, a, Product(pw)[h.i], Product(pp)[h.j], Product(pa)[h.k])
    ensures !good(w, p, a)
  {
    var W, P, A := Product(pw), Product(pp), Product(pa);
    var i := PositionOf(pw, w);
    var j := PositionOf(pp, p);
    var k := PositionOf(pa, a);
    ProductSorted(pw);
    ProductSorted(pp);
    ProductSorted(pa);
    EarlierIsBefore(W, P, A, Hit(i, j, k), h);
    NothingBeforeFound(good, W, P, A, h, Hit(i, j, k));
  }

  /** No position before the one the search found passes the test. */
  lemma NothingBeforeFound(good: MatchTest, W: seq<seq<nat>>, P: seq<seq<nat>>, A: seq<seq<nat>>, h: Hit, x: Hit)
    requires Search(good, W, P, A) == Some(h)
    requires InRange(x, W, P, A) && Before(x, h)
    ensures !good(W[x.i], P[x.j], A[x.k])
  {
    assert !HitMatches(good, W, P, A, x);
  }

  /** When the search found nothing, every fitting triple fails the test. */
  lemma FittingTripleFails(good: MatchTest, pw: seq<nat>, pp: seq<nat>, pa: seq<nat>,
                           w: seq<nat>, p: seq<nat>, a: seq<nat>)
    requires Search(good, Product(pw), Product(pp), Product(pa)).None?
    requires Fits(pw, pp, pa, w, p, a)
    ensures !good(w, p, a)
  {
    var i := PositionOf(pw, w);
    var j := PositionOf(pp, p);
    var k := PositionOf(pa, a);
    NothingFoundAt(good, Product(pw), Product(pp), Product(pa), Hit(i, j, k));
  }

  /** When the search found nothing, no position passes the test. */
  lemma NothingFoundAt(good: MatchTest, W: seq<seq<nat>>, P: seq<seq<nat>>, A: seq<seq<nat>>, h: Hit)
    requires Search(good, W, P, A).None?
    requires InRange(h, W, P, A)
    ensures !good(W[h.i], P[h.j], A[h.k])
  {
    assert !HitMatches(good, W, P, A, h);
  }

  /** First match: no fitting triple earlier in the nested order than the
      reported one passes the test. */
  lemma RunFirstMatch(good: MatchTest, pw: seq<nat>, pp: seq<nat>, pa: seq<nat>)
    requires Run(good, pw, pp, pa).Some?
    ensures var s := Run(good, pw, pp, pa).value;
            forall w, p, a :: Fits(pw, pp, pa, w, p, a) && Earlier(w, p, a, s.0, s.1, s.2) ==> !good(w, p, a)
  {
    var h := Search(good, Product(pw), Product(pp), Product(pa)).value;
    forall w, p, a | Fits(pw, pp, pa, w, p, a) && Earlier(w, p, a, Product(pw)[h.i], Product(pp)[h.j], Product(pa)[h.k])
      ensures !good(w, p, a)
    {
      EarlierTripleFails(good, pw, pp, pa, h, w, p, a);
    }
  }

  /** Failure completeness, both ways: the search reports nothing exactly
      when no fitting triple passes the test. */
  lemma RunNoneIff(good: MatchTest, pw: seq<nat>, pp: seq<nat>, pa: seq<nat>)
    ensures Run(good, pw, pp, pa).None? <==> forall w, p, a :: Fits(pw, pp, pa, w, p, a) ==> !good(w, p, a)
  {
    if Search(good, Product(pw), Product(pp), Product(pa)).None? {
      forall w, p, a | Fits(pw, pp, pa, w, p, a)
        ensures !good(w, p, a)
      {
        FittingTripleFails(good, pw, pp, pa, w, p, a);
      }
    } else {
      var s := Run(good, pw, pp, pa).value;
      assert Fits(pw, pp, pa, s.0, s.1, s.2) && good(s.0, s.1, s.2);
    }
  }

  /** The test of autoGrader.py:40 on one triple of tuples: its final grade rounds
      to the target. */
  predicate IsMatch(cfg: Config, w: seq<nat>, p: seq<nat>, a: seq<nat>) {
    WellFormed(cfg) && Matches(FinalGrade(cfg, w, p, a), cfg.target)
  }

  function Matcher(cfg: Config): MatchTest {
    (w, p, a) => IsMatch(cfg, w, p, a)
  }

  /** Models the whole script of autoGrader.py:26-54. Every component's perfect total
      must be positive, or the first grade computed divides by zero. */
  function Solve(cfg: Config): (r: Outcome)
    ensures r.DivisionByZero? <==> !WellFormed(cfg)
    ensures r.Found? ==> Fits(cfg.written.perfect, cfg.performance.perfect, cfg.assessment.perfect,
                              r.written, r.performance, r.assessment)
    ensures r.Found? ==> IsMatch(cfg, r.written, r.performance, r.assessment)
  {
    if !WellFormed(cfg) then DivisionByZero
    else
      match Run(Matcher(cfg), cfg.written.perfect, cfg.performance.perfect, cfg.assessment.perfect)
      case None => NotFound
      case Some(s) => Found(s.0, s.1, s.2)
  }

  /** First match for the solver: no fitting triple earlier in the nested
      order than the reported one rounds to the target. */
  lemma SolveFirstMatch(cfg: Config)
    ensures Solve(cfg).Found? ==>
              var s := Solve(cfg);
              forall w, p, a :: Fits(cfg.written.perfect, cfg.performance.perfect, cfg.assessment.perfect, w, p, a)
                                && Earlier(w, p, a, s.written, s.performance, s.assessment)
                                ==> !IsMatch(cfg, w, p, a)
  {
    if Solve(cfg).Found? {
      RunFirstMatch(Matcher(cfg), cfg.written.perfect, cfg.performance.perfect, cfg.assessment.perfect);
    }
  }

  /** "No combination found" is reported exactly when the totals are usable
      and no fitting triple rounds to the target. */
  lemma SolveNotFoundIff(cfg: Config)
    ensures Solve(cfg).NotFound? <==>
              WellFormed(cfg)
              && forall w, p, a :: Fits(cfg.written.perfect, cfg.performance.perfect, cfg.assessment.perfect, w, p, a)
                                   ==> !IsMatch(cfg, w, p, a)
  {
    RunNoneIff(Matcher(cfg), cfg.written.perfect, cfg.performance.perfect, cfg.assessment.perfect);
  }

  /** A target out of reach is never found: with non-negative weights every
      final grade lies in [0, sum of weights], so a target at least one
      hundredth outside that range ends in "no combination found". */
  lemma SolveOutOfReach(cfg: Config)
    requires WellFormed(cfg)
    requires cfg.written.weight >= 0 && cfg.performance.weight >= 0 && cfg.assessment.weight >= 0
    requires var top := (cfg.written.weight + cfg.performance.weight + cfg.assessment.weight) as real;
             cfg.target >= top + 0.01 || cfg.target <= -0.01
    ensures Solve(cfg) == NotFound
  {
    var top := (cfg.written.weight + cfg.performance.weight + cfg.assessment.weight) as real;
    forall w, p, a | Fits(cfg.written.perfect, cfg.performance.perfect, cfg.assessment.perfect, w, p, a)
      ensures !IsMatch(cfg, w, p, a)
    {
      FinalGradeBounds(cfg, w, p, a);
      NoMatchOutside(FinalGrade(cfg, w, p, a), 0.0, top, cfg.target);
    }
    SolveNotFoundIff(cfg);
  }
}

/**
 The grade formulas of the solver: the percentage grade of one component and
 the weighted final grade of the three components (Written Works, Performance
 Tasks, Quarterly Assessment). Python's floating point is replaced by exact
 `real` arithmetic.
 */
module Grading {
  import opened Enumeration

  /** One graded category: the perfect score of each of its items and its
      weight in percent. */
  datatype Component = Component(perfect: seq<nat>, weight: int)

  /** Everything the solver is given: the three components and the target
      final grade. */
  datatype Config = Config(written: Component, performance: Component, assessment: Component, target: real)

  /** Python's `sum` over a list of scores. */
  function Sum(s: seq<nat>): nat {
    if |s| == 0 then 0 else s[0] + Sum(s[1..])
  }

  /** Every component's perfect scores add up to more than zero, so that no
      component grade divides by zero. */
  predicate WellFormed(cfg: Config) {
    Sum(cfg.written.perfect) > 0 && Sum(cfg.performance.perfect) > 0 && Sum(cfg.assessment.perfect) > 0
  }

  /** A tuple that fits the perfect scores never totals more than they do. */
  lemma {:induction false} SumBounded(s: seq<nat>, ps: seq<nat>)
    requires InBounds(s, ps)
    ensures Sum(s) <= Sum(ps)
    decreases |s|
  {
    if |s| > 0 {
      assert InBounds(s[1..], ps[1..]) by {
        forall n | 0 <= n < |s| - 1
          ensures s[1..][n] <= ps[1..][n]
        {
          assert s[1..][n] == s[n + 1] && ps[1..][n] == ps[n + 1];
        }
      }
      SumBounded(s[1..], ps[1..]);
    }
  }

  /** Replacing one score changes the total by exactly the difference. */
  lemma {:induction false} SumUpdate(s: seq<nat>, n: nat, x: nat)
    requires n < |s|
    ensures Sum(s[n := x]) == Sum(s) - s[n] + x
    decreases |s|
  {
    if n > 0 {
      SumUpdate(s[1..], n - 1, x);
      assert s[n := x][1..] == s[1..][n - 1 := x];
    }
  }

  /** Models `calculate_component_grade(scores, perfect_scores)`: the share of
      the perfect total that the scores reach, in percent. The source divides
      without a guard, so the perfect total must be positive. */
  function ComponentGrade(s: seq<nat>, ps: seq<nat>): (g: real)
    requires Sum(ps) > 0
    ensures 0.0 <= g
    ensures g == 0.0 <==> Sum(s) == 0
    ensures InBounds(s, ps) ==> g <= 100.0
    ensures InBounds(s, ps) ==> (g == 100.0 <==> s == ps)
  {
    PercentFacts(Sum(s) as real, Sum(ps) as real);
    FittingTotals(s, ps);
    (Sum(s) as real / Sum(ps) as real) * 100.0
  }

  /** What a fitting tuple's total says: at most the perfect total, and equal
      to it only for the perfect tuple. */
  lemma FittingTotals(s: seq<nat>, ps: seq<nat>)
    ensures InBounds(s, ps) ==> Sum(s) <= Sum(ps)
    ensures InBounds(s, ps) ==> (Sum(s) == Sum(ps) <==> s == ps)
  {
    if InBounds(s, ps) {
      SumBounded(s, ps);
      EqualTotalsFull(s, ps);
    }
  }

  /** The facts about `total / perfect * 100` behind `ComponentGrade`, on reals
      alone. */
  lemma PercentFacts(total: real, perfect: real)
    requires perfect > 0.0 && total >= 0.0
    ensures 0.0 <= (total / perfect) * 100.0
    ensures (total / perfect) * 100.0 == 0.0 <==> total == 0.0
    ensures total <= perfect ==> (total / perfect) * 100.0 <= 100.0
    ensures (total / perfect) * 100.0 == 100.0 <==> total == perfect
  {
  }

  /** A tuple that fits the perfect scores and reaches their total is the
      perfect tuple itself. */
  lemma {:induction false} EqualTotalsFull(s: seq<nat>, ps: seq<nat>)
    requires InBounds(s, ps)
    ensures Sum(s) == Sum(ps) <==> s == ps
    decreases |s|
  {
    if |s| > 0 {
      assert InBounds(s[1..], ps[1..]) by {
        forall n | 0 <= n < |s| - 1
          ensures s[1..][n] <= ps[1..][n]
        {
          assert s[1..][n] == s[n + 1] && ps[1..][n] == ps[n + 1];
        }
      }
      EqualTotalsFull(s[1..], ps[1..]);
      SumBounded(s[1..], ps[1..]);
      if s[1..] == ps[1..] && s[0] == ps[0] {
        assert s == [s[0]] + s[1..] && ps == [ps[0]] + ps[1..];
      }
    }
  }

  /** The final grade of autoGrader.py:38: the weighted average of the three component
      grades, weights in percent. */
  function FinalGrade(cfg: Config, w: seq<nat>, p: seq<nat>, a: seq<nat>): real
    requires WellFormed(cfg)
  {
    Weighted(ComponentGrade(w, cfg.written.perfect), cfg.written.weight as real,
      ComponentGrade(p, cfg.performance.perfect), cfg.performance.weight as real,
      ComponentGrade(a, cfg.assessment.perfect), cfg.assessment.weight as real)
  }

  /** Three percentages averaged with weights given in percent. */
  function Weighted(g1: real, w1: real, g2: real, w2: real, g3: real, w3: real): real {
    (g1 * w1 + g2 * w2 + g3 * w3) / 100.0
  }

  /** The final grade depends only on the three component totals, not on how
      the points are spread over the items. */
  lemma FinalGradeDependsOnTotals(cfg: Config, w: seq<nat>, p: seq<nat>, a: seq<nat>,
                                  w': seq<nat>, p': seq<nat>, a': seq<nat>)
    requires WellFormed(cfg)
    requires Sum(w) == Sum(w') && Sum(p) == Sum(p') && Sum(a) == Sum(a')
    ensures FinalGrade(cfg, w, p, a) == FinalGrade(cfg, w', p', a')
  {
    assert ComponentGrade(w, cfg.written.perfect) == ComponentGrade(w', cfg.written.perfect);
    assert ComponentGrade(p, cfg.performance.perfect) == ComponentGrade(p', cfg.performance.perfect);
    assert ComponentGrade(a, cfg.assessment.perfect) == ComponentGrade(a', cfg.assessment.perfect);
  }

  /** Moving one point from item `i` to item `j` of a component leaves its
      grade unchanged. */
  lemma MovePointKeepsGrade(s: seq<nat>, ps: seq<nat>, i: nat, j: nat)
    requires Sum(ps) > 0
    requires i < |s| && j < |s| && s[i] > 0
    ensures ComponentGrade(s[i := s[i] - 1][j := s[i := s[i] - 1][j] + 1], ps) == ComponentGrade(s, ps)
  {
    var moved := s[i := s[i] - 1];
    SumUpdate(s, i, s[i] - 1);
    SumUpdate(moved, j, moved[j] + 1);
  }

  /** With non-negative weights and scores that fit, the final grade lies
      between 0 and the sum of the weights (so in [0, 100] when the weights
      add up to 100). */
  lemma FinalGradeBounds(cfg: Config, w: seq<nat>, p: seq<nat>, a: seq<nat>)
    requires WellFormed(cfg)
    requires cfg.written.weight >= 0 && cfg.performance.weight >= 0 && cfg.assessment.weight >= 0
    requires InBounds(w, cfg.written.perfect) && InBounds(p, cfg.performance.perfect)
    requires InBounds(a, cfg.assessment.perfect)
    ensures 0.0 <= FinalGrade(cfg, w, p, a)
    ensures FinalGrade(cfg, w, p, a) <= (cfg.written.weight + cfg.performance.weight + cfg.assessment.weight) as real
  {
    WeightedBounds(ComponentGrade(w, cfg.written.perfect), cfg.written.weight as real,
      ComponentGrade(p, cfg.performance.perfect), cfg.performance.weight as real,
      ComponentGrade(a, cfg.assessment.perfect), cfg.assessment.weight as real);
  }

  /** Three percentages in [0, 100] with non-negative weights average to
      something between 0 and the sum of the weights. */
  lemma WeightedBounds(g1: real, w1: real, g2: real, w2: real, g3: real, w3: real)
    requires 0.0 <= g1 <= 100.0 && 0.0 <= g2 <= 100.0 && 0.0 <= g3 <= 100.0
    requires w1 >= 0.0 && w2 >= 0.0 && w3 >= 0.0
    ensures 0.0 <= Weighted(g1, w1, g2, w2, g3, w3) <= w1 + w2 + w3
  {
    ScaledBounds(g1, w1);
    ScaledBounds(g2, w2);
    ScaledBounds(g3, w3);
    AverageBounds(g1 * w1, g2 * w2, g3 * w3, w1, w2, w3);
  }

  /** A percentage in [0, 100] times a non-negative weight. */
  lemma ScaledBounds(g: real, w: real)
    requires 0.0 <= g <= 100.0 && w >= 0.0
    ensures 0.0 <= g * w <= 100.0 * w
  {
  }

  /** Three weighted percentages, each at most 100 times its weight, average to
      at most the sum of the weights. */
  lemma AverageBounds(x1: real, x2: real, x3: real, w1: real, w2: real, w3: real)
    requires 0.0 <= x1 <= 100.0 * w1 && 0.0 <= x2 <= 100.0 * w2 && 0.0 <= x3 <= 100.0 * w3
    ensures 0.0 <= (x1 + x2 + x3) / 100.0 <= w1 + w2 + w3
  {
  }
}

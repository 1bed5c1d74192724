/**
 A small worked run of the solver: one item worth 1 point in every component,
 weights 30/50/20 and target 50. The nested order tries (0,0,0) → 0,
 (0,0,1) → 20 and then (0,1,0) → 50, which matches. Then the input
 hard-coded in the script, on which the model finds no match.
 */
module Fixture {
  import opened Enumeration
  import opened Grading
  import opened Rounding
  import opened Solver

  function OnePointConfig(): Config {
    Config(Component([1], 30), Component([1], 50), Component([1], 20), 50.0)
  }

  /** One item worth 1 point has the two score tuples [0] and [1]. */
  lemma ProductOfOnePoint()
    ensures Product([1]) == [[0], [1]]
  {
    assert [1][1..] == [];
    assert Product([]) == [[]];
    assert Prefixed(0, [[]])[0] == [0] + [] == [0];
    assert Prefixed(1, [[]])[0] == [1] + [] == [1];
    assert Spread(2, 1, [[]]) == [];
    assert Spread(1, 1, [[]]) == [[1]];
  }

  /** The first three triples in nested order and whether they match. */
  lemma OnePointGrades()
    ensures !IsMatch(OnePointConfig(), [0], [0], [0])
    ensures !IsMatch(OnePointConfig(), [0], [0], [1])
    ensures IsMatch(OnePointConfig(), [0], [1], [0])
  {
    var cfg := OnePointConfig();
    assert Sum([1]) == 1 && Sum([0]) == 0;
    assert FinalGrade(cfg, [0], [0], [0]) == 0.0;
    assert FinalGrade(cfg, [0], [0], [1]) == 20.0;
    assert FinalGrade(cfg, [0], [1], [0]) == 50.0;
  }

  /** The solver reports written [0], performance [1], assessment [0]. */
  lemma OnePointRun()
    ensures Solve(OnePointConfig()) == Found([0], [1], [0])
  {
    var cfg := OnePointConfig();
    var L := [[0], [1]];
    ProductOfOnePoint();
    OnePointGrades();
    assert SearchFrom(Matcher(cfg), L, L, L, 0, 1, 0) == Some(Hit(0, 1, 0));
    assert SearchFrom(Matcher(cfg), L, L, L, 0, 0, 2) == Some(Hit(0, 1, 0));
    assert Search(Matcher(cfg), L, L, L) == Some(Hit(0, 1, 0));
  }

  /** The input hard-coded at autoGrader.py:4-12: perfect scores
      [16, 12, 18, 18, 16] (total 80), [10, 10, 10, 10, 10] (total 50) and [6],
      weights 30/50/20, target 70.37. */
  function ScriptConfig(): Config {
    Config(Component([16, 12, 18, 18, 16], 30), Component([10, 10, 10, 10, 10], 50),
           Component([6], 20), 70.37)
  }

  /** On the hard-coded input every final grade is a whole number of
      twenty-fourths: (9 W + 24 P + 80 A) / 24 for the three score totals. */
  lemma ScriptGrade(w: seq<nat>, p: seq<nat>, a: seq<nat>)
    ensures WellFormed(ScriptConfig())
    ensures FinalGrade(ScriptConfig(), w, p, a) == (9 * Sum(w) + 24 * Sum(p) + 80 * Sum(a)) as real / 24.0
  {
    var cfg := ScriptConfig();
    assert Sum([16, 12, 18, 18, 16]) == 80 by {
      assert [16, 12, 18, 18, 16][1..] == [12, 18, 18, 16];
      assert [12, 18, 18, 16][1..] == [18, 18, 16];
      assert [18, 18, 16][1..] == [18, 16];
      assert [18, 16][1..] == [16];
    }
    assert Sum([10, 10, 10, 10, 10]) == 50 by {
      assert [10, 10, 10, 10, 10][1..] == [10, 10, 10, 10];
      assert [10, 10, 10, 10][1..] == [10, 10, 10];
      assert [10, 10, 10][1..] == [10, 10];
      assert [10, 10][1..] == [10];
    }
    assert Sum([6]) == 6;
    var x, y, z := Sum(w) as real, Sum(p) as real, Sum(a) as real;
    assert ComponentGrade(w, cfg.written.perfect) == (x / 80.0) * 100.0;
    assert ComponentGrade(p, cfg.performance.perfect) == (y / 50.0) * 100.0;
    assert ComponentGrade(a, cfg.assessment.perfect) == (z / 6.0) * 100.0;
    ScriptWeights(x, y, z);
  }

  /** The weighted average of the hard-coded input, on reals alone. */
  lemma ScriptWeights(x: real, y: real, z: real)
    ensures Weighted((x / 80.0) * 100.0, 30.0, (y / 50.0) * 100.0, 50.0, (z / 6.0) * 100.0, 20.0)
            == (9.0 * x + 24.0 * y + 80.0 * z) / 24.0
  {
  }

  /** No whole number of twenty-fourths rounds to 70.37: 1688/24 is about
      70.333 and 1689/24 is exactly 70.375, a tie that rounds up to 70.38. */
  lemma TwentyFourthsMissTarget(n: nat)
    ensures !Matches(n as real / 24.0, 70.37)
  {
    assert Hundredths(70.37) == 7037;
    var x := n as real / 24.0;
    if n <= 1688 {
      assert x * 100.0 <= 168800.0 / 24.0 < 7036.5;
    } else {
      assert x * 100.0 >= 168900.0 / 24.0 == 7037.5;
    }
  }

  /** On its own hard-coded input the model finds no match: every candidate
      grade near 70.37 is an exact tie at 70.375, which rounds to 70.38. */
  lemma ScriptFindsNothing()
    ensures forall w, p, a :: !IsMatch(ScriptConfig(), w, p, a)
    ensures Solve(ScriptConfig()).NotFound?
  {
    forall w, p, a
      ensures !IsMatch(ScriptConfig(), w, p, a)
    {
      ScriptTripleFails(w, p, a);
    }
    assert WellFormed(ScriptConfig()) by {
      ScriptGrade([], [], []);
    }
    SolveNotFoundIff(ScriptConfig());
  }

  /** One triple of the hard-coded input never rounds to 70.37. */
  lemma ScriptTripleFails(w: seq<nat>, p: seq<nat>, a: seq<nat>)
    ensures !IsMatch(ScriptConfig(), w, p, a)
  {
    ScriptGrade(w, p, a);
    var n := 9 * Sum(w) + 24 * Sum(p) + 80 * Sum(a);
    TwentyFourthsMissTarget(n);
    assert FinalGrade(ScriptConfig(), w, p, a) == n as real / 24.0;
  }

  /** The tie itself: written (0,0,0,0,1), full performance marks and full
      assessment marks give exactly 70.375, which rounds to 70.38. */
  lemma ScriptTieRoundsUp()
    ensures FinalGrade(ScriptConfig(), [0, 0, 0, 0, 1], [10, 10, 10, 10, 10], [6]) == 70.375
    ensures Hundredths(70.375) == 7038 && Hundredths(70.37) == 7037
  {
    var w, p, a := [0, 0, 0, 0, 1], [10, 10, 10, 10, 10], [6];
    ScriptGrade(w, p, a);
    assert Sum(w) == 1 by {
      assert w[1..] == [0, 0, 0, 1] && w[1..][1..] == [0, 0, 1];
      assert w[1..][1..][1..] == [0, 1] && w[1..][1..][1..][1..] == [1];
    }
    assert Sum(p) == 50 by {
      assert p[1..] == [10, 10, 10, 10] && p[1..][1..] == [10, 10, 10];
      assert p[1..][1..][1..] == [10, 10] && p[1..][1..][1..][1..] == [10];
    }
    assert Sum(a) == 6;
  }
}

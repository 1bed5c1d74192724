# Auto-Grader solver in Dafny

This project models the brute-force grade solver in `autoGrader.py`. It is
given three components: Written Works, Performance Tasks and Quarterly
Assessment. Each component has a perfect score per item and a weight in
percent, and the solver also takes a target final grade. The solver:

1. lists every score tuple of each component, from 0 up to each item's
   perfect score (`generate_score_combinations`, which is `itertools.product`);
2. walks written × performance × assessment in nested order, written
   outermost;
3. computes each component's percentage (`calculate_component_grade`) and
   the weighted final grade;
4. stops at the first triple whose final grade, rounded to two decimals,
   equals the rounded target. If no triple matches, it reports that none was
   found.

Modules:

- `Enumeration` (`enumeration.dfy`): the score tuples. `Product` is the
  recursive Cartesian product. The lemmas cover the tuple count,
  completeness, uniqueness and lexicographic order.
- `Grading` (`grading.dfy`): `Sum`, `ComponentGrade` and `FinalGrade`, on
  exact `real` numbers.
- `Rounding` (`rounding.dfy`): `round(x, 2)` as a whole number of hundredths,
  and the match test of line 40.
- `Solver` (`solver.dfy`): the nested first-match search, written over any
  match test on triples.
  - `SearchFrom`/`Search` are the functional reference.
  - `SearchLoop` follows the loops of lines 31-51 as written, with the
    `found` flag and the `break`s.
  - `Run` generates the three lists and searches them.
  - `Solve` plugs in the line-40 test. It also models the
    `ZeroDivisionError` the script raises when a component's perfect
    scores add up to zero.
- `Fixture` (`fixture.dfy`): one small worked run, and the input hard-coded
  at autoGrader.py:4-12, on which the model finds no match.

A zero perfect total can be read as a 0% component grade, but
`autoGrader.py:23` divides without a guard. The model follows the code:
`ComponentGrade` requires a positive perfect total. `Solve` returns
`DivisionByZero` exactly when some component's perfect total is zero. Every
generated list is non-empty, so the first loop iteration always computes all
three grades.

## Model

| member | source | states |
|---|---|---|
| Enumeration.Product | autoGrader.py:15-17 | Every generated tuple has one entry per item, each between 0 and that item's perfect score. The list is non-empty. The first tuple is all zeros and the last equals the perfect scores. |
| Enumeration.ProductCount | autoGrader.py:16-17 | The list holds exactly the product of (perfect score + 1) over the items. |
| Enumeration.ProductComplete | autoGrader.py:16-17 | Every tuple that fits the perfect scores appears in the list. |
| Enumeration.ProductSorted | autoGrader.py:16-17 | The list is in strictly increasing lexicographic order: `itertools.product` order, with the last item varying fastest. |
| Enumeration.ProductUnique | autoGrader.py:16-17 | No tuple appears twice. |
| Grading.SumBounded | autoGrader.py:21-22 | A tuple that fits the perfect scores never totals more than the perfect total. |
| Grading.ComponentGrade | autoGrader.py:20-23 | The component percentage is never negative, and it is 0 exactly when the scores total 0. For fitting scores it is at most 100, and it is exactly 100 only for the perfect tuple. It requires a positive perfect total because the division has no guard. |
| Grading.MovePointKeepsGrade | autoGrader.py:20-23 | Moving one point from one item to another leaves the component grade unchanged. |
| Grading.FinalGrade | autoGrader.py:35-38 | The final grade is the three component grades weighted by their percent weights and divided by 100. It has no contract of its own; the two rows below state what it promises. |
| Grading.FinalGradeDependsOnTotals | autoGrader.py:35-38 | The final grade depends only on the three component totals, not on how the points are spread over the items. |
| Grading.FinalGradeBounds | autoGrader.py:35-38 | With non-negative weights and fitting scores, the final grade lies between 0 and the sum of the weights, so in [0, 100] when the weights add up to 100. |
| Rounding.Hundredths | autoGrader.py:40 | `round(x, 2)` is the whole number k of hundredths with k - 1/2 <= 100x < k + 1/2, the nearest one with halves rounding up. |
| Rounding.Matches | autoGrader.py:40 | A final grade matches the target when both round to the same whole number of hundredths. It has no contract of its own; the rows around it state what it promises. |
| Rounding.HundredthsExact | autoGrader.py:40 | Rounding a value that already has two decimals returns it unchanged. |
| Rounding.MatchesWithinHundredth | autoGrader.py:40 | A final grade that matches the target differs from it by less than 0.01. |
| Rounding.NoMatchOutside | autoGrader.py:40 | A grade inside [lo, hi] never matches a target at least 0.01 outside that range. |
| Solver.SearchFrom | autoGrader.py:32-51 | The search resumed at a position returns a matching position at or after it, with no match between the start and that position. "None" means no position from there on matches. |
| Solver.Search | autoGrader.py:31-54 | A found position matches, and no position earlier in nested order (written, then performance, then assessment) matches. "None" means no position matches. |
| Solver.SearchLoop | autoGrader.py:31-51 | The three nested loops with the `found` flag and `break`s return exactly what the reference search returns. |
| Solver.Run | autoGrader.py:26-51 | A reported triple fits the perfect scores and passes the test. |
| Solver.RunFirstMatch | autoGrader.py:32-51 | No fitting triple earlier in nested lexicographic order than the reported one passes the test. |
| Solver.RunNoneIff | autoGrader.py:31-54 | The search reports nothing if and only if no fitting triple passes the test. |
| Solver.Solve | autoGrader.py:20-54 | It reports a division by zero exactly when some perfect total is zero. A found triple fits the perfect scores and its final grade rounds to the rounded target. |
| Solver.SolveFirstMatch | autoGrader.py:32-51 | No fitting triple earlier in nested order than the reported one rounds to the target. |
| Solver.SolveNotFoundIff | autoGrader.py:31-54 | "No combination found" is reported if and only if every perfect total is positive and no fitting triple rounds to the target. |
| Solver.SolveOutOfReach | autoGrader.py:35-54 | With non-negative weights, a target at least 0.01 below 0 or above the sum of the weights always ends in "no combination found". |
| Fixture.ScriptGrade | autoGrader.py:4-38 | On the hard-coded input (totals 80/50/6, weights 30/50/20), every final grade is (9·W + 24·P + 80·A)/24 for the written, performance and assessment totals W, P, A. |
| Fixture.ScriptTieRoundsUp | autoGrader.py:4-40 | On that input, written (0,0,0,0,1) with full performance and assessment marks gives exactly 70.375. That tie rounds to 70.38, while the target rounds to 70.37. |
| Fixture.ScriptFindsNothing | autoGrader.py:4-54 | On that input no triple of score tuples rounds to the target 70.37, and the solver reports "no combination found". |
| Fixture.OnePointRun | autoGrader.py:26-51 | Take one 1-point item per component, weights 30/50/20 and target 50. The solver tries (0,0,0) → 0 and (0,0,1) → 20, then reports written [0], performance [1], assessment [0]. |

## Left out

- The `print` calls (autoGrader.py:41-45, 54) are not modelled. `Solve` returns the outcome instead of printing it.
- On the hard-coded input (autoGrader.py:4-12) the model finds no match: `Fixture.ScriptFindsNothing`. Every grade there is a whole number of twenty-fourths, and the two nearest 70.37 are about 70.333 and exactly 70.375. 70.375 is a tie, and both the model's half-up rounding and half-even rounding of the exact value give 70.38. What the program prints on this input therefore depends on the binary floating-point error at that tie, which the model does not represent.
- Cost is not modelled. The lists are as long as the product of (perfect + 1) per item, so time and memory grow exponentially with the item count.
- `tempCodeRunnerFile.py` is not part of this model. It is a fragment of dialog-based input collection.
- Perfect scores are `nat`. In Python, a negative perfect score gives an empty `range`, and so an empty product and a search that never runs. The model does not cover that input.
- Weights are integers, as in autoGrader.py:4-6. Fractional weights are not modelled.
- Grading.ComponentGrade: the model uses exact `real` arithmetic instead of Python's binary floating point, so rounding error in `/` and `*` is not modelled.
- Rounding.Hundredths: the model rounds halves up on exact reals. Python's `round(x, 2)` rounds half to even on the binary double, so on ties and near-ties the model can disagree with the program.

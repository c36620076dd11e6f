# Shot calculator model

A Dafny model of the shot-solving core of an overlay for an artillery game.
The user clicks a launch point and a target point; `OptimalShotCalculator`
evaluates the power needed at each of 28 fixed launch angles (60 to 87
degrees), keeps the powers below the game's cap of 100, sorts the remaining
(angle, power) pairs by how far the integer spelled by the first up to three
digits after the decimal point is from 500, takes the last pair of the sorted list, and reports its
angle with the power rounded to two decimals. A small global `state` object
records the two clicks and caches the result.

The power formula (`_calculatePowerForAngle`) is floating-point trigonometry.
It is a parameter here: `powerFor: int -> PowerValue` maps an angle to the
power the formula yields. A `PowerValue` is either NaN, Infinity, or a finite
non-negative number given by the digits `Number.prototype.toString` prints
(integer part and the digits after the point). Everything else is stated
exactly on those digits:

- `JsNumbers`: the value of the digits, the `< 100` test, `parseInt` of the
  first up to three digits after the point (the sort key), and
  `Math.round(p * 100)` as a count of hundredths.
- `Candidates`: the angle table, the list built by the `forEach` loop, and the
  `< 100` filter, with the facts that the result is an order-preserving
  subsequence of the table pairing each angle with its own power.
- `Ranking`: a stable sort by an arbitrary key (the engine's
  `Array.prototype.sort` with a `key(a) - key(b)` comparator), written as an
  insertion sort and proved sorted, a permutation and stable. It also proves
  that ANY stable sort leaves last the element with the largest key that
  appears latest, so the model does not depend on which stable algorithm the
  engine uses.
- `ShotCalculator`: the comparator's distance `|key - 500|`,
  `calculatePossibleShots` and `calculateOptimalShot` as methods (the second
  sorts an array in place), and their specification `OptimalShot`, including
  both ways the code throws.
- `Gesture`: the `state` object as a class `GestureState` with the
  `handleMouseDown`, `handleMouseMove`, `reset` and `calculatePower` handlers.

Behaviour of the code that its names or a quick reading do not suggest:

- The sort key is the integer spelled by the first up to three digits after
  the point, not the fraction times 1000. A fraction of one digit is scaled
  by 10 and one of two digits by 100 (`FractionKeyScalesLeadingDigits`). So a
  power printed as `12.5` has key 5 and ranks as nearly the farthest possible
  from .5 (`HalfHasKeyFive`). Only with three or more digits do the two agree
  (`FractionKeyOfLongFraction`).
- The chosen pair is the one whose key is FARTHEST from 500, ties going to the
  later angle. The variable name in the code speaks of "closest"; the model
  reproduces what the code does.
- A zero horizontal distance with a non-zero vertical one does not drop any
  angle. The formula's numerator is then 0 and its denominator is not, so it
  yields 0 at every angle. All 28 pairs are kept, and the comparator throws
  because `"0"` has no point (`AllIntegerPowersThrow`).
- When both distances are 0, numerator and denominator are both 0
  (script.js:83-84), so every angle yields NaN. The filter keeps nothing and
  the calculator throws `NoFeasibleShot` (`AllNaNPowersHaveNoShot`).
- The comparator is called only when there are at least two pairs. A single
  possible shot whose power prints without a point is therefore returned, not
  an error (`ChooseShotOfSingle`).

`Gesture.ClickSequence` is an example scenario whose assertions the verifier
checks, not a model of any source function. It covers two clicks, a third
click, a mouse move, two queries and a reset, and asserts the state each step
leaves.

`ShotCalculator.Distance` is total: for a pair whose power has no digits
after the point it returns 0, but every use of it is guarded by the check that
stops with `MissingFraction` first, as the code's comparator would throw.

## Model

| member | source | states |
|---|---|---|
| `JsNumbers.FracValue` | script.js:54 | the digits after the point spell a value in [0, 1) |
| `JsNumbers.BelowCap` | script.js:72 | JavaScript's `p < 100` on a power; `BelowCapByWholePart` characterizes it |
| `JsNumbers.Value` | script.js:54 | a printed power lies between its integer part and the next integer |
| `JsNumbers.BelowCapByWholePart` | script.js:72 | `p < 100` holds exactly for a finite power whose integer part is below 100; NaN and Infinity fail it |
| `JsNumbers.ParseDigits` | script.js:54-55 | `parseInt` of k digits is below 10^k |
| `JsNumbers.FractionKey` | script.js:54-55 | the key read from the first up to three digits after the point is below 1000; its value is given by `FractionKeyScalesLeadingDigits` and `FractionKeyOfLongFraction` |
| `JsNumbers.FractionKeyOfLongFraction` | script.js:54-55 | with three or more digits the key is the fraction times 1000, truncated |
| `JsNumbers.FractionKeyScalesLeadingDigits` | script.js:54-55 | for every fraction, the key is the fraction times 10 with one digit, times 100 with two, and its first three digits read as a fraction times 1000 otherwise |
| `JsNumbers.HalfHasKeyFive` | script.js:54-55 | the power 12.5 has key 5 while its fraction times 1000 is 500 |
| `JsNumbers.FracValueFirstDigits` | script.js:54-55 | the fraction times 1000 is its first three digits plus the value of the rest |
| `JsNumbers.RoundToHundredths` | script.js:60 | the count of hundredths is `floor(100 * p + 1/2)` (halves up), so it differs from the power by more than -0.005 and at most 0.005 |
| `Candidates.PossibleAnglesFromSixty` | script.js:37 | the table is the 28 angles 60 to 87, ascending |
| `Candidates.AllShotOptions` | script.js:66-70 | the list the `forEach` loop builds, one pair per table angle; `ShotCalculator.CalculatePossibleShots` builds it by that loop, and `PossibleShotsMembers` and `PossibleShotsSubsequence` state it |
| `Candidates.KeepBelowCap` | script.js:72 | the filter returns no more pairs than it gets, each below the cap |
| `Candidates.KeepBelowCapMembers` | script.js:72 | a pair is kept exactly when it was given and its power is below 100 |
| `Candidates.KeepBelowCapIsSubsequence` | script.js:72 | the filter only deletes pairs |
| `Candidates.KeepBelowCapAscending` | script.js:72 | the filter keeps ascending angles ascending |
| `Candidates.PossibleShots` | script.js:65-73 | `calculatePossibleShots` as a function of the power formula; `PossibleShotsMembers`, `PossibleShotsAscending` and `PossibleShotsSubsequence` specify it |
| `Candidates.PossibleShotsMembers` | script.js:65-73 | a pair is a possible shot exactly when its angle is in the table, its power is that angle's computed power, and that power is below 100 |
| `Candidates.PossibleShotsAscending` | script.js:65-73 | possible shots are in table order, so no angle occurs twice |
| `Candidates.PossibleShotsSubsequence` | script.js:65-73 | possible shots are the table's pairs with some deleted |
| `Ranking.Insert` | script.js:53-57 | one insertion into a sorted list, one element longer; `InsertPermutes`, `InsertSorted` and `InsertStable` specify it |
| `Ranking.SortByKey` | script.js:53-57 | the sort by a key, of the same length as its input; `SortByKeyPermutes`, `SortByKeySorted` and `SortByKeyStable` specify it |
| `Ranking.LastMaxIndex` | script.js:59 | the index of the latest element with the largest key: none is larger and every later one is smaller |
| `Ranking.SortByKeyPermutes` | script.js:53-57 | sorting neither loses nor adds an element (multiset equality) |
| `Ranking.SortByKeySorted` | script.js:53-57 | the sorted list ascends by key |
| `Ranking.SortByKeyStable` | script.js:53-57 | for every key value, the elements with that key keep their input order |
| `Ranking.AnyStableSortEndsWithLastMax` | script.js:53-59 | any arrangement that is sorted by key and stable ends with the element at `LastMaxIndex` |
| `Ranking.SortEndsWithLastMax` | script.js:53-59 | the last element of the sort is the element at `LastMaxIndex` |
| `Ranking.LastMaxHasLargestAngle` | script.js:53-59 | with ascending angles, the element at `LastMaxIndex` has the largest angle among those with the largest key |
| `ShotCalculator.Comparable` | script.js:54-55 | a pair the comparator can read: a finite power printed with a point; `ChooseShotErrors` states the error when one is not |
| `ShotCalculator.ChooseShot` | script.js:53-62 | the sort, last element and rounding on a list of pairs; `ChooseShotErrors`, `ChooseShotIsMember`, `ChooseShotIsLastFarthest` and `ChooseShotOfSingle` specify it |
| `ShotCalculator.OptimalShot` | script.js:52-63 | `calculateOptimalShot` as a function of the power formula; `OptimalShotIsPossible` and `OptimalShotIsLastFarthest` specify it, and `CalculateOptimalShot` computes it |
| `ShotCalculator.Distance` | script.js:54-56 | the comparator's distance `abs(key - 500)` is at most 500 |
| `ShotCalculator.CalculatePossibleShots` | script.js:65-73 | the loop and filter return `PossibleShots`: every pair below 100, every table angle with a power below 100 kept, each angle paired with its own power, ascending angles, a subsequence of the table |
| `ShotCalculator.SortInPlace` | script.js:53-57 | the in-place sort leaves the array holding `SortByKey` of its old contents |
| `ShotCalculator.InsertAt` | script.js:53-57 | one insertion step leaves the prefix holding `Insert` of the old prefix and element and the rest untouched |
| `ShotCalculator.CalculateOptimalShot` | script.js:52-63 | the method's outcome is `OptimalShot`, including both errors |
| `ShotCalculator.ChooseShotErrors` | script.js:53-60 | the choice fails with `NoFeasibleShot` exactly when there is no possible shot, and with `MissingFraction` exactly when there are two or more and one prints without a point |
| `ShotCalculator.ChooseShotIsMember` | script.js:53-62 | a chosen shot is one of the given pairs, with that pair's power rounded |
| `ShotCalculator.ChooseShotIsLastFarthest` | script.js:53-62 | with two or more pairs, the chosen one has the key farthest from 500 and, among equally far ones, the largest angle |
| `ShotCalculator.ChooseShotOfSingle` | script.js:53-62 | a single pair is chosen without comparison |
| `ShotCalculator.OptimalShotIsPossible` | script.js:52-73 | the chosen angle is in the table, its computed power is below 100, and the reported power is that power rounded |
| `ShotCalculator.OptimalShotIsLastFarthest` | script.js:52-62 | with two or more possible shots, the chosen one is farthest from .500 by key, ties to the larger angle |
| `ShotCalculator.FarthestFromHalfIsChosen` | script.js:53-60 | of 40.501 and 41.999 the choice is 41.999 (reported 42.00) in either order |
| `ShotCalculator.TieGoesToLaterAngle` | script.js:53-60 | of 40.499 at 70 degrees and 40.501 at 71 degrees the choice is 71 degrees |
| `ShotCalculator.DistanceOfThreeDigits` | script.js:54-56 | a three-digit fraction's key is the number it spells |
| `ShotCalculator.AllIntegerPowersThrow` | script.js:54-55 | when every angle yields the integer 0 the calculator throws `MissingFraction` |
| `ShotCalculator.AllNaNPowersHaveNoShot` | script.js:59-60 | when every angle yields NaN the calculator throws `NoFeasibleShot` |
| `Gesture.DisplacementBetween` | script.js:119-120 | `dx` is the absolute x difference and `dy` the negated y difference |
| `Gesture.GestureState.constructor` | script.js:93-97 | the state starts with no points and no cached result |
| `Gesture.GestureState.Reset` | script.js:108-115 | reset clears both points and the cached result |
| `Gesture.GestureState.CalculatePower` | script.js:117-124 | the result is the calculator's outcome for the two points; a cached result is returned unchanged; otherwise a successful result is cached |
| `Gesture.GestureState.HandleMouseDown` | script.js:159-168 | the first click sets the start, the second the end and the cache (through the draw it triggers), any later click changes nothing |
| `Gesture.GestureState.HandleMouseMove` | script.js:152-157 | a mouse move re-runs `calculatePower` when both points are set and changes no part of the state |

## Left out

- `_calculatePowerForAngle` (script.js:81-88) and its calibration constants: IEEE-754 trigonometry and square roots. The model takes the formula as the parameter `powerFor`. It assumes only what its shape implies: the result is non-negative, NaN or Infinity.
- `Number.prototype.toString`: each finite power comes with the digits it prints. Exponent notation, which `toString` uses below 1e-6, is not modelled; such tiny powers would be read differently by the comparator.
- JsNumbers.RoundToHundredths: rounds the exact printed decimal. `Math.round(p * 100) / 100` multiplies in double precision first, and the product can land on the other side of a half. The result is given as a count of hundredths rather than as a double.
- The engine's own sort algorithm: modelled by an insertion sort. `Ranking.AnyStableSortEndsWithLastMax` shows that the chosen element is the same for every stable sort.
- `bestShot[1] = ...` overwrites the power inside the chosen pair of the sorted array. That array is freshly built on each call and then dropped, so the model returns a new `Shot` value instead.
- Gesture.Point: click positions are whole pixels. `event.clientX` and `clientY` are doubles, so fractional positions, and the fractional displacements they give `powerModel`, are not modelled; no proved property depends on this, because `powerModel` is arbitrary.
- Gesture.GestureState.CalculatePower: requires both points to be set. Its only caller, `drawText`, runs only then (script.js:152); the model does not cover the NaN distances an unset point would give.
- Exceptions thrown by `calculatePower` inside a mouse handler propagate to the browser. The model returns an error value and leaves the state as the code leaves it.
- The `Canvas` class, `getPosition`, the `printAllShotOptions` listing, the crosshair and text drawing, and event registration (script.js:1-31, 102-106, 126-150, 170-172): DOM input and output with no effect on the computed shot. The model keeps only the calls these handlers make into `calculatePower` (script.js:138, 152).
- main.js: Electron window creation and app lifecycle.

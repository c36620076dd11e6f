/**
 * `OptimalShotCalculator`: `calculatePossibleShots` and `calculateOptimalShot`
 * for a calculator whose power formula is the function `powerFor` from a
 * table angle to the power it needs.
 */
module ShotCalculator {
  import opened Wrappers
  import opened JsNumbers
  import opened Candidates
  import opened Ranking

  /** The chosen angle and its power rounded to hundredths (`hundredths / 100`). */
  datatype Shot = Shot(angle: int, hundredths: nat)

  /** The two ways `calculateOptimalShot` throws. */
  datatype ShotError =
    | NoFeasibleShot   // no possible shot: `bestShot` is undefined, so `bestShot[1] = ...` throws
    | MissingFraction  // the comparator met a power printed without a point: `split('.')[1].slice` throws

  /**
   * The comparator can read a pair's key: its power is finite and `toString`
   * prints a point. For any other pair `split('.')[1]` is undefined and the
   * comparator throws.
   */
  predicate Comparable(c: Candidate)
  {
    c.power.Finite? && c.power.frac != []
  }

  predicate AllComparable(s: seq<Candidate>)
  {
    forall i :: 0 <= i < |s| ==> Comparable(s[i])
  }

  /**
   * What the comparator orders by, `Math.abs(key - 500)`, for a pair whose
   * power is printed with a point. The comparator throws on any other pair,
   * and the calculator stops with `MissingFraction` before sorting one, so
   * the 0 given for it is never consulted.
   */
  function Distance(c: Candidate): (d: nat)
    ensures d <= 500
  {
    if Comparable(c) then
      var k := FractionKey(c.power.frac);
      if k >= 500 then k - 500 else 500 - k
    else 0
  }

  /**
   * What `calculateOptimalShot` does with the possible shots `shots`. A sort
   * of fewer than two elements never calls the comparator; a sort of two or
   * more calls it on every element, so it throws as soon as one power has no
   * digits after the point. An empty list leaves `bestShot` undefined.
   */
  function ChooseShot(shots: seq<Candidate>): Result<Shot, ShotError>
    requires forall i :: 0 <= i < |shots| ==> shots[i].power.Finite?
  {
    if |shots| >= 2 && !AllComparable(shots) then Failure(MissingFraction)
    else if |shots| == 0 then Failure(NoFeasibleShot)
    else if |shots| == 1 then Success(Shot(shots[0].angle, RoundToHundredths(shots[0].power)))
    else
      SortedLastIsFinite(shots);
      var bestShot := SortByKey(shots, Distance)[|shots| - 1];
      Success(Shot(bestShot.angle, RoundToHundredths(bestShot.power)))
  }

  lemma SortedLastIsFinite(shots: seq<Candidate>)
    requires |shots| >= 2 && AllComparable(shots)
    ensures SortByKey(shots, Distance)[|shots| - 1] in shots
    ensures SortByKey(shots, Distance)[|shots| - 1].power.Finite?
  {
    SortByKeyPermutes(shots, Distance);
    assert SortByKey(shots, Distance)[|shots| - 1] in multiset(shots);
  }

  /** The outcome of `calculateOptimalShot` for a calculator whose power formula is `powerFor`. */
  function OptimalShot(powerFor: int -> PowerValue): Result<Shot, ShotError>
  {
    ChooseShot(PossibleShots(powerFor))
  }

  /** `calculatePossibleShots`: evaluate every table angle in order, then keep the powers below 100. */
  method CalculatePossibleShots(powerFor: int -> PowerValue) returns (shots: seq<Candidate>)
    ensures shots == PossibleShots(powerFor)
    ensures forall c :: c in shots ==> BelowCap(c.power) && Value(c.power) < 100.0
    ensures forall a :: a in PossibleAngles && BelowCap(powerFor(a)) ==> Candidate(a, powerFor(a)) in shots
    ensures forall c :: c in shots ==> c.angle in PossibleAngles && c.power == powerFor(c.angle)
    ensures AnglesAscending(shots)
    ensures IsSubsequence(shots, AllShotOptions(powerFor))
  {
    var shotOptions: seq<Candidate> := [];
    for i := 0 to |PossibleAngles|
      invariant |shotOptions| == i
      invariant forall k :: 0 <= k < i ==> shotOptions[k] == Candidate(PossibleAngles[k], powerFor(PossibleAngles[k]))
    {
      var angle := PossibleAngles[i];
      shotOptions := shotOptions + [Candidate(angle, powerFor(angle))];
    }
    assert shotOptions == AllShotOptions(powerFor);
    shots := KeepBelowCap(shotOptions);
    PossibleShotsMembers(powerFor);
    PossibleShotsAscending(powerFor);
    PossibleShotsSubsequence(powerFor);
  }

  /** `a.sort((p, q) => key(p) - key(q))` as a stable insertion sort in place. */
  method SortInPlace(a: array<Candidate>, key: Candidate -> nat)
    modifies a
    ensures a[..] == SortByKey(old(a[..]), key)
  {
    ghost var s := a[..];
    var i := 0;
    while i < a.Length
      invariant 0 <= i <= a.Length
      invariant a[..i] == SortByKey(s[..i], key)
      invariant a[i..] == s[i..]
    {
      assert a[i] == s[i] && a[i + 1..] == s[i + 1..] by {
        assert a[i..][0] == a[i] && a[i..][1..] == a[i + 1..];
        assert s[i..][0] == s[i] && s[i..][1..] == s[i + 1..];
      }
      assert s[..i + 1][..i] == s[..i];
      InsertAt(a, i, key);
      i := i + 1;
    }
    assert a[..] == a[..a.Length] && s == s[..a.Length];
  }

  /** One step of the insertion sort: move `a[i]` back into the sorted prefix `a[..i]`. */
  method InsertAt(a: array<Candidate>, i: nat, key: Candidate -> nat)
    requires i < a.Length
    modifies a
    ensures a[..i + 1] == Insert(old(a[..i]), old(a[i]), key)
    ensures a[i + 1..] == old(a[i + 1..])
  {
    var x := a[i];
    ghost var t := a[..i];
    var j := i;
    while j > 0 && key(a[j - 1]) > key(x)
      invariant 0 <= j <= i
      invariant forall k :: 0 <= k < j ==> a[k] == t[k]
      invariant forall k :: j < k <= i ==> a[k] == t[k - 1]
      invariant forall k :: i < k < a.Length ==> a[k] == old(a[k])
      invariant forall k :: j <= k < i ==> key(t[k]) > key(x)
    {
      a[j] := a[j - 1];
      j := j - 1;
    }
    a[j] := x;
    InsertBehindLarger(t, x, key, j);
    assert a[..i + 1] == t[..j] + [x] + t[j..] by {
      forall k | 0 <= k <= i ensures a[..i + 1][k] == (t[..j] + [x] + t[j..])[k] {
        if k > j {
          assert (t[..j] + [x] + t[j..])[k] == t[j..][k - j - 1];
        }
      }
    }
  }

  /**
   * Inserting `x` puts it behind the longest suffix of `t` whose keys are all
   * larger than its own.
   */
  lemma {:induction false} InsertBehindLarger(t: seq<Candidate>, x: Candidate, key: Candidate -> nat, j: nat)
    requires j <= |t| && (j == 0 || key(t[j - 1]) <= key(x))
    requires forall k :: j <= k < |t| ==> key(t[k]) > key(x)
    ensures Insert(t, x, key) == t[..j] + [x] + t[j..]
  {
    if j == |t| {
      if j > 0 {
        assert t[j - 1] == t[|t| - 1];
      }
    } else {
      var front, last := t[..|t| - 1], t[|t| - 1];
      assert key(last) > key(x);
      InsertBehindLarger(front, x, key, j);
      assert front[..j] == t[..j] && front[j..] + [last] == t[j..];
    }
  }

  /** `calculateOptimalShot`: sort the possible shots in place, take the last, round its power. */
  method CalculateOptimalShot(powerFor: int -> PowerValue) returns (r: Result<Shot, ShotError>)
    ensures r == OptimalShot(powerFor)
  {
    var shots := CalculatePossibleShots(powerFor);
    var a := new Candidate[|shots|](i requires 0 <= i < |shots| => shots[i]);
    assert a[..] == shots;
    if a.Length >= 2 {
      if !AllComparable(a[..]) {
        return Failure(MissingFraction);
      }
      SortInPlace(a, Distance);
    }
    if a.Length == 0 {
      return Failure(NoFeasibleShot);
    }
    var bestShot := a[a.Length - 1];
    r := Success(Shot(bestShot.angle, RoundToHundredths(bestShot.power)));
  }

  /** The choice fails exactly in the two cases where the source throws. */
  lemma ChooseShotErrors(shots: seq<Candidate>)
    requires forall i :: 0 <= i < |shots| ==> shots[i].power.Finite?
    ensures ChooseShot(shots) == Failure(NoFeasibleShot) <==> shots == []
    ensures ChooseShot(shots) == Failure(MissingFraction) <==>
      |shots| >= 2 && exists i :: 0 <= i < |shots| && !Comparable(shots[i])
  {
  }

  /**
   * The chosen shot is one of `shots`, reported with that shot's power
   * rounded to hundredths.
   */
  lemma ChooseShotIsMember(shots: seq<Candidate>)
    requires forall i :: 0 <= i < |shots| ==> shots[i].power.Finite?
    requires ChooseShot(shots).Success?
    ensures exists c :: (c in shots && c.power.Finite?
      && ChooseShot(shots).value == Shot(c.angle, RoundToHundredths(c.power)))
  {
    if |shots| >= 2 {
      SortedLastIsFinite(shots);
    }
  }

  /**
   * With two or more shots whose angles ascend, the chosen one is the one
   * whose key is farthest from 500, and among the equally far ones the one
   * with the largest angle.
   */
  lemma {:induction false} ChooseShotIsLastFarthest(shots: seq<Candidate>)
    requires forall i :: 0 <= i < |shots| ==> shots[i].power.Finite?
    requires ChooseShot(shots).Success? && |shots| >= 2 && AnglesAscending(shots)
    ensures AllComparable(shots)
    ensures exists k :: (0 <= k < |shots|
      && ChooseShot(shots).value == Shot(shots[k].angle, RoundToHundredths(shots[k].power))
      && (forall i :: 0 <= i < |shots| ==> Distance(shots[i]) <= Distance(shots[k]))
      && (forall i :: 0 <= i < |shots| && Distance(shots[i]) == Distance(shots[k]) ==> shots[i].angle <= shots[k].angle))
  {
    var k := LastMaxIndex(shots, Distance);
    SortEndsWithLastMax(shots, Distance);
    LastMaxHasLargestAngle(shots, Distance);
    assert ChooseShot(shots).value == Shot(shots[k].angle, RoundToHundredths(shots[k].power));
  }

  /** With a single shot no comparison is made and that shot is chosen. */
  lemma ChooseShotOfSingle(shots: seq<Candidate>)
    requires |shots| == 1 && shots[0].power.Finite?
    ensures ChooseShot(shots) == Success(Shot(shots[0].angle, RoundToHundredths(shots[0].power)))
  {
  }

  /**
   * The chosen shot is a possible shot: a table angle whose own computed
   * power is below 100, reported rounded to hundredths.
   */
  lemma OptimalShotIsPossible(powerFor: int -> PowerValue)
    requires OptimalShot(powerFor).Success?
    ensures var shot := OptimalShot(powerFor).value;
      && shot.angle in PossibleAngles
      && BelowCap(powerFor(shot.angle))
      && Candidate(shot.angle, powerFor(shot.angle)) in PossibleShots(powerFor)
      && shot.hundredths == RoundToHundredths(powerFor(shot.angle))
  {
    PossibleShotsMembers(powerFor);
    ChooseShotIsMember(PossibleShots(powerFor));
  }

  /**
   * With two or more possible shots, the chosen one has the key farthest
   * from 500, and among the equally far ones the largest angle.
   */
  lemma OptimalShotIsLastFarthest(powerFor: int -> PowerValue)
    requires OptimalShot(powerFor).Success? && |PossibleShots(powerFor)| >= 2
    ensures var shots := PossibleShots(powerFor);
      exists k :: (0 <= k < |shots|
        && OptimalShot(powerFor).value == Shot(shots[k].angle, RoundToHundredths(shots[k].power))
        && (forall i :: 0 <= i < |shots| ==> Distance(shots[i]) <= Distance(shots[k]))
        && (forall i :: 0 <= i < |shots| && Distance(shots[i]) == Distance(shots[k]) ==> shots[i].angle <= shots[k].angle))
  {
    PossibleShotsAscending(powerFor);
    ChooseShotIsLastFarthest(PossibleShots(powerFor));
  }

  /**
   * Of the powers 40.501 and 41.999 the calculator picks 41.999, whose key
   * 999 is farther from 500 than 501 is, whichever comes first.
   */
  lemma FarthestFromHalfIsChosen()
    ensures ChooseShot([Candidate(70, Finite(40, [5, 0, 1])), Candidate(71, Finite(41, [9, 9, 9]))])
      == Success(Shot(71, 4200))
    ensures ChooseShot([Candidate(70, Finite(41, [9, 9, 9])), Candidate(71, Finite(40, [5, 0, 1]))])
      == Success(Shot(70, 4200))
  {
    var c501, c999 := Candidate(70, Finite(40, [5, 0, 1])), Candidate(71, Finite(41, [9, 9, 9]));
    DistanceOfThreeDigits(c501.power, 501, 1);
    DistanceOfThreeDigits(c999.power, 999, 499);
    assert SortByKey([c501, c999], Distance) == [c501, c999] by {
      assert [c501, c999][..1] == [c501];
    }
    var d999, d501 := Candidate(70, Finite(41, [9, 9, 9])), Candidate(71, Finite(40, [5, 0, 1]));
    DistanceOfThreeDigits(d999.power, 999, 499);
    DistanceOfThreeDigits(d501.power, 501, 1);
    assert SortByKey([d999, d501], Distance) == [d501, d999] by {
      assert [d999, d501][..1] == [d999] && [d999][..0] == [];
      assert SortByKey([d999], Distance) == [d999];
      assert Insert([d999], d501, Distance) == Insert([], d501, Distance) + [d999];
    }
  }

  /** Equally far keys (.499 and .501) go to the later angle. */
  lemma TieGoesToLaterAngle()
    ensures ChooseShot([Candidate(70, Finite(40, [4, 9, 9])), Candidate(71, Finite(40, [5, 0, 1]))])
      == Success(Shot(71, 4050))
  {
    var c499, c501 := Candidate(70, Finite(40, [4, 9, 9])), Candidate(71, Finite(40, [5, 0, 1]));
    DistanceOfThreeDigits(c499.power, 499, 1);
    DistanceOfThreeDigits(c501.power, 501, 1);
    assert SortByKey([c499, c501], Distance) == [c499, c501] by {
      assert [c499, c501][..1] == [c499];
    }
  }

  lemma DistanceOfThreeDigits(p: PowerValue, k: nat, d: nat)
    requires p.Finite? && |p.frac| == 3
    requires k == 100 * p.frac[0] as int + 10 * p.frac[1] as int + p.frac[2] as int
    requires d == if k >= 500 then k - 500 else 500 - k
    ensures FractionKey(p.frac) == k
    ensures forall a :: Distance(Candidate(a, p)) == d
  {
    var f := p.frac;
    assert f[..3] == f && f[..2][..1] == f[..1] && f[..1][..0] == [];
    assert ParseDigits(f[..1]) == f[0];
    assert ParseDigits(f[..2]) == 10 * f[0] as int + f[1];
    assert ParseDigits(f) == 10 * ParseDigits(f[..2]) + f[2];
  }

  /**
   * A zero horizontal distance makes the formula yield the integer 0 at every
   * angle: all 28 pairs are kept, and the comparator throws on them.
   */
  lemma AllIntegerPowersThrow(powerFor: int -> PowerValue)
    requires forall a :: powerFor(a) == Finite(0, [])
    ensures OptimalShot(powerFor) == Failure(MissingFraction)
  {
    var shots := PossibleShots(powerFor);
    PossibleShotsMembers(powerFor);
    PossibleAnglesFromSixty();
    var c60, c61 := Candidate(60, Finite(0, [])), Candidate(61, Finite(0, []));
    assert PossibleAngles[0] == 60 && PossibleAngles[1] == 61;
    assert c60 in shots && c61 in shots;
    var i :| 0 <= i < |shots| && shots[i] == c60;
    var j :| 0 <= j < |shots| && shots[j] == c61;
    assert i != j;
    assert !Comparable(shots[i]);
  }

  /** When every angle yields NaN nothing is below the cap and there is no shot. */
  lemma AllNaNPowersHaveNoShot(powerFor: int -> PowerValue)
    requires forall a :: powerFor(a) == NaN
    ensures OptimalShot(powerFor) == Failure(NoFeasibleShot)
  {
    var shots := PossibleShots(powerFor);
    PossibleShotsMembers(powerFor);
  }
}

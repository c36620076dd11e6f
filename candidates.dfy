/**
 * The candidate table of the shot calculator: one (angle, power) pair per
 * table angle, and the filter that keeps the playable ones. This module holds
 * the specification of `calculatePossibleShots`; the method itself is in
 * ShotCalculator.
 */
module Candidates {
  import opened JsNumbers

  /** The launch angles the calculator tries, in degrees, in table order. */
  const PossibleAngles: seq<int> :=
    [60, 61, 62, 63, 64, 65, 66, 67, 68, 69, 70, 71, 72, 73, 74, 75, 76, 77, 78, 79, 80, 81, 82, 83, 84, 85, 86, 87]

  /** One evaluated pair `[angle, power]`. */
  datatype Candidate = Candidate(angle: int, power: PowerValue)

  /** The table holds the 28 angles from 60 to 87 in ascending order. */
  lemma PossibleAnglesFromSixty()
    ensures |PossibleAngles| == 28
    ensures forall i :: 0 <= i < |PossibleAngles| ==> PossibleAngles[i] == 60 + i
  {
  }

  /** `shotOptions` after the `forEach` loop: one pair per table angle, in table order. */
  function AllShotOptions(powerFor: int -> PowerValue): seq<Candidate>
  {
    seq(|PossibleAngles|, i requires 0 <= i < |PossibleAngles| => Candidate(PossibleAngles[i], powerFor(PossibleAngles[i])))
  }

  /** `options.filter(result => result[1] < 100)` */
  function KeepBelowCap(options: seq<Candidate>): (kept: seq<Candidate>)
    ensures |kept| <= |options|
    ensures forall i :: 0 <= i < |kept| ==> BelowCap(kept[i].power)
  {
    if options == [] then []
    else if BelowCap(options[0].power) then [options[0]] + KeepBelowCap(options[1..])
    else KeepBelowCap(options[1..])
  }

  /** The result of `calculatePossibleShots` for a calculator whose power formula is `powerFor`. */
  function PossibleShots(powerFor: int -> PowerValue): seq<Candidate>
  {
    KeepBelowCap(AllShotOptions(powerFor))
  }

  /** `a` can be obtained from `b` by deleting elements: each element of `b` is kept or dropped. */
  predicate IsSubsequence(a: seq<Candidate>, b: seq<Candidate>)
    decreases |b|
  {
    if b == [] then a == []
    else (a != [] && a[0] == b[0] && IsSubsequence(a[1..], b[1..])) || IsSubsequence(a, b[1..])
  }

  /** The angles strictly increase along `s`. */
  predicate AnglesAscending(s: seq<Candidate>)
  {
    forall i, j :: 0 <= i < j < |s| ==> s[i].angle < s[j].angle
  }

  /** The filter keeps exactly the pairs whose power is below the cap. */
  lemma {:induction false} KeepBelowCapMembers(options: seq<Candidate>)
    ensures forall c :: c in KeepBelowCap(options) <==> c in options && BelowCap(c.power)
  {
    if options != [] {
      KeepBelowCapMembers(options[1..]);
      assert options == [options[0]] + options[1..];
    }
  }

  /** The filter only deletes pairs. */
  lemma {:induction false} KeepBelowCapIsSubsequence(options: seq<Candidate>)
    ensures IsSubsequence(KeepBelowCap(options), options)
  {
    if options != [] {
      KeepBelowCapIsSubsequence(options[1..]);
      var kept := KeepBelowCap(options);
      if BelowCap(options[0].power) {
        assert kept[0] == options[0] && kept[1..] == KeepBelowCap(options[1..]);
      }
    }
  }

  /** The filter keeps the table order. */
  lemma {:induction false} KeepBelowCapAscending(options: seq<Candidate>)
    requires AnglesAscending(options)
    ensures AnglesAscending(KeepBelowCap(options))
  {
    if options != [] {
      KeepBelowCapAscending(options[1..]);
      KeepBelowCapMembers(options[1..]);
      var kept := KeepBelowCap(options);
      if BelowCap(options[0].power) {
        forall j | 0 < j < |kept|
          ensures kept[0].angle < kept[j].angle
        {
          assert kept[j] in KeepBelowCap(options[1..]);
        }
      }
    }
  }

  /**
   * A pair is a possible shot exactly when its angle is in the table, its
   * power is the one computed for that angle, and that power is below 100.
   */
  lemma PossibleShotsMembers(powerFor: int -> PowerValue)
    ensures forall c :: c in PossibleShots(powerFor) <==>
      c.angle in PossibleAngles && c.power == powerFor(c.angle) && BelowCap(c.power)
  {
    var options := AllShotOptions(powerFor);
    KeepBelowCapMembers(options);
    forall c
      ensures c in options <==> c.angle in PossibleAngles && c.power == powerFor(c.angle)
    {
      if c.angle in PossibleAngles && c.power == powerFor(c.angle) {
        var i :| 0 <= i < |PossibleAngles| && PossibleAngles[i] == c.angle;
        assert options[i] == c;
      }
    }
  }

  /** The possible shots are in table order, so no angle occurs twice. */
  lemma PossibleShotsAscending(powerFor: int -> PowerValue)
    ensures AnglesAscending(PossibleShots(powerFor))
    ensures forall i, j :: 0 <= i < j < |PossibleShots(powerFor)| ==>
      PossibleShots(powerFor)[i].angle != PossibleShots(powerFor)[j].angle
  {
    PossibleAnglesFromSixty();
    KeepBelowCapAscending(AllShotOptions(powerFor));
  }

  /** The possible shots are the table's pairs with some deleted. */
  lemma PossibleShotsSubsequence(powerFor: int -> PowerValue)
    ensures IsSubsequence(PossibleShots(powerFor), AllShotOptions(powerFor))
  {
    KeepBelowCapIsSubsequence(AllShotOptions(powerFor));
  }
}

/**
 * The global `state` of the overlay: the two clicked points and the cached
 * result of `calculatePower`, with the handlers that change them. Drawing and
 * the on-screen text are left out; what the handlers do to `state` is kept.
 */
module Gesture {
  import opened Wrappers
  import opened JsNumbers
  import opened ShotCalculator

  /** A click position, `{ x: event.clientX, y: event.clientY }`. */
  datatype Point = Point(x: int, y: int)

  /** The distances handed to the calculator: `dy` is positive when the target is above the start. */
  datatype Displacement = Displacement(dx: nat, dy: int)

  /** `xDistance = Math.abs(end.x - start.x)` and `yDistance = -1 * (end.y - start.y)`. */
  function DisplacementBetween(start: Point, end: Point): (d: Displacement)
    ensures d.dx as int == end.x - start.x || d.dx as int == start.x - end.x
    ensures d.dy + (end.y - start.y) == 0
  {
    Displacement(if end.x >= start.x then end.x - start.x else start.x - end.x, -(end.y - start.y))
  }

  /** A successful shot is cached; a thrown error leaves the cache empty. */
  function Cached(r: Result<Shot, ShotError>): Option<Shot>
  {
    if r.Success? then Some(r.value) else None
  }

  class GestureState {
    /** The power formula of `new OptimalShotCalculator(dx, dy)`, per displacement. */
    const powerModel: Displacement -> (int -> PowerValue)
    var startPosition: Option<Point>
    var endPosition: Option<Point>
    var power: Option<Shot>

    /** The outcome of `calculateOptimalShot` for the two clicked points. */
    ghost function Solved(): Result<Shot, ShotError>
      reads this
      requires startPosition.Some? && endPosition.Some?
    {
      OptimalShot(powerModel(DisplacementBetween(startPosition.value, endPosition.value)))
    }

    /** A cached result is the result for the current points. */
    ghost predicate CacheCoherent()
      reads this
    {
      power.Some? ==> startPosition.Some? && endPosition.Some? && Solved() == Success(power.value)
    }

    /**
     * Between events: the end point is set only after the start point, and
     * once both are set the cache holds the result for them (the second click
     * computes it at once).
     */
    ghost predicate Valid()
      reads this
    {
      && CacheCoherent()
      && (endPosition.Some? ==> startPosition.Some?)
      && (endPosition.None? ==> power.None?)
      && (endPosition.Some? ==> power == Cached(Solved()))
    }

    constructor (model: Displacement -> (int -> PowerValue))
      ensures Valid() && powerModel == model
      ensures startPosition == None && endPosition == None && power == None
    {
      powerModel := model;
      startPosition, endPosition, power := None, None, None;
    }

    /** `reset`: forget both points and the cached result. */
    method Reset()
      modifies this
      ensures Valid()
      ensures startPosition == None && endPosition == None && power == None
    {
      startPosition, endPosition, power := None, None, None;
    }

    /**
     * `calculatePower`: return the cached result if there is one; otherwise
     * run the calculator on the two points and cache a successful result.
     * Its one caller, `drawText`, runs only when both points are set.
     */
    method CalculatePower() returns (r: Result<Shot, ShotError>)
      requires startPosition.Some? && endPosition.Some? && CacheCoherent()
      modifies this`power
      ensures CacheCoherent()
      ensures old(Valid()) ==> Valid()
      ensures r == Solved()
      ensures old(power).Some? ==> r == Success(old(power).value) && power == old(power)
      ensures old(power).None? ==> power == Cached(r)
    {
      if power.Some? {
        return Success(power.value);
      }
      var d := DisplacementBetween(startPosition.value, endPosition.value);
      r := CalculateOptimalShot(powerModel(d));
      if r.Success? {
        power := Some(r.value);
      }
    }

    /**
     * `handleMouseDown`: the first click sets the start point, the second the
     * end point and then draws, which runs `calculatePower`; any later click
     * changes nothing until `reset`.
     */
    method HandleMouseDown(p: Point)
      requires Valid()
      modifies this
      ensures Valid()
      ensures old(startPosition).None? ==>
        startPosition == Some(p) && endPosition == None && power == None
      ensures old(startPosition).Some? && old(endPosition).None? ==>
        && startPosition == old(startPosition) && endPosition == Some(p)
        && power == Cached(OptimalShot(powerModel(DisplacementBetween(old(startPosition).value, p))))
      ensures old(endPosition).Some? ==>
        startPosition == old(startPosition) && endPosition == old(endPosition) && power == old(power)
    {
      if startPosition.None? {
        startPosition := Some(p);
        return;
      }
      if endPosition.None? {
        endPosition := Some(p);
        var shot := CalculatePower();
      }
    }

    /**
     * `handleMouseMove`: draws, which runs `calculatePower` once both points
     * are set; the cache already holds its result, so nothing changes.
     */
    method HandleMouseMove()
      requires Valid()
      modifies this
      ensures Valid()
      ensures startPosition == old(startPosition) && endPosition == old(endPosition) && power == old(power)
    {
      if startPosition.Some? && endPosition.Some? {
        var shot := CalculatePower();
      }
    }
  }

  /** Two clicks fix the shot; a third click, mouse moves and repeated queries change nothing. */
  method ClickSequence(model: Displacement -> (int -> PowerValue), first: Point, second: Point, third: Point)
  {
    var state := new GestureState(model);
    state.HandleMouseDown(first);
    assert state.startPosition == Some(first) && state.endPosition == None;
    state.HandleMouseDown(second);
    assert state.startPosition == Some(first) && state.endPosition == Some(second);
    var cached := state.power;
    state.HandleMouseDown(third);
    state.HandleMouseMove();
    assert state.startPosition == Some(first) && state.endPosition == Some(second) && state.power == cached;
    var r1 := state.CalculatePower();
    var r2 := state.CalculatePower();
    assert r1 == r2 == OptimalShot(model(DisplacementBetween(first, second)));
    state.Reset();
    assert state.startPosition == None && state.endPosition == None && state.power == None;
  }
}

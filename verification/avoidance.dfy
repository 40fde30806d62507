/**
  Where the "No" button goes when the pointer comes too close: the position
  arithmetic of `avoidNoButton`, as a pure function of the viewport size, the
  button size, the last pointer position and the two `Math.random()` draws.

  The computation runs the same steps on both axes, with different constants:
    1. abort when the viewport leaves no room between the margins;
    2. pick a candidate in the half of the viewport opposite the pointer,
       displaced from its edge by a random amount;
    3. clamp the candidate to the margins;
    4. if the pointer is still within the avoidance radius of the button's
       centre, nudge once more in the escape direction and clamp again;
    5. clamp a final time, which changes nothing (`FinalClampIsRedundant`).
*/
module Avoidance {
  import opened Geometry

  /** Distance kept between the button and every edge of the viewport. */
  const Margin: real := 25.0

  /** Distance from the button's centre below which the button flees. */
  const AvoidanceRadius: real := 80.0

  /** The per-axis constants of the placement policy. */
  datatype Axis = Axis(
    gap: real,     // distance of the candidate from the viewport's midline
    spread: real,  // width of the random displacement
    nudge: real    // size of the one extra step away from the pointer
  )

  const Horizontal: Axis := Axis(50.0, 100.0, 50.0)
  const Vertical: Axis := Axis(30.0, 80.0, 30.0)

  /** A value `Math.random()` can return. */
  predicate IsDraw(r: real)
  {
    0.0 <= r < 1.0
  }

  /** Largest top-left coordinate that keeps a button of length `len` a margin away from the far edge. */
  function MaxCoord(view: real, len: real): real
  {
    view - len - Margin
  }

  /** The pointer lies in the left (top) half of a viewport of length `view`. */
  predicate InNearHalf(mouse: real, view: real)
  {
    mouse < view / 2.0
  }

  /** Candidate coordinate, before clamping: in the half opposite the pointer, displaced by a draw. */
  function Candidate(ax: Axis, view: real, len: real, mouse: real, r: real): (c: real)
    ensures InNearHalf(mouse, view) ==> view / 2.0 + ax.gap <= c
    ensures !InNearHalf(mouse, view) ==> c + len + ax.gap <= view / 2.0
  {
    if InNearHalf(mouse, view) then
      Max(view / 2.0 + ax.gap, MaxCoord(view, len) - r * ax.spread)
    else
      Min(view / 2.0 - len - ax.gap, Margin + r * ax.spread)
  }

  /** The candidate clamped to the margins. */
  function Place(ax: Axis, view: real, len: real, mouse: real, r: real): (c: real)
    requires Margin < MaxCoord(view, len)
    ensures Margin <= c <= MaxCoord(view, len)
  {
    Clamp(Candidate(ax, view, len, mouse, r), Margin, MaxCoord(view, len))
  }

  /** The extra step: away from the pointer's half, fixed in size. */
  function NudgeOffset(ax: Axis, view: real, mouse: real): (d: real)
    ensures d == ax.nudge || d == -ax.nudge
    ensures 0.0 < ax.nudge ==> (0.0 < d <==> InNearHalf(mouse, view))
  {
    if InNearHalf(mouse, view) then ax.nudge else -ax.nudge
  }

  /** A coordinate moved by the extra step and clamped to the margins again. */
  function Nudge(ax: Axis, view: real, len: real, mouse: real, c: real): (c': real)
    requires Margin < MaxCoord(view, len)
    ensures Margin <= c' <= MaxCoord(view, len)
  {
    Clamp(c + NudgeOffset(ax, view, mouse), Margin, MaxCoord(view, len))
  }

  /** The outcome of a relocation: nothing moves, or the button's new top-left corner. */
  datatype Relocation = Abort | MoveTo(pos: Point)

  /** The viewport leaves no room for the button between the margins on some axis. */
  predicate TooSmall(view: Size, btn: Size)
  {
    MaxCoord(view.width, btn.width) <= Margin || MaxCoord(view.height, btn.height) <= Margin
  }

  /** The pointer is strictly within the avoidance radius of the centre of a button at `pos`. */
  predicate WithinRadius(pos: Point, btn: Size, mouse: Point)
  {
    CentreDistanceSquared(Rect(pos.x, pos.y, btn.width, btn.height), mouse) < AvoidanceRadius * AvoidanceRadius
  }

  /** A top-left corner that keeps the whole button a margin away from every edge. */
  predicate InBounds(pos: Point, view: Size, btn: Size)
  {
    Margin <= pos.x <= view.width - btn.width - Margin &&
    Margin <= pos.y <= view.height - btn.height - Margin
  }

  /** Steps 2 and 3: the clamped candidate on both axes. */
  function FirstPlacement(view: Size, btn: Size, mouse: Point, r1: real, r2: real): (p: Point)
    requires !TooSmall(view, btn)
    ensures InBounds(p, view, btn)
  {
    Point(Place(Horizontal, view.width, btn.width, mouse.x, r1),
          Place(Vertical, view.height, btn.height, mouse.y, r2))
  }

  /** Step 4: the first placement, nudged once when it is still within the radius. */
  function Settled(view: Size, btn: Size, mouse: Point, r1: real, r2: real): (p: Point)
    requires !TooSmall(view, btn)
    ensures InBounds(p, view, btn)
  {
    var first := FirstPlacement(view, btn, mouse, r1, r2);
    if WithinRadius(first, btn, mouse) then
      Point(Nudge(Horizontal, view.width, btn.width, mouse.x, first.x),
            Nudge(Vertical, view.height, btn.height, mouse.y, first.y))
    else
      first
  }

  /**
    The whole relocation, final clamp included. It aborts exactly when the
    viewport leaves no room between the margins on one of the axes.
  */
  function Relocate(view: Size, btn: Size, mouse: Point, r1: real, r2: real): (res: Relocation)
    ensures res.Abort? <==>
      view.width - btn.width - Margin <= Margin || view.height - btn.height - Margin <= Margin
  {
    if TooSmall(view, btn) then
      Abort
    else
      var p := Settled(view, btn, mouse, r1, r2);
      MoveTo(Point(Clamp(p.x, Margin, view.width - btn.width - Margin),
                   Clamp(p.y, Margin, view.height - btn.height - Margin)))
  }

  /** The final clamp never changes the settled position. */
  lemma FinalClampIsRedundant(view: Size, btn: Size, mouse: Point, r1: real, r2: real)
    requires !TooSmall(view, btn)
    ensures Relocate(view, btn, mouse, r1, r2) == MoveTo(Settled(view, btn, mouse, r1, r2))
  {
    var p := Settled(view, btn, mouse, r1, r2);
    ClampIdempotent(p.x, Margin, view.width - btn.width - Margin);
    ClampIdempotent(p.y, Margin, view.height - btn.height - Margin);
  }

  /** Every relocation that does not abort keeps the button inside the margins. */
  lemma RelocateInBounds(view: Size, btn: Size, mouse: Point, r1: real, r2: real)
    ensures Relocate(view, btn, mouse, r1, r2).MoveTo? ==>
      InBounds(Relocate(view, btn, mouse, r1, r2).pos, view, btn)
  {
    if !TooSmall(view, btn) {
      FinalClampIsRedundant(view, btn, mouse, r1, r2);
    }
  }

  /** On one axis, the clamped candidate lies on the side opposite the pointer. */
  lemma PlaceOppositeSide(ax: Axis, view: real, len: real, mouse: real, r: real)
    requires Margin < MaxCoord(view, len)
    ensures InNearHalf(mouse, view) ==>
      Min(MaxCoord(view, len), view / 2.0 + ax.gap) <= Place(ax, view, len, mouse, r)
    ensures !InNearHalf(mouse, view) ==>
      Place(ax, view, len, mouse, r) <= Max(Margin, view / 2.0 - len - ax.gap)
  {
    var c := Candidate(ax, view, len, mouse, r);
    if InNearHalf(mouse, view) {
      assert view / 2.0 + ax.gap <= c;
      ClampMonotone(view / 2.0 + ax.gap, c, Margin, MaxCoord(view, len));
    } else {
      assert c <= view / 2.0 - len - ax.gap;
      ClampMonotone(c, view / 2.0 - len - ax.gap, Margin, MaxCoord(view, len));
    }
  }

  /** On one axis, the extra step never brings the button back towards the pointer's half. */
  lemma NudgeMovesAway(ax: Axis, view: real, len: real, mouse: real, c: real)
    requires Margin < MaxCoord(view, len)
    requires Margin <= c <= MaxCoord(view, len)
    requires 0.0 <= ax.nudge
    ensures InNearHalf(mouse, view) ==> c <= Nudge(ax, view, len, mouse, c)
    ensures !InNearHalf(mouse, view) ==> Nudge(ax, view, len, mouse, c) <= c
  {
    var m := MaxCoord(view, len);
    if InNearHalf(mouse, view) {
      ClampMonotone(c, c + ax.nudge, Margin, m);
    } else {
      ClampMonotone(c - ax.nudge, c, Margin, m);
    }
  }

  /**
    The button ends up on the side opposite the pointer on both axes: at
    least 50 right of the midline (30 below it) when the pointer is in the
    left (top) half, and its right (bottom) edge at least 50 (30) short of
    the midline otherwise, unless the margins leave no room for that.
  */
  lemma RelocateOppositeSide(view: Size, btn: Size, mouse: Point, r1: real, r2: real)
    ensures Relocate(view, btn, mouse, r1, r2).MoveTo? ==>
      var p := Relocate(view, btn, mouse, r1, r2).pos;
      (mouse.x < view.width / 2.0 ==>
        Min(view.width - btn.width - Margin, view.width / 2.0 + 50.0) <= p.x) &&
      (view.width / 2.0 <= mouse.x ==>
        p.x <= Max(Margin, view.width / 2.0 - btn.width - 50.0)) &&
      (mouse.y < view.height / 2.0 ==>
        Min(view.height - btn.height - Margin, view.height / 2.0 + 30.0) <= p.y) &&
      (view.height / 2.0 <= mouse.y ==>
        p.y <= Max(Margin, view.height / 2.0 - btn.height - 30.0))
  {
    if !TooSmall(view, btn) {
      FinalClampIsRedundant(view, btn, mouse, r1, r2);
      var first := FirstPlacement(view, btn, mouse, r1, r2);
      PlaceOppositeSide(Horizontal, view.width, btn.width, mouse.x, r1);
      PlaceOppositeSide(Vertical, view.height, btn.height, mouse.y, r2);
      NudgeMovesAway(Horizontal, view.width, btn.width, mouse.x, first.x);
      NudgeMovesAway(Vertical, view.height, btn.height, mouse.y, first.y);
    }
  }

  /**
    The nudge is applied at most once, exactly when the first placement is
    still within the avoidance radius, and its direction depends only on the
    half the pointer is in: +50 / +30 from the left / top half, -50 / -30 otherwise.
  */
  lemma NudgeAtMostOnce(view: Size, btn: Size, mouse: Point, r1: real, r2: real)
    requires !TooSmall(view, btn)
    ensures
      var first := FirstPlacement(view, btn, mouse, r1, r2);
      var dx := if mouse.x < view.width / 2.0 then 50.0 else -50.0;
      var dy := if mouse.y < view.height / 2.0 then 30.0 else -30.0;
      Relocate(view, btn, mouse, r1, r2) ==
        if WithinRadius(first, btn, mouse) then
          MoveTo(Point(Clamp(first.x + dx, Margin, view.width - btn.width - Margin),
                       Clamp(first.y + dy, Margin, view.height - btn.height - Margin)))
        else
          MoveTo(first)
  {
    FinalClampIsRedundant(view, btn, mouse, r1, r2);
  }

  /**
    The random displacement is bounded: the button lands less than 100 (80)
    from the far-side limit when the pointer is in the left (top) half, and
    less than 100 (80) from the near margin otherwise.
  */
  lemma RelocateSpreadBounded(view: Size, btn: Size, mouse: Point, r1: real, r2: real)
    requires IsDraw(r1) && IsDraw(r2)
    ensures Relocate(view, btn, mouse, r1, r2).MoveTo? ==>
      var p := Relocate(view, btn, mouse, r1, r2).pos;
      (mouse.x < view.width / 2.0 ==> view.width - btn.width - Margin - 100.0 < p.x) &&
      (view.width / 2.0 <= mouse.x ==> p.x < Margin + 100.0) &&
      (mouse.y < view.height / 2.0 ==> view.height - btn.height - Margin - 80.0 < p.y) &&
      (view.height / 2.0 <= mouse.y ==> p.y < Margin + 80.0)
  {
    if !TooSmall(view, btn) {
      FinalClampIsRedundant(view, btn, mouse, r1, r2);
      var first := FirstPlacement(view, btn, mouse, r1, r2);
      NudgeMovesAway(Horizontal, view.width, btn.width, mouse.x, first.x);
      NudgeMovesAway(Vertical, view.height, btn.height, mouse.y, first.y);
    }
  }

  /**
    One nudge does not always escape the radius: in a 200 x 200 viewport a
    100 x 100 button fleeing a pointer at (90, 90) is pinned at (75, 75),
    whose centre is still about 49.5 from the pointer.
  */
  lemma NudgeMayLeaveButtonWithinRadius()
    ensures
      var view, btn, mouse := Size(200.0, 200.0), Size(100.0, 100.0), Point(90.0, 90.0);
      Relocate(view, btn, mouse, 0.0, 0.0) == MoveTo(Point(75.0, 75.0)) &&
      WithinRadius(Point(75.0, 75.0), btn, mouse)
  {
  }
}

/**
  The application object's avoidance state: the last pointer position, the
  debounce flag that allows one relocation at a time, the hover cue and the
  position last written into the "No" button's style.

  The layout, the viewport and `Math.random()` are outside the model: the
  button's rectangle, the viewport size and the two draws are parameters.
  The cool-down timers that clear the debounce flag become `CoolDownElapsed`.
*/
module Controller {
  import opened Geometry
  import opened Avoidance

  datatype Option<T> = None | Some(value: T)

  /** Radius of the hover cue, wider than the avoidance radius. */
  const HoverRadius: real := AvoidanceRadius + 50.0

  /** A pointer at `p` shows the hover cue of a button laid out at `btn`. */
  predicate ShowsHover(btn: Rect, p: Point)
  {
    CentreDistanceSquared(btn, p) < HoverRadius * HoverRadius
  }

  /** A pointer at `p` starts a relocation of a button laid out at `btn`. */
  predicate Triggers(btn: Rect, p: Point, avoiding: bool)
  {
    CentreDistanceSquared(btn, p) < AvoidanceRadius * AvoidanceRadius && !avoiding
  }

  /**
    With `d` the Euclidean distance from the pointer to the button's centre,
    the hover cue is shown exactly when `d < avoidanceRadius + 50`, and a
    relocation starts exactly when `d < avoidanceRadius` and none is in flight.
  */
  lemma DecisionsMatchDistance(btn: Rect, p: Point, avoiding: bool, d: real)
    requires IsDistance(d, p, Centre(btn))
    ensures ShowsHover(btn, p) <==> d < AvoidanceRadius + 50.0
    ensures Triggers(btn, p, avoiding) <==> d < AvoidanceRadius && !avoiding
  {
    BelowIffSquaredBelow(d, p, Centre(btn), HoverRadius);
    BelowIffSquaredBelow(d, p, Centre(btn), AvoidanceRadius);
  }

  /** Every move that starts a relocation also shows the hover cue. */
  lemma TriggerShowsHover(btn: Rect, p: Point, avoiding: bool)
    requires Triggers(btn, p, avoiding)
    ensures ShowsHover(btn, p)
  {
  }

  class ValentineApp {
    /** Set while a relocation is in flight; cleared by the cool-down. */
    var isAvoiding: bool
    var lastMouseX: real
    var lastMouseY: real
    /** Whether the hover text carries its `show` class. */
    var hoverShown: bool
    /** Fixed top-left corner last written into the button's style; None while the layout places it. */
    var placement: Option<Point>

    /**
      The object invariant: a relocation in flight has placed the button, and
      every placement keeps the margin from the left and top edges. Every
      method preserves it; `HandleMouseMove` exports its first half.
    */
    ghost predicate Valid()
      reads this
    {
      (isAvoiding ==> placement.Some?) &&
      (placement.Some? ==> Margin <= placement.value.x && Margin <= placement.value.y)
    }

    constructor ()
      ensures Valid()
      ensures !isAvoiding && lastMouseX == 0.0 && lastMouseY == 0.0
      ensures !hoverShown && placement == None
    {
      isAvoiding := false;
      lastMouseX := 0.0;
      lastMouseY := 0.0;
      hoverShown := false;
      placement := None;
    }

    /**
      A pointer or touch move to (x, y), with the button laid out at `btn`:
      records the coordinates, shows or hides the hover cue, and relocates the
      button when the pointer is within the avoidance radius and no relocation
      is in flight.
    */
    method HandleMouseMove(x: real, y: real, btn: Rect, view: Size, r1: real, r2: real)
      requires Valid()
      requires IsDraw(r1) && IsDraw(r2)
      modifies this
      ensures Valid()
      ensures lastMouseX == x && lastMouseY == y
      ensures hoverShown == ShowsHover(btn, Point(x, y))
      ensures isAvoiding ==> placement.Some?
      ensures !Triggers(btn, Point(x, y), old(isAvoiding)) ==>
        isAvoiding == old(isAvoiding) && placement == old(placement)
      ensures Triggers(btn, Point(x, y), old(isAvoiding)) ==>
        match Relocate(view, Size(btn.width, btn.height), Point(x, y), r1, r2)
        case Abort => !isAvoiding && placement == old(placement)
        case MoveTo(p) => isAvoiding && placement == Some(p)
    {
      lastMouseX := x;
      lastMouseY := y;

      var distanceSquared := CentreDistanceSquared(btn, Point(x, y));

      if distanceSquared < HoverRadius * HoverRadius {
        hoverShown := true;
      } else {
        hoverShown := false;
      }

      if distanceSquared < AvoidanceRadius * AvoidanceRadius && !isAvoiding {
        AvoidNoButton(view, Size(btn.width, btn.height), r1, r2);
      }
    }

    /**
      Relocates a button of size `btn` away from the last pointer position.
      Does nothing while a relocation is in flight; otherwise raises the flag,
      and lowers it again without moving anything when the viewport is too small.
    */
    method AvoidNoButton(view: Size, btn: Size, r1: real, r2: real)
      requires Valid()
      requires IsDraw(r1) && IsDraw(r2)
      modifies this`isAvoiding, this`placement
      ensures Valid()
      ensures old(isAvoiding) ==> isAvoiding && placement == old(placement)
      ensures !old(isAvoiding) ==>
        match Relocate(view, btn, Point(lastMouseX, lastMouseY), r1, r2)
        case Abort => !isAvoiding && placement == old(placement)
        case MoveTo(p) => isAvoiding && placement == Some(p)
      ensures !old(isAvoiding) && isAvoiding ==> InBounds(placement.value, view, btn)
    {
      if isAvoiding {
        return;
      }
      isAvoiding := true;

      var margin := Margin;
      var maxX := view.width - btn.width - margin;
      var maxY := view.height - btn.height - margin;

      if maxX <= margin || maxY <= margin {
        isAvoiding := false;
        return;
      }

      var mouseX, mouseY := lastMouseX, lastMouseY;
      var newX, newY;

      if mouseX < view.width / 2.0 {
        newX := Max(view.width / 2.0 + Horizontal.gap, maxX - r1 * Horizontal.spread);
      } else {
        newX := Min(view.width / 2.0 - btn.width - Horizontal.gap, margin + r1 * Horizontal.spread);
      }

      if mouseY < view.height / 2.0 {
        newY := Max(view.height / 2.0 + Vertical.gap, maxY - r2 * Vertical.spread);
      } else {
        newY := Min(view.height / 2.0 - btn.height - Vertical.gap, margin + r2 * Vertical.spread);
      }

      ghost var mouse := Point(mouseX, mouseY);
      assert newX == Candidate(Horizontal, view.width, btn.width, mouseX, r1);
      assert newY == Candidate(Vertical, view.height, btn.height, mouseY, r2);

      newX := Max(margin, Min(maxX, newX));
      newY := Max(margin, Min(maxY, newY));
      ghost var first := FirstPlacement(view, btn, mouse, r1, r2);
      assert Point(newX, newY) == first;

      var finalDistanceSquared := CentreDistanceSquared(Rect(newX, newY, btn.width, btn.height), Point(mouseX, mouseY));
      if finalDistanceSquared < AvoidanceRadius * AvoidanceRadius {
        assert WithinRadius(first, btn, mouse);
        var moveFurtherX := if mouseX < view.width / 2.0 then Horizontal.nudge else -Horizontal.nudge;
        var moveFurtherY := if mouseY < view.height / 2.0 then Vertical.nudge else -Vertical.nudge;
        assert moveFurtherX == NudgeOffset(Horizontal, view.width, mouseX);
        assert moveFurtherY == NudgeOffset(Vertical, view.height, mouseY);
        newX := Max(margin, Min(maxX, newX + moveFurtherX));
        newY := Max(margin, Min(maxY, newY + moveFurtherY));
        assert newX == Nudge(Horizontal, view.width, btn.width, mouseX, first.x);
        assert newY == Nudge(Vertical, view.height, btn.height, mouseY, first.y);
      } else {
        assert !WithinRadius(first, btn, mouse);
      }
      assert Point(newX, newY) == Settled(view, btn, mouse, r1, r2);
      FinalClampIsRedundant(view, btn, mouse, r1, r2);

      newX := Max(margin, Min(view.width - btn.width - margin, newX));
      newY := Max(margin, Min(view.height - btn.height - margin, newY));

      placement := Some(Point(newX, newY));
    }

    /** The cool-down after a relocation has passed: relocations are allowed again. */
    method CoolDownElapsed()
      requires Valid()
      modifies this`isAvoiding
      ensures Valid()
      ensures !isAvoiding
    {
      isAvoiding := false;
    }
  }
}

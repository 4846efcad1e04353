/** Properties of the gesture recognizer over several events: how a press
    is classified as a click or a drag, the worked examples of the zoom
    floor, panning and the wheel, and the behaviours the handlers have as
    written (a mouse leave ends a pan that never started, lifting one finger
    of a pinch is a pan end, `panned` is cleared only at a pan start). */
module TouchScenarios {

  import opened Wrappers
  import opened Geometry
  import opened Utils
  import opened Touch

  /** A press released without moving is a click: it zooms one step (out
      with shift held) about the pressed point, notifies only the scale, and
      leaves no pan start behind. */
  lemma ClickZooms(o: Options, num: Numerics, g: Gesture, x: real, y: real, shiftKey: bool)
    requires Wf(g) && NumericsOk(o, num) && !g.rotated
    ensures var r := OnPanEnd(o, num, OnMouseDown(g, x, y), shiftKey);
      && r.panStart.None?
      && r.zoomLevel == Max(o.minZoomLevel, g.zoomLevel + (if shiftKey then -1.0 else 1.0))
      && r.transform.log == g.transform.log + [Scaled(num.pow(o.scaleFactor, r.zoomLevel - g.zoomLevel))]
      && TransformedPoint(r.transform, x, y) == TransformedPoint(g.transform, x, y)
  {
    var g1 := OnMouseDown(g, x, y);
    ZoomIsAnchored(o, num, g1.(panStart := None), if shiftKey then -1.0 else 1.0);
  }

  /** A press that moves before release is a drag: the grabbed point ends
      under the pointer, exactly one translation is notified, and the zoom
      level does not change. */
  lemma DragPans(o: Options, num: Numerics, g: Gesture, x0: real, y0: real, x1: real, y1: real, shiftKey: bool)
    requires Wf(g)
    ensures var moved := OnMouseMove(OnMouseDown(g, x0, y0), x1, y1);
      && moved.Done?
      && var r := OnPanEnd(o, num, moved.g, shiftKey);
      && r.panStart.None? && r.zoomLevel == g.zoomLevel
      && |r.transform.log| == |g.transform.log| + 1
      && r.transform.log[..|g.transform.log|] == g.transform.log
      && r.transform.log[|g.transform.log|].Translated?
      && TransformedPoint(r.transform, x1, y1) == TransformedPoint(g.transform, x0, y0)
  {
  }

  /** The zoom floor worked through: with floor -2, three zoom-out
      clicks from level 0 give levels -1, -2 and -2, and the third click
      scales by `scaleFactor ** 0`, which leaves the matrix as it was. */
  lemma ZoomFloorExample(o: Options, num: Numerics, g: Gesture)
    requires o.minZoomLevel == -2.0 && NumericsOk(o, num) && Wf(g) && g.zoomLevel == 0.0
    ensures var g1 := OnZoom(o, num, g, -1.0);
      && g1.zoomLevel == -1.0
      && var g2 := OnZoom(o, num, g1, -1.0);
      && g2.zoomLevel == -2.0
      && var g3 := OnZoom(o, num, g2, -1.0);
      && g3.zoomLevel == -2.0
      && g3.transform.log == g2.transform.log + [Scaled(num.pow(o.scaleFactor, 0.0))]
      && g3.transform.matrix == g2.transform.matrix
  {
    var g2 := OnZoom(o, num, OnZoom(o, num, g, -1.0), -1.0);
    ZoomAboutFixesPivot(g2.transform, Focus(g2), 1.0);
  }

  function Sum(clicks: seq<real>): real {
    if |clicks| == 0 then 0.0 else clicks[0] + Sum(clicks[1..])
  }

  lemma {:induction false} SumNonPositive(clicks: seq<real>)
    requires forall i :: 0 <= i < |clicks| ==> clicks[i] <= 0.0
    ensures Sum(clicks) <= 0.0
    decreases |clicks|
  {
    if |clicks| > 0 {
      SumNonPositive(clicks[1..]);
    }
  }

  /** `_onZoom` applied to each click count in turn. */
  function ZoomSequence(o: Options, num: Numerics, g: Gesture, clicks: seq<real>): (r: Gesture)
    requires Wf(g) && NumericsOk(o, num)
    ensures Wf(r)
    decreases |clicks|
  {
    if |clicks| == 0 then g else ZoomSequence(o, num, OnZoom(o, num, g, clicks[0]), clicks[1..])
  }

  /** Any non-empty sequence of zoom-out gestures ends at the floor or at
      the starting level minus the total clicks, whichever is higher: a
      gesture crossing the floor is truncated, not dropped. */
  lemma {:induction false} ZoomOutSequenceClamps(o: Options, num: Numerics, g: Gesture, clicks: seq<real>)
    requires Wf(g) && NumericsOk(o, num) && |clicks| > 0
    requires forall i :: 0 <= i < |clicks| ==> clicks[i] <= 0.0
    ensures ZoomSequence(o, num, g, clicks).zoomLevel == Max(o.minZoomLevel, g.zoomLevel + Sum(clicks))
    decreases |clicks|
  {
    var g1 := OnZoom(o, num, g, clicks[0]);
    var rest := clicks[1..];
    if |rest| > 0 {
      ZoomOutSequenceClamps(o, num, g1, rest);
      SumNonPositive(rest);
    }
  }

  /** Panning with the identity matrix from (100, 100) to (150, 120)
      notifies a translation of (50, 20). */
  lemma PanExample(g: Gesture)
    requires g.transform.matrix == Identity
    ensures var moved := OnMouseMove(OnMouseDown(g, 100.0, 100.0), 150.0, 120.0);
      moved.Done? && moved.g.transform.log == g.transform.log + [Translated(50.0, 20.0)]
  {
    ApplyIdentity(Point(100.0, 100.0));
    ApplyIdentity(Point(150.0, 120.0));
  }

  /** A wheel `deltaY` of 100 with `wheelMax` 5 and zoom sensitivity 1 zooms
      by 5 clicks, not 10. */
  lemma WheelExample(o: Options, num: Numerics, g: Gesture)
    requires Wf(g) && o.wheelMax == 5.0 && o.wheelSensitivityZoom == 1.0
    ensures OnWheel(o, num, g, 100.0, false) == Done(OnZoom(o, num, g, 5.0))
  {
  }

  /** A non-zero wheel delta with ctrl held takes the rotate path and leaves
      the zoom level and matrix alone. */
  lemma CtrlWheelRotates(o: Options, num: Numerics, g: Gesture, deltaY: real)
    requires Wf(g) && 0.0 < o.wheelMax && deltaY != 0.0
    ensures OnWheel(o, num, g, deltaY, true).Rotating?
    ensures OnWheel(o, num, g, deltaY, true).g == g
  {
  }

  /** A ctrl wheel ends a run: the rotation it requests is not modelled,
      so no later event is applied to the unrotated matrix. */
  lemma RunStopsAtRotation(o: Options, num: Numerics, g: Gesture, deltaY: real, rest: seq<Input>)
    requires Wf(g) && NumericsOk(o, num) && WheelDelta(deltaY, o.wheelMax) != 0.0
    ensures Run(o, num, g, [Wheel(deltaY, true)] + rest).Rotating?
    ensures Run(o, num, g, [Wheel(deltaY, true)] + rest).g == g
  {
  }

  /** The first pinch move after a pinch start never zooms: the last
      distance is 0, so the move only records a distance. */
  lemma FirstPinchMoveDoesNotZoom(o: Options, num: Numerics, g: Gesture, start: seq<TouchPoint>, move: seq<TouchPoint>)
    requires Wf(g) && |start| >= 2 && |move| >= 2
    ensures var s := OnTouchStart(g, start);
      && s.Done?
      && var r := OnTouchMove(o, num, s.g, move);
      && r.Done? && r.g.zoomLevel == g.zoomLevel && r.g.transform == g.transform
  {
  }

  /** Two fingers whose cached starts are at distance 0 and which then
      close in divide by a zero distance: the clicks are `-Infinity`, so the pinch
      zooms straight to the floor and remembers the new distance. */
  lemma ClosingPinchFromZeroCachedDistanceHitsFloor(o: Options, num: Numerics, g: Gesture, touches: seq<TouchPoint>)
    requires Wf(g) && NumericsOk(o, num) && |touches| >= 2 && g.touchCache.Some?
    requires Find(g.touchCache.value, touches[0].identifier).Some?
    requires Find(g.touchCache.value, touches[1].identifier).Some?
    requires CachedDistance(num, g.touchCache.value, touches) == 0.0
    requires 0.0 < o.touchSensitivity && GetDistance(num, touches[0], touches[1]) < g.lastDistance
    ensures OnPinch(o, num, g, touches).Done?
    ensures OnPinch(o, num, g, touches).g.zoomLevel == o.minZoomLevel
    ensures OnPinch(o, num, g, touches).g.lastDistance == GetDistance(num, touches[0], touches[1])
    ensures Wf(OnPinch(o, num, g, touches).g)
  {
  }

  /** Hovering over the surface and leaving it, without any press, zooms in
      one step: `_onMouseLeave` ends a pan that never started and `panned`
      starts out false. */
  lemma HoverAndLeaveZooms(o: Options, num: Numerics, x: real, y: real)
    requires o.minZoomLevel <= 1.0
    ensures var hovered := OnMouseMove(Mounted(), x, y);
      && hovered.Done?
      && OnPanEnd(o, num, hovered.g, false).zoomLevel == 1.0
  {
  }

  /** Two fingers put down together start a pinch without a pan start;
      lifting one of them is routed to `_onPanEnd`, which zooms in because
      nothing set `panned`. Moving the remaining finger then reads the
      missing pan start and throws. */
  lemma LiftingOnePinchFingerZoomsThenThrows(o: Options, num: Numerics, g: Gesture, a: TouchPoint, b: TouchPoint, a1: TouchPoint)
    requires Wf(g) && NumericsOk(o, num) && !g.panned && !g.rotated
    ensures var s := OnTouchStart(g, [a, b]);
      && s.Done?
      && var lifted := OnTouchEnd(o, num, s.g, [a], false);
      && lifted.zoomLevel == Max(o.minZoomLevel, g.zoomLevel + 1.0)
      && OnTouchMove(o, num, lifted, [a1]) == Threw(lifted.(x := a1.x, y := a1.y, panned := true), NullPanStart)
  {
  }

  /** `panned` is cleared only by a pan start: once a pan has moved, every
      other event keeps it set, so later releases and leaves never zoom. */
  lemma PannedClearedOnlyByPanStart(o: Options, num: Numerics, g: Gesture, input: Input)
    requires Wf(g) && NumericsOk(o, num) && g.panned
    requires !input.MouseDown? && !(input.TouchStart? && |input.touches| == 1)
    ensures Step(o, num, g, input).g.panned
  {
  }

  /** Every state reached from a mounted component keeps an invertible
      matrix, and `rotated` stays false throughout. */
  lemma ReachableStatesInvertible(o: Options, num: Numerics, inputs: seq<Input>)
    requires NumericsOk(o, num)
    ensures Wf(Run(o, num, Mounted(), inputs).g)
    ensures !Run(o, num, Mounted(), inputs).g.rotated
  {
  }
}

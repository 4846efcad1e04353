/** The gesture recognizer of `src/Touch.tsx`: a sequential state machine
    whose handlers classify mouse, touch and wheel events into pans,
    click-zooms, pinch-zooms and wheel-zooms and drive the transform model.
    Each handler is a pure step from the recognizer's fields (with the
    transform it drives held beside them) to the fields after the handler
    returns. */
module Touch {

  import opened Wrappers
  import opened Geometry
  import opened Utils

  /** The `options` prop with every default already filled in (the default
      constants live in a module that is not part of this model). */
  datatype Options = Options(
    minZoomLevel: real,
    scaleFactor: real,
    touchSensitivity: real,
    wheelMax: real,
    wheelSensitivityRotate: real,
    wheelSensitivityZoom: real)

  /** What the model assumes of the uninterpreted numerics: every power of
      the scale factor is positive (as `**` is for a positive base), the
      zeroth power is 1 (as `x ** 0` is for every `x`), and the square root
      is non-negative. */
  ghost predicate NumericsOk(o: Options, num: Numerics) {
    && SqrtNonNegative(num)
    && (forall clicks :: 0.0 < num.pow(o.scaleFactor, clicks))
    && num.pow(o.scaleFactor, 0.0) == 1.0
  }

  /** A JavaScript number over exact reals: finite, an infinity, or NaN.
      The handlers divide by option values and by a cached distance, which
      may be 0; every other quantity stays finite. */
  datatype Number = Finite(val: real) | PosInfinity | NegInfinity | NaN

  /** IEEE 754 division of two finite numbers. A zero divisor is taken to
      be +0 (a negative zero is not distinguished). */
  function Divide(n: real, d: real): (r: Number)
    ensures r.Finite? <==> d != 0.0
    ensures r.Finite? ==> r.val * d == n
    ensures r.NaN? <==> n == 0.0 && d == 0.0
    ensures d == 0.0 && n != 0.0 ==> (r.PosInfinity? <==> 0.0 < n) && (r.NegInfinity? <==> n < 0.0)
  {
    if d != 0.0 then Finite(n / d)
    else if 0.0 < n then PosInfinity
    else if n < 0.0 then NegInfinity
    else NaN
  }

  /** IEEE 754 multiplication of a number by a finite `k`. */
  function Times(x: Number, k: real): (r: Number)
    ensures x.Finite? <==> r.Finite?
    ensures x.Finite? ==> r.val == x.val * k
    ensures r.NaN? <==> x.NaN? || (!x.Finite? && k == 0.0)
    ensures (x.PosInfinity? && 0.0 < k) || (x.NegInfinity? && k < 0.0) ==> r.PosInfinity?
    ensures (x.PosInfinity? && k < 0.0) || (x.NegInfinity? && 0.0 < k) ==> r.NegInfinity?
  {
    match x
    case Finite(v) => Finite(v * k)
    case NaN => NaN
    case PosInfinity => if 0.0 < k then PosInfinity else if k < 0.0 then NegInfinity else NaN
    case NegInfinity => if 0.0 < k then NegInfinity else if k < 0.0 then PosInfinity else NaN
  }

  /** `n / 0 * k` is never finite, and is `-Infinity` exactly when `n` and
      `k` have opposite signs. */
  lemma ZeroDivisorTimes(n: real, k: real)
    ensures !Times(Divide(n, 0.0), k).Finite?
    ensures Times(Divide(n, 0.0), k).NegInfinity? <==> n * k < 0.0
  {
  }

  /** The component's fields that the handlers read and write, plus the
      transform (a module singleton in the source) they drive. */
  datatype Gesture = Gesture(
    transform: Transform,
    x: real,
    y: real,
    panStart: Option<Point>,
    panned: bool,
    rotated: bool,
    touchCache: Option<seq<TouchPoint>>,
    lastDistance: real,
    zoomLevel: real)

  /** Every handler converts screen points through the inverse matrix. */
  predicate Wf(g: Gesture) {
    Invertible(g.transform.matrix)
  }

  /** How a handler returned. */
  datatype Fault =
    | NullPanStart         // `this.panStart.x` read while `panStart` is null
    | UndefinedTouchCache  // `this.touchCache.find` before any pinch start
    | NoTargetTouch        // `event.targetTouches[0].pageX` on an empty list

  datatype Outcome =
    | Done(g: Gesture)
      /** `_onRotate(amount)` was called; its effect on the matrix is not
          modelled, so a run stops here. */
    | Rotating(g: Gesture, amount: Number)
      /** The handler raised a TypeError after making the changes in `g`. */
    | Threw(g: Gesture, fault: Fault)
      /** `_onZoom` received `+Infinity` or NaN clicks; the source carries on
          with a non-finite zoom level and a non-finite or singular matrix,
          the model stops at `g`. */
    | Diverged(g: Gesture)

  function Max(a: real, b: real): real {
    if a < b then b else a
  }

  /** The component just after mounting: field initialisers, then `reset()`.
      The `null` coordinates become 0, which is what the point setters
      convert `null` to. */
  function Mounted(): (r: Gesture)
    ensures Wf(r) && !r.rotated && r.zoomLevel == 0.0
    ensures r.panStart.None? && !r.panned && r.touchCache.None? && r.lastDistance == 0.0
    ensures r.x == 0.0 && r.y == 0.0
    ensures r.transform.log == [WasReset]
    ensures r.transform.matrix == Identity
  {
    Gesture(Reset(Transform(Identity, [])), 0.0, 0.0, None, false, false, None, 0.0, 0.0)
  }

  /** The transform-space point under the last known pointer position. */
  function Focus(g: Gesture): (p: Point)
    requires Wf(g)
    ensures Apply(g.transform.matrix, p) == Point(g.x, g.y)
  {
    TransformedPoint(g.transform, g.x, g.y).value
  }

  /** `_updateCoordinates`: the last known pointer position becomes `(x, y)`. */
  function UpdateCoordinates(g: Gesture, x: real, y: real): (r: Gesture)
    ensures r.x == x && r.y == y
    ensures r.(x := g.x, y := g.y) == g
  {
    g.(x := x, y := y)
  }

  /** `_reset` (window resize): identity matrix and zoom level 0. The pan
      and pinch fields are left as they were. */
  function ResetView(g: Gesture): (r: Gesture)
    ensures r.transform.matrix == Identity && r.zoomLevel == 0.0
    ensures r.transform.log == g.transform.log + [WasReset]
    ensures r.(transform := g.transform, zoomLevel := g.zoomLevel) == g
  {
    var t := Reset(g.transform);
    g.(transform := t, zoomLevel := 0.0)
  }

  /** `_onPanStart`: remembers the transform-space point under the pointer. */
  function OnPanStart(g: Gesture): (r: Gesture)
    requires Wf(g)
    ensures r.panStart == TransformedPoint(g.transform, g.x, g.y)
    ensures r.panStart.Some? && Apply(g.transform.matrix, r.panStart.value) == Point(g.x, g.y)
    ensures !r.panned
    ensures r.(panStart := g.panStart, panned := g.panned) == g
  {
    g.(panStart := Some(Focus(g)), panned := false)
  }

  /** `_onPanMove`: translates so that the grabbed transform-space point is
      again under the pointer. */
  function OnPanMove(g: Gesture): (r: Outcome)
    requires Wf(g)
    ensures g.panStart.None? ==> r == Threw(g.(panned := true), NullPanStart)
    ensures g.panStart.Some? ==>
      && r.Done? && Wf(r.g) && r.g.panned
      && TransformedPoint(r.g.transform, g.x, g.y) == g.panStart
      && r.g.transform.log == g.transform.log
           + [Translated(Focus(g).x - g.panStart.value.x, Focus(g).y - g.panStart.value.y)]
      && r.g.transform == Translate(g.transform, Focus(g).x - g.panStart.value.x, Focus(g).y - g.panStart.value.y, true)
      && r.g.(transform := g.transform, panned := g.panned) == g
  {
    match g.panStart
    case None => Threw(g.(panned := true), NullPanStart)
    case Some(start) =>
      var pt := Focus(g);
      var t := Translate(g.transform, pt.x - start.x, pt.y - start.y, true);
      TranslateShiftsTransformedPoint(g.transform, pt.x - start.x, pt.y - start.y, true, g.x, g.y);
      Done(g.(transform := t, panned := true))
  }

  /** The zoom step without its bookkeeping: translate to the pivot, scale,
      translate back, where only the scale notifies. */
  function ZoomAbout(t: Transform, pivot: Point, factor: real): Transform {
    var t1 := Translate(t, pivot.x, pivot.y, false);
    var t2 := Scale(t1, factor, true);
    Translate(t2, -pivot.x, -pivot.y, false)
  }

  /** The pivot is a fixed point of the zoom, and the linear part is scaled. */
  lemma ZoomAboutFixesPivot(t: Transform, pivot: Point, factor: real)
    ensures Apply(ZoomAbout(t, pivot, factor).matrix, pivot) == Apply(t.matrix, pivot)
    ensures ZoomAbout(t, pivot, factor).matrix.a == factor * t.matrix.a
    ensures ZoomAbout(t, pivot, factor).matrix.b == factor * t.matrix.b
    ensures ZoomAbout(t, pivot, factor).matrix.c == factor * t.matrix.c
    ensures ZoomAbout(t, pivot, factor).matrix.d == factor * t.matrix.d
    ensures ZoomAbout(t, pivot, factor).log == t.log + [Scaled(factor)]
  {
  }

  /** `_onZoom(clicks)`: clamps the zoom level at the floor, then zooms by
      `scaleFactor ** actualClicks` about the point under the pointer, with
      the scale as the only notification. */
  function OnZoom(o: Options, num: Numerics, g: Gesture, clicks: real): (r: Gesture)
    requires Wf(g)
    ensures r.zoomLevel == Max(o.minZoomLevel, g.zoomLevel + clicks)
    ensures r.zoomLevel >= o.minZoomLevel
    ensures r.transform.log == g.transform.log + [Scaled(num.pow(o.scaleFactor, r.zoomLevel - g.zoomLevel))]
    ensures NumericsOk(o, num) ==> Wf(r)
    ensures r.(transform := g.transform, zoomLevel := g.zoomLevel) == g
  {
    var actualClicks := if g.zoomLevel + clicks < o.minZoomLevel then o.minZoomLevel - g.zoomLevel else clicks;
    var pivot := Focus(g);
    var factor := num.pow(o.scaleFactor, actualClicks);
    var t := ZoomAbout(g.transform, pivot, factor);
    ZoomAboutFixesPivot(g.transform, pivot, factor);
    DetMultiply(Multiply(g.transform.matrix, Translation(pivot.x, pivot.y)), Scaling(factor));
    g.(transform := t, zoomLevel := g.zoomLevel + actualClicks)
  }

  /** Zoom is anchored: the transform-space point under the pointer is the
      same before and after, and the matrix's linear part is multiplied by
      the factor that was notified. Together these fix the new matrix. */
  lemma ZoomIsAnchored(o: Options, num: Numerics, g: Gesture, clicks: real)
    requires Wf(g)
    ensures var r := OnZoom(o, num, g, clicks);
      var factor := num.pow(o.scaleFactor, r.zoomLevel - g.zoomLevel);
      && (factor != 0.0 ==> TransformedPoint(r.transform, g.x, g.y) == TransformedPoint(g.transform, g.x, g.y))
      && r.transform.matrix.a == factor * g.transform.matrix.a
      && r.transform.matrix.b == factor * g.transform.matrix.b
      && r.transform.matrix.c == factor * g.transform.matrix.c
      && r.transform.matrix.d == factor * g.transform.matrix.d
  {
    var r := OnZoom(o, num, g, clicks);
    var pivot := Focus(g);
    var factor := num.pow(o.scaleFactor, r.zoomLevel - g.zoomLevel);
    OnZoomZoomsAboutFocus(o, num, g, clicks);
    ZoomAboutFixesPivot(g.transform, pivot, factor);
    if factor != 0.0 {
      ZoomAboutAnchors(g.transform, pivot, factor, g.x, g.y);
    }
  }

  /** `_onZoom` zooms about the transform-space point under the pointer by
      the factor it notifies. */
  lemma OnZoomZoomsAboutFocus(o: Options, num: Numerics, g: Gesture, clicks: real)
    requires Wf(g)
    ensures OnZoom(o, num, g, clicks).transform ==
      ZoomAbout(g.transform, Focus(g), num.pow(o.scaleFactor, OnZoom(o, num, g, clicks).zoomLevel - g.zoomLevel))
  {
  }

  /** Zooming by a non-zero factor about the point under `(x, y)` leaves
      that point under `(x, y)`. */
  lemma ZoomAboutAnchors(t: Transform, pivot: Point, factor: real, x: real, y: real)
    requires Invertible(t.matrix) && factor != 0.0
    requires Apply(t.matrix, pivot) == Point(x, y)
    ensures TransformedPoint(ZoomAbout(t, pivot, factor), x, y) == TransformedPoint(t, x, y)
  {
    var z := ZoomAbout(t, pivot, factor);
    ZoomAboutFixesPivot(t, pivot, factor);
    DetScaledLinear(t.matrix, z.matrix, factor);
  }

  /** `_onZoom` with clicks that need not be finite. `-Infinity` always
      crosses the floor, so the zoom lands on the floor with finite values;
      `+Infinity` and NaN make the zoom level non-finite and the matrix
      non-finite or singular. */
  function ZoomBy(o: Options, num: Numerics, g: Gesture, clicks: Number): (r: Outcome)
    requires Wf(g)
    ensures clicks.Finite? ==> r == Done(OnZoom(o, num, g, clicks.val))
    ensures clicks.NegInfinity? ==>
      && r.Done? && r.g.zoomLevel == o.minZoomLevel
      && r.g.transform.log == g.transform.log + [Scaled(num.pow(o.scaleFactor, o.minZoomLevel - g.zoomLevel))]
      && (NumericsOk(o, num) ==> Wf(r.g))
    ensures clicks.PosInfinity? || clicks.NaN? ==> r == Diverged(g)
  {
    match clicks
    case Finite(c) => Done(OnZoom(o, num, g, c))
    case NegInfinity => Done(OnZoom(o, num, g, o.minZoomLevel - g.zoomLevel))
    case _ => Diverged(g)
  }

  /** `-Infinity` clicks zoom exactly as any finite click count that
      overshoots the floor does. */
  lemma NegInfinityOvershoots(o: Options, num: Numerics, g: Gesture, clicks: real)
    requires Wf(g) && g.zoomLevel + clicks < o.minZoomLevel
    ensures ZoomBy(o, num, g, NegInfinity) == Done(OnZoom(o, num, g, clicks))
  {
  }

  /** `_onPanEnd`: always forgets the pan start; a press that never moved is
      a click, which zooms out one step with shift held and in otherwise. */
  function OnPanEnd(o: Options, num: Numerics, g: Gesture, shiftKey: bool): (r: Gesture)
    requires Wf(g)
    ensures r.panStart.None?
    ensures !g.panned && !g.rotated ==>
      r == OnZoom(o, num, g.(panStart := None), if shiftKey then -1.0 else 1.0)
    ensures g.panned || g.rotated ==> r == g.(panStart := None)
  {
    var g1 := g.(panStart := None);
    if !g.panned && !g.rotated then OnZoom(o, num, g1, if shiftKey then -1.0 else 1.0) else g1
  }

  /** `_onPinchStart`: caches every target touch and forgets the last distance. */
  function OnPinchStart(g: Gesture, touches: seq<TouchPoint>): (r: Gesture)
    ensures r.touchCache == Some(touches) && r.lastDistance == 0.0
    ensures r.(touchCache := g.touchCache, lastDistance := g.lastDistance) == g
  {
    g.(touchCache := Some(touches), lastDistance := 0.0)
  }

  /** `Array.prototype.find` by touch identifier: the first cached touch
      with that identifier, if any. */
  function Find(cache: seq<TouchPoint>, id: int): (r: Option<TouchPoint>)
    ensures r.None? <==> forall i :: 0 <= i < |cache| ==> cache[i].identifier != id
    ensures r.Some? ==> exists i :: 0 <= i < |cache| && cache[i] == r.value
                                 && (forall j :: 0 <= j < i ==> cache[j].identifier != id)
    ensures r.Some? ==> r.value.identifier == id
  {
    if |cache| == 0 then None
    else if cache[0].identifier == id then Some(cache[0])
    else
      var rest := Find(cache[1..], id);
      assert forall i :: 1 <= i < |cache| ==> cache[i] == cache[1..][i - 1];
      if rest.Some? then
        var k :| 0 <= k < |cache[1..]| && cache[1..][k] == rest.value
                 && (forall j :: 0 <= j < k ==> cache[1..][j].identifier != id);
        assert cache[k + 1] == rest.value;
        rest
      else rest
  }

  function Midpoint(t1: TouchPoint, t2: TouchPoint): (p: Point)
    ensures p.x - t1.x == t2.x - p.x && p.y - t1.y == t2.y - p.y
  {
    Point((t1.x + t2.x) / 2.0, (t1.y + t2.y) / 2.0)
  }

  /** `_onPinch`: moves the focus to the midpoint of the first two touches
      and, when both are cached and a previous distance is known, zooms by
      the change of distance relative to the cached pair's distance. */
  function OnPinch(o: Options, num: Numerics, g: Gesture, touches: seq<TouchPoint>): (r: Outcome)
    requires Wf(g) && |touches| >= 2
    ensures g.touchCache.None? ==> r == Threw(g, UndefinedTouchCache)
    ensures g.touchCache.Some? ==> Point(r.g.x, r.g.y) == Midpoint(touches[0], touches[1])
    ensures g.touchCache.Some? && g.lastDistance != 0.0
            && Find(g.touchCache.value, touches[0].identifier).Some?
            && Find(g.touchCache.value, touches[1].identifier).Some? ==>
      r == PinchZoom(o, num, g, touches[0], touches[1], CachedDistance(num, g.touchCache.value, touches))
  {
    var touch1 := touches[0];
    var touch2 := touches[1];
    match g.touchCache
    case None => Threw(g, UndefinedTouchCache)
    case Some(cache) =>
      var startTouch1 := Find(cache, touch1.identifier);
      var startTouch2 := Find(cache, touch2.identifier);
      var mid := Midpoint(touch1, touch2);
      var g1 := UpdateCoordinates(g, mid.x, mid.y);
      if startTouch1.Some? && startTouch2.Some? then
        var distance := GetDistance(num, touch1, touch2);
        if g1.lastDistance != 0.0 then
          PinchZoom(o, num, g, touch1, touch2, GetDistance(num, startTouch1.value, startTouch2.value))
        else Done(g1.(lastDistance := distance))
      else Done(g1)
  }

  /** The distance between the cached starts of the first two touches. */
  function CachedDistance(num: Numerics, cache: seq<TouchPoint>, touches: seq<TouchPoint>): real
    requires |touches| >= 2
    requires Find(cache, touches[0].identifier).Some? && Find(cache, touches[1].identifier).Some?
  {
    GetDistance(num, Find(cache, touches[0].identifier).value, Find(cache, touches[1].identifier).value)
  }

  /** The clicks `_onPinch` passes to `_onZoom`: the change of distance over
      the cached pair's distance, times the touch sensitivity. */
  function PinchClicks(o: Options, lastDistance: real, distance: real, initial: real): Number {
    Times(Divide(distance - lastDistance, initial), o.touchSensitivity)
  }

  /** The zoom part of `_onPinch`, reached when both touches are cached and
      a previous distance is known: focus on the midpoint, zoom about it by
      the pinch clicks, and remember the current distance. A zero cached
      distance zooms to the floor when the clicks are `-Infinity` and
      diverges otherwise. */
  function PinchZoom(o: Options, num: Numerics, g: Gesture, touch1: TouchPoint, touch2: TouchPoint, initial: real): (r: Outcome)
    requires Wf(g)
    ensures r.Done? || r.Diverged?
    ensures r.Diverged? <==>
      initial == 0.0 && 0.0 <= (GetDistance(num, touch1, touch2) - g.lastDistance) * o.touchSensitivity
    ensures Point(r.g.x, r.g.y) == Midpoint(touch1, touch2)
    ensures r.Diverged? ==> r.g == g.(x := r.g.x, y := r.g.y)
    ensures r.Done? ==> PinchZoomed(o, num, g, GetDistance(num, touch1, touch2), initial, r.g)
  {
    var distance := GetDistance(num, touch1, touch2);
    var clicks := PinchClicks(o, g.lastDistance, distance, initial);
    var mid := Midpoint(touch1, touch2);
    var g1 := UpdateCoordinates(g, mid.x, mid.y);
    PinchClicksCases(o, g.lastDistance, distance, initial);
    if clicks.Finite? then
      PinchZoomRemembers(o, num, g, g1, clicks.val, distance, initial);
      Done(OnZoom(o, num, g1, clicks.val).(lastDistance := distance))
    else if clicks.NegInfinity? then
      PinchZoomRemembers(o, num, g, g1, o.minZoomLevel - g1.zoomLevel, distance, initial);
      Done(OnZoom(o, num, g1, o.minZoomLevel - g1.zoomLevel).(lastDistance := distance))
    else Diverged(g1)
  }

  /** The pinch clicks are the finite ratio for a non-zero cached distance;
      for a zero one they are `-Infinity` exactly when the distance and the
      sensitivity pull in opposite directions, and not finite otherwise. */
  lemma PinchClicksCases(o: Options, lastDistance: real, distance: real, initial: real)
    ensures initial != 0.0 ==>
      PinchClicks(o, lastDistance, distance, initial) == Finite((distance - lastDistance) / initial * o.touchSensitivity)
    ensures initial == 0.0 ==> !PinchClicks(o, lastDistance, distance, initial).Finite?
    ensures initial == 0.0 ==>
      (PinchClicks(o, lastDistance, distance, initial).NegInfinity? <==> (distance - lastDistance) * o.touchSensitivity < 0.0)
    ensures !PinchClicks(o, lastDistance, distance, initial).Finite? && !PinchClicks(o, lastDistance, distance, initial).NegInfinity?
      <==> initial == 0.0 && 0.0 <= (distance - lastDistance) * o.touchSensitivity
  {
    ZeroDivisorTimes(distance - lastDistance, o.touchSensitivity);
  }

  /** The zoom of a pinch, with the clicks it used, satisfies `PinchZoomed`. */
  lemma PinchZoomRemembers(o: Options, num: Numerics, g: Gesture, g1: Gesture, c: real, distance: real, initial: real)
    requires Wf(g) && g1 == g.(x := g1.x, y := g1.y)
    requires initial != 0.0 ==> c == (distance - g.lastDistance) / initial * o.touchSensitivity
    requires initial == 0.0 ==> c == o.minZoomLevel - g.zoomLevel
    ensures PinchZoomed(o, num, g, distance, initial, OnZoom(o, num, g1, c).(lastDistance := distance))
  {
    ZoomIsAnchored(o, num, g1, c);
  }

  /** What a pinch zoom from `g` to `r` promises: the zoom level follows the
      distance ratio (the floor when the cached distance is 0), the linear
      part of the matrix is multiplied by the notified scale, which is the
      only notification, the matrix stays invertible and the midpoint is
      anchored, and the current distance is remembered. */
  ghost predicate PinchZoomed(o: Options, num: Numerics, g: Gesture, distance: real, initial: real, r: Gesture) {
    && r.lastDistance == distance
    && r.zoomLevel == (if initial == 0.0 then o.minZoomLevel
                       else Max(o.minZoomLevel, g.zoomLevel + (distance - g.lastDistance) / initial * o.touchSensitivity))
    && r.transform.log == g.transform.log + [Scaled(num.pow(o.scaleFactor, r.zoomLevel - g.zoomLevel))]
    && r.transform.matrix.a == num.pow(o.scaleFactor, r.zoomLevel - g.zoomLevel) * g.transform.matrix.a
    && r.transform.matrix.b == num.pow(o.scaleFactor, r.zoomLevel - g.zoomLevel) * g.transform.matrix.b
    && r.transform.matrix.c == num.pow(o.scaleFactor, r.zoomLevel - g.zoomLevel) * g.transform.matrix.c
    && r.transform.matrix.d == num.pow(o.scaleFactor, r.zoomLevel - g.zoomLevel) * g.transform.matrix.d
    && (NumericsOk(o, num) ==>
          && Wf(r)
          && TransformedPoint(r.transform, r.x, r.y) == TransformedPoint(g.transform, r.x, r.y))
    && r.(x := g.x, y := g.y, transform := g.transform, zoomLevel := g.zoomLevel, lastDistance := g.lastDistance) == g
  }

  /** A pinch whose touches are not both in the cache only moves the focus:
      no zoom, and the last distance is kept. */
  lemma PinchWithUnknownTouchDoesNotZoom(o: Options, num: Numerics, g: Gesture, touches: seq<TouchPoint>, k: nat)
    requires Wf(g) && |touches| >= 2 && g.touchCache.Some? && k < 2
    requires forall i :: 0 <= i < |g.touchCache.value| ==> g.touchCache.value[i].identifier != touches[k].identifier
    ensures OnPinch(o, num, g, touches) ==
      Done(g.(x := Midpoint(touches[0], touches[1]).x, y := Midpoint(touches[0], touches[1]).y))
  {
  }

  /** With both touches cached and no previous distance, a pinch records the
      current distance and does not zoom. */
  lemma PinchWithoutLastDistanceDoesNotZoom(o: Options, num: Numerics, g: Gesture, touches: seq<TouchPoint>)
    requires Wf(g) && |touches| >= 2 && g.touchCache.Some? && g.lastDistance == 0.0
    requires Find(g.touchCache.value, touches[0].identifier).Some?
    requires Find(g.touchCache.value, touches[1].identifier).Some?
    ensures OnPinch(o, num, g, touches).Done?
    ensures OnPinch(o, num, g, touches).g ==
      g.(x := Midpoint(touches[0], touches[1]).x, y := Midpoint(touches[0], touches[1]).y,
         lastDistance := GetDistance(num, touches[0], touches[1]))
  {
  }

  /** The wheel delta: a tenth of `deltaY`, clamped to `[-wheelMax, wheelMax]`. */
  function WheelDelta(deltaY: real, wheelMax: real): (r: real)
    ensures 0.0 <= wheelMax ==> -wheelMax <= r <= wheelMax
    ensures -wheelMax <= deltaY / 10.0 <= wheelMax ==> r == deltaY / 10.0
    ensures deltaY / 10.0 > wheelMax ==> r == wheelMax
    ensures deltaY / 10.0 <= wheelMax && deltaY / 10.0 < -wheelMax ==> r == -wheelMax
  {
    var delta := deltaY / 10.0;
    if delta > wheelMax then wheelMax else if delta < -wheelMax then -wheelMax else delta
  }

  /** `_onWheel`: a non-zero clamped delta rotates with ctrl held and zooms
      otherwise; a zero delta does nothing. Both divide by a sensitivity
      option, which may be 0. */
  function OnWheel(o: Options, num: Numerics, g: Gesture, deltaY: real, ctrlKey: bool): (r: Outcome)
    requires Wf(g)
    ensures WheelDelta(deltaY, o.wheelMax) == 0.0 ==> r == Done(g)
    ensures WheelDelta(deltaY, o.wheelMax) != 0.0 && ctrlKey ==>
      && r.Rotating? && r.g == g
      && (o.wheelSensitivityRotate != 0.0 ==>
            r.amount == Finite(WheelDelta(deltaY, o.wheelMax) / o.wheelSensitivityRotate))
      && (o.wheelSensitivityRotate == 0.0 ==>
            (r.amount.NegInfinity? <==> WheelDelta(deltaY, o.wheelMax) < 0.0)
            && (r.amount.PosInfinity? <==> 0.0 < WheelDelta(deltaY, o.wheelMax)))
    ensures WheelDelta(deltaY, o.wheelMax) != 0.0 && !ctrlKey && o.wheelSensitivityZoom != 0.0 ==>
      && r.Done?
      && r.g.zoomLevel == Max(o.minZoomLevel, g.zoomLevel + WheelDelta(deltaY, o.wheelMax) / o.wheelSensitivityZoom)
      && r.g.transform.log == g.transform.log + [Scaled(num.pow(o.scaleFactor, r.g.zoomLevel - g.zoomLevel))]
      && r.g == OnZoom(o, num, g, WheelDelta(deltaY, o.wheelMax) / o.wheelSensitivityZoom)
    ensures WheelDelta(deltaY, o.wheelMax) < 0.0 && !ctrlKey && o.wheelSensitivityZoom == 0.0 ==>
      r == ZoomBy(o, num, g, NegInfinity) && r.Done? && r.g.zoomLevel == o.minZoomLevel
    ensures 0.0 < WheelDelta(deltaY, o.wheelMax) && !ctrlKey && o.wheelSensitivityZoom == 0.0 ==>
      r == Diverged(g)
  {
    var delta := WheelDelta(deltaY, o.wheelMax);
    if delta < 0.0 || delta > 0.0 then
      if ctrlKey then Rotating(g, Divide(delta, o.wheelSensitivityRotate))
      else ZoomBy(o, num, g, Divide(delta, o.wheelSensitivityZoom))
    else Done(g)
  }

  /** `_onMouseDown`: the pan starts at the transform-space point under the
      pressed position. */
  function OnMouseDown(g: Gesture, x: real, y: real): (r: Gesture)
    requires Wf(g)
    ensures r.x == x && r.y == y
    ensures r.panStart == TransformedPoint(g.transform, x, y) && !r.panned
    ensures r.(x := g.x, y := g.y, panStart := g.panStart, panned := g.panned) == g
  {
    OnPanStart(UpdateCoordinates(g, x, y))
  }

  /** `_onMouseMove`: always tracks the pointer, pans only while a pan start
      is recorded, and then keeps the grabbed point under the pointer. */
  function OnMouseMove(g: Gesture, x: real, y: real): (r: Outcome)
    requires Wf(g)
    ensures r.Done? && r.g.x == x && r.g.y == y
    ensures g.panStart.None? ==> r.g == g.(x := x, y := y)
    ensures g.panStart.Some? ==>
      && r == OnPanMove(g.(x := x, y := y))
      && r.g.panned && TransformedPoint(r.g.transform, x, y) == g.panStart
  {
    var g1 := UpdateCoordinates(g, x, y);
    if g1.panStart.Some? then OnPanMove(g1) else Done(g1)
  }

  /** `_onTouchStart`: two or more target touches start a pinch, one starts a
      pan under the first touch. */
  function OnTouchStart(g: Gesture, touches: seq<TouchPoint>): (r: Outcome)
    requires Wf(g)
    ensures |touches| == 0 ==> r == Threw(g, NoTargetTouch)
    ensures |touches| > 0 ==> r.Done? && r.g.x == touches[0].x && r.g.y == touches[0].y
    ensures |touches| == 1 ==> r == Done(OnPanStart(g.(x := touches[0].x, y := touches[0].y)))
    ensures |touches| > 1 ==> r == Done(OnPinchStart(g.(x := touches[0].x, y := touches[0].y), touches))
    ensures |touches| == 1 ==>
      && r.g.panStart == TransformedPoint(g.transform, touches[0].x, touches[0].y) && !r.g.panned
      && r.g.touchCache == g.touchCache
    ensures |touches| > 1 ==>
      && r.g.touchCache == Some(touches) && r.g.lastDistance == 0.0
      && r.g.panStart == g.panStart && r.g.panned == g.panned
    ensures r.g.transform == g.transform && r.g.zoomLevel == g.zoomLevel
  {
    if |touches| == 0 then Threw(g, NoTargetTouch)
    else
      var g1 := UpdateCoordinates(g, touches[0].x, touches[0].y);
      if |touches| > 1 then Done(OnPinchStart(g1, touches)) else Done(OnPanStart(g1))
  }

  /** `_onTouchMove`: two or more target touches pinch about their midpoint,
      one pans (and throws when no pan start is recorded). */
  function OnTouchMove(o: Options, num: Numerics, g: Gesture, touches: seq<TouchPoint>): (r: Outcome)
    requires Wf(g)
    ensures |touches| == 0 ==> r == Threw(g, NoTargetTouch)
    ensures |touches| == 1 && g.panStart.None? ==>
      r == Threw(g.(x := touches[0].x, y := touches[0].y, panned := true), NullPanStart)
    ensures |touches| == 1 && g.panStart.Some? ==>
      && r.Done? && r.g.panned
      && TransformedPoint(r.g.transform, touches[0].x, touches[0].y) == g.panStart
    ensures |touches| == 1 ==> r == OnPanMove(g.(x := touches[0].x, y := touches[0].y))
    ensures |touches| > 1 ==> r == OnPinch(o, num, g.(x := touches[0].x, y := touches[0].y), touches)
    ensures |touches| > 1 && g.touchCache.None? ==>
      r == Threw(g.(x := touches[0].x, y := touches[0].y), UndefinedTouchCache)
    ensures |touches| > 1 && g.touchCache.Some? ==>
      Point(r.g.x, r.g.y) == Midpoint(touches[0], touches[1])
  {
    if |touches| == 0 then Threw(g, NoTargetTouch)
    else
      var g1 := UpdateCoordinates(g, touches[0].x, touches[0].y);
      if |touches| > 1 then OnPinch(o, num, g1, touches) else OnPanMove(g1)
  }

  /** `_onTouchEnd`: with two or more touches left the pinch goes on
      (`_onPinchEnd` only calls back); otherwise the touch is a pan end,
      a click-zoom when nothing panned. */
  function OnTouchEnd(o: Options, num: Numerics, g: Gesture, touches: seq<TouchPoint>, shiftKey: bool): (r: Gesture)
    requires Wf(g)
    ensures |touches| > 1 ==> r == g
    ensures |touches| <= 1 ==> r == OnPanEnd(o, num, g, shiftKey) && r.panStart.None?
    ensures |touches| <= 1 && !g.panned && !g.rotated ==>
      r.zoomLevel == Max(o.minZoomLevel, g.zoomLevel + (if shiftKey then -1.0 else 1.0))
    ensures |touches| <= 1 && (g.panned || g.rotated) ==> r == g.(panStart := None)
  {
    if |touches| > 1 then g else OnPanEnd(o, num, g, shiftKey)
  }

  /** The events the component listens to, with the parts of each event the
      handlers read. Coordinates are relative to the surface. */
  datatype Input =
    | MouseDown(x: real, y: real)
    | MouseMove(x: real, y: real)
    | MouseUp(shiftKey: bool)
    | MouseLeave(shiftKey: bool)
    | Wheel(deltaY: real, ctrlKey: bool)
    | TouchStart(touches: seq<TouchPoint>)
    | TouchMove(touches: seq<TouchPoint>)
    | TouchEnd(touches: seq<TouchPoint>, shiftKey: bool)
    | Resize

  /** The listeners `render` and `componentDidMount` attach, dispatched on
      the event. Every handler keeps the matrix invertible, none sets
      `rotated`, and notifications are only ever appended. */
  function Step(o: Options, num: Numerics, g: Gesture, input: Input): (r: Outcome)
    requires Wf(g) && NumericsOk(o, num)
    ensures Wf(r.g) && r.g.rotated == g.rotated
    ensures g.transform.log <= r.g.transform.log
    ensures input.MouseUp? || input.MouseLeave? ==> r == Done(OnPanEnd(o, num, g, input.shiftKey))
  {
    match input
    case MouseDown(x, y) => Done(OnMouseDown(g, x, y))
    case MouseMove(x, y) => OnMouseMove(g, x, y)
    case MouseUp(shiftKey) => Done(OnPanEnd(o, num, g, shiftKey))
    case MouseLeave(shiftKey) => Done(OnPanEnd(o, num, g, shiftKey))
    case Wheel(deltaY, ctrlKey) => OnWheel(o, num, g, deltaY, ctrlKey)
    case TouchStart(touches) => OnTouchStart(g, touches)
    case TouchMove(touches) => OnTouchMove(o, num, g, touches)
    case TouchEnd(touches, shiftKey) => Done(OnTouchEnd(o, num, g, touches, shiftKey))
    case Resize => Done(ResetView(g))
  }

  /** A sequence of events. A handler that threw leaves its partial changes
      behind and the next event is handled as usual; a rotation (whose
      effect on the matrix is not modelled) or a diverged zoom ends the
      run. */
  function Run(o: Options, num: Numerics, g: Gesture, inputs: seq<Input>): (r: Outcome)
    requires Wf(g) && NumericsOk(o, num)
    ensures Wf(r.g) && r.g.rotated == g.rotated
    ensures g.transform.log <= r.g.transform.log
    decreases |inputs|
  {
    if |inputs| == 0 then Done(g)
    else
      var step := Step(o, num, g, inputs[0]);
      if step.Diverged? || step.Rotating? then step else Run(o, num, step.g, inputs[1..])
  }
}

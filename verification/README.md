# react-touch-canvas: transform model and gesture recognizer in Dafny

This project models the core of `react-touch-canvas`. That core lets a user pan and zoom a 2D canvas with mouse, touch and wheel input. It has three parts:

- **Transform model** (`src/utils.ts`). One affine matrix, which `translate` and `scale` post-multiply. `transformedPoint` maps a screen point through the matrix inverse, and `reset` restores the identity. Every mutation can notify observers. In the model the module-level matrix and its `onChange` emitter become an explicit `Utils.Transform` value. That value holds the matrix and a log of the notifications broadcast, in order. The matrix algebra follows the W3C Geometry Interfaces Module Level 1: `translate()`, `scale()`, `inverse()` and `transformPoint`. It lives in module `Geometry` and uses exact reals.
- **Gesture recognizer** (`src/Touch.tsx`). A sequential state machine over the component fields `x, y, panStart, panned, rotated, touchCache, lastDistance, zoomLevel`. The transform it drives is held beside them in `Touch.Gesture`. Each handler is a pure step function:
  - `_onMouseDown`, `_onMouseMove`, `_onTouchStart`, `_onTouchMove` and `_onTouchEnd` dispatch to `_onPanStart`, `_onPanMove`, `_onPanEnd`, `_onPinchStart` and `_onPinch`.
  - `_onZoom` and `_onWheel` zoom; `_reset` runs on window resize.
  - `Touch.Step` dispatches one event and `Touch.Run` folds a sequence of events.
  - A handler that throws in JavaScript returns `Threw(state, fault)`. The state is what the handler changed before the throw.
- **Letterbox geometry** (`src/ImageCanvas.tsx`, `redraw`). The canvas becomes a square whose side is the image's longer side, and the image is drawn centred on it.

Inputs and numerics:
- Options, screen coordinates and modifier keys are inputs. The default option values come from a constants module that is not part of this model.
- `scaleFactor ** clicks` and `Math.sqrt` are uninterpreted functions in `Utils.Numerics`. `Touch.NumericsOk` assumes powers of the scale factor are positive, the zeroth power is 1, and square roots are non-negative.
- Divisions by an option or by a distance can produce `Infinity`, `-Infinity` or NaN. `Touch.Number` and `Touch.Divide` model these IEEE 754 values. `-Infinity` clicks take `_onZoom` to the zoom floor with finite values. `+Infinity` and NaN clicks make the zoom level non-finite and the matrix non-finite or singular, which the model reports as `Diverged`.

## Behaviour as written

The handlers do the following, and the model does the same:

- `_onPanEnd` runs on every mouse leave, even with no pan in progress. `panned` starts false and is cleared only at a pan start. `Touch.Step` sends every mouse up and mouse leave to `_onPanEnd`. So hovering over the surface and leaving it zooms in one step (`TouchScenarios.HoverAndLeaveZooms`).
- Lifting one finger of a pinch is routed to `_onPanEnd`, which can zoom. A following one-finger move then reads a null `panStart` and throws (`TouchScenarios.LiftingOnePinchFingerZoomsThenThrows`). So the finger left on the surface has taken part in a click-zoom, and it has no pan to continue.
- `rotated` is never set to true, so `_onPanEnd` zooms exactly when `panned` is false (`TouchScenarios.ReachableStatesInvertible` proves `rotated` stays false).
- `_reset` resets only the matrix and the zoom level. A resize therefore does not clear the pan start, the touch cache or the last distance.
- `scale` does not reject a zero factor. `Utils.Scale` shows the matrix then stops being invertible.
- `this.x`/`this.y` start as `null`, and the point setters convert `null` to 0. So the model starts them at 0.
- `touchCache` starts `undefined`, and `find` on it throws.

## Model

| member | source | states |
|---|---|---|
| Geometry.Inverse | src/utils.ts:30 | `inverse()` fails exactly when the determinant is 0; otherwise the result is a two-sided inverse (both products are the identity) |
| Utils.Translate | src/utils.ts:10-13 | post-multiplying a translation keeps `a,b,c,d` and the determinant, sets `e' = a*x + c*y + e`, `f' = b*x + d*y + f`; one `TRANSLATE(x, y)` notification when `emitChanges`, none otherwise |
| Utils.Scale | src/utils.ts:15-18 | multiplies `a,b,c,d` by the factor, keeps `e,f`; the result is invertible iff the matrix was and the factor is non-zero; one `SCALE(factor)` when `emitChanges`, none otherwise |
| Utils.TransformedPoint | src/utils.ts:26-31 | defined exactly when the matrix is invertible; the forward matrix maps the result back to the screen point, and no other point maps there |
| Utils.Reset | src/utils.ts:37-40 | the matrix becomes the (invertible) identity and exactly one `RESET` is appended |
| Utils.ResetMakesTransformedPointIdentity | src/utils.ts:37-40 | after `reset()`, `transformedPoint` is the identity map |
| Utils.GetDistance | src/utils.ts:42-46 | the touch distance is non-negative when the square root is |
| Utils.GetDistanceSymmetric | src/utils.ts:42-46 | the distance does not depend on the order of the touches |
| Utils.TranslateShiftsTransformedPoint | src/utils.ts:10-13 | after `translate(x, y)` every `transformedPoint` is the old one minus `(x, y)` |
| Utils.ScaleDividesTransformedPoint | src/utils.ts:15-18 | after `scale(s)` with `s != 0` every `transformedPoint` is the old one divided by `s` |
| Utils.TranslateRoundTrip | src/utils.ts:10-13 | `translate(x, y)` then `translate(-x, -y)` restores the transform |
| Utils.ScaleRoundTrip | src/utils.ts:15-18 | `scale(s)` then `scale(1/s)` restores the transform |
| Touch.Mounted | src/Touch.tsx:53-65 | the initial fields plus the mount-time `reset()`: no pan start, `panned` false, no touch cache, last distance 0, coordinates `(0, 0)`, identity matrix, one `RESET` logged, zoom level 0, not rotated |
| Touch.UpdateCoordinates | src/Touch.tsx:102-107 | the last known pointer position becomes `(x, y)`; no other field changes |
| Touch.ResetView | src/Touch.tsx:95-100 | `_reset`: identity matrix, zoom level 0, one `RESET`, and every other field kept |
| Touch.OnPanStart | src/Touch.tsx:133-138 | `panStart` becomes the transform-space point under the pointer and `panned` is cleared; nothing else changes |
| Touch.OnPanMove | src/Touch.tsx:153-161 | with a pan start: the new transform is the old one translated by the delta, so the grabbed point is again under the pointer and the linear part is unchanged; `panned` is set and one `TRANSLATE` carries the delta; with none: throws after setting `panned` |
| Touch.Divide | src/Touch.tsx:239 | IEEE 754 division: finite exactly for a non-zero divisor, and then the true quotient; `0 / 0` is NaN; otherwise an infinity with the dividend's sign |
| Touch.Times | src/Touch.tsx:240 | IEEE 754 multiplication by a finite number: a finite product stays exact, infinity times 0 is NaN, and the sign of an infinity follows the signs of both factors |
| Touch.ZeroDivisorTimes | src/Touch.tsx:239-240 | `n / 0 * k` is never finite, and it is `-Infinity` exactly when `n` and `k` have opposite signs |
| Touch.ZoomAboutFixesPivot | src/Touch.tsx:206-208 | translate-scale-translate back keeps the pivot's image, scales the linear part by the factor, and notifies only the scale |
| Touch.OnZoom | src/Touch.tsx:187-210 | the zoom level becomes `max(minZoomLevel, old + clicks)`, so never below the floor; exactly one `SCALE(scaleFactor ** actualClicks)`; the matrix stays invertible; nothing else changes |
| Touch.ZoomAboutAnchors | src/Touch.tsx:203-208 | zooming by a non-zero factor about the point under `(x, y)` leaves that point under `(x, y)` |
| Touch.ZoomIsAnchored | src/Touch.tsx:203-208 | the transform-space point under `(x, y)` is the same before and after a zoom by a non-zero factor |
| Touch.ZoomBy | src/Touch.tsx:194-201 | finite clicks zoom as `_onZoom`; `-Infinity` always crosses the floor, so the zoom level lands on `minZoomLevel` with one `SCALE` and an invertible matrix; `+Infinity` and NaN diverge |
| Touch.NegInfinityOvershoots | src/Touch.tsx:195-196 | `-Infinity` clicks zoom exactly as any finite click count that overshoots the floor |
| Touch.OnPanEnd | src/Touch.tsx:180-185 | always clears `panStart`; zooms by -1 (shift) or +1 exactly when neither `panned` nor `rotated`, and otherwise changes nothing else |
| Touch.OnPinchStart | src/Touch.tsx:212-221 | caches all target touches and sets `lastDistance` to 0, nothing else |
| Touch.Find | src/Touch.tsx:229-230 | `find` by identifier: absent iff no cached touch has the identifier, otherwise the first one that has it |
| Touch.Midpoint | src/Touch.tsx:231-232 | the pinch focus is equidistant from the two touches on each axis, so it is their midpoint |
| Touch.OnPinch | src/Touch.tsx:223-247 | throws on an undefined cache; otherwise the focus is the touch midpoint; with both touches cached and a previous distance, it zooms as `PinchZoom` using the cached pair's distance |
| Touch.PinchZoom | src/Touch.tsx:235-243 | diverges exactly when the cached distance is 0 and the clicks are not `-Infinity`; otherwise the zoom level is `max(floor, old + (distance - lastDistance) / initialDistance * touchSensitivity)`, or the floor for a zero cached distance; the matrix's linear part is multiplied by the notified `SCALE` factor, the only notification, and the zoom is anchored at the midpoint; `lastDistance` becomes the current distance, and no other field changes |
| Touch.PinchClicksCases | src/Touch.tsx:238-240 | the pinch clicks are the finite ratio times the sensitivity for a non-zero cached distance; for a zero one they are `-Infinity` exactly when the change of distance and the sensitivity have opposite signs, and otherwise `+Infinity` or NaN |
| Touch.PinchZoomRemembers | src/Touch.tsx:239-243 | the zoom a pinch performs, followed by remembering the distance, meets every promise `PinchZoom` makes in its zoom case: zoom level, scaled linear part, one `SCALE`, anchoring and frame |
| Touch.PinchWithUnknownTouchDoesNotZoom | src/Touch.tsx:229-235 | if either touch's identifier is not cached, only the focus moves: no zoom, `lastDistance` kept |
| Touch.PinchWithoutLastDistanceDoesNotZoom | src/Touch.tsx:236-243 | with no previous distance the pinch records the distance and does not zoom |
| Touch.WheelDelta | src/Touch.tsx:272-273 | `deltaY / 10` clamped to `[-wheelMax, wheelMax]`: unchanged inside, the bound outside; for a negative `wheelMax`, every delta above `wheelMax` gives `wheelMax` and every other gives `-wheelMax`, as the two conditionals evaluate in order |
| Touch.OnWheel | src/Touch.tsx:262-278 | a zero clamped delta changes nothing; with ctrl the rotate path gets `delta / wheelSensitivityRotate`, an infinity of the delta's sign when that sensitivity is 0, and the state is untouched; otherwise a zoom by `delta / wheelSensitivityZoom`; with a zero zoom sensitivity, a negative delta is `_onZoom(-Infinity)`, a zoom to the floor, and a positive one diverges |
| Touch.OnMouseDown | src/Touch.tsx:121-125 | records the pointer; the pan start is the transform-space point under it and `panned` is cleared; nothing else changes |
| Touch.OnMouseMove | src/Touch.tsx:140-144 | always records the pointer; without a pan start nothing else changes; with one it is exactly `_onPanMove` at the new pointer, so the grabbed point follows the pointer |
| Touch.OnTouchStart | src/Touch.tsx:127-131 | throws with no target touch; otherwise records the first touch; one touch is exactly `_onPanStart` there, so the pan starts under it, and two or more are exactly `_onPinchStart`, caching all touches with `lastDistance` 0; matrix and zoom level unchanged |
| Touch.OnTouchMove | src/Touch.tsx:146-151 | throws with no target touch; one touch is exactly `_onPanMove` at that touch, so the grabbed point follows it, or it throws after setting `panned` when no pan start is recorded; two or more are exactly `_onPinch`, which throws on an undefined cache and otherwise focuses on the midpoint |
| Touch.OnTouchEnd | src/Touch.tsx:174-178 | with two or more touches left nothing changes; otherwise it is exactly `_onPanEnd`: the pan start is cleared, and a touch that never panned zooms one step |
| Touch.Step | src/Touch.tsx:300-307 | every listener keeps the matrix invertible, leaves `rotated` as it was, and only appends notifications; a mouse up and a mouse leave are both exactly `_onPanEnd` |
| Touch.Run | src/Touch.tsx:300-307 | over any sequence of events, up to the first rotation or diverged zoom where the run stops, the matrix stays invertible, `rotated` is unchanged, and the earlier notifications stay a prefix of the log |
| TouchScenarios.ClickZooms | src/Touch.tsx:180-185 | press and release without a move zooms one step (out with shift) about the pressed point, notifying only the scale |
| TouchScenarios.DragPans | src/Touch.tsx:153-161 | press, move and release: the grabbed point ends under the pointer, one `TRANSLATE` is notified, the zoom level is unchanged |
| TouchScenarios.ZoomOutSequenceClamps | src/Touch.tsx:194-201 | any non-empty sequence of zoom-out clicks ends at `max(minZoomLevel, start + total clicks)` |
| TouchScenarios.ZoomFloorExample | src/Touch.tsx:194-201 | floor -2, three -1 clicks from level 0 give -1, -2, -2, the last scaling by `scaleFactor ** 0`, which leaves the matrix unchanged |
| TouchScenarios.PanExample | src/Touch.tsx:153-161 | with the identity matrix, panning from (100,100) to (150,120) notifies `TRANSLATE(50, 20)` |
| TouchScenarios.WheelExample | src/Touch.tsx:272-276 | `deltaY = 100`, `wheelMax = 5`, sensitivity 1 zooms by 5 clicks |
| TouchScenarios.CtrlWheelRotates | src/Touch.tsx:274-275 | a non-zero wheel delta with ctrl takes the rotate path and changes no zoom state |
| TouchScenarios.RunStopsAtRotation | src/Touch.tsx:274-275 | a run that reaches a ctrl wheel with a non-zero delta stops there with the state untouched, whatever events follow |
| TouchScenarios.FirstPinchMoveDoesNotZoom | src/Touch.tsx:212-243 | the first pinch move after a pinch start never changes the matrix or the zoom level |
| TouchScenarios.ClosingPinchFromZeroCachedDistanceHitsFloor | src/Touch.tsx:235-243 | a closing pinch whose cached pair is at distance 0 divides by 0, gets `-Infinity` clicks, and lands on `minZoomLevel` with the new distance remembered and the matrix invertible |
| TouchScenarios.HoverAndLeaveZooms | src/Touch.tsx:169-172 | a mouse leave with no press, after mounting, zooms in to level 1 |
| TouchScenarios.LiftingOnePinchFingerZoomsThenThrows | src/Touch.tsx:174-178 | lifting one of two fingers put down together zooms in; moving the other then throws on the null pan start |
| TouchScenarios.PannedClearedOnlyByPanStart | src/Touch.tsx:133-161 | once set, `panned` survives every event except a mouse down or a one-finger touch start |
| TouchScenarios.ReachableStatesInvertible | src/Touch.tsx:53-62 | from mounting, every state reached before a rotation or a diverged zoom has an invertible matrix and `rotated` false |
| ImageCanvas.Redraw | src/ImageCanvas.tsx:18-37 | nothing without a canvas or an image; otherwise the square side is the longer image side, the image is centred (`2x + width = size`, `2y + height = size`), offsets are non-negative, and the longer side's offset is 0 |
| ImageCanvas.RedrawIsTheOnlyCentredSquare | src/ImageCanvas.tsx:25-31 | any square of side max(width, height) that centres the image is the one `redraw` computes |
| ImageCanvas.RedrawFitsImage | src/ImageCanvas.tsx:25-36 | the drawn image lies inside the canvas |

## Left out

- `rotate` and `_onRotate` (src/utils.ts:20-24, src/Touch.tsx:254-260): `DOMMatrix.rotate(deg, deg)` is a 3D axis rotation that needs trigonometry, and the angle divides by the element's on-screen height. `Touch.OnWheel` returns `Rotating(state, delta / wheelSensitivityRotate)`, the argument `_onRotate` receives, which is infinite for a zero sensitivity. The model does not rotate the matrix, so `Touch.Run` stops at the first rotation; a zero rotate sensitivity makes the source's matrix NaN there.
- `getMatrix`: it only reads the state; the model exposes the field `matrix` directly.
- The emitter's listener registration and the prop callbacks (`onPan`, `onZoom`, `onCoordinates`, `onTranslate`, …): they only forward values. Notifications are modelled as the appended log.
- `_onPinchEnd`: it only invokes a callback, so a touch end with two or more touches left changes nothing.
- `rotateStart`: it is never set, so clearing it in `_onMouseUp` does nothing.
- React lifecycle and DOM plumbing: mount/unmount, the resize listener (its firing is the `Resize` input), `_setup` styling, `preventDefault`, and the `pageX - offsetLeft` extraction. Touches carry surface-relative coordinates. Page and client coordinates are taken to coincide (no scrolling).
- IEEE floating point: exact reals throughout, so rounding and overflow are not modelled. A singular `inverse()` gives NaN in the source and `None` here. Divisions by zero are modelled through `Touch.Number`. A negative zero option is not distinguished from 0.
- Touch.OnPinch: when the cached pair's distance is 0 and the change of distance times `touchSensitivity` is not negative, the clicks are `+Infinity` or NaN. The source then carries on with a non-finite zoom level and a non-finite or singular matrix (`scaleFactor ** Infinity` is 0 for a scale factor below 1). The model returns `Diverged` with only the focus moved, and `Touch.Run` stops. When that product is negative, the clicks are `-Infinity`, and the model zooms to the floor as the source does.
- Touch.OnWheel: a zero zoom sensitivity with a positive delta gives `+Infinity` clicks. The model returns `Diverged` there, for the same reason.
- `scaleFactor ** clicks` and `Math.sqrt`: uninterpreted, through `Utils.Numerics`.
- Utils.GetDistance: states only non-negativity (given a non-negative square root) and symmetry, because the square root is uninterpreted.
- `src/Canvas.tsx`, the example applications, the WebGL shader, the build configuration and the type declarations: these are rendering, demo or tooling code.

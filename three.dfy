/**
 * The camera of three.rs: it moves world points into camera space by the
 * inverse of its position and orientation, projects them onto its
 * viewport, and draws points and edges of a model on its screen, clipping
 * edges against the viewport plane.
 *
 * `f32` values are reals here. The sine, cosine and tangent are supplied
 * as a `Trig` value; `f32::round` and the saturating `as i32` cast are
 * written out.
 */
module Three {
  import opened Geometry
  import opened Wrappers
  import Models
  import Raster
  import Screens

  // ---------------------------------------------------------------------
  // Numbers
  // ---------------------------------------------------------------------

  /** The trigonometric functions of `f32` the camera calls. */
  datatype Trig = Trig(sin: real -> real, cos: real -> real, tan: real -> real)

  /** The sine and cosine of `a` lie on the unit circle. */
  predicate UnitCircle(trig: Trig, a: real) {
    trig.sin(a) * trig.sin(a) + trig.cos(a) * trig.cos(a) == 1.0
  }

  /** `f32::round`: the nearest integer, halves rounded away from zero. */
  function Round(r: real): (n: int)
    ensures (n as real) - 0.5 <= r <= (n as real) + 0.5
  {
    if r >= 0.0 then (r + 0.5).Floor else -((0.5 - r).Floor)
  }

  /** Rounding is symmetric about zero, leaves integers alone and keeps order. */
  lemma RoundProperties(r: real, t: real, n: int)
    ensures Round(-r) == -Round(r)
    ensures Round(n as real) == n
    ensures r <= t ==> Round(r) <= Round(t)
  {
    if r <= t && r >= 0.0 {
      assert (r + 0.5).Floor as real <= r + 0.5 <= t + 0.5 < (t + 0.5).Floor as real + 1.0;
    }
    if r <= t && t < 0.0 {
      assert (0.5 - t).Floor as real <= 0.5 - t <= 0.5 - r < (0.5 - r).Floor as real + 1.0;
    }
  }

  const I32_MIN: int := -0x8000_0000
  const I32_MAX: int := 0x7fff_ffff

  /** `as i32` from a rounded `f32`: saturates at the bounds of `i32`. */
  function ToI32(n: int): (m: int)
    ensures I32_MIN <= m <= I32_MAX
    ensures I32_MIN <= n <= I32_MAX ==> m == n
    ensures n < I32_MIN ==> m == I32_MIN
    ensures n > I32_MAX ==> m == I32_MAX
  {
    if n < I32_MIN then I32_MIN else if n > I32_MAX then I32_MAX else n
  }

  // ---------------------------------------------------------------------
  // World space to camera space
  // ---------------------------------------------------------------------

  /** The yaw step of `world_to_camera`: turns the x-z plane, keeps y. */
  function Yaw(p: Point, s: real, c: real): (q: Point)
    ensures q.y == p.y
  {
    Point(p.x * c - p.z * s, p.y, p.x * s + p.z * c)
  }

  /** The pitch step: turns the y-z plane, keeps x. */
  function Pitch(p: Point, s: real, c: real): (q: Point)
    ensures q.x == p.x
  {
    Point(p.x, p.y * c - p.z * s, p.y * s + p.z * c)
  }

  /** The roll step: turns the x-y plane, keeps z. */
  function Roll(p: Point, s: real, c: real): (q: Point)
    ensures q.z == p.z
  {
    Point(p.x * c - p.y * s, p.x * s + p.y * c, p.z)
  }

  /** A turn of the plane by a point of the unit circle keeps lengths and is undone by the opposite turn. */
  lemma PlaneTurn(a: real, b: real, s: real, c: real)
    requires s * s + c * c == 1.0
    ensures (a * c - b * s) * (a * c - b * s) + (a * s + b * c) * (a * s + b * c) == a * a + b * b
    ensures (a * c - b * s) * c + (a * s + b * c) * s == a
    ensures (a * s + b * c) * c - (a * c - b * s) * s == b
  {
    calc {
      (a * c - b * s) * (a * c - b * s) + (a * s + b * c) * (a * s + b * c);
      a * a * (c * c + s * s) + b * b * (s * s + c * c);
      a * a + b * b;
    }
    calc {
      (a * c - b * s) * c + (a * s + b * c) * s;
      a * (c * c + s * s);
      a;
    }
    calc {
      (a * s + b * c) * c - (a * c - b * s) * s;
      b * (c * c + s * s);
      b;
    }
  }

  /** Each step keeps lengths and is undone by the same step with the sine negated. */
  lemma StepsAreRotations(p: Point, s: real, c: real)
    requires s * s + c * c == 1.0
    ensures Yaw(Yaw(p, s, c), -s, c) == p && NormSquared(Yaw(p, s, c)) == NormSquared(p)
    ensures Pitch(Pitch(p, s, c), -s, c) == p && NormSquared(Pitch(p, s, c)) == NormSquared(p)
    ensures Roll(Roll(p, s, c), -s, c) == p && NormSquared(Roll(p, s, c)) == NormSquared(p)
  {
    YawIsRotation(p, s, c);
    PitchIsRotation(p, s, c);
    RollIsRotation(p, s, c);
  }

  lemma YawIsRotation(p: Point, s: real, c: real)
    requires s * s + c * c == 1.0
    ensures Yaw(Yaw(p, s, c), -s, c) == p && NormSquared(Yaw(p, s, c)) == NormSquared(p)
  {
    var a, b := p.x, p.z;
    UndoTurn(a, b, s, c);
    var q := Yaw(p, s, c);
    assert q == Point(a * c - b * s, p.y, a * s + b * c);
    assert Yaw(q, -s, c) == Point(q.x * c - q.z * (-s), p.y, q.x * (-s) + q.z * c);
    assert NormSquared(q) == q.x * q.x + p.y * p.y + q.z * q.z;
  }

  lemma PitchIsRotation(p: Point, s: real, c: real)
    requires s * s + c * c == 1.0
    ensures Pitch(Pitch(p, s, c), -s, c) == p && NormSquared(Pitch(p, s, c)) == NormSquared(p)
  {
    var a, b := p.y, p.z;
    UndoTurn(a, b, s, c);
    var q := Pitch(p, s, c);
    assert q == Point(p.x, a * c - b * s, a * s + b * c);
    assert Pitch(q, -s, c) == Point(p.x, q.y * c - q.z * (-s), q.y * (-s) + q.z * c);
    assert NormSquared(q) == p.x * p.x + q.y * q.y + q.z * q.z;
  }

  lemma RollIsRotation(p: Point, s: real, c: real)
    requires s * s + c * c == 1.0
    ensures Roll(Roll(p, s, c), -s, c) == p && NormSquared(Roll(p, s, c)) == NormSquared(p)
  {
    var a, b := p.x, p.y;
    UndoTurn(a, b, s, c);
    var q := Roll(p, s, c);
    assert q == Point(a * c - b * s, a * s + b * c, p.z);
    assert Roll(q, -s, c) == Point(q.x * c - q.y * (-s), q.x * (-s) + q.y * c, p.z);
    assert NormSquared(q) == q.x * q.x + q.y * q.y + p.z * p.z;
  }

  /** `PlaneTurn` in the form the steps take when turned back by the negated sine. */
  lemma UndoTurn(a: real, b: real, s: real, c: real)
    requires s * s + c * c == 1.0
    ensures (a * c - b * s) * c - (a * s + b * c) * (-s) == a
    ensures (a * c - b * s) * (-s) + (a * s + b * c) * c == b
    ensures (a * c - b * s) * (a * c - b * s) + (a * s + b * c) * (a * s + b * c) == a * a + b * b
  {
    PlaneTurn(a, b, s, c);
    assert (a * s + b * c) * (-s) == -((a * s + b * c) * s);
    assert (a * c - b * s) * (-s) == -((a * c - b * s) * s);
  }

  /** `world_to_camera`: relative to the camera, then yaw, pitch and roll, in that order. */
  function WorldToCamera(trig: Trig, coordinates: Point, yaw: real, pitch: real, roll: real, p: Point): Point {
    var d := Sub(p, coordinates);
    var r := Yaw(d, trig.sin(yaw), trig.cos(yaw));
    var q := Pitch(r, trig.sin(pitch), trig.cos(pitch));
    Roll(q, trig.sin(roll), trig.cos(roll))
  }

  /** The inverse of `WorldToCamera`: undo roll, pitch and yaw, then move back to the camera's position. */
  function CameraToWorld(trig: Trig, coordinates: Point, yaw: real, pitch: real, roll: real, q: Point): Point {
    var p := Roll(q, -trig.sin(roll), trig.cos(roll));
    var r := Pitch(p, -trig.sin(pitch), trig.cos(pitch));
    Add(Yaw(r, -trig.sin(yaw), trig.cos(yaw)), coordinates)
  }

  /**
   * With sines and cosines on the unit circle, `world_to_camera` is a rigid
   * motion: it keeps distances to the camera and `CameraToWorld` undoes it.
   * The camera itself lands on the origin.
   */
  lemma WorldToCameraIsRigid(trig: Trig, coordinates: Point, yaw: real, pitch: real, roll: real, p: Point)
    requires UnitCircle(trig, yaw) && UnitCircle(trig, pitch) && UnitCircle(trig, roll)
    ensures NormSquared(WorldToCamera(trig, coordinates, yaw, pitch, roll, p)) == NormSquared(Sub(p, coordinates))
    ensures CameraToWorld(trig, coordinates, yaw, pitch, roll, WorldToCamera(trig, coordinates, yaw, pitch, roll, p)) == p
    ensures WorldToCamera(trig, coordinates, yaw, pitch, roll, coordinates) == Origin
  {
    var d := Sub(p, coordinates);
    var r := Yaw(d, trig.sin(yaw), trig.cos(yaw));
    var q := Pitch(r, trig.sin(pitch), trig.cos(pitch));
    StepsAreRotations(d, trig.sin(yaw), trig.cos(yaw));
    StepsAreRotations(r, trig.sin(pitch), trig.cos(pitch));
    StepsAreRotations(q, trig.sin(roll), trig.cos(roll));
    assert Sub(coordinates, coordinates) == Origin;
  }

  // ---------------------------------------------------------------------
  // Camera space to the screen
  // ---------------------------------------------------------------------

  /**
   * The camera's numbers at one moment: its pose, its viewport and the size
   * of its screen.
   */
  datatype View = View(trig: Trig, coordinates: Point, yaw: real, pitch: real, roll: real,
                       viewportDistance: real, viewportFov: real, width: nat, height: nat)
  {
    /** What the projection divides by is non-zero, and the viewport lies in front of the camera. */
    predicate Projectable() {
      viewportDistance > 0.0 && trig.tan(viewportFov / 2.0) != 0.0
    }

    function ToCamera(p: Point): Point {
      WorldToCamera(trig, coordinates, yaw, pitch, roll, p)
    }

    /** `viewport_width`. */
    function ViewportWidth(): real {
      2.0 * viewportDistance * trig.tan(viewportFov / 2.0)
    }
  }

  /** `projected_x` and `projected_y`: a camera-space coordinate divided onto the viewport plane. */
  function Perspective(c: real, z: real, viewportDistance: real): real
    requires z != 0.0
  {
    c * viewportDistance / z
  }

  /** `screen_x` before rounding: viewport units to screen columns, the viewport's centre at mid-screen. */
  function ToColumn(projected: real, viewportWidth: real, width: real): real
    requires viewportWidth != 0.0
  {
    (projected / viewportWidth + 0.5) * width
  }

  /** `screen_y` before rounding: as `ToColumn`, with the vertical axis flipped so that up is the top row. */
  function ToRow(projected: real, viewportHeight: real, height: real): real
    requires viewportHeight != 0.0
  {
    (1.0 - (projected / viewportHeight + 0.5)) * height
  }

  /** `camera_to_screen`: perspective division onto the viewport, then scaling to the screen, rounded and saturated. */
  function CameraToScreen(v: View, p: Point): Raster.Point
    requires v.Projectable() && p.z != 0.0 && v.width > 0 && v.height > 0
  {
    var projectedX := Perspective(p.x, p.z, v.viewportDistance);
    var projectedY := Perspective(p.y, p.z, v.viewportDistance);
    var viewportWidth := v.ViewportWidth();
    var viewportHeight := (v.height as real / v.width as real) * viewportWidth;
    assert viewportHeight != 0.0;
    var screenX := ToColumn(projectedX, viewportWidth, v.width as real);
    var screenY := ToRow(projectedY, viewportHeight, v.height as real);
    Raster.Point(ToI32(Round(screenX)), ToI32(Round(screenY)))
  }

  /** Scaling a point from the camera leaves its perspective division unchanged. */
  lemma PerspectiveOfRay(c: real, z: real, viewportDistance: real, k: real)
    requires z != 0.0 && k != 0.0
    ensures Perspective(k * c, k * z, viewportDistance) == Perspective(c, z, viewportDistance)
  {
    var q := c * viewportDistance / z;
    assert q * z == c * viewportDistance;
    assert q * (k * z) == (k * c) * viewportDistance;
  }

  /** The point straight ahead lands in the middle of the screen. */
  lemma CentreProjectsToMiddle(v: View, p: Point)
    requires v.Projectable() && p.z != 0.0 && v.width > 0 && v.height > 0
    requires p.x == 0.0 && p.y == 0.0
    ensures CameraToScreen(v, p) == Raster.Point(ToI32(Round(v.width as real / 2.0)), ToI32(Round(v.height as real / 2.0)))
  {
    var vw := v.ViewportWidth();
    var vh := (v.height as real / v.width as real) * vw;
    assert vh != 0.0;
    assert Perspective(0.0, p.z, v.viewportDistance) == 0.0;
    assert ToColumn(0.0, vw, v.width as real) == v.width as real / 2.0;
    assert ToRow(0.0, vh, v.height as real) == v.height as real / 2.0;
  }

  /** Every point on one ray from the camera lands on the same pixel. */
  lemma RayProjectsToOnePixel(v: View, p: Point, k: real)
    requires v.Projectable() && p.z != 0.0 && v.width > 0 && v.height > 0 && k != 0.0
    ensures CameraToScreen(v, Scale(k, p)) == CameraToScreen(v, p)
  {
    var q := Scale(k, p);
    assert q.z == k * p.z != 0.0;
    PerspectiveOfRay(p.x, p.z, v.viewportDistance, k);
    PerspectiveOfRay(p.y, p.z, v.viewportDistance, k);
    assert Perspective(q.x, q.z, v.viewportDistance) == Perspective(p.x, p.z, v.viewportDistance);
    assert Perspective(q.y, q.z, v.viewportDistance) == Perspective(p.y, p.z, v.viewportDistance);
  }

  lemma DivideKeepsOrder(a: real, b: real, c: real)
    requires a <= b && c > 0.0
    ensures a / c <= b / c
  {
    var x, y := a / c, b / c;
    assert (y - x) * c == b - a;
  }

  lemma PerspectiveKeepsOrder(c: real, d: real, z: real, viewportDistance: real)
    requires c <= d && z > 0.0 && viewportDistance > 0.0
    ensures Perspective(c, z, viewportDistance) <= Perspective(d, z, viewportDistance)
  {
    assert (d - c) * viewportDistance >= 0.0;
    DivideKeepsOrder(c * viewportDistance, d * viewportDistance, z);
  }

  lemma ColumnKeepsOrder(a: real, b: real, viewportWidth: real, width: real)
    requires a <= b && viewportWidth > 0.0 && width > 0.0
    ensures ToColumn(a, viewportWidth, width) <= ToColumn(b, viewportWidth, width)
  {
    DivideKeepsOrder(a, b, viewportWidth);
    var x, y := a / viewportWidth + 0.5, b / viewportWidth + 0.5;
    assert (y - x) * width >= 0.0;
  }

  /**
   * Left stays left: for a viewport in front of the camera and a positive
   * tangent, of two points at the same depth ahead the one further left
   * lands in a column no further right.
   */
  lemma ProjectionKeepsColumnOrder(v: View, p: Point, q: Point)
    requires v.Projectable() && v.width > 0 && v.height > 0 && v.trig.tan(v.viewportFov / 2.0) > 0.0
    requires p.z == q.z > 0.0 && p.x <= q.x
    ensures CameraToScreen(v, p).x <= CameraToScreen(v, q).x
  {
    var vd, w := v.viewportDistance, v.ViewportWidth();
    assert w > 0.0 by {
      var t := v.trig.tan(v.viewportFov / 2.0);
      assert 2.0 * vd > 0.0;
      assert w == (2.0 * vd) * t;
    }
    PerspectiveKeepsOrder(p.x, q.x, p.z, vd);
    var a, b := Perspective(p.x, p.z, vd), Perspective(q.x, q.z, vd);
    ColumnKeepsOrder(a, b, w, v.width as real);
    RoundProperties(ToColumn(a, w, v.width as real), ToColumn(b, w, v.width as real), 0);
  }

  // ---------------------------------------------------------------------
  // Clipping
  // ---------------------------------------------------------------------

  /** `lambda` of `edge`: how far along from the clipped end the viewport plane lies. */
  function Lambda(clipped: Point, unclipped: Point, viewportDistance: real): real
    requires clipped.z < viewportDistance <= unclipped.z
  {
    (viewportDistance - clipped.z) / (unclipped.z - clipped.z)
  }

  /** `new_clipped` of `edge`. */
  function ClipToViewport(clipped: Point, unclipped: Point, viewportDistance: real): Point
    requires clipped.z < viewportDistance <= unclipped.z
  {
    var d := Sub(unclipped, clipped);
    var fraction := Lambda(clipped, unclipped, viewportDistance);
    Point(fraction * d.x + clipped.x, fraction * d.y + clipped.y, viewportDistance)
  }

  /**
   * The new end point lies on the edge, strictly past the clipped end and
   * at most at the other end, and on the viewport plane.
   */
  lemma ClipLiesOnEdge(clipped: Point, unclipped: Point, viewportDistance: real)
    requires clipped.z < viewportDistance <= unclipped.z
    ensures 0.0 < Lambda(clipped, unclipped, viewportDistance) <= 1.0
    ensures ClipToViewport(clipped, unclipped, viewportDistance) ==
      Add(clipped, Scale(Lambda(clipped, unclipped, viewportDistance), Sub(unclipped, clipped)))
  {
    var fraction := Lambda(clipped, unclipped, viewportDistance);
    var dz := unclipped.z - clipped.z;
    assert fraction * dz == viewportDistance - clipped.z;
    assert (1.0 - fraction) * dz == unclipped.z - viewportDistance;
  }

  /**
   * The clipping arithmetic of `edge` in the source's statement order:
   * the distance to the plane, the three deltas, the fraction, then the new
   * point. `ClipToViewport` is the same point as one expression, and the
   * lemmas are stated about it.
   */
  method Clip(clipped: Point, unclipped: Point, viewportDistance: real) returns (newClipped: Point)
    requires clipped.z < viewportDistance <= unclipped.z
    ensures newClipped == ClipToViewport(clipped, unclipped, viewportDistance)
  {
    var distanceToClip := viewportDistance - clipped.z;
    var deltaX, deltaY, deltaZ := unclipped.x - clipped.x, unclipped.y - clipped.y, unclipped.z - clipped.z;
    var fraction := distanceToClip / deltaZ;
    assert fraction == Lambda(clipped, unclipped, viewportDistance);
    newClipped := Point(fraction * deltaX + clipped.x, fraction * deltaY + clipped.y, viewportDistance);
  }

  /** The screen segment `edge` draws for two world points, if it draws one. */
  function EdgeSegment(v: View, start: Point, end: Point): Option<(Raster.Point, Raster.Point)>
    requires v.Projectable() && v.width > 0 && v.height > 0
  {
    var cameraStart := v.ToCamera(start);
    var cameraEnd := v.ToCamera(end);
    var clipStart := cameraStart.z < v.viewportDistance;
    var clipEnd := cameraEnd.z < v.viewportDistance;
    if clipStart && clipEnd then None
    else if !clipStart && !clipEnd then
      Some((CameraToScreen(v, cameraStart), CameraToScreen(v, cameraEnd)))
    else
      var (clipped, unclipped) := if clipStart then (cameraStart, cameraEnd) else (cameraEnd, cameraStart);
      Some((CameraToScreen(v, ClipToViewport(clipped, unclipped, v.viewportDistance)), CameraToScreen(v, unclipped)))
  }

  /**
   * `edge` draws nothing exactly when both ends are behind the viewport
   * plane; when only one is, the segment is the same whichever end is
   * given first; when neither is, swapping the ends reverses it.
   */
  lemma EdgeSegmentCases(v: View, start: Point, end: Point)
    requires v.Projectable() && v.width > 0 && v.height > 0
    ensures EdgeSegment(v, start, end).None? <==>
      (v.ToCamera(start).z < v.viewportDistance && v.ToCamera(end).z < v.viewportDistance)
    ensures (v.ToCamera(start).z < v.viewportDistance) != (v.ToCamera(end).z < v.viewportDistance) ==>
      EdgeSegment(v, start, end) == EdgeSegment(v, end, start)
    ensures v.ToCamera(start).z >= v.viewportDistance && v.ToCamera(end).z >= v.viewportDistance ==>
      EdgeSegment(v, start, end) == Some((EdgeSegment(v, end, start).value.1, EdgeSegment(v, end, start).value.0))
  {
  }

  // ---------------------------------------------------------------------
  // Drawing, as values
  // ---------------------------------------------------------------------

  /** Whether `write` reaches the screen: the point is on or beyond the viewport plane. */
  predicate Ahead(v: View, p: Point) {
    v.ToCamera(p).z >= v.viewportDistance
  }

  /**
   * The screen content after `Camera::write(val, p)`. On a screen with no
   * rows or no columns the screen's own write never changes anything, so
   * the projection is not needed there.
   */
  function Shown(v: View, content: seq<seq<bool>>, val: bool, p: Point): (c: seq<seq<bool>>)
    requires v.Projectable() && Screens.Fits(content, v.width, v.height)
    ensures Screens.Fits(c, v.width, v.height)
  {
    if Ahead(v, p) && v.width > 0 && v.height > 0 then
      Screens.Written(content, v.width, v.height, val, CameraToScreen(v, v.ToCamera(p)))
    else content
  }

  /** The screen content after `Camera::edge(start, end)`. */
  function Edged(v: View, content: seq<seq<bool>>, start: Point, end: Point): (c: seq<seq<bool>>)
    requires v.Projectable() && Screens.Fits(content, v.width, v.height)
    ensures Screens.Fits(c, v.width, v.height)
  {
    if v.width > 0 && v.height > 0 then
      match EdgeSegment(v, start, end)
      case None => content
      case Some((a, b)) => Screens.PlotAll(content, v.width, v.height, Raster.LinePixels(a, b))
    else content
  }

  /** The pixels `edge` lights, in order. */
  function EdgePixels(v: View, start: Point, end: Point): seq<Raster.Point>
    requires v.Projectable() && v.width > 0 && v.height > 0
  {
    match EdgeSegment(v, start, end)
    case None => []
    case Some((a, b)) => Raster.LinePixels(a, b)
  }

  /** The screen content after `plot_model_points` has written the first `|ps|` points. */
  function PointsShown(v: View, content: seq<seq<bool>>, m: Models.Model, ps: seq<Point>): (c: seq<seq<bool>>)
    requires v.Projectable() && Screens.Fits(content, v.width, v.height)
    ensures Screens.Fits(c, v.width, v.height)
  {
    if ps == [] then content
    else Shown(v, PointsShown(v, content, m, ps[..|ps| - 1]), true, Models.ModelToWorld(m, ps[|ps| - 1]))
  }

  /** The pixels the points `ps` of `m` project to, for those ahead of the viewport plane, in order. */
  function Footprint(v: View, m: Models.Model, ps: seq<Point>): seq<Raster.Point>
    requires v.Projectable() && v.width > 0 && v.height > 0
  {
    if ps == [] then []
    else
      var w := Models.ModelToWorld(m, ps[|ps| - 1]);
      Footprint(v, m, ps[..|ps| - 1]) + (if Ahead(v, w) then [CameraToScreen(v, v.ToCamera(w))] else [])
  }

  /**
   * `plot_model_points` lights exactly the pixels the model's points ahead
   * of the viewport plane project to, and keeps every pixel already lit.
   */
  lemma {:induction false} PointsShownLights(v: View, content: seq<seq<bool>>, m: Models.Model, ps: seq<Point>)
    requires v.Projectable() && v.width > 0 && v.height > 0 && Screens.Fits(content, v.width, v.height)
    ensures PointsShown(v, content, m, ps) == Screens.PlotAll(content, v.width, v.height, Footprint(v, m, ps))
  {
    if ps != [] {
      var init := ps[..|ps| - 1];
      var w := Models.ModelToWorld(m, ps[|ps| - 1]);
      PointsShownLights(v, content, m, init);
      var tail := if Ahead(v, w) then [CameraToScreen(v, v.ToCamera(w))] else [];
      Screens.PlotAllAppend(content, v.width, v.height, Footprint(v, m, init), tail);
      var before := Screens.PlotAll(content, v.width, v.height, Footprint(v, m, init));
      if Ahead(v, w) {
        assert Screens.PlotAll(Screens.Written(before, v.width, v.height, true, tail[0]), v.width, v.height, tail[1..])
          == Screens.Written(before, v.width, v.height, true, tail[0]);
      }
    }
  }

  /** The screen content after `plot_model_edges` has drawn the first `|es|` edges. */
  function EdgesShown(v: View, content: seq<seq<bool>>, m: Models.Model, es: seq<(Point, Point)>): (c: seq<seq<bool>>)
    requires v.Projectable() && Screens.Fits(content, v.width, v.height)
    ensures Screens.Fits(c, v.width, v.height)
  {
    if es == [] then content
    else
      var e := es[|es| - 1];
      Edged(v, EdgesShown(v, content, m, es[..|es| - 1]), Models.ModelToWorld(m, e.0), Models.ModelToWorld(m, e.1))
  }

  /** The pixels the edges `es` of `m` light, edge by edge. */
  function EdgesFootprint(v: View, m: Models.Model, es: seq<(Point, Point)>): seq<Raster.Point>
    requires v.Projectable() && v.width > 0 && v.height > 0
  {
    if es == [] then []
    else
      var e := es[|es| - 1];
      EdgesFootprint(v, m, es[..|es| - 1]) + EdgePixels(v, Models.ModelToWorld(m, e.0), Models.ModelToWorld(m, e.1))
  }

  /** `plot_model_edges` lights exactly the pixels of the lines its edges draw, and keeps every pixel already lit. */
  lemma {:induction false} EdgesShownLights(v: View, content: seq<seq<bool>>, m: Models.Model, es: seq<(Point, Point)>)
    requires v.Projectable() && v.width > 0 && v.height > 0 && Screens.Fits(content, v.width, v.height)
    ensures EdgesShown(v, content, m, es) == Screens.PlotAll(content, v.width, v.height, EdgesFootprint(v, m, es))
  {
    if es != [] {
      var init := es[..|es| - 1];
      var e := es[|es| - 1];
      EdgesShownLights(v, content, m, init);
      Screens.PlotAllAppend(content, v.width, v.height, EdgesFootprint(v, m, init),
        EdgePixels(v, Models.ModelToWorld(m, e.0), Models.ModelToWorld(m, e.1)));
    }
  }

  // ---------------------------------------------------------------------
  // The camera object
  // ---------------------------------------------------------------------

  /** `Camera`: a pose, a viewport, and the screen it draws on. */
  class Camera {
    var coordinates: Point
    var yaw: real
    var pitch: real
    var roll: real
    var viewportDistance: real
    var viewportFov: real
    var screen: Screens.Screen
    const trig: Trig

    ghost predicate Valid()
      reads this, screen
    {
      screen.Valid()
    }

    /** The camera's numbers now. */
    function Current(): View
      reads this, screen
    {
      View(trig, coordinates, yaw, pitch, roll, viewportDistance, viewportFov, screen.width, screen.height)
    }

    /** `Camera::new`, with a fresh empty screen. */
    constructor (trig: Trig, coordinates: Point, yaw: real, pitch: real, roll: real,
                 viewportDistance: real, viewportFov: real)
      ensures Valid() && fresh(screen)
      ensures this.trig == trig && this.coordinates == coordinates
      ensures this.yaw == yaw && this.pitch == pitch && this.roll == roll
      ensures this.viewportDistance == viewportDistance && this.viewportFov == viewportFov
      ensures screen.width == 0 && screen.height == 0
    {
      this.trig := trig;
      this.coordinates := coordinates;
      this.yaw, this.pitch, this.roll := yaw, pitch, roll;
      this.viewportDistance, this.viewportFov := viewportDistance, viewportFov;
      this.screen := new Screens.Screen();
    }

    /**
     * `world_to_camera` in the source's statement order: the translation,
     * then the yaw, pitch and roll steps. `View.ToCamera` is the same map as
     * a function of the camera's state, and the lemmas are stated about it.
     */
    method ToCamera(worldPoint: Point) returns (q: Point)
      ensures q == Current().ToCamera(worldPoint)
    {
      var sinYaw, sinPitch, sinRoll := trig.sin(yaw), trig.sin(pitch), trig.sin(roll);
      var cosYaw, cosPitch, cosRoll := trig.cos(yaw), trig.cos(pitch), trig.cos(roll);
      var deltaX := worldPoint.x - coordinates.x;
      var deltaY := worldPoint.y - coordinates.y;
      var deltaZ := worldPoint.z - coordinates.z;
      var rotX, rotY, rotZ := deltaX * cosYaw - deltaZ * sinYaw, deltaY, deltaX * sinYaw + deltaZ * cosYaw;
      var pitchX, pitchY, pitchZ := rotX, rotY * cosPitch - rotZ * sinPitch, rotY * sinPitch + rotZ * cosPitch;
      var rollX, rollY, rollZ := pitchX * cosRoll - pitchY * sinRoll, pitchX * sinRoll + pitchY * cosRoll, pitchZ;
      q := Point(rollX, rollY, rollZ);
    }

    /** `Camera::write`: project the point and write it, unless it lies behind the viewport plane. */
    method Write(val: bool, point: Point)
      requires Valid() && Current().Projectable()
      modifies screen`content
      ensures Valid()
      ensures screen.content == Shown(Current(), old(screen.content), val, point)
    {
      var cameraPoint := ToCamera(point);
      if cameraPoint.z >= viewportDistance {
        if screen.width > 0 && screen.height > 0 {
          screen.Write(val, CameraToScreen(Current(), cameraPoint));
        }
      }
    }

    /** `Camera::edge`: draw the segment between two world points, clipped to the part ahead of the viewport plane. */
    method Edge(start: Point, end: Point)
      requires Valid() && Current().Projectable()
      modifies screen`content
      ensures Valid()
      ensures screen.content == Edged(Current(), old(screen.content), start, end)
    {
      var v := Current();
      var cameraStart := ToCamera(start);
      var cameraEnd := ToCamera(end);

      var clipStart := cameraStart.z < viewportDistance;
      var clipEnd := cameraEnd.z < viewportDistance;

      if clipStart && clipEnd {
        return;
      }
      if screen.width == 0 || screen.height == 0 {
        return;
      }

      if !clipStart && !clipEnd {
        var a, b := CameraToScreen(v, cameraStart), CameraToScreen(v, cameraEnd);
        assert EdgeSegment(v, start, end) == Some((a, b));
        screen.Line(a, b);
        return;
      }

      var clipped, unclipped := if clipStart then cameraStart else cameraEnd, if clipStart then cameraEnd else cameraStart;
      var newClipped := Clip(clipped, unclipped, viewportDistance);
      var a, b := CameraToScreen(v, newClipped), CameraToScreen(v, unclipped);
      assert EdgeSegment(v, start, end) == Some((a, b));
      screen.Line(a, b);
    }

    /** `plot_model_points`: write every point of the model, placed in world space. */
    method PlotModelPoints(m: Models.Model)
      requires Valid() && Current().Projectable()
      modifies screen`content
      ensures Valid()
      ensures screen.content == PointsShown(Current(), old(screen.content), m, m.points)
    {
      var i := 0;
      while i < |m.points|
        invariant 0 <= i <= |m.points|
        invariant Valid()
        invariant screen.content == PointsShown(Current(), old(screen.content), m, m.points[..i])
      {
        Write(true, Models.ModelToWorld(m, m.points[i]));
        i := i + 1;
        assert m.points[..i][..i - 1] == m.points[..i - 1];
      }
      assert m.points[..i] == m.points;
    }

    /** `plot_model_edges`: draw every edge of the model, its ends placed in world space. */
    method PlotModelEdges(m: Models.Model)
      requires Valid() && Current().Projectable()
      modifies screen`content
      ensures Valid()
      ensures screen.content == EdgesShown(Current(), old(screen.content), m, m.edges)
    {
      var i := 0;
      while i < |m.edges|
        invariant 0 <= i <= |m.edges|
        invariant Valid()
        invariant screen.content == EdgesShown(Current(), old(screen.content), m, m.edges[..i])
      {
        var e := m.edges[i];
        Edge(Models.ModelToWorld(m, e.0), Models.ModelToWorld(m, e.1));
        i := i + 1;
        assert m.edges[..i][..i - 1] == m.edges[..i - 1];
      }
      assert m.edges[..i] == m.edges;
    }
  }
}

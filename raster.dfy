// The value-level half of screen.rs: the screen point and the walk that
// `Screen::line` performs (Bresenham's algorithm with the error term
// `err = dx + dy`, dy non-positive, both axes stepped by the same test on the
// error value taken at the top of the iteration).

module Raster {

  /** A point on the screen; the source's coordinates are `i32`, here unbounded. */
  datatype Point = Point(x: int, y: int)

  function Abs(n: int): nat {
    if n < 0 then -n else n
  }

  function Max(a: int, b: int): int {
    if a < b then b else a
  }

  /** `m` lies between `a` and `b`, in either order. */
  predicate Between(a: int, m: int, b: int) {
    (a <= m <= b) || (b <= m <= a)
  }

  /** Two distinct pixels that touch, along an edge or at a corner. */
  predicate Neighbours(p: Point, q: Point) {
    p != q && Abs(p.x - q.x) <= 1 && Abs(p.y - q.y) <= 1
  }

  /** The quantities `line` fixes before its loop. */
  datatype Segment = Segment(start: Point, end: Point) {
    /** `delta_x`: the horizontal distance. */
    function DeltaX(): nat {
      Abs(end.x - start.x)
    }
    /** The vertical distance; the source keeps its negation in `delta_y`. */
    function Rise(): nat {
      Abs(end.y - start.y)
    }
    function DeltaY(): int {
      -(Rise() as int)
    }
    function StepX(): int {
      if start.x < end.x then 1 else -1
    }
    function StepY(): int {
      if start.y < end.y then 1 else -1
    }
  }

  /** The loop variables of `line`: the current pixel and the error term. */
  datatype Walk = Walk(x: int, y: int, err: int)

  /** The loop variables before the first iteration. */
  function Begin(s: Segment): (w: Walk)
    ensures w.x == s.start.x && w.y == s.start.y
  {
    Walk(s.start.x, s.start.y, s.DeltaX() + s.DeltaY())
  }

  /** Horizontal steps still to take towards the end point (negative once past it). */
  function LeftX(s: Segment, w: Walk): int {
    if s.StepX() == 1 then s.end.x - w.x else w.x - s.end.x
  }

  /** Vertical steps still to take towards the end point. */
  function LeftY(s: Segment, w: Walk): int {
    if s.StepY() == 1 then s.end.y - w.y else w.y - s.end.y
  }

  function ErrorAt(s: Segment, u: int, v: int): int {
    s.DeltaX() - s.Rise() + s.Rise() * u - s.DeltaX() * v
  }

  /**
   * The loop invariant of `line`: the walk has not passed the end point on
   * either axis, and the error term is determined by the steps still to take.
   */
  predicate OnTrack(s: Segment, w: Walk) {
    0 <= LeftX(s, w) <= s.DeltaX() && 0 <= LeftY(s, w) <= s.Rise()
    && w.err == ErrorAt(s, LeftX(s, w), LeftY(s, w))
  }

  /** The loop guard of `line`, negated. */
  predicate AtEnd(s: Segment, w: Walk) {
    w.x == s.end.x && w.y == s.end.y
  }

  /** One iteration of the loop body, without the write. */
  function Next(s: Segment, w: Walk): Walk {
    var x1 := if 2 * w.err >= s.DeltaY() then w.x + s.StepX() else w.x;
    var e1 := if 2 * w.err >= s.DeltaY() then w.err + s.DeltaY() else w.err;
    var y1 := if 2 * w.err <= s.DeltaX() then w.y + s.StepY() else w.y;
    var e2 := if 2 * w.err <= s.DeltaX() then e1 + s.DeltaX() else e1;
    Walk(x1, y1, e2)
  }

  lemma BeginOnTrack(s: Segment)
    ensures OnTrack(s, Begin(s))
  {
    var u: int, v: int := s.DeltaX(), s.Rise();
    assert LeftX(s, Begin(s)) == u && LeftY(s, Begin(s)) == v;
    assert s.Rise() * u == s.DeltaX() * v;
  }

  /** On track, the horizontal step is taken exactly when x has steps left to take. */
  lemma StepsOnlyTowardsEnd(s: Segment, w: Walk)
    requires OnTrack(s, w) && !AtEnd(s, w)
    ensures LeftX(s, w) == 0 ==> 2 * w.err < s.DeltaY()
    ensures LeftY(s, w) == 0 ==> 2 * w.err > s.DeltaX()
    ensures 2 * w.err >= s.DeltaY() || 2 * w.err <= s.DeltaX()
  {
    var dx: int, d: int := s.DeltaX(), s.Rise();
    var u, v := LeftX(s, w), LeftY(s, w);
    if u == 0 {
      assert v >= 1;
      assert dx * v >= dx;
      assert w.err == dx - d - dx * v;
    }
    if v == 0 {
      assert u >= 1;
      assert d * u >= d;
      assert w.err == dx - d + d * u;
    }
  }

  /** Taking one step off u adds `-d` to the error term; one step off v adds `dx`. */
  lemma ErrorSteps(dx: int, d: int, u: int, v: int)
    ensures dx - d + d * u - dx * v - d == dx - d + d * (u - 1) - dx * v
    ensures dx - d + d * u - dx * v + dx == dx - d + d * u - dx * (v - 1)
  {
    assert d * (u - 1) == d * u - d;
    assert dx * (v - 1) == dx * v - dx;
  }

  /** One iteration keeps the invariant and takes at least one step. */
  lemma NextOnTrack(s: Segment, w: Walk)
    requires OnTrack(s, w) && !AtEnd(s, w)
    ensures OnTrack(s, Next(s, w))
    ensures LeftX(s, Next(s, w)) + LeftY(s, Next(s, w)) < LeftX(s, w) + LeftY(s, w)
  {
    StepsOnlyTowardsEnd(s, w);
    var u, v := LeftX(s, w), LeftY(s, w);
    ErrorSteps(s.DeltaX(), s.Rise(), u, v);
    ErrorSteps(s.DeltaX(), s.Rise(), u - 1, v);
    var n := Next(s, w);
    var stepX := 2 * w.err >= s.DeltaY();
    var stepY := 2 * w.err <= s.DeltaX();
    var u' := if stepX then u - 1 else u;
    var v' := if stepY then v - 1 else v;
    assert LeftX(s, n) == u';
    assert LeftY(s, n) == v';
    assert n.err == ErrorAt(s, u', v');
  }

  /**
   * The pixels at the top of each remaining iteration, in order: the points
   * `line` writes inside its loop.
   */
  function Trace(s: Segment, w: Walk): seq<Point>
    requires OnTrack(s, w)
    decreases LeftX(s, w) + LeftY(s, w)
  {
    if AtEnd(s, w) then []
    else
      NextOnTrack(s, w);
      [Point(w.x, w.y)] + Trace(s, Next(s, w))
  }

  /** The pixels `line` writes, in order: the start point, then every loop iteration's pixel. */
  function LinePixels(start: Point, end: Point): (ps: seq<Point>)
    ensures |ps| >= 1 && ps[0] == start
  {
    var s := Segment(start, end);
    BeginOnTrack(s);
    [start] + Trace(s, Begin(s))
  }

  lemma {:induction false} TraceEmptyIffAtEnd(s: Segment, w: Walk)
    requires OnTrack(s, w)
    ensures |Trace(s, w)| == 0 <==> AtEnd(s, w)
    ensures !AtEnd(s, w) ==> Trace(s, w)[0] == Point(w.x, w.y)
  {
  }

  /** When x moves at least as far as y, every iteration steps in x. */
  lemma {:induction false} TraceLengthWide(s: Segment, w: Walk)
    requires OnTrack(s, w) && s.DeltaX() >= s.Rise() && 2 * w.err >= s.DeltaY()
    ensures |Trace(s, w)| == LeftX(s, w)
    decreases LeftX(s, w) + LeftY(s, w)
  {
    if !AtEnd(s, w) {
      StepsOnlyTowardsEnd(s, w);
      NextOnTrack(s, w);
      var n := Next(s, w);
      assert LeftX(s, n) == LeftX(s, w) - 1;
      assert 2 * n.err >= s.DeltaY();
      TraceLengthWide(s, n);
    } else {
      assert LeftX(s, w) == 0;
    }
  }

  /** When y moves further than x, every iteration steps in y. */
  lemma {:induction false} TraceLengthTall(s: Segment, w: Walk)
    requires OnTrack(s, w) && s.DeltaX() < s.Rise() && 2 * w.err <= s.DeltaX()
    ensures |Trace(s, w)| == LeftY(s, w)
    decreases LeftX(s, w) + LeftY(s, w)
  {
    if !AtEnd(s, w) {
      StepsOnlyTowardsEnd(s, w);
      NextOnTrack(s, w);
      var n := Next(s, w);
      assert LeftY(s, n) == LeftY(s, w) - 1;
      assert 2 * n.err <= s.DeltaX();
      TraceLengthTall(s, n);
    } else {
      assert LeftY(s, w) == 0;
    }
  }

  /** The loop runs once per pixel of the longer axis: `max(|dx|, |dy|)` iterations. */
  lemma TraceLength(s: Segment)
    ensures OnTrack(s, Begin(s))
    ensures |Trace(s, Begin(s))| == Max(s.DeltaX(), s.Rise())
  {
    BeginOnTrack(s);
    var w := Begin(s);
    assert LeftX(s, w) == s.DeltaX() && LeftY(s, w) == s.Rise();
    if s.DeltaX() >= s.Rise() {
      TraceLengthWide(s, w);
    } else {
      TraceLengthTall(s, w);
    }
  }

  /**
   * Every pixel of the walk lies in the bounding box of the segment, is not
   * the end point, and each one touches the next; the last one touches the
   * end point.
   */
  lemma {:induction false} TraceShape(s: Segment, w: Walk)
    requires OnTrack(s, w)
    ensures forall i :: 0 <= i < |Trace(s, w)| ==>
      Between(s.start.x, Trace(s, w)[i].x, s.end.x) && Between(s.start.y, Trace(s, w)[i].y, s.end.y)
    ensures s.end !in Trace(s, w)
    ensures forall i :: 0 <= i < |Trace(s, w)| - 1 ==> Neighbours(Trace(s, w)[i], Trace(s, w)[i + 1])
    ensures |Trace(s, w)| > 0 ==> Neighbours(Trace(s, w)[|Trace(s, w)| - 1], s.end)
    decreases LeftX(s, w) + LeftY(s, w)
  {
    if !AtEnd(s, w) {
      NextOnTrack(s, w);
      var n := Next(s, w);
      var t := Trace(s, w);
      var rest := Trace(s, n);
      TraceShape(s, n);
      TraceEmptyIffAtEnd(s, n);
      assert t == [Point(w.x, w.y)] + rest;
      assert Between(s.start.x, w.x, s.end.x) && Between(s.start.y, w.y, s.end.y);
      assert Neighbours(Point(w.x, w.y), Point(n.x, n.y));
      if |rest| > 0 {
        assert rest[0] == Point(n.x, n.y);
      } else {
        assert Point(n.x, n.y) == s.end;
      }
      forall i | 0 <= i < |t| - 1
        ensures Neighbours(t[i], t[i + 1])
      {
        if i > 0 {
          assert t[i] == rest[i - 1] && t[i + 1] == rest[i];
        }
      }
    }
  }

  /** `line` writes the start point, never the end point unless the two coincide, and stays in the segment's box. */
  lemma LinePixelsShape(start: Point, end: Point)
    ensures |LinePixels(start, end)| == 1 + Max(Abs(end.x - start.x), Abs(end.y - start.y))
    ensures end in LinePixels(start, end) <==> start == end
    ensures forall i :: 0 <= i < |LinePixels(start, end)| ==>
      Between(start.x, LinePixels(start, end)[i].x, end.x) && Between(start.y, LinePixels(start, end)[i].y, end.y)
    ensures forall i :: 0 <= i < |LinePixels(start, end)| - 1 ==>
      LinePixels(start, end)[i] == LinePixels(start, end)[i + 1] || Neighbours(LinePixels(start, end)[i], LinePixels(start, end)[i + 1])
  {
    var s := Segment(start, end);
    TraceLength(s);
    var t := Trace(s, Begin(s));
    TraceShape(s, Begin(s));
    TraceEmptyIffAtEnd(s, Begin(s));
    var ps := LinePixels(start, end);
    assert ps == [start] + t;
    assert Between(start.x, start.x, end.x) && Between(start.y, start.y, end.y);
    forall i | 0 <= i < |ps| - 1
      ensures ps[i] == ps[i + 1] || Neighbours(ps[i], ps[i + 1])
    {
      if i > 0 {
        assert ps[i] == t[i - 1] && ps[i + 1] == t[i];
      } else {
        assert ps[1] == t[0] == start;
      }
    }
    if start == end {
      assert ps[0] == end;
    }
  }
}

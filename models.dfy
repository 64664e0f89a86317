/**
 * The geometry of a model (model.rs): its points and edges in model space,
 * its placement in world space, the world-space bounding box and the cube
 * primitive.
 */
module Models {
  import opened Geometry

  /**
   * A mesh: isolated vertices, edges as pairs of model-space points, and
   * the world-space position of the model-space origin.
   */
  datatype Model = Model(points: seq<Point>, edges: seq<(Point, Point)>, position: Point)

  /** A model-space point placed in world space; subtracting the position gives it back. */
  function ModelToWorld(m: Model, p: Point): (w: Point)
    ensures Sub(w, m.position) == p
  {
    Add(p, m.position)
  }

  /** The points `ps` placed in world space, in order. */
  function PlacedPoints(m: Model, ps: seq<Point>): (ws: seq<Point>)
    ensures |ws| == |ps|
    ensures forall i :: 0 <= i < |ps| ==> ws[i] == ModelToWorld(m, ps[i])
  {
    if ps == [] then [] else PlacedPoints(m, ps[..|ps| - 1]) + [ModelToWorld(m, ps[|ps| - 1])]
  }

  /** The start and the end of each edge of `es` placed in world space, in order. */
  function PlacedEnds(m: Model, es: seq<(Point, Point)>): (ws: seq<Point>)
    ensures |ws| == 2 * |es|
    ensures forall i :: 0 <= i < |es| ==> ws[2 * i] == ModelToWorld(m, es[i].0) && ws[2 * i + 1] == ModelToWorld(m, es[i].1)
  {
    if es == [] then []
    else
      var e := es[|es| - 1];
      PlacedEnds(m, es[..|es| - 1]) + [ModelToWorld(m, e.0), ModelToWorld(m, e.1)]
  }

  /**
   * Every world-space point `world_bounds` looks at, in the order it looks:
   * the points, then the start and the end of each edge.
   */
  function Visited(m: Model): seq<Point> {
    PlacedPoints(m, m.points) + PlacedEnds(m, m.edges)
  }

  predicate Encloses(lo: Point, hi: Point, p: Point) {
    lo.x <= p.x <= hi.x && lo.y <= p.y <= hi.y && lo.z <= p.z <= hi.z
  }

  /** The box [lo, hi] holds every point of `ps`. */
  predicate Bounds(lo: Point, hi: Point, ps: seq<Point>) {
    forall i :: 0 <= i < |ps| ==> Encloses(lo, hi, ps[i])
  }

  /** Each face of the box [lo, hi] touches a point of `ps`: no smaller box holds them all. */
  predicate Tight(lo: Point, hi: Point, ps: seq<Point>) {
    && (exists i :: 0 <= i < |ps| && ps[i].x == lo.x)
    && (exists i :: 0 <= i < |ps| && ps[i].y == lo.y)
    && (exists i :: 0 <= i < |ps| && ps[i].z == lo.z)
    && (exists i :: 0 <= i < |ps| && ps[i].x == hi.x)
    && (exists i :: 0 <= i < |ps| && ps[i].y == hi.y)
    && (exists i :: 0 <= i < |ps| && ps[i].z == hi.z)
  }

  /** The six comparisons `world_bounds` makes for one point. */
  method Include(lo: Point, hi: Point, p: Point) returns (lo': Point, hi': Point)
    ensures Encloses(lo', hi', p)
    ensures lo'.x <= lo.x && lo'.y <= lo.y && lo'.z <= lo.z
    ensures hi'.x >= hi.x && hi'.y >= hi.y && hi'.z >= hi.z
    ensures (lo'.x == lo.x || lo'.x == p.x) && (lo'.y == lo.y || lo'.y == p.y) && (lo'.z == lo.z || lo'.z == p.z)
    ensures (hi'.x == hi.x || hi'.x == p.x) && (hi'.y == hi.y || hi'.y == p.y) && (hi'.z == hi.z || hi'.z == p.z)
  {
    lo', hi' := lo, hi;
    if p.x < lo'.x { lo' := lo'.(x := p.x); }
    if p.y < lo'.y { lo' := lo'.(y := p.y); }
    if p.z < lo'.z { lo' := lo'.(z := p.z); }
    if p.x > hi'.x { hi' := hi'.(x := p.x); }
    if p.y > hi'.y { hi' := hi'.(y := p.y); }
    if p.z > hi'.z { hi' := hi'.(z := p.z); }
  }

  /** `Include` keeps the box a tight bound of the points seen so far. */
  lemma IncludeKeepsTight(lo: Point, hi: Point, lo': Point, hi': Point, ps: seq<Point>, p: Point)
    requires Bounds(lo, hi, ps) && Tight(lo, hi, ps) && Encloses(lo', hi', p)
    requires lo'.x <= lo.x && lo'.y <= lo.y && lo'.z <= lo.z
    requires hi'.x >= hi.x && hi'.y >= hi.y && hi'.z >= hi.z
    requires (lo'.x == lo.x || lo'.x == p.x) && (lo'.y == lo.y || lo'.y == p.y) && (lo'.z == lo.z || lo'.z == p.z)
    requires (hi'.x == hi.x || hi'.x == p.x) && (hi'.y == hi.y || hi'.y == p.y) && (hi'.z == hi.z || hi'.z == p.z)
    ensures Bounds(lo', hi', ps + [p]) && Tight(lo', hi', ps + [p])
  {
    var qs := ps + [p];
    assert qs[|ps|] == p;
    forall i | 0 <= i < |ps| ensures qs[i] == ps[i] { }
  }

  /** A tight box around `seed` and `ps` is a tight box around `ps` when `seed` is one of them. */
  lemma DropSeed(lo: Point, hi: Point, seed: Point, ps: seq<Point>)
    requires seed in ps
    requires Bounds(lo, hi, [seed] + ps) && Tight(lo, hi, [seed] + ps)
    ensures Bounds(lo, hi, ps) && Tight(lo, hi, ps)
  {
    var qs := [seed] + ps;
    var s :| 0 <= s < |ps| && ps[s] == seed;
    forall i | 0 <= i < |ps| ensures Encloses(lo, hi, ps[i]) {
      assert qs[i + 1] == ps[i];
    }
    // Each face touches some qs[i]; qs[0] is ps[s] and qs[i] is ps[i - 1] otherwise.
    assert forall i :: 0 <= i < |qs| ==> qs[i] == (if i == 0 then ps[s] else ps[i - 1]);
  }

  /** The first loop of `world_bounds`: widen the box over every point of the model. */
  method SweepPoints(m: Model, lo0: Point, hi0: Point, ghost before: seq<Point>) returns (lo: Point, hi: Point)
    requires Bounds(lo0, hi0, before) && Tight(lo0, hi0, before)
    ensures Bounds(lo, hi, before + PlacedPoints(m, m.points)) && Tight(lo, hi, before + PlacedPoints(m, m.points))
  {
    lo, hi := lo0, hi0;
    ghost var seen := before;
    assert before + PlacedPoints(m, m.points[..0]) == before;
    for i := 0 to |m.points|
      invariant seen == before + PlacedPoints(m, m.points[..i])
      invariant Bounds(lo, hi, seen) && Tight(lo, hi, seen)
    {
      var p := ModelToWorld(m, m.points[i]);
      assert m.points[..i + 1][..i] == m.points[..i];
      var lo', hi' := Include(lo, hi, p);
      IncludeKeepsTight(lo, hi, lo', hi', seen, p);
      lo, hi := lo', hi';
      seen := seen + [p];
    }
    assert m.points[..|m.points|] == m.points;
  }

  /** The second loop of `world_bounds`: widen the box over the start and the end of every edge. */
  method SweepEnds(m: Model, lo0: Point, hi0: Point, ghost before: seq<Point>) returns (lo: Point, hi: Point)
    requires Bounds(lo0, hi0, before) && Tight(lo0, hi0, before)
    ensures Bounds(lo, hi, before + PlacedEnds(m, m.edges)) && Tight(lo, hi, before + PlacedEnds(m, m.edges))
  {
    lo, hi := lo0, hi0;
    ghost var seen := before;
    assert before + PlacedEnds(m, m.edges[..0]) == before;
    for j := 0 to |m.edges|
      invariant seen == before + PlacedEnds(m, m.edges[..j])
      invariant Bounds(lo, hi, seen) && Tight(lo, hi, seen)
    {
      var start := ModelToWorld(m, m.edges[j].0);
      var end := ModelToWorld(m, m.edges[j].1);
      assert m.edges[..j + 1][..j] == m.edges[..j];
      ghost var ends := PlacedEnds(m, m.edges[..j]);
      assert PlacedEnds(m, m.edges[..j + 1]) == ends + [start, end];
      assert before + ends + [start] + [end] == before + (ends + [start, end]);
      var lo', hi' := Include(lo, hi, start);
      IncludeKeepsTight(lo, hi, lo', hi', seen, start);
      lo, hi := lo', hi';
      seen := seen + [start];
      lo', hi' := Include(lo, hi, end);
      IncludeKeepsTight(lo, hi, lo', hi', seen, end);
      lo, hi := lo', hi';
      seen := seen + [end];
    }
    assert m.edges[..|m.edges|] == m.edges;
  }

  /**
   * The two loops of `world_bounds`, started from the box holding only
   * `seed`, one of the points they visit.
   */
  method Sweep(m: Model, seed: Point) returns (lo: Point, hi: Point)
    requires seed in Visited(m)
    ensures Bounds(lo, hi, Visited(m)) && Tight(lo, hi, Visited(m))
  {
    OnePointBox(seed);
    lo, hi := SweepPoints(m, seed, seed, [seed]);
    ghost var afterPoints := [seed] + PlacedPoints(m, m.points);
    lo, hi := SweepEnds(m, lo, hi, afterPoints);
    assert afterPoints + PlacedEnds(m, m.edges) == [seed] + Visited(m);
    DropSeed(lo, hi, seed, Visited(m));
  }

  /** The box of a single point is that point, and it is tight. */
  lemma OnePointBox(p: Point)
    ensures Bounds(p, p, [p]) && Tight(p, p, [p])
  {
    assert [p][0] == p;
  }

  /**
   * `world_bounds` as written: the degenerate box at the origin when the
   * model has neither points nor edges; otherwise the sweep starts from the
   * first point, so a model with edges but no points is outside what the
   * source can handle (it indexes `points[0]` of an empty list).
   */
  method WorldBounds(m: Model) returns (lo: Point, hi: Point)
    requires |m.points| > 0 || |m.edges| == 0
    ensures |m.points| == 0 ==> lo == Origin && hi == Origin
    ensures |m.points| > 0 ==> Bounds(lo, hi, Visited(m)) && Tight(lo, hi, Visited(m))
  {
    if |m.points| == 0 && |m.edges| == 0 {
      return Origin, Origin;
    }
    var seed := ModelToWorld(m, m.points[0]);
    assert seed == Visited(m)[0];
    lo, hi := Sweep(m, seed);
  }

  /**
   * `world_bounds` with the sweep started from the first point it visits, a
   * point or the start of the first edge: the tight box of every model that
   * has anything in it, the cube included.
   */
  method SeededBounds(m: Model) returns (lo: Point, hi: Point)
    ensures |Visited(m)| == 0 <==> |m.points| == 0 && |m.edges| == 0
    ensures |Visited(m)| == 0 ==> lo == Origin && hi == Origin
    ensures |Visited(m)| > 0 ==> Bounds(lo, hi, Visited(m)) && Tight(lo, hi, Visited(m))
  {
    if |m.points| == 0 && |m.edges| == 0 {
      return Origin, Origin;
    }
    var seed := if |m.points| > 0 then ModelToWorld(m, m.points[0]) else ModelToWorld(m, m.edges[0].0);
    assert seed == Visited(m)[0];
    lo, hi := Sweep(m, seed);
  }

  /** `new_cube`: the twelve edges of a cube of the given side centred on the model origin. */
  function NewCube(side: real, position: Point): (m: Model)
    ensures m.points == [] && |m.edges| == 12 && m.position == position
  {
    var h := side / 2.0;
    var f0, f1, f2, f3 := Point(-h, -h, h), Point(-h, h, h), Point(h, h, h), Point(h, -h, h);
    var r0, r1, r2, r3 := Point(-h, -h, -h), Point(-h, h, -h), Point(h, h, -h), Point(h, -h, -h);
    Model([],
      [ (f0, f1), (f1, f2), (f2, f3), (f3, f0),
        (r0, r1), (r1, r2), (r2, r3), (r3, r0),
        (r0, f0), (r1, f1), (r2, f2), (r3, f3) ],
      position)
  }

  /** The two ends of an edge differ along exactly one axis, by `side`. */
  predicate AxisEdge(e: (Point, Point), side: real) {
    var d := Sub(e.1, e.0);
    || (d.x * d.x == side * side && d.y == 0.0 && d.z == 0.0)
    || (d.x == 0.0 && d.y * d.y == side * side && d.z == 0.0)
    || (d.x == 0.0 && d.y == 0.0 && d.z * d.z == side * side)
  }

  /** Every edge of the cube runs along one axis with the given length. */
  lemma CubeEdgesAxial(side: real, position: Point)
    ensures forall k :: 0 <= k < 12 ==> AxisEdge(NewCube(side, position).edges[k], side)
  {
  }

  /** Every corner of the cube is at side/2 from the model origin along each axis. */
  lemma CubeCorners(side: real, position: Point)
    ensures forall k :: 0 <= k < 12 ==>
      var e := NewCube(side, position).edges[k];
      && e.0.x * 2.0 in {side, -side} && e.0.y * 2.0 in {side, -side} && e.0.z * 2.0 in {side, -side}
      && e.1.x * 2.0 in {side, -side} && e.1.y * 2.0 in {side, -side} && e.1.z * 2.0 in {side, -side}
  {
  }

  /**
   * The cube has edges but no points, so it does not meet what
   * `world_bounds` needs: it would index `points[0]` of an empty list.
   */
  lemma CubeHasNoBounds(side: real, position: Point)
    ensures !(|NewCube(side, position).points| > 0 || |NewCube(side, position).edges| == 0)
  {
  }
}

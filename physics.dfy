/**
 * The precise collision tests and the per-entity rules of the physics step
 * (src/physics_system.cpp): segment/segment, polygon/segment,
 * polygon/point and polygon/polygon tests on integer vertices, the square
 * of a grid cell, the base dwell timer and the walking path of an enemy.
 *
 * The C++ code divides in single-precision floats; here the quotients are
 * exact reals, so every test is the exact version of the float test.
 */
module Physics {
  import opened Wrappers
  import opened Common
  import opened Components

  // ---------------------------------------------------------------- segments

  /** The denominator of lineLine: zero exactly when the segments are parallel or collinear. */
  function Denom(a: Point, b: Point, c: Point, d: Point): int
  {
    (d.y - c.y) * (b.x - a.x) - (d.x - c.x) * (b.y - a.y)
  }

  /** The numerator of uA, the position of the crossing along a-b. */
  function NumA(a: Point, b: Point, c: Point, d: Point): int
  {
    (d.x - c.x) * (a.y - c.y) - (d.y - c.y) * (a.x - c.x)
  }

  /** The numerator of uB, the position of the crossing along c-d. */
  function NumB(a: Point, b: Point, c: Point, d: Point): int
  {
    (b.x - a.x) * (a.y - c.y) - (b.y - a.y) * (a.x - c.x)
  }

  /** lineLine: segment a-b meets segment c-d when both crossing parameters lie in [0, 1]. */
  function LineLine(a: Point, b: Point, c: Point, d: Point): (r: bool)
    ensures Denom(a, b, c, d) == 0 ==> !r
  {
    var denom := Denom(a, b, c, d);
    if denom == 0 then false
    else
      var uA := NumA(a, b, c, d) as real / denom as real;
      var uB := NumB(a, b, c, d) as real / denom as real;
      0.0 <= uA <= 1.0 && 0.0 <= uB <= 1.0
  }

  /** n / d lies in [0, 1], said without division. */
  predicate Between(n: int, d: int)
  {
    if d > 0 then 0 <= n <= d else d <= n <= 0
  }

  /** Scaling by a positive factor keeps the sign. */
  lemma ScaleSign(x: real, y: real)
    requires y > 0.0
    ensures x < 0.0 ==> x * y < 0.0
    ensures x >= 0.0 ==> x * y >= 0.0
  {
  }

  lemma QuotientInUnit(n: int, d: int)
    requires d != 0
    ensures (0.0 <= n as real / d as real <= 1.0) <==> Between(n, d)
  {
    var q := n as real / d as real;
    var dr := d as real;
    assert q * dr == n as real;
    if d > 0 {
      ScaleSign(q, dr);
      ScaleSign(q - 1.0, dr);
      assert (q - 1.0) * dr == n as real - dr;
    } else {
      ScaleSign(q, -dr);
      ScaleSign(q - 1.0, -dr);
      assert q * -dr == -(n as real);
      assert (q - 1.0) * -dr == dr - n as real;
    }
  }

  /** On integer vertices the float test is an exact integer test. */
  lemma LineLineExact(a: Point, b: Point, c: Point, d: Point)
    ensures LineLine(a, b, c, d) <==>
              Denom(a, b, c, d) != 0 && Between(NumA(a, b, c, d), Denom(a, b, c, d)) &&
              Between(NumB(a, b, c, d), Denom(a, b, c, d))
  {
    if Denom(a, b, c, d) != 0 {
      QuotientInUnit(NumA(a, b, c, d), Denom(a, b, c, d));
      QuotientInUnit(NumB(a, b, c, d), Denom(a, b, c, d));
    }
  }

  /** Swapping the two segments negates the denominator and swaps the numerators up to sign. */
  lemma SwapTerms(a: Point, b: Point, c: Point, d: Point)
    ensures Denom(c, d, a, b) == -Denom(a, b, c, d)
    ensures NumA(c, d, a, b) == -NumB(a, b, c, d)
    ensures NumB(c, d, a, b) == -NumA(a, b, c, d)
  {
  }

  /** Whether two segments meet does not depend on which is tested against which. */
  lemma LineLineSymmetric(a: Point, b: Point, c: Point, d: Point)
    ensures LineLine(a, b, c, d) == LineLine(c, d, a, b)
  {
    LineLineExact(a, b, c, d);
    LineLineExact(c, d, a, b);
    SwapTerms(a, b, c, d);
  }

  // ---------------------------------------------------------------- polygons

  /** The index after i around a polygon of n vertices: the last vertex is followed by the first. */
  function Next(n: nat, i: nat): (j: nat)
    requires i < n
    ensures j < n
    ensures j == (i + 1) % n
  {
    if i + 1 == n then
      assert (i + 1) % n == 0 by { assert i + 1 == 1 * n; }
      0
    else
      assert (i + 1) % n == i + 1;
      i + 1
  }

  /** Segment a-b meets edge i of the polygon. */
  predicate EdgeHits(vs: seq<Point>, i: nat, a: Point, b: Point)
    requires i < |vs|
  {
    LineLine(a, b, vs[i], vs[Next(|vs|, i)])
  }

  /** The meaning of polyLine: some edge of the polygon, the closing edge included, meets a-b. */
  predicate PolyLineHits(vs: seq<Point>, a: Point, b: Point)
  {
    exists i :: 0 <= i < |vs| && EdgeHits(vs, i, a, b)
  }

  /** polyLine: the edges in order, stopping at the first that meets the segment. */
  method PolyLine(vs: seq<Point>, a: Point, b: Point) returns (hit: bool)
    ensures hit == PolyLineHits(vs, a, b)
  {
    var current := 0;
    while current < |vs|
      invariant 0 <= current <= |vs|
      invariant forall i :: 0 <= i < current ==> !EdgeHits(vs, i, a, b)
    {
      var next := current + 1;
      if next == |vs| {
        next := 0;
      }
      if LineLine(a, b, vs[current], vs[next]) {
        assert EdgeHits(vs, current, a, b);
        return true;
      }
      current := current + 1;
    }
    return false;
  }

  /** A polygon with fewer than two vertices has only degenerate edges, so nothing meets it. */
  lemma PolyLineDegenerate(vs: seq<Point>, a: Point, b: Point)
    requires |vs| <= 1
    ensures !PolyLineHits(vs, a, b)
  {
    if |vs| == 1 {
      assert Denom(a, b, vs[0], vs[0]) == 0;
    }
  }

  /** The last edge tested joins the last vertex back to the first. */
  lemma ClosingEdgeTested(vs: seq<Point>, a: Point, b: Point)
    requires |vs| >= 1 && LineLine(a, b, vs[|vs| - 1], vs[0])
    ensures PolyLineHits(vs, a, b)
  {
    assert EdgeHits(vs, |vs| - 1, a, b);
  }

  /** The meaning of polyPoly: some edge of p1 meets p2. */
  predicate PolyPolyHits(p1: seq<Point>, p2: seq<Point>)
  {
    exists i :: 0 <= i < |p1| && PolyLineHits(p2, p1[i], p1[Next(|p1|, i)])
  }

  /** polyPoly: each edge of p1 tested against p2, stopping at the first hit. */
  method PolyPoly(p1: seq<Point>, p2: seq<Point>) returns (collision: bool)
    ensures collision == PolyPolyHits(p1, p2)
  {
    var current := 0;
    while current < |p1|
      invariant 0 <= current <= |p1|
      invariant forall i :: 0 <= i < current ==> !PolyLineHits(p2, p1[i], p1[Next(|p1|, i)])
    {
      var next := current + 1;
      if next == |p1| {
        next := 0;
      }
      assert next == Next(|p1|, current);
      var hit := PolyLine(p2, p1[current], p1[next]);
      if hit {
        return true;
      }
      current := current + 1;
    }
    return false;
  }

  /** Two polygons collide under polyPoly in either order or in neither. */
  lemma PolyPolySymmetric(p1: seq<Point>, p2: seq<Point>)
    ensures PolyPolyHits(p1, p2) == PolyPolyHits(p2, p1)
  {
    if PolyPolyHits(p1, p2) {
      PolyPolyFlip(p1, p2);
    }
    if PolyPolyHits(p2, p1) {
      PolyPolyFlip(p2, p1);
    }
  }

  lemma PolyPolyFlip(p1: seq<Point>, p2: seq<Point>)
    requires PolyPolyHits(p1, p2)
    ensures PolyPolyHits(p2, p1)
  {
    var i :| 0 <= i < |p1| && PolyLineHits(p2, p1[i], p1[Next(|p1|, i)]);
    var j :| 0 <= j < |p2| && EdgeHits(p2, j, p1[i], p1[Next(|p1|, i)]);
    LineLineSymmetric(p1[i], p1[Next(|p1|, i)], p2[j], p2[Next(|p2|, j)]);
    assert EdgeHits(p1, i, p2[j], p2[Next(|p2|, j)]);
    assert PolyLineHits(p1, p2[j], p2[Next(|p2|, j)]);
  }

  /** A polygon with no vertices collides with nothing. */
  lemma PolyPolyEmpty(p: seq<Point>)
    ensures !PolyPolyHits([], p) && !PolyPolyHits(p, [])
  {
  }

  // ---------------------------------------------------------------- point in polygon

  /**
   * Edge i toggles the ray cast from (px, py): its ends lie strictly on
   * opposite sides of py and the point lies left of the crossing.
   */
  predicate Crosses(vs: seq<Point>, i: nat, px: real, py: real)
    requires i < |vs|
  {
    var vc, vn := vs[i], vs[Next(|vs|, i)];
    ((vc.y as real > py && (vn.y as real) < py) || ((vc.y as real) < py && vn.y as real > py)) &&
    px < (vn.x - vc.x) as real * (py - vc.y as real) / (vn.y - vc.y) as real + vc.x as real
  }

  /** The parity of the toggling edges among the first k: true when an odd number of them toggle. */
  predicate Toggled(vs: seq<Point>, px: real, py: real, k: nat)
    requires k <= |vs|
  {
    if k == 0 then false else Toggled(vs, px, py, k - 1) != Crosses(vs, k - 1, px, py)
  }

  /** The meaning of polyPoint: an odd number of edges toggle the ray. */
  predicate Inside(vs: seq<Point>, px: real, py: real)
  {
    Toggled(vs, px, py, |vs|)
  }

  /** polyPoint: the collision flag flipped once per toggling edge. */
  method PolyPoint(vs: seq<Point>, px: real, py: real) returns (collision: bool)
    ensures collision == Inside(vs, px, py)
  {
    collision := false;
    var current := 0;
    while current < |vs|
      invariant 0 <= current <= |vs|
      invariant collision == Toggled(vs, px, py, current)
    {
      if Crosses(vs, current, px, py) {
        collision := !collision;
      }
      current := current + 1;
    }
  }

  /** A horizontal edge never toggles, whatever the point. */
  lemma HorizontalEdgeNeverToggles(vs: seq<Point>, i: nat, px: real, py: real)
    requires i < |vs| && vs[i].y == vs[Next(|vs|, i)].y
    ensures !Crosses(vs, i, px, py)
  {
  }

  /** No edge toggles for a point level with or above every vertex, so such a point is outside. */
  lemma {:induction false} AboveAllOutside(vs: seq<Point>, px: real, py: real, k: nat)
    requires k <= |vs|
    requires forall i :: 0 <= i < |vs| ==> vs[i].y as real <= py
    ensures !Toggled(vs, px, py, k)
  {
    if k > 0 {
      AboveAllOutside(vs, px, py, k - 1);
      assert !Crosses(vs, k - 1, px, py);
    }
  }

  /** The same below every vertex. */
  lemma {:induction false} BelowAllOutside(vs: seq<Point>, px: real, py: real, k: nat)
    requires k <= |vs|
    requires forall i :: 0 <= i < |vs| ==> vs[i].y as real >= py
    ensures !Toggled(vs, px, py, k)
  {
    if k > 0 {
      BelowAllOutside(vs, px, py, k - 1);
      assert !Crosses(vs, k - 1, px, py);
    }
  }

  /** polyPolyInside's meaning: every vertex of p2 is inside p1. */
  predicate AllInside(p1: seq<Point>, p2: seq<Point>)
  {
    forall k :: 0 <= k < |p2| ==> Inside(p1, p2[k].x as real, p2[k].y as real)
  }

  /** polyPolyInside: every vertex of p2 tested against p1, with no early exit. */
  method PolyPolyInside(p1: seq<Point>, p2: seq<Point>) returns (collision: bool)
    ensures collision == AllInside(p1, p2)
  {
    collision := true;
    var k := 0;
    while k < |p2|
      invariant 0 <= k <= |p2|
      invariant collision == forall i :: 0 <= i < k ==> Inside(p1, p2[i].x as real, p2[i].y as real)
    {
      var inside := PolyPoint(p1, p2[k].x as real, p2[k].y as real);
      if !inside {
        collision := false;
      }
      k := k + 1;
    }
  }

  /** A polygon with no vertices is vacuously inside any other. */
  lemma EmptyIsInside(p1: seq<Point>)
    ensures AllInside(p1, [])
  {
  }

  /** No vertex is inside a polygon with no vertices, so nothing non-empty is inside one. */
  lemma NothingInsideEmpty(p2: seq<Point>)
    requires |p2| > 0
    ensures !AllInside([], p2)
  {
    assert !Inside([], p2[0].x as real, p2[0].y as real);
  }

  // ---------------------------------------------------------------- grid cells

  /** get_poly_from_node_pos: the corners of the cell, clockwise from the top left. */
  function NodePolygon(node: Point): (r: seq<Point>)
    ensures |r| == 4
    ensures r[0] == Point(GRID_CELL_WIDTH_PX * node.x, GRID_CELL_HEIGHT_PX * node.y)
    ensures r[2] == Point(GRID_CELL_WIDTH_PX * (node.x + 1), GRID_CELL_HEIGHT_PX * (node.y + 1))
    ensures r[1] == Point(r[2].x, r[0].y) && r[3] == Point(r[0].x, r[2].y)
  {
    var posX := node.x * GRID_CELL_WIDTH_PX + GRID_CELL_WIDTH_PX / 2;
    var posY := node.y * GRID_CELL_HEIGHT_PX + GRID_CELL_HEIGHT_PX / 2;
    var halfWidth := GRID_CELL_WIDTH_PX / 2;
    var halfHeight := GRID_CELL_HEIGHT_PX / 2;
    [Point(posX - halfWidth, posY - halfHeight), Point(posX + halfWidth, posY - halfHeight),
     Point(posX + halfWidth, posY + halfHeight), Point(posX - halfWidth, posY + halfHeight)]
  }

  /** The point TileToVector2 gives for a cell is inside that cell's square under polyPoint. */
  lemma TileCentreInsideNode(x: int, y: int)
    ensures Inside(NodePolygon(Point(x, y)), TileToVector2(x, y).0 as real, TileToVector2(x, y).1 as real)
  {
    var vs := NodePolygon(Point(x, y));
    var px, py := TileToVector2(x, y).0 as real, TileToVector2(x, y).1 as real;
    assert !Crosses(vs, 0, px, py);
    assert Crosses(vs, 1, px, py);
    assert !Crosses(vs, 2, px, py);
    assert !Crosses(vs, 3, px, py);
    assert !Toggled(vs, px, py, 1);
    assert Toggled(vs, px, py, 2);
    assert Toggled(vs, px, py, 3);
  }

  // ---------------------------------------------------------------- base dwell

  /**
   * One frame of the base test: a colliding frame marks the ship as in the
   * base, and once it is, adds the frame time to the drop-off timer; a frame
   * without collision while in the base resets both.
   */
  function Dwell(b: Base, colliding: bool, elapsedMs: real): (r: Base)
    ensures r.polygon == b.polygon && r.bunnyCount == b.bunnyCount && r.locked == b.locked
    ensures colliding ==> r.shipInBase
    ensures !colliding ==> !r.shipInBase
  {
    if colliding then
      if !b.shipInBase then b.(shipInBase := true) else b.(dropOffTimer := b.dropOffTimer + elapsedMs)
    else if b.shipInBase then b.(shipInBase := false, dropOffTimer := 0.0)
    else b
  }

  /** A run of frames, each colliding or not, with its elapsed time. */
  function DwellRun(b: Base, frames: seq<(bool, real)>): Base
    decreases |frames|
  {
    if frames == [] then b else DwellRun(Dwell(b, frames[0].0, frames[0].1), frames[1..])
  }

  /** Collision in every frame of es. */
  function Colliding(es: seq<real>): seq<(bool, real)>
    ensures |Colliding(es)| == |es|
  {
    seq(|es|, i requires 0 <= i < |es| => (true, es[i]))
  }

  /**
   * A ship that has been in the base since its first colliding frame has a
   * timer grown by the time of every later frame: the first frame only
   * marks arrival.
   */
  lemma {:induction false} DwellAccumulates(b: Base, es: seq<real>)
    requires b.shipInBase
    ensures DwellRun(b, Colliding(es)).shipInBase
    ensures DwellRun(b, Colliding(es)).dropOffTimer == b.dropOffTimer + Sum(es)
    decreases |es|
  {
    if es != [] {
      assert Colliding(es)[1..] == Colliding(es[1..]);
      DwellAccumulates(Dwell(b, true, es[0]), es[1..]);
    }
  }

  /** Arriving at the base with a cleared timer: after the frames es the timer holds all but the first frame's time. */
  lemma DwellFromArrival(b: Base, es: seq<real>)
    requires !b.shipInBase && b.dropOffTimer == 0.0 && es != []
    ensures DwellRun(b, Colliding(es)).dropOffTimer == Sum(es[1..])
  {
    assert Colliding(es)[1..] == Colliding(es[1..]);
    DwellAccumulates(Dwell(b, true, es[0]), es[1..]);
  }

  /** Leaving the base clears both the flag and the timer. */
  lemma LeavingResets(b: Base, elapsedMs: real)
    requires b.shipInBase
    ensures !Dwell(b, false, elapsedMs).shipInBase && Dwell(b, false, elapsedMs).dropOffTimer == 0.0
  {
  }

  // ---------------------------------------------------------------- walking path

  /** The centre of a path cell in pixels, as the step computes it. */
  function PathTarget(p: Point): Vec2
  {
    Vec2((p.x * GRID_CELL_WIDTH_PX + GRID_CELL_WIDTH_PX / 2) as real,
         (p.y * GRID_CELL_HEIGHT_PX + GRID_CELL_HEIGHT_PX / 2) as real)
  }

  function Abs(x: real): real
  {
    if x < 0.0 then -x else x
  }

  /** Within 0.3 pixels of the target on both axes. */
  predicate Arrived(pos: Vec2, target: Vec2)
  {
    Abs(pos.x - target.x) < 0.3 && Abs(pos.y - target.y) < 0.3
  }

  /**
   * The path part of the step for a walking enemy: an empty path removes
   * the walkingPaths component (None); arriving at the first cell removes it
   * from the path; otherwise the path is kept and the enemy steers toward it.
   */
  function WalkPath(path: seq<Point>, pos: Vec2): (r: Option<seq<Point>>)
    ensures r.None? <==> path == []
    ensures r.Some? ==> r.value == path || r.value == path[1..]
  {
    if |path| > 0 then
      if Arrived(pos, PathTarget(path[0])) then Some(path[1..]) else Some(path)
    else None
  }

  /** The path is used up in order: the cell dropped is always the one walked to. */
  lemma WalkPathDropsArrivedHead(path: seq<Point>, pos: Vec2)
    requires path != []
    ensures WalkPath(path, pos) == Some(path[1..]) <==> Arrived(pos, PathTarget(path[0]))
  {
    assert |path[1..]| < |path|;
  }

  /** Arriving at each cell of a path in turn consumes it exactly, then the component goes. */
  function WalkAlong(path: seq<Point>, positions: seq<Vec2>): Option<seq<Point>>
  {
    if positions == [] then Some(path)
    else
      match WalkPath(path, positions[0])
      case None => None
      case Some(rest) => WalkAlong(rest, positions[1..])
  }

  lemma {:induction false} WalkingTheCellsEmptiesThePath(path: seq<Point>)
    ensures WalkAlong(path, seq(|path|, i requires 0 <= i < |path| => PathTarget(path[i]))) == Some([])
    ensures WalkAlong(path, seq(|path| + 1, i requires 0 <= i < |path| + 1 =>
                                 if i < |path| then PathTarget(path[i]) else Vec2(0.0, 0.0))) == None
  {
    var ps := seq(|path|, i requires 0 <= i < |path| => PathTarget(path[i]));
    var qs := seq(|path| + 1, i requires 0 <= i < |path| + 1 =>
                    if i < |path| then PathTarget(path[i]) else Vec2(0.0, 0.0));
    if path != [] {
      assert Arrived(ps[0], PathTarget(path[0]));
      assert WalkPath(path, ps[0]) == Some(path[1..]);
      assert WalkPath(path, qs[0]) == Some(path[1..]);
      WalkingTheCellsEmptiesThePath(path[1..]);
      assert ps[1..] == seq(|path[1..]|, i requires 0 <= i < |path[1..]| => PathTarget(path[1..][i]));
      assert qs[1..] == seq(|path[1..]| + 1, i requires 0 <= i < |path[1..]| + 1 =>
                              if i < |path[1..]| then PathTarget(path[1..][i]) else Vec2(0.0, 0.0));
    } else {
      assert WalkPath(path, qs[0]) == None;
    }
  }

  /** The part of an enemy the walking step updates besides its motion. */
  datatype ModEffect = ModEffect(isModAffected: bool, modEffectDuration: real, speed: real)

  /**
   * While walking (off its path cell), an enemy slowed by a module counts
   * the effect down; when it runs out the enemy gets its type's speed back.
   */
  function ModEffectStep(e: ModEffect, elapsedMs: real, typeSpeed: real): (r: ModEffect)
    ensures !e.isModAffected ==> r == e
    ensures r.isModAffected ==> e.isModAffected && r.modEffectDuration > 0.0 && r.speed == e.speed
    ensures e.isModAffected && !r.isModAffected ==> r.speed == typeSpeed && r.modEffectDuration <= 0.0
    ensures e.isModAffected ==> r.modEffectDuration == e.modEffectDuration - elapsedMs
  {
    if e.isModAffected then
      var d := e.modEffectDuration - elapsedMs;
      if d <= 0.0 then ModEffect(false, d, typeSpeed) else e.(modEffectDuration := d)
    else e
  }

  /** Repeated steps: a slowed enemy recovers exactly after its effect time has elapsed. */
  function ModEffectRun(e: ModEffect, es: seq<real>, typeSpeed: real): ModEffect
    decreases |es|
  {
    if es == [] then e else ModEffectRun(ModEffectStep(e, es[0], typeSpeed), es[1..], typeSpeed)
  }

  /** An enemy no longer slowed stays unslowed. */
  lemma {:induction false} UnaffectedStays(e: ModEffect, es: seq<real>, typeSpeed: real)
    requires !e.isModAffected
    ensures ModEffectRun(e, es, typeSpeed) == e
  {
    if es != [] {
      UnaffectedStays(ModEffectStep(e, es[0], typeSpeed), es[1..], typeSpeed);
    }
  }

  /**
   * With non-negative frame times, a slowed enemy with effect time left is
   * still slowed after the frames es exactly when that time exceeds their
   * total.
   */
  lemma {:induction false} ModEffectWearsOff(e: ModEffect, es: seq<real>, typeSpeed: real)
    requires e.isModAffected && e.modEffectDuration > 0.0
    requires forall i :: 0 <= i < |es| ==> es[i] >= 0.0
    ensures ModEffectRun(e, es, typeSpeed).isModAffected <==> e.modEffectDuration - Sum(es) > 0.0
    decreases |es|
  {
    if es != [] {
      var e' := ModEffectStep(e, es[0], typeSpeed);
      assert Sum(es) == es[0] + Sum(es[1..]);
      assert forall i :: 0 <= i < |es[1..]| ==> es[1..][i] == es[i + 1];
      SumNonNegative(es[1..]);
      assert ModEffectRun(e, es, typeSpeed) == ModEffectRun(e', es[1..], typeSpeed);
      assert e'.modEffectDuration == e.modEffectDuration - es[0];
      if e'.isModAffected {
        ModEffectWearsOff(e', es[1..], typeSpeed);
      } else {
        UnaffectedStays(e', es[1..], typeSpeed);
        assert e.modEffectDuration - Sum(es) <= 0.0;
      }
    }
  }
}

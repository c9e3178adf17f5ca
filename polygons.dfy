/**
 * Polygonal curves: a polyline and a poly-loop become a polygon wire through
 * the kernel's polygon maker, after the proximity-closure test and the removal
 * of near-duplicate points.
 */
module Polygons {
  import opened Options
  import opened Geometry

  /** The straight edges joining consecutive points, in order. */
  function PolygonEdges(pts: seq<Point>): (r: seq<Edge>)
    ensures |r| == if |pts| < 2 then 0 else |pts| - 1
    ensures forall i :: 0 <= i < |r| ==> r[i].start == pts[i] && r[i].end == pts[i + 1] && r[i].kind == Line
  {
    if |pts| < 2 then []
    else PolygonEdges(pts[..|pts| - 1]) + [Edge(pts[|pts| - 2], pts[|pts| - 1], Line)]
  }

  /**
   * The polygon maker's edges: consecutive points joined by straight edges, and
   * a closing edge back to the first point when closing was asked for.
   */
  function Polygon(pts: seq<Point>, close: bool): (r: seq<Edge>)
    ensures |r| == if |pts| < 2 then 0 else if close then |pts| else |pts| - 1
    ensures forall i :: 0 <= i < |pts| - 1 ==> r[i] == Edge(pts[i], pts[i + 1], Line)
    ensures forall i :: 0 <= i < |r| ==> r[i].kind == Line
    ensures forall i :: 0 <= i < |r| - 1 ==> r[i].end == r[i + 1].start
    ensures |r| > 0 ==> r[0].start == pts[0]
    ensures |r| > 0 ==> r[|r| - 1].end == if close then pts[0] else pts[|pts| - 1]
  {
    var open := PolygonEdges(pts);
    var closing := if close && |pts| >= 2 then [Edge(pts[|pts| - 1], pts[0], Line)] else [];
    var edges := open + closing;
    assert forall i :: 0 <= i < |open| ==> edges[i] == open[i];
    assert closing != [] ==> edges[|open|] == closing[0];
    edges
  }

  /** `BRepBuilderAPI_MakePolygon`: add the points one after the other, then close if asked. */
  method BuildPolygon(pts: seq<Point>, close: bool) returns (edges: seq<Edge>)
    ensures edges == Polygon(pts, close)
  {
    edges := [];
    var i := 0;
    while i < |pts|
      invariant 0 <= i <= |pts|
      invariant edges == PolygonEdges(pts[..i])
    {
      assert pts[..i + 1][..i] == pts[..i];
      if i > 0 {
        edges := edges + [Edge(pts[i - 1], pts[i], Line)];
      }
      i := i + 1;
    }
    assert pts[..|pts|] == pts;
    if close && |pts| >= 2 {
      edges := edges + [Edge(pts[|pts| - 1], pts[0], Line)];
    }
  }

  /**
   * The duplicate-point cleaner the conversions call with the points, whether
   * the loop is closed, and the distance below which points count as duplicates.
   */
  type Dedup = (seq<Point>, bool, real) -> seq<Point>

  // ---------------------------------------------------------------------------
  // Polyline
  // ---------------------------------------------------------------------------

  /** A polyline whose last point lies within ten times the precision of its first is closed. */
  predicate ClosedByProximity(pts: seq<Point>, precision: real)
  {
    |pts| >= 2 && CloserThan(pts[0], pts[|pts| - 1], 10.0 * precision)
  }

  /** The points kept before cleaning: the last one goes when the polyline closes by proximity. */
  function PolylinePoints(pts: seq<Point>, precision: real): seq<Point>
  {
    if ClosedByProximity(pts, precision) then pts[..|pts| - 1] else pts
  }

  datatype PolylineOutcome =
    | PolylineBuilt(wire: Wire, closed: bool)
    | PolylineRaised    // the polygon maker has no edge to make a wire of

  /** The reference definition that `ConvertPolyline` below is proved equal to. */
  function PolylineConversion(pts: seq<Point>, precision: real, dedup: Dedup): PolylineOutcome
  {
    var cbp := ClosedByProximity(pts, precision);
    var edges := Polygon(dedup(PolylinePoints(pts, precision), cbp, 10.0 * precision), cbp);
    if |edges| == 0 then PolylineRaised else PolylineBuilt(edges, cbp)
  }

  method ConvertPolyline(pts: seq<Point>, precision: real, dedup: Dedup) returns (r: PolylineOutcome)
    ensures r == PolylineConversion(pts, precision, dedup)
  {
    var eps := precision * 10.0;
    var closedByProximity := |pts| >= 2 && CloserThan(pts[0], pts[|pts| - 1], eps);
    var polygon := pts;
    if closedByProximity {
      polygon := polygon[..|polygon| - 1];
    }
    polygon := dedup(polygon, closedByProximity, eps);
    var edges := BuildPolygon(polygon, closedByProximity);
    if |edges| == 0 {
      return PolylineRaised;
    }
    r := PolylineBuilt(edges, closedByProximity);
  }

  /** Exactly the last point is dropped when, and only when, the polyline closes by proximity. */
  lemma PolylineDropsLastPoint(pts: seq<Point>, precision: real)
    ensures var kept := PolylinePoints(pts, precision);
      if ClosedByProximity(pts, precision) then |kept| == |pts| - 1 && pts == kept + [pts[|pts| - 1]]
      else kept == pts
  {
    if ClosedByProximity(pts, precision) {
      assert pts == pts[..|pts| - 1] + [pts[|pts| - 1]];
    }
  }

  /**
   * A built polyline is closed exactly when it closes by proximity: then its
   * last edge ends where its first starts; otherwise it has one edge fewer
   * than cleaned points and no closing edge.
   */
  lemma PolylineClosure(pts: seq<Point>, precision: real, dedup: Dedup)
    ensures var r := PolylineConversion(pts, precision, dedup);
      var cbp := ClosedByProximity(pts, precision);
      var cleaned := dedup(PolylinePoints(pts, precision), cbp, 10.0 * precision);
      (r.PolylineRaised? <==> |cleaned| < 2) &&
      (r.PolylineBuilt? ==>
        r.closed == cbp &&
        Start(r.wire) == cleaned[0] &&
        (cbp ==> |r.wire| == |cleaned| && End(r.wire) == Start(r.wire)) &&
        (!cbp ==> |r.wire| == |cleaned| - 1 && End(r.wire) == cleaned[|cleaned| - 1]))
  {
  }

  // ---------------------------------------------------------------------------
  // PolyLoop
  // ---------------------------------------------------------------------------

  /** Self-intersection analysis of a loop: the cycles found, or `None` when there are none. */
  type Intersections = Wire -> Option<seq<Wire>>

  /** The largest of the cycles found, or the wire itself. */
  type SelectLargest = (seq<Wire>, Wire) -> Wire

  datatype PolyLoopOutcome =
    | TooFewPoints(count: nat)              // fewer than three points given
    | TooFewAfterCleaning(removed: int)     // fewer than three points left after cleaning
    | LoopBuilt(wire: Wire, removed: int, cycles: Option<seq<Wire>>)

  /** The reference definition that `ConvertPolyLoop` below is proved equal to. */
  function PolyLoopConversion(pts: seq<Point>, precision: real, dedup: Dedup,
                              intersections: Intersections, selectLargest: SelectLargest): PolyLoopOutcome
  {
    if |pts| < 3 then TooFewPoints(|pts|)
    else
      var cleaned := dedup(pts, true, 10.0 * precision);
      var removed := |pts| - |cleaned|;
      if |cleaned| < 3 then TooFewAfterCleaning(removed)
      else
        var loop: Wire := Polygon(cleaned, true);
        var cycles := intersections(loop);
        LoopBuilt(if cycles.Some? then selectLargest(cycles.value, loop) else loop, removed, cycles)
  }

  method ConvertPolyLoop(pts: seq<Point>, precision: real, dedup: Dedup,
                         intersections: Intersections, selectLargest: SelectLargest)
    returns (r: PolyLoopOutcome)
    ensures r == PolyLoopConversion(pts, precision, dedup, intersections, selectLargest)
  {
    var originalCount := |pts|;
    if originalCount < 3 {
      return TooFewPoints(originalCount);
    }
    var eps := precision * 10.0;
    var polygon := dedup(pts, true, eps);
    var count := |polygon|;
    var removed := originalCount - count;
    if count < 3 {
      return TooFewAfterCleaning(removed);
    }
    var edges := BuildPolygon(polygon, true);
    var wire: Wire := edges;
    var cycles := intersections(wire);
    if cycles.Some? {
      wire := selectLargest(cycles.value, wire);
    }
    r := LoopBuilt(wire, removed, cycles);
  }

  /**
   * A poly-loop is built exactly when it has at least three points both before
   * and after cleaning; the reported removal is the number of points cleaned
   * away; without self-intersections the loop has one edge per point and is
   * closed.
   */
  lemma PolyLoopShape(pts: seq<Point>, precision: real, dedup: Dedup,
                      intersections: Intersections, selectLargest: SelectLargest)
    ensures var r := PolyLoopConversion(pts, precision, dedup, intersections, selectLargest);
      var cleaned := dedup(pts, true, 10.0 * precision);
      (r.LoopBuilt? <==> |pts| >= 3 && |cleaned| >= 3) &&
      (r.TooFewPoints? <==> |pts| < 3) &&
      (!r.TooFewPoints? ==> r.removed == |pts| - |cleaned|) &&
      (r.LoopBuilt? && r.cycles.None? ==>
        |r.wire| == |cleaned| && Start(r.wire) == cleaned[0] && End(r.wire) == Start(r.wire))
  {
  }
}

/**
 * Conversion of an edge curve: an edge given by its two vertices and the curve
 * it runs along. An unbounded curve gives one edge between the vertices; a
 * bounded curve is converted to a wire whose first edge is made to start at
 * the start vertex and whose last edge is made to end at the end vertex.
 */
module EdgeCurves {
  import opened Options
  import opened Geometry

  /** The geometry of a vertex: a cartesian point (converted, or not), or another point type. */
  datatype VertexGeometry = CartesianVertex(converted: Option<Point>) | OtherVertex

  /** The curve of the edge and what converting it gave. */
  datatype EdgeGeometry =
    | UnboundedCurve(curve: Option<EdgeKind>)    // the kind of the converted curve
    | BoundedCurve(wire: Option<Wire>)           // the wire the bounded curve converted to

  datatype EdgeCurveOutcome =
    | NonCartesianVertex     // logged: only cartesian points are supported
    | VertexNotConverted
    | CurveNotConverted
    | EdgeCurveNotDone       // the curve-edge maker is not done, and taking its edge raises
    | EdgeCurveBuilt(wire: Wire)

  /**
   * Whether the curve-edge maker is done for an edge: the edge's curve (which
   * the edge's kind stands for) with vertices at the edge's `start` and `end`.
   * The maker is not done when a vertex does not lie on the curve within
   * tolerance, or when coincident vertices are put on a line.
   */
  type EdgeMaker = Edge -> bool

  /** Both rebuilt outer edges of the walk are made. */
  predicate OuterEdgesMade(r: Wire, makeEdge: EdgeMaker)
  {
    makeEdge(r[0]) && makeEdge(r[|r| - 1])
  }

  /** The wire with its first edge starting at `p1` and its last edge ending at `p2`. */
  function Substituted(w: Wire, p1: Point, p2: Point): (r: Wire)
    ensures |r| == |w|
    ensures Start(r) == p1 && End(r) == p2
    ensures forall i :: 0 <= i < |w| ==>
      r[i].kind == w[i].kind &&
      r[i].start == (if i == 0 then p1 else w[i].start) &&
      r[i].end == (if i == |w| - 1 then p2 else w[i].end)
  {
    var headed := w[0 := w[0].(start := p1)];
    headed[|w| - 1 := headed[|w| - 1].(end := p2)]
  }

  /**
   * Makes each edge again, replacing the outer vertices: the edge loop of the
   * conversion. An outer edge the maker cannot make ends the loop.
   */
  method SubstituteEndpoints(w: Wire, p1: Point, p2: Point, makeEdge: EdgeMaker) returns (out: Option<Wire>)
    ensures out == if OuterEdgesMade(Substituted(w, p1, p2), makeEdge) then Some(Substituted(w, p1, p2)) else None
  {
    ghost var target := Substituted(w, p1, p2);
    var edges: seq<Edge> := [];
    var first := true;
    var i := 0;
    while i < |w|
      invariant 0 <= i <= |w|
      invariant first <==> i == 0
      invariant |edges| == i
      invariant forall k :: 0 <= k < i ==> edges[k] == target[k]
      invariant forall k :: 0 <= k < i && (k == 0 || k == |w| - 1) ==> makeEdge(target[k])
    {
      var ed := w[i];
      var last := i + 1 == |w|;
      var a, b;
      if first && last {
        a, b := p1, p2;
      } else if first {
        a, b := p1, ed.end;
      } else if last {
        a, b := ed.start, p2;
      } else {
        edges := edges + [ed];
        first := false;
        i := i + 1;
        continue;
      }
      var e := Edge(a, b, ed.kind);
      assert e == target[i];
      if !makeEdge(e) {
        return None;
      }
      edges := edges + [e];
      first := false;
      i := i + 1;
    }
    assert edges == target;
    out := Some(edges);
  }

  /**
   * Reference definition of the conversion; `ConvertEdgeCurve` below is the
   * step-by-step form proved equal to it.
   *
   * The edges of a bounded curve's wire are read through their curves'
   * parameter ranges: each edge's `start` is its curve's point at the lower
   * parameter and its `end` the point at the upper one. Reversing the wire
   * when the edge runs against the curve's sense flips only the wire's
   * orientation; the walk over its edges keeps their stored order and reads
   * their curve ranges, so `sameSense` does not change the result.
   */
  function EdgeCurveConversion(start: VertexGeometry, end: VertexGeometry, geometry: EdgeGeometry,
                               sameSense: bool, makeEdge: EdgeMaker): EdgeCurveOutcome
  {
    if start.OtherVertex? || end.OtherVertex? then NonCartesianVertex
    else if start.converted.None? || end.converted.None? then VertexNotConverted
    else
      var p1, p2 := start.converted.value, end.converted.value;
      match geometry
      case UnboundedCurve(curve) =>
        if curve.None? then CurveNotConverted
        else if makeEdge(Edge(p1, p2, curve.value)) then EdgeCurveBuilt([Edge(p1, p2, curve.value)])
        else EdgeCurveNotDone
      case BoundedCurve(wire) =>
        if wire.None? then CurveNotConverted
        else if OuterEdgesMade(Substituted(wire.value, p1, p2), makeEdge) then
          EdgeCurveBuilt(Substituted(wire.value, p1, p2))
        else EdgeCurveNotDone
  }

  method ConvertEdgeCurve(start: VertexGeometry, end: VertexGeometry, geometry: EdgeGeometry, sameSense: bool,
                          makeEdge: EdgeMaker)
    returns (r: EdgeCurveOutcome)
    ensures r == EdgeCurveConversion(start, end, geometry, sameSense, makeEdge)
  {
    if start.OtherVertex? || end.OtherVertex? {
      return NonCartesianVertex;
    }
    if start.converted.None? || end.converted.None? {
      return VertexNotConverted;
    }
    var p1, p2 := start.converted.value, end.converted.value;
    match geometry {
      case UnboundedCurve(curve) =>
        if curve.None? {
          return CurveNotConverted;
        }
        var e := Edge(p1, p2, curve.value);
        if !makeEdge(e) {
          return EdgeCurveNotDone;
        }
        r := EdgeCurveBuilt([e]);
      case BoundedCurve(wire) =>
        if wire.None? {
          return CurveNotConverted;
        }
        // A reversal for `!sameSense` would flip the wire's orientation only,
        // which the edge walk does not read.
        var result := SubstituteEndpoints(wire.value, p1, p2, makeEdge);
        if result.None? {
          return EdgeCurveNotDone;
        }
        r := EdgeCurveBuilt(result.value);
    }
  }

  /**
   * A built edge curve runs from its start vertex to its end vertex; on a
   * bounded curve it keeps the curve wire's edges in their stored order,
   * the first one ending and the last one starting where they did, and
   * changes only the two outer vertices.
   */
  lemma EdgeCurveEndpoints(start: VertexGeometry, end: VertexGeometry, geometry: EdgeGeometry, sameSense: bool,
                           makeEdge: EdgeMaker)
    ensures var r := EdgeCurveConversion(start, end, geometry, sameSense, makeEdge);
      r.EdgeCurveBuilt? ==>
        start.CartesianVertex? && end.CartesianVertex? &&
        start.converted.Some? && end.converted.Some? &&
        Start(r.wire) == start.converted.value && End(r.wire) == end.converted.value &&
        makeEdge(r.wire[0]) && makeEdge(r.wire[|r.wire| - 1]) &&
        (geometry.UnboundedCurve? ==> |r.wire| == 1 && r.wire[0].kind == geometry.curve.value) &&
        (geometry.BoundedCurve? ==>
          var w := geometry.wire.value;
          |r.wire| == |w| &&
          (forall i :: 0 <= i < |w| ==> r.wire[i].kind == w[i].kind) &&
          (forall i :: 0 < i < |w| - 1 ==> r.wire[i] == w[i]) &&
          (|w| > 1 ==> r.wire[0].end == w[0].end && r.wire[|w| - 1].start == w[|w| - 1].start))
  {
  }

  /**
   * With both vertices and the curve converted, the conversion raises exactly
   * when the maker cannot make the single edge, or one of the two rebuilt
   * outer edges of a bounded curve.
   */
  lemma MakerFailureRaises(p1: Point, p2: Point, geometry: EdgeGeometry, sameSense: bool, makeEdge: EdgeMaker)
    requires geometry.UnboundedCurve? ==> geometry.curve.Some?
    requires geometry.BoundedCurve? ==> geometry.wire.Some?
    ensures var r := EdgeCurveConversion(CartesianVertex(Some(p1)), CartesianVertex(Some(p2)), geometry,
                                         sameSense, makeEdge);
      (r == EdgeCurveNotDone <==>
        match geometry
        case UnboundedCurve(curve) => !makeEdge(Edge(p1, p2, curve.value))
        case BoundedCurve(wire) =>
          var w := wire.value;
          !makeEdge(Edge(p1, if |w| == 1 then p2 else w[0].end, w[0].kind)) ||
          !makeEdge(Edge(if |w| == 1 then p1 else w[|w| - 1].start, p2, w[|w| - 1].kind))) &&
      (r != EdgeCurveNotDone ==> r.EdgeCurveBuilt?)
  {
    if geometry.BoundedCurve? {
      var w := geometry.wire.value;
      var r := Substituted(w, p1, p2);
      assert r[0] == Edge(p1, if |w| == 1 then p2 else w[0].end, w[0].kind);
      assert r[|w| - 1] == Edge(if |w| == 1 then p1 else w[|w| - 1].start, p2, w[|w| - 1].kind);
    }
  }

  /**
   * The sense of the edge relative to its curve does not change the result:
   * the converted wire is walked in its stored order either way.
   */
  lemma SenseIgnoredByWalk(start: VertexGeometry, end: VertexGeometry, geometry: EdgeGeometry, makeEdge: EdgeMaker)
    ensures EdgeCurveConversion(start, end, geometry, false, makeEdge) ==
      EdgeCurveConversion(start, end, geometry, true, makeEdge)
  {
  }

  /**
   * A three-edge curve wire taken against the edge's sense: the stored order
   * is kept, the middle edge is made again along its own curve, and only the
   * outer vertices are replaced.
   */
  lemma OppositeSenseKeepsStoredOrder(p1: Point, p2: Point, a: Point, b: Point, c: Point, d: Point,
                                      makeEdge: EdgeMaker)
    ensures var r := EdgeCurveConversion(CartesianVertex(Some(p1)), CartesianVertex(Some(p2)),
                                         BoundedCurve(Some([Edge(a, b, Line), Edge(b, c, Other), Edge(c, d, Line)])),
                                         false, makeEdge);
      r == if makeEdge(Edge(p1, b, Line)) && makeEdge(Edge(c, p2, Line))
           then EdgeCurveBuilt([Edge(p1, b, Line), Edge(b, c, Other), Edge(c, p2, Line)])
           else EdgeCurveNotDone
  {
    var w: Wire := [Edge(a, b, Line), Edge(b, c, Other), Edge(c, d, Line)];
    var r := Substituted(w, p1, p2);
    assert r[0] == Edge(p1, b, Line) && r[1] == Edge(b, c, Other) && r[2] == Edge(c, p2, Line);
    assert r == [Edge(p1, b, Line), Edge(b, c, Other), Edge(c, p2, Line)];
  }
}

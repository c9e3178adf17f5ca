/**
 * Conversion of an indexed poly-curve: a coordinate list resolved to points,
 * and segments that refer to those points by 1-based index. A line index joins
 * its points in order; an arc index of three points becomes one circular edge
 * from its first to its third point. Without segments the points are joined in
 * order.
 */
module IndexedCurves {
  import opened Options
  import opened Geometry
  import Polygons

  /** One segment of the curve, as the 1-based indices it lists. */
  datatype IndexSegment =
    | LineIndex(indices: seq<int>)
    | ArcIndex(indices: seq<int>)
    | UnknownSegment    // a segment of any other type

  /** The exceptions the conversion throws. */
  datatype IndexError =
    | IndexOutOfBounds(index: int)
    | InvalidArc
    | UnexpectedSegment
    | EdgeNotDone        // a straight edge between coincident points was added

  datatype EdgesResult = Edges(edges: seq<Edge>) | Failed(error: IndexError)

  datatype IndexedOutcome =
    | IndexedBuilt(wire: Wire)
    | IndexedFailed(error: IndexError)
    | IndexedNotDone    // no edge was added, so the wire maker has nothing to return

  // ---------------------------------------------------------------------------
  // Points
  // ---------------------------------------------------------------------------

  /** Coordinate `k` in resolved length units; a missing coordinate is zero. */
  function Coordinate(coords: seq<real>, k: nat, lengthUnit: real): real
  {
    if |coords| <= k then 0.0 else coords[k] * lengthUnit
  }

  function PointOf(coords: seq<real>, lengthUnit: real): Point
  {
    Point(Coordinate(coords, 0, lengthUnit), Coordinate(coords, 1, lengthUnit), Coordinate(coords, 2, lengthUnit))
  }

  /** A two-coordinate entry lies in the plane `z = 0`; an empty entry is the origin. */
  lemma PaddingIsZero(coords: seq<real>, lengthUnit: real)
    ensures |coords| <= 2 ==> PointOf(coords, lengthUnit).z == 0.0
    ensures coords == [] ==> PointOf(coords, lengthUnit) == Origin
  {
  }

  function Points(coordinates: seq<seq<real>>, lengthUnit: real): (r: seq<Point>)
  {
    seq(|coordinates|, i requires 0 <= i < |coordinates| => PointOf(coordinates[i], lengthUnit))
  }

  method ResolvePoints(coordinates: seq<seq<real>>, lengthUnit: real) returns (points: seq<Point>)
    ensures |points| == |coordinates|
    ensures forall i :: 0 <= i < |points| ==> points[i] == PointOf(coordinates[i], lengthUnit)
  {
    points := [];
    var i := 0;
    while i < |coordinates|
      invariant 0 <= i <= |coordinates|
      invariant |points| == i
      invariant forall k :: 0 <= k < i ==> points[k] == PointOf(coordinates[k], lengthUnit)
    {
      points := points + [PointOf(coordinates[i], lengthUnit)];
      i := i + 1;
    }
  }

  // ---------------------------------------------------------------------------
  // Segments
  // ---------------------------------------------------------------------------

  predicate InRange(idx: int, maxIndex: int)
  {
    1 <= idx <= maxIndex
  }

  /** The point an index refers to; an index out of range refers to none, here the origin. */
  function IndexedPoint(points: seq<Point>, idx: int): Point
  {
    if InRange(idx, |points|) then points[idx - 1] else Origin
  }

  /** Every index of a line is in range, and no two consecutive indices name coincident points. */
  predicate LineValid(points: seq<Point>, indices: seq<int>)
  {
    (forall k :: 0 <= k < |indices| ==> InRange(indices[k], |points|)) &&
    (forall k :: 0 < k < |indices| ==> !Coincident(IndexedPoint(points, indices[k - 1]), IndexedPoint(points, indices[k])))
  }

  /**
   * The edges of a line index, index by index: each index is checked, and
   * then the edge from the previous point is made, so the first index outside
   * `[1, |points|]` or the first edge between coincident points is the error.
   */
  function LineEdges(points: seq<Point>, indices: seq<int>): EdgesResult
  {
    if indices == [] then Edges([])
    else
      var n := |indices|;
      var idx := indices[n - 1];
      match LineEdges(points, indices[..n - 1])
      case Failed(e) => Failed(e)
      case Edges(es) =>
        if !InRange(idx, |points|) then Failed(IndexOutOfBounds(idx))
        else if n == 1 then Edges(es)
        else
          var previous, current := IndexedPoint(points, indices[n - 2]), IndexedPoint(points, idx);
          if Coincident(previous, current) then Failed(EdgeNotDone)
          else Edges(es + [Edge(previous, current, Line)])
  }

  /** A line index converts exactly when it is valid. */
  lemma {:induction false} LineEdgesValid(points: seq<Point>, indices: seq<int>)
    ensures LineEdges(points, indices).Edges? <==> LineValid(points, indices)
  {
    if indices != [] {
      var init := indices[..|indices| - 1];
      LineEdgesValid(points, init);
      assert forall k :: 0 <= k < |init| ==> init[k] == indices[k];
    }
  }

  /** A converted k-entry line index gives k - 1 straight edges joining the indexed points in order. */
  lemma {:induction false} LineEdgesShape(points: seq<Point>, indices: seq<int>)
    ensures var r := LineEdges(points, indices);
      r.Edges? ==>
        |r.edges| == (if indices == [] then 0 else |indices| - 1) &&
        forall k :: 0 <= k < |r.edges| ==>
          r.edges[k].start == IndexedPoint(points, indices[k]) &&
          r.edges[k].end == IndexedPoint(points, indices[k + 1]) &&
          r.edges[k].kind == Line
  {
    var r := LineEdges(points, indices);
    if indices != [] && r.Edges? {
      var n := |indices|;
      var init := indices[..n - 1];
      LineEdgesShape(points, init);
      assert forall k :: 0 <= k < |init| ==> init[k] == indices[k];
      var es := LineEdges(points, init).edges;
      if n > 1 {
        assert r.edges == es + [Edge(IndexedPoint(points, indices[n - 2]), IndexedPoint(points, indices[n - 1]), Line)];
      }
    }
  }

  /**
   * A line index converts exactly when it is valid. A k-entry line then gives
   * k - 1 straight edges joining the indexed points in order.
   */
  lemma LineEdgesSpec(points: seq<Point>, indices: seq<int>)
    ensures var r := LineEdges(points, indices);
      (r.Edges? <==> LineValid(points, indices)) &&
      (r.Edges? ==> |r.edges| == if indices == [] then 0 else |indices| - 1) &&
      (r.Edges? ==> forall k :: 0 <= k < |r.edges| ==>
        r.edges[k].start == points[indices[k] - 1] && r.edges[k].end == points[indices[k + 1] - 1] &&
        r.edges[k].kind == Line)
  {
    LineEdgesValid(points, indices);
    LineEdgesShape(points, indices);
  }

  /** The first index outside `[1, maxIndex]`, if any. */
  function FirstOutOfRange(indices: seq<int>, maxIndex: int): Option<int>
  {
    if indices == [] then None
    else if !InRange(indices[0], maxIndex) then Some(indices[0])
    else FirstOutOfRange(indices[1..], maxIndex)
  }

  lemma {:induction false} FirstOutOfRangeNone(indices: seq<int>, maxIndex: int)
    ensures FirstOutOfRange(indices, maxIndex).None? <==> forall k :: 0 <= k < |indices| ==> InRange(indices[k], maxIndex)
  {
    if indices != [] {
      FirstOutOfRangeNone(indices[1..], maxIndex);
      assert forall k :: 1 <= k < |indices| ==> indices[1..][k - 1] == indices[k];
    }
  }

  lemma {:induction false} FirstOutOfRangeAt(indices: seq<int>, maxIndex: int, i: nat)
    requires i < |indices|
    requires forall k :: 0 <= k < i ==> InRange(indices[k], maxIndex)
    requires !InRange(indices[i], maxIndex)
    ensures FirstOutOfRange(indices, maxIndex) == Some(indices[i])
  {
    if i > 0 {
      FirstOutOfRangeAt(indices[1..], maxIndex, i - 1);
    }
  }

  /** The edges of one segment. */
  function SegmentEdges(points: seq<Point>, segment: IndexSegment): EdgesResult
  {
    match segment
    case LineIndex(indices) => LineEdges(points, indices)
    case ArcIndex(indices) =>
      if |indices| != 3 then Failed(InvalidArc)
      else
        (match FirstOutOfRange(indices, |points|)
         case Some(idx) => Failed(IndexOutOfBounds(idx))
         case None =>
           FirstOutOfRangeNone(indices, |points|);
           Edges([Edge(points[indices[0] - 1], points[indices[2] - 1], Other)]))
    case UnknownSegment => Failed(UnexpectedSegment)
  }

  /** The edges of all segments in order; the first failing segment decides the error. */
  function CurveEdges(points: seq<Point>, segments: seq<IndexSegment>): EdgesResult
  {
    if segments == [] then Edges([])
    else
      match CurveEdges(points, segments[..|segments| - 1])
      case Failed(e) => Failed(e)
      case Edges(es) =>
        match SegmentEdges(points, segments[|segments| - 1])
        case Failed(e) => Failed(e)
        case Edges(more) => Edges(es + more)
  }

  /** Two consecutive points coincide, so the edge between them cannot be made. */
  predicate ChainCoincident(points: seq<Point>)
  {
    exists k :: 0 < k < |points| && Coincident(points[k - 1], points[k])
  }

  /**
   * The whole conversion: `segments` is `None` when the curve has no segments.
   * This is the reference definition; `ConvertIndexedPolyCurve` below is the
   * step-by-step form proved equal to it.
   */
  function IndexedConversion(coordinates: seq<seq<real>>, lengthUnit: real,
                             segments: Option<seq<IndexSegment>>): IndexedOutcome
  {
    var points := Points(coordinates, lengthUnit);
    var edges :=
      if segments.Some? then CurveEdges(points, segments.value)
      else if ChainCoincident(points) then Failed(EdgeNotDone)
      else Edges(Polygons.PolygonEdges(points));
    match edges
    case Failed(e) => IndexedFailed(e)
    case Edges(es) => if es == [] then IndexedNotDone else IndexedBuilt(es)
  }

  // ---------------------------------------------------------------------------
  // Properties
  // ---------------------------------------------------------------------------

  /** Whether a segment converts without an exception. */
  predicate SegmentValid(points: seq<Point>, segment: IndexSegment)
  {
    match segment
    case LineIndex(indices) => LineValid(points, indices)
    case ArcIndex(indices) => |indices| == 3 && forall k :: 0 <= k < 3 ==> InRange(indices[k], |points|)
    case UnknownSegment => false
  }

  /** The edges a valid segment adds: one fewer than the line's indices, one for an arc. */
  function EdgeCount(segment: IndexSegment): nat
  {
    match segment
    case LineIndex(indices) => if indices == [] then 0 else |indices| - 1
    case ArcIndex(_) => 1
    case UnknownSegment => 0
  }

  function TotalEdgeCount(segments: seq<IndexSegment>): nat
  {
    if segments == [] then 0 else TotalEdgeCount(segments[..|segments| - 1]) + EdgeCount(segments[|segments| - 1])
  }

  lemma SegmentEdgesSpec(points: seq<Point>, segment: IndexSegment)
    ensures var r := SegmentEdges(points, segment);
      (r.Edges? <==> SegmentValid(points, segment)) &&
      (r.Edges? ==> |r.edges| == EdgeCount(segment))
  {
    if segment.LineIndex? {
      LineEdgesSpec(points, segment.indices);
    } else if segment.ArcIndex? && |segment.indices| == 3 {
      FirstOutOfRangeNone(segment.indices, |points|);
    }
  }

  /**
   * The curve converts exactly when every segment is valid, and then it has
   * as many edges as its segments add up to.
   */
  lemma {:induction false} CurveEdgesSpec(points: seq<Point>, segments: seq<IndexSegment>)
    ensures var r := CurveEdges(points, segments);
      (r.Edges? <==> forall i :: 0 <= i < |segments| ==> SegmentValid(points, segments[i])) &&
      (r.Edges? ==> |r.edges| == TotalEdgeCount(segments))
  {
    if segments != [] {
      var init := segments[..|segments| - 1];
      CurveEdgesSpec(points, init);
      SegmentEdgesSpec(points, segments[|segments| - 1]);
      assert forall i :: 0 <= i < |init| ==> init[i] == segments[i];
    }
  }

  /**
   * Without segments, n points give n - 1 straight edges; two consecutive
   * coincident points make the conversion raise.
   */
  lemma NoSegmentsEdgeCount(coordinates: seq<seq<real>>, lengthUnit: real)
    ensures var r := IndexedConversion(coordinates, lengthUnit, None);
      (r.IndexedNotDone? <==> |coordinates| < 2) &&
      (r.IndexedFailed? <==>
        exists k :: 0 < k < |coordinates| &&
          Coincident(PointOf(coordinates[k - 1], lengthUnit), PointOf(coordinates[k], lengthUnit))) &&
      (r.IndexedFailed? ==> r.error == EdgeNotDone) &&
      (r.IndexedBuilt? ==>
        |r.wire| == |coordinates| - 1 &&
        (forall k :: 0 <= k < |r.wire| ==>
          r.wire[k].start == PointOf(coordinates[k], lengthUnit) &&
          r.wire[k].end == PointOf(coordinates[k + 1], lengthUnit) &&
          r.wire[k].kind == Line))
  {
    var points := Points(coordinates, lengthUnit);
    if exists k :: 0 < k < |coordinates| &&
        Coincident(PointOf(coordinates[k - 1], lengthUnit), PointOf(coordinates[k], lengthUnit)) {
      var k :| 0 < k < |coordinates| &&
        Coincident(PointOf(coordinates[k - 1], lengthUnit), PointOf(coordinates[k], lengthUnit));
      assert Coincident(points[k - 1], points[k]);
    }
  }

  /** A line index that repeats a point makes a straight edge between coincident points, which raises. */
  lemma RepeatedIndexRaises(lengthUnit: real)
    ensures IndexedConversion([[0.0, 0.0], [1.0, 0.0]], lengthUnit, Some([LineIndex([1, 1, 2])])) ==
      IndexedFailed(EdgeNotDone)
  {
    var points := Points([[0.0, 0.0], [1.0, 0.0]], lengthUnit);
    assert |points| == 2;
    var indices := [1, 1, 2];
    assert indices[..2][..1] == [1] && [1][..0] == [];
    assert LineEdges(points, [1]) == Edges([]);
    assert indices[..2] == [1, 1];
    assert LineEdges(points, [1, 1]) == Failed(EdgeNotDone);
    assert LineEdges(points, indices) == Failed(EdgeNotDone);
    var segments := [LineIndex(indices)];
    assert segments[..0] == [];
    assert CurveEdges(points, segments) == Failed(EdgeNotDone);
  }

  /** An error met in a prefix of the indices is the error of the whole line index. */
  lemma {:induction false} LineErrorPersists(points: seq<Point>, indices: seq<int>, j: nat)
    requires j <= |indices|
    requires LineEdges(points, indices[..j]).Failed?
    ensures LineEdges(points, indices) == LineEdges(points, indices[..j])
  {
    if j < |indices| {
      assert indices[..|indices| - 1][..j] == indices[..j];
      LineErrorPersists(points, indices[..|indices| - 1], j);
    } else {
      assert indices[..j] == indices;
    }
  }

  /** An error met in a prefix of the segments is the error of the whole curve. */
  lemma {:induction false} CurveErrorPersists(points: seq<Point>, segments: seq<IndexSegment>, j: nat)
    requires j <= |segments|
    requires CurveEdges(points, segments[..j]).Failed?
    ensures CurveEdges(points, segments) == CurveEdges(points, segments[..j])
  {
    if j < |segments| {
      assert segments[..|segments| - 1][..j] == segments[..j];
      CurveErrorPersists(points, segments[..|segments| - 1], j);
    } else {
      assert segments[..j] == segments;
    }
  }

  // ---------------------------------------------------------------------------
  // The conversion
  // ---------------------------------------------------------------------------

  /** `edges` followed by the edges of a segment, or the segment's error. */
  function Appended(edges: seq<Edge>, r: EdgesResult): EdgesResult
  {
    match r
    case Failed(e) => Failed(e)
    case Edges(more) => Edges(edges + more)
  }

  /** One more index of a line: its check, then the edge from the previous point. */
  lemma LineEdgesStep(points: seq<Point>, indices: seq<int>, j: nat)
    requires j < |indices|
    requires LineEdges(points, indices[..j]).Edges?
    ensures var es, idx := LineEdges(points, indices[..j]).edges, indices[j];
      LineEdges(points, indices[..j + 1]) ==
        if !InRange(idx, |points|) then Failed(IndexOutOfBounds(idx))
        else if j == 0 then Edges(es)
        else if Coincident(IndexedPoint(points, indices[j - 1]), points[idx - 1]) then Failed(EdgeNotDone)
        else Edges(es + [Edge(IndexedPoint(points, indices[j - 1]), points[idx - 1], Line)])
  {
    var prefix := indices[..j + 1];
    assert prefix[..j] == indices[..j];
    assert j > 0 ==> prefix[j - 1] == indices[j - 1];
  }

  /** Adds the edges of a line index to `edges`, checking each index as it is used. */
  method AddLineEdges(points: seq<Point>, indices: seq<int>, edges: seq<Edge>) returns (r: EdgesResult)
    ensures r == Appended(edges, LineEdges(points, indices))
  {
    var added := edges;
    var previous := Origin;
    var j := 0;
    while j < |indices|
      invariant 0 <= j <= |indices|
      invariant LineEdges(points, indices[..j]).Edges?
      invariant added == edges + LineEdges(points, indices[..j]).edges
      invariant j > 0 ==> previous == IndexedPoint(points, indices[j - 1])
    {
      LineEdgesStep(points, indices, j);
      var idx := indices[j];
      if idx < 1 || idx > |points| {
        LineErrorPersists(points, indices, j + 1);
        return Failed(IndexOutOfBounds(idx));
      }
      var current := points[idx - 1];
      if j > 0 {
        if Coincident(previous, current) {
          LineErrorPersists(points, indices, j + 1);
          return Failed(EdgeNotDone);
        }
        added := added + [Edge(previous, current, Line)];
      }
      previous := current;
      j := j + 1;
    }
    assert indices[..|indices|] == indices;
    r := Edges(added);
  }

  /** Adds the edges of one segment to `edges`, checking each index as it is used. */
  method AddSegmentEdges(points: seq<Point>, segment: IndexSegment, edges: seq<Edge>) returns (r: EdgesResult)
    ensures r == Appended(edges, SegmentEdges(points, segment))
  {
    var maxIndex := |points|;
    match segment {
      case LineIndex(indices) =>
        r := AddLineEdges(points, indices, edges);
      case ArcIndex(indices) =>
        if |indices| != 3 {
          return Failed(InvalidArc);
        }
        var k := 0;
        while k < 3
          invariant 0 <= k <= 3
          invariant forall m :: 0 <= m < k ==> InRange(indices[m], maxIndex)
        {
          var idx := indices[k];
          if idx < 1 || idx > maxIndex {
            FirstOutOfRangeAt(indices, maxIndex, k);
            return Failed(IndexOutOfBounds(idx));
          }
          k := k + 1;
        }
        FirstOutOfRangeNone(indices, maxIndex);
        var a := points[indices[0] - 1];
        var c := points[indices[2] - 1];
        r := Edges(edges + [Edge(a, c, Other)]);
      case UnknownSegment =>
        r := Failed(UnexpectedSegment);
    }
  }

  method ConvertIndexedPolyCurve(coordinates: seq<seq<real>>, lengthUnit: real,
                                 segments: Option<seq<IndexSegment>>)
    returns (r: IndexedOutcome)
    ensures r == IndexedConversion(coordinates, lengthUnit, segments)
  {
    var points := ResolvePoints(coordinates, lengthUnit);
    assert points == Points(coordinates, lengthUnit);
    var edges: seq<Edge> := [];

    if segments.None? {
      var i := 1;
      while i < |points|
        invariant 1 <= i <= |points| || |points| < 1
        invariant edges == Polygons.PolygonEdges(points[..if |points| < 1 then 0 else i])
        invariant forall k :: 0 < k < i && k < |points| ==> !Coincident(points[k - 1], points[k])
        decreases |points| - i
      {
        assert points[..i + 1][..i] == points[..i];
        if Coincident(points[i - 1], points[i]) {
          assert ChainCoincident(points);
          return IndexedFailed(EdgeNotDone);
        }
        edges := edges + [Edge(points[i - 1], points[i], Line)];
        i := i + 1;
      }
      assert points[..if |points| < 1 then 0 else i] == points;
      assert !ChainCoincident(points);
    } else {
      var segs := segments.value;
      var si := 0;
      while si < |segs|
        invariant 0 <= si <= |segs|
        invariant CurveEdges(points, segs[..si]) == Edges(edges)
      {
        assert segs[..si + 1][..si] == segs[..si];
        var added := AddSegmentEdges(points, segs[si], edges);
        if added.Failed? {
          CurveErrorPersists(points, segs, si + 1);
          return IndexedFailed(added.error);
        }
        edges := added.edges;
        si := si + 1;
      }
      assert segs[..|segs|] == segs;
    }

    if edges == [] {
      return IndexedNotDone;
    }
    r := IndexedBuilt(edges);
  }
}

# IfcGeomWires: wire construction and repair, modelled in Dafny

This project models the wire-building core of IfcOpenShell's geometry kernel,
`src/ifcgeom/IfcGeomWires.cpp`. That file turns IFC curve entities into
OpenCascade wires (ordered chains of edges). The model covers:

- **The wire builder** (`wire_builder`): it joins consecutive wire segments.
  A gap below the precision `p` is accepted. A gap beyond `1000·p` is bridged
  by a straight connector edge. In the band between, the builder checks how
  many edges meet each junction vertex and what kind of curve the edges lie
  on. It then moves the end vertex of the first segment, defers a move of the
  start vertex of the next segment (the one-shot "override"), or adds a
  connector.
- **The pair enumeration** (`shape_pair_enumerate`): it calls the builder on
  every consecutive pair of segments. It finishes with the closing pair or
  with a single-segment call.
- **Composite curves**: segment collection, reversal of segments whose
  `SameSense` is false, forced closure of profile boundaries, and the two unit
  trials (radians, then degrees) used when the model has no plane-angle unit.
  The second trial is followed by the selection rule.
- **Trimmed curves**: trims are sorted into two slots by `SenseAgreement`.
  The edge is made from the cartesian trims, else from the parameter trims,
  else as a straight line.
- **Polylines and poly-loops**: closure by proximity, the minimum point
  counts, and the polygon maker.
- **Indexed poly-curves**: coordinate padding, 1-based index checks, arc
  index arity, straight edges between coincident points (which raise), and
  edge counts.
- **Edge curves**: the bounded-curve wire is walked in its stored order.
  Its middle edges are made again along their curves, and its outer
  vertices are replaced by the edge's vertices. An edge the curve-edge
  maker cannot make raises.

Geometry is abstract:

- A point is a triple of reals.
- An edge is a start point, an end point and a curve kind (`Line` or
  `Other`).
- A wire is a non-empty sequence of edges.
- A distance `d` is compared with a threshold `t` through the squared
  distance. `CloserThan` is `d < t` and `FartherThan` is `d > t`. For real
  numbers both are exact, so every branch of the source becomes a decision
  that can be stated exactly.

External conversions appear as given inputs of the functions:

- `convert_wire`, `remove_duplicate_points_from_loop`, `wire_intersections`
  and `select_largest` are function-typed parameters;
- the results of `convert_curve` and of point conversion are given values
  (`basisConverted`, an optional curve kind, an optional point);
- the status of `BRepBuilderAPI_MakeEdge` on a curve is a function-typed
  parameter, for trimmed curves (`makeEdge` of `Trimming.TrimWire`) and for
  edge curves (`EdgeCurves.EdgeMaker`).

The plane-angle unit that the composite-curve conversion changes is a field
of the `Kernel` class. The builder is a class whose fields are the source's
`mw_`, `override_next_` and `next_override_`, plus a log of its reports.
Pure functions (`PairStep`, `SingleStep`, `Run`, `Enumeration`,
`SegmentPath`, `SlotsOf`, `Polygon`, `CurveEdges`, `Substituted`, ...)
specify the methods. The lemmas state the source's promises about those
functions.

Files:

| file | module | contents |
|---|---|---|
| `geometry.dfy` | `Options`, `Geometry` | points, edges, wires, distance comparisons, reversal, vertex moves |
| `wire_builder.dfy` | `WireBuilding` | the builder class, its step functions, the enumeration and their properties |
| `composite.dfy` | `Composite` | composite-curve segment collection, unit trials and selection |
| `trimming.dfy` | `Trimming` | trim slotting and the branch choice of trimmed curves |
| `polygons.dfy` | `Polygons` | the polygon maker, polylines and poly-loops |
| `indexed.dfy` | `IndexedCurves` | indexed poly-curves |
| `edgecurve.dfy` | `EdgeCurves` | edge curves |

## Model

| member | source | states |
|---|---|---|
| WireBuilding.WireBuilder.Add | src/ifcgeom/IfcGeomWires.cpp:134-143 | The single-segment call appends the segment. If an override is pending, the segment's first-edge start vertex is first moved to the stored point. The override is cleared. |
| WireBuilding.WireBuilder.AddPair | src/ifcgeom/IfcGeomWires.cpp:145-215 | The new builder state is exactly `PairStep` of the old one. A closing call (`last`) never leaves an override pending. |
| WireBuilding.ShapePairEnumerate | src/ifcgeom/IfcGeomWires.cpp:228-246 | After the loop and the final call, the builder is in the state that running the calls of `Enumeration(segs, closed)` in order gives. |
| WireBuilding.EnumerationCalls | src/ifcgeom/IfcGeomWires.cpp:229-246 | For n segments there are exactly n calls. The first n-1 are `(segs[i], segs[i+1], false)` in order. The last is `(segs[n-1], segs[0], true)` when closed, else the single call on `segs[n-1]`. |
| WireBuilding.JoinBelowPrecision | src/ifcgeom/IfcGeomWires.cpp:162-168 | A gap below `p` appends the segment alone, logs nothing and clears the override. |
| WireBuilding.BridgeBeyondLimit | src/ifcgeom/IfcGeomWires.cpp:170-176 | A gap beyond `1000·p` appends the segment and then exactly one straight connector from its end to the next start, and logs the bridged gap. |
| WireBuilding.BoundariesAreRepairable | src/ifcgeom/IfcGeomWires.cpp:162-177 | A gap of exactly `p` or exactly `1000·p` falls in the middle band. |
| WireBuilding.GapBandsPartition | src/ifcgeom/IfcGeomWires.cpp:162-177 | For a positive precision the three bands split all gaps: joined exactly when below `p`, bridged exactly when beyond `1000·p`, repaired exactly when neither. |
| WireBuilding.MiddleBandRepair | src/ifcgeom/IfcGeomWires.cpp:189-210 | In the middle band, with one edge at each junction vertex: a linear trailing edge has its end vertex moved onto the next start, with no connector and no override. Else a linear leading edge of a non-closing call sets the override to the end point and leaves the segment unchanged. Else one connector is added. |
| WireBuilding.InconsistentJunction | src/ifcgeom/IfcGeomWires.cpp:211-214 | In the middle band, a junction vertex with other than exactly one edge: the error is logged and the segment is appended unchanged, with no connector and no override. |
| WireBuilding.ClosedSegmentInconsistent | src/ifcgeom/IfcGeomWires.cpp:182-214 | In the repair band, a segment that closes on itself has two edges at its end vertex, so the junction is logged as inconsistent and the segment is appended unchanged, with neither a connector nor an override. |
| WireBuilding.OverrideAppliedFirst | src/ifcgeom/IfcGeomWires.cpp:149-153 | A call made while an override is pending behaves like a call without one on the segment whose first-edge start vertex was moved to the stored point. |
| WireBuilding.OverrideOneShot | src/ifcgeom/IfcGeomWires.cpp:197-204 | A single call never leaves an override. A pair call leaves one only if it set it itself: middle band, non-linear trailing edge, linear leading edge, not the closing call. The stored point is then the segment's end. |
| WireBuilding.RunOnlyAppends | src/ifcgeom/IfcGeomWires.cpp:123-226 | Any sequence of builder calls only appends to the wire and to the log. Earlier edges and reports are never changed. |
| WireBuilding.EnumerationConsumesOverride | src/ifcgeom/IfcGeomWires.cpp:241-245 | After the enumeration, open or closed, no override is pending. |
| WireBuilding.PairStepJunction | src/ifcgeom/IfcGeomWires.cpp:145-215 | A pair call only appends to the wire. Either it logs the junction as inconsistent, or its wire's last edge ends on, or within `p` of, the start of the next segment as the next call takes it (after a pending override). |
| WireBuilding.RunSplit | src/ifcgeom/IfcGeomWires.cpp:228-246 | Running two call sequences one after the other equals running their concatenation. |
| WireBuilding.CallJunction | src/ifcgeom/IfcGeomWires.cpp:228-246 | In any run from a fresh builder, the wire after pair call `i` is a prefix of the final wire. Call `i` either logged an inconsistent junction or left that wire meeting the segment it was given as next. |
| WireBuilding.EnumerationConnected | src/ifcgeom/IfcGeomWires.cpp:122-246 | The builder keeps segments connected. At every junction of the enumeration, and at the closing junction when closed, the junction is either logged as inconsistent, or the wire built so far (a prefix of the final wire) ends on, or within `p` of, the next segment's start. |
| WireBuilding.GapFreeAssembly | src/ifcgeom/IfcGeomWires.cpp:165-167 | Segments that already meet within `p` are joined into their plain concatenation, with no report and no override. When closing, the result is a closed wire. |
| Geometry.MoveVertexKeepsJunctions | src/ifcgeom/IfcGeomWires.cpp:110-120 | Replacing a vertex moves every edge end on it together: edges that met at a vertex still meet afterwards, and once the vertex moves elsewhere no edge end is left on it. |
| Geometry.MoveEndVertex | src/ifcgeom/IfcGeomWires.cpp:197-198 | Moving the end vertex of a wire to `q` makes the wire end at `q`. |
| Geometry.ClosedWireSharesEnd | src/ifcgeom/IfcGeomWires.cpp:182-185 | The incident-edge count of a closed wire's end vertex is at least two: its last edge ends there and its first edge starts there. |
| Geometry.ReversedTwice | src/ifcgeom/IfcGeomWires.cpp:341-343 | Reversing a wire twice gives the wire back. |
| Geometry.ReversedEnds | src/ifcgeom/IfcGeomWires.cpp:341-343 | The reversed wire starts at the original end and ends at the original start. |
| Composite.SelectUnit | src/ifcgeom/IfcGeomWires.cpp:296-323 | A trial is chosen iff at least one succeeded. A sole success is chosen. When both succeed, a closed wire beats an open one, and otherwise radians wins. |
| Composite.SelectUnitTakesBestRanked | src/ifcgeom/IfcGeomWires.cpp:296-313 | The rule equals taking the better trial under the order success > closed > radians, provided that trial succeeded. |
| Composite.UnknownUnitResolution | src/ifcgeom/IfcGeomWires.cpp:250-323 | Without unit information, the conversion succeeds iff one of the two unit trials does. It never raises, and it returns the wire of the selected trial. |
| Composite.Kernel.ConvertCompositeCurve | src/ifcgeom/IfcGeomWires.cpp:250-324 | The result is `CompositeConversion` of the starting unit. Afterwards the plane-angle unit is -1 again if it was unknown, and unchanged otherwise. |
| Composite.Kernel.ConvertSegments | src/ifcgeom/IfcGeomWires.cpp:327-364 | The segment loop and the builder give exactly `SegmentPath`: collected segments, each reversed when `SameSense` is false, joined with forced closure for profile boundaries. |
| Composite.CollectConverted | src/ifcgeom/IfcGeomWires.cpp:331-350 | The segment loop gives exactly `CollectSegments`: each converted segment in order, reversed when `SameSense` is false, and no collection when a conversion throws. |
| Composite.CollectRaisedPrefix | src/ifcgeom/IfcGeomWires.cpp:331-350 | A segment conversion that throws makes the whole collection throw. |
| Composite.CollectKeepsConverted | src/ifcgeom/IfcGeomWires.cpp:336-339 | The collection has as many wires as there are segments whose conversion succeeded. |
| Composite.CollectSkipsNotConverted | src/ifcgeom/IfcGeomWires.cpp:336-339 | A segment whose conversion fails is skipped: the collection is the one of the list without that segment. With `CollectAllConverted`, this fixes which wires are collected, and in what order, for every list. |
| Composite.CollectAllConverted | src/ifcgeom/IfcGeomWires.cpp:331-350 | When every segment converts, the collection is the converted wires in segment order, each reversed exactly when its `SameSense` is false. |
| Trimming.CollectTrims | src/ifcgeom/IfcGeomWires.cpp:381-410 | After both loops, the slot arrays hold `SlotsOf`. Trim1 fills slot 0 and Trim2 slot 1 when the senses agree, and it is the other way round when they do not. In each trim the last point and the last parameter (scaled by the factor) win. |
| Trimming.LastPointIsLatest | src/ifcgeom/IfcGeomWires.cpp:388-393 | The point a trim contributes is the one at an index after which no other point follows. No point is contributed iff the trim has none. |
| Trimming.ConvertTrimmedCurve | src/ifcgeom/IfcGeomWires.cpp:369-481 | The conversion equals `TrimmedConversion`. The parameter factor is the plane-angle unit for conics and the length unit otherwise. |
| Trimming.CartesianTrimFirst | src/ifcgeom/IfcGeomWires.cpp:412-434 | With both points, no parameter preference, points at least `2p` apart and a made edge, the cartesian edge is used. It is reversed iff the senses disagree. |
| Trimming.ShortCartesianTrimRejected | src/ifcgeom/IfcGeomWires.cpp:414-418 | Cartesian trims closer than `2p` reject the curve. |
| Trimming.ParameterTrimSecond | src/ifcgeom/IfcGeomWires.cpp:436-461 | With both parameters, when cartesian trimming is not chosen or its point projection failed, the parameter edge is used. |
| Trimming.StraightLineLast | src/ifcgeom/IfcGeomWires.cpp:462-464 | Without both parameters, failed or unchosen cartesian trimming with both points falls back to a straight edge. Between coincident points that edge is not done, and the conversion raises. |
| Trimming.NoEdgeCases | src/ifcgeom/IfcGeomWires.cpp:412-480 | No edge is made iff the cartesian edge failed other than by point projection, or, without cartesian trimming, there are neither both points nor both parameters. |
| Trimming.ReversedIffSenseDisagrees | src/ifcgeom/IfcGeomWires.cpp:466-477 | A built trimmed wire is reversed exactly when `SenseAgreement` is false. |
| Polygons.PolygonEdges | src/ifcgeom/IfcGeomWires.cpp:504-507 | n points give n-1 straight edges; edge i runs from point i to point i+1. |
| Polygons.Polygon | src/ifcgeom/IfcGeomWires.cpp:504-511 | The polygon edges are chained and straight, and start at the first point. With closing, there is one edge per point and the last edge ends at the first point. Without closing, the last edge ends at the last point. |
| Polygons.BuildPolygon | src/ifcgeom/IfcGeomWires.cpp:504-511 | Adding the points one by one and closing on request gives exactly `Polygon`. |
| Polygons.ConvertPolyline | src/ifcgeom/IfcGeomWires.cpp:483-515 | The polyline conversion equals `PolylineConversion`. |
| Polygons.PolylineDropsLastPoint | src/ifcgeom/IfcGeomWires.cpp:494-499 | Closure by proximity (at least 2 points, first and last closer than `10p`) drops exactly the last point. Otherwise the points are kept. |
| Polygons.PolylineClosure | src/ifcgeom/IfcGeomWires.cpp:501-514 | The conversion raises iff fewer than 2 points remain after cleaning. A built polyline is closed iff it closes by proximity. It is then one edge per point ending where it starts; otherwise it is an open chain from the first to the last cleaned point. |
| Polygons.ConvertPolyLoop | src/ifcgeom/IfcGeomWires.cpp:517-565 | The poly-loop conversion equals `PolyLoopConversion`. |
| Polygons.PolyLoopShape | src/ifcgeom/IfcGeomWires.cpp:529-554 | A loop is built iff it has at least 3 points before and after cleaning. The reported removal is the original count minus the remaining count. Without self-intersections the loop has one edge per point and is closed. |
| IndexedCurves.ResolvePoints | src/ifcgeom/IfcGeomWires.cpp:732-740 | One point per coordinate entry, each scaled by the length unit, with missing coordinates set to 0. |
| IndexedCurves.PaddingIsZero | src/ifcgeom/IfcGeomWires.cpp:736-739 | A two-coordinate entry lies in the plane z = 0, and an empty entry is the origin. |
| IndexedCurves.LineEdgesSpec | src/ifcgeom/IfcGeomWires.cpp:756-769 | A line index succeeds iff every index lies in `[1, max]` and no two consecutive indices name coincident points. A k-entry line index then gives k-1 straight edges between the indexed points, in order. |
| IndexedCurves.LineEdgesValid | src/ifcgeom/IfcGeomWires.cpp:758-767 | A line index converts exactly when all its indices are in range and no edge joins coincident points. |
| IndexedCurves.LineEdgesShape | src/ifcgeom/IfcGeomWires.cpp:763-768 | A converted k-entry line index has k-1 straight edges, edge i running from the point of index i to the point of index i+1. |
| IndexedCurves.LineEdgesStep | src/ifcgeom/IfcGeomWires.cpp:759-768 | Step lemma of the `AddLineEdges` loop: one more index is checked first and raises when out of range. Then the edge from the previous point raises when the points coincide, and is appended otherwise. The first index adds no edge. |
| IndexedCurves.FirstOutOfRangeAt | src/ifcgeom/IfcGeomWires.cpp:776-781 | The reported index is the first one outside `[1, max]`. |
| IndexedCurves.SegmentEdgesSpec | src/ifcgeom/IfcGeomWires.cpp:755-789 | A segment converts iff it is valid: a line with all indices in range and no coincident consecutive points, or an arc of exactly 3 in-range indices. It adds k-1 edges for a k-entry line and one for an arc. |
| IndexedCurves.CurveEdgesSpec | src/ifcgeom/IfcGeomWires.cpp:753-791 | The segments convert iff every segment is valid. The edge count is then the sum of the segments' counts. |
| IndexedCurves.NoSegmentsEdgeCount | src/ifcgeom/IfcGeomWires.cpp:746-751 | Without segments, n points give n-1 straight edges between consecutive points. Fewer than 2 points give no wire. The conversion raises exactly when two consecutive points coincide. |
| IndexedCurves.RepeatedIndexRaises | src/ifcgeom/IfcGeomWires.cpp:757-767 | The points (0,0) and (1,0) with the line index [1, 1, 2] raise: the first edge joins a point to itself. |
| IndexedCurves.LineErrorPersists | src/ifcgeom/IfcGeomWires.cpp:760-767 | An error in a prefix of a line index (an index out of range, or an edge between coincident points) is the error of the whole line index. |
| IndexedCurves.CurveErrorPersists | src/ifcgeom/IfcGeomWires.cpp:754-790 | The first failing segment decides the exception of the whole curve. |
| IndexedCurves.AddLineEdges | src/ifcgeom/IfcGeomWires.cpp:756-769 | The index loop of a line gives exactly its `LineEdges` appended, or its error. |
| IndexedCurves.AddSegmentEdges | src/ifcgeom/IfcGeomWires.cpp:755-789 | Checking and adding one segment gives exactly its `SegmentEdges` appended, or its error. |
| IndexedCurves.ConvertIndexedPolyCurve | src/ifcgeom/IfcGeomWires.cpp:722-795 | The conversion equals `IndexedConversion`. A curve with no edges gives no wire. |
| EdgeCurves.Substituted | src/ifcgeom/IfcGeomWires.cpp:605-641 | The first edge starts at p1 and the last edge ends at p2, and a single edge gets both. Every other vertex and every curve kind is kept, and so is the edge count. |
| EdgeCurves.SubstituteEndpoints | src/ifcgeom/IfcGeomWires.cpp:605-641 | The edge loop with its first/last flags gives exactly `Substituted`, or nothing when the maker cannot make one of the two rebuilt outer edges. |
| EdgeCurves.ConvertEdgeCurve | src/ifcgeom/IfcGeomWires.cpp:571-647 | The conversion equals `EdgeCurveConversion`, including the raise when the curve-edge maker is not done. |
| EdgeCurves.EdgeCurveEndpoints | src/ifcgeom/IfcGeomWires.cpp:594-641 | A built edge curve needs both vertices cartesian and converted, and runs from the start vertex to the end vertex. Its first and last edges were made by the maker. An unbounded curve gives one edge of its kind. A bounded curve keeps the wire's edge count and curve kinds in stored order and keeps its middle edges. Its first edge ends, and its last edge starts, where the stored edges do on their curves. |
| EdgeCurves.MakerFailureRaises | src/ifcgeom/IfcGeomWires.cpp:596-638 | With both vertices and the curve converted, the conversion raises exactly when the curve-edge maker cannot make the single edge (unbounded curve) or one of the rebuilt outer edges (bounded curve), and otherwise builds. |
| EdgeCurves.SenseIgnoredByWalk | src/ifcgeom/IfcGeomWires.cpp:599-606 | `SameSense` does not change the result. Reversing the wire flips only its orientation, and the walk reads the edges in stored order through their curves' parameter ranges. |
| EdgeCurves.OppositeSenseKeepsStoredOrder | src/ifcgeom/IfcGeomWires.cpp:599-633 | With `SameSense` false, the stored wire [A→B line, B→C other, C→D line] gives [p1→B line, B→C other, C→p2 line] when the maker makes the two outer edges, and raises otherwise. |

## Left out

- OpenCascade topology is abstracted:
  - Vertex identity is point equality, so a vertex replacement moves every edge end at that point.
  - The number of edges at a vertex counts the edge ends at that point.
  - Tolerances set with `ShapeFix_ShapeTolerance` and on new vertices are not modelled.
- Appending to the wire maker never fails in the model. Every `Add` is plain concatenation.
  - A segment or edge that does not meet the wire built so far is still appended. Examples are the segment after an `InconsistentSegments` junction and a later indexed line segment that starts away from the chain.
  - OpenCascade's wire maker reports such an edge as a disconnected-wire error, and :220-221 log it as a failure to join the curve segments. The model does not track that error state, nor a `Wire()` that is then not done (src/ifcgeom/IfcGeomWires.cpp:217-222).
  - The non-manifold check at the same lines is not modelled either.
- Distances are compared through squared distances, and the builder's log stores the squared distance.
  - Floating-point rounding is not modelled.
  - Logger messages and entity references become the `Report` values of the builder. Elsewhere they are left out.
- Composite.TrialClosed: OpenCascade's closed flag of a wire is taken to mean "last vertex within `p` of the first vertex".
- Composite.CompositeConversion:
  - A trial catches every exception, so a thrown trial counts as failed. The reason is not kept.
  - A trial runs the segment path for the trial unit directly. This is the path the re-entrant call takes once the unit is known.
- Composite.SegmentPath: with no converted segment, the enumeration and `bld.wire()` have no wire to work on. This is modelled as raising.
- WireBuilding.ShapePairEnumerate requires at least one segment.
  - With an empty list the source makes its final call on null shapes.
  - The model treats that case as raising, in `Composite.SegmentPath`, and does not call the enumeration.
- `remove_duplicate_points_from_loop`, `wire_intersections`, `select_largest`, `convert_wire`, `convert_curve` and point conversion are given as parameters. Their definitions are not part of this model.
- Trimming.TrimWire:
  - The parameter values are not multiplied by a line's direction magnitude (src/ifcgeom/IfcGeomWires.cpp:441-445).
  - They are not shifted by π/2 for a rotated ellipse (:446-455).
  - The full-circle case of a conic (:456-457) is not told apart from a parameter edge.
  - A parameter edge that the kernel cannot make is not modelled.
- Polygons.Polygon: the polygon maker's skipping of coincident consecutive points is not modelled.
- IndexedCurves.SegmentEdges: an arc through three collinear or coincident points, for which no circle can be made, is not modelled. The arc edge is an `Other` edge from the first to the third point.
- EdgeCurves.EdgeCurveConversion: each edge of the converted bounded-curve wire is given by its curve's parameter range. Its `start` is the curve point at the lower parameter and its `end` the point at the upper one. The orientation of edges inside that wire is not modelled, because the walk does not read it.
- EdgeCurves.EdgeCurveConversion: the middle edges, made again from their own curve parameters (src/ifcgeom/IfcGeomWires.cpp:624), are taken to be made. Only the two rebuilt outer edges and the single edge of an unbounded curve consult the edge maker.
- WireBuilding.EnumerationConnected: the junctions are stated at call boundaries, between the wire built so far and the next segment as the next call takes it. A segment whose start and end coincide also has its start moved when its end vertex is moved (as with `ShapeBuild_ReShape`). The lemma does not follow the vertex on into the final edge list.
- `Geometry.Coincident` is exact point equality. Distinct points within the edge maker's own tolerance, which it also refuses to join, are not modelled.
- Straight connectors of the wire builder join points at least `p` apart. With a non-positive precision they could join coincident points, and the model does not make that case raise.
- The dead locals of the composite conversion (src/ifcgeom/IfcGeomWires.cpp:352-355) are not modelled.
- `src/backtrace.h` only prints stack traces and is not part of this model.
- The comment at src/ifcgeom/IfcGeomWires.cpp:164 speaks of a gap "within 2p", but the code accepts gaps below `p`. The model follows the code.

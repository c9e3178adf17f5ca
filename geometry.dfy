/** A small optional-value type used by all conversions. */
module Options {
  datatype Option<+T> = None | Some(value: T)
}

/**
 * The part of the geometry kernel's topology that the wire conversions look at:
 * points, edges with a curve-kind tag, and wires as non-empty edge sequences.
 *
 * Distances are never computed as square roots. The kernel compares
 * `Distance(a, b)` against a threshold `t`; for real numbers that comparison is
 * decided exactly by the squared distance, which is what `CloserThan` and
 * `FartherThan` do.
 */
module Geometry {

  /** A point in resolved length units. */
  datatype Point = Point(x: real, y: real, z: real)

  /** The default-constructed kernel point. */
  const Origin: Point := Point(0.0, 0.0, 0.0)

  /** The curve underlying an edge: a straight line, or anything else. */
  datatype EdgeKind = Line | Other

  /** An oriented edge from `start` to `end` on a curve of the given kind. */
  datatype Edge = Edge(start: Point, end: Point, kind: EdgeKind)

  /** A wire handed between conversions: an ordered, non-empty edge sequence. */
  type Wire = w: seq<Edge> | |w| > 0 witness [Edge(Origin, Origin, Line)]

  function SqDist(a: Point, b: Point): (d: real)
    ensures d >= 0.0
  {
    var dx, dy, dz := a.x - b.x, a.y - b.y, a.z - b.z;
    assert dx * dx >= 0.0 && dy * dy >= 0.0 && dz * dz >= 0.0;
    dx * dx + dy * dy + dz * dz
  }

  /** `Distance(a, b) < t`. */
  predicate CloserThan(a: Point, b: Point, t: real)
  {
    t > 0.0 && SqDist(a, b) < t * t
  }

  /** `Distance(a, b) > t`. */
  predicate FartherThan(a: Point, b: Point, t: real)
  {
    t < 0.0 || SqDist(a, b) > t * t
  }

  /** Whatever the threshold, a point is never both within it and beyond it. */
  lemma CloserExcludesFarther(a: Point, b: Point, t: real)
    ensures !(CloserThan(a, b, t) && FartherThan(a, b, t))
  {
  }

  /**
   * A straight edge between `a` and `b` cannot be made: the points coincide.
   * The edge maker then reports that it is not done, and taking its edge raises.
   */
  predicate Coincident(a: Point, b: Point)
  {
    a == b
  }

  function Start(w: Wire): Point { w[0].start }

  function End(w: Wire): Point { w[|w| - 1].end }

  function FirstEdge(w: Wire): Edge { w[0] }

  function LastEdge(w: Wire): Edge { w[|w| - 1] }

  /** The same edge traversed the other way. */
  function Flip(e: Edge): Edge { Edge(e.end, e.start, e.kind) }

  /** A wire traversed backwards: edges in reverse order, each flipped. */
  function Reversed(w: seq<Edge>): (r: seq<Edge>)
    ensures |r| == |w|
  {
    if w == [] then [] else [Flip(w[|w| - 1])] + Reversed(w[..|w| - 1])
  }

  lemma {:induction false} ReversedAt(w: seq<Edge>, k: nat)
    requires k < |w|
    ensures Reversed(w)[k] == Flip(w[|w| - 1 - k])
  {
    if k > 0 {
      ReversedAt(w[..|w| - 1], k - 1);
    }
  }

  /** Reversing twice gives back the original wire. */
  lemma ReversedTwice(w: seq<Edge>)
    ensures Reversed(Reversed(w)) == w
  {
    forall k | 0 <= k < |w|
      ensures Reversed(Reversed(w))[k] == w[k]
    {
      ReversedAt(Reversed(w), k);
      ReversedAt(w, |w| - 1 - k);
    }
  }

  /** The reversed wire starts where the wire ended and ends where it started. */
  lemma ReversedEnds(w: Wire)
    ensures Reversed(w)[0].start == End(w)
    ensures Reversed(w)[|w| - 1].end == Start(w)
  {
    ReversedAt(w, 0);
    ReversedAt(w, |w| - 1);
  }

  /**
   * The wire with vertex `v` replaced by a vertex at `q`: every edge end that
   * sits on `v` is moved, the curve kinds are kept.
   */
  function MoveVertex(w: Wire, v: Point, q: Point): Wire
  {
    seq(|w|, i requires 0 <= i < |w| =>
      Edge(if w[i].start == v then q else w[i].start,
           if w[i].end == v then q else w[i].end,
           w[i].kind))
  }

  /** Moving a wire's end vertex puts its end exactly on the target point. */
  lemma MoveEndVertex(w: Wire, q: Point)
    ensures End(MoveVertex(w, End(w), q)) == q
  {
  }

  /**
   * Replacing a vertex keeps the wire connected: edges that met at a vertex
   * still meet after the replacement, and no edge end is left on the old
   * vertex once it has moved elsewhere.
   */
  lemma MoveVertexKeepsJunctions(w: Wire, v: Point, q: Point)
    ensures var r := MoveVertex(w, v, q);
      (forall i, j :: 0 <= i < |w| && 0 <= j < |w| && w[i].end == w[j].start ==> r[i].end == r[j].start) &&
      (q != v ==> forall i :: 0 <= i < |w| ==> r[i].start != v && r[i].end != v)
  {
  }

  /** Number of edge ends of `w` that sit on vertex `v`. */
  function Incidence(w: seq<Edge>, v: Point): nat
  {
    if w == [] then 0
    else Incidence(w[..|w| - 1], v)
         + (if w[|w| - 1].start == v then 1 else 0)
         + (if w[|w| - 1].end == v then 1 else 0)
  }

  /** The first edge's start vertex is counted in the incidence of that vertex. */
  lemma {:induction false} IncidenceCountsStart(w: seq<Edge>)
    requires |w| > 0
    ensures Incidence(w, w[0].start) >= 1
  {
    if |w| > 1 {
      IncidenceCountsStart(w[..|w| - 1]);
    }
  }

  /**
   * A wire that closes on itself has two edges at its end vertex: the last
   * edge ends there and the first edge starts there.
   */
  lemma {:induction false} ClosedWireSharesEnd(w: Wire)
    requires Start(w) == End(w)
    ensures Incidence(w, End(w)) >= 2
  {
    if |w| > 1 {
      assert w[..|w| - 1][0] == w[0];
      IncidenceCountsStart(w[..|w| - 1]);
    }
  }

  /** Edges concatenated in the order of the wires. */
  function Flatten(ws: seq<Wire>): seq<Edge>
  {
    if ws == [] then [] else Flatten(ws[..|ws| - 1]) + ws[|ws| - 1]
  }

  lemma {:induction false} FlattenFirst(ws: seq<Wire>)
    requires |ws| > 0
    ensures Flatten(ws)[0] == ws[0][0]
  {
    if |ws| > 1 {
      FlattenFirst(ws[..|ws| - 1]);
    }
  }

  /**
   * The kernel's closedness of a built wire: its last vertex coincides with its
   * first within the precision.
   */
  predicate Closed(mw: seq<Edge>, p: real)
  {
    |mw| > 0 && CloserThan(mw[|mw| - 1].end, mw[0].start, p)
  }
}

/**
 * The wire builder of IfcGeomWires.cpp: joins consecutive wire segments into
 * one wire, moving end points or inserting straight connector edges where the
 * segments do not meet, and the pair enumeration that drives it.
 */
module WireBuilding {
  import opened Geometry

  /** What the builder reports about a repair it made (the logged distance is squared). */
  datatype Report =
    | GapBridged(sqDist: real)
    | EndpointAdjusted(sqDist: real)
    | InconsistentSegments

  /**
   * Everything a builder call can change: the wire under construction, the
   * pending start-vertex override, and the reports logged so far.
   */
  datatype BuilderState = BuilderState(
    mw: seq<Edge>,
    overrideNext: bool,
    nextOverride: Point,
    log: seq<Report>)

  /** A freshly constructed builder: empty wire, no override pending. */
  const Initial: BuilderState := BuilderState([], false, Origin, [])

  /** How far apart a segment's end and the next segment's start are. */
  datatype Band =
    | Joinable    // distance below the precision
    | Repairable  // from the precision up to a thousand times it, both ends included
    | Bridge      // more than a thousand times the precision

  function GapBand(p1: Point, p2: Point, p: real): Band
  {
    if CloserThan(p1, p2, p) then Joinable
    else if FartherThan(p1, p2, 1000.0 * p) then Bridge
    else Repairable
  }

  /** The synthetic straight edge that closes a gap. */
  function Connector(a: Point, b: Point): Edge
  {
    Edge(a, b, Line)
  }

  /** The incoming wire with a pending override applied to its first edge's start vertex. */
  function Overridden(s: BuilderState, w: Wire): Wire
  {
    if s.overrideNext then MoveVertex(w, w[0].start, s.nextOverride) else w
  }

  /** The single-argument call: append the last segment of an open sequence. */
  function SingleStep(s: BuilderState, a: Wire): BuilderState
  {
    s.(mw := s.mw + Overridden(s, a), overrideNext := false)
  }

  /** The pair call: append `a`, reconciling its end with the start of `b`. */
  function PairStep(s: BuilderState, p: real, a: Wire, b: Wire, last: bool): BuilderState
  {
    var w1 := Overridden(s, a);
    var t := s.(overrideNext := false);
    var p1, p2 := End(w1), Start(b);
    match GapBand(p1, p2, p)
    case Joinable => t.(mw := s.mw + w1)
    case Bridge =>
      t.(mw := s.mw + w1 + [Connector(p1, p2)], log := s.log + [GapBridged(SqDist(p1, p2))])
    case Repairable =>
      if Incidence(w1, p1) == 1 && Incidence(b, p2) == 1 then
        if LastEdge(w1).kind == Line then
          t.(mw := s.mw + MoveVertex(w1, p1, p2), log := s.log + [EndpointAdjusted(SqDist(p1, p2))])
        else if FirstEdge(b).kind == Line && !last then
          t.(mw := s.mw + w1, overrideNext := true, nextOverride := p1,
             log := s.log + [EndpointAdjusted(SqDist(p1, p2))])
        else
          t.(mw := s.mw + w1 + [Connector(p1, p2)], log := s.log + [GapBridged(SqDist(p1, p2))])
      else
        t.(mw := s.mw + w1, log := s.log + [InconsistentSegments])
  }

  /** One invocation of the builder by the enumeration. */
  datatype Call =
    | PairCall(a: Wire, b: Wire, last: bool)
    | SingleCall(a: Wire)

  function Apply(s: BuilderState, p: real, c: Call): BuilderState
  {
    match c
    case PairCall(a, b, last) => PairStep(s, p, a, b, last)
    case SingleCall(a) => SingleStep(s, a)
  }

  /** The builder state after a sequence of calls, in order. */
  function Run(s: BuilderState, p: real, calls: seq<Call>): BuilderState
  {
    if calls == [] then s else Apply(Run(s, p, calls[..|calls| - 1]), p, calls[|calls| - 1])
  }

  /** The pair calls over consecutive segments. */
  function Pairs(segs: seq<Wire>): (r: seq<Call>)
    ensures |r| == if |segs| == 0 then 0 else |segs| - 1
  {
    if |segs| < 2 then [] else [PairCall(segs[0], segs[1], false)] + Pairs(segs[1..])
  }

  /**
   * The calls the enumeration makes over `segs`: every consecutive pair, then
   * either the closing pair (last, first) or the last segment alone.
   */
  function Enumeration(segs: seq<Wire>, closed: bool): seq<Call>
    requires |segs| > 0
  {
    Pairs(segs)
      + [if closed then PairCall(segs[|segs| - 1], segs[0], true) else SingleCall(segs[|segs| - 1])]
  }

  lemma {:induction false} PairsAt(segs: seq<Wire>, i: nat)
    requires i + 1 < |segs|
    ensures Pairs(segs)[i] == PairCall(segs[i], segs[i + 1], false)
  {
    if i > 0 {
      PairsAt(segs[1..], i - 1);
    }
  }

  /**
   * For n segments the enumeration makes exactly n calls:
   * `(segs[i], segs[i + 1], false)` for i < n - 1 in order, then the closing
   * call `(segs[n - 1], segs[0], true)` if closed, else the single call on the last.
   */
  lemma EnumerationCalls(segs: seq<Wire>, closed: bool)
    requires |segs| > 0
    ensures |Enumeration(segs, closed)| == |segs|
    ensures forall i :: 0 <= i < |segs| - 1 ==>
      Enumeration(segs, closed)[i] == PairCall(segs[i], segs[i + 1], false)
    ensures Enumeration(segs, closed)[|segs| - 1] ==
      if closed then PairCall(segs[|segs| - 1], segs[0], true) else SingleCall(segs[|segs| - 1])
  {
    forall i | 0 <= i < |segs| - 1
      ensures Enumeration(segs, closed)[i] == PairCall(segs[i], segs[i + 1], false)
    {
      PairsAt(segs, i);
    }
  }

  // ---------------------------------------------------------------------------
  // Properties of one builder call
  // ---------------------------------------------------------------------------

  /** A gap below the precision: the segment is appended unchanged, nothing is logged. */
  lemma JoinBelowPrecision(s: BuilderState, p: real, a: Wire, b: Wire, last: bool)
    requires CloserThan(End(Overridden(s, a)), Start(b), p)
    ensures PairStep(s, p, a, b, last) ==
      s.(mw := s.mw + Overridden(s, a), overrideNext := false)
  {
  }

  /** A gap beyond a thousand times the precision: the segment, then exactly one connector. */
  lemma BridgeBeyondLimit(s: BuilderState, p: real, a: Wire, b: Wire, last: bool)
    requires p > 0.0
    requires FartherThan(End(Overridden(s, a)), Start(b), 1000.0 * p)
    ensures var w1 := Overridden(s, a);
      PairStep(s, p, a, b, last) ==
      s.(mw := s.mw + w1 + [Connector(End(w1), Start(b))], overrideNext := false,
         log := s.log + [GapBridged(SqDist(End(w1), Start(b)))])
    ensures var w1 := Overridden(s, a);
      SqDist(Connector(End(w1), Start(b)).start, Connector(End(w1), Start(b)).end) ==
      SqDist(End(w1), Start(b))
  {
  }

  /** A gap of exactly the precision or exactly a thousand times it is in the middle band. */
  lemma BoundariesAreRepairable(p1: Point, p2: Point, p: real)
    requires p > 0.0
    requires SqDist(p1, p2) == p * p || SqDist(p1, p2) == (1000.0 * p) * (1000.0 * p)
    ensures GapBand(p1, p2, p) == Repairable
  {
    assert p * p <= (1000.0 * p) * (1000.0 * p) by {
      assert (1000.0 * p) * (1000.0 * p) == 1000000.0 * (p * p);
    }
  }

  /**
   * The three bands split the distances: a gap is joined exactly when it is
   * below `p`, bridged exactly when it is beyond `1000·p`, and repaired
   * exactly when it is neither.
   */
  lemma GapBandsPartition(p1: Point, p2: Point, p: real)
    requires p > 0.0
    ensures GapBand(p1, p2, p) == Joinable <==> CloserThan(p1, p2, p)
    ensures GapBand(p1, p2, p) == Bridge <==> FartherThan(p1, p2, 1000.0 * p)
    ensures GapBand(p1, p2, p) == Repairable <==>
      !CloserThan(p1, p2, p) && !FartherThan(p1, p2, 1000.0 * p)
  {
    if CloserThan(p1, p2, p) {
      assert p * p <= (1000.0 * p) * (1000.0 * p) by {
        assert (1000.0 * p) * (1000.0 * p) == 1000000.0 * (p * p);
      }
      assert CloserThan(p1, p2, 1000.0 * p);
      CloserExcludesFarther(p1, p2, 1000.0 * p);
    }
  }

  /** The three repairs of the middle band when each junction vertex has exactly one edge. */
  lemma MiddleBandRepair(s: BuilderState, p: real, a: Wire, b: Wire, last: bool)
    requires var w1 := Overridden(s, a);
      GapBand(End(w1), Start(b), p) == Repairable &&
      Incidence(w1, End(w1)) == 1 && Incidence(b, Start(b)) == 1
    ensures var w1, r := Overridden(s, a), PairStep(s, p, a, b, last);
      var p1, p2 := End(w1), Start(b);
      if LastEdge(w1).kind == Line then
        // the end vertex is moved onto the next start; no connector, no override
        r.mw == s.mw + MoveVertex(w1, p1, p2) && End(MoveVertex(w1, p1, p2)) == p2 && !r.overrideNext
      else if FirstEdge(b).kind == Line && !last then
        // unchanged now; the next call moves the next segment's start onto p1
        r.mw == s.mw + w1 && r.overrideNext && r.nextOverride == p1
      else
        r.mw == s.mw + w1 + [Connector(p1, p2)] && !r.overrideNext
  {
    MoveEndVertex(Overridden(s, a), Start(b));
  }

  /**
   * A segment that closes on itself has two edges at its end vertex, so in the
   * repair band its junction is logged as inconsistent and nothing is repaired.
   */
  lemma ClosedSegmentInconsistent(s: BuilderState, p: real, a: Wire, b: Wire, last: bool)
    requires var w1 := Overridden(s, a);
      GapBand(End(w1), Start(b), p) == Repairable && Start(w1) == End(w1)
    ensures PairStep(s, p, a, b, last) ==
      s.(mw := s.mw + Overridden(s, a), overrideNext := false,
         log := s.log + [InconsistentSegments])
  {
    ClosedWireSharesEnd(Overridden(s, a));
    InconsistentJunction(s, p, a, b, last);
  }

  /** A junction vertex without exactly one edge: logged, appended unchanged, nothing else. */
  lemma InconsistentJunction(s: BuilderState, p: real, a: Wire, b: Wire, last: bool)
    requires var w1 := Overridden(s, a);
      GapBand(End(w1), Start(b), p) == Repairable &&
      (Incidence(w1, End(w1)) != 1 || Incidence(b, Start(b)) != 1)
    ensures PairStep(s, p, a, b, last) ==
      s.(mw := s.mw + Overridden(s, a), overrideNext := false,
         log := s.log + [InconsistentSegments])
  {
  }

  /**
   * A pending override is applied first: the call behaves exactly like a call
   * without override on the segment whose first-edge start was moved.
   */
  lemma OverrideAppliedFirst(s: BuilderState, p: real, a: Wire, b: Wire, last: bool)
    requires s.overrideNext
    ensures PairStep(s, p, a, b, last) ==
      PairStep(s.(overrideNext := false), p, MoveVertex(a, a[0].start, s.nextOverride), b, last)
    ensures SingleStep(s, a) ==
      SingleStep(s.(overrideNext := false), MoveVertex(a, a[0].start, s.nextOverride))
    ensures MoveVertex(a, a[0].start, s.nextOverride)[0].start == s.nextOverride
  {
  }

  /**
   * The override is one-shot: a call leaves one pending only if it set it
   * itself, which needs the middle band, a non-linear trailing edge, a linear
   * leading edge and a call that is not the closing one.
   */
  lemma OverrideOneShot(s: BuilderState, p: real, a: Wire, b: Wire, last: bool)
    ensures !SingleStep(s, a).overrideNext
    ensures var w1, r := Overridden(s, a), PairStep(s, p, a, b, last);
      r.overrideNext ==>
        !last && GapBand(End(w1), Start(b), p) == Repairable &&
        LastEdge(w1).kind != Line && FirstEdge(b).kind == Line &&
        r.nextOverride == End(w1)
  {
  }

  // ---------------------------------------------------------------------------
  // Properties of whole runs
  // ---------------------------------------------------------------------------

  /** One call only appends to the wire and to the log. */
  lemma ApplyOnlyAppends(s: BuilderState, p: real, c: Call)
    ensures |Apply(s, p, c).mw| >= |s.mw| && Apply(s, p, c).mw[..|s.mw|] == s.mw
    ensures |Apply(s, p, c).log| >= |s.log| && Apply(s, p, c).log[..|s.log|] == s.log
  {
  }

  /** The builder only appends: earlier output and earlier reports are never changed. */
  lemma {:induction false} RunOnlyAppends(s: BuilderState, p: real, calls: seq<Call>)
    ensures |Run(s, p, calls).mw| >= |s.mw| && Run(s, p, calls).mw[..|s.mw|] == s.mw
    ensures |Run(s, p, calls).log| >= |s.log| && Run(s, p, calls).log[..|s.log|] == s.log
  {
    if calls != [] {
      var r := Run(s, p, calls[..|calls| - 1]);
      RunOnlyAppends(s, p, calls[..|calls| - 1]);
      ApplyOnlyAppends(r, p, calls[|calls| - 1]);
      var t := Run(s, p, calls);
      assert t.mw[..|s.mw|] == t.mw[..|r.mw|][..|s.mw|];
      assert t.log[..|s.log|] == t.log[..|r.log|][..|s.log|];
    }
  }

  /** The enumeration never leaves an override pending, closed or open. */
  lemma EnumerationConsumesOverride(s: BuilderState, p: real, segs: seq<Wire>, closed: bool)
    requires |segs| > 0
    ensures !Run(s, p, Enumeration(segs, closed)).overrideNext
  {
    var e := Enumeration(segs, closed);
    assert e[..|e| - 1] == Pairs(segs);
    var c := e[|e| - 1];
    OverrideOneShot(Run(s, p, Pairs(segs)), p, c.a, segs[0], true);
  }

  /**
   * The wire built so far meets the next segment as the next call receives it
   * (with a pending override applied): its last edge ends on that segment's
   * start, or within `p` of it.
   */
  predicate Meets(s: BuilderState, p: real, b: Wire)
  {
    |s.mw| > 0 &&
    var q := Start(Overridden(s, b));
    s.mw[|s.mw| - 1].end == q || CloserThan(s.mw[|s.mw| - 1].end, q, p)
  }

  /**
   * A pair call only appends to the wire, and either logs the junction as
   * inconsistent or leaves the wire meeting the next segment: within `p`, on
   * a moved vertex, through a connector, or through the override that the
   * next call applies.
   */
  lemma PairStepJunction(s: BuilderState, p: real, a: Wire, b: Wire, last: bool)
    ensures var r := PairStep(s, p, a, b, last);
      s.mw <= r.mw && (r.log == s.log + [InconsistentSegments] || Meets(r, p, b))
  {
    var w1 := Overridden(s, a);
    var p1, p2 := End(w1), Start(b);
    var r := PairStep(s, p, a, b, last);
    MoveEndVertex(w1, p2);
    if r.overrideNext {
      assert Overridden(r, b)[0].start == p1;
    }
  }

  /** Running two call sequences one after the other is running their concatenation. */
  lemma {:induction false} RunSplit(s: BuilderState, p: real, c1: seq<Call>, c2: seq<Call>)
    ensures Run(s, p, c1 + c2) == Run(Run(s, p, c1), p, c2)
  {
    if c2 == [] {
      assert c1 + c2 == c1;
    } else {
      RunSplit(s, p, c1, c2[..|c2| - 1]);
      assert (c1 + c2)[..|c1 + c2| - 1] == c1 + c2[..|c2| - 1];
    }
  }

  /**
   * Junction `i` of a run from a fresh builder: the wire built by the first
   * `i + 1` calls is kept as a prefix of the final wire, and call `i` either
   * logged the junction as inconsistent or left that wire meeting `next`.
   */
  predicate JunctionHandled(calls: seq<Call>, p: real, i: nat, next: Wire)
    requires i < |calls|
  {
    var before, after := Run(Initial, p, calls[..i]), Run(Initial, p, calls[..i + 1]);
    after.mw <= Run(Initial, p, calls).mw &&
    (after.log == before.log + [InconsistentSegments] || Meets(after, p, next))
  }

  /** Every pair call of a run handles its junction with the segment it was given as next. */
  lemma CallJunction(calls: seq<Call>, p: real, i: nat)
    requires i < |calls| && calls[i].PairCall?
    ensures JunctionHandled(calls, p, i, calls[i].b)
  {
    var before := Run(Initial, p, calls[..i]);
    assert calls[..i + 1][..i] == calls[..i];
    var after := Run(Initial, p, calls[..i + 1]);
    assert after == PairStep(before, p, calls[i].a, calls[i].b, calls[i].last);
    PairStepJunction(before, p, calls[i].a, calls[i].b, calls[i].last);
    assert calls == calls[..i + 1] + calls[i + 1..];
    RunSplit(Initial, p, calls[..i + 1], calls[i + 1..]);
    RunOnlyAppends(after, p, calls[i + 1..]);
  }

  /** Junction `i` of the enumeration: between segment `i` and the next one, cyclically. */
  predicate SegmentJunction(segs: seq<Wire>, closed: bool, p: real, i: nat)
    requires i < |segs|
  {
    JunctionHandled(Enumeration(segs, closed), p, i, segs[if i + 1 < |segs| then i + 1 else 0])
  }

  /**
   * The builder keeps the segments connected: at every junction of the
   * enumeration, and at the closing junction of a closed one, it either logs
   * an inconsistent junction or leaves the wire built so far, a prefix of the
   * final wire, meeting the next segment.
   */
  lemma EnumerationConnected(segs: seq<Wire>, closed: bool, p: real)
    requires |segs| > 0
    ensures forall i :: 0 <= i < |segs| - 1 ==> SegmentJunction(segs, closed, p, i)
    ensures closed ==> SegmentJunction(segs, closed, p, |segs| - 1)
  {
    var e := Enumeration(segs, closed);
    EnumerationCalls(segs, closed);
    forall i | 0 <= i < |segs| - 1
      ensures SegmentJunction(segs, closed, p, i)
    {
      assert e[i] == PairCall(segs[i], segs[i + 1], false);
      CallJunction(e, p, i);
    }
    if closed {
      CallJunction(e, p, |segs| - 1);
    }
  }

  /** Consecutive segments (and, when closing, last and first) meet within the precision. */
  predicate GapFree(segs: seq<Wire>, closed: bool, p: real)
  {
    |segs| > 0 &&
    (forall i :: 0 <= i < |segs| - 1 ==> CloserThan(End(segs[i]), Start(segs[i + 1]), p)) &&
    (closed ==> CloserThan(End(segs[|segs| - 1]), Start(segs[0]), p))
  }

  lemma {:induction false} GapFreePrefix(segs: seq<Wire>, closed: bool, p: real, k: nat)
    requires GapFree(segs, closed, p)
    requires k < |segs|
    ensures Run(Initial, p, Enumeration(segs, closed)[..k]) ==
      BuilderState(Flatten(segs[..k]), false, Origin, [])
  {
    EnumerationCalls(segs, closed);
    var e := Enumeration(segs, closed);
    if k > 0 {
      GapFreePrefix(segs, closed, p, k - 1);
      assert e[..k][..k - 1] == e[..k - 1];
      assert segs[..k][..k - 1] == segs[..k - 1];
      assert e[..k][k - 1] == PairCall(segs[k - 1], segs[k], false);
    }
  }

  /**
   * Re-assembling segments that already meet within the precision gives their
   * plain concatenation, with no report and no override left behind; when
   * closing, the result is a closed wire.
   */
  lemma GapFreeAssembly(segs: seq<Wire>, closed: bool, p: real)
    requires GapFree(segs, closed, p)
    ensures Run(Initial, p, Enumeration(segs, closed)) == BuilderState(Flatten(segs), false, Origin, [])
    ensures closed ==> Closed(Flatten(segs), p)
  {
    var n := |segs|;
    var e := Enumeration(segs, closed);
    EnumerationCalls(segs, closed);
    GapFreePrefix(segs, closed, p, n - 1);
    var before := Run(Initial, p, e[..n - 1]);
    assert e[..n] == e;
    assert Run(Initial, p, e) == Apply(before, p, e[n - 1]);
    assert Overridden(before, segs[n - 1]) == segs[n - 1];
    if closed {
      JoinBelowPrecision(before, p, segs[n - 1], segs[0], true);
    }
    assert segs[..n - 1] + [segs[n - 1]] == segs;
    assert Flatten(segs) == Flatten(segs[..n - 1]) + segs[n - 1];
    FlattenFirst(segs);
  }

  // ---------------------------------------------------------------------------
  // The builder object and the enumeration
  // ---------------------------------------------------------------------------

  class WireBuilder {
    var mw: seq<Edge>
    const p: real
    var overrideNext: bool
    var nextOverride: Point
    var log: seq<Report>

    function State(): BuilderState
      reads this
    {
      BuilderState(mw, overrideNext, nextOverride, log)
    }

    constructor (p: real)
      ensures this.p == p && State() == Initial
    {
      this.p := p;
      mw := [];
      overrideNext := false;
      nextOverride := Origin;
      log := [];
    }

    /** Appends the last segment of an open sequence, applying a pending override. */
    method Add(a: Wire)
      modifies this
      ensures State() == SingleStep(old(State()), a)
      ensures !overrideNext
    {
      if overrideNext {
        overrideNext := false;
        mw := mw + MoveVertex(a, a[0].start, nextOverride);
      } else {
        mw := mw + a;
      }
    }

    /** Appends `a`, joining its end to the start of `b`; `last` marks the closing pair. */
    method AddPair(a: Wire, b: Wire, last: bool)
      modifies this
      ensures State() == PairStep(old(State()), p, a, b, last)
      ensures last ==> !overrideNext
    {
      var w1 := a;
      if overrideNext {
        overrideNext := false;
        w1 := MoveVertex(w1, w1[0].start, nextOverride);
      }
      var p1 := End(w1);
      var p2 := Start(b);
      if CloserThan(p1, p2, p) {
        mw := mw + w1;
      } else if FartherThan(p1, p2, 1000.0 * p) {
        mw := mw + w1 + [Connector(p1, p2)];
        log := log + [GapBridged(SqDist(p1, p2))];
      } else if Incidence(w1, p1) == 1 && Incidence(b, p2) == 1 {
        if LastEdge(w1).kind == Line {
          mw := mw + MoveVertex(w1, p1, p2);
          log := log + [EndpointAdjusted(SqDist(p1, p2))];
        } else if FirstEdge(b).kind == Line && !last {
          mw := mw + w1;
          overrideNext := true;
          nextOverride := p1;
          log := log + [EndpointAdjusted(SqDist(p1, p2))];
        } else {
          mw := mw + w1 + [Connector(p1, p2)];
          log := log + [GapBridged(SqDist(p1, p2))];
        }
      } else {
        log := log + [InconsistentSegments];
        mw := mw + w1;
      }
    }
  }

  /**
   * Calls the builder on every consecutive pair of `segs`, then on the closing
   * pair (last, first) when `closed`, otherwise on the last segment alone.
   */
  method ShapePairEnumerate(segs: seq<Wire>, fn: WireBuilder, closed: bool)
    requires |segs| > 0
    modifies fn
    ensures fn.State() == Run(old(fn.State()), fn.p, Enumeration(segs, closed))
  {
    ghost var s0 := fn.State();
    ghost var e := Enumeration(segs, closed);
    EnumerationCalls(segs, closed);
    var isFirst := true;
    var first, previous, current := segs[0], segs[0], segs[0];
    var i := 0;
    while i < |segs|
      invariant 0 <= i <= |segs|
      invariant isFirst <==> i == 0
      invariant i > 0 ==> first == segs[0] && previous == segs[i - 1] && current == segs[i - 1]
      invariant fn.State() == Run(s0, fn.p, e[..if i == 0 then 0 else i - 1])
    {
      current := segs[i];
      if isFirst {
        first := current;
      } else {
        assert e[..i][..i - 1] == e[..i - 1];
        fn.AddPair(previous, current, false);
      }
      previous := current;
      i, isFirst := i + 1, false;
    }
    assert e[..|segs|][..|segs| - 1] == e[..|segs| - 1];
    assert e[..|segs|] == e;
    assert Run(s0, fn.p, e) == Apply(fn.State(), fn.p, e[|segs| - 1]);
    if closed {
      fn.AddPair(current, first, true);
    } else {
      fn.Add(current);
    }
  }
}

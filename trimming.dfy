/**
 * Conversion of a trimmed curve: the two trims are sorted into two slots by
 * the sense agreement, then one edge is made from cartesian trims, from
 * parameter trims, or as a straight line between the trim points.
 */
module Trimming {
  import opened Options
  import opened Geometry

  /** One entry of a trim: a cartesian point or a curve parameter value. */
  datatype TrimSelect = TrimPoint(pnt: Point) | TrimParameter(value: real)

  datatype TrimmingPreference = CartesianPreferred | ParameterPreferred | Unspecified

  datatype BasisKind = LineBasis | CircleBasis | EllipseBasis | OtherBasis

  predicate IsConic(k: BasisKind)
  {
    k == CircleBasis || k == EllipseBasis
  }

  datatype TrimmedCurve = TrimmedCurve(
    basis: BasisKind,
    trim1: seq<TrimSelect>,
    trim2: seq<TrimSelect>,
    senseAgreement: bool,
    masterRepresentation: TrimmingPreference)

  /** Parameter values of conics are angles; all others are lengths. */
  function ParameterFactor(basis: BasisKind, planeAngleUnit: real, lengthUnit: real): real
  {
    if IsConic(basis) then planeAngleUnit else lengthUnit
  }

  /** The last cartesian point of a trim, if it has one. */
  function LastPoint(trims: seq<TrimSelect>): Option<Point>
  {
    if trims == [] then None
    else if trims[|trims| - 1].TrimPoint? then Some(trims[|trims| - 1].pnt)
    else LastPoint(trims[..|trims| - 1])
  }

  /** The last parameter value of a trim, if it has one. */
  function LastParameter(trims: seq<TrimSelect>): Option<real>
  {
    if trims == [] then None
    else if trims[|trims| - 1].TrimParameter? then Some(trims[|trims| - 1].value)
    else LastParameter(trims[..|trims| - 1])
  }

  /**
   * `LastPoint` finds the entry after which no cartesian point follows: the
   * trim holds `TrimPoint(q)` at some index and no point entry after it.
   */
  lemma {:induction false} LastPointIsLatest(trims: seq<TrimSelect>, q: Point)
    ensures LastPoint(trims) == Some(q) <==>
      exists i :: 0 <= i < |trims| && trims[i] == TrimPoint(q) &&
        forall j :: i < j < |trims| ==> !trims[j].TrimPoint?
    ensures LastPoint(trims) == None <==> forall j :: 0 <= j < |trims| ==> !trims[j].TrimPoint?
  {
    if trims != [] {
      var init := trims[..|trims| - 1];
      LastPointIsLatest(init, q);
      assert forall j :: 0 <= j < |init| ==> init[j] == trims[j];
      if trims[|trims| - 1].TrimPoint? {
        if LastPoint(trims) != Some(q) {
          // the only candidate index is the last one, which holds another point
          forall i | 0 <= i < |trims| && trims[i] == TrimPoint(q)
            ensures exists j :: i < j < |trims| && trims[j].TrimPoint?
          {
            assert i != |trims| - 1;
            assert trims[|trims| - 1].TrimPoint?;
          }
        }
      } else {
        if LastPoint(init) == Some(q) {
          var i :| 0 <= i < |init| && init[i] == TrimPoint(q) &&
            forall j :: i < j < |init| ==> !init[j].TrimPoint?;
          assert trims[i] == TrimPoint(q);
        }
      }
    }
  }

  function Scaled(v: Option<real>, factor: real): Option<real>
  {
    if v.Some? then Some(v.value * factor) else None
  }

  /** Scaling a present parameter value scales the value. */
  lemma ScaledValue(v: real, factor: real)
    ensures Scaled(Some(v), factor) == Some(v * factor)
  {
    var r := Scaled(Some(v), factor);
    assert r.Some? && r.value == v * factor;
  }

  /** The two trim slots: a point and a parameter each, either of which may be missing. */
  datatype TrimSlots = TrimSlots(
    point0: Option<Point>, point1: Option<Point>,
    param0: Option<real>, param1: Option<real>)

  /**
   * Trim1 fills slot 0 and Trim2 slot 1 when the senses agree, the other way
   * round when they do not; within a trim the last entry of a kind wins.
   */
  function SlotsOf(trim1: seq<TrimSelect>, trim2: seq<TrimSelect>, senseAgreement: bool, factor: real): TrimSlots
  {
    var a1, a2 := LastPoint(trim1), LastPoint(trim2);
    var f1, f2 := Scaled(LastParameter(trim1), factor), Scaled(LastParameter(trim2), factor);
    if senseAgreement then TrimSlots(a1, a2, f1, f2) else TrimSlots(a2, a1, f2, f1)
  }

  /** The content of one slot of the kernel's arrays: its value when its flag is set. */
  function Slot<T>(has: bool, v: T): Option<T>
  {
    if has then Some(v) else None
  }

  /** Reads both trims into the slot arrays; Trim1 goes to slot `s`, Trim2 to slot `t == 1 - s`. */
  method CollectTrims(trim1: seq<TrimSelect>, trim2: seq<TrimSelect>, senseAgreement: bool, factor: real)
    returns (slots: TrimSlots)
    ensures slots == SlotsOf(trim1, trim2, senseAgreement, factor)
  {
    var s: nat := if senseAgreement then 0 else 1;
    var t: nat := 1 - s;
    var flts := new real[2];
    var pnts := new Point[2](_ => Origin);
    var hasFlts := new bool[2](_ => false);
    var hasPnts := new bool[2](_ => false);

    var i := 0;
    while i < |trim1|
      invariant 0 <= i <= |trim1|
      invariant Slot(hasPnts[s], pnts[s]) == LastPoint(trim1[..i])
      invariant Slot(hasFlts[s], flts[s]) == Scaled(LastParameter(trim1[..i]), factor)
      invariant !hasPnts[t] && !hasFlts[t]
    {
      assert trim1[..i + 1][..i] == trim1[..i];
      match trim1[i] {
        case TrimPoint(q) =>
          assert LastParameter(trim1[..i + 1]) == LastParameter(trim1[..i]);
          pnts[s] := q;
          hasPnts[s] := true;
        case TrimParameter(v) =>
          assert LastParameter(trim1[..i + 1]) == Some(v);
          ScaledValue(v, factor);
          flts[s] := v * factor;
          hasFlts[s] := true;
      }
      i := i + 1;
    }
    assert trim1[..|trim1|] == trim1;

    var j := 0;
    while j < |trim2|
      invariant 0 <= j <= |trim2|
      invariant Slot(hasPnts[s], pnts[s]) == LastPoint(trim1)
      invariant Slot(hasFlts[s], flts[s]) == Scaled(LastParameter(trim1), factor)
      invariant Slot(hasPnts[t], pnts[t]) == LastPoint(trim2[..j])
      invariant Slot(hasFlts[t], flts[t]) == Scaled(LastParameter(trim2[..j]), factor)
    {
      assert trim2[..j + 1][..j] == trim2[..j];
      match trim2[j] {
        case TrimPoint(q) =>
          assert LastParameter(trim2[..j + 1]) == LastParameter(trim2[..j]);
          pnts[t] := q;
          hasPnts[t] := true;
        case TrimParameter(v) =>
          assert LastParameter(trim2[..j + 1]) == Some(v);
          ScaledValue(v, factor);
          flts[t] := v * factor;
          hasFlts[t] := true;
      }
      j := j + 1;
    }
    assert trim2[..|trim2|] == trim2;

    slots := TrimSlots(Slot(hasPnts[0], pnts[0]), Slot(hasPnts[1], pnts[1]),
                       Slot(hasFlts[0], flts[0]), Slot(hasFlts[1], flts[1]));
  }

  /** Result of making an edge on the basis curve between two trim vertices. */
  datatype EdgeStatus = EdgeDone | PointProjectionFailed | OtherEdgeError

  /** The edge a trimmed curve becomes. */
  datatype TrimEdge =
    | CurveByPoints(a: Point, b: Point)        // on the basis curve, between the cartesian trims
    | CurveByParameters(u0: real, u1: real)    // on the basis curve, between the parameter trims
    | StraightEdge(a: Point, b: Point)         // a straight line between the cartesian trims

  datatype TrimOutcome =
    | BasisNotConverted
    | BelowTolerance    // cartesian trims closer than twice the precision
    | NoEdge            // nothing was added to the wire
    | EdgeNotDone       // the straight line between coincident trims cannot be made; adding it raises
    | Trimmed(edge: TrimEdge, reversed: bool)

  /** The branch choice: cartesian trims, then parameter trims, then a straight line. */
  function TrimWire(pref: TrimmingPreference, slots: TrimSlots, senseAgreement: bool, precision: real,
                    makeEdge: (Point, Point) -> EdgeStatus): TrimOutcome
  {
    var trimCartesian := pref != ParameterPreferred && slots.point0.Some? && slots.point1.Some?;
    if trimCartesian && CloserThan(slots.point0.value, slots.point1.value, 2.0 * precision) then
      BelowTolerance
    else
      var status := if trimCartesian then makeEdge(slots.point0.value, slots.point1.value) else OtherEdgeError;
      var cartesianFailed := !trimCartesian || status == PointProjectionFailed;
      var edge :=
        if (!trimCartesian || cartesianFailed) && slots.param0.Some? && slots.param1.Some? then
          Some(CurveByParameters(slots.param0.value, slots.param1.value))
        else if cartesianFailed && slots.point0.Some? && slots.point1.Some? then
          Some(StraightEdge(slots.point0.value, slots.point1.value))
        else if trimCartesian && status == EdgeDone then
          Some(CurveByPoints(slots.point0.value, slots.point1.value))
        else
          None;
      match edge
      case None => NoEdge
      case Some(e) =>
        if e.StraightEdge? && Coincident(e.a, e.b) then EdgeNotDone else Trimmed(e, !senseAgreement)
  }

  /**
   * The whole trimmed-curve conversion under the given settings: the reference
   * definition that `ConvertTrimmedCurve` below is proved equal to.
   */
  function TrimmedConversion(c: TrimmedCurve, basisConverted: bool, makeEdge: (Point, Point) -> EdgeStatus,
                             precision: real, planeAngleUnit: real, lengthUnit: real): TrimOutcome
  {
    if !basisConverted then BasisNotConverted
    else
      var factor := ParameterFactor(c.basis, planeAngleUnit, lengthUnit);
      TrimWire(c.masterRepresentation, SlotsOf(c.trim1, c.trim2, c.senseAgreement, factor),
               c.senseAgreement, precision, makeEdge)
  }

  method ConvertTrimmedCurve(c: TrimmedCurve, basisConverted: bool, makeEdge: (Point, Point) -> EdgeStatus,
                             precision: real, planeAngleUnit: real, lengthUnit: real)
    returns (r: TrimOutcome)
    ensures r == TrimmedConversion(c, basisConverted, makeEdge, precision, planeAngleUnit, lengthUnit)
  {
    var factor := ParameterFactor(c.basis, planeAngleUnit, lengthUnit);
    if !basisConverted {
      return BasisNotConverted;
    }
    var slots := CollectTrims(c.trim1, c.trim2, c.senseAgreement, factor);
    r := TrimWire(c.masterRepresentation, slots, c.senseAgreement, precision, makeEdge);
  }

  // ---------------------------------------------------------------------------
  // Properties of the branch choice
  // ---------------------------------------------------------------------------

  /** Both cartesian trims, not parameter-preferred, far enough apart, edge made: the cartesian edge. */
  lemma CartesianTrimFirst(pref: TrimmingPreference, slots: TrimSlots, sense: bool, precision: real,
                           makeEdge: (Point, Point) -> EdgeStatus)
    requires pref != ParameterPreferred && slots.point0.Some? && slots.point1.Some?
    requires !CloserThan(slots.point0.value, slots.point1.value, 2.0 * precision)
    requires makeEdge(slots.point0.value, slots.point1.value) == EdgeDone
    ensures TrimWire(pref, slots, sense, precision, makeEdge) ==
      Trimmed(CurveByPoints(slots.point0.value, slots.point1.value), !sense)
  {
  }

  /** Cartesian trims shorter than twice the precision reject the curve, whatever else is there. */
  lemma ShortCartesianTrimRejected(pref: TrimmingPreference, slots: TrimSlots, sense: bool, precision: real,
                                   makeEdge: (Point, Point) -> EdgeStatus)
    requires pref != ParameterPreferred && slots.point0.Some? && slots.point1.Some?
    requires CloserThan(slots.point0.value, slots.point1.value, 2.0 * precision)
    ensures TrimWire(pref, slots, sense, precision, makeEdge) == BelowTolerance
  {
  }

  /**
   * Parameter trims are used when cartesian trimming is not chosen or its
   * point projection failed.
   */
  lemma ParameterTrimSecond(pref: TrimmingPreference, slots: TrimSlots, sense: bool, precision: real,
                            makeEdge: (Point, Point) -> EdgeStatus)
    requires slots.param0.Some? && slots.param1.Some?
    requires var cartesian := pref != ParameterPreferred && slots.point0.Some? && slots.point1.Some?;
      !cartesian ||
      (!CloserThan(slots.point0.value, slots.point1.value, 2.0 * precision) &&
       makeEdge(slots.point0.value, slots.point1.value) == PointProjectionFailed)
    ensures TrimWire(pref, slots, sense, precision, makeEdge) ==
      Trimmed(CurveByParameters(slots.param0.value, slots.param1.value), !sense)
  {
  }

  /**
   * Without both parameter trims, failing cartesian trimming falls back to a
   * straight line, which cannot be made between coincident trims.
   */
  lemma StraightLineLast(pref: TrimmingPreference, slots: TrimSlots, sense: bool, precision: real,
                         makeEdge: (Point, Point) -> EdgeStatus)
    requires slots.point0.Some? && slots.point1.Some?
    requires !(slots.param0.Some? && slots.param1.Some?)
    requires pref == ParameterPreferred ||
      (!CloserThan(slots.point0.value, slots.point1.value, 2.0 * precision) &&
       makeEdge(slots.point0.value, slots.point1.value) == PointProjectionFailed)
    ensures TrimWire(pref, slots, sense, precision, makeEdge) ==
      if Coincident(slots.point0.value, slots.point1.value) then EdgeNotDone
      else Trimmed(StraightEdge(slots.point0.value, slots.point1.value), !sense)
  {
  }

  /**
   * No edge is made exactly when the cartesian edge failed for another reason,
   * or when neither both points nor both parameters are available.
   */
  lemma NoEdgeCases(pref: TrimmingPreference, slots: TrimSlots, sense: bool, precision: real,
                    makeEdge: (Point, Point) -> EdgeStatus)
    ensures var bothPoints := slots.point0.Some? && slots.point1.Some?;
      var bothParams := slots.param0.Some? && slots.param1.Some?;
      var cartesian := pref != ParameterPreferred && bothPoints;
      TrimWire(pref, slots, sense, precision, makeEdge) == NoEdge <==>
        if cartesian then
          !CloserThan(slots.point0.value, slots.point1.value, 2.0 * precision) &&
          makeEdge(slots.point0.value, slots.point1.value) == OtherEdgeError
        else
          !bothParams && !bothPoints
  {
  }

  /** A built wire is reversed exactly when the senses disagree. */
  lemma ReversedIffSenseDisagrees(pref: TrimmingPreference, slots: TrimSlots, sense: bool, precision: real,
                                  makeEdge: (Point, Point) -> EdgeStatus)
    ensures var r := TrimWire(pref, slots, sense, precision, makeEdge);
      r.Trimmed? ==> r.reversed == !sense
  {
  }
}

/**
 * Conversion of a composite curve: its segments are converted one by one and
 * joined by the wire builder; when the model declares no plane-angle unit, the
 * whole conversion is tried once in radians and once in degrees and one of the
 * two results is selected.
 */
module Composite {
  import opened Options
  import opened Geometry
  import opened WireBuilding

  /** Plane-angle unit factors: radians, degrees, and the "no unit information" marker. */
  const RadiansFactor: real := 1.0
  const DegreesFactor: real := 0.0174532925199433
  const UnknownUnit: real := -1.0

  /** Reference to a parent curve, converted by the (external) wire conversion. */
  type CurveRef = nat

  datatype CompositeSegment = CompositeSegment(parentCurve: CurveRef, sameSense: bool)

  /**
   * A composite curve: its segments and the number of profile definitions that
   * refer to it (a profile boundary must be closed).
   */
  datatype CompositeCurve = CompositeCurve(segments: seq<CompositeSegment>, profileUsers: nat)

  /** Outcome of the external wire conversion of one parent curve under a plane-angle unit. */
  datatype SegmentConversion =
    | Converted(wire: Wire)
    | NotConverted  // the conversion returned false: the segment is skipped
    | Raised        // the conversion threw

  /** Outcome of the segment path: a built wire, or an exception. */
  datatype Assembly = Assembled(wire: seq<Edge>) | AssemblyRaised

  datatype CompositeOutcome =
    | CompositeBuilt(wire: seq<Edge>)
    | CompositeFailed   // unknown unit and neither trial succeeded
    | CompositeRaised   // known unit and the segment path threw

  /** A converted segment in the direction the composite curve uses it. */
  function Oriented(w: Wire, sameSense: bool): Wire
  {
    if sameSense then w else Reversed(w)
  }

  /**
   * The converted segments, in order: failed conversions are skipped, a thrown
   * conversion aborts (None).
   */
  function CollectSegments(segs: seq<CompositeSegment>, convertWire: (CurveRef, real) -> SegmentConversion,
                           unit: real): Option<seq<Wire>>
  {
    if segs == [] then Some([])
    else
      match CollectSegments(segs[..|segs| - 1], convertWire, unit)
      case None => None
      case Some(acc) =>
        var seg := segs[|segs| - 1];
        match convertWire(seg.parentCurve, unit)
        case Raised => None
        case NotConverted => Some(acc)
        case Converted(w) => Some(acc + [Oriented(w, seg.sameSense)])
  }

  /** The number of segments whose conversion succeeds. */
  function ConvertedCount(segs: seq<CompositeSegment>, convertWire: (CurveRef, real) -> SegmentConversion,
                          unit: real): nat
  {
    if segs == [] then 0
    else ConvertedCount(segs[..|segs| - 1], convertWire, unit)
         + (if convertWire(segs[|segs| - 1].parentCurve, unit).Converted? then 1 else 0)
  }

  /** Once a conversion has thrown, the whole collection has. */
  lemma {:induction false} CollectRaisedPrefix(segs: seq<CompositeSegment>,
                                                convertWire: (CurveRef, real) -> SegmentConversion,
                                                unit: real, k: nat)
    requires k <= |segs|
    requires CollectSegments(segs[..k], convertWire, unit) == None
    ensures CollectSegments(segs, convertWire, unit) == None
    decreases |segs| - k
  {
    if k < |segs| {
      assert segs[..k + 1][..k] == segs[..k];
      CollectRaisedPrefix(segs, convertWire, unit, k + 1);
    } else {
      assert segs[..k] == segs;
    }
  }

  /** Skipped segments are exactly the ones that failed: one wire per successful conversion. */
  lemma {:induction false} CollectKeepsConverted(segs: seq<CompositeSegment>,
                                                  convertWire: (CurveRef, real) -> SegmentConversion,
                                                  unit: real)
    requires CollectSegments(segs, convertWire, unit).Some?
    ensures |CollectSegments(segs, convertWire, unit).value| == ConvertedCount(segs, convertWire, unit)
  {
    if segs != [] {
      CollectKeepsConverted(segs[..|segs| - 1], convertWire, unit);
    }
  }

  /**
   * A segment whose conversion fails is skipped: the collection is the one of
   * the list without it. With `CollectAllConverted` this fixes the contents of
   * every collection.
   */
  lemma {:induction false} CollectSkipsNotConverted(segs: seq<CompositeSegment>,
                                                     convertWire: (CurveRef, real) -> SegmentConversion,
                                                     unit: real, i: nat)
    requires i < |segs|
    requires convertWire(segs[i].parentCurve, unit).NotConverted?
    ensures CollectSegments(segs, convertWire, unit) == CollectSegments(segs[..i] + segs[i + 1..], convertWire, unit)
  {
    var init := segs[..|segs| - 1];
    var rest := segs[..i] + segs[i + 1..];
    if i == |segs| - 1 {
      assert rest == init;
    } else {
      assert init[i] == segs[i];
      CollectSkipsNotConverted(init, convertWire, unit, i);
      assert rest[..|rest| - 1] == init[..i] + init[i + 1..];
      assert rest[|rest| - 1] == segs[|segs| - 1];
    }
  }

  /**
   * The segment loop: converts each segment under `unit`, reversing it when its
   * SameSense flag is false; a segment whose conversion throws ends the loop.
   */
  method CollectConverted(segs: seq<CompositeSegment>, convertWire: (CurveRef, real) -> SegmentConversion,
                          unit: real)
    returns (r: Option<seq<Wire>>)
    ensures r == CollectSegments(segs, convertWire, unit)
  {
    var converted: seq<Wire> := [];
    var i := 0;
    while i < |segs|
      invariant 0 <= i <= |segs|
      invariant CollectSegments(segs[..i], convertWire, unit) == Some(converted)
    {
      var seg := segs[i];
      assert segs[..i + 1][..i] == segs[..i];
      var conversion := convertWire(seg.parentCurve, unit);
      if conversion.Raised? {
        CollectRaisedPrefix(segs, convertWire, unit, i + 1);
        return None;
      }
      if conversion.Converted? {
        var segment := conversion.wire;
        if !seg.sameSense {
          segment := Reversed(segment);
        }
        converted := converted + [segment];
      }
      i := i + 1;
    }
    assert segs[..|segs|] == segs;
    r := Some(converted);
  }

  /**
   * When every segment converts, the collection is the converted wires in
   * segment order, each reversed exactly when its SameSense flag is false.
   */
  lemma {:induction false} CollectAllConverted(segs: seq<CompositeSegment>,
                                                convertWire: (CurveRef, real) -> SegmentConversion,
                                                unit: real)
    requires forall i :: 0 <= i < |segs| ==> convertWire(segs[i].parentCurve, unit).Converted?
    ensures var r := CollectSegments(segs, convertWire, unit);
      r.Some? && |r.value| == |segs| &&
      forall i :: 0 <= i < |segs| ==>
        r.value[i] == Oriented(convertWire(segs[i].parentCurve, unit).wire, segs[i].sameSense)
  {
    if segs != [] {
      var init := segs[..|segs| - 1];
      assert forall i :: 0 <= i < |init| ==> init[i] == segs[i];
      CollectAllConverted(init, convertWire, unit);
    }
  }

  /** A profile boundary is closed by the builder, any other composite curve is left open. */
  function ForceClose(c: CompositeCurve): bool
  {
    c.profileUsers > 0
  }

  /** The wire the builder makes from the converted segments. */
  function AssembleSegments(ws: seq<Wire>, closed: bool, p: real): seq<Edge>
    requires |ws| > 0
  {
    Run(Initial, p, Enumeration(ws, closed)).mw
  }

  /**
   * The conversion of a composite curve when the plane-angle unit is known.
   * With no converted segment the builder has no wire to hand back, which raises.
   * This is the reference definition that `Kernel.ConvertSegments` is proved equal to.
   */
  function SegmentPath(c: CompositeCurve, convertWire: (CurveRef, real) -> SegmentConversion,
                       unit: real, p: real): Assembly
  {
    match CollectSegments(c.segments, convertWire, unit)
    case None => AssemblyRaised
    case Some(ws) =>
      if ws == [] then AssemblyRaised else Assembled(AssembleSegments(ws, ForceClose(c), p))
  }

  datatype AngleUnit = Radians | Degrees

  /** Which trial of an unknown-unit composite curve is used, if any. */
  function SelectUnit(successR: bool, successD: bool, closedR: bool, closedD: bool): (r: Option<AngleUnit>)
    ensures r.Some? <==> successR || successD
    ensures r == Some(Radians) ==> successR
    ensures r == Some(Degrees) ==> successD
    ensures successR && !successD ==> r == Some(Radians)
    ensures successD && !successR ==> r == Some(Degrees)
    ensures successR && successD && closedR != closedD ==> r == Some(if closedR then Radians else Degrees)
    ensures successR && successD && closedR == closedD ==> r == Some(Radians)
  {
    if successD && !successR then Some(Degrees)
    else if successR && !successD then Some(Radians)
    else if successR && successD then
      if closedD && !closedR then Some(Degrees)
      else if closedR && !closedD then Some(Radians)
      else Some(Radians)
    else None
  }

  /** Preference among trials: success first, then a closed wire, then radians. */
  function Rank(success: bool, closed: bool, radians: bool): nat
  {
    (if success then 4 else 0) + (if success && closed then 2 else 0) + (if radians then 1 else 0)
  }

  /** The selection takes the better-ranked trial, and only if that one succeeded. */
  lemma SelectUnitTakesBestRanked(successR: bool, successD: bool, closedR: bool, closedD: bool)
    ensures var best := if Rank(successR, closedR, true) > Rank(successD, closedD, false)
                        then Radians else Degrees;
      SelectUnit(successR, successD, closedR, closedD) ==
        if (best == Radians && successR) || (best == Degrees && successD) then Some(best) else None
  {
  }

  function TrialClosed(a: Assembly, p: real): bool
  {
    a.Assembled? && Closed(a.wire, p)
  }

  /**
   * The whole composite-curve conversion, as a function of the plane-angle unit
   * it starts with: the reference definition that `Kernel.ConvertCompositeCurve`
   * is proved equal to.
   */
  function CompositeConversion(c: CompositeCurve, convertWire: (CurveRef, real) -> SegmentConversion,
                               unit: real, p: real): CompositeOutcome
  {
    if unit < 0.0 then
      var r := SegmentPath(c, convertWire, RadiansFactor, p);
      var d := SegmentPath(c, convertWire, DegreesFactor, p);
      match SelectUnit(r.Assembled?, d.Assembled?, TrialClosed(r, p), TrialClosed(d, p))
      case None => CompositeFailed
      case Some(Radians) => CompositeBuilt(r.wire)
      case Some(Degrees) => CompositeBuilt(d.wire)
    else
      match SegmentPath(c, convertWire, unit, p)
      case AssemblyRaised => CompositeRaised
      case Assembled(w) => CompositeBuilt(w)
  }

  /**
   * With no unit information the conversion succeeds iff one of the two trials
   * does, and then hands back the wire of the trial the selection rule picks;
   * it never raises.
   */
  lemma UnknownUnitResolution(c: CompositeCurve, convertWire: (CurveRef, real) -> SegmentConversion, p: real)
    ensures var r, d := SegmentPath(c, convertWire, RadiansFactor, p), SegmentPath(c, convertWire, DegreesFactor, p);
      var out := CompositeConversion(c, convertWire, UnknownUnit, p);
      && (out.CompositeBuilt? <==> r.Assembled? || d.Assembled?)
      && !out.CompositeRaised?
      && (r.Assembled? && !d.Assembled? ==> out == CompositeBuilt(r.wire))
      && (d.Assembled? && !r.Assembled? ==> out == CompositeBuilt(d.wire))
      && (r.Assembled? && d.Assembled? ==>
            out == CompositeBuilt(if TrialClosed(d, p) && !TrialClosed(r, p) then d.wire else r.wire))
  {
  }

  /** The kernel's conversion settings; the plane-angle unit is changed during unit trials. */
  class Kernel {
    var planeAngleUnit: real
    const precision: real
    const lengthUnit: real

    constructor (precision: real, lengthUnit: real, planeAngleUnit: real)
      ensures this.precision == precision && this.lengthUnit == lengthUnit
      ensures this.planeAngleUnit == planeAngleUnit
    {
      this.precision := precision;
      this.lengthUnit := lengthUnit;
      this.planeAngleUnit := planeAngleUnit;
    }

    /** Converts the segments under the current unit and joins them with the wire builder. */
    method ConvertSegments(c: CompositeCurve, convertWire: (CurveRef, real) -> SegmentConversion)
      returns (r: Assembly)
      ensures r == SegmentPath(c, convertWire, planeAngleUnit, precision)
    {
      var unit, p := planeAngleUnit, precision;
      var collected := CollectConverted(c.segments, convertWire, unit);
      if collected.None? {
        return AssemblyRaised;
      }
      var converted := collected.value;
      var forceClose := c.profileUsers > 0;
      if |converted| == 0 {
        return AssemblyRaised;
      }
      var bld := new WireBuilder(p);
      ShapePairEnumerate(converted, bld, forceClose);
      assert bld.mw == AssembleSegments(converted, forceClose, p);
      r := Assembled(bld.mw);
    }

    /**
     * Converts a composite curve. Without unit information it tries radians,
     * then degrees, restores the unknown unit and selects one trial.
     */
    method ConvertCompositeCurve(c: CompositeCurve, convertWire: (CurveRef, real) -> SegmentConversion)
      returns (r: CompositeOutcome)
      modifies this
      ensures planeAngleUnit == if old(planeAngleUnit) < 0.0 then UnknownUnit else old(planeAngleUnit)
      ensures r == CompositeConversion(c, convertWire, old(planeAngleUnit), precision)
    {
      if planeAngleUnit < 0.0 {
        planeAngleUnit := RadiansFactor;
        var radians := ConvertSegments(c, convertWire);
        planeAngleUnit := DegreesFactor;
        var degrees := ConvertSegments(c, convertWire);
        planeAngleUnit := UnknownUnit;
        var choice := SelectUnit(radians.Assembled?, degrees.Assembled?,
                                 TrialClosed(radians, precision), TrialClosed(degrees, precision));
        match choice
        case Some(Radians) => r := CompositeBuilt(radians.wire);
        case Some(Degrees) => r := CompositeBuilt(degrees.wire);
        case None => r := CompositeFailed;
      } else {
        var a := ConvertSegments(c, convertWire);
        r := if a.Assembled? then CompositeBuilt(a.wire) else CompositeRaised;
      }
    }
  }
}

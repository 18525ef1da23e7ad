/**
 * The multi-constellation aggregator: it owns a GPS and a Galileo
 * constellation, runs their positioning passes according to its flags, and
 * rebuilds its merged observed and unused lists, GPS first.
 */
module Gnss {
  import opened Wrappers
  import opened GnssTypes
  import Gps

  /**
   * The positioning pass of the Galileo constellation, whose class is not
   * part of this model: from its observed and unused lists, its stored
   * receiver position and the new receiver position to its new lists and
   * stored position.
   */
  type GalileoPass = (seq<SatelliteParameters>, seq<SatelliteParameters>, Option<Coordinates>, Coordinates)
                     -> (seq<SatelliteParameters>, seq<SatelliteParameters>, Option<Coordinates>)

  /** The state of the Galileo constellation the aggregator touches. */
  class GalileoConstellation {
    var observed: seq<SatelliteParameters>
    var unused: seq<SatelliteParameters>
    var rxPos: Option<Coordinates>

    constructor()
      ensures observed == [] && unused == [] && rxPos.None?
    {
      observed, unused, rxPos := [], [], None;
    }

    method SetRxPos(p: Coordinates)
      modifies this
      ensures rxPos == Some(p) && observed == old(observed) && unused == old(unused)
    {
      rxPos := Some(p);
    }

    method CalculateSatPosition(pass: GalileoPass, position: Coordinates)
      modifies this
      ensures (observed, unused, rxPos) == pass(old(observed), old(unused), old(rxPos), position)
    {
      var next := pass(observed, unused, rxPos, position);
      observed, unused, rxPos := next.0, next.1, next.2;
    }
  }

  /** `list.add` of each element of `xs` in index order: the result is `acc` followed by `xs`. */
  method AppendEach(acc: seq<SatelliteParameters>, xs: seq<SatelliteParameters>) returns (r: seq<SatelliteParameters>)
    ensures |r| == |acc| + |xs|
    ensures forall k :: 0 <= k < |acc| ==> r[k] == acc[k]
    ensures forall k :: 0 <= k < |xs| ==> r[|acc| + k] == xs[k]
  {
    r := acc;
    var i := 0;
    while i < |xs|
      invariant 0 <= i <= |xs| && r == acc + xs[..i]
    {
      assert xs[..i + 1] == xs[..i] + [xs[i]];
      r := r + [xs[i]];
      i := i + 1;
    }
  }

  class GnssConstellation {
    const gps: Gps.GpsConstellation
    const galileo: GalileoConstellation
    var observed: seq<SatelliteParameters>
    var unused: seq<SatelliteParameters>
    var isGps: bool
    var isGalileo: bool
    var isGlonass: bool
    var isBeidou: bool

    ghost predicate Valid()
      reads this, gps
    {
      gps.Valid()
    }

    /** The constructor stores the four flags; `sdkAtLeastO` is the platform level the GPS intake consults. */
    constructor(isGps: bool, isGalileo: bool, isGlonass: bool, isBeidou: bool, sdkAtLeastO: bool)
      ensures Valid() && fresh(gps) && fresh(galileo)
      ensures this.isGps == isGps && this.isGalileo == isGalileo && this.isGlonass == isGlonass && this.isBeidou == isBeidou
      ensures observed == [] && unused == []
      ensures gps.observed == [] && gps.unused == [] && gps.rxPos.None? && gps.timeRefMsec.None?
      ensures gps.sdkAtLeastO == sdkAtLeastO && !gps.fullBiasNanosInitialized
      ensures galileo.observed == [] && galileo.unused == [] && galileo.rxPos.None?
    {
      gps := new Gps.GpsConstellation(sdkAtLeastO);
      galileo := new GalileoConstellation();
      observed, unused := [], [];
      this.isGps, this.isGalileo, this.isGlonass, this.isBeidou := isGps, isGalileo, isGlonass, isBeidou;
    }

    method SetIsGps(b: bool)
      modifies this
      ensures isGps == b && isGalileo == old(isGalileo) && isGlonass == old(isGlonass) && isBeidou == old(isBeidou)
      ensures observed == old(observed) && unused == old(unused)
    {
      isGps := b;
    }

    method SetIsGalileo(b: bool)
      modifies this
      ensures isGalileo == b && isGps == old(isGps) && isGlonass == old(isGlonass) && isBeidou == old(isBeidou)
      ensures observed == old(observed) && unused == old(unused)
    {
      isGalileo := b;
    }

    method SetIsBeidou(b: bool)
      modifies this
      ensures isBeidou == b && isGps == old(isGps) && isGalileo == old(isGalileo) && isGlonass == old(isGlonass)
      ensures observed == old(observed) && unused == old(unused)
    {
      isBeidou := b;
    }

    method SetIsGlonass(b: bool)
      modifies this
      ensures isGlonass == b && isGps == old(isGps) && isGalileo == old(isGalileo) && isBeidou == old(isBeidou)
      ensures observed == old(observed) && unused == old(unused)
    {
      isGlonass := b;
    }

    /** `getRxPos` reads the GPS constellation's receiver position. */
    function GetRxPos(): (r: Option<Coordinates>)
      reads gps
      ensures r == gps.rxPos
    {
      gps.GetRxPos()
    }

    /** `setRxPos` writes the same position to both constellations and changes nothing else. */
    method SetRxPos(p: Coordinates)
      modifies gps, galileo
      ensures gps.rxPos == Some(p) && galileo.rxPos == Some(p)
      ensures gps.observed == old(gps.observed) && gps.unused == old(gps.unused)
      ensures gps.visibleButNotUsed == old(gps.visibleButNotUsed) && gps.weekNumberNanos == old(gps.weekNumberNanos)
      ensures gps.tRxGps == old(gps.tRxGps) && gps.timeRefMsec == old(gps.timeRefMsec)
      ensures gps.fullBiasNanos == old(gps.fullBiasNanos) && gps.fullBiasNanosInitialized == old(gps.fullBiasNanosInitialized)
      ensures galileo.observed == old(galileo.observed) && galileo.unused == old(galileo.unused)
    {
      gps.SetRxPos(p);
      galileo.SetRxPos(p);
    }

    /** `getTime` reads the GPS constellation's time of the last intake. */
    function GetTime(): (t: Option<int>)
      reads gps
      ensures t == gps.timeRefMsec
    {
      gps.GetTime()
    }

    /** `getSatellite(index)` on the merged list; out of range throws (`None`). */
    function GetSatellite(index: int): (r: Option<SatelliteParameters>)
      reads this
      ensures r.Some? <==> 0 <= index < |observed|
      ensures r.Some? ==> r.value == observed[index]
    {
      if 0 <= index < |observed| then Some(observed[index]) else None
    }

    /** `getSatelliteSignalStrength(index)`: the signal strength of a merged observed satellite. */
    function GetSatelliteSignalStrength(index: int): (r: Option<real>)
      reads this
      ensures r.Some? <==> 0 <= index < |observed|
      ensures r.Some? ==> r.value == observed[index].signalStrength
    {
      match GetSatellite(index)
      case None => None
      case Some(sat) => Some(sat.signalStrength)
    }

    function GetSatellites(): (r: seq<SatelliteParameters>)
      reads this
      ensures r == observed
    {
      observed
    }

    function GetUnusedSatellites(): (r: seq<SatelliteParameters>)
      reads this
      ensures r == unused
    {
      unused
    }

    function GetUsedConstellationSize(): (n: int)
      reads this
      ensures n == |observed|
    {
      |observed|
    }

    function GetVisibleConstellationSize(): (n: int)
      reads this
      ensures n == |observed| + |unused|
    {
      |observed| + |unused|
    }

    /** `updateMeasurements` forwards the epoch to the GPS constellation only, whatever the flags. */
    method UpdateMeasurements(event: Gps.Event, nowMillis: int)
      requires Valid()
      modifies gps
      ensures Valid()
      ensures var e := gps.EpochOf(event.clock);
        gps.observed == Gps.ObservedOf(e, event.measurements, gps.sdkAtLeastO)
        && gps.unused == Gps.UnusedOf(e, event.measurements, gps.sdkAtLeastO)
      ensures gps.timeRefMsec == Some(nowMillis) && gps.rxPos == old(gps.rxPos)
      ensures gps.fullBiasNanosInitialized
      ensures gps.fullBiasNanos == if old(gps.fullBiasNanosInitialized) then old(gps.fullBiasNanos) else event.clock.fullBiasNanos
      ensures gps.tRxGps == Gps.TRxAfter(gps.EpochOf(event.clock), event.measurements, old(gps.tRxGps))
      ensures gps.weekNumberNanos ==
        if Gps.HasGpsL1(event.measurements) then Gps.WeekStartNanos(gps.fullBiasNanos) else old(gps.weekNumberNanos)
      ensures gps.visibleButNotUsed == |gps.unused|
    {
      gps.UpdateMeasurements(event, nowMillis);
    }

    /**
     * `calculateSatPosition`: position GPS if its flag is set, Galileo if
     * its flag is set, then rebuild the merged lists from both, GPS first,
     * whatever the flags.
     */
    method CalculateSatPosition(env: Gps.Environment, galileoPass: GalileoPass, position: Coordinates)
      requires Valid()
      modifies this, gps, galileo
      ensures Valid()
      ensures observed == gps.observed + galileo.observed
      ensures unused == gps.unused + galileo.unused
      ensures isGps == old(isGps) && isGalileo == old(isGalileo) && isGlonass == old(isGlonass) && isBeidou == old(isBeidou)
      ensures old(isGps) ==> var a := Gps.AssessAll(old(gps.observed), env, old(gps.weekNumberNanos), old(gps.tRxGps), position);
        gps.observed == Gps.Kept(a) && gps.unused == old(gps.unused) + Gps.Dropped(a) && gps.rxPos == Some(position)
      ensures old(isGps) ==> gps.visibleButNotUsed == old(gps.visibleButNotUsed) + |gps.unused| - |old(gps.unused)|
      ensures !old(isGps) ==> gps.observed == old(gps.observed) && gps.unused == old(gps.unused) && gps.rxPos == old(gps.rxPos)
                              && gps.visibleButNotUsed == old(gps.visibleButNotUsed)
      ensures gps.weekNumberNanos == old(gps.weekNumberNanos) && gps.tRxGps == old(gps.tRxGps)
      ensures gps.timeRefMsec == old(gps.timeRefMsec)
      ensures gps.fullBiasNanos == old(gps.fullBiasNanos) && gps.fullBiasNanosInitialized == old(gps.fullBiasNanosInitialized)
      ensures old(isGalileo) ==>
        (galileo.observed, galileo.unused, galileo.rxPos)
        == galileoPass(old(galileo.observed), old(galileo.unused), old(galileo.rxPos), position)
      ensures !old(isGalileo) ==>
        galileo.observed == old(galileo.observed) && galileo.unused == old(galileo.unused) && galileo.rxPos == old(galileo.rxPos)
    {
      if isGps {
        gps.CalculateSatPosition(env, position);
      }
      if isGalileo {
        galileo.CalculateSatPosition(galileoPass, position);
      }
      var merged := AppendEach([], gps.observed);
      merged := AppendEach(merged, galileo.observed);
      observed := merged;
      unused := gps.GetUnusedSatellites() + galileo.unused;
    }
  }
}

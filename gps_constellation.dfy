/**
 * The GPS L1 constellation: per-epoch intake of raw measurements into the
 * observed and unused satellite lists, and the positioning pass that moves
 * satellites without an ephemeris or below the elevation mask from observed
 * to unused. Clock and measurement values come from the platform; the time
 * conversion, ephemeris lookup, elevation and corrections are parameters.
 */
module Gps {
  import opened Wrappers
  import opened JavaText
  import opened GnssTypes

  // ---------------------------------------------------------------------------
  // Constants

  /** `GnssStatus.CONSTELLATION_GPS`. */
  const GpsConstellationId: int := 1
  const L1Frequency: real := 1575420000.0
  const FrequencyMatchRange: real := 100000000.0
  const NanosPerWeek: int := 604800000000000
  const SpeedOfLight: real := 299792458.0
  /** Pseudoranges at or above this many metres are not used. */
  const MaxPseudorange: real := 1000000000.0
  /** Elevation mask, in degrees. */
  const MaskElevation: real := 20.0
  /** `GnssMeasurement.STATE_CODE_LOCK`, `STATE_TOW_DECODED` and `STATE_TOW_KNOWN`. */
  const StateCodeLock: bv32 := 1
  const StateTowDecoded: bv32 := 8
  const StateTowKnown: bv32 := 16384

  // ---------------------------------------------------------------------------
  // Platform inputs

  /** The fields of one `GnssMeasurement` the intake reads; `carrierFrequencyHz` is `None` when absent. */
  datatype Measurement = Measurement(
    constellationType: int,
    svid: int,
    carrierFrequencyHz: Option<real>,
    receivedSvTimeNanos: int,
    timeOffsetNanos: real,
    state: bv32,
    cn0DbHz: real)

  /** The fields of the event's `GnssClock` the intake reads. */
  datatype Clock = Clock(timeNanos: int, biasNanos: real, fullBiasNanos: int)

  datatype Event = Event(clock: Clock, measurements: seq<Measurement>)

  /**
   * What the positioning pass calls but is not part of this model: the GPS
   * time to UNIX milliseconds conversion of `Time`, the navigation lookup
   * `getSatPositionAndVelocities` (`None` for null), the topocentric
   * elevation, and the sum of the corrections.
   */
  datatype Environment = Environment(
    toMsec: (int, real) -> int,
    lookup: (int, real, int) -> Option<SatellitePosition>,
    elevation: (Coordinates, SatellitePosition) -> real,
    correction: (int, Coordinates, SatellitePosition) -> real)

  // ---------------------------------------------------------------------------
  // Intake

  function RealAbs(x: real): real {
    if x < 0.0 then -x else x
  }

  /** `approximateEqual(a, b, eps)`. */
  function ApproximateEqual(a: real, b: real, eps: real): (r: bool)
    ensures r <==> b - eps < a < b + eps
  {
    RealAbs(a - b) < eps
  }

  /** The measurement is GPS, and on L1 if it reports a carrier frequency. */
  predicate IsGpsL1(m: Measurement) {
    m.constellationType == GpsConstellationId
    && (m.carrierFrequencyHz.None? || ApproximateEqual(m.carrierFrequencyHz.value, L1Frequency, FrequencyMatchRange))
  }

  /** `floor(-fullBiasNanos / NUMBER_NANO_SECONDS_PER_WEEK) * NUMBER_NANO_SECONDS_PER_WEEK`: the start of the current GPS week. */
  function WeekStartNanos(fullBiasNanos: int): (w: int)
    ensures w % NanosPerWeek == 0
    ensures w <= -fullBiasNanos < w + NanosPerWeek
  {
    ((-fullBiasNanos) / NanosPerWeek) * NanosPerWeek
  }

  /** `(int) (weekNumberNanos / NUMBER_NANO_SECONDS_PER_WEEK)` for a whole number of weeks. */
  function GpsWeek(weekNumberNanos: int): (week: int)
    requires weekNumberNanos % NanosPerWeek == 0
    ensures week * NanosPerWeek == weekNumberNanos
  {
    weekNumberNanos / NanosPerWeek
  }

  /** The clock terms of one epoch, with the latched full bias. */
  datatype Epoch = Epoch(timeNanos: int, biasNanos: real, fullBiasNanos: int)

  /** `tRxGPS`: the receive time, in GPS nanoseconds. */
  function TRx(e: Epoch, m: Measurement): real {
    (e.timeNanos as real - (e.fullBiasNanos as real + e.biasNanos)) + m.timeOffsetNanos
  }

  /** The pseudorange in metres: signal travel time within the week times the speed of light. */
  function Pseudorange(e: Epoch, m: Measurement): real {
    (TRx(e, m) - WeekStartNanos(e.fullBiasNanos) as real - m.receivedSvTimeNanos as real) / 1000000000.0 * SpeedOfLight
  }

  /** Code lock, and the time of week decoded (or known, from Android O on). */
  predicate Tracked(m: Measurement, sdkAtLeastO: bool) {
    m.state & StateCodeLock != 0
    && (m.state & StateTowDecoded != 0 || (sdkAtLeastO && m.state & StateTowKnown != 0))
  }

  predicate Usable(e: Epoch, m: Measurement, sdkAtLeastO: bool) {
    Tracked(m, sdkAtLeastO) && Pseudorange(e, m) < MaxPseudorange
  }

  /** `"G" + svid + "_L1"`. */
  function UniqueSatId(svid: int): (id: string)
    ensures |id| > 4 && id[0] == 'G' && id[|id| - 3..] == "_L1"
  {
    "G" + IntToString(svid) + "_L1"
  }

  /** The parameters recorded for a measurement: with its pseudorange when used, without when not. */
  function Params(m: Measurement, pseudorange: Option<real>): SatelliteParameters {
    SatelliteParameters(m.svid, UniqueSatId(m.svid), pseudorange, m.cn0DbHz, m.constellationType,
                        m.carrierFrequencyHz, None, None, 0.0)
  }

  /** The observed list built from `ms`, in order. */
  function ObservedOf(e: Epoch, ms: seq<Measurement>, sdkAtLeastO: bool): seq<SatelliteParameters> {
    if ms == [] then []
    else
      var m := ms[|ms| - 1];
      ObservedOf(e, ms[..|ms| - 1], sdkAtLeastO)
      + (if IsGpsL1(m) && Usable(e, m, sdkAtLeastO) then [Params(m, Some(Pseudorange(e, m)))] else [])
  }

  /** The unused list built from `ms`, in order. */
  function UnusedOf(e: Epoch, ms: seq<Measurement>, sdkAtLeastO: bool): seq<SatelliteParameters> {
    if ms == [] then []
    else
      var m := ms[|ms| - 1];
      UnusedOf(e, ms[..|ms| - 1], sdkAtLeastO)
      + (if IsGpsL1(m) && !Usable(e, m, sdkAtLeastO) then [Params(m, None)] else [])
  }

  /** How many measurements of `ms` are GPS L1. */
  function GpsL1Count(ms: seq<Measurement>): (n: nat)
    ensures n <= |ms|
  {
    if ms == [] then 0 else GpsL1Count(ms[..|ms| - 1]) + (if IsGpsL1(ms[|ms| - 1]) then 1 else 0)
  }

  /** `tRxGPS` after `ms`: that of the last GPS L1 measurement, or `prev` when there is none. */
  function TRxAfter(e: Epoch, ms: seq<Measurement>, prev: real): real {
    if ms == [] then prev
    else if IsGpsL1(ms[|ms| - 1]) then TRx(e, ms[|ms| - 1])
    else TRxAfter(e, ms[..|ms| - 1], prev)
  }

  predicate HasGpsL1(ms: seq<Measurement>) {
    exists j :: 0 <= j < |ms| && IsGpsL1(ms[j])
  }

  /**
   * The measurement loop of `updateMeasurements`: sort each GPS L1
   * measurement into observed or unused, updating the receive time and the
   * week start as it goes.
   */
  method Intake(e: Epoch, ms: seq<Measurement>, sdkAtLeastO: bool, tRx0: real, week0: int)
    returns (obs: seq<SatelliteParameters>, unu: seq<SatelliteParameters>, tRx: real, week: int)
    ensures obs == ObservedOf(e, ms, sdkAtLeastO) && unu == UnusedOf(e, ms, sdkAtLeastO)
    ensures tRx == TRxAfter(e, ms, tRx0)
    ensures week == if HasGpsL1(ms) then WeekStartNanos(e.fullBiasNanos) else week0
  {
    obs, unu := [], [];
    tRx, week := tRx0, week0;
    var i := 0;
    while i < |ms|
      invariant 0 <= i <= |ms|
      invariant obs == ObservedOf(e, ms[..i], sdkAtLeastO) && unu == UnusedOf(e, ms[..i], sdkAtLeastO)
      invariant tRx == TRxAfter(e, ms[..i], tRx0)
      invariant week == if HasGpsL1(ms[..i]) then WeekStartNanos(e.fullBiasNanos) else week0
    {
      var m := ms[i];
      IntakeStep(e, ms, i, sdkAtLeastO, tRx0);
      if IsGpsL1(m) {
        tRx := TRx(e, m);
        week := WeekStartNanos(e.fullBiasNanos);
        var pseudorange := Pseudorange(e, m);
        if Tracked(m, sdkAtLeastO) && pseudorange < MaxPseudorange {
          obs := obs + [Params(m, Some(pseudorange))];
        } else {
          unu := unu + [Params(m, None)];
        }
      }
      i := i + 1;
    }
    assert ms[..|ms|] == ms;
  }

  // ---------------------------------------------------------------------------
  // Masking

  /** One observed satellite after the positioning pass, and whether it is excluded. */
  datatype Assessment = Assessment(sat: SatelliteParameters, excluded: bool)

  /** The signal reception time, in UNIX milliseconds, from the GPS week and the seconds of week. */
  function TimeRx(env: Environment, weekNumberNanos: int, tRxGps: real): int
    requires weekNumberNanos % NanosPerWeek == 0
  {
    env.toMsec(GpsWeek(weekNumberNanos), (tRxGps - weekNumberNanos as real) / 1000000000.0)
  }

  /**
   * One iteration of the positioning loop: without an ephemeris the
   * satellite is excluded unchanged; otherwise it gets its position,
   * elevation and correction, and is excluded below the elevation mask.
   */
  function Assess(p: SatelliteParameters, env: Environment, weekNumberNanos: int, tRxGps: real, rxPos: Coordinates): Assessment
    requires p.pseudorange.Some? && weekNumberNanos % NanosPerWeek == 0
  {
    var timeRx := TimeRx(env, weekNumberNanos, tRxGps);
    match env.lookup(timeRx, p.pseudorange.value, p.satId)
    case None => Assessment(p, true)
    case Some(pos) =>
      var el := env.elevation(rxPos, pos);
      Assessment(p.(satellitePosition := Some(pos), elevation := Some(el),
                    accumulatedCorrection := env.correction(timeRx, rxPos, pos)),
                 el < MaskElevation)
  }

  ghost predicate AllRanged(ps: seq<SatelliteParameters>) {
    forall j :: 0 <= j < |ps| ==> ps[j].pseudorange.Some?
  }

  function AssessAll(ps: seq<SatelliteParameters>, env: Environment, weekNumberNanos: int, tRxGps: real, rxPos: Coordinates): (r: seq<Assessment>)
    requires AllRanged(ps) && weekNumberNanos % NanosPerWeek == 0
    ensures |r| == |ps|
  {
    seq(|ps|, j requires 0 <= j < |ps| => Assess(ps[j], env, weekNumberNanos, tRxGps, rxPos))
  }

  /** The satellites that stay observed, in their order. */
  function Kept(a: seq<Assessment>): seq<SatelliteParameters> {
    if a == [] then []
    else Kept(a[..|a| - 1]) + (if a[|a| - 1].excluded then [] else [a[|a| - 1].sat])
  }

  /** The excluded satellites, in their order. */
  function Dropped(a: seq<Assessment>): seq<SatelliteParameters> {
    if a == [] then []
    else Dropped(a[..|a| - 1]) + (if a[|a| - 1].excluded then [a[|a| - 1].sat] else [])
  }

  /**
   * The positioning loop of `calculateSatPosition`: assess each observed
   * satellite in turn, setting its position, elevation and correction, collecting the excluded
   * ones in order; `flags` marks the excluded positions.
   */
  method AssessObserved(ps: seq<SatelliteParameters>, env: Environment, weekNumberNanos: int, tRxGps: real, rxPos: Coordinates)
    returns (sats: seq<SatelliteParameters>, flags: seq<bool>, excluded: seq<SatelliteParameters>)
    requires AllRanged(ps) && weekNumberNanos % NanosPerWeek == 0
    ensures var a := AssessAll(ps, env, weekNumberNanos, tRxGps, rxPos);
      |sats| == |flags| == |ps|
      && (forall j :: 0 <= j < |ps| ==> sats[j] == a[j].sat && flags[j] == a[j].excluded)
      && excluded == Dropped(a)
  {
    ghost var a := AssessAll(ps, env, weekNumberNanos, tRxGps, rxPos);
    sats, flags, excluded := [], [], [];
    var i := 0;
    while i < |ps|
      invariant 0 <= i <= |ps| && |sats| == |flags| == i
      invariant forall j :: 0 <= j < i ==> sats[j] == a[j].sat && flags[j] == a[j].excluded
      invariant excluded == Dropped(a[..i])
    {
      assert a[..i + 1][..i] == a[..i] && a[..i + 1][i] == a[i];
      assert a[i] == Assess(ps[i], env, weekNumberNanos, tRxGps, rxPos);
      var sat := ps[i];
      var timeRx := env.toMsec(GpsWeek(weekNumberNanos), (tRxGps - weekNumberNanos as real) / 1000000000.0);
      var rnp := env.lookup(timeRx, sat.pseudorange.value, sat.satId);
      var low := true;
      if rnp.None? {
        excluded := excluded + [sat];
      } else {
        sat := sat.(satellitePosition := rnp);
        var elevation := env.elevation(rxPos, rnp.value);
        sat := sat.(elevation := Some(elevation));
        low := elevation < MaskElevation;
        sat := sat.(accumulatedCorrection := env.correction(timeRx, rxPos, rnp.value));
        if low {
          excluded := excluded + [sat];
        }
      }
      assert Assessment(sat, low) == a[i];
      sats, flags := sats + [sat], flags + [low];
      i := i + 1;
    }
    assert a[..|a|] == a;
  }

  /** `observedSatellites.removeAll(excluded)`, with the excluded entries known by position. */
  method RemoveExcluded(sats: seq<SatelliteParameters>, flags: seq<bool>, ghost a: seq<Assessment>)
    returns (kept: seq<SatelliteParameters>)
    requires |sats| == |flags| == |a|
    requires forall j :: 0 <= j < |a| ==> sats[j] == a[j].sat && flags[j] == a[j].excluded
    ensures kept == Kept(a)
  {
    kept := [];
    var j := 0;
    while j < |sats|
      invariant 0 <= j <= |sats| && kept == Kept(a[..j])
    {
      assert a[..j + 1][..j] == a[..j] && a[..j + 1][j] == a[j];
      if !flags[j] {
        kept := kept + [sats[j]];
      }
      j := j + 1;
    }
    assert a[..|a|] == a;
  }

  // ---------------------------------------------------------------------------
  // The constellation

  class GpsConstellation {
    /** Whether the platform is Android O or later (`STATE_TOW_KNOWN` is then consulted). */
    const sdkAtLeastO: bool
    var fullBiasNanosInitialized: bool
    var fullBiasNanos: int
    var rxPos: Option<Coordinates>
    var tRxGps: real
    var weekNumberNanos: int
    var observed: seq<SatelliteParameters>
    var unused: seq<SatelliteParameters>
    var visibleButNotUsed: int
    /** The wall-clock time of the last intake, in milliseconds (`None` before the first). */
    var timeRefMsec: Option<int>

    ghost predicate Valid()
      reads this
    {
      visibleButNotUsed == |unused| && weekNumberNanos % NanosPerWeek == 0 && AllRanged(observed)
    }

    constructor(sdkAtLeastO: bool)
      ensures Valid() && this.sdkAtLeastO == sdkAtLeastO
      ensures !fullBiasNanosInitialized && rxPos.None? && timeRefMsec.None?
      ensures observed == [] && unused == [] && visibleButNotUsed == 0
      ensures tRxGps == 0.0 && weekNumberNanos == 0
    {
      this.sdkAtLeastO := sdkAtLeastO;
      fullBiasNanosInitialized := false;
      fullBiasNanos := 0;
      rxPos := None;
      tRxGps := 0.0;
      weekNumberNanos := 0;
      observed := [];
      unused := [];
      visibleButNotUsed := 0;
      timeRefMsec := None;
    }

    /** The epoch terms for `clock` with the latched full bias. */
    function EpochOf(clock: Clock): Epoch
      reads this
    {
      Epoch(clock.timeNanos, clock.biasNanos, fullBiasNanos)
    }

    /**
     * `updateMeasurements`: clear both lists and the counter, latch the full
     * bias once, then sort each GPS L1 measurement into observed or unused.
     */
    method UpdateMeasurements(event: Event, nowMillis: int)
      requires Valid()
      modifies this
      ensures Valid()
      ensures fullBiasNanosInitialized
      ensures fullBiasNanos == if old(fullBiasNanosInitialized) then old(fullBiasNanos) else event.clock.fullBiasNanos
      ensures var e := EpochOf(event.clock);
        observed == ObservedOf(e, event.measurements, sdkAtLeastO)
        && unused == UnusedOf(e, event.measurements, sdkAtLeastO)
        && tRxGps == TRxAfter(e, event.measurements, old(tRxGps))
      ensures weekNumberNanos == if HasGpsL1(event.measurements) then WeekStartNanos(fullBiasNanos) else old(weekNumberNanos)
      ensures timeRefMsec == Some(nowMillis) && rxPos == old(rxPos)
    {
      var bias := if fullBiasNanosInitialized then fullBiasNanos else event.clock.fullBiasNanos;
      var e := Epoch(event.clock.timeNanos, event.clock.biasNanos, bias);
      var obs, unu, tRx, week := Intake(e, event.measurements, sdkAtLeastO, tRxGps, weekNumberNanos);
      ObservedAreRanged(e, event.measurements, sdkAtLeastO);
      timeRefMsec, fullBiasNanos, fullBiasNanosInitialized := Some(nowMillis), bias, true;
      observed, unused, visibleButNotUsed, tRxGps, weekNumberNanos := obs, unu, |unu|, tRx, week;
    }

    /**
     * `calculateSatPosition`: record the receiver position, look up and mask
     * every observed satellite, then move the excluded ones, in order, from
     * observed to unused.
     */
    method CalculateSatPosition(env: Environment, position: Coordinates)
      requires Valid()
      modifies this
      ensures Valid() && rxPos == Some(position)
      ensures var a := AssessAll(old(observed), env, old(weekNumberNanos), old(tRxGps), position);
        observed == Kept(a) && unused == old(unused) + Dropped(a)
        && visibleButNotUsed == old(visibleButNotUsed) + |Dropped(a)|
      ensures weekNumberNanos == old(weekNumberNanos) && tRxGps == old(tRxGps)
      ensures fullBiasNanosInitialized == old(fullBiasNanosInitialized) && fullBiasNanos == old(fullBiasNanos)
      ensures timeRefMsec == old(timeRefMsec)
    {
      var sats, flags, excluded := AssessObserved(observed, env, weekNumberNanos, tRxGps, position);
      ghost var a := AssessAll(observed, env, weekNumberNanos, tRxGps, position);
      var kept := RemoveExcluded(sats, flags, a);
      KeptAreRanged(a, observed, env, weekNumberNanos, tRxGps, position);
      rxPos, visibleButNotUsed, observed, unused := Some(position), visibleButNotUsed + |excluded|, kept, unused + excluded;
    }

    function GetRxPos(): (r: Option<Coordinates>)
      reads this
      ensures r == rxPos
    {
      rxPos
    }

    method SetRxPos(p: Coordinates)
      modifies this
      ensures rxPos == Some(p)
      ensures observed == old(observed) && unused == old(unused) && visibleButNotUsed == old(visibleButNotUsed)
      ensures weekNumberNanos == old(weekNumberNanos) && tRxGps == old(tRxGps) && timeRefMsec == old(timeRefMsec)
      ensures fullBiasNanos == old(fullBiasNanos) && fullBiasNanosInitialized == old(fullBiasNanosInitialized)
    {
      rxPos := Some(p);
    }

    /** `getTime`: the time of the last intake. */
    function GetTime(): (t: Option<int>)
      reads this
      ensures t == timeRefMsec
    {
      timeRefMsec
    }

    /** `getSatellite(index)`: `observedSatellites.get(index)`, which throws out of range (`None`). */
    function GetSatellite(index: int): (r: Option<SatelliteParameters>)
      reads this
      ensures r.Some? <==> 0 <= index < |observed|
      ensures r.Some? ==> r.value == observed[index]
    {
      if 0 <= index < |observed| then Some(observed[index]) else None
    }

    function GetUnusedSatellites(): (r: seq<SatelliteParameters>)
      reads this
      ensures r == unused
    {
      unused
    }

    /** `getUsedConstellationSize`: the observed satellites. */
    function GetUsedConstellationSize(): (n: int)
      reads this
      ensures n == |observed|
    {
      |observed|
    }

    /** `getVisibleConstellationSize`: used satellites plus the counter, which is the unused list's size. */
    function GetVisibleConstellationSize(): (n: int)
      reads this
      requires Valid()
      ensures n == |observed| + |unused|
    {
      GetUsedConstellationSize() + visibleButNotUsed
    }
  }

  // ---------------------------------------------------------------------------
  // Properties

  /** Every observed satellite keeps its pseudorange, so the next positioning pass can use it. */
  lemma {:induction false} KeptAreRanged(a: seq<Assessment>, ps: seq<SatelliteParameters>, env: Environment,
                                         weekNumberNanos: int, tRxGps: real, rxPos: Coordinates)
    requires AllRanged(ps) && weekNumberNanos % NanosPerWeek == 0
    requires a == AssessAll(ps, env, weekNumberNanos, tRxGps, rxPos)
    ensures AllRanged(Kept(a))
  {
    forall k | 0 <= k < |a|
      ensures a[k].sat.pseudorange == ps[k].pseudorange
    {
    }
    KeptOfRanged(a);
  }

  lemma {:induction false} KeptOfRanged(a: seq<Assessment>)
    requires forall k :: 0 <= k < |a| ==> a[k].sat.pseudorange.Some?
    ensures AllRanged(Kept(a))
  {
    if a != [] {
      KeptOfRanged(a[..|a| - 1]);
    }
  }
  /** One more measurement extends each list by at most that measurement, and sets the receive time and week when it is GPS L1. */
  lemma IntakeStep(e: Epoch, ms: seq<Measurement>, i: nat, sdkAtLeastO: bool, prev: real)
    requires i < |ms|
    ensures var m := ms[i];
      && ObservedOf(e, ms[..i + 1], sdkAtLeastO)
         == ObservedOf(e, ms[..i], sdkAtLeastO) + (if IsGpsL1(m) && Usable(e, m, sdkAtLeastO) then [Params(m, Some(Pseudorange(e, m)))] else [])
      && UnusedOf(e, ms[..i + 1], sdkAtLeastO)
         == UnusedOf(e, ms[..i], sdkAtLeastO) + (if IsGpsL1(m) && !Usable(e, m, sdkAtLeastO) then [Params(m, None)] else [])
      && TRxAfter(e, ms[..i + 1], prev) == (if IsGpsL1(m) then TRx(e, m) else TRxAfter(e, ms[..i], prev))
      && (HasGpsL1(ms[..i + 1]) <==> HasGpsL1(ms[..i]) || IsGpsL1(m))
  {
    assert ms[..i + 1][..i] == ms[..i] && ms[..i + 1][i] == ms[i];
    if HasGpsL1(ms[..i + 1]) && !IsGpsL1(ms[i]) {
      var j :| 0 <= j < i + 1 && IsGpsL1(ms[..i + 1][j]);
      assert ms[..i][j] == ms[j];
    }
  }

  /** Every observed satellite carries a pseudorange. */
  lemma {:induction false} ObservedAreRanged(e: Epoch, ms: seq<Measurement>, sdkAtLeastO: bool)
    ensures AllRanged(ObservedOf(e, ms, sdkAtLeastO))
  {
    if ms != [] {
      ObservedAreRanged(e, ms[..|ms| - 1], sdkAtLeastO);
    }
  }
  /** Every GPS L1 measurement lands in exactly one list, so the visible size is the number of GPS L1 measurements. */
  lemma {:induction false} IntakePartition(e: Epoch, ms: seq<Measurement>, sdkAtLeastO: bool)
    ensures |ObservedOf(e, ms, sdkAtLeastO)| + |UnusedOf(e, ms, sdkAtLeastO)| == GpsL1Count(ms)
  {
    if ms != [] {
      IntakePartition(e, ms[..|ms| - 1], sdkAtLeastO);
    }
  }

  /** Observed satellites are GPS, with a pseudorange below the limit; unused ones have none. */
  lemma {:induction false} IntakeLists(e: Epoch, ms: seq<Measurement>, sdkAtLeastO: bool)
    ensures forall p :: p in ObservedOf(e, ms, sdkAtLeastO) ==>
      p.constellationType == GpsConstellationId && p.pseudorange.Some? && p.pseudorange.value < MaxPseudorange
    ensures forall p :: p in UnusedOf(e, ms, sdkAtLeastO) ==>
      p.constellationType == GpsConstellationId && p.pseudorange.None?
  {
    if ms != [] {
      IntakeLists(e, ms[..|ms| - 1], sdkAtLeastO);
    }
  }

  /** Each GPS L1 measurement is recorded: observed with its pseudorange when usable, unused otherwise. */
  lemma {:induction false} IntakeRecords(e: Epoch, ms: seq<Measurement>, sdkAtLeastO: bool, j: nat)
    requires j < |ms| && IsGpsL1(ms[j])
    ensures Usable(e, ms[j], sdkAtLeastO) ==> Params(ms[j], Some(Pseudorange(e, ms[j]))) in ObservedOf(e, ms, sdkAtLeastO)
    ensures !Usable(e, ms[j], sdkAtLeastO) ==> Params(ms[j], None) in UnusedOf(e, ms, sdkAtLeastO)
  {
    if j < |ms| - 1 {
      assert ms[..|ms| - 1][j] == ms[j];
      IntakeRecords(e, ms[..|ms| - 1], sdkAtLeastO, j);
    }
  }

  /** A measurement of another constellation or band changes neither list. */
  lemma IntakeIgnoresOthers(e: Epoch, ms: seq<Measurement>, m: Measurement, sdkAtLeastO: bool, prev: real)
    requires !IsGpsL1(m)
    ensures ObservedOf(e, ms + [m], sdkAtLeastO) == ObservedOf(e, ms, sdkAtLeastO)
    ensures UnusedOf(e, ms + [m], sdkAtLeastO) == UnusedOf(e, ms, sdkAtLeastO)
    ensures TRxAfter(e, ms + [m], prev) == TRxAfter(e, ms, prev)
  {
    assert (ms + [m])[..|ms|] == ms;
  }

  /** The positioning pass only moves satellites: none is lost or duplicated. */
  lemma {:induction false} MaskPartition(a: seq<Assessment>)
    ensures |Kept(a)| + |Dropped(a)| == |a|
    ensures forall p :: p in Kept(a) ==> exists j :: 0 <= j < |a| && !a[j].excluded && a[j].sat == p
    ensures forall p :: p in Dropped(a) ==> exists j :: 0 <= j < |a| && a[j].excluded && a[j].sat == p
  {
    if a != [] {
      var b := a[..|a| - 1];
      MaskPartition(b);
      forall p | p in Kept(b) ensures exists j :: 0 <= j < |a| && !a[j].excluded && a[j].sat == p {
        var j :| 0 <= j < |b| && !b[j].excluded && b[j].sat == p;
        assert a[j] == b[j];
      }
      forall p | p in Dropped(b) ensures exists j :: 0 <= j < |a| && a[j].excluded && a[j].sat == p {
        var j :| 0 <= j < |b| && b[j].excluded && b[j].sat == p;
        assert a[j] == b[j];
      }
    }
  }

  /**
   * A satellite is excluded exactly when it has no ephemeris or lies below
   * the elevation mask; kept satellites carry a position and an elevation
   * at or above the mask, and keep their pseudorange and identity.
   */
  lemma AssessExcludes(p: SatelliteParameters, env: Environment, weekNumberNanos: int, tRxGps: real, rxPos: Coordinates)
    requires p.pseudorange.Some? && weekNumberNanos % NanosPerWeek == 0
    ensures var r := Assess(p, env, weekNumberNanos, tRxGps, rxPos);
      var pos := env.lookup(TimeRx(env, weekNumberNanos, tRxGps), p.pseudorange.value, p.satId);
      && (r.excluded <==> pos.None? || env.elevation(rxPos, pos.value) < MaskElevation)
      && r.sat.satId == p.satId && r.sat.pseudorange == p.pseudorange
      && (pos.None? ==> r.sat == p)
      && (pos.Some? ==> r.sat.satellitePosition == pos && r.sat.elevation == Some(env.elevation(rxPos, pos.value)))
  {
  }

  /** After the pass every observed satellite has a position and an elevation at or above the mask. */
  lemma {:induction false} KeptAreAboveMask(ps: seq<SatelliteParameters>, env: Environment, weekNumberNanos: int, tRxGps: real, rxPos: Coordinates)
    requires AllRanged(ps) && weekNumberNanos % NanosPerWeek == 0
    ensures forall p :: p in Kept(AssessAll(ps, env, weekNumberNanos, tRxGps, rxPos)) ==>
      p.satellitePosition.Some? && p.elevation.Some? && p.elevation.value >= MaskElevation
  {
    var a := AssessAll(ps, env, weekNumberNanos, tRxGps, rxPos);
    MaskPartition(a);
    forall p | p in Kept(a)
      ensures p.satellitePosition.Some? && p.elevation.Some? && p.elevation.value >= MaskElevation
    {
      var j :| 0 <= j < |a| && !a[j].excluded && a[j].sat == p;
      AssessExcludes(ps[j], env, weekNumberNanos, tRxGps, rxPos);
    }
  }
}

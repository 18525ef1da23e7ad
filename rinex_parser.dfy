/**
 * The RINEX navigation parser for GPS, Galileo, BeiDou and GLONASS: it reads
 * the header, dispatches on the version, frames the records into an
 * append-only list of ephemerides, and selects the ephemeris nearest to a
 * given time. Every method is proved to follow the functions of `NavSpec`
 * and `EphSelection`.
 */
module RinexNavigation {
  import opened Wrappers
  import opened Ephemeris
  import opened NavLayout
  import opened NavSpec
  import opened EphSelection
  import opened GnssTypes

  /** The parser's `BufferedReader`: the lines not yet read, without terminators. */
  class LineReader {
    var rest: seq<string>

    constructor(lines: seq<string>)
      ensures rest == lines
    {
      rest := lines;
    }

    /** `ready()`: input remains. */
    predicate Ready()
      reads this
    {
      rest != []
    }

    /** `readLine()`: the next line, or `None` (null) at the end of the input. */
    method ReadLine() returns (line: Option<string>)
      modifies this
      ensures (line, rest) == NavSpec.ReadLine(old(rest))
    {
      if rest == [] {
        line := None;
      } else {
        line := Some(rest[0]);
        rest := rest[1..];
      }
    }

    /** `read()` while input remains: one character (the terminator of an empty line). */
    method Read() returns (ch: char)
      requires rest != []
      modifies this
      ensures (ch, rest) == NavSpec.ReadChar(old(rest))
    {
      if rest[0] == "" {
        ch := '\n';
        rest := rest[1..];
      } else {
        ch := rest[0][0];
        rest := [rest[0][1..]] + rest[1..];
      }
    }
  }

  /** How `init` ends: the data were read, the header was invalid (RuntimeException), or an exception escaped. */
  datatype InitOutcome = Loaded(version: int) | InvalidFile | Aborted

  /** What `getSatPositionAndVelocities` gives: a position, null (`None`), or an escaping exception. */
  datatype PositionLookup = LookupThrew | Position(pos: Option<SatellitePosition>)

  /** The orbit propagation `computeSatPositionAndVelocities(unixTime, range, satID, satType, eph, receiverClockError)`. */
  type Propagator = (int, real, int, char, EphGps, real) -> SatellitePosition

  class RinexNavigationParser {
    const reader: LineReader
    /** The ephemerides, in the order they were added. */
    var eph: seq<EphGps>
    var count: int
    var countGlonass: nat
    /** The header's format version number (`ver_f`). */
    var verF: Num

    ghost predicate Valid()
      reads this
    {
      count == |eph| && countGlonass == CountSys(eph, 'R')
    }

    constructor(lines: seq<string>)
      ensures Valid() && fresh(reader) && reader.rest == lines
      ensures eph == [] && verF == Exact(0)
    {
      reader := new LineReader(lines);
      eph := [];
      count := 0;
      countGlonass := 0;
      verF := Exact(0);
    }

    /** `addEph`: append at the end and count. */
    method AddEph(e: EphGps)
      modifies this
      ensures eph == old(eph) + [e] && count == old(count) + 1
      ensures countGlonass == old(countGlonass) && verF == old(verF)
    {
      eph := eph + [e];
      count := count + 1;
    }

    /** The setters called on the record added last (the local `eph` reference). */
    method UpdateLast(e: EphGps)
      requires eph != []
      modifies this
      ensures eph == old(eph)[|old(eph)| - 1 := e]
      ensures count == old(count) && countGlonass == old(countGlonass) && verF == old(verF)
    {
      eph := eph[|eph| - 1 := e];
    }

    /** `getEph(index)`: null on an empty list, otherwise `eph.get(index)`, which throws out of range. */
    method GetEph(index: int) returns (r: Option<EphGps>, outOfBounds: bool)
      ensures eph == [] ==> r.None? && !outOfBounds
      ensures eph != [] ==> (outOfBounds <==> !(0 <= index < |eph|))
      ensures r.Some? <==> 0 <= index < |eph|
      ensures r.Some? ==> r.value == eph[index]
    {
      if |eph| > 0 {
        if 0 <= index < |eph| {
          r, outOfBounds := Some(eph[index]), false;
        } else {
          r, outOfBounds := None, true;
        }
      } else {
        r, outOfBounds := None, false;
      }
    }

    /** `parseHeaderNav`: scan header lines until "END OF HEADER", the end of the input, or an exception. */
    method ParseHeaderNav(c: Codec) returns (ver: int, ok: bool)
      modifies this, reader
      ensures var h := HeaderScan(old(reader.rest), 0, old(verF), c);
        ver == h.version && ok == h.ok && reader.rest == h.pending && verF == h.verF
      ensures eph == old(eph) && count == old(count) && countGlonass == old(countGlonass)
    {
      ver, ok := 0, true;
      while reader.rest != []
        invariant HeaderScan(reader.rest, ver, verF, c) == HeaderScan(old(reader.rest), 0, old(verF), c)
        invariant eph == old(eph) && count == old(count) && countGlonass == old(countGlonass)
        decreases |reader.rest|
      {
        var line := reader.ReadLine();
        match HeaderLine(line.value, ver, verF, c)
        case Next(v, f) =>
          ver, verF := v, f;
        case Return(v, f) =>
          ver, verF := v, f;
          return;
        case Throw(f) =>
          ver, verF, ok := 0, f, false;
          return;
      }
      ver := 0;
    }

    /**
     * One non-empty line in slot `i`: version 3 opens a new record on slot 0
     * (counting GLONASS records), then the slot's setters `f` are applied to
     * the record being filled; without one, the NullPointerException is caught.
     */
    method ApplyLine(v: Version, sys: char, i: nat, line: string, wasCurrent: bool, f: Filler)
      returns (current: bool, ok: bool)
      requires Valid() && (wasCurrent ==> eph != []) && line != ""
      modifies this
      ensures Valid() && verF == old(verF) && (current ==> eph != [])
      ensures Parse(reader.rest, eph, countGlonass, current, ok)
              == Fill(Parse(reader.rest, old(eph), old(countGlonass), wasCurrent, true), line, v, sys, i, f)
    {
      ghost var s0 := Parse(reader.rest, eph, countGlonass, wasCurrent, true);
      current, ok := wasCurrent, true;
      if i == 0 && v == V3 {
        OpenRecord(sys);
        current := true;
      }
      ghost var s2 := Parse(reader.rest, eph, countGlonass, current, true);
      assert s2 == if i == 0 && v == V3 then Open(s0, sys) else s0;
      if current {
        ghost var a := f(eph[|eph| - 1], line, v, sys, i);
        ok := FillLast(line, v, sys, i, f);
        FillIs(s0, line, v, sys, i, f, s2, a);
      }
    }

    /** `eph = new EphGps(); addEph(eph); eph.setSatType(sys)`, counting GLONASS records. */
    method OpenRecord(sys: char)
      requires Valid()
      modifies this
      ensures Valid() && verF == old(verF)
      ensures eph == old(eph) + [NewEph(sys)]
      ensures countGlonass == old(countGlonass) + (if sys == 'R' then 1 else 0)
    {
      CountSysAppend(eph, NewEph(sys), 'R');
      AddEph(NewEph(sys));
      if sys == 'R' {
        countGlonass := countGlonass + 1;
      }
    }

    /** The setters of slot `i` called on the record added last. */
    method FillLast(line: string, v: Version, sys: char, i: nat, f: Filler) returns (ok: bool)
      requires Valid() && eph != []
      modifies this
      ensures Valid() && verF == old(verF) && countGlonass == old(countGlonass)
      ensures var a := f(old(eph)[|old(eph)| - 1], line, v, sys, i);
        eph == old(eph)[|old(eph)| - 1 := a.rec] && ok == a.ok
    {
      var last := |eph| - 1;
      var a := f(eph[last], line, v, sys, i);
      CountSysUpdate(eph, last, a.rec, 'R');
      UpdateLast(a.rec);
      ok := a.ok;
    }

    /**
     * The `for` loop over the `n` lines of one record, from slot 0: an empty
     * line steps `i` back, a null line (caught NullPointerException) uses up
     * its slot, and any other line goes to `ApplyLine`. `ok` is false when an
     * exception escapes the loop.
     */
    method FillRecord(v: Version, sys: char, n: nat, wasCurrent: bool, f: Filler) returns (current: bool, ok: bool)
      requires Valid() && (wasCurrent ==> eph != [])
      modifies this, reader
      ensures Valid() && verF == old(verF) && (current ==> eph != [])
      ensures Parse(reader.rest, eph, countGlonass, current, ok)
              == FillSlots(Parse(old(reader.rest), old(eph), old(countGlonass), wasCurrent, true), v, sys, 0, n, f)
    {
      ghost var target := FillSlots(Parse(reader.rest, eph, countGlonass, wasCurrent, true), v, sys, 0, n, f);
      current, ok := wasCurrent, true;
      var i: int := 0;
      while i < n
        invariant 0 <= i <= n
        invariant Valid() && verF == old(verF) && (current ==> eph != [])
        invariant FillSlots(Parse(reader.rest, eph, countGlonass, current, true), v, sys, i, n, f) == target
        decreases |reader.rest|, n - i
      {
        ghost var slot := Parse(reader.rest, eph, countGlonass, current, true);
        var line := reader.ReadLine();
        FillSlotsSkip(slot, v, sys, i, n, f);
        if line.Some? {
          assert slot.pending[0] == line.value && slot.pending[1..] == reader.rest;
          if line.value == "" {
            i := i - 1;
          } else {
            FillSlotsLine(slot, v, sys, i, n, f);
            current, ok := ApplyLine(v, sys, i, line.value, current, f);
            if !ok {
              return;
            }
          }
        }
        i := i + 1;
      }
    }

    /**
     * `parseDataNavV2`: GPS records of 8 lines each, while input remains.
     * `f` is the setter calls of each slot; `Init` passes the column tables,
     * `SlotsOf(c)`.
     */
    method ParseDataNavV2(f: Filler) returns (ok: bool)
      requires Valid()
      modifies this, reader
      ensures Valid() && verF == old(verF)
      ensures var r := V2Body(Parse(old(reader.rest), old(eph), old(countGlonass), false, true), f);
        reader.rest == r.pending && eph == r.store && countGlonass == r.glonass && ok == r.ok
    {
      ok := true;
      ghost var start := Parse(reader.rest, eph, countGlonass, false, true);
      ghost var current := false;
      while reader.rest != []
        invariant Valid() && verF == old(verF)
        invariant current ==> eph != []
        invariant V2Body(Parse(reader.rest, eph, countGlonass, current, true), f) == V2Body(start, f)
        decreases |reader.rest|
      {
        CountSysAppend(eph, NewEph('G'), 'R');
        AddEph(NewEph('G'));
        var done;
        current, done := FillRecord(V2, 'G', 8, true, f);
        if !done {
          ok := false;
          return;
        }
      }
    }

    /**
     * `parseDataNavV3`: a system letter, then 8 lines for G, C and E, 4 for R,
     * and 4 discarded lines for any other letter, while input remains. `f`
     * is the setter calls of each slot, as for version 2.
     */
    method ParseDataNavV3(f: Filler) returns (ok: bool)
      requires Valid()
      modifies this, reader
      ensures Valid() && verF == old(verF)
      ensures var r := V3Body(Parse(old(reader.rest), old(eph), old(countGlonass), false, true), f);
        reader.rest == r.pending && eph == r.store && countGlonass == r.glonass && ok == r.ok
    {
      ok := true;
      ghost var start := Parse(reader.rest, eph, countGlonass, false, true);
      var current := false;  // the local `eph` reference is non-null
      while reader.rest != []
        invariant Valid() && verF == old(verF)
        invariant current ==> eph != []
        invariant V3Body(Parse(reader.rest, eph, countGlonass, current, true), f) == V3Body(start, f)
        decreases |reader.rest|
      {
        var ch := reader.Read();
        if IsV3System(ch) {
          var done;
          current, done := FillRecord(V3, ch, SlotCount(ch), current, f);
          if !done {
            ok := false;
            return;
          }
        } else {
          ghost var p, e0, g0 := reader.rest, eph, countGlonass;
          var k := 0;
          while k < 4
            invariant 0 <= k <= 4 && reader.rest == Skip(p, k)
            invariant Valid() && verF == old(verF) && (current ==> eph != [])
            invariant eph == e0 && countGlonass == g0
          {
            var _ := reader.ReadLine();
            k := k + 1;
          }
        }
      }
    }

    /**
     * `init`: parse the header; version 0 makes the file invalid, 2 and 212
     * are read as version 2, 3 as version 3.
     */
    method Init(c: Codec) returns (r: InitOutcome)
      requires Valid()
      modifies this, reader
      ensures Valid()
      ensures var h := HeaderScan(old(reader.rest), 0, old(verF), c);
        var s := Parse(h.pending, old(eph), old(countGlonass), false, true);
        verF == h.verF
        && (!h.ok ==> r == Aborted && eph == old(eph) && reader.rest == h.pending)
        && (h.ok && h.version == 0 ==> r == InvalidFile && eph == old(eph) && reader.rest == h.pending)
        && (h.ok && (h.version == 2 || h.version == 212) ==>
              var b := V2Body(s, SlotsOf(c));
              eph == b.store && reader.rest == b.pending && r == (if b.ok then Loaded(h.version) else Aborted))
        && (h.ok && h.version == 3 ==>
              var b := V3Body(s, SlotsOf(c));
              eph == b.store && reader.rest == b.pending && r == (if b.ok then Loaded(3) else Aborted))
    {
      ghost var p0, f0 := reader.rest, verF;
      var ver, ok := ParseHeaderNav(c);
      HeaderVersionNeedsEnd(p0, 0, f0, c);
      if !ok {
        r := Aborted;
      } else if ver == 0 {
        r := InvalidFile;
      } else if ver == 2 || ver == 212 {
        var done := ParseDataNavV2(SlotsOf(c));
        r := if done then Loaded(ver) else Aborted;
      } else {
        var done := ParseDataNavV3(SlotsOf(c));
        r := if done then Loaded(ver) else Aborted;
      }
    }

    /** `findEph`: scan for the matching record nearest in time, then gate it on health and on the window. */
    method FindEph(unixTime: int, satID: int, satType: char) returns (r: EphLookup)
      ensures r == EphSelection.FindEph(eph, unixTime, satID, satType)
    {
      var list := eph;
      var t := unixTime;
      var dtMin := 0;
      var refEph: Option<nat> := None;
      var i := 0;
      while i < |list|
        invariant 0 <= i <= |list| && AllTimed(list, satID, satType, i)
        invariant t == QueryTime(unixTime, satType, MatchesBefore(list, satID, satType, i))
        invariant refEph == Nearest(list, unixTime, satID, satType, i)
        invariant refEph.Some? ==> dtMin == Delta(list, unixTime, satID, satType, refEph.value)
      {
        if list[i].satID == satID && list[i].satType == satType {
          if satType == 'C' {
            t := t - BdsShiftMsec;
          }
          if list[i].refTime.None? {
            UntimedMatchThrows(list, unixTime, satID, satType, i);
            return MissingRefTime;
          }
          ScanStep(list, unixTime, satID, satType, i);
          var dt := Abs(list[i].refTime.value - t) / 1000;
          assert dt == Delta(list, unixTime, satID, satType, i);
          if refEph.None? || dt < dtMin {
            dtMin := dt;
            refEph := Some(i);
          }
        } else {
          ScanStep(list, unixTime, satID, satType, i);
        }
        i := i + 1;
      }
      TimedFindEph(list, unixTime, satID, satType);
      if refEph.None? {
        return NoEphemeris;
      }
      var k := refEph.value;
      if list[k].svHealth != 0 {
        return UnhealthyEph;
      }
      var dtMax := DtMax(list[k]);
      if dtMin > dtMax {
        return NoEphemeris;
      }
      return Ephemeris(k);
    }

    /**
     * `getSatPositionAndVelocities`: null without an ephemeris, the unhealthy
     * sentinel for an unhealthy one, otherwise the propagated position.
     */
    method GetSatPositionAndVelocities(unixTime: int, range: real, satID: int, satType: char,
                                       receiverClockError: real, propagate: Propagator)
      returns (r: PositionLookup)
      ensures match EphSelection.FindEph(eph, unixTime, satID, satType)
        case MissingRefTime => r == LookupThrew
        case NoEphemeris => r == Position(None)
        case UnhealthyEph => r == Position(Some(UnhealthySat))
        case Ephemeris(k) => k < |eph| && r == Position(Some(propagate(unixTime, range, satID, satType, eph[k], receiverClockError)))
    {
      var found := FindEph(unixTime, satID, satType);
      match found
      case MissingRefTime =>
        r := LookupThrew;
      case NoEphemeris =>
        r := Position(None);
      case UnhealthyEph =>
        r := Position(Some(UnhealthySat));
      case Ephemeris(k) =>
        FoundIsNearestHealthyInWindow(eph, unixTime, satID, satType, k);
        r := Position(Some(propagate(unixTime, range, satID, satType, eph[k], receiverClockError)));
    }
  }
}

/**
 * The fixed-column layout of every record line the RINEX navigation parser
 * reads: RINEX 2.11 GPS records (Table A4 of RINEX 2.11) and RINEX 3.01 GPS,
 * Galileo, BeiDou and GLONASS records, and what each column does to the
 * record being filled.
 */
module NavLayout {
  import opened Wrappers
  import opened JavaText
  import opened Ephemeris

  /** How a record's epoch column is turned into a date string for `Time`. */
  datatype DateStyle =
    | TwoDigitYear   // version 2: "20" + the column with "  " padded to " 0", trimmed
    | FullYear       // version 3: the column + ".0"
    | GlonassEpoch   // version 3 GLONASS: as FullYear, and also sets week and toe

  /** What the parser does with one column `[from, to)` of a line. */
  datatype Column =
    | SatId(from: nat, to: nat)                                   // Integer.parseInt of the trimmed column
    | Epoch(from: nat, to: nat, style: DateStyle)                 // reference time; an unparsable date leaves it unset
    | Value(field: Field, from: nat, to: nat, scale: int, shift: int)  // Double.parseDouble(column) * scale + shift
    | Whole(field: Field, from: nat, to: nat)                     // (int) Double.parseDouble(column)
    | Health(from: nat, to: nat)                                  // svHealth = (int) Double.parseDouble(column)
    | Fit(from: nat, to: nat)                                     // fitInt = (long) Double.parseDouble(column)
    | NoFit                                                       // fitInt = 0
    | Unused(from: nat, to: nat)                                  // the column is cut out and dropped
    | FlagOrZero(field: Field, from: nat, to: nat)                // blank column gives 0, otherwise (int) of it

  /** The record after a line, and whether the line was read without an exception escaping. */
  datatype Applied = Applied(rec: EphGps, ok: bool)

  /** A numeric column as handed to the Java parser: Fortran 'D' exponents become 'e', then trimmed. */
  function FieldText(sub: string): string {
    Trim(ReplaceChar(sub, 'D', 'e'))
  }

  /** The text of a numeric column, or `None` where the substring or the number conversion throws. */
  function Number(line: string, from: nat, to: nat, c: Codec): (r: Option<string>)
    ensures r.Some? ==> from <= to <= |line| && r.value == FieldText(line[from..to]) && c.isDouble(r.value)
  {
    var sub :- Substring(line, from, to);
    var t := FieldText(sub);
    if c.isDouble(t) then Some(t) else None
  }

  /** The date string handed to `new Time(...)`. */
  function DateText(sub: string, style: DateStyle): string {
    if style == TwoDigitYear then "20" + Trim(PadDoubleBlanks(sub)) else sub + ".0"
  }

  /**
   * The record after its epoch column `date` was read: where `new Time(...)`
   * accepts the date, the reference time and the time of clock, and for
   * GLONASS also the week and toe fields; where it does not, "Time parsing
   * failed" is printed and the record is kept as it was.
   */
  function Dated(r: EphGps, date: string, style: DateStyle, c: Codec): (d: EphGps)
    ensures d.satType == r.satType && d.satID == r.satID && d.svHealth == r.svHealth && d.fitInt == r.fitInt
    ensures c.parseTime(DateText(date, style)).None? ==> d == r
    ensures style != GlonassEpoch ==> d.values == r.values
  {
    match c.parseTime(DateText(date, style))
    case None => r
    case Some(ms) =>
      var toc := c.weekSec(ms);
      var dated := r.(refTime := Some(ms), toc := toc);
      if style == GlonassEpoch then dated.(values := dated.values[Week := Exact(c.week(ms))][Toe := Exact(toc)])
      else dated
  }

  function ApplyColumn(r: EphGps, line: string, col: Column, c: Codec): (a: Applied)
    ensures a.rec.satType == r.satType
  {
    match col
    case NoFit => Applied(r.(fitInt := 0), true)
    case SatId(from, to) =>
      (match Substring(line, from, to)
       case None => Applied(r, false)
       case Some(sub) =>
         (match c.parseInt(Trim(sub))
          case None => Applied(r, false)
          case Some(id) => Applied(r.(satID := id), true)))
    case Epoch(from, to, style) =>
      (match Substring(line, from, to)
       case None => Applied(r, false)
       case Some(sub) =>
         Applied(Dated(r, sub, style, c), true))
    case Value(f, from, to, scale, shift) =>
      (match Number(line, from, to, c)
       case None => Applied(r, false)
       case Some(t) => Applied(r.(values := r.values[f := Decimal(t, scale, shift)]), true))
    case Whole(f, from, to) =>
      (match Number(line, from, to, c)
       case None => Applied(r, false)
       case Some(t) => Applied(r.(values := r.values[f := Exact(c.truncDouble(t))]), true))
    case Health(from, to) =>
      (match Number(line, from, to, c)
       case None => Applied(r, false)
       case Some(t) => Applied(r.(svHealth := c.truncDouble(t)), true))
    case Fit(from, to) =>
      (match Number(line, from, to, c)
       case None => Applied(r, false)
       case Some(t) => Applied(r.(fitInt := c.truncDouble(t)), true))
    case Unused(from, to) =>
      Applied(r, Substring(line, from, to).Some?)
    case FlagOrZero(f, from, to) =>
      (match Substring(line, from, to)
       case None => Applied(r, false)
       case Some(sub) =>
         var t := FieldText(sub);
         if t == [] then Applied(r.(values := r.values[f := Exact(0)]), true)
         else if c.isDouble(t) then Applied(r.(values := r.values[f := Exact(c.truncDouble(t))]), true)
         else Applied(r, false))
  }

  /** The columns of a line applied left to right; the first exception stops the line. */
  function ApplyColumns(r: EphGps, line: string, cols: seq<Column>, c: Codec): (a: Applied)
    ensures a.rec.satType == r.satType
    decreases |cols|
  {
    if cols == [] then Applied(r, true)
    else
      var first := ApplyColumn(r, line, cols[0], c);
      if !first.ok then first else ApplyColumns(first.rec, line, cols[1..], c)
  }

  /** Four numeric columns starting at b0, b1, b2, b3, the last running to the end of the line. */
  function Row(f0: Field, f1: Field, f2: Field, f3: Field, b0: nat, b1: nat, b2: nat, b3: nat, len: nat): seq<Column> {
    [Value(f0, b0, b1, 1, 0), Value(f1, b1, b2, 1, 0), Value(f2, b2, b3, 1, 0), Value(f3, b3, len, 1, 0)]
  }

  /** Broadcast-orbit lines of a version 3 record: columns 4, 23, 42 and 61. */
  function V3Row(f0: Field, f1: Field, f2: Field, f3: Field, len: nat): seq<Column> {
    Row(f0, f1, f2, f3, 4, 23, 42, 61, len)
  }

  /** Line `slot` (0 to 7) of a version 2 GPS record. */
  function V2Layout(slot: nat, line: string): seq<Column> {
    var len := |line|;
    if slot == 0 then [SatId(0, 2), Epoch(2, 22, TwoDigitYear), Value(Af0, 22, 41, 1, 0), Value(Af1, 41, 60, 1, 0), Value(Af2, 60, len, 1, 0)]
    else if slot == 1 then [Whole(Iode, 3, 22), Value(Crs, 22, 41, 1, 0), Value(DeltaN, 41, 60, 1, 0), Value(M0, 60, len, 1, 0)]
    else if slot == 2 then Row(Cuc, E, Cus, RootA, 0, 22, 41, 60, len)
    else if slot == 3 then Row(Toe, Cic, Omega0, Cis, 0, 22, 41, 60, len)
    else if slot == 4 then Row(I0, Crc, Omega, OmegaDot, 0, 22, 41, 60, len)
    else if slot == 5 then [Value(IDot, 0, 22, 1, 0), Whole(L2Code, 22, 41), Whole(Week, 41, 60), Whole(L2Flag, 60, len)]
    else if slot == 6 then [Whole(SvAccur, 0, 22), Health(22, 41), Value(Tgd, 41, 60, 1, 0), Whole(Iodc, 60, len)]
    else if slot == 7 then [Value(Tom, 0, 22, 1, 0), if len > 22 then Fit(22, 41) else NoFit]
    else []
  }

  /** Line `slot` of a version 3 record of system `sys` (the system letter already consumed). */
  function V3Layout(sys: char, slot: nat, line: string): seq<Column> {
    var len := |line|;
    if sys == 'R' then
      if slot == 0 then [SatId(0, 2), Epoch(3, 22, GlonassEpoch), Value(TauN, 22, 41, 1, 0), Value(GammaN, 41, 60, 1, 0), Value(Tk, 60, len, 1, -10800)]
      else if slot == 1 then [Value(X, 4, 23, 1000, 0), Value(Xv, 23, 42, 1000, 0), Value(Xa, 42, 61, 1000, 0), Value(Bn, 61, len, 1, 0)]
      else if slot == 2 then [Value(Y, 4, 23, 1000, 0), Value(Yv, 23, 42, 1000, 0), Value(Ya, 42, 61, 1000, 0), Whole(FreqNum, 61, len)]
      else if slot == 3 then [Value(Z, 4, 23, 1000, 0), Value(Zv, 23, 42, 1000, 0), Value(Za, 42, 61, 1000, 0), Value(En, 61, len, 1, 0)]
      else []
    else
      if slot == 0 then [SatId(0, 2), Epoch(3, 22, FullYear), Value(Af0, 22, 41, 1, 0), Value(Af1, 41, 60, 1, 0), Value(Af2, 60, len, 1, 0)]
      else if slot == 1 then [Whole(Iode, 4, 23), Value(Crs, 23, 42, 1, 0), Value(DeltaN, 42, 61, 1, 0), Value(M0, 61, len, 1, 0)]
      else if slot == 2 then V3Row(Cuc, E, Cus, RootA, len)
      else if slot == 3 then V3Row(Toe, Cic, Omega0, Cis, len)
      else if slot == 4 then V3Row(I0, Crc, Omega, OmegaDot, len)
      else if slot == 5 then
        [Value(IDot, 4, 23, 1, 0),
         if sys == 'G' then Whole(L2Code, 23, 42) else Unused(23, 42),
         Whole(Week, 42, 61),
         FlagOrZero(L2Flag, 61, len)]
      else if slot == 6 then [Whole(SvAccur, 4, 23), Health(23, 42), Value(Tgd, 42, 61, 1, 0), Whole(Iodc, 61, len)]
      else if slot == 7 then [Value(Tom, 4, 23, 1, 0), if |Trim(line)| > 22 then Fit(23, 42) else NoFit]
      else []
  }

  /** A column whose `substring` bounds fall outside the line: Java throws on it. */
  predicate CutsPast(col: Column, line: string) {
    !col.NoFit? && !(col.from <= col.to <= |line|)
  }

  /** Any column cut past the end of the line stops the whole line with an exception. */
  lemma {:induction false} CutPastThrows(r: EphGps, line: string, cols: seq<Column>, c: Codec, k: nat)
    requires k < |cols| && CutsPast(cols[k], line)
    ensures !ApplyColumns(r, line, cols, c).ok
    decreases k
  {
    var first := ApplyColumn(r, line, cols[0], c);
    if k == 0 {
      CutColumnThrows(r, line, cols[0], c);
    } else if first.ok {
      assert cols[1..][k - 1] == cols[k];
      CutPastThrows(first.rec, line, cols[1..], c, k - 1);
    }
  }

  lemma CutColumnThrows(r: EphGps, line: string, col: Column, c: Codec)
    requires CutsPast(col, line)
    ensures !ApplyColumn(r, line, col, c).ok
  {
    assert Substring(line, col.from, col.to).None?;
  }

  /** The last column of lines 0 to 6 starts at column 60 (version 2) or 61 (version 3 orbit lines): a shorter line throws. */
  lemma ShortLineThrows(r: EphGps, line: string, v3: bool, sys: char, slot: nat, c: Codec)
    requires slot <= 6 && (v3 && sys == 'R' ==> slot <= 3)
    requires |line| < (if v3 && slot > 0 then 61 else 60)
    ensures !ApplyColumns(r, line, if v3 then V3Layout(sys, slot, line) else V2Layout(slot, line), c).ok
  {
    var cols := if v3 then V3Layout(sys, slot, line) else V2Layout(slot, line);
    var k := if slot == 0 then 4 else 3;
    assert CutsPast(cols[k], line);
    CutPastThrows(r, line, cols, c, k);
  }
}

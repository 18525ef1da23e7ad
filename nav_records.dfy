/**
 * What one well-formed navigation record stores. Each lemma takes the lines
 * of one record as they stand in the file, requires every column the parser
 * cuts out to exist and to hold a number `Double.parseDouble` accepts, and
 * states the record that `parseDataNavV2`/`parseDataNavV3` append: every
 * field, from which columns and with which scale.
 */
module NavRecords {
  import opened Wrappers
  import opened JavaText
  import opened Ephemeris
  import opened NavLayout
  import opened NavSpec

  // ---------------------------------------------------------------------------
  // Columns

  /** Columns `[from, to)` exist in `line` and hold a number `Double.parseDouble` accepts. */
  predicate Reads(line: string, from: nat, to: nat, c: Codec) {
    from <= to <= |line| && c.isDouble(FieldText(line[from..to]))
  }

  /** Four number columns starting at `b0` to `b3`, the last running to the end of the line. */
  predicate Reads4(line: string, b0: nat, b1: nat, b2: nat, b3: nat, c: Codec) {
    Reads(line, b0, b1, c) && Reads(line, b1, b2, c) && Reads(line, b2, b3, c) && Reads(line, b3, |line|, c)
  }

  /** `Double.parseDouble` of a column. */
  function Dec(line: string, from: nat, to: nat): Num
    requires from <= to <= |line|
  {
    Decimal(FieldText(line[from..to]), 1, 0)
  }

  /** `(int) Double.parseDouble` of a column. */
  function Int(line: string, from: nat, to: nat, c: Codec): Num
    requires from <= to <= |line|
  {
    Exact(c.truncDouble(FieldText(line[from..to])))
  }

  predicate IsNumber(col: Column) {
    col.Value? || col.Whole?
  }

  /** What a number column stores when it reads. */
  function Reading(line: string, col: Column, c: Codec): Num
    requires IsNumber(col) && col.from <= col.to <= |line|
  {
    var t := FieldText(line[col.from..col.to]);
    if col.Whole? then Exact(c.truncDouble(t)) else Decimal(t, col.scale, col.shift)
  }

  predicate NumberAt(line: string, col: Column, c: Codec) {
    IsNumber(col) && Reads(line, col.from, col.to, c)
  }

  /** A number column that reads stores its value under its field and nothing else. */
  lemma NumberColumn(r: EphGps, line: string, col: Column, c: Codec)
    requires NumberAt(line, col, c)
    ensures ApplyColumn(r, line, col, c) == Applied(r.(values := r.values[col.field := Reading(line, col, c)]), true)
  {
    assert Number(line, col.from, col.to, c) == Some(FieldText(line[col.from..col.to]));
  }

  /** A column read without an exception hands the rest of the line the record it made. */
  lemma ColumnsStep(r: EphGps, line: string, cols: seq<Column>, c: Codec, a: Applied)
    requires cols != [] && ApplyColumn(r, line, cols[0], c) == a && a.ok
    ensures ApplyColumns(r, line, cols, c) == ApplyColumns(a.rec, line, cols[1..], c)
  {
  }

  /** No columns left: the line ends without an exception. */
  lemma ColumnsEnd(r: EphGps, line: string, cols: seq<Column>, c: Codec)
    requires |cols| == 0
    ensures ApplyColumns(r, line, cols, c) == Applied(r, true)
  {
  }

  /** Three number columns that all read: the record stores the three readings. */
  lemma ThreeNumbers(rec: EphGps, line: string, cols: seq<Column>, c: Codec)
    requires |cols| == 3 && NumberAt(line, cols[0], c) && NumberAt(line, cols[1], c) && NumberAt(line, cols[2], c)
    ensures ApplyColumns(rec, line, cols, c) == Applied(rec.(values := rec.values
      [cols[0].field := Reading(line, cols[0], c)][cols[1].field := Reading(line, cols[1], c)]
      [cols[2].field := Reading(line, cols[2], c)]), true)
  {
    NumberColumn(rec, line, cols[0], c);
    var r1 := rec.(values := rec.values[cols[0].field := Reading(line, cols[0], c)]);
    ColumnsStep(rec, line, cols, c, Applied(r1, true));
    NumberColumn(r1, line, cols[1], c);
    var r2 := r1.(values := r1.values[cols[1].field := Reading(line, cols[1], c)]);
    ColumnsStep(r1, line, cols[1..], c, Applied(r2, true));
    NumberColumn(r2, line, cols[2], c);
    var r3 := r2.(values := r2.values[cols[2].field := Reading(line, cols[2], c)]);
    ColumnsStep(r2, line, cols[1..][1..], c, Applied(r3, true));
    ColumnsEnd(r3, line, cols[1..][1..][1..], c);
  }

  /** Four number columns that all read: the record stores the four readings. */
  lemma FourNumbers(rec: EphGps, line: string, cols: seq<Column>, c: Codec)
    requires |cols| == 4 && NumberAt(line, cols[0], c) && NumberAt(line, cols[1], c)
    requires NumberAt(line, cols[2], c) && NumberAt(line, cols[3], c)
    ensures ApplyColumns(rec, line, cols, c) == Applied(rec.(values := rec.values
      [cols[0].field := Reading(line, cols[0], c)][cols[1].field := Reading(line, cols[1], c)]
      [cols[2].field := Reading(line, cols[2], c)][cols[3].field := Reading(line, cols[3], c)]), true)
  {
    NumberColumn(rec, line, cols[0], c);
    var r1 := rec.(values := rec.values[cols[0].field := Reading(line, cols[0], c)]);
    ColumnsStep(rec, line, cols, c, Applied(r1, true));
    ThreeNumbers(r1, line, cols[1..], c);
  }

  /** The satellite number and epoch columns that open a record. */
  lemma HeadStart(r: EphGps, line: string, a: nat, style: DateStyle, cols: seq<Column>, c: Codec)
    requires a <= 22 <= |line| && c.parseInt(Trim(line[0..2])).Some?
    requires |cols| >= 2 && cols[0] == SatId(0, 2) && cols[1] == Epoch(a, 22, style)
    ensures ApplyColumns(r, line, cols, c)
      == ApplyColumns(Dated(r.(satID := c.parseInt(Trim(line[0..2])).value), line[a..22], style, c), line, cols[2..], c)
  {
    var r1 := r.(satID := c.parseInt(Trim(line[0..2])).value);
    assert Substring(line, 0, 2) == Some(line[0..2]);
    ColumnsStep(r, line, cols, c, Applied(r1, true));
    var d := Dated(r1, line[a..22], style, c);
    assert Substring(line, a, 22) == Some(line[a..22]);
    ColumnsStep(r1, line, cols[1..], c, Applied(d, true));
    assert cols[1..][1..] == cols[2..];
  }

  /**
   * The first line of a record: satellite number, epoch, then three number
   * columns.
   */
  lemma HeadLine(r: EphGps, line: string, a: nat, style: DateStyle, cols: seq<Column>, c: Codec)
    requires a <= 22 <= |line| && c.parseInt(Trim(line[0..2])).Some?
    requires |cols| == 5 && cols[0] == SatId(0, 2) && cols[1] == Epoch(a, 22, style)
    requires NumberAt(line, cols[2], c) && NumberAt(line, cols[3], c) && NumberAt(line, cols[4], c)
    ensures var d := Dated(r.(satID := c.parseInt(Trim(line[0..2])).value), line[a..22], style, c);
      ApplyColumns(r, line, cols, c) == Applied(d.(values := d.values
        [cols[2].field := Reading(line, cols[2], c)][cols[3].field := Reading(line, cols[3], c)]
        [cols[4].field := Reading(line, cols[4], c)]), true)
  {
    HeadStart(r, line, a, style, cols, c);
    var d := Dated(r.(satID := c.parseInt(Trim(line[0..2])).value), line[a..22], style, c);
    ThreeNumbers(d, line, cols[2..], c);
  }

  /** The first line of a record with its three number columns at 22, 41 and 60, the last shifted by `shift`. */
  lemma HeadNumbers(rec: EphGps, line: string, a: nat, style: DateStyle, f0: Field, f1: Field, f2: Field, shift: int, c: Codec)
    returns (next: EphGps)
    requires a <= 22 && |line| >= 60 && c.parseInt(Trim(line[0..2])).Some?
    requires Reads(line, 22, 41, c) && Reads(line, 41, 60, c) && Reads(line, 60, |line|, c)
    ensures var d := Dated(rec.(satID := c.parseInt(Trim(line[0..2])).value), line[a..22], style, c);
      next == d.(values := d.values[f0 := Dec(line, 22, 41)][f1 := Dec(line, 41, 60)]
                                   [f2 := Decimal(FieldText(line[60..|line|]), 1, shift)])
    ensures ApplyColumns(rec, line, [SatId(0, 2), Epoch(a, 22, style), Value(f0, 22, 41, 1, 0), Value(f1, 41, 60, 1, 0), Value(f2, 60, |line|, 1, shift)], c)
      == Applied(next, true)
  {
    var cols := [SatId(0, 2), Epoch(a, 22, style), Value(f0, 22, 41, 1, 0), Value(f1, 41, 60, 1, 0), Value(f2, 60, |line|, 1, shift)];
    HeadLine(rec, line, a, style, cols, c);
    var d := Dated(rec.(satID := c.parseInt(Trim(line[0..2])).value), line[a..22], style, c);
    next := d.(values := d.values[f0 := Dec(line, 22, 41)][f1 := Dec(line, 41, 60)][f2 := Decimal(FieldText(line[60..|line|]), 1, shift)]);
  }

  /** A health or fit column that reads stores `(int)`/`(long)` of its number. */
  lemma CastColumn(r: EphGps, line: string, col: Column, c: Codec)
    requires (col.Health? || col.Fit?) && Reads(line, col.from, col.to, c)
    ensures var n := c.truncDouble(FieldText(line[col.from..col.to]));
      ApplyColumn(r, line, col, c) == Applied(if col.Health? then r.(svHealth := n) else r.(fitInt := n), true)
  {
    assert Number(line, col.from, col.to, c) == Some(FieldText(line[col.from..col.to]));
  }

  /** The accuracy/health line: `svAccur`, `svHealth`, `tgd`, `iodc`. */
  lemma HealthLine(r: EphGps, line: string, b0: nat, b1: nat, b2: nat, b3: nat, c: Codec)
    requires Reads4(line, b0, b1, b2, b3, c)
    ensures ApplyColumns(r, line, [Whole(SvAccur, b0, b1), Health(b1, b2), Value(Tgd, b2, b3, 1, 0), Whole(Iodc, b3, |line|)], c)
      == Applied(r.(svHealth := c.truncDouble(FieldText(line[b1..b2])),
                    values := r.values[SvAccur := Int(line, b0, b1, c)][Tgd := Dec(line, b2, b3)][Iodc := Int(line, b3, |line|, c)]), true)
  {
    var cols := [Whole(SvAccur, b0, b1), Health(b1, b2), Value(Tgd, b2, b3, 1, 0), Whole(Iodc, b3, |line|)];
    NumberColumn(r, line, Whole(SvAccur, b0, b1), c);
    var r1 := r.(values := r.values[SvAccur := Int(line, b0, b1, c)]);
    ColumnsStep(r, line, cols, c, Applied(r1, true));
    CastColumn(r1, line, Health(b1, b2), c);
    var r2 := r1.(svHealth := c.truncDouble(FieldText(line[b1..b2])));
    ColumnsStep(r1, line, cols[1..], c, Applied(r2, true));
    NumberColumn(r2, line, Value(Tgd, b2, b3, 1, 0), c);
    var r3 := r2.(values := r2.values[Tgd := Dec(line, b2, b3)]);
    ColumnsStep(r2, line, cols[1..][1..], c, Applied(r3, true));
    NumberColumn(r3, line, Whole(Iodc, b3, |line|), c);
    var r4 := r3.(values := r3.values[Iodc := Int(line, b3, |line|, c)]);
    ColumnsStep(r3, line, cols[1..][1..][1..], c, Applied(r4, true));
    ColumnsEnd(r4, line, cols[1..][1..][1..][1..], c);
  }

  /** The last line: `tom`, then the fit interval, or 0 when the line has no fit column. */
  lemma LastLine(r: EphGps, line: string, b0: nat, b1: nat, b2: nat, long: bool, c: Codec)
    requires Reads(line, b0, b1, c) && (long ==> Reads(line, b1, b2, c))
    ensures ApplyColumns(r, line, [Value(Tom, b0, b1, 1, 0), if long then Fit(b1, b2) else NoFit], c)
      == Applied(r.(values := r.values[Tom := Dec(line, b0, b1)],
                    fitInt := if long then c.truncDouble(FieldText(line[b1..b2])) else 0), true)
  {
    var cols := [Value(Tom, b0, b1, 1, 0), if long then Fit(b1, b2) else NoFit];
    NumberColumn(r, line, Value(Tom, b0, b1, 1, 0), c);
    var r1 := r.(values := r.values[Tom := Dec(line, b0, b1)]);
    ColumnsStep(r, line, cols, c, Applied(r1, true));
    if long {
      assert cols[1..][0] == Fit(b1, b2);
      CastColumn(r1, line, Fit(b1, b2), c);
      var r2 := r1.(fitInt := c.truncDouble(FieldText(line[b1..b2])));
      ColumnsStep(r1, line, cols[1..], c, Applied(r2, true));
      ColumnsEnd(r2, line, cols[1..][1..], c);
    } else {
      assert cols[1..][0] == NoFit;
      assert ApplyColumn(r1, line, NoFit, c) == Applied(r1.(fitInt := 0), true);
      ColumnsStep(r1, line, cols[1..], c, Applied(r1.(fitInt := 0), true));
      ColumnsEnd(r1.(fitInt := 0), line, cols[1..][1..], c);
    }
  }

  /** `l2Flag` of a version 3 line: column 61 to the end, blank meaning 0. */
  predicate FlagReads(line: string, c: Codec) {
    61 <= |line| && (FieldText(line[61..|line|]) == [] || c.isDouble(FieldText(line[61..|line|])))
  }

  function Flag(line: string, c: Codec): Num
    requires 61 <= |line|
  {
    var t := FieldText(line[61..|line|]);
    if t == [] then Exact(0) else Exact(c.truncDouble(t))
  }

  /** Line 5 of a version 3 record: `idot`, `l2Code` (GPS only; the column is cut out and dropped otherwise), `week`, `l2Flag`. */
  lemma V3Line5(rec: EphGps, line: string, sys: char, c: Codec)
    requires Reads(line, 4, 23, c) && (sys == 'G' ==> Reads(line, 23, 42, c)) && Reads(line, 42, 61, c) && FlagReads(line, c)
    ensures var front := rec.values[IDot := Dec(line, 4, 23)];
      var mid := if sys == 'G' then front[L2Code := Int(line, 23, 42, c)] else front;
      ApplyColumns(rec, line, [Value(IDot, 4, 23, 1, 0), if sys == 'G' then Whole(L2Code, 23, 42) else Unused(23, 42),
                               Whole(Week, 42, 61), FlagOrZero(L2Flag, 61, |line|)], c)
      == Applied(rec.(values := mid[Week := Int(line, 42, 61, c)][L2Flag := Flag(line, c)]), true)
  {
    var cols := [Value(IDot, 4, 23, 1, 0), if sys == 'G' then Whole(L2Code, 23, 42) else Unused(23, 42),
                 Whole(Week, 42, 61), FlagOrZero(L2Flag, 61, |line|)];
    NumberColumn(rec, line, Value(IDot, 4, 23, 1, 0), c);
    var r1 := rec.(values := rec.values[IDot := Dec(line, 4, 23)]);
    ColumnsStep(rec, line, cols, c, Applied(r1, true));
    var r2;
    if sys == 'G' {
      assert cols[1..][0] == Whole(L2Code, 23, 42);
      NumberColumn(r1, line, Whole(L2Code, 23, 42), c);
      r2 := r1.(values := r1.values[L2Code := Int(line, 23, 42, c)]);
      ColumnsStep(r1, line, cols[1..], c, Applied(r2, true));
    } else {
      assert cols[1..][0] == Unused(23, 42);
      assert ApplyColumn(r1, line, Unused(23, 42), c) == Applied(r1, true);
      r2 := r1;
      ColumnsStep(r1, line, cols[1..], c, Applied(r2, true));
    }
    NumberColumn(r2, line, Whole(Week, 42, 61), c);
    var r3 := r2.(values := r2.values[Week := Int(line, 42, 61, c)]);
    ColumnsStep(r2, line, cols[1..][1..], c, Applied(r3, true));
    assert Substring(line, 61, |line|) == Some(line[61..|line|]);
    var r4 := r3.(values := r3.values[L2Flag := Flag(line, c)]);
    assert ApplyColumn(r3, line, FlagOrZero(L2Flag, 61, |line|), c) == Applied(r4, true);
    ColumnsStep(r3, line, cols[1..][1..][1..], c, Applied(r4, true));
    ColumnsEnd(r4, line, cols[1..][1..][1..][1..], c);
  }

  /** Slot `k` read by its columns `cols` without an exception: the slots after it go on from the record it made. */
  lemma SlotStep(rec: EphGps, ls: seq<string>, k: nat, v: Version, sys: char, c: Codec, cols: seq<Column>, next: EphGps)
    requires k < |ls| && Layout(v, sys, k, ls[k]) == cols && ApplyColumns(rec, ls[k], cols, c) == Applied(next, true)
    ensures Chain(rec, ls, k, v, sys, SlotsOf(c)) == Chain(next, ls, k + 1, v, sys, SlotsOf(c))
  {
    assert SlotsOf(c)(rec, ls[k], v, sys, k) == Applied(next, true);
  }

  /** A broadcast-orbit line of four plain numbers. */
  lemma RowLine(rec: EphGps, line: string, f0: Field, f1: Field, f2: Field, f3: Field, b0: nat, b1: nat, b2: nat, b3: nat, c: Codec)
    requires Reads4(line, b0, b1, b2, b3, c)
    ensures ApplyColumns(rec, line, Row(f0, f1, f2, f3, b0, b1, b2, b3, |line|), c) == Applied(rec.(values := rec.values
      [f0 := Dec(line, b0, b1)][f1 := Dec(line, b1, b2)][f2 := Dec(line, b2, b3)][f3 := Dec(line, b3, |line|)]), true)
  {
    FourNumbers(rec, line, Row(f0, f1, f2, f3, b0, b1, b2, b3, |line|), c);
  }

  // ---------------------------------------------------------------------------
  // Version 2

  /** The 8 lines of a version 2 GPS record whose every column reads. */
  predicate V2Lines(ls: seq<string>, c: Codec) {
    |ls| == 8
    && |ls[0]| >= 22 && c.parseInt(Trim(ls[0][0..2])).Some?
    && Reads(ls[0], 22, 41, c) && Reads(ls[0], 41, 60, c) && Reads(ls[0], 60, |ls[0]|, c)
    && Reads4(ls[1], 3, 22, 41, 60, c)
    && Reads4(ls[2], 0, 22, 41, 60, c) && Reads4(ls[3], 0, 22, 41, 60, c) && Reads4(ls[4], 0, 22, 41, 60, c)
    && Reads4(ls[5], 0, 22, 41, 60, c) && Reads4(ls[6], 0, 22, 41, 60, c)
    && Reads(ls[7], 0, 22, c) && (|ls[7]| > 22 ==> Reads(ls[7], 22, 41, c))
  }

  /** Eight lines each at least 22 characters long are none of them empty. */
  lemma EightNotEmpty(ls: seq<string>)
    requires |ls| == 8 && |ls[0]| >= 22 && |ls[1]| >= 22 && |ls[2]| >= 22 && |ls[3]| >= 22
    requires |ls[4]| >= 22 && |ls[5]| >= 22 && |ls[6]| >= 22 && |ls[7]| >= 22
    ensures forall j :: 0 <= j < 8 ==> ls[j] != ""
  {
    forall j | 0 <= j < 8 ensures |ls[j]| >= 22 {
      if j == 0 {} else if j == 1 {} else if j == 2 {} else if j == 3 {}
      else if j == 4 {} else if j == 5 {} else if j == 6 {} else {}
    }
  }

  /** Every line of a well-formed version 2 record is at least 22 characters long. */
  lemma V2LinesNotEmpty(ls: seq<string>, c: Codec)
    requires V2Lines(ls, c)
    ensures forall j :: 0 <= j < 8 ==> ls[j] != ""
  {
    EightNotEmpty(ls);
  }

  /**
   * The GPS record of a version 2 file: satellite number and epoch from line
   * 0 (a two-digit year, prefixed with "20"), the clock terms, then the
   * broadcast orbit lines at columns 0, 22, 41 and 60 (3 for the first,
   * `iode`), `(int)` casts where the parser casts, and a fit interval of 0
   * when the last line stops at column 22.
   */
  predicate V2Stored(e: EphGps, ls: seq<string>, c: Codec)
    requires V2Lines(ls, c)
  {
    var l0, l1, l2, l3, l4, l5, l6, l7 := ls[0], ls[1], ls[2], ls[3], ls[4], ls[5], ls[6], ls[7];
    var t := c.parseTime(DateText(l0[2..22], TwoDigitYear));
    e.satType == 'G' && e.satID == c.parseInt(Trim(l0[0..2])).value
    && e.refTime == t && e.toc == (if t.Some? then c.weekSec(t.value) else 0)
    && e.svHealth == c.truncDouble(FieldText(l6[22..41]))
    && e.fitInt == (if |l7| > 22 then c.truncDouble(FieldText(l7[22..41])) else 0)
    && e.values == map[
      Af0 := Dec(l0, 22, 41), Af1 := Dec(l0, 41, 60), Af2 := Dec(l0, 60, |l0|),
      Iode := Int(l1, 3, 22, c), Crs := Dec(l1, 22, 41), DeltaN := Dec(l1, 41, 60), M0 := Dec(l1, 60, |l1|),
      Cuc := Dec(l2, 0, 22), E := Dec(l2, 22, 41), Cus := Dec(l2, 41, 60), RootA := Dec(l2, 60, |l2|),
      Toe := Dec(l3, 0, 22), Cic := Dec(l3, 22, 41), Omega0 := Dec(l3, 41, 60), Cis := Dec(l3, 60, |l3|),
      I0 := Dec(l4, 0, 22), Crc := Dec(l4, 22, 41), Omega := Dec(l4, 41, 60), OmegaDot := Dec(l4, 60, |l4|),
      IDot := Dec(l5, 0, 22), L2Code := Int(l5, 22, 41, c), Week := Int(l5, 41, 60, c), L2Flag := Int(l5, 60, |l5|, c),
      SvAccur := Int(l6, 0, 22, c), Tgd := Dec(l6, 41, 60), Iodc := Int(l6, 60, |l6|, c),
      Tom := Dec(l7, 0, 22)]
  }

  /** Line 0: satellite number, epoch with a two-digit year, clock bias, drift and drift rate. */
  lemma V2Slot0(rec: EphGps, ls: seq<string>, c: Codec) returns (next: EphGps)
    requires V2Lines(ls, c)
    ensures var l := ls[0]; var d := Dated(rec.(satID := c.parseInt(Trim(l[0..2])).value), l[2..22], TwoDigitYear, c);
      next == d.(values := d.values[Af0 := Dec(l, 22, 41)][Af1 := Dec(l, 41, 60)][Af2 := Dec(l, 60, |l|)])
    ensures Chain(rec, ls, 0, V2, 'G', SlotsOf(c)) == Chain(next, ls, 1, V2, 'G', SlotsOf(c))
  {
    var l := ls[0];
    var cols := [SatId(0, 2), Epoch(2, 22, TwoDigitYear), Value(Af0, 22, 41, 1, 0), Value(Af1, 41, 60, 1, 0), Value(Af2, 60, |l|, 1, 0)];
    next := HeadNumbers(rec, l, 2, TwoDigitYear, Af0, Af1, Af2, 0, c);
    SlotStep(rec, ls, 0, V2, 'G', c, cols, next);
  }

  /** Line 1: `iode` (cast to int), `crs`, `deltaN`, `m0`. */
  lemma V2Slot1(rec: EphGps, ls: seq<string>, c: Codec) returns (next: EphGps)
    requires V2Lines(ls, c)
    ensures var l := ls[1]; next == rec.(values := rec.values
      [Iode := Int(l, 3, 22, c)][Crs := Dec(l, 22, 41)][DeltaN := Dec(l, 41, 60)][M0 := Dec(l, 60, |l|)])
    ensures Chain(rec, ls, 1, V2, 'G', SlotsOf(c)) == Chain(next, ls, 2, V2, 'G', SlotsOf(c))
  {
    var l := ls[1];
    var cols := [Whole(Iode, 3, 22), Value(Crs, 22, 41, 1, 0), Value(DeltaN, 41, 60, 1, 0), Value(M0, 60, |l|, 1, 0)];
    FourNumbers(rec, l, cols, c);
    next := rec.(values := rec.values[Iode := Int(l, 3, 22, c)][Crs := Dec(l, 22, 41)][DeltaN := Dec(l, 41, 60)][M0 := Dec(l, 60, |l|)]);
    SlotStep(rec, ls, 1, V2, 'G', c, cols, next);
  }

  /** Lines 2 to 4: four plain numbers at columns 0, 22, 41 and 60. */
  lemma V2Orbit(rec: EphGps, ls: seq<string>, k: nat, f0: Field, f1: Field, f2: Field, f3: Field, c: Codec) returns (next: EphGps)
    requires V2Lines(ls, c) && 2 <= k <= 4 && V2Layout(k, ls[k]) == Row(f0, f1, f2, f3, 0, 22, 41, 60, |ls[k]|)
    ensures var l := ls[k]; next == rec.(values := rec.values
      [f0 := Dec(l, 0, 22)][f1 := Dec(l, 22, 41)][f2 := Dec(l, 41, 60)][f3 := Dec(l, 60, |l|)])
    ensures Chain(rec, ls, k, V2, 'G', SlotsOf(c)) == Chain(next, ls, k + 1, V2, 'G', SlotsOf(c))
  {
    var l := ls[k];
    RowLine(rec, l, f0, f1, f2, f3, 0, 22, 41, 60, c);
    next := rec.(values := rec.values[f0 := Dec(l, 0, 22)][f1 := Dec(l, 22, 41)][f2 := Dec(l, 41, 60)][f3 := Dec(l, 60, |l|)]);
    SlotStep(rec, ls, k, V2, 'G', c, Row(f0, f1, f2, f3, 0, 22, 41, 60, |l|), next);
  }

  /** Line 5: `idot`, then `l2Code`, `week` and `l2Flag`, each cast to int. */
  lemma V2Slot5(rec: EphGps, ls: seq<string>, c: Codec) returns (next: EphGps)
    requires V2Lines(ls, c)
    ensures var l := ls[5]; next == rec.(values := rec.values
      [IDot := Dec(l, 0, 22)][L2Code := Int(l, 22, 41, c)][Week := Int(l, 41, 60, c)][L2Flag := Int(l, 60, |l|, c)])
    ensures Chain(rec, ls, 5, V2, 'G', SlotsOf(c)) == Chain(next, ls, 6, V2, 'G', SlotsOf(c))
  {
    var l := ls[5];
    var cols := [Value(IDot, 0, 22, 1, 0), Whole(L2Code, 22, 41), Whole(Week, 41, 60), Whole(L2Flag, 60, |l|)];
    FourNumbers(rec, l, cols, c);
    next := rec.(values := rec.values[IDot := Dec(l, 0, 22)][L2Code := Int(l, 22, 41, c)][Week := Int(l, 41, 60, c)][L2Flag := Int(l, 60, |l|, c)]);
    SlotStep(rec, ls, 5, V2, 'G', c, cols, next);
  }

  /** Line 6: `svAccur`, `svHealth`, `tgd`, `iodc`. */
  lemma V2Slot6(rec: EphGps, ls: seq<string>, c: Codec) returns (next: EphGps)
    requires V2Lines(ls, c)
    ensures var l := ls[6]; next == rec.(svHealth := c.truncDouble(FieldText(l[22..41])),
      values := rec.values[SvAccur := Int(l, 0, 22, c)][Tgd := Dec(l, 41, 60)][Iodc := Int(l, 60, |l|, c)])
    ensures Chain(rec, ls, 6, V2, 'G', SlotsOf(c)) == Chain(next, ls, 7, V2, 'G', SlotsOf(c))
  {
    var l := ls[6];
    HealthLine(rec, l, 0, 22, 41, 60, c);
    next := rec.(svHealth := c.truncDouble(FieldText(l[22..41])),
      values := rec.values[SvAccur := Int(l, 0, 22, c)][Tgd := Dec(l, 41, 60)][Iodc := Int(l, 60, |l|, c)]);
    SlotStep(rec, ls, 6, V2, 'G', c, [Whole(SvAccur, 0, 22), Health(22, 41), Value(Tgd, 41, 60, 1, 0), Whole(Iodc, 60, |l|)], next);
  }

  /** Line 7: `tom`, and the fit interval when the line goes past column 22. */
  lemma V2Slot7(rec: EphGps, ls: seq<string>, c: Codec) returns (next: EphGps)
    requires V2Lines(ls, c)
    ensures var l := ls[7]; next == rec.(values := rec.values[Tom := Dec(l, 0, 22)],
      fitInt := if |l| > 22 then c.truncDouble(FieldText(l[22..41])) else 0)
    ensures Chain(rec, ls, 7, V2, 'G', SlotsOf(c)) == Applied(next, true)
  {
    var l := ls[7];
    LastLine(rec, l, 0, 22, 41, |l| > 22, c);
    next := rec.(values := rec.values[Tom := Dec(l, 0, 22)], fitInt := if |l| > 22 then c.truncDouble(FieldText(l[22..41])) else 0);
    SlotStep(rec, ls, 7, V2, 'G', c, [Value(Tom, 0, 22, 1, 0), if |l| > 22 then Fit(22, 41) else NoFit], next);
  }

  /** Lines 0 to 3 of a version 2 record: clock terms and the first three orbit lines. */
  lemma V2Front(ls: seq<string>, c: Codec) returns (next: EphGps)
    requires V2Lines(ls, c)
    ensures var l0, l1, l2, l3 := ls[0], ls[1], ls[2], ls[3];
      var d := Dated(NewEph('G').(satID := c.parseInt(Trim(l0[0..2])).value), l0[2..22], TwoDigitYear, c);
      next == d.(values := map[
        Af0 := Dec(l0, 22, 41), Af1 := Dec(l0, 41, 60), Af2 := Dec(l0, 60, |l0|),
        Iode := Int(l1, 3, 22, c), Crs := Dec(l1, 22, 41), DeltaN := Dec(l1, 41, 60), M0 := Dec(l1, 60, |l1|),
        Cuc := Dec(l2, 0, 22), E := Dec(l2, 22, 41), Cus := Dec(l2, 41, 60), RootA := Dec(l2, 60, |l2|),
        Toe := Dec(l3, 0, 22), Cic := Dec(l3, 22, 41), Omega0 := Dec(l3, 41, 60), Cis := Dec(l3, 60, |l3|)])
    ensures Chain(NewEph('G'), ls, 0, V2, 'G', SlotsOf(c)) == Chain(next, ls, 4, V2, 'G', SlotsOf(c))
  {
    var r1 := V2Slot0(NewEph('G'), ls, c);
    var r2 := V2Slot1(r1, ls, c);
    var r3 := V2Orbit(r2, ls, 2, Cuc, E, Cus, RootA, c);
    next := V2Orbit(r3, ls, 3, Toe, Cic, Omega0, Cis, c);
  }

  /** Lines 4 to 7 of a version 2 record: the last orbit lines, health, and the fit interval. */
  lemma V2Back(rec: EphGps, ls: seq<string>, c: Codec) returns (e: EphGps)
    requires V2Lines(ls, c)
    ensures var l4, l5, l6, l7 := ls[4], ls[5], ls[6], ls[7];
      e == rec.(svHealth := c.truncDouble(FieldText(l6[22..41])),
                fitInt := if |l7| > 22 then c.truncDouble(FieldText(l7[22..41])) else 0,
                values := rec.values
                  [I0 := Dec(l4, 0, 22)][Crc := Dec(l4, 22, 41)][Omega := Dec(l4, 41, 60)][OmegaDot := Dec(l4, 60, |l4|)]
                  [IDot := Dec(l5, 0, 22)][L2Code := Int(l5, 22, 41, c)][Week := Int(l5, 41, 60, c)][L2Flag := Int(l5, 60, |l5|, c)]
                  [SvAccur := Int(l6, 0, 22, c)][Tgd := Dec(l6, 41, 60)][Iodc := Int(l6, 60, |l6|, c)]
                  [Tom := Dec(l7, 0, 22)])
    ensures Chain(rec, ls, 4, V2, 'G', SlotsOf(c)) == Applied(e, true)
  {
    var r5 := V2Orbit(rec, ls, 4, I0, Crc, Omega, OmegaDot, c);
    var r6 := V2Slot5(r5, ls, c);
    var r7 := V2Slot6(r6, ls, c);
    e := V2Slot7(r7, ls, c);
  }

  /** The 8 slots of a well-formed version 2 record fill a fresh GPS record as `V2Stored` says. */
  lemma V2Filled(ls: seq<string>, c: Codec) returns (e: EphGps)
    requires V2Lines(ls, c)
    ensures Chain(NewEph('G'), ls, 0, V2, 'G', SlotsOf(c)) == Applied(e, true) && V2Stored(e, ls, c)
  {
    var r4 := V2Front(ls, c);
    e := V2Back(r4, ls, c);
  }

  /**
   * `parseDataNavV2` on a well-formed record: exactly one record is
   * appended, the ones before it are kept, the 8 lines are consumed, and the
   * new record holds what `V2Stored` lists.
   */
  lemma V2RecordStores(s: Parse, ls: seq<string>, rest: seq<string>, c: Codec)
    requires Consistent(s) && s.ok && s.pending == ls + rest && V2Lines(ls, c)
    ensures var r := V2Record(s, SlotsOf(c));
      r.ok && r.pending == rest && |r.store| == |s.store| + 1 && r.store[..|s.store|] == s.store
      && V2Stored(r.store[|s.store|], ls, c)
  {
    V2LinesNotEmpty(ls, c);
    V2RecordChain(s, ls, rest, SlotsOf(c));
    var e := V2Filled(ls, c);
    assert V2Record(s, SlotsOf(c)).store == s.store + [e];
  }

  // ---------------------------------------------------------------------------
  // Version 3, GPS, BeiDou and Galileo

  /** The systems whose version 3 records have 8 lines. */
  predicate EightLineSystem(sys: char) {
    sys == 'G' || sys == 'C' || sys == 'E'
  }

  /**
   * The 8 lines of a version 3 record of system `sys` (the system letter
   * already read) whose every column reads: the orbit lines have their
   * columns at 4, 23, 42 and 61.
   */
  predicate V3Lines(sys: char, ls: seq<string>, c: Codec) {
    |ls| == 8
    && |ls[0]| >= 22 && c.parseInt(Trim(ls[0][0..2])).Some?
    && Reads(ls[0], 22, 41, c) && Reads(ls[0], 41, 60, c) && Reads(ls[0], 60, |ls[0]|, c)
    && Reads4(ls[1], 4, 23, 42, 61, c) && Reads4(ls[2], 4, 23, 42, 61, c)
    && Reads4(ls[3], 4, 23, 42, 61, c) && Reads4(ls[4], 4, 23, 42, 61, c)
    && Reads(ls[5], 4, 23, c) && (sys == 'G' ==> Reads(ls[5], 23, 42, c)) && Reads(ls[5], 42, 61, c) && FlagReads(ls[5], c)
    && Reads4(ls[6], 4, 23, 42, 61, c)
    && Reads(ls[7], 4, 23, c) && (|Trim(ls[7])| > 22 ==> Reads(ls[7], 23, 42, c))
  }

  /**
   * The record of a version 3 GPS, BeiDou or Galileo entry: satellite number
   * and epoch (a full date) from line 0, the clock terms, the orbit lines at
   * columns 4, 23, 42 and 61, `l2Code` for GPS only, `l2Flag` 0 when blank,
   * and a fit interval of 0 when the trimmed last line is at most 22 long.
   */
  predicate V3Stored(sys: char, e: EphGps, ls: seq<string>, c: Codec)
    requires V3Lines(sys, ls, c)
  {
    var l0, l1, l2, l3, l4, l5, l6, l7 := ls[0], ls[1], ls[2], ls[3], ls[4], ls[5], ls[6], ls[7];
    var t := c.parseTime(DateText(l0[3..22], FullYear));
    var front := map[
      Af0 := Dec(l0, 22, 41), Af1 := Dec(l0, 41, 60), Af2 := Dec(l0, 60, |l0|),
      Iode := Int(l1, 4, 23, c), Crs := Dec(l1, 23, 42), DeltaN := Dec(l1, 42, 61), M0 := Dec(l1, 61, |l1|),
      Cuc := Dec(l2, 4, 23), E := Dec(l2, 23, 42), Cus := Dec(l2, 42, 61), RootA := Dec(l2, 61, |l2|),
      Toe := Dec(l3, 4, 23), Cic := Dec(l3, 23, 42), Omega0 := Dec(l3, 42, 61), Cis := Dec(l3, 61, |l3|),
      I0 := Dec(l4, 4, 23), Crc := Dec(l4, 23, 42), Omega := Dec(l4, 42, 61), OmegaDot := Dec(l4, 61, |l4|),
      IDot := Dec(l5, 4, 23)];
    var mid := if sys == 'G' then front[L2Code := Int(l5, 23, 42, c)] else front;
    e.satType == sys && e.satID == c.parseInt(Trim(l0[0..2])).value
    && e.refTime == t && e.toc == (if t.Some? then c.weekSec(t.value) else 0)
    && e.svHealth == c.truncDouble(FieldText(l6[23..42]))
    && e.fitInt == (if |Trim(l7)| > 22 then c.truncDouble(FieldText(l7[23..42])) else 0)
    && e.values == mid[Week := Int(l5, 42, 61, c)][L2Flag := Flag(l5, c)]
                      [SvAccur := Int(l6, 4, 23, c)][Tgd := Dec(l6, 42, 61)][Iodc := Int(l6, 61, |l6|, c)]
                      [Tom := Dec(l7, 4, 23)]
  }

  /** Line 0: satellite number, epoch, clock bias, drift and drift rate. */
  lemma V3Slot0(sys: char, rec: EphGps, ls: seq<string>, c: Codec) returns (next: EphGps)
    requires EightLineSystem(sys) && |ls| == 8
    requires |ls[0]| >= 22 && c.parseInt(Trim(ls[0][0..2])).Some?
    requires Reads(ls[0], 22, 41, c) && Reads(ls[0], 41, 60, c) && Reads(ls[0], 60, |ls[0]|, c)
    ensures var l := ls[0]; var d := Dated(rec.(satID := c.parseInt(Trim(l[0..2])).value), l[3..22], FullYear, c);
      next == d.(values := d.values[Af0 := Dec(l, 22, 41)][Af1 := Dec(l, 41, 60)][Af2 := Dec(l, 60, |l|)])
    ensures Chain(rec, ls, 0, V3, sys, SlotsOf(c)) == Chain(next, ls, 1, V3, sys, SlotsOf(c))
  {
    var l := ls[0];
    var cols := [SatId(0, 2), Epoch(3, 22, FullYear), Value(Af0, 22, 41, 1, 0), Value(Af1, 41, 60, 1, 0), Value(Af2, 60, |l|, 1, 0)];
    next := HeadNumbers(rec, l, 3, FullYear, Af0, Af1, Af2, 0, c);
    SlotStep(rec, ls, 0, V3, sys, c, cols, next);
  }

  /** Line 1: `iode` (cast to int), `crs`, `deltaN`, `m0`. */
  lemma V3Slot1(sys: char, rec: EphGps, ls: seq<string>, c: Codec) returns (next: EphGps)
    requires EightLineSystem(sys) && |ls| == 8 && Reads4(ls[1], 4, 23, 42, 61, c)
    ensures var l := ls[1]; next == rec.(values := rec.values
      [Iode := Int(l, 4, 23, c)][Crs := Dec(l, 23, 42)][DeltaN := Dec(l, 42, 61)][M0 := Dec(l, 61, |l|)])
    ensures Chain(rec, ls, 1, V3, sys, SlotsOf(c)) == Chain(next, ls, 2, V3, sys, SlotsOf(c))
  {
    var l := ls[1];
    var cols := [Whole(Iode, 4, 23), Value(Crs, 23, 42, 1, 0), Value(DeltaN, 42, 61, 1, 0), Value(M0, 61, |l|, 1, 0)];
    FourNumbers(rec, l, cols, c);
    next := rec.(values := rec.values[Iode := Int(l, 4, 23, c)][Crs := Dec(l, 23, 42)][DeltaN := Dec(l, 42, 61)][M0 := Dec(l, 61, |l|)]);
    SlotStep(rec, ls, 1, V3, sys, c, cols, next);
  }

  /** Lines 2 to 4: four plain numbers at columns 4, 23, 42 and 61. */
  lemma V3Orbit(sys: char, rec: EphGps, ls: seq<string>, k: nat, f0: Field, f1: Field, f2: Field, f3: Field, c: Codec) returns (next: EphGps)
    requires EightLineSystem(sys) && |ls| == 8 && 2 <= k <= 4 && Reads4(ls[k], 4, 23, 42, 61, c)
    requires V3Layout(sys, k, ls[k]) == V3Row(f0, f1, f2, f3, |ls[k]|)
    ensures var l := ls[k]; next == rec.(values := rec.values
      [f0 := Dec(l, 4, 23)][f1 := Dec(l, 23, 42)][f2 := Dec(l, 42, 61)][f3 := Dec(l, 61, |l|)])
    ensures Chain(rec, ls, k, V3, sys, SlotsOf(c)) == Chain(next, ls, k + 1, V3, sys, SlotsOf(c))
  {
    var l := ls[k];
    RowLine(rec, l, f0, f1, f2, f3, 4, 23, 42, 61, c);
    next := rec.(values := rec.values[f0 := Dec(l, 4, 23)][f1 := Dec(l, 23, 42)][f2 := Dec(l, 42, 61)][f3 := Dec(l, 61, |l|)]);
    SlotStep(rec, ls, k, V3, sys, c, Row(f0, f1, f2, f3, 4, 23, 42, 61, |l|), next);
  }

  /** Line 5: `idot`, `l2Code` for GPS, `week`, `l2Flag`. */
  lemma V3Slot5(sys: char, rec: EphGps, ls: seq<string>, c: Codec) returns (next: EphGps)
    requires EightLineSystem(sys) && |ls| == 8
    requires Reads(ls[5], 4, 23, c) && (sys == 'G' ==> Reads(ls[5], 23, 42, c)) && Reads(ls[5], 42, 61, c) && FlagReads(ls[5], c)
    ensures var l := ls[5]; var front := rec.values[IDot := Dec(l, 4, 23)];
      var mid := if sys == 'G' then front[L2Code := Int(l, 23, 42, c)] else front;
      next == rec.(values := mid[Week := Int(l, 42, 61, c)][L2Flag := Flag(l, c)])
    ensures Chain(rec, ls, 5, V3, sys, SlotsOf(c)) == Chain(next, ls, 6, V3, sys, SlotsOf(c))
  {
    var l := ls[5];
    V3Line5(rec, l, sys, c);
    var front := rec.values[IDot := Dec(l, 4, 23)];
    var mid := if sys == 'G' then front[L2Code := Int(l, 23, 42, c)] else front;
    next := rec.(values := mid[Week := Int(l, 42, 61, c)][L2Flag := Flag(l, c)]);
    SlotStep(rec, ls, 5, V3, sys, c, [Value(IDot, 4, 23, 1, 0), if sys == 'G' then Whole(L2Code, 23, 42) else Unused(23, 42),
                                      Whole(Week, 42, 61), FlagOrZero(L2Flag, 61, |l|)], next);
  }

  /** Line 6: `svAccur`, `svHealth`, `tgd`, `iodc`. */
  lemma V3Slot6(sys: char, rec: EphGps, ls: seq<string>, c: Codec) returns (next: EphGps)
    requires EightLineSystem(sys) && |ls| == 8 && Reads4(ls[6], 4, 23, 42, 61, c)
    ensures var l := ls[6]; next == rec.(svHealth := c.truncDouble(FieldText(l[23..42])),
      values := rec.values[SvAccur := Int(l, 4, 23, c)][Tgd := Dec(l, 42, 61)][Iodc := Int(l, 61, |l|, c)])
    ensures Chain(rec, ls, 6, V3, sys, SlotsOf(c)) == Chain(next, ls, 7, V3, sys, SlotsOf(c))
  {
    var l := ls[6];
    HealthLine(rec, l, 4, 23, 42, 61, c);
    next := rec.(svHealth := c.truncDouble(FieldText(l[23..42])),
      values := rec.values[SvAccur := Int(l, 4, 23, c)][Tgd := Dec(l, 42, 61)][Iodc := Int(l, 61, |l|, c)]);
    SlotStep(rec, ls, 6, V3, sys, c, [Whole(SvAccur, 4, 23), Health(23, 42), Value(Tgd, 42, 61, 1, 0), Whole(Iodc, 61, |l|)], next);
  }

  /** The columns of line 7 of a GPS, BeiDou or Galileo record. */
  lemma V3LastLayout(sys: char, line: string)
    requires EightLineSystem(sys)
    ensures Layout(V3, sys, 7, line) == [Value(Tom, 4, 23, 1, 0), if |Trim(line)| > 22 then Fit(23, 42) else NoFit]
  {
  }

  /** Line 7: `tom`, and the fit interval when the trimmed line is longer than 22. */
  lemma V3Slot7(sys: char, rec: EphGps, ls: seq<string>, c: Codec) returns (next: EphGps)
    requires EightLineSystem(sys) && |ls| == 8 && Reads(ls[7], 4, 23, c) && (|Trim(ls[7])| > 22 ==> Reads(ls[7], 23, 42, c))
    ensures var l := ls[7]; next == rec.(values := rec.values[Tom := Dec(l, 4, 23)],
      fitInt := if |Trim(l)| > 22 then c.truncDouble(FieldText(l[23..42])) else 0)
    ensures Chain(rec, ls, 7, V3, sys, SlotsOf(c)) == Applied(next, true)
  {
    var l := ls[7];
    LastLine(rec, l, 4, 23, 42, |Trim(l)| > 22, c);
    next := rec.(values := rec.values[Tom := Dec(l, 4, 23)], fitInt := if |Trim(l)| > 22 then c.truncDouble(FieldText(l[23..42])) else 0);
    V3LastLayout(sys, l);
    SlotStep(rec, ls, 7, V3, sys, c, [Value(Tom, 4, 23, 1, 0), if |Trim(l)| > 22 then Fit(23, 42) else NoFit], next);
  }

  /** Lines 0 to 3 of a version 3 record of system `sys`. */
  lemma V3Front(sys: char, ls: seq<string>, c: Codec) returns (next: EphGps)
    requires EightLineSystem(sys) && V3Lines(sys, ls, c)
    ensures var l0, l1, l2, l3 := ls[0], ls[1], ls[2], ls[3];
      var d := Dated(NewEph(sys).(satID := c.parseInt(Trim(l0[0..2])).value), l0[3..22], FullYear, c);
      next == d.(values := map[
        Af0 := Dec(l0, 22, 41), Af1 := Dec(l0, 41, 60), Af2 := Dec(l0, 60, |l0|),
        Iode := Int(l1, 4, 23, c), Crs := Dec(l1, 23, 42), DeltaN := Dec(l1, 42, 61), M0 := Dec(l1, 61, |l1|),
        Cuc := Dec(l2, 4, 23), E := Dec(l2, 23, 42), Cus := Dec(l2, 42, 61), RootA := Dec(l2, 61, |l2|),
        Toe := Dec(l3, 4, 23), Cic := Dec(l3, 23, 42), Omega0 := Dec(l3, 42, 61), Cis := Dec(l3, 61, |l3|)])
    ensures Chain(NewEph(sys), ls, 0, V3, sys, SlotsOf(c)) == Chain(next, ls, 4, V3, sys, SlotsOf(c))
  {
    var r1 := V3Slot0(sys, NewEph(sys), ls, c);
    var r2 := V3Slot1(sys, r1, ls, c);
    var r3 := V3Orbit(sys, r2, ls, 2, Cuc, E, Cus, RootA, c);
    next := V3Orbit(sys, r3, ls, 3, Toe, Cic, Omega0, Cis, c);
  }

  /** Lines 4 and 5 of a version 3 record of system `sys`. */
  lemma V3Middle(sys: char, rec: EphGps, ls: seq<string>, c: Codec) returns (next: EphGps)
    requires EightLineSystem(sys) && |ls| == 8 && Reads4(ls[4], 4, 23, 42, 61, c)
    requires Reads(ls[5], 4, 23, c) && (sys == 'G' ==> Reads(ls[5], 23, 42, c)) && Reads(ls[5], 42, 61, c) && FlagReads(ls[5], c)
    ensures var l4, l5 := ls[4], ls[5];
      var front := rec.values[I0 := Dec(l4, 4, 23)][Crc := Dec(l4, 23, 42)][Omega := Dec(l4, 42, 61)][OmegaDot := Dec(l4, 61, |l4|)]
                             [IDot := Dec(l5, 4, 23)];
      var mid := if sys == 'G' then front[L2Code := Int(l5, 23, 42, c)] else front;
      next == rec.(values := mid[Week := Int(l5, 42, 61, c)][L2Flag := Flag(l5, c)])
    ensures Chain(rec, ls, 4, V3, sys, SlotsOf(c)) == Chain(next, ls, 6, V3, sys, SlotsOf(c))
  {
    var r5 := V3Orbit(sys, rec, ls, 4, I0, Crc, Omega, OmegaDot, c);
    next := V3Slot5(sys, r5, ls, c);
  }

  /** Lines 6 and 7 of a version 3 record of system `sys`. */
  lemma V3Tail(sys: char, rec: EphGps, ls: seq<string>, c: Codec) returns (e: EphGps)
    requires EightLineSystem(sys) && |ls| == 8
    requires Reads4(ls[6], 4, 23, 42, 61, c) && Reads(ls[7], 4, 23, c) && (|Trim(ls[7])| > 22 ==> Reads(ls[7], 23, 42, c))
    ensures var l6, l7 := ls[6], ls[7];
      e == rec.(svHealth := c.truncDouble(FieldText(l6[23..42])),
                fitInt := if |Trim(l7)| > 22 then c.truncDouble(FieldText(l7[23..42])) else 0,
                values := rec.values[SvAccur := Int(l6, 4, 23, c)][Tgd := Dec(l6, 42, 61)][Iodc := Int(l6, 61, |l6|, c)]
                                    [Tom := Dec(l7, 4, 23)])
    ensures Chain(rec, ls, 6, V3, sys, SlotsOf(c)) == Applied(e, true)
  {
    var r7 := V3Slot6(sys, rec, ls, c);
    e := V3Slot7(sys, r7, ls, c);
  }

  /** Lines 4 to 7 of a version 3 record of system `sys`. */
  lemma V3Back(sys: char, rec: EphGps, ls: seq<string>, c: Codec) returns (e: EphGps)
    requires EightLineSystem(sys) && |ls| == 8 && Reads4(ls[4], 4, 23, 42, 61, c)
    requires Reads(ls[5], 4, 23, c) && (sys == 'G' ==> Reads(ls[5], 23, 42, c)) && Reads(ls[5], 42, 61, c) && FlagReads(ls[5], c)
    requires Reads4(ls[6], 4, 23, 42, 61, c) && Reads(ls[7], 4, 23, c) && (|Trim(ls[7])| > 22 ==> Reads(ls[7], 23, 42, c))
    ensures var l4, l5, l6, l7 := ls[4], ls[5], ls[6], ls[7];
      var front := rec.values[I0 := Dec(l4, 4, 23)][Crc := Dec(l4, 23, 42)][Omega := Dec(l4, 42, 61)][OmegaDot := Dec(l4, 61, |l4|)]
                             [IDot := Dec(l5, 4, 23)];
      var mid := if sys == 'G' then front[L2Code := Int(l5, 23, 42, c)] else front;
      e == rec.(svHealth := c.truncDouble(FieldText(l6[23..42])),
                fitInt := if |Trim(l7)| > 22 then c.truncDouble(FieldText(l7[23..42])) else 0,
                values := mid[Week := Int(l5, 42, 61, c)][L2Flag := Flag(l5, c)]
                             [SvAccur := Int(l6, 4, 23, c)][Tgd := Dec(l6, 42, 61)][Iodc := Int(l6, 61, |l6|, c)]
                             [Tom := Dec(l7, 4, 23)])
    ensures Chain(rec, ls, 4, V3, sys, SlotsOf(c)) == Applied(e, true)
  {
    var r6 := V3Middle(sys, rec, ls, c);
    e := V3Tail(sys, r6, ls, c);
  }

  /** The 8 slots of a well-formed version 3 record fill a fresh record of its system as `V3Stored` says. */
  lemma V3Filled(sys: char, ls: seq<string>, c: Codec) returns (e: EphGps)
    requires EightLineSystem(sys) && V3Lines(sys, ls, c)
    ensures Chain(NewEph(sys), ls, 0, V3, sys, SlotsOf(c)) == Applied(e, true) && V3Stored(sys, e, ls, c)
  {
    var r4 := V3Front(sys, ls, c);
    e := V3Back(sys, r4, ls, c);
  }

  /** Every line of a well-formed version 3 record is at least 23 characters long. */
  lemma V3LinesNotEmpty(sys: char, ls: seq<string>, c: Codec)
    requires V3Lines(sys, ls, c)
    ensures forall j :: 0 <= j < 8 ==> ls[j] != ""
  {
    EightNotEmpty(ls);
  }

  /**
   * `parseDataNavV3` on a well-formed GPS, BeiDou or Galileo record whose
   * first line starts with the system letter: exactly one record of that
   * system is appended, the ones before it are kept, the 8 lines are
   * consumed, and the new record holds what `V3Stored` lists.
   */
  lemma V3RecordStores(s: Parse, sys: char, ls: seq<string>, rest: seq<string>, c: Codec)
    requires Consistent(s) && s.ok && EightLineSystem(sys) && V3Lines(sys, ls, c)
    requires s.pending == [[sys] + ls[0]] + ls[1..] + rest
    ensures var r := V3Record(s, SlotsOf(c));
      r.ok && r.pending == rest && |r.store| == |s.store| + 1 && r.store[..|s.store|] == s.store
      && V3Stored(sys, r.store[|s.store|], ls, c)
  {
    V3LinesNotEmpty(sys, ls, c);
    V3RecordChain(s, sys, ls, rest, SlotsOf(c));
    var e := V3Filled(sys, ls, c);
    assert V3Record(s, SlotsOf(c)).store == s.store + [e];
  }

  // ---------------------------------------------------------------------------
  // Version 3, GLONASS

  /** A GLONASS position, velocity or acceleration column: read in kilometres, stored in metres. */
  function Kilo(line: string, from: nat, to: nat): Num
    requires from <= to <= |line|
  {
    Decimal(FieldText(line[from..to]), 1000, 0)
  }

  /** The 4 lines of a version 3 GLONASS record (the `R` already read) whose every column reads. */
  predicate GlonassLines(ls: seq<string>, c: Codec) {
    |ls| == 4
    && |ls[0]| >= 22 && c.parseInt(Trim(ls[0][0..2])).Some?
    && Reads(ls[0], 22, 41, c) && Reads(ls[0], 41, 60, c) && Reads(ls[0], 60, |ls[0]|, c)
    && Reads4(ls[1], 4, 23, 42, 61, c) && Reads4(ls[2], 4, 23, 42, 61, c) && Reads4(ls[3], 4, 23, 42, 61, c)
  }

  /**
   * The record of a version 3 GLONASS entry: satellite number and epoch
   * (which also sets `week` and `toe` when it parses), `tauN`, `gammaN`,
   * `tk` less 10800 seconds, positions, velocities and accelerations
   * times 1000, `bn`, `freqNum` (cast to int) and `en`; health and fit
   * interval stay 0.
   */
  predicate GlonassStored(e: EphGps, ls: seq<string>, c: Codec)
    requires GlonassLines(ls, c)
  {
    var l0, l1, l2, l3 := ls[0], ls[1], ls[2], ls[3];
    var t := c.parseTime(DateText(l0[3..22], GlonassEpoch));
    var dated: map<Field, Num> := if t.Some? then map[Week := Exact(c.week(t.value)), Toe := Exact(c.weekSec(t.value))] else map[];
    e.satType == 'R' && e.satID == c.parseInt(Trim(l0[0..2])).value
    && e.refTime == t && e.toc == (if t.Some? then c.weekSec(t.value) else 0)
    && e.svHealth == 0 && e.fitInt == 0
    && e.values == dated[TauN := Dec(l0, 22, 41)][GammaN := Dec(l0, 41, 60)][Tk := Decimal(FieldText(l0[60..|l0|]), 1, -10800)]
                        [X := Kilo(l1, 4, 23)][Xv := Kilo(l1, 23, 42)][Xa := Kilo(l1, 42, 61)][Bn := Dec(l1, 61, |l1|)]
                        [Y := Kilo(l2, 4, 23)][Yv := Kilo(l2, 23, 42)][Ya := Kilo(l2, 42, 61)][FreqNum := Int(l2, 61, |l2|, c)]
                        [Z := Kilo(l3, 4, 23)][Zv := Kilo(l3, 23, 42)][Za := Kilo(l3, 42, 61)][En := Dec(l3, 61, |l3|)]
  }

  /** Line 0: satellite number, epoch, `tauN`, `gammaN`, `tk`. */
  lemma GlonassSlot0(rec: EphGps, ls: seq<string>, c: Codec) returns (next: EphGps)
    requires |ls| == 4 && |ls[0]| >= 22 && c.parseInt(Trim(ls[0][0..2])).Some?
    requires Reads(ls[0], 22, 41, c) && Reads(ls[0], 41, 60, c) && Reads(ls[0], 60, |ls[0]|, c)
    ensures var l := ls[0]; var d := Dated(rec.(satID := c.parseInt(Trim(l[0..2])).value), l[3..22], GlonassEpoch, c);
      next == d.(values := d.values[TauN := Dec(l, 22, 41)][GammaN := Dec(l, 41, 60)][Tk := Decimal(FieldText(l[60..|l|]), 1, -10800)])
    ensures Chain(rec, ls, 0, V3, 'R', SlotsOf(c)) == Chain(next, ls, 1, V3, 'R', SlotsOf(c))
  {
    var l := ls[0];
    var cols := [SatId(0, 2), Epoch(3, 22, GlonassEpoch), Value(TauN, 22, 41, 1, 0), Value(GammaN, 41, 60, 1, 0), Value(Tk, 60, |l|, 1, -10800)];
    next := HeadNumbers(rec, l, 3, GlonassEpoch, TauN, GammaN, Tk, -10800, c);
    SlotStep(rec, ls, 0, V3, 'R', c, cols, next);
  }

  /** Line 1: `x`, `xv`, `xa` in metres, `bn`. */
  lemma GlonassSlot1(rec: EphGps, ls: seq<string>, c: Codec) returns (next: EphGps)
    requires |ls| == 4 && Reads4(ls[1], 4, 23, 42, 61, c)
    ensures var l := ls[1]; next == rec.(values := rec.values
      [X := Kilo(l, 4, 23)][Xv := Kilo(l, 23, 42)][Xa := Kilo(l, 42, 61)][Bn := Dec(l, 61, |l|)])
    ensures Chain(rec, ls, 1, V3, 'R', SlotsOf(c)) == Chain(next, ls, 2, V3, 'R', SlotsOf(c))
  {
    var l := ls[1];
    var cols := [Value(X, 4, 23, 1000, 0), Value(Xv, 23, 42, 1000, 0), Value(Xa, 42, 61, 1000, 0), Value(Bn, 61, |l|, 1, 0)];
    FourNumbers(rec, l, cols, c);
    next := rec.(values := rec.values[X := Kilo(l, 4, 23)][Xv := Kilo(l, 23, 42)][Xa := Kilo(l, 42, 61)][Bn := Dec(l, 61, |l|)]);
    SlotStep(rec, ls, 1, V3, 'R', c, cols, next);
  }

  /** Line 2: `y`, `yv`, `ya` in metres, `freqNum` (cast to int). */
  lemma GlonassSlot2(rec: EphGps, ls: seq<string>, c: Codec) returns (next: EphGps)
    requires |ls| == 4 && Reads4(ls[2], 4, 23, 42, 61, c)
    ensures var l := ls[2]; next == rec.(values := rec.values
      [Y := Kilo(l, 4, 23)][Yv := Kilo(l, 23, 42)][Ya := Kilo(l, 42, 61)][FreqNum := Int(l, 61, |l|, c)])
    ensures Chain(rec, ls, 2, V3, 'R', SlotsOf(c)) == Chain(next, ls, 3, V3, 'R', SlotsOf(c))
  {
    var l := ls[2];
    var cols := [Value(Y, 4, 23, 1000, 0), Value(Yv, 23, 42, 1000, 0), Value(Ya, 42, 61, 1000, 0), Whole(FreqNum, 61, |l|)];
    FourNumbers(rec, l, cols, c);
    next := rec.(values := rec.values[Y := Kilo(l, 4, 23)][Yv := Kilo(l, 23, 42)][Ya := Kilo(l, 42, 61)][FreqNum := Int(l, 61, |l|, c)]);
    SlotStep(rec, ls, 2, V3, 'R', c, cols, next);
  }

  /** Line 3: `z`, `zv`, `za` in metres, `en`. */
  lemma GlonassSlot3(rec: EphGps, ls: seq<string>, c: Codec) returns (next: EphGps)
    requires |ls| == 4 && Reads4(ls[3], 4, 23, 42, 61, c)
    ensures var l := ls[3]; next == rec.(values := rec.values
      [Z := Kilo(l, 4, 23)][Zv := Kilo(l, 23, 42)][Za := Kilo(l, 42, 61)][En := Dec(l, 61, |l|)])
    ensures Chain(rec, ls, 3, V3, 'R', SlotsOf(c)) == Applied(next, true)
  {
    var l := ls[3];
    var cols := [Value(Z, 4, 23, 1000, 0), Value(Zv, 23, 42, 1000, 0), Value(Za, 42, 61, 1000, 0), Value(En, 61, |l|, 1, 0)];
    FourNumbers(rec, l, cols, c);
    next := rec.(values := rec.values[Z := Kilo(l, 4, 23)][Zv := Kilo(l, 23, 42)][Za := Kilo(l, 42, 61)][En := Dec(l, 61, |l|)]);
    SlotStep(rec, ls, 3, V3, 'R', c, cols, next);
  }

  /** Four lines each at least 22 characters long are none of them empty. */
  lemma FourNotEmpty(ls: seq<string>)
    requires |ls| == 4 && |ls[0]| >= 22 && |ls[1]| >= 22 && |ls[2]| >= 22 && |ls[3]| >= 22
    ensures forall j :: 0 <= j < 4 ==> ls[j] != ""
  {
    forall j | 0 <= j < 4 ensures |ls[j]| >= 22 {
      if j == 0 {} else if j == 1 {} else if j == 2 {} else {}
    }
  }

  /** The 4 slots of a well-formed GLONASS record fill a fresh `R` record as `GlonassStored` says. */
  lemma GlonassFilled(ls: seq<string>, c: Codec) returns (e: EphGps)
    requires GlonassLines(ls, c)
    ensures Chain(NewEph('R'), ls, 0, V3, 'R', SlotsOf(c)) == Applied(e, true) && GlonassStored(e, ls, c)
  {
    var r1 := GlonassSlot0(NewEph('R'), ls, c);
    var r2 := GlonassSlot1(r1, ls, c);
    var r3 := GlonassSlot2(r2, ls, c);
    e := GlonassSlot3(r3, ls, c);
  }

  /**
   * `parseDataNavV3` on a well-formed GLONASS record whose first line
   * starts with `R`: exactly one `R` record is appended, the ones before it
   * are kept, the 4 lines are consumed, and the new record holds what
   * `GlonassStored` lists.
   */
  lemma GlonassRecordStores(s: Parse, ls: seq<string>, rest: seq<string>, c: Codec)
    requires Consistent(s) && s.ok && GlonassLines(ls, c)
    requires s.pending == [['R'] + ls[0]] + ls[1..] + rest
    ensures var r := V3Record(s, SlotsOf(c));
      r.ok && r.pending == rest && |r.store| == |s.store| + 1 && r.store[..|s.store|] == s.store
      && GlonassStored(r.store[|s.store|], ls, c)
  {
    FourNotEmpty(ls);
    V3RecordChain(s, 'R', ls, rest, SlotsOf(c));
    var e := GlonassFilled(ls, c);
    assert V3Record(s, SlotsOf(c)).store == s.store + [e];
  }
}

/**
 * What the RINEX navigation parser does to its input and to its record list,
 * as functions: the header scan that classifies the format version, and the
 * record framing of version 2 (GPS only, 8 lines per record) and version 3
 * (a system letter, then 8 lines for G/C/E, 4 for R, 4 discarded otherwise).
 * The parser class follows these step by step.
 */
module NavSpec {
  import opened Wrappers
  import opened JavaText
  import opened Ephemeris
  import opened NavLayout

  // ---------------------------------------------------------------------------
  // The reader

  /** `BufferedReader.readLine()` over the remaining lines: `None` (null) at the end. */
  function ReadLine(p: seq<string>): (Option<string>, seq<string>) {
    if p == [] then (None, []) else (Some(p[0]), p[1..])
  }

  /**
   * `BufferedReader.read()` when input remains: the first character of the
   * current line, leaving the rest of it for the next `readLine`; on an empty
   * line it is the line terminator itself, and the line is consumed.
   */
  function ReadChar(p: seq<string>): (r: (char, seq<string>))
    requires p != []
    ensures p[0] == "" ==> r == ('\n', p[1..])
    ensures p[0] != "" ==> r.0 == p[0][0] && |r.1| == |p| && r.1[0] == p[0][1..] && r.1[1..] == p[1..]
  {
    if p[0] == "" then ('\n', p[1..]) else (p[0][0], [p[0][1..]] + p[1..])
  }

  /** `k` calls of `readLine()` whose results are dropped. */
  function Skip(p: seq<string>, k: nat): (r: seq<string>)
    ensures r == p[if k <= |p| then k else |p|..]
  {
    if k <= |p| then p[k..] else []
  }

  // ---------------------------------------------------------------------------
  // Record framing

  datatype Version = V2 | V3

  function Layout(v: Version, sys: char, slot: nat, line: string): seq<Column> {
    if v == V2 then V2Layout(slot, line) else V3Layout(sys, slot, line)
  }

  /**
   * The parser's state while it reads records: the unread lines, the record
   * list, the GLONASS record count, whether the local record reference is
   * non-null (`current`), and whether no exception has escaped (`ok`). While
   * `current` holds, the record being filled is the last one in the list.
   */
  datatype Parse = Parse(pending: seq<string>, store: seq<EphGps>, glonass: nat, current: bool, ok: bool)

  ghost predicate Consistent(s: Parse) {
    s.current ==> s.store != []
  }

  /** `new EphGps()` + `addEph` + `setSatType(sys)`, counting GLONASS records. */
  function Open(s: Parse, sys: char): (r: Parse)
    ensures r.store == s.store + [NewEph(sys)] && r.current && r.pending == s.pending && r.ok == s.ok
  {
    s.(store := s.store + [NewEph(sys)], current := true, glonass := if sys == 'R' then s.glonass + 1 else s.glonass)
  }

  /** The columns of slot `i` applied to the record being filled. */
  function ApplySlot(rec: EphGps, line: string, v: Version, sys: char, i: nat, c: Codec): (a: Applied)
    ensures a.rec.satType == rec.satType
  {
    ApplyColumns(rec, line, Layout(v, sys, i, line), c)
  }

  /**
   * How a slot's line is applied to the record being filled. The framing
   * below is stated for any such function that keeps the record's system,
   * and the parser uses `SlotsOf(c)`.
   */
  type SlotFill = (EphGps, string, Version, char, nat) -> Applied

  ghost predicate KeepsSystem(f: SlotFill) {
    forall rec, line, v, sys, i :: f(rec, line, v, sys, i).rec.satType == rec.satType
  }

  type Filler = f: SlotFill | KeepsSystem(f)
    witness (rec: EphGps, line: string, v: Version, sys: char, i: nat) => Applied(rec, true)

  /** The parser's column tables with numeric conversion `c`. */
  function SlotsOf(c: Codec): (f: Filler)
    ensures forall rec, line, v, sys, i :: f(rec, line, v, sys, i) == ApplySlot(rec, line, v, sys, i, c)
  {
    (rec: EphGps, line: string, v: Version, sys: char, i: nat) => ApplySlot(rec, line, v, sys, i, c)
  }

  /** The index below which `s`'s records can no longer change. */
  function Settled(s: Parse): nat {
    if s.current && s.store != [] then |s.store| - 1 else |s.store|
  }

  /**
   * One non-empty line applied in slot `i`: version 3 opens a new record on
   * slot 0; with a record to fill, the slot's columns are applied to it (an
   * escaping exception clears `ok`); with none, the NullPointerException is
   * caught and nothing changes.
   */
  function Fill(s: Parse, line: string, v: Version, sys: char, i: nat, f: Filler): (r: Parse)
    requires Consistent(s) && line != ""
    ensures Consistent(r) && r.pending == s.pending
    ensures |r.store| == |s.store| + (if i == 0 && v == V3 then 1 else 0)
    ensures r.current == (s.current || (i == 0 && v == V3))
    ensures r.glonass == s.glonass + (if i == 0 && v == V3 && sys == 'R' then 1 else 0)
    ensures AppendsOnly(s, r, sys)
    ensures !r.current ==> r.store == s.store && r.ok == s.ok
  {
    var s2 := if i == 0 && v == V3 then Open(s, sys) else s;
    if !s2.current then s2
    else
      var last := |s2.store| - 1;
      var a := f(s2.store[last], line, v, sys, i);
      var r := s2.(store := s2.store[last := a.rec], ok := a.ok);
      r
  }

  /** With a record to fill, `Fill` replaces the last record by the slot's result and takes its `ok`. */
  lemma FillIs(s: Parse, line: string, v: Version, sys: char, i: nat, f: Filler, s2: Parse, a: Applied)
    requires Consistent(s) && line != ""
    requires s2 == (if i == 0 && v == V3 then Open(s, sys) else s) && s2.current
    requires a == f(s2.store[|s2.store| - 1], line, v, sys, i)
    ensures Fill(s, line, v, sys, i, f) == s2.(store := s2.store[|s2.store| - 1 := a.rec], ok := a.ok)
  {
  }

  /**
   * The inner `for (i = i0; i < n; i++)` over the lines of one record:
   * a null line (end of input) throws a NullPointerException that is caught,
   * so the slot is used up; an empty line steps `i` back, so it uses no
   * slot; any other line is applied by `Fill`. An exception other than a
   * NullPointerException ends the parse with `ok` false.
   */
  function FillSlots(s: Parse, v: Version, sys: char, i: nat, n: nat, f: Filler): (r: Parse)
    requires Consistent(s)
    ensures Consistent(r)
    ensures |r.pending| <= |s.pending|
    ensures i < n && s.pending != [] ==> |r.pending| < |s.pending|
    decreases |s.pending|, n - i
  {
    if i >= n then s
    else if s.pending == [] then FillSlots(s, v, sys, i + 1, n, f)
    else if s.pending[0] == "" then FillSlots(s.(pending := s.pending[1..]), v, sys, i, n, f)
    else
      var t := Fill(s.(pending := s.pending[1..]), s.pending[0], v, sys, i, f);
      if !t.ok then t else FillSlots(t, v, sys, i + 1, n, f)
  }

  /** One step of `FillSlots` on a non-empty line: `Fill`, then the next slot unless an exception escaped. */
  lemma FillSlotsLine(s: Parse, v: Version, sys: char, i: nat, n: nat, f: Filler)
    requires Consistent(s) && i < n && s.pending != [] && s.pending[0] != ""
    ensures var t := Fill(s.(pending := s.pending[1..]), s.pending[0], v, sys, i, f);
      FillSlots(s, v, sys, i, n, f) == if !t.ok then t else FillSlots(t, v, sys, i + 1, n, f)
  {
  }

  /** An empty line is dropped without using the slot; at the end of input the slot is used up. */
  lemma FillSlotsSkip(s: Parse, v: Version, sys: char, i: nat, n: nat, f: Filler)
    requires Consistent(s) && i < n
    ensures s.pending != [] && s.pending[0] == "" ==>
      FillSlots(s, v, sys, i, n, f) == FillSlots(s.(pending := s.pending[1..]), v, sys, i, n, f)
    ensures s.pending == [] ==> FillSlots(s, v, sys, i, n, f) == FillSlots(s, v, sys, i + 1, n, f)
  {
  }

  /** One pass of the version 2 `while (ready())` loop: a fresh GPS record, then 8 lines. */
  function V2Record(s: Parse, f: Filler): (r: Parse)
    requires Consistent(s)
    ensures Consistent(r)
    ensures s.pending != [] ==> |r.pending| < |s.pending|
  {
    FillSlots(Open(s, 'G'), V2, 'G', 0, 8, f)
  }

  /** `parseDataNavV2` from state `s` on. */
  function V2Body(s: Parse, f: Filler): (r: Parse)
    requires Consistent(s)
    ensures Consistent(r)
    decreases |s.pending|
  {
    if !s.ok || s.pending == [] then s else V2Body(V2Record(s, f), f)
  }

  /** The systems whose version 3 records the parser keeps. */
  predicate IsV3System(ch: char) {
    ch == 'G' || ch == 'C' || ch == 'E' || ch == 'R'
  }

  /** The number of lines of a version 3 record of a kept system: 4 for GLONASS, 8 otherwise. */
  function SlotCount(ch: char): nat {
    if ch == 'R' then 4 else 8
  }

  /** One pass of the version 3 `while (ready())` loop: read the system letter, then frame the record. */
  function V3Record(s: Parse, f: Filler): (r: Parse)
    requires Consistent(s) && s.pending != []
    ensures Consistent(r)
    ensures |r.pending| < |s.pending|
  {
    var rc := ReadChar(s.pending);
    var s1 := s.(pending := rc.1);
    if IsV3System(rc.0) then FillSlots(s1, V3, rc.0, 0, SlotCount(rc.0), f)
    else s1.(pending := Skip(rc.1, 4))
  }

  /** `parseDataNavV3` from state `s` on. */
  function V3Body(s: Parse, f: Filler): (r: Parse)
    requires Consistent(s)
    ensures Consistent(r)
    decreases |s.pending|
  {
    if !s.ok || s.pending == [] then s else V3Body(V3Record(s, f), f)
  }

  /**
   * Slots `k` to `|ls| - 1` of one record applied by `f` in turn to `rec`,
   * slot `j` reading line `ls[j]`, stopping at the first exception.
   */
  function Chain(rec: EphGps, ls: seq<string>, k: nat, v: Version, sys: char, f: Filler): (a: Applied)
    ensures a.rec.satType == rec.satType
    decreases |ls| - k
  {
    if k >= |ls| then Applied(rec, true)
    else
      var a := f(rec, ls[k], v, sys, k);
      if !a.ok then a else Chain(a.rec, ls, k + 1, v, sys, f)
  }

  /**
   * With a record to fill (past version 3's opening slot) and no empty line
   * among `ls[k..]`, `FillSlots` over slots `k` to `|ls| - 1` is `Chain` on
   * the last record, and leaves `rest` unread when nothing throws.
   */
  /** One non-empty line of a record inside `FillSlots`: the filler's result replaces the last record. */
  lemma FillSlotsOne(s: Parse, ls: seq<string>, rest: seq<string>, k: nat, v: Version, sys: char, f: Filler)
    returns (t: Parse, a: Applied)
    requires Consistent(s) && s.current && s.ok && k < |ls| && (v == V2 || k > 0)
    requires s.pending == ls[k..] + rest && ls[k] != ""
    ensures a == f(s.store[|s.store| - 1], ls[k], v, sys, k)
    ensures t == s.(pending := ls[k + 1..] + rest, store := s.store[|s.store| - 1 := a.rec], ok := a.ok)
    ensures FillSlots(s, v, sys, k, |ls|, f) == if !a.ok then t else FillSlots(t, v, sys, k + 1, |ls|, f)
  {
    assert s.pending[0] == ls[k] && s.pending[1..] == ls[k + 1..] + rest;
    FillSlotsLine(s, v, sys, k, |ls|, f);
    var s1 := s.(pending := s.pending[1..]);
    a := f(s.store[|s.store| - 1], ls[k], v, sys, k);
    FillIs(s1, ls[k], v, sys, k, f, s1, a);
    t := s1.(store := s.store[|s.store| - 1 := a.rec], ok := a.ok);
  }

  lemma {:induction false} FillSlotsChain(s: Parse, ls: seq<string>, rest: seq<string>, k: nat, v: Version, sys: char, f: Filler)
    requires Consistent(s) && s.current && s.ok && k <= |ls| && (v == V2 || k > 0)
    requires s.pending == ls[k..] + rest
    requires forall j :: k <= j < |ls| ==> ls[j] != ""
    ensures var a := Chain(s.store[|s.store| - 1], ls, k, v, sys, f);
      var r := FillSlots(s, v, sys, k, |ls|, f);
      r.store == s.store[|s.store| - 1 := a.rec] && r.ok == a.ok && (a.ok ==> r.pending == rest)
    decreases |ls| - k
  {
    if k < |ls| {
      var t, a := FillSlotsOne(s, ls, rest, k, v, sys, f);
      if a.ok {
        FillSlotsChain(t, ls, rest, k + 1, v, sys, f);
      }
    } else {
      assert ls[k..] == [];
    }
  }

  /** A version 2 record of 8 non-empty lines: one new GPS record, filled by `Chain`. */
  lemma V2RecordChain(s: Parse, ls: seq<string>, rest: seq<string>, f: Filler)
    requires Consistent(s) && s.ok && |ls| == 8 && s.pending == ls + rest
    requires forall j :: 0 <= j < 8 ==> ls[j] != ""
    ensures var a := Chain(NewEph('G'), ls, 0, V2, 'G', f);
      var r := V2Record(s, f);
      r.store == s.store + [a.rec] && r.ok == a.ok && (a.ok ==> r.pending == rest)
  {
    assert ls[0..] == ls;
    FillSlotsChain(Open(s, 'G'), ls, rest, 0, V2, 'G', f);
  }

  /**
   * A version 3 record of a kept system whose first line starts with the
   * system letter and whose lines are not empty: one new record of that
   * system, filled by `Chain`.
   */
  lemma V3RecordChain(s: Parse, sys: char, ls: seq<string>, rest: seq<string>, f: Filler)
    requires Consistent(s) && s.ok && IsV3System(sys) && |ls| == SlotCount(sys)
    requires s.pending == [[sys] + ls[0]] + ls[1..] + rest
    requires forall j :: 0 <= j < |ls| ==> ls[j] != ""
    ensures var a := Chain(NewEph(sys), ls, 0, V3, sys, f);
      var r := V3Record(s, f);
      r.store == s.store + [a.rec] && r.ok == a.ok && (a.ok ==> r.pending == rest)
  {
    var rc := ReadChar(s.pending);
    assert rc.0 == sys && rc.1 == ls + rest;
    var s1 := s.(pending := ls + rest);
    assert V3Record(s, f) == FillSlots(s1, V3, sys, 0, |ls|, f);
    V3OpeningSlot(s1, sys, ls, rest, f);
  }

  /** The opening slot of a version 3 record, then `FillSlotsChain` on the rest. */
  lemma V3OpeningSlot(s1: Parse, sys: char, ls: seq<string>, rest: seq<string>, f: Filler)
    requires Consistent(s1) && s1.ok && |ls| > 0 && s1.pending == ls + rest
    requires forall j :: 0 <= j < |ls| ==> ls[j] != ""
    ensures var a := Chain(NewEph(sys), ls, 0, V3, sys, f);
      var r := FillSlots(s1, V3, sys, 0, |ls|, f);
      r.store == s1.store + [a.rec] && r.ok == a.ok && (a.ok ==> r.pending == rest)
  {
    FillSlotsLine(s1, V3, sys, 0, |ls|, f);
    var s2 := Open(s1.(pending := s1.pending[1..]), sys);
    var a := f(NewEph(sys), ls[0], V3, sys, 0);
    FillIs(s1.(pending := s1.pending[1..]), ls[0], V3, sys, 0, f, s2, a);
    var t := s2.(store := s2.store[|s2.store| - 1 := a.rec], ok := a.ok);
    assert t.store == s1.store + [a.rec];
    if a.ok {
      assert t.pending == ls[1..] + rest;
      FillSlotsChain(t, ls, rest, 1, V3, sys, f);
      var b := Chain(a.rec, ls, 1, V3, sys, f);
      assert t.store[|s1.store| := b.rec] == s1.store + [b.rec];
    }
  }

  // ---------------------------------------------------------------------------
  // Framing properties

  /** The records a framing step may still touch are the ones at or after `Settled`. */
  ghost predicate Extends(s: Parse, r: Parse) {
    Settled(s) <= Settled(r) && |s.store| <= |r.store| && forall j :: 0 <= j < Settled(s) ==> r.store[j] == s.store[j]
  }

  /** `r` extends `s`, and every record it added is of system `sys`. */
  ghost predicate AppendsOnly(s: Parse, r: Parse, sys: char) {
    Extends(s, r)
    && forall j :: Settled(s) <= j < |r.store| ==>
         r.store[j].satType == (if j < |s.store| then s.store[j].satType else sys)
  }

  lemma AppendsOnlyTrans(s: Parse, t: Parse, r: Parse, sys: char)
    requires AppendsOnly(s, t, sys) && AppendsOnly(t, r, sys)
    ensures AppendsOnly(s, r, sys)
  {
    forall j | Settled(s) <= j < |r.store|
      ensures r.store[j].satType == (if j < |s.store| then s.store[j].satType else sys)
    {
      if j < Settled(t) {
        assert r.store[j] == t.store[j];
      }
    }
  }

  /** Filling slots never changes a settled record and only appends records of system `sys`. */
  lemma {:induction false} FillSlotsAppends(s: Parse, v: Version, sys: char, i: nat, n: nat, f: Filler)
    requires Consistent(s)
    ensures AppendsOnly(s, FillSlots(s, v, sys, i, n, f), sys)
    decreases |s.pending|, n - i
  {
    var r := FillSlots(s, v, sys, i, n, f);
    if i >= n {
      assert r == s;
    } else if s.pending == [] {
      FillSlotsAppends(s, v, sys, i + 1, n, f);
    } else {
      var s1 := s.(pending := s.pending[1..]);
      if s.pending[0] == "" {
        assert r == FillSlots(s1, v, sys, i, n, f);
        FillSlotsAppends(s1, v, sys, i, n, f);
        AppendsOnlySameStore(s, s1, r, sys);
      } else {
        var t := Fill(s1, s.pending[0], v, sys, i, f);
        FillSlotsLine(s, v, sys, i, n, f);
        AppendsOnlySameStore(s, s1, t, sys);
        if t.ok {
          FillSlotsAppends(t, v, sys, i + 1, n, f);
          AppendsOnlyTrans(s, t, r, sys);
        }
      }
    }
  }

  /** `AppendsOnly` depends on the starting state's records only. */
  lemma AppendsOnlySameStore(s: Parse, s1: Parse, r: Parse, sys: char)
    requires s1.store == s.store && s1.current == s.current && AppendsOnly(s1, r, sys)
    ensures AppendsOnly(s, r, sys)
  {
    assert Settled(s1) == Settled(s);
  }

  /** Version 2 slots only fill the record already open: the list keeps its length. */
  lemma {:induction false} FillSlotsV2KeepsLength(s: Parse, i: nat, n: nat, f: Filler)
    requires Consistent(s)
    ensures var r := FillSlots(s, V2, 'G', i, n, f);
      |r.store| == |s.store| && r.current == s.current
    decreases |s.pending|, n - i
  {
    if i < n {
      if s.pending == [] {
        FillSlotsV2KeepsLength(s, i + 1, n, f);
      } else {
        var s1 := s.(pending := s.pending[1..]);
        if s.pending[0] == "" {
          FillSlotsV2KeepsLength(s1, i, n, f);
        } else {
          var t := Fill(s1, s.pending[0], V2, 'G', i, f);
          if t.ok {
            FillSlotsV2KeepsLength(t, i + 1, n, f);
          }
        }
      }
    }
  }

  /** One version 3 record keeps every settled record and appends only records of the system it read. */
  lemma V3RecordAppends(s: Parse, f: Filler)
    requires Consistent(s) && s.pending != []
    ensures var r := V3Record(s, f);
      Extends(s, r) && forall j :: Settled(s) <= j < |r.store| ==>
        (if j < |s.store| then r.store[j].satType == s.store[j].satType else IsV3System(r.store[j].satType))
  {
    var rc := ReadChar(s.pending);
    if IsV3System(rc.0) {
      FillSlotsAppends(s.(pending := rc.1), V3, rc.0, 0, SlotCount(rc.0), f);
    }
  }

  /** Version 3 framing keeps every earlier record and appends only G, C, E or R records. */
  lemma {:induction false} V3BodyAppendsOnly(s: Parse, f: Filler)
    requires Consistent(s)
    requires forall j :: Settled(s) <= j < |s.store| ==> IsV3System(s.store[j].satType)
    ensures var r := V3Body(s, f);
      Extends(s, r) && forall j :: Settled(s) <= j < |r.store| ==> IsV3System(r.store[j].satType)
    decreases |s.pending|
  {
    if s.ok && s.pending != [] {
      var s2 := V3Record(s, f);
      V3RecordAppends(s, f);
      assert forall j :: Settled(s2) <= j < |s2.store| ==> IsV3System(s2.store[j].satType);
      V3BodyAppendsOnly(s2, f);
      var r := V3Body(s2, f);
      assert r == V3Body(s, f);
      forall j | Settled(s) <= j < |r.store|
        ensures IsV3System(r.store[j].satType)
      {
        if j < Settled(s2) {
          assert r.store[j] == s2.store[j];
        }
      }
    }
  }

  /** Version 2 framing keeps every earlier record and appends only GPS records. */
  lemma {:induction false} V2BodyAppendsOnly(s: Parse, f: Filler)
    requires Consistent(s)
    requires forall j :: Settled(s) <= j < |s.store| ==> s.store[j].satType == 'G'
    ensures var r := V2Body(s, f);
      Extends(s, r) && forall j :: Settled(s) <= j < |r.store| ==> r.store[j].satType == 'G'
    decreases |s.pending|
  {
    if s.ok && s.pending != [] {
      var s1 := Open(s, 'G');
      FillSlotsAppends(s1, V2, 'G', 0, 8, f);
      FillSlotsV2KeepsLength(s1, 0, 8, f);
      var s2 := V2Record(s, f);
      assert Settled(s) <= Settled(s1);
      assert Extends(s, s2);
      V2BodyAppendsOnly(s2, f);
      var r := V2Body(s2, f);
    }
  }

  /** An empty line does not use up a record slot. */
  lemma BlankLineUsesNoSlot(s: Parse, v: Version, sys: char, i: nat, n: nat, f: Filler)
    requires Consistent(s) && i < n
    ensures FillSlots(s.(pending := [""] + s.pending), v, sys, i, n, f) == FillSlots(s, v, sys, i, n, f)
  {
    assert (s.(pending := [""] + s.pending)).(pending := ([""] + s.pending)[1..]) == s;
  }

  /**
   * With no blank line among the next `n - i` lines and no exception, a
   * record consumes exactly those lines; version 3 opened on slot 0 adds
   * exactly one record.
   */
  lemma {:induction false} FillSlotsConsumes(s: Parse, v: Version, sys: char, i: nat, n: nat, f: Filler)
    requires Consistent(s) && i <= n && n - i <= |s.pending|
    requires forall k :: 0 <= k < n - i ==> s.pending[k] != ""
    ensures var r := FillSlots(s, v, sys, i, n, f);
      r.ok ==> (r.pending == s.pending[n - i..]
                && |r.store| == |s.store| + (if v == V3 && i == 0 && i < n then 1 else 0))
    decreases n - i
  {
    if i < n {
      var t := Fill(s.(pending := s.pending[1..]), s.pending[0], v, sys, i, f);
      if t.ok {
        FillSlotsConsumes(t, v, sys, i + 1, n, f);
        assert t.pending[n - (i + 1)..] == s.pending[n - i..];
      }
    }
  }

  /** A version 3 record whose line starts with a kept system letter is that letter's slot loop. */
  lemma V3RecordIsFillSlots(s: Parse, f: Filler)
    requires Consistent(s) && s.pending != [] && s.pending[0] != "" && IsV3System(s.pending[0][0])
    ensures V3Record(s, f) == FillSlots(s.(pending := ReadChar(s.pending).1), V3, s.pending[0][0], 0, SlotCount(s.pending[0][0]), f)
  {
  }

  /** After `read()` of a non-empty line's first character, the lines from the second one on are as before. */
  lemma ReadCharKeepsLaterLines(p: seq<string>, m: nat)
    requires p != [] && p[0] != "" && 1 <= m <= |p|
    ensures var q := ReadChar(p).1;
      q[m..] == p[m..] && forall k :: 1 <= k < |p| ==> q[k] == p[k]
  {
    var q := ReadChar(p).1;
    forall k | 1 <= k < |p|
      ensures q[k] == p[k]
    {
      assert q[k] == q[1..][k - 1];
    }
    assert q[m..] == p[m..];
  }

  /**
   * A version 3 line starting with G, C or E is framed as 8 lines (its own
   * remainder and 7 more), one with R as 4; with no blank line among them and
   * no exception, the record list grows by exactly one record of that system.
   */
  lemma V3RecordFraming(s: Parse, f: Filler)
    requires Consistent(s) && s.pending != [] && s.pending[0] != ""
    requires IsV3System(s.pending[0][0])
    requires SlotCount(s.pending[0][0]) <= |s.pending| && s.pending[0][1..] != ""
    requires forall k :: 1 <= k < SlotCount(s.pending[0][0]) ==> s.pending[k] != ""
    ensures var r := V3Record(s, f);
      r.ok ==> (r.pending == s.pending[SlotCount(s.pending[0][0])..] && |r.store| == |s.store| + 1
                && r.store[|s.store|].satType == s.pending[0][0])
  {
    var ch := s.pending[0][0];
    var n := SlotCount(ch);
    var p := ReadChar(s.pending).1;
    ReadCharKeepsLaterLines(s.pending, n);
    var s1 := s.(pending := p);
    V3RecordIsFillSlots(s, f);
    FillSlotsConsumes(s1, V3, ch, 0, n, f);
    FillSlotsAppends(s1, V3, ch, 0, n, f);
  }

  /** Any other leading character discards the rest of its line and the next three lines. */
  lemma V3RecordSkipsOtherSystems(s: Parse, f: Filler)
    requires Consistent(s) && s.pending != [] && s.pending[0] != ""
    requires !IsV3System(s.pending[0][0])
    ensures var r := V3Record(s, f);
      r.store == s.store && r.ok == s.ok && r.pending == Skip(s.pending[1..], 3)
  {
    var p := [s.pending[0][1..]] + s.pending[1..];
    assert Skip(p, 4) == Skip(s.pending[1..], 3);
  }

  // ---------------------------------------------------------------------------
  // Header

  /** What one header line does to the scan. */
  datatype HeaderStep = Next(ver: int, verF: Num) | Return(ver: int, verF: Num) | Throw(verF: Num)

  /** The result of `parseHeaderNav`: the version (0: invalid), `ver_f`, whether no exception escaped, the unread lines. */
  datatype HeaderOutcome = HeaderOutcome(version: int, verF: Num, ok: bool, pending: seq<string>)

  /** The header labels the parser acts on. */
  datatype Tag = VersionType | IonoCorr | EndOfHeader | OtherTag

  /** The header label in columns 61 onward. */
  function Label(line: string): string
    requires |line| >= 60
  {
    Trim(line[60..])
  }

  function TagOf(name: string): (t: Tag)
    ensures t == EndOfHeader <==> name == "END OF HEADER"
    ensures t == VersionType <==> name == "RINEX VERSION / TYPE"
  {
    if name == "RINEX VERSION / TYPE" then VersionType
    else if name == "IONOSPHERIC CORR" then IonoCorr
    else if name == "END OF HEADER" then EndOfHeader
    else OtherTag
  }

  /** The version of a "RINEX VERSION / TYPE" line that carries the navigation identifier. */
  function ClassifyVersion(line: string): (ver: int)
    requires |line| >= 60
    ensures ver == 3 <==> line[5..7] == "3."
    ensures ver == 212 <==> line[5..7] != "3." && line[5..9] == "2.12"
    ensures ver == 2 || ver == 3 || ver == 212
  {
    if line[5..7] == "3." then 3 else if line[5..9] == "2.12" then 212 else 2
  }

  /** The four coefficient columns of an "IONOSPHERIC CORR" line all hold numbers. */
  predicate IonoNumbers(line: string, c: Codec)
    requires |line| >= 60
  {
    c.isDouble(FieldText(line[7..17])) && c.isDouble(FieldText(line[18..29]))
    && c.isDouble(FieldText(line[30..41])) && c.isDouble(FieldText(line[42..53]))
  }

  predicate IsIonoKind(kind: string) {
    kind == "GPSA" || kind == "GPSB" || kind == "GAL" || kind == "BDSA" || kind == "BDSB"
  }

  function HeaderLine(line: string, ver: int, verF: Num, c: Codec): HeaderStep {
    if |line| < 60 then Throw(verF)  // line.substring(60, line.length())
    else
      match TagOf(Label(line))
      case VersionType =>
        var field := Trim(line[0..9]);
        if !c.isDouble(field) then Throw(verF)
        else if line[20] != 'N' then Return(0, Decimal(field, 1, 0))
        else Next(ClassifyVersion(line), Decimal(field, 1, 0))
      case IonoCorr =>
        if IsIonoKind(Trim(line[0..4])) && !IonoNumbers(line, c) then Throw(verF) else Next(ver, verF)
      case EndOfHeader => Return(ver, verF)
      case OtherTag => Next(ver, verF)
  }

  /** `parseHeaderNav` from the remaining lines `p`, with `ver` found so far. */
  function HeaderScan(p: seq<string>, ver: int, verF: Num, c: Codec): (r: HeaderOutcome)
    ensures |r.pending| <= |p|
    decreases |p|
  {
    if p == [] then HeaderOutcome(0, verF, true, [])
    else
      match HeaderLine(p[0], ver, verF, c)
      case Next(v, f) => HeaderScan(p[1..], v, f, c)
      case Return(v, f) => HeaderOutcome(v, f, true, p[1..])
      case Throw(f) => HeaderOutcome(0, f, false, p[1..])
  }

  predicate IsEndOfHeader(line: string) {
    |line| >= 60 && TagOf(Label(line)) == EndOfHeader
  }

  predicate IsVersion(ver: int) {
    ver == 0 || ver == 2 || ver == 3 || ver == 212
  }

  /** One header line keeps the version among 0, 2, 3 and 212, and returns a nonzero one only at "END OF HEADER". */
  lemma HeaderLineVersions(line: string, ver: int, verF: Num, c: Codec)
    requires IsVersion(ver)
    ensures var h := HeaderLine(line, ver, verF, c);
      (h.Next? ==> IsVersion(h.ver)) && (h.Return? ==> IsVersion(h.ver) && (h.ver != 0 ==> IsEndOfHeader(line)))
  {
    if |line| >= 60 {
      var h := HeaderLine(line, ver, verF, c);
      match TagOf(Label(line))
      case VersionType =>
        assert h.Return? ==> h.ver == 0;
      case IonoCorr =>
        assert h == Next(ver, verF) || h.Throw?;
      case EndOfHeader =>
      case OtherTag =>
    }
  }

  /** A version other than 0 comes only from an "END OF HEADER" line, and it is 2, 3 or 212. */
  lemma {:induction false} HeaderVersionNeedsEnd(p: seq<string>, ver: int, verF: Num, c: Codec)
    requires IsVersion(ver)
    ensures var r := HeaderScan(p, ver, verF, c);
      IsVersion(r.version)
      && (r.version != 0 ==> r.ok && exists k :: 0 <= k < |p| && IsEndOfHeader(p[k]) && r.pending == p[k + 1..])
    decreases |p|
  {
    if p != [] {
      HeaderLineVersions(p[0], ver, verF, c);
      match HeaderLine(p[0], ver, verF, c)
      case Next(v, f) =>
        HeaderVersionNeedsEnd(p[1..], v, f, c);
        var r := HeaderScan(p[1..], v, f, c);
        if r.version != 0 {
          var k :| 0 <= k < |p[1..]| && IsEndOfHeader(p[1..][k]) && r.pending == p[1..][k + 1..];
          assert IsEndOfHeader(p[k + 1]) && r.pending == p[k + 2..];
        }
      case Return(v, f) =>
      case Throw(f) =>
    }
  }

  /** Input that ends before "END OF HEADER" gives version 0 (the file is then rejected). */
  lemma HeaderWithoutEndIsInvalid(p: seq<string>, ver: int, verF: Num, c: Codec)
    requires IsVersion(ver)
    requires forall k :: 0 <= k < |p| ==> !IsEndOfHeader(p[k])
    ensures HeaderScan(p, ver, verF, c).version == 0
  {
    HeaderVersionNeedsEnd(p, ver, verF, c);
  }

  /**
   * A well-formed two-line header: the version line (navigation identifier
   * 'N' in column 21) followed by "END OF HEADER" yields the classified
   * version; without the 'N' the scan stops at once with 0.
   */
  lemma HeaderClassifies(p: seq<string>, verF: Num, c: Codec)
    requires |p| >= 2 && |p[0]| >= 60 && TagOf(Label(p[0])) == VersionType && c.isDouble(Trim(p[0][0..9]))
    requires IsEndOfHeader(p[1])
    ensures var r := HeaderScan(p, 0, verF, c);
      r.ok && r.pending == (if p[0][20] == 'N' then p[2..] else p[1..])
      && r.version == (if p[0][20] != 'N' then 0 else ClassifyVersion(p[0]))
  {
    var f := Decimal(Trim(p[0][0..9]), 1, 0);
    if p[0][20] == 'N' {
      assert HeaderLine(p[0], 0, verF, c) == Next(ClassifyVersion(p[0]), f);
      assert HeaderLine(p[1], ClassifyVersion(p[0]), f, c) == Return(ClassifyVersion(p[0]), f);
      assert p[1..][0] == p[1] && p[1..][1..] == p[2..];
    }
  }
}

/**
 * The nearest-epoch selection of `findEph`, as functions over the record
 * list: which records match a satellite, the query time each match is
 * compared against (BeiDou shifts it by 14 s per match), the argmin that
 * keeps the earliest record on ties, and the health and fit-window gates.
 */
module EphSelection {
  import opened Wrappers
  import opened Ephemeris

  /** `findEph` outcomes: null, the unhealthy sentinel, a stored record, or a NullPointerException. */
  datatype EphLookup = NoEphemeris | UnhealthyEph | Ephemeris(index: nat) | MissingRefTime

  /** The BeiDou shift, in milliseconds, applied once per matching record. */
  const BdsShiftMsec: int := 14000

  predicate Matches(e: EphGps, satID: int, sys: char) {
    e.satID == satID && e.satType == sys
  }

  /** How many of the first `n` records match the satellite. */
  function MatchesBefore(eph: seq<EphGps>, satID: int, sys: char, n: nat): (k: nat)
    requires n <= |eph|
    ensures k <= n
  {
    if n == 0 then 0
    else MatchesBefore(eph, satID, sys, n - 1) + (if Matches(eph[n - 1], satID, sys) then 1 else 0)
  }

  /** The query time after `k` matches: `unixTime` is reduced by 14000 ms at each BeiDou match. */
  function QueryTime(t: int, sys: char, k: nat): int {
    if sys == 'C' then t - BdsShiftMsec * k else t
  }

  /** Every matching record among the first `n` has a reference time. */
  ghost predicate AllTimed(eph: seq<EphGps>, satID: int, sys: char, n: nat)
    requires n <= |eph|
  {
    forall j :: 0 <= j < n && Matches(eph[j], satID, sys) ==> eph[j].refTime.Some?
  }

  function Abs(x: int): nat {
    if x < 0 then -x else x
  }

  /** `dt` for record `j`, in whole seconds, against the query time in force when the loop reaches it. */
  function Delta(eph: seq<EphGps>, t: int, satID: int, sys: char, j: nat): nat
    requires j < |eph| && eph[j].refTime.Some?
  {
    Abs(eph[j].refTime.value - QueryTime(t, sys, MatchesBefore(eph, satID, sys, j) + 1)) / 1000
  }

  /**
   * `k` is the record the scan of the first `n` records keeps: it matches,
   * no matching record has a smaller `dt`, and every earlier matching record
   * has a strictly larger one.
   */
  ghost predicate IsNearest(eph: seq<EphGps>, t: int, satID: int, sys: char, n: nat, k: nat)
    requires n <= |eph| && AllTimed(eph, satID, sys, n)
  {
    k < n && Matches(eph[k], satID, sys)
    && (forall j :: 0 <= j < n && Matches(eph[j], satID, sys) ==> Delta(eph, t, satID, sys, k) <= Delta(eph, t, satID, sys, j))
    && (forall j :: 0 <= j < k && Matches(eph[j], satID, sys) ==> Delta(eph, t, satID, sys, k) < Delta(eph, t, satID, sys, j))
  }

  /** The record the scan of the first `n` records keeps, if any matched. */
  function Nearest(eph: seq<EphGps>, t: int, satID: int, sys: char, n: nat): (r: Option<nat>)
    requires n <= |eph| && AllTimed(eph, satID, sys, n)
    ensures r.None? <==> forall j :: 0 <= j < n ==> !Matches(eph[j], satID, sys)
    ensures r.Some? ==> IsNearest(eph, t, satID, sys, n, r.value)
  {
    if n == 0 then None
    else
      var prev := Nearest(eph, t, satID, sys, n - 1);
      if !Matches(eph[n - 1], satID, sys) then prev
      else if prev.None? || Delta(eph, t, satID, sys, n - 1) < Delta(eph, t, satID, sys, prev.value) then Some(n - 1)
      else prev
  }

  /** One step of the scan: record `i` updates the match count and the kept record. */
  lemma ScanStep(eph: seq<EphGps>, t: int, satID: int, sys: char, i: nat)
    requires i < |eph| && AllTimed(eph, satID, sys, i)
    requires Matches(eph[i], satID, sys) ==> eph[i].refTime.Some?
    ensures AllTimed(eph, satID, sys, i + 1)
    ensures MatchesBefore(eph, satID, sys, i + 1) == MatchesBefore(eph, satID, sys, i) + (if Matches(eph[i], satID, sys) then 1 else 0)
    ensures var prev := Nearest(eph, t, satID, sys, i);
      Nearest(eph, t, satID, sys, i + 1)
      == if !Matches(eph[i], satID, sys) then prev
         else if prev.None? || Delta(eph, t, satID, sys, i) < Delta(eph, t, satID, sys, prev.value) then Some(i)
         else prev
  {
  }

  /** When every matching record has a reference time, `findEph` is decided by the kept record. */
  lemma TimedFindEph(eph: seq<EphGps>, t: int, satID: int, sys: char)
    requires AllTimed(eph, satID, sys, |eph|)
    ensures FindEph(eph, t, satID, sys)
      == match Nearest(eph, t, satID, sys, |eph|)
         case None => NoEphemeris
         case Some(k) =>
           if eph[k].svHealth != 0 then UnhealthyEph
           else if Delta(eph, t, satID, sys, k) > DtMax(eph[k]) then NoEphemeris
           else Ephemeris(k)
  {
  }

  /** The kept record is unique: first-inserted wins ties. */
  lemma NearestIsUnique(eph: seq<EphGps>, t: int, satID: int, sys: char, n: nat, k: nat)
    requires n <= |eph| && AllTimed(eph, satID, sys, n)
    requires IsNearest(eph, t, satID, sys, n, k)
    ensures Nearest(eph, t, satID, sys, n) == Some(k)
  {
  }

  /**
   * The largest accepted `dt`, in seconds: half the fit interval, or the
   * default window. The `switch` on the system letter that picks the default
   * has no `break`, so every case falls through to 7200.
   */
  function DtMax(e: EphGps): (dtMax: int)
    ensures e.fitInt != 0 ==> 2 * dtMax == e.fitInt * 3600
    ensures e.fitInt == 0 ==> dtMax == 7200
  {
    if e.fitInt != 0 then e.fitInt * 3600 / 2 else 7200
  }

  /** What `findEph(t, satID, sys)` returns on the record list `eph`. */
  function FindEph(eph: seq<EphGps>, t: int, satID: int, sys: char): EphLookup {
    if exists j :: 0 <= j < |eph| && Matches(eph[j], satID, sys) && eph[j].refTime.None? then MissingRefTime
    else
      match Nearest(eph, t, satID, sys, |eph|)
      case None => NoEphemeris
      case Some(k) =>
        if eph[k].svHealth != 0 then UnhealthyEph
        else if Delta(eph, t, satID, sys, k) > DtMax(eph[k]) then NoEphemeris
        else Ephemeris(k)
  }

  // ---------------------------------------------------------------------------
  // Properties of the selection

  /** No matching record: null. */
  lemma NoMatchIsNull(eph: seq<EphGps>, t: int, satID: int, sys: char)
    requires forall j :: 0 <= j < |eph| ==> !Matches(eph[j], satID, sys)
    ensures FindEph(eph, t, satID, sys) == NoEphemeris
  {
  }

  /**
   * A stored record is returned only if it matches, has the smallest `dt`
   * (the earliest on ties), is healthy, and lies within the window.
   */
  lemma FoundIsNearestHealthyInWindow(eph: seq<EphGps>, t: int, satID: int, sys: char, k: nat)
    requires FindEph(eph, t, satID, sys) == Ephemeris(k)
    ensures k < |eph| && AllTimed(eph, satID, sys, |eph|)
    ensures IsNearest(eph, t, satID, sys, |eph|, k)
    ensures eph[k].svHealth == 0 && Delta(eph, t, satID, sys, k) <= DtMax(eph[k])
  {
  }

  /** Conversely, the nearest healthy record within its window is returned. */
  lemma NearestHealthyInWindowIsFound(eph: seq<EphGps>, t: int, satID: int, sys: char, k: nat)
    requires k < |eph| && AllTimed(eph, satID, sys, |eph|)
    requires IsNearest(eph, t, satID, sys, |eph|, k)
    requires eph[k].svHealth == 0 && Delta(eph, t, satID, sys, k) <= DtMax(eph[k])
    ensures FindEph(eph, t, satID, sys) == Ephemeris(k)
  {
    NearestIsUnique(eph, t, satID, sys, |eph|, k);
  }

  /** An unhealthy nearest record gives the sentinel whatever its `dt`: never null. */
  lemma UnhealthyBeforeWindow(eph: seq<EphGps>, t: int, satID: int, sys: char, k: nat)
    requires k < |eph| && AllTimed(eph, satID, sys, |eph|)
    requires IsNearest(eph, t, satID, sys, |eph|, k) && eph[k].svHealth != 0
    ensures FindEph(eph, t, satID, sys) == UnhealthyEph
  {
    NearestIsUnique(eph, t, satID, sys, |eph|, k);
  }

  /** The window is closed: `dt == dtMax` is accepted, `dt > dtMax` gives null. */
  lemma WindowBoundary(eph: seq<EphGps>, t: int, satID: int, sys: char, k: nat)
    requires k < |eph| && AllTimed(eph, satID, sys, |eph|)
    requires IsNearest(eph, t, satID, sys, |eph|, k) && eph[k].svHealth == 0
    ensures Delta(eph, t, satID, sys, k) == DtMax(eph[k]) ==> FindEph(eph, t, satID, sys) == Ephemeris(k)
    ensures Delta(eph, t, satID, sys, k) > DtMax(eph[k]) ==> FindEph(eph, t, satID, sys) == NoEphemeris
  {
    NearestIsUnique(eph, t, satID, sys, |eph|, k);
  }

  /** Without a fit interval the window is 7200 s for every system, GLONASS and QZSS included. */
  lemma DefaultWindowForAllSystems(e: EphGps)
    requires e.fitInt == 0
    ensures DtMax(e) == 7200
  {
  }

  /** A matching record without a reference time makes the whole lookup throw, whatever else is stored. */
  lemma UntimedMatchThrows(eph: seq<EphGps>, t: int, satID: int, sys: char, j: nat)
    requires j < |eph| && Matches(eph[j], satID, sys) && eph[j].refTime.None?
    ensures FindEph(eph, t, satID, sys) == MissingRefTime
  {
  }

  /** The BeiDou shift accumulates: a later match is compared against a query time at least 14 s earlier. */
  lemma {:induction false} BdsShiftAccumulates(eph: seq<EphGps>, t: int, satID: int, i: nat, j: nat)
    requires i < j < |eph| && Matches(eph[i], satID, 'C') && Matches(eph[j], satID, 'C')
    ensures QueryTime(t, 'C', MatchesBefore(eph, satID, 'C', j) + 1)
            <= QueryTime(t, 'C', MatchesBefore(eph, satID, 'C', i) + 1) - BdsShiftMsec
    decreases j
  {
    MatchesGrow(eph, satID, 'C', i + 1, j);
  }

  /** Matches are counted monotonically along the list. */
  lemma {:induction false} MatchesGrow(eph: seq<EphGps>, satID: int, sys: char, m: nat, n: nat)
    requires m <= n <= |eph|
    ensures MatchesBefore(eph, satID, sys, m) <= MatchesBefore(eph, satID, sys, n)
    decreases n - m
  {
    if m < n {
      MatchesGrow(eph, satID, sys, m, n - 1);
    }
  }

  /** For any other system the query time stays `t` for every match. */
  lemma QueryTimeFixedOutsideBds(t: int, sys: char, k: nat)
    requires sys != 'C'
    ensures QueryTime(t, sys, k) == t
  {
  }

  lemma {:induction false} PrefixMatches(a: seq<EphGps>, b: seq<EphGps>, satID: int, sys: char, n: nat)
    requires n <= |a| && n <= |b| && a[..n] == b[..n]
    ensures MatchesBefore(a, satID, sys, n) == MatchesBefore(b, satID, sys, n)
  {
    if n > 0 {
      assert a[..n - 1] == b[..n - 1] && a[n - 1] == a[..n][n - 1];
      PrefixMatches(a, b, satID, sys, n - 1);
    }
  }

  /** Two lists that agree on their first `n` records give those records the same `dt`. */
  lemma PrefixDelta(a: seq<EphGps>, b: seq<EphGps>, t: int, satID: int, sys: char, n: nat, j: nat)
    requires j < n <= |a| && n <= |b| && a[..n] == b[..n] && a[j].refTime.Some?
    ensures b[j] == a[j] && Delta(a, t, satID, sys, j) == Delta(b, t, satID, sys, j)
  {
    assert a[j] == a[..n][j] && b[j] == b[..n][j];
    assert a[..j] == a[..n][..j] && b[..j] == b[..n][..j];
    PrefixMatches(a, b, satID, sys, j);
  }

  /** The scan of the first `n` records sees only those records. */
  lemma {:induction false} PrefixNearest(a: seq<EphGps>, b: seq<EphGps>, t: int, satID: int, sys: char, n: nat)
    requires n <= |a| && n <= |b| && a[..n] == b[..n] && AllTimed(a, satID, sys, n)
    ensures AllTimed(b, satID, sys, n)
    ensures Nearest(a, t, satID, sys, n) == Nearest(b, t, satID, sys, n)
  {
    forall j | 0 <= j < n
      ensures a[j] == b[j]
    {
      assert a[j] == a[..n][j] && b[j] == b[..n][j];
    }
    if n > 0 {
      assert a[..n - 1] == a[..n][..n - 1] && b[..n - 1] == b[..n][..n - 1];
      PrefixNearest(a, b, t, satID, sys, n - 1);
      var prev := Nearest(a, t, satID, sys, n - 1);
      if Matches(a[n - 1], satID, sys) {
        PrefixDelta(a, b, t, satID, sys, n, n - 1);
        if prev.Some? {
          PrefixDelta(a, b, t, satID, sys, n, prev.value);
        }
      }
    }
  }

  /**
   * `addEph` of a record for another satellite (or system) leaves every
   * lookup of this satellite as it was.
   */
  lemma AppendOtherKeepsFindEph(eph: seq<EphGps>, e: EphGps, t: int, satID: int, sys: char)
    requires !Matches(e, satID, sys)
    ensures FindEph(eph + [e], t, satID, sys) == FindEph(eph, t, satID, sys)
  {
    var b := eph + [e];
    assert b[..|eph|] == eph[..|eph|];
    assert forall j :: 0 <= j < |b| ==> b[j] == if j < |eph| then eph[j] else e;
    if AllTimed(eph, satID, sys, |eph|) {
      PrefixNearest(eph, b, t, satID, sys, |eph|);
      assert Nearest(b, t, satID, sys, |b|) == Nearest(b, t, satID, sys, |eph|);
      var r := Nearest(eph, t, satID, sys, |eph|);
      if r.Some? {
        PrefixDelta(eph, b, t, satID, sys, |eph|, r.value);
      }
    }
  }
}

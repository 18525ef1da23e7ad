/**
 * The broadcast ephemeris record (`EphGps`) as the RINEX navigation parser
 * fills it, and the numeric conversions the parser borrows from the Java
 * library and from the `Time` class, which are kept opaque.
 */
module Ephemeris {
  import opened Wrappers

  /** The numeric fields of a record that nothing in the model interprets. */
  datatype Field =
    // Keplerian records (GPS, Galileo, BeiDou)
    | Af0 | Af1 | Af2 | Iode | Crs | DeltaN | M0 | Cuc | E | Cus | RootA
    | Toe | Cic | Omega0 | Cis | I0 | Crc | Omega | OmegaDot | IDot
    | L2Code | Week | L2Flag | SvAccur | Tgd | Iodc | Tom
    // GLONASS state-vector records
    | TauN | GammaN | Tk | X | Xv | Xa | Bn | Y | Yv | Ya | FreqNum | Z | Zv | Za | En

  /**
   * The value held in a numeric field. `Decimal(text, scale, shift)` is the
   * number `Double.parseDouble(text) * scale + shift`, kept as the trimmed
   * column text because floating-point conversion is not modelled; `Exact`
   * is an integer the parser computed itself. A field absent from a record's
   * map holds Java's default, zero.
   */
  datatype Num = Exact(value: int) | Decimal(text: string, scale: int, shift: int)

  /**
   * One navigation record. `refTime` is the reference epoch in milliseconds,
   * `None` while it is unset (the Java reference is null until a date parses).
   */
  datatype EphGps = EphGps(
    satType: char,
    satID: int,
    refTime: Option<int>,
    toc: int,
    svHealth: int,
    fitInt: int,
    values: map<Field, Num>)

  /** `new EphGps()`: every field at Java's default. */
  const Blank: EphGps := EphGps('\0', 0, None, 0, 0, 0, map[])

  /** A fresh record tagged with its satellite system. */
  function NewEph(sys: char): (r: EphGps)
    ensures r.satType == sys && r.refTime.None?
  {
    Blank.(satType := sys)
  }

  /**
   * Conversions the parser calls but whose code is outside the model:
   * `isDouble` says whether `Double.parseDouble` (and `Float.parseFloat`)
   * accept a text, `truncDouble` is `(int)` or `(long)` of `Double.parseDouble(text)`,
   * `parseInt` is `Integer.parseInt` (`None` where it throws),
   * `parseTime` is `new Time(date).getMsec()` (`None` where the date
   * string does not parse), and `weekSec`/`week` are the GPS
   * second-of-week and week of a time in milliseconds.
   */
  datatype Codec = Codec(
    isDouble: string -> bool,
    truncDouble: string -> int,
    parseInt: string -> Option<int>,
    parseTime: string -> Option<int>,
    weekSec: int -> int,
    week: int -> int)

  /** The number of records of system `sys` in `eph`. */
  function CountSys(eph: seq<EphGps>, sys: char): (n: nat)
    ensures n <= |eph|
  {
    if eph == [] then 0
    else CountSys(eph[..|eph| - 1], sys) + (if eph[|eph| - 1].satType == sys then 1 else 0)
  }

  /** Replacing a record by one of the same system keeps the per-system count. */
  lemma {:induction false} CountSysUpdate(eph: seq<EphGps>, k: nat, e: EphGps, sys: char)
    requires k < |eph| && e.satType == eph[k].satType
    ensures CountSys(eph[k := e], sys) == CountSys(eph, sys)
  {
    var last := |eph| - 1;
    if k < last {
      assert eph[k := e][..last] == eph[..last][k := e];
      CountSysUpdate(eph[..last], k, e, sys);
    } else {
      assert eph[k := e][..last] == eph[..last];
    }
  }

  lemma CountSysAppend(eph: seq<EphGps>, e: EphGps, sys: char)
    ensures CountSys(eph + [e], sys) == CountSys(eph, sys) + (if e.satType == sys then 1 else 0)
  {
    assert (eph + [e])[..|eph|] == eph;
  }
}

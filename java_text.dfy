/**
 * The few `java.lang.String` operations the navigation parser relies on,
 * with Java's semantics: `substring` that throws on bad bounds, `trim`
 * (strips characters up to U+0020 at both ends), `replace` of a character
 * and of a literal, and `Integer.toString`.
 */
module JavaText {
  import opened Wrappers

  /** `s.substring(from, to)`: `None` where Java throws StringIndexOutOfBoundsException. */
  function Substring(s: string, from: int, to: int): (r: Option<string>)
    ensures r.Some? <==> 0 <= from <= to <= |s|
    ensures r.Some? ==> |r.value| == to - from
  {
    if 0 <= from <= to <= |s| then Some(s[from..to]) else None
  }

  /** The substring holds the characters of `s` from `from` on. */
  lemma SubstringAt(s: string, from: int, to: int)
    requires 0 <= from <= to <= |s|
    ensures forall k :: 0 <= k < to - from ==> Substring(s, from, to).value[k] == s[from + k]
  {
  }

  /** The characters `String.trim` removes. */
  predicate IsTrimmed(c: char) {
    c <= ' '
  }

  function TrimLeft(s: string): (r: string)
    ensures |r| <= |s| && r == s[|s| - |r|..]
    ensures r != [] ==> !IsTrimmed(r[0])
  {
    if s != [] && IsTrimmed(s[0]) then TrimLeft(s[1..]) else s
  }

  /** What `TrimLeft` drops is all characters up to U+0020. */
  lemma {:induction false} TrimLeftDrops(s: string)
    ensures forall k :: 0 <= k < |s| - |TrimLeft(s)| ==> IsTrimmed(s[k])
  {
    if s != [] && IsTrimmed(s[0]) {
      TrimLeftDrops(s[1..]);
      assert forall k :: 1 <= k < |s| - |TrimLeft(s)| ==> s[k] == s[1..][k - 1];
    }
  }

  function TrimRight(s: string): (r: string)
    ensures |r| <= |s| && r == s[..|r|]
    ensures r != [] ==> !IsTrimmed(r[|r| - 1])
  {
    if s != [] && IsTrimmed(s[|s| - 1]) then TrimRight(s[..|s| - 1]) else s
  }

  /** What `TrimRight` drops is all characters up to U+0020. */
  lemma {:induction false} TrimRightDrops(s: string)
    ensures forall k :: |TrimRight(s)| <= k < |s| ==> IsTrimmed(s[k])
  {
    if s != [] && IsTrimmed(s[|s| - 1]) {
      TrimRightDrops(s[..|s| - 1]);
    }
  }

  /** `s.trim()`: the longest infix of `s` that neither starts nor ends with a character up to U+0020. */
  function Trim(s: string): (r: string)
    ensures |r| <= |s|
    ensures r != [] ==> !IsTrimmed(r[0]) && !IsTrimmed(r[|r| - 1])
  {
    TrimRight(TrimLeft(s))
  }

  /** `trim()` gives the empty string exactly when every character is up to U+0020. */
  lemma TrimEmpty(s: string)
    ensures (forall k :: 0 <= k < |s| ==> IsTrimmed(s[k])) <==> Trim(s) == []
  {
    var l := TrimLeft(s);
    TrimLeftDrops(s);
    TrimRightDrops(l);
    if Trim(s) == [] {
      assert l == [];
    }
  }

  /** `s.replace(from, to)` for single characters. */
  function ReplaceChar(s: string, from: char, to: char): (r: string)
    ensures |r| == |s|
  {
    seq(|s|, k requires 0 <= k < |s| => if s[k] == from then to else s[k])
  }

  /** Each character of the result is the one of `s`, with `from` replaced by `to`. */
  lemma ReplaceCharAt(s: string, from: char, to: char)
    ensures forall k :: 0 <= k < |s| ==> ReplaceChar(s, from, to)[k] == (if s[k] == from then to else s[k])
  {
  }

  /** `s.replace("  ", " 0")`: every non-overlapping pair of blanks, scanning left to right, becomes " 0". */
  function PadDoubleBlanks(s: string): (r: string)
    ensures |r| == |s|
    ensures forall k :: 0 <= k < |s| && s[k] != ' ' ==> r[k] == s[k]
  {
    if |s| >= 2 && s[0] == ' ' && s[1] == ' ' then " 0" + PadDoubleBlanks(s[2..])
    else if s == [] then []
    else [s[0]] + PadDoubleBlanks(s[1..])
  }

  function DigitChar(d: nat): (c: char)
    requires d < 10
    ensures '0' <= c <= '9'
  {
    "0123456789"[d]
  }

  function NatToString(n: nat): (r: string)
    ensures r != [] && forall k :: 0 <= k < |r| ==> '0' <= r[k] <= '9'
    decreases n
  {
    if n < 10 then [DigitChar(n)] else NatToString(n / 10) + [DigitChar(n % 10)]
  }

  /** `Integer.toString(i)`. */
  function IntToString(i: int): (r: string)
    ensures r != [] && (r[0] == '-' <==> i < 0)
  {
    if i < 0 then "-" + NatToString(-i) else NatToString(i)
  }
}

/**
 * The parts of JavaScript's string and number semantics the application's
 * handlers rely on: `trim`, `toLowerCase` (ASCII only), `includes`,
 * `split(',')`, `parseInt(s, 10)`, `Number(s)` and `toString()` of an integer.
 */
module JsText {
  import opened Common

  // ---------------------------------------------------------------------------
  // Whitespace and trim
  // ---------------------------------------------------------------------------

  /** The characters `String.prototype.trim` removes: ECMAScript WhiteSpace and LineTerminator. */
  predicate IsSpace(c: char) {
    || c == ' ' || c == '\t' || c == '\n' || c == '\r' || c == '\U{B}' || c == '\U{C}'
    || c == '\U{A0}' || c == '\U{1680}' || ('\U{2000}' <= c <= '\U{200A}')
    || c == '\U{2028}' || c == '\U{2029}' || c == '\U{202F}' || c == '\U{205F}'
    || c == '\U{3000}' || c == '\U{FEFF}'
  }

  predicate AllSpace(s: string) {
    forall i :: 0 <= i < |s| ==> IsSpace(s[i])
  }

  /** `s.trimStart()`: drops the leading whitespace and nothing else. */
  function TrimStart(s: string): (r: string)
    ensures |r| <= |s| && r == s[|s| - |r|..]
    ensures r == [] || !IsSpace(r[0])
    ensures AllSpace(s[..|s| - |r|])
    decreases |s|
  {
    if s != [] && IsSpace(s[0]) then
      var r := TrimStart(s[1..]);
      assert s[1..][..|s| - 1 - |r|] == s[1..|s| - |r|];
      r
    else s
  }

  /** `s.trimEnd()`: drops the trailing whitespace and nothing else. */
  function TrimEnd(s: string): (r: string)
    ensures |r| <= |s| && r == s[..|r|]
    ensures r == [] || !IsSpace(r[|r| - 1])
    ensures AllSpace(s[|r|..])
    decreases |s|
  {
    if s != [] && IsSpace(s[|s| - 1]) then
      var r := TrimEnd(s[..|s| - 1]);
      assert s[|r|..] == s[..|s| - 1][|r|..] + [s[|s| - 1]];
      r
    else s
  }

  /** `s.trim()`. */
  function Trim(s: string): string {
    TrimEnd(TrimStart(s))
  }

  /** A trimmed string is a piece of the input with no whitespace at either end,
      and it is empty exactly when the input is blank. */
  lemma TrimSpec(s: string)
    ensures var r := Trim(s);
      && (r == [] || (!IsSpace(r[0]) && !IsSpace(r[|r| - 1])))
      && Includes(s, r)
      && (r == [] <==> AllSpace(s))
  {
    TrimEnds(s);
    TrimIncluded(s);
    TrimEmptyIffBlank(s);
  }

  lemma TrimEnds(s: string)
    ensures var r := Trim(s); r == [] || (!IsSpace(r[0]) && !IsSpace(r[|r| - 1]))
  {
    var t := TrimStart(s);
    var r := TrimEnd(t);
    if r != [] {
      FirstOfPrefix(t, |r|);
    }
  }

  lemma FirstOfPrefix(t: string, n: int)
    requires 0 < n <= |t|
    ensures t[..n][0] == t[0]
  {
  }

  lemma TrimIncluded(s: string)
    ensures Includes(s, Trim(s))
  {
    var t := TrimStart(s);
    var r := TrimEnd(t);
    var k := |s| - |t|;
    SliceOfSuffix(s, k, |r|);
    SliceIncluded(s, k, k + |r|);
  }

  lemma SliceOfSuffix(s: string, k: int, n: int)
    requires 0 <= k <= |s| && 0 <= n <= |s| - k
    ensures s[k..][..n] == s[k..k + n]
  {
  }

  /** Every slice of a string is included in it. */
  lemma SliceIncluded(s: string, i: int, j: int)
    requires 0 <= i <= j <= |s|
    ensures Includes(s, s[i..j])
  {
    assert OccursAt(s, s[i..j], i);
    IncludesIff(s, s[i..j]);
  }

  lemma TrimEmptyIffBlank(s: string)
    ensures Trim(s) == [] <==> AllSpace(s)
  {
    var t := TrimStart(s);
    var r := TrimEnd(t);
    var k := |s| - |t|;
    if r == [] {
      assert t[0..] == t;
      assert t == [];
      assert s[..k] == s;
    } else {
      assert t == s[k..];
      assert s[k] == r[0];
    }
  }

  /** Trimming is idempotent. */
  lemma TrimIdempotent(s: string)
    ensures Trim(Trim(s)) == Trim(s)
  {
    var r := Trim(s);
    TrimSpec(s);
    if r != [] {
      assert TrimStart(r) == r;
      assert TrimEnd(r) == r;
    }
  }

  // ---------------------------------------------------------------------------
  // Lower-casing and substring tests
  // ---------------------------------------------------------------------------

  function LowerChar(c: char): char {
    if 'A' <= c <= 'Z' then (c as int + 32) as char else c
  }

  /** `s.toLowerCase()`, restricted to the ASCII letters. */
  function ToLower(s: string): (r: string)
    ensures |r| == |s|
    ensures forall i :: 0 <= i < |s| ==> r[i] == LowerChar(s[i])
  {
    seq(|s|, i requires 0 <= i < |s| => LowerChar(s[i]))
  }

  lemma ToLowerIdempotent(s: string)
    ensures ToLower(ToLower(s)) == ToLower(s)
  {
  }

  predicate StartsWith(s: string, p: string) {
    |p| <= |s| && s[..|p|] == p
  }

  /** `s.includes(sub)`: `sub` occurs in `s` at some position (the empty string occurs everywhere). */
  predicate Includes(s: string, sub: string)
    decreases |s|
  {
    StartsWith(s, sub) || (s != [] && Includes(s[1..], sub))
  }

  /** `sub` occurs in `s` starting at position `i`. */
  predicate OccursAt(s: string, sub: string, i: int) {
    0 <= i <= |s| - |sub| && s[i..i + |sub|] == sub
  }

  /** The scanning definition of `Includes` agrees with "there is a position where `sub` occurs". */
  lemma {:induction false} IncludesIff(s: string, sub: string)
    ensures Includes(s, sub) <==> exists i :: OccursAt(s, sub, i)
    decreases |s|
  {
    if StartsWith(s, sub) {
      assert OccursAt(s, sub, 0);
    }
    if s != [] {
      IncludesIff(s[1..], sub);
      if Includes(s[1..], sub) {
        var i :| OccursAt(s[1..], sub, i);
        assert OccursAt(s, sub, i + 1);
      }
      if i :| OccursAt(s, sub, i) {
        if i > 0 {
          assert OccursAt(s[1..], sub, i - 1);
        } else {
          assert StartsWith(s, sub);
        }
      }
    } else {
      if i :| OccursAt(s, sub, i) {
        assert StartsWith(s, sub);
      }
    }
  }

  /** Every string includes the empty string and itself. */
  lemma IncludesTrivial(s: string)
    ensures Includes(s, "") && Includes(s, s)
  {
  }

  // ---------------------------------------------------------------------------
  // split(',')
  // ---------------------------------------------------------------------------

  /** `s.split(sep)` for a one-character separator: always at least one piece, empty pieces kept. */
  function Split(s: string, sep: char): (parts: seq<string>)
    ensures |parts| >= 1
    decreases |s|
  {
    if s == [] then [""]
    else
      var rest := Split(s[1..], sep);
      if s[0] == sep then [""] + rest
      else [[s[0]] + rest[0]] + rest[1..]
  }

  /** `parts.join(sep)`. */
  function Join(parts: seq<string>, sep: char): string
    requires |parts| >= 1
  {
    if |parts| == 1 then parts[0] else parts[0] + [sep] + Join(parts[1..], sep)
  }

  /** No piece of a split contains the separator. */
  lemma {:induction false} SplitPiecesLackSep(s: string, sep: char)
    ensures forall k :: 0 <= k < |Split(s, sep)| ==> sep !in Split(s, sep)[k]
    decreases |s|
  {
    if s != [] {
      SplitPiecesLackSep(s[1..], sep);
    }
  }

  /** Joining the pieces with the separator gives the original string back. */
  lemma {:induction false} JoinSplit(s: string, sep: char)
    ensures Join(Split(s, sep), sep) == s
    decreases |s|
  {
    if s != [] {
      var rest := Split(s[1..], sep);
      JoinSplit(s[1..], sep);
      if s[0] != sep {
        var parts := [[s[0]] + rest[0]] + rest[1..];
        if |rest| == 1 {
          assert Join(parts, sep) == [s[0]] + rest[0];
        } else {
          assert parts[1..] == rest[1..];
          assert Join(parts, sep) == [s[0]] + Join(rest, sep);
        }
        assert [s[0]] + s[1..] == s;
      } else {
        assert ([""] + rest)[1..] == rest;
        assert [sep] + s[1..] == s;
      }
    }
  }

  /** A string without the separator splits into itself. */
  lemma {:induction false} SplitWithoutSep(s: string, sep: char)
    requires sep !in s
    ensures Split(s, sep) == [s]
    decreases |s|
  {
    if s != [] {
      SplitWithoutSep(s[1..], sep);
      assert [s[0]] + s[1..] == s;
    }
  }

  /** Splitting `a + sep + b`, where `a` lacks the separator, gives `a` and then the pieces of `b`. */
  lemma {:induction false} SplitAfterPiece(a: string, b: string, sep: char)
    requires sep !in a
    ensures Split(a + [sep] + b, sep) == [a] + Split(b, sep)
    decreases |a|
  {
    var s := a + [sep] + b;
    if a == [] {
      assert s[1..] == b;
    } else {
      assert s[1..] == a[1..] + [sep] + b;
      SplitAfterPiece(a[1..], b, sep);
      assert [a[0]] + a[1..] == a;
    }
  }

  /** Splitting undoes joining pieces that do not contain the separator. */
  lemma {:induction false} SplitJoin(parts: seq<string>, sep: char)
    requires |parts| >= 1
    requires forall k :: 0 <= k < |parts| ==> sep !in parts[k]
    ensures Split(Join(parts, sep), sep) == parts
    decreases |parts|
  {
    if |parts| == 1 {
      SplitWithoutSep(parts[0], sep);
    } else {
      SplitJoin(parts[1..], sep);
      SplitAfterPiece(parts[0], Join(parts[1..], sep), sep);
      assert [parts[0]] + parts[1..] == parts;
    }
  }

  /** Trimming never introduces a character. */
  lemma TrimKeepsOut(s: string, c: char)
    requires c !in s
    ensures c !in Trim(s)
  {
    var t := TrimStart(s);
    var r := TrimEnd(t);
    assert t == s[|s| - |t|..];
    assert r == t[..|r|];
  }

  /** `s.split(sep).map(p => p.trim())`. */
  function TrimmedParts(s: string, sep: char): (r: seq<string>)
    ensures |r| == |Split(s, sep)|
    ensures forall k :: 0 <= k < |r| ==> r[k] == Trim(Split(s, sep)[k])
  {
    var parts := Split(s, sep);
    seq(|parts|, k requires 0 <= k < |parts| => Trim(parts[k]))
  }

  // ---------------------------------------------------------------------------
  // Digits, parseInt, Number and toString
  // ---------------------------------------------------------------------------

  predicate IsDigit(c: char) {
    '0' <= c <= '9'
  }

  predicate AllDigits(s: string) {
    forall i :: 0 <= i < |s| ==> IsDigit(s[i])
  }

  /** The regular expression `^\d+$`: one or more ASCII digits and nothing else. */
  predicate IsDigitString(s: string) {
    |s| > 0 && AllDigits(s)
  }

  function DigitChar(d: nat): (c: char)
    requires d < 10
    ensures IsDigit(c)
  {
    ('0' as int + d) as char
  }

  /** The decimal value of a string of digits (the empty string is 0). */
  function DigitsValue(s: string): nat
    requires AllDigits(s)
    decreases |s|
  {
    if s == [] then 0 else 10 * DigitsValue(s[..|s| - 1]) + (s[|s| - 1] as int - '0' as int)
  }

  /** `n.toString()` for a non-negative integer: its decimal digits, with no leading zero. */
  function NatToString(n: nat): (r: string)
    ensures IsDigitString(r)
    ensures |r| > 1 ==> r[0] != '0'
    decreases n
  {
    if n < 10 then [DigitChar(n)] else NatToString(n / 10) + [DigitChar(n % 10)]
  }

  /** Reading back the digits of `n` gives `n`. */
  lemma {:induction false} NatToStringValue(n: nat)
    ensures DigitsValue(NatToString(n)) == n
    decreases n
  {
    if n >= 10 {
      NatToStringValue(n / 10);
      var s := NatToString(n);
      assert s[..|s| - 1] == NatToString(n / 10);
    }
  }

  /** `i.toString()` for an integer. */
  function IntToString(i: int): string {
    if i < 0 then "-" + NatToString(-i) else NatToString(i)
  }

  /** The longest prefix of `s` made of digits. */
  function DigitPrefix(s: string): (r: string)
    ensures AllDigits(r) && StartsWith(s, r)
    ensures |r| < |s| ==> !IsDigit(s[|r|])
    decreases |s|
  {
    if s != [] && IsDigit(s[0]) then [s[0]] + DigitPrefix(s[1..]) else ""
  }

  /** Splits an optional leading sign off `t`: the sign as +1/-1 and the rest. */
  function SignAndBody(t: string): (int, string) {
    if t != [] && t[0] == '-' then (-1, t[1..])
    else if t != [] && t[0] == '+' then (1, t[1..])
    else (1, t)
  }

  /** `parseInt(s, 10)`: leading whitespace, an optional sign, then the longest run of digits;
      `None` stands for NaN (no digit at all). */
  function ParseInt(s: string): Option<int> {
    var (sign, body) := SignAndBody(TrimStart(s));
    var d := DigitPrefix(body);
    if d == [] then None else Some(sign * DigitsValue(d))
  }

  predicate IsHexDigit(c: char) {
    IsDigit(c) || 'a' <= c <= 'f' || 'A' <= c <= 'F'
  }

  function HexDigitValue(c: char): (v: nat)
    requires IsHexDigit(c)
    ensures v < 16
  {
    if IsDigit(c) then c as int - '0' as int
    else if 'a' <= c <= 'f' then c as int - 'a' as int + 10
    else c as int - 'A' as int + 10
  }

  /** The hexadecimal value of a string of hexadecimal digits (the empty string is 0). */
  function HexValue(s: string): nat
    requires forall i :: 0 <= i < |s| ==> IsHexDigit(s[i])
    decreases |s|
  {
    if s == [] then 0 else 16 * HexValue(s[..|s| - 1]) + HexDigitValue(s[|s| - 1])
  }

  /** The longest prefix of `s` made of hexadecimal digits. */
  function HexPrefix(s: string): (r: string)
    ensures StartsWith(s, r)
    ensures forall i :: 0 <= i < |r| ==> IsHexDigit(r[i])
    ensures |r| < |s| ==> !IsHexDigit(s[|r|])
    decreases |s|
  {
    if s != [] && IsHexDigit(s[0]) then [s[0]] + HexPrefix(s[1..]) else ""
  }

  /** A body that opens with `0x` or `0X`. */
  predicate HexPrefixed(body: string) {
    |body| >= 2 && body[0] == '0' && (body[1] == 'x' || body[1] == 'X')
  }

  /** `parseInt(s)` with no radix: as `ParseInt`, except that `0x` or `0X` right after the
      sign switches to the longest run of hexadecimal digits that follows. */
  function ParseIntAuto(s: string): (r: Option<int>)
    ensures !HexPrefixed(SignAndBody(TrimStart(s)).1) ==> r == ParseInt(s)
  {
    var (sign, body) := SignAndBody(TrimStart(s));
    if HexPrefixed(body) then
      var h := HexPrefix(body[2..]);
      if h == [] then None else Some(sign * HexValue(h))
    else ParseInt(s)
  }

  /** Without a radix, `0x1A` reads as 26, where the decimal reading stops at the `x`. */
  lemma HexWithoutRadix()
    ensures ParseIntAuto("0x1A") == Some(26) && ParseInt("0x1A") == Some(0)
  {
    assert TrimStart("0x1A") == "0x1A";
    assert "0x1A"[2..] == "1A";
    HexOneA();
    DecimalZeroBeforeXOneA();
  }

  lemma DecimalZeroBeforeXOneA()
    ensures ParseInt("0x1A") == Some(0)
  {
    assert TrimStart("0x1A") == "0x1A";
    assert "0x1A"[1..] == "x1A";
    assert DigitPrefix("0x1A") == "0";
    assert "0"[..0] == "";
  }

  lemma HexOneA()
    ensures HexPrefix("1A") == "1A" && HexValue("1A") == 26
  {
    assert HexPrefix("A") == "A";
    assert "1A"[..1] == "1";
    assert "1"[..0] == "";
  }

  /** A sign before the prefix applies to the hexadecimal value. */
  lemma SignedHexWithoutRadix()
    ensures ParseIntAuto("-0x10") == Some(-16)
  {
    assert TrimStart("-0x10") == "-0x10";
    assert SignAndBody("-0x10") == (-1, "0x10");
    assert "0x10"[2..] == "10";
    assert HexPrefix("10") == "10" by {
      assert HexPrefix("0") == "0";
    }
    assert "10"[..1] == "1";
    assert "1"[..0] == "";
  }

  /** A bare `0x` without a radix is NaN, and `0` with the radix 10. */
  lemma BareHexPrefix()
    ensures ParseIntAuto("0x").None? && ParseInt("0x") == Some(0)
  {
    assert TrimStart("0x") == "0x";
    assert SignAndBody("0x") == (1, "0x");
    assert HexPrefix("0x"[2..]) == "";
    DecimalZeroBeforeX();
  }

  lemma DecimalZeroBeforeX()
    ensures DigitPrefix("0x") == "0" && DigitsValue("0") == 0
  {
    assert "0x"[1..] == "x";
    assert "0"[..0] == "";
  }

  /** `Number(s)` for strings holding integers: the trimmed text must be empty (0) or an optional
      sign followed by digits only; anything else is NaN (`None`). */
  function ToNumber(s: string): Option<int> {
    var t := Trim(s);
    if t == [] then Some(0)
    else
      var (sign, body) := SignAndBody(t);
      if IsDigitString(body) then Some(sign * DigitsValue(body)) else None
  }

  /** A string of digits reads as its value under `parseInt`. */
  lemma ParseIntDigits(s: string)
    requires IsDigitString(s)
    ensures ParseInt(s) == Some(DigitsValue(s))
  {
    assert TrimStart(s) == s;
    assert DigitPrefix(s) == s by {
      DigitPrefixAll(s);
    }
  }

  lemma {:induction false} DigitPrefixAll(s: string)
    requires AllDigits(s)
    ensures DigitPrefix(s) == s
    decreases |s|
  {
    if s != [] {
      DigitPrefixAll(s[1..]);
    }
  }

  lemma NoSpaceInIntString(i: int)
    ensures var s := IntToString(i); s != [] && !IsSpace(s[0]) && !IsSpace(s[|s| - 1])
  {
  }

  /** `Number(i.toString()) == i`, and `parseInt(i.toString())` gives `i` with or without the
      radix 10. */
  lemma IntToStringRoundTrip(i: int)
    ensures ToNumber(IntToString(i)) == Some(i)
    ensures ParseInt(IntToString(i)) == Some(i)
    ensures ParseIntAuto(IntToString(i)) == Some(i)
  {
    var s := IntToString(i);
    NoSpaceInIntString(i);
    assert TrimStart(s) == s;
    assert TrimEnd(s) == s;
    var n: nat := if i < 0 then -i else i;
    NatToStringValue(n);
    DigitPrefixAll(NatToString(n));
    if i < 0 {
      assert SignAndBody(s) == (-1, NatToString(n));
    } else {
      assert SignAndBody(s) == (1, NatToString(n));
    }
    DigitsNotHexPrefixed(NatToString(n));
  }

  /** Without a radix, a string of decimal digits still reads as its decimal value. */
  lemma ParseIntAutoDigits(s: string)
    requires IsDigitString(s)
    ensures ParseIntAuto(s) == Some(DigitsValue(s))
  {
    DigitsNotHexPrefixed(s);
    ParseIntDigits(s);
  }

  lemma DigitsNotHexPrefixed(s: string)
    requires IsDigitString(s)
    ensures !HexPrefixed(s) && !HexPrefixed(SignAndBody(TrimStart(s)).1)
  {
    assert IsDigit(s[0]);
    assert TrimStart(s) == s;
    assert SignAndBody(s) == (1, s);
    if |s| >= 2 {
      assert IsDigit(s[1]);
    }
  }
}

/**
 * The pieces of Python's `str` behaviour the loader relies on: `str.split`
 * with a multi-character separator, `str.join`, `str.strip()`, and the
 * numeric grammars accepted by `int(str)` and `float(str)`.
 *
 * Whitespace is the ASCII part of `str.isspace()`; digits are the ASCII
 * digits. Both grammars accept single underscores between digits, as
 * Python does.
 */
module Text {
  import opened Wrappers

  // ---------------------------------------------------------------------
  // Characters
  // ---------------------------------------------------------------------

  /** ASCII characters for which Python's `str.isspace()` holds:
      space, `\t` `\n` `\v` `\f` `\r` (9..13) and the separators 0x1C..0x1F. */
  predicate IsSpace(c: char) {
    c == ' ' || '\t' <= c <= '\r' || '\U{1C}' <= c <= '\U{1F}'
  }

  predicate IsDigit(c: char) {
    '0' <= c <= '9'
  }

  function DigitOf(c: char): (d: nat)
    requires IsDigit(c)
    ensures d < 10
  {
    c as int - '0' as int
  }

  function DigitChar(d: nat): (c: char)
    requires d < 10
    ensures IsDigit(c) && DigitOf(c) == d
  {
    ('0' as int + d) as char
  }

  // ---------------------------------------------------------------------
  // Searching for a separator
  // ---------------------------------------------------------------------

  /** `sep` occurs in `s` starting at index `i`. */
  predicate Occurs(s: string, sep: string, i: nat) {
    i + |sep| <= |s| && s[i..i + |sep|] == sep
  }

  /** `sep` occurs nowhere in `s`. */
  ghost predicate Free(s: string, sep: string) {
    forall j: nat :: !Occurs(s, sep, j)
  }

  /** `sep` occurs in `s` at `i` and at no other index. */
  ghost predicate OccursOnlyAt(s: string, sep: string, i: nat) {
    Occurs(s, sep, i) && forall j: nat :: j != i ==> !Occurs(s, sep, j)
  }

  /** The first index at or after `from` where `sep` occurs (`str.find`). */
  function Find(s: string, sep: string, from: nat): (r: Option<nat>)
    requires |sep| > 0
    ensures r.Some? ==> from <= r.value && Occurs(s, sep, r.value)
    ensures forall j: nat :: from <= j && (r.None? || j < r.value) ==> !Occurs(s, sep, j)
    decreases |s| - from
  {
    if from + |sep| > |s| then None
    else if s[from..from + |sep|] == sep then Some(from)
    else Find(s, sep, from + 1)
  }

  /** Python's `s.split(sep)`: cut at each occurrence of `sep`, scanning left
      to right and resuming after the separator just found. */
  function Split(s: string, sep: string): (parts: seq<string>)
    requires |sep| > 0
    ensures |parts| >= 1
    decreases |s|
  {
    match Find(s, sep, 0)
    case None => [s]
    case Some(i) => [s[..i]] + Split(s[i + |sep|..], sep)
  }

  /** Python's `sep.join(parts)`. */
  function Join(parts: seq<string>, sep: string): string
    decreases |parts|
  {
    if |parts| == 0 then ""
    else if |parts| == 1 then parts[0]
    else parts[0] + sep + Join(parts[1..], sep)
  }

  lemma OccursInSuffix(s: string, sep: string, off: nat, j: nat)
    requires off <= |s|
    ensures Occurs(s[off..], sep, j) <==> Occurs(s, sep, off + j)
  {
    if off + j + |sep| <= |s| {
      assert s[off..][j..j + |sep|] == s[off + j..off + j + |sep|];
    }
  }

  lemma OccursInPrefix(s: string, sep: string, n: nat, j: nat)
    requires n <= |s|
    ensures Occurs(s[..n], sep, j) <==> (j + |sep| <= n && Occurs(s, sep, j))
  {
    if j + |sep| <= n {
      assert s[..n][j..j + |sep|] == s[j..j + |sep|];
    }
  }

  /** Joining the parts of a split with the same separator gives back the string. */
  lemma {:induction false} JoinSplit(s: string, sep: string)
    requires |sep| > 0
    ensures Join(Split(s, sep), sep) == s
    decreases |s|
  {
    var f := Find(s, sep, 0);
    if f.Some? {
      var i := f.value;
      var rest := s[i + |sep|..];
      var tail := Split(rest, sep);
      var parts := Split(s, sep);
      assert parts == [s[..i]] + tail;
      JoinSplit(rest, sep);
      assert parts[1..] == tail;
      assert Join(parts, sep) == s[..i] + sep + Join(tail, sep);
      assert s[i..i + |sep|] == sep;
      assert s == s[..i] + s[i..i + |sep|] + rest;
    }
  }

  /** No part of a split contains the separator. */
  lemma {:induction false} SplitPartsFree(s: string, sep: string)
    requires |sep| > 0
    ensures forall k :: 0 <= k < |Split(s, sep)| ==> Free(Split(s, sep)[k], sep)
    decreases |s|
  {
    match Find(s, sep, 0)
    case None =>
    case Some(i) =>
      var rest := s[i + |sep|..];
      SplitPartsFree(rest, sep);
      forall j: nat ensures !Occurs(s[..i], sep, j) {
        OccursInPrefix(s, sep, i, j);
      }
      assert Split(s, sep) == [s[..i]] + Split(rest, sep);
  }

  /** A string without any occurrence of `sep` splits into itself alone. */
  lemma SplitFree(s: string, sep: string)
    requires |sep| > 0 && Free(s, sep)
    ensures Split(s, sep) == [s]
  {
    var f := Find(s, sep, 0);
    assert f.None?;
  }

  /** The quantity separator " x" cannot overlap itself. */
  lemma QuantitySepNoOverlap(s: string, i: nat)
    requires Occurs(s, " x", i)
    ensures !Occurs(s, " x", i + 1)
  {
    assert s[i + 1] == s[i..i + 2][1] == 'x';
  }

  /** `s.split(" x")` has exactly two parts if and only if " x" occurs exactly
      once in `s`; the two parts are then what precedes and what follows it. */
  lemma {:induction false} SplitQuantitySep(s: string)
    ensures |Split(s, " x")| == 2 <==> exists i: nat :: OccursOnlyAt(s, " x", i)
    ensures |Split(s, " x")| == 2 ==>
      exists i: nat :: OccursOnlyAt(s, " x", i) &&
        Split(s, " x")[0] == s[..i] && Split(s, " x")[1] == s[i + 2..]
  {
    var sep := " x";
    var f := Find(s, sep, 0);
    if f.Some? {
      var i := f.value;
      if Free(s[i + 2..], sep) {
        SplitQuantityOnce(s, i);
        assert OccursOnlyAt(s, sep, i) && Split(s, sep)[0] == s[..i] && Split(s, sep)[1] == s[i + 2..];
      } else {
        SplitQuantityMore(s, i);
      }
    } else {
      assert Split(s, sep) == [s];
      forall k: nat ensures !OccursOnlyAt(s, sep, k) {
        assert !Occurs(s, sep, k);
      }
    }
  }

  /** When nothing after the first " x" holds another, the split is what
      precedes and what follows it, and that occurrence is the only one. */
  lemma SplitQuantityOnce(s: string, i: nat)
    requires Find(s, " x", 0) == Some(i) && Free(s[i + 2..], " x")
    ensures Split(s, " x") == [s[..i], s[i + 2..]] && OccursOnlyAt(s, " x", i)
  {
    var sep := " x";
    var rest := s[i + 2..];
    assert Split(s, sep) == [s[..i]] + Split(rest, sep);
    SplitFree(rest, sep);
    forall j: nat | j != i ensures !Occurs(s, sep, j) {
      if j == i + 1 {
        QuantitySepNoOverlap(s, i);
      } else if j > i + 1 {
        OccursInSuffix(s, sep, i + 2, j - i - 2);
      }
    }
  }

  /** When a second " x" follows the first, the split has more than two
      parts and no occurrence is the only one. */
  lemma SplitQuantityMore(s: string, i: nat)
    requires Find(s, " x", 0) == Some(i) && !Free(s[i + 2..], " x")
    ensures |Split(s, " x")| > 2 && forall k: nat :: !OccursOnlyAt(s, " x", k)
  {
    var sep := " x";
    var rest := s[i + 2..];
    assert Split(s, sep) == [s[..i]] + Split(rest, sep);
    var j: nat :| Occurs(rest, sep, j);
    OccursInSuffix(s, sep, i + 2, j);
    assert !OccursOnlyAt(s, sep, i + 2 + j);
    assert |Split(rest, sep)| >= 2 by {
      var g := Find(rest, sep, 0);
      assert g.Some?;
    }
    forall k: nat ensures !OccursOnlyAt(s, sep, k) {
      if k != i {
        assert Occurs(s, sep, i);
      }
    }
  }

  /** Splitting a `[c]`-joined list of parts that do not contain `c` gives
      the parts back. */
  lemma {:induction false} SplitJoinChar(parts: seq<string>, c: char)
    requires |parts| >= 1
    requires forall k :: 0 <= k < |parts| ==> c !in parts[k]
    ensures Split(Join(parts, [c]), [c]) == parts
    decreases |parts|
  {
    var sep := [c];
    if |parts| == 1 {
      forall j: nat ensures !Occurs(parts[0], sep, j) {
        if j + 1 <= |parts[0]| {
          assert parts[0][j..j + 1] == [parts[0][j]];
        }
      }
      SplitFree(parts[0], sep);
    } else {
      var p := parts[0];
      var tail := Join(parts[1..], sep);
      var s := Join(parts, sep);
      assert s == p + sep + tail;
      assert s[|p|..|p| + 1] == sep;
      assert Occurs(s, sep, |p|);
      var f := Find(s, sep, 0);
      assert f.Some? && f.value <= |p|;
      forall j: nat | j < |p| ensures !Occurs(s, sep, j) {
        assert s[j..j + 1] == [s[j]] && s[j] == p[j];
      }
      assert f.value == |p|;
      assert s[|p| + 1..] == tail;
      assert s[..|p|] == p;
      assert Split(s, sep) == [p] + Split(tail, sep);
      SplitJoinChar(parts[1..], c);
      assert parts == [p] + parts[1..];
    }
  }

  // ---------------------------------------------------------------------
  // str.strip()
  // ---------------------------------------------------------------------

  /** `s.lstrip()`: the suffix of `s` after its leading whitespace. */
  function StripLeft(s: string): (r: string)
    ensures |r| <= |s| && r == s[|s| - |r|..]
    ensures forall i :: 0 <= i < |s| - |r| ==> IsSpace(s[i])
    ensures |r| > 0 ==> !IsSpace(r[0])
  {
    if |s| > 0 && IsSpace(s[0]) then StripLeft(s[1..]) else s
  }

  /** `s.rstrip()`: the prefix of `s` before its trailing whitespace. */
  function StripRight(s: string): (r: string)
    ensures |r| <= |s| && r == s[..|r|]
    ensures forall i :: |r| <= i < |s| ==> IsSpace(s[i])
    ensures |r| > 0 ==> !IsSpace(r[|r| - 1])
  {
    if |s| > 0 && IsSpace(s[|s| - 1]) then StripRight(s[..|s| - 1]) else s
  }

  /** `s.strip()`: neither end of the result is whitespace, and a string whose
      ends are not whitespace is left as it is. */
  function Strip(s: string): (r: string)
    ensures |r| > 0 ==> !IsSpace(r[0]) && !IsSpace(r[|r| - 1])
    ensures (|s| == 0 || (!IsSpace(s[0]) && !IsSpace(s[|s| - 1]))) ==> r == s
  {
    StripRight(StripLeft(s))
  }

  /** Stripping only removes characters. */
  lemma StripOnlyRemoves(s: string, c: char)
    requires c in Strip(s)
    ensures c in s
  {
    var r := Strip(s);
    var i :| 0 <= i < |r| && r[i] == c;
    var l := StripLeft(s);
    assert r[i] == l[i];
    assert l[i] == s[|s| - |l| + i];
  }

  /** A character absent from the input is absent from the stripped text. */
  lemma StripAbsent(s: string, c: char)
    requires c !in s
    ensures c !in Strip(s)
  {
    if c in Strip(s) {
      StripOnlyRemoves(s, c);
    }
  }

  /** Stripping keeps every character that is not whitespace. */
  lemma StripKeeps(s: string, c: char)
    requires c in s && !IsSpace(c)
    ensures c in Strip(s)
  {
    var i :| 0 <= i < |s| && s[i] == c;
    var l := StripLeft(s);
    var k := |s| - |l|;
    assert l[i - k] == c;
    var r := StripRight(l);
    assert r[i - k] == c;
  }

  // ---------------------------------------------------------------------
  // Digits
  // ---------------------------------------------------------------------

  /** Every character is a digit or an underscore. */
  predicate DigitsOrUnderscores(s: string) {
    forall i :: 0 <= i < |s| ==> IsDigit(s[i]) || s[i] == '_'
  }

  /** No two underscores stand next to each other. */
  predicate NoDoubleUnderscore(s: string)
    decreases |s|
  {
    |s| < 2 || (!(s[|s| - 2] == '_' && s[|s| - 1] == '_') && NoDoubleUnderscore(s[..|s| - 1]))
  }

  /** Python's `digitpart`: one or more digits, with single underscores
      allowed between two digits. */
  predicate IsDigitPart(s: string) {
    |s| > 0 && DigitsOrUnderscores(s) && s[0] != '_' && s[|s| - 1] != '_' && NoDoubleUnderscore(s)
  }

  /** The number a digit string denotes, underscores ignored. */
  function DigitsValue(s: string): nat
    requires DigitsOrUnderscores(s)
    decreases |s|
  {
    if |s| == 0 then 0
    else if s[|s| - 1] == '_' then DigitsValue(s[..|s| - 1])
    else DigitsValue(s[..|s| - 1]) * 10 + DigitOf(s[|s| - 1])
  }

  /** How many digits (not underscores) `s` holds. */
  function DigitCount(s: string): nat
    decreases |s|
  {
    if |s| == 0 then 0
    else DigitCount(s[..|s| - 1]) + (if IsDigit(s[|s| - 1]) then 1 else 0)
  }

  function Pow10(n: nat): (p: nat)
    ensures p >= 1
  {
    if n == 0 then 1 else 10 * Pow10(n - 1)
  }

  /** Decimal notation of a natural number, most significant digit first. */
  function NatToString(n: nat): (s: string)
    ensures |s| >= 1 && forall i :: 0 <= i < |s| ==> IsDigit(s[i])
    decreases n
  {
    if n < 10 then [DigitChar(n)] else NatToString(n / 10) + [DigitChar(n % 10)]
  }

  /** Decimal notation of an integer, as Python's `str(n)`. */
  function IntToString(n: int): string {
    if n < 0 then "-" + NatToString(-n) else NatToString(n)
  }

  lemma {:induction false} NatToStringValue(n: nat)
    ensures DigitsOrUnderscores(NatToString(n)) && DigitsValue(NatToString(n)) == n
    decreases n
  {
    var s := NatToString(n);
    if n >= 10 {
      NatToStringValue(n / 10);
      assert s[..|s| - 1] == NatToString(n / 10);
    }
  }

  lemma {:induction false} AllDigitsNoDoubleUnderscore(s: string)
    requires forall i :: 0 <= i < |s| ==> IsDigit(s[i])
    ensures NoDoubleUnderscore(s)
    decreases |s|
  {
    if |s| >= 2 {
      AllDigitsNoDoubleUnderscore(s[..|s| - 1]);
    }
  }

  lemma AllDigitsIsDigitPart(s: string)
    requires |s| >= 1 && forall i :: 0 <= i < |s| ==> IsDigit(s[i])
    ensures IsDigitPart(s)
  {
    AllDigitsNoDoubleUnderscore(s);
  }

  // ---------------------------------------------------------------------
  // int(str)
  // ---------------------------------------------------------------------

  /** An optional sign followed by a digitpart, as the value it denotes. */
  function ParseSignedDigits(t: string): Option<int> {
    if |t| > 0 && (t[0] == '+' || t[0] == '-') then
      if IsDigitPart(t[1..]) then
        Some(if t[0] == '-' then -(DigitsValue(t[1..]) as int) else DigitsValue(t[1..]))
      else None
    else if IsDigitPart(t) then Some(DigitsValue(t))
    else None
  }

  /** Python's `int(s)` for a string in base 10: surrounding whitespace is
      ignored; `None` stands for the `ValueError` Python raises. */
  function ParseInt(s: string): Option<int> {
    ParseSignedDigits(Strip(s))
  }

  /** A run of digits is left alone by `strip()`. */
  lemma StripDigits(d: string)
    requires |d| >= 1 && forall i :: 0 <= i < |d| ==> IsDigit(d[i])
    ensures Strip(d) == d
  {
    assert !IsSpace(d[0]) && !IsSpace(d[|d| - 1]);
  }

  /** `int(str(n)) == n`. */
  lemma ParseIntRoundTrip(n: int)
    ensures ParseInt(IntToString(n)) == Some(n)
  {
    var m: nat := if n < 0 then -n else n;
    var d := NatToString(m);
    NatToStringValue(m);
    AllDigitsIsDigitPart(d);
    if n < 0 {
      StripNegative(d);
      NegativeDigits(d);
    } else {
      StripDigits(d);
      assert d[0] != '+' && d[0] != '-';
    }
  }

  /** A minus sign before a run of digits is left alone by `strip()`. */
  lemma StripNegative(d: string)
    requires |d| >= 1 && forall i :: 0 <= i < |d| ==> IsDigit(d[i])
    ensures Strip("-" + d) == "-" + d
  {
    var s := "-" + d;
    assert s[0] == '-' && s[|s| - 1] == d[|d| - 1];
  }

  /** A minus sign before a digitpart denotes the negated value. */
  lemma NegativeDigits(d: string)
    requires IsDigitPart(d)
    ensures ParseSignedDigits("-" + d) == Some(-(DigitsValue(d) as int))
  {
    assert ("-" + d)[1..] == d;
  }

  predicate IsIntChar(c: char) {
    IsDigit(c) || c == '_' || c == '+' || c == '-'
  }

  /** `int(s)` raises as soon as the stripped text holds a character that is
      neither a digit, an underscore nor a sign. */
  lemma ParseIntRejects(s: string, c: char)
    requires c in s && !IsIntChar(c) && !IsSpace(c)
    ensures ParseInt(s) == None
  {
    StripKeeps(s, c);
    var t := Strip(s);
    var i :| 0 <= i < |t| && t[i] == c;
    if |t| > 0 && (t[0] == '+' || t[0] == '-') {
      assert i > 0;
      assert t[1..][i - 1] == c;
    }
  }

  // ---------------------------------------------------------------------
  // float(str), decimal notation with an optional exponent
  // ---------------------------------------------------------------------

  /** The index of the first character of `s` in `cs`, or `|s|`. */
  function IndexOfAny(s: string, cs: set<char>): (i: nat)
    ensures i <= |s| && (i < |s| ==> s[i] in cs)
    ensures forall j :: 0 <= j < i ==> s[j] !in cs
  {
    if |s| == 0 then 0
    else if s[0] in cs then 0
    else 1 + IndexOfAny(s[1..], cs)
  }

  /** `m * 10^e`, exactly. */
  function Scale(m: real, e: int): real {
    if e >= 0 then m * Pow10(e) as real else m / Pow10(-e) as real
  }

  /** `[digitpart] "." digitpart | digitpart ["."]`. */
  function ParseMantissa(m: string): Option<real> {
    var d := IndexOfAny(m, {'.'});
    if d == |m| then
      if IsDigitPart(m) then Some(DigitsValue(m) as real) else None
    else
      var whole := m[..d];
      var frac := m[d + 1..];
      if (whole == [] || IsDigitPart(whole)) && (frac == [] || IsDigitPart(frac)) && (whole != [] || frac != []) then
        Some(DigitsValue(whole) as real + DigitsValue(frac) as real / Pow10(DigitCount(frac)) as real)
      else None
  }

  /** A mantissa optionally followed by `e` or `E` and a signed digitpart. */
  function ParseUnsignedFloat(u: string): Option<real> {
    var e := IndexOfAny(u, {'e', 'E'});
    if e == |u| then ParseMantissa(u)
    else
      match (ParseMantissa(u[..e]), ParseSignedDigits(u[e + 1..]))
      case (Some(m), Some(x)) => Some(Scale(m, x))
      case _ => None
  }

  /** Python's `float(s)` on decimal notation: surrounding whitespace is
      ignored; `None` stands for the `ValueError` Python raises. */
  function ParseFloat(s: string): Option<real> {
    var t := Strip(s);
    if |t| > 0 && (t[0] == '+' || t[0] == '-') then
      match ParseUnsignedFloat(t[1..])
      case Some(x) => Some(if t[0] == '-' then -x else x)
      case None => None
    else ParseUnsignedFloat(t)
  }

  /** A plain run of digits is read as the number it denotes. */
  lemma ParseFloatDigits(t: string)
    requires |t| >= 1 && forall i :: 0 <= i < |t| ==> IsDigit(t[i])
    ensures ParseFloat(t) == Some(DigitsValue(t) as real)
  {
    StripDigits(t);
    UnsignedFloatDigits(t);
    assert t[0] != '+' && t[0] != '-';
  }

  lemma UnsignedFloatDigits(t: string)
    requires |t| >= 1 && forall i :: 0 <= i < |t| ==> IsDigit(t[i])
    ensures ParseUnsignedFloat(t) == Some(DigitsValue(t) as real)
  {
    IndexOfAnyAbsent(t, {'e', 'E'});
    MantissaDigits(t);
  }

  lemma MantissaDigits(t: string)
    requires |t| >= 1 && forall i :: 0 <= i < |t| ==> IsDigit(t[i])
    ensures ParseMantissa(t) == Some(DigitsValue(t) as real)
  {
    IndexOfAnyAbsent(t, {'.'});
    AllDigitsIsDigitPart(t);
  }

  lemma IndexOfAnyAbsent(s: string, cs: set<char>)
    requires forall i :: 0 <= i < |s| ==> s[i] !in cs
    ensures IndexOfAny(s, cs) == |s|
  {
  }

  predicate IsFloatChar(c: char) {
    IsIntChar(c) || c == '.' || c == 'e' || c == 'E'
  }

  lemma MantissaChars(m: string)
    requires ParseMantissa(m).Some?
    ensures forall i :: 0 <= i < |m| ==> IsDigit(m[i]) || m[i] == '_' || m[i] == '.'
  {
    var d := IndexOfAny(m, {'.'});
    if d < |m| {
      var whole := m[..d];
      var frac := m[d + 1..];
      forall i | 0 <= i < |m| ensures IsDigit(m[i]) || m[i] == '_' || m[i] == '.' {
        if i < d {
          assert m[i] == whole[i];
        } else if i > d {
          assert m[i] == frac[i - d - 1];
        }
      }
    }
  }

  lemma UnsignedFloatChars(u: string)
    requires ParseUnsignedFloat(u).Some?
    ensures forall i :: 0 <= i < |u| ==> IsFloatChar(u[i])
  {
    var e := IndexOfAny(u, {'e', 'E'});
    if e == |u| {
      MantissaChars(u);
    } else {
      var m := u[..e];
      var x := u[e + 1..];
      MantissaChars(m);
      forall i | 0 <= i < |u| ensures IsFloatChar(u[i]) {
        if i < e {
          assert u[i] == m[i];
        } else if i > e {
          assert u[i] == x[i - e - 1];
          if |x| > 0 && (x[0] == '+' || x[0] == '-') {
            if i > e + 1 {
              assert u[i] == x[1..][i - e - 2];
            }
          }
        }
      }
    }
  }

  /** `float(s)` raises as soon as the stripped text holds a character outside
      digits, underscore, sign, point and exponent letter. */
  lemma ParseFloatRejects(s: string, c: char)
    requires c in s && !IsFloatChar(c) && !IsSpace(c)
    ensures ParseFloat(s) == None
  {
    StripKeeps(s, c);
    var t := Strip(s);
    var i :| 0 <= i < |t| && t[i] == c;
    if |t| > 0 && (t[0] == '+' || t[0] == '-') {
      assert t[1..][i - 1] == c;
      if ParseUnsignedFloat(t[1..]).Some? {
        UnsignedFloatChars(t[1..]);
      }
    } else {
      if ParseUnsignedFloat(t).Some? {
        UnsignedFloatChars(t);
      }
    }
  }
}

/**
 * The loader's small pure helpers: `parse_revenue`, the "<id> x<n>"
 * quantity shorthand read with `str.split(" x")`, `_find_file` and the
 * `os.path.basename` it applies to the image path.
 */
module Normalize {
  import opened Wrappers
  import opened Json
  import opened Text

  // ---------------------------------------------------------------------
  // parse_revenue
  // ---------------------------------------------------------------------

  /** `s.replace(c, '')` for a single character `c`. */
  function RemoveChar(s: string, c: char): (r: string)
    ensures |r| <= |s|
    ensures forall x :: x in r <==> x in s && x != c
    decreases |s|
  {
    if |s| == 0 then "" else (if s[0] == c then "" else [s[0]]) + RemoveChar(s[1..], c)
  }

  /** The text `parse_revenue` hands to `float()`:
      `s.replace('€', '').replace(',', '').replace(' ', '').strip()`. */
  function Clean(s: string): (r: string)
    ensures '€' !in r && ',' !in r && ' ' !in r
    ensures |r| > 0 ==> !IsSpace(r[0]) && !IsSpace(r[|r| - 1])
  {
    var t := RemoveChar(RemoveChar(RemoveChar(s, '€'), ','), ' ');
    StripAbsent(t, '€');
    StripAbsent(t, ',');
    StripAbsent(t, ' ');
    Strip(t)
  }

  /** Python's `parse_revenue`: a number (a `bool` is one in Python) becomes
      a float; a string is cleaned and parsed, and text that does not parse
      gives 0.0. `None` stands for the `AttributeError` Python raises when
      the value is neither (here: JSON null). */
  function ParseRevenue(v: Value): (r: Option<real>)
    ensures v.Int? ==> r == Some(v.i as real)
    ensures v.Float? ==> r == Some(v.x)
    ensures v.Str? ==> r.Some?
    ensures r.None? <==> v.Null?
  {
    match v
    case Int(i) => Some(i as real)
    case Float(x) => Some(x)
    case Bool(b) => Some(if b then 1.0 else 0.0)
    case Str(s) => Some(ParseFloat(Clean(s)).GetOr(0.0))
    case Null => None
  }

  /** Feeding the result back in changes nothing: the result is a number. */
  lemma RevenueIdempotent(v: Value)
    requires ParseRevenue(v).Some?
    ensures ParseRevenue(Float(ParseRevenue(v).value)) == ParseRevenue(v)
  {
  }

  /** The characters `parse_revenue` removes before parsing. */
  predicate IsRevenueFormatting(c: char) {
    c == '€' || c == ',' || c == ' '
  }

  /** The digits of `s`, in order. */
  function Digits(s: string): (r: string)
    ensures forall i :: 0 <= i < |r| ==> IsDigit(r[i])
    decreases |s|
  {
    if |s| == 0 then "" else (if IsDigit(s[0]) then [s[0]] else "") + Digits(s[1..])
  }

  lemma {:induction false} RemoveCharAppend(a: string, b: string, c: char)
    ensures RemoveChar(a + b, c) == RemoveChar(a, c) + RemoveChar(b, c)
    decreases |a|
  {
    if |a| > 0 {
      RemoveCharAppend(a[1..], b, c);
      assert (a + b)[0] == a[0];
      assert (a + b)[1..] == a[1..] + b;
    } else {
      assert a + b == b;
    }
  }

  /** On a string of digits and formatting characters, the three `replace`
      calls leave exactly the digits. */
  lemma {:induction false} RemoveFormatting(s: string)
    requires forall i :: 0 <= i < |s| ==> IsDigit(s[i]) || IsRevenueFormatting(s[i])
    ensures RemoveChar(RemoveChar(RemoveChar(s, '€'), ','), ' ') == Digits(s)
    decreases |s|
  {
    if |s| > 0 {
      var h := [s[0]];
      var rest := s[1..];
      assert s == h + rest;
      RemoveFormatting(rest);
      RemoveCharAppend(h, rest, '€');
      RemoveCharAppend(RemoveChar(h, '€'), RemoveChar(rest, '€'), ',');
      RemoveCharAppend(RemoveChar(RemoveChar(h, '€'), ','), RemoveChar(RemoveChar(rest, '€'), ','), ' ');
    }
  }

  /** A currency-formatted amount such as "€911,750" or "1 250 €" is read as
      the number its digits spell. */
  lemma RevenueFormattedDigits(s: string)
    requires forall i :: 0 <= i < |s| ==> IsDigit(s[i]) || IsRevenueFormatting(s[i])
    requires |Digits(s)| >= 1
    ensures ParseRevenue(Str(s)) == Some(DigitsValue(Digits(s)) as real)
  {
    RemoveFormatting(s);
    var d := Digits(s);
    StripDigits(d);
    assert Clean(s) == d;
    ParseFloatDigits(d);
  }

  lemma RevenueExample()
    ensures ParseRevenue(Str("€911,750")) == Some(911750.0)
  {
    ExampleDigits();
    RevenueFormattedDigits("€911,750");
    ExampleValue();
  }

  lemma {:induction false} DigitsAppend(a: string, b: string)
    ensures Digits(a + b) == Digits(a) + Digits(b)
    decreases |a|
  {
    if |a| > 0 {
      assert (a + b)[0] == a[0];
      assert (a + b)[1..] == a[1..] + b;
      DigitsAppend(a[1..], b);
    } else {
      assert a + b == b;
    }
  }

  lemma DigitsDropped(c: char, rest: string)
    requires !IsDigit(c)
    ensures Digits([c] + rest) == Digits(rest)
  {
    assert ([c] + rest)[1..] == rest;
  }

  lemma DigitsKept(d: string, rest: string)
    requires forall i :: 0 <= i < |d| ==> IsDigit(d[i])
    ensures Digits(d + rest) == d + Digits(rest)
  {
    DigitsAppend(d, rest);
    DigitsOfDigits(d);
  }

  /** The digits of a euro amount written with a thousands separator. */
  lemma GroupedDigits(a: string, b: string)
    requires forall i :: 0 <= i < |a| ==> IsDigit(a[i])
    requires forall i :: 0 <= i < |b| ==> IsDigit(b[i])
    ensures Digits(['€'] + (a + ([','] + b))) == a + b
  {
    DigitsDropped('€', a + ([','] + b));
    DigitsKept(a, [','] + b);
    DigitsDropped(',', b);
    DigitsOfDigits(b);
  }

  lemma ExampleDigits()
    ensures Digits("€911,750") == "911750"
  {
    GroupedDigits("911", "750");
    assert ['€'] + ("911" + ([','] + "750")) == "€911,750";
  }

  lemma ExampleValue()
    ensures DigitsValue("911750") == 911750
  {
    assert DigitsValue("9") == 9;
    assert "91"[..1] == "9";
    assert DigitsValue("91") == 91;
    assert "911"[..2] == "91";
    assert DigitsValue("911") == 911;
    assert "9117"[..3] == "911";
    assert DigitsValue("9117") == 9117;
    assert "91175"[..4] == "9117";
    assert DigitsValue("91175") == 91175;
    assert "911750"[..5] == "91175";
  }

  /** Every natural number written out in decimal is read back. */
  lemma RevenueOfDecimal(n: nat)
    ensures ParseRevenue(Str(NatToString(n))) == Some(n as real)
  {
    var d := NatToString(n);
    RevenueFormattedDigits(d);
    assert Digits(d) == d by {
      DigitsOfDigits(d);
    }
    NatToStringValue(n);
  }

  lemma {:induction false} DigitsOfDigits(s: string)
    requires forall i :: 0 <= i < |s| ==> IsDigit(s[i])
    ensures Digits(s) == s
    decreases |s|
  {
    if |s| > 0 {
      DigitsOfDigits(s[1..]);
    }
  }

  /** Text holding a character that no numeral uses is not an error: it
      yields 0.0. */
  lemma RevenueNonNumeric(s: string, c: char)
    requires c in s && !IsFloatChar(c) && !IsSpace(c) && !IsRevenueFormatting(c)
    ensures ParseRevenue(Str(s)) == Some(0.0)
  {
    var t := RemoveChar(RemoveChar(RemoveChar(s, '€'), ','), ' ');
    assert c in t;
    StripKeeps(t, c);
    ParseFloatRejects(Clean(s), c);
  }

  lemma RevenueNotANumber()
    ensures ParseRevenue(Str("not a number")) == Some(0.0)
  {
    RevenueNonNumeric("not a number", 'n');
  }

  // ---------------------------------------------------------------------
  // "<id> x<n>" quantity shorthand
  // ---------------------------------------------------------------------

  /** What `parts = s.split(" x")` with the test `len(parts) == 2` yields:
      the identifier and the count text, or the whole string when the split
      does not give exactly two parts. */
  datatype Shorthand = Pair(id: string, count: string) | Bare(whole: string)

  function SplitShorthand(s: string): (r: Shorthand)
    ensures r.Bare? ==> r.whole == s
  {
    var parts := Split(s, " x");
    if |parts| == 2 then Pair(parts[0], parts[1]) else Bare(s)
  }

  /** The split has two parts exactly when " x" occurs once; the parts are
      then what precedes and what follows that occurrence, and joining them
      with " x" gives the string back. */
  lemma SplitShorthandSpec(s: string)
    ensures SplitShorthand(s).Pair? <==> exists i: nat :: OccursOnlyAt(s, " x", i)
    ensures SplitShorthand(s).Pair? ==>
      SplitShorthand(s).id + " x" + SplitShorthand(s).count == s &&
      Free(SplitShorthand(s).id, " x") && Free(SplitShorthand(s).count, " x")
    ensures forall i: nat :: OccursOnlyAt(s, " x", i) ==> SplitShorthand(s) == Pair(s[..i], s[i + 2..])
  {
    var parts := Split(s, " x");
    SplitQuantitySep(s);
    SplitPartsFree(s, " x");
    JoinSplit(s, " x");
    if |parts| == 2 {
      assert Join(parts, " x") == parts[0] + " x" + parts[1] by {
        assert parts[1..] == [parts[1]];
      }
    }
  }

  lemma NoSpaceFree(id: string)
    requires ' ' !in id
    ensures Free(id, " x")
  {
    forall j: nat ensures !Occurs(id, " x", j) {
      if j + 2 <= |id| {
        assert id[j..j + 2][0] == id[j];
      }
    }
  }

  /** An identifier and a count text, neither holding " x", joined with
      " x" split back into the two. */
  lemma ShorthandPair(id: string, count: string)
    requires Free(id, " x") && Free(count, " x")
    ensures SplitShorthand(id + " x" + count) == Pair(id, count)
  {
    var s := id + " x" + count;
    var k := |id|;
    assert s[..k] == id && s[k + 2..] == count;
    assert Occurs(s, " x", k) by {
      assert s[k..k + 2] == " x";
    }
    forall j: nat | j != k ensures !Occurs(s, " x", j) {
      if j + 2 <= |s| {
        if j + 2 <= k {
          OccursInPrefix(s, " x", k, j);
        } else if j + 1 == k {
          assert s[j + 1] == ' ';
          assert s[j..j + 2][1] == s[j + 1];
        } else if j == k + 1 {
          assert s[j] == 'x';
          assert s[j..j + 2][0] == s[j];
        } else {
          OccursInSuffix(s, " x", k + 2, j - k - 2);
        }
      }
    }
    assert OccursOnlyAt(s, " x", k);
    SplitShorthandSpec(s);
  }

  /** Writing an identifier free of " x" and an integer in shorthand and
      reading it back gives both again. */
  lemma ShorthandRoundTrip(id: string, n: int)
    requires Free(id, " x")
    ensures SplitShorthand(id + " x" + IntToString(n)) == Pair(id, IntToString(n))
    ensures ParseInt(IntToString(n)) == Some(n)
  {
    var d := IntToString(n);
    assert ' ' !in d by {
      if n < 0 {
        var digits := NatToString(-n);
        assert d == "-" + digits;
        forall i | 0 <= i < |d| ensures d[i] != ' ' {
          if i > 0 {
            assert d[i] == digits[i - 1];
          }
        }
      }
    }
    NoSpaceFree(d);
    ShorthandPair(id, d);
    ParseIntRoundTrip(n);
  }

  lemma PairExample()
    ensures SplitShorthand("PG-M01 x3") == Pair("PG-M01", "3") && ParseInt("3") == Some(3)
  {
    NoSpaceFree("PG-M01");
    NoSpaceFree("3");
    ShorthandPairOf("PG-M01 x3", "PG-M01", "3");
    assert IntToString(3) == "3";
    ParseIntRoundTrip(3);
  }

  lemma OtherPairExample()
    ensures SplitShorthand("PG-U01 x2") == Pair("PG-U01", "2") && ParseInt("2") == Some(2)
  {
    NoSpaceFree("PG-U01");
    NoSpaceFree("2");
    ShorthandPairOf("PG-U01 x2", "PG-U01", "2");
    assert IntToString(2) == "2";
    ParseIntRoundTrip(2);
  }

  lemma BareExamples()
    ensures SplitShorthand("PG-M01") == Bare("PG-M01")
    ensures SplitShorthand("PG-U01") == Bare("PG-U01")
  {
    NoSpaceFree("PG-M01");
    NoSpaceFree("PG-U01");
    ShorthandBareOf("PG-M01");
    ShorthandBareOf("PG-U01");
  }

  lemma BadCountExample()
    ensures SplitShorthand("PG-M01 xthree") == Pair("PG-M01", "three")
  {
    NoSpaceFree("PG-M01");
    NoSpaceFree("three");
    ShorthandPairOf("PG-M01 xthree", "PG-M01", "three");
  }

  lemma WordCountExample()
    ensures ParseInt("three") == None
  {
    ParseIntRejects("three", 't');
  }

  lemma ShorthandPairOf(s: string, id: string, count: string)
    requires Free(id, " x") && Free(count, " x") && s == id + " x" + count
    ensures SplitShorthand(s) == Pair(id, count)
  {
    ShorthandPair(id, count);
  }

  lemma ShorthandBareOf(s: string)
    requires Free(s, " x")
    ensures SplitShorthand(s) == Bare(s)
  {
    SplitShorthandSpec(s);
    forall i: nat ensures !OccursOnlyAt(s, " x", i) {
      assert !Occurs(s, " x", i);
    }
  }

  // ---------------------------------------------------------------------
  // _find_file and os.path.basename
  // ---------------------------------------------------------------------

  /** `_find_file`: the default path if it exists, otherwise the first file
      the glob returned, otherwise nothing. `present` says which paths exist;
      `candidates` is the glob's result in the order it gave them. */
  function FindFile(present: set<string>, defaultPath: string, candidates: seq<string>): (r: Option<string>)
    ensures defaultPath in present ==> r == Some(defaultPath)
    ensures r.None? <==> defaultPath !in present && |candidates| == 0
    ensures r.Some? && r.value != defaultPath ==> |candidates| > 0 && r.value == candidates[0]
    ensures defaultPath !in present && |candidates| > 0 ==> r == Some(candidates[0])
  {
    if defaultPath in present then Some(defaultPath)
    else if |candidates| > 0 then Some(candidates[0])
    else None
  }

  /** `os.path.basename(p)` on POSIX: what follows the last '/'. */
  function Basename(p: string): (r: string)
    ensures '/' !in r
    ensures |r| <= |p| && r == p[|p| - |r|..]
    ensures |r| < |p| ==> p[|p| - |r| - 1] == '/'
    decreases |p|
  {
    if |p| == 0 || p[|p| - 1] == '/' then "" else Basename(p[..|p| - 1]) + [p[|p| - 1]]
  }
}

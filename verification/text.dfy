/**
 The string operations the frame parser relies on, with Python's semantics:
 `str.split(sep)` on a one-character separator, `str.strip()`, `int(s)` and the
 acceptance test of `float(s)` (ASCII digits and whitespace only).
 */
module Text {
  import opened Base

  // ---------------------------------------------------------------------------
  // str.split / str.join on a single-character separator
  // ---------------------------------------------------------------------------

  /** `s.split(d)`: never empty, and an empty string splits into one empty part. */
  function Split(s: string, d: char): (r: seq<string>)
    ensures |r| >= 1
    ensures forall k :: 0 <= k < |r| ==> d !in r[k]
  {
    if |s| == 0 then [""]
    else
      var rest := Split(s[1..], d);
      if s[0] == d then [""] + rest
      else [[s[0]] + rest[0]] + rest[1..]
  }

  /** `d.join(parts)` for a non-empty list of parts. */
  function Join(parts: seq<string>, d: char): string
    requires |parts| >= 1
  {
    if |parts| == 1 then parts[0] else parts[0] + [d] + Join(parts[1..], d)
  }

  /** Number of occurrences of `d` in `s`. */
  function Count(s: string, d: char): nat
  {
    if |s| == 0 then 0 else (if s[0] == d then 1 else 0) + Count(s[1..], d)
  }

  /** Splitting yields one more part than there are separators. */
  lemma {:induction false} SplitLength(s: string, d: char)
    ensures |Split(s, d)| == Count(s, d) + 1
  {
    if |s| > 0 {
      SplitLength(s[1..], d);
    }
  }

  /** Joining the parts of a split gives back the original string. */
  lemma {:induction false} JoinSplit(s: string, d: char)
    ensures Join(Split(s, d), d) == s
  {
    if |s| > 0 {
      var rest := Split(s[1..], d);
      JoinSplit(s[1..], d);
      if s[0] == d {
        assert Split(s, d)[1..] == rest;
      } else {
        var r := Split(s, d);
        if |rest| == 1 {
          assert r == [[s[0]] + rest[0]];
        } else {
          assert r[1..] == rest[1..];
          assert Join(rest, d) == rest[0] + [d] + Join(rest[1..], d);
        }
      }
    }
  }

  /** Splitting a join of separator-free parts gives back the parts. */
  lemma {:induction false} SplitJoin(parts: seq<string>, d: char)
    requires |parts| >= 1
    requires forall k :: 0 <= k < |parts| ==> d !in parts[k]
    ensures Split(Join(parts, d), d) == parts
  {
    if |parts| == 1 {
      SplitNoSeparator(parts[0], d);
    } else {
      SplitJoin(parts[1..], d);
      SplitAppend(parts[0], Join(parts[1..], d), d);
    }
  }

  /** A string without the separator splits into itself. */
  lemma {:induction false} SplitNoSeparator(s: string, d: char)
    requires d !in s
    ensures Split(s, d) == [s]
  {
    if |s| > 0 {
      assert d !in s[1..] by {
        forall k | 0 <= k < |s[1..]| ensures s[1..][k] != d { assert s[1..][k] == s[k + 1]; }
      }
      SplitNoSeparator(s[1..], d);
      assert s[0] != d && [s[0]] + s[1..] == s;
    }
  }

  /** A separator-free prefix followed by the separator becomes a first part of its own. */
  lemma {:induction false} SplitAppend(a: string, b: string, d: char)
    requires d !in a
    ensures Split(a + [d] + b, d) == [a] + Split(b, d)
  {
    if |a| == 0 {
      assert a + [d] + b == [d] + b;
      assert ([d] + b)[1..] == b;
    } else {
      assert (a + [d] + b)[1..] == a[1..] + [d] + b;
      SplitAppend(a[1..], b, d);
      assert [a[0]] + a[1..] == a;
    }
  }

  // ---------------------------------------------------------------------------
  // str.strip and str.startswith
  // ---------------------------------------------------------------------------

  /** The ASCII characters Python's `str.isspace` accepts: tab to carriage return, the four separators 0x1C-0x1F, and space. */
  predicate IsSpace(c: char)
  {
    ('\t' <= c <= '\r') || ('\U{001C}' <= c <= '\U{001F}') || c == ' '
  }

  /** The end of the whitespace run of s starting at i: the first non-space at or after i, or |s|. */
  function SpaceRunEnd(s: string, i: nat): (j: nat)
    requires i <= |s|
    ensures i <= j <= |s|
    ensures j < |s| ==> !IsSpace(s[j])
    ensures forall k :: i <= k < j ==> IsSpace(s[k])
    decreases |s| - i
  {
    if i < |s| && IsSpace(s[i]) then SpaceRunEnd(s, i + 1) else i
  }

  /** The start of the whitespace run of s ending at j, not going below lo. */
  function SpaceRunStart(s: string, lo: nat, j: nat): (i: nat)
    requires lo <= j <= |s|
    ensures lo <= i <= j
    ensures lo < i ==> !IsSpace(s[i - 1])
    ensures forall k :: i <= k < j ==> IsSpace(s[k])
  {
    if lo < j && IsSpace(s[j - 1]) then SpaceRunStart(s, lo, j - 1) else j
  }

  function StripLeft(s: string): (r: string)
    ensures |r| <= |s|
    ensures r == s[|s| - |r|..]
    ensures |r| > 0 ==> !IsSpace(r[0])
    ensures forall k :: 0 <= k < |s| - |r| ==> IsSpace(s[k])
  {
    s[SpaceRunEnd(s, 0)..]
  }

  function StripRight(s: string): (r: string)
    ensures |r| <= |s|
    ensures r == s[..|r|]
    ensures |r| > 0 ==> !IsSpace(r[|r| - 1])
    ensures forall k :: |r| <= k < |s| ==> IsSpace(s[k])
  {
    s[..SpaceRunStart(s, 0, |s|)]
  }

  /** `s.strip()`: removes leading and trailing whitespace. */
  function Strip(s: string): (r: string)
    ensures var a := |s| - |StripLeft(s)|;
      && a + |r| <= |s| && r == s[a..a + |r|]
      && (forall k :: 0 <= k < a ==> IsSpace(s[k]))
      && (forall k :: a + |r| <= k < |s| ==> IsSpace(s[k]))
    ensures |r| > 0 ==> !IsSpace(r[0]) && !IsSpace(r[|r| - 1])
  {
    var a := SpaceRunEnd(s, 0);
    s[a..SpaceRunStart(s, a, |s|)]
  }

  predicate StartsWith(s: string, prefix: string)
  {
    |prefix| <= |s| && s[..|prefix|] == prefix
  }

  // ---------------------------------------------------------------------------
  // int(s), base 10
  // ---------------------------------------------------------------------------

  predicate IsDigit(c: char)
  {
    '0' <= c <= '9'
  }

  function DigitValue(c: char): nat
    requires IsDigit(c)
  {
    (c as int) - ('0' as int)
  }

  function DigitChar(n: nat): (c: char)
    requires n < 10
    ensures IsDigit(c) && DigitValue(c) == n
  {
    (('0' as int) + n) as char
  }

  /**
   A run of digits in which single underscores may separate digits: the form
   Python's `int` and `float` accept for a digit group.
   */
  predicate IsDigitGroup(s: string)
  {
    && |s| > 0
    && IsDigit(s[0])
    && IsDigit(s[|s| - 1])
    && (forall k :: 0 <= k < |s| ==> IsDigit(s[k]) || s[k] == '_')
    && (forall k :: 0 <= k < |s| - 1 ==> !(s[k] == '_' && s[k + 1] == '_'))
  }

  /** The value of a digit group, underscores ignored. */
  function GroupValue(s: string): nat
    requires forall k :: 0 <= k < |s| ==> IsDigit(s[k]) || s[k] == '_'
  {
    if |s| == 0 then 0
    else if s[|s| - 1] == '_' then GroupValue(s[..|s| - 1])
    else GroupValue(s[..|s| - 1]) * 10 + DigitValue(s[|s| - 1])
  }

  /** `int(s)`: None where Python raises ValueError. */
  function ParseInt(s: string): (r: Option<int>)
    ensures r.Some? ==> |Strip(s)| > 0
  {
    var t := Strip(s);
    if |t| == 0 then None
    else if t[0] == '-' || t[0] == '+' then
      var body := t[1..];
      if IsDigitGroup(body) then
        var v: int := GroupValue(body);
        Some(if t[0] == '-' then -v else v)
      else None
    else if IsDigitGroup(t) then Some(GroupValue(t))
    else None
  }

  /** `str(n)` for a natural number. */
  function NatToString(n: nat): (s: string)
    ensures |s| > 0
    ensures forall k :: 0 <= k < |s| ==> IsDigit(s[k])
  {
    if n < 10 then [DigitChar(n)] else NatToString(n / 10) + [DigitChar(n % 10)]
  }

  /** `str(n)` for an integer. */
  function IntToString(n: int): string
  {
    if n < 0 then "-" + NatToString(-n) else NatToString(n)
  }

  lemma {:induction false} NatToStringValue(n: nat)
    ensures IsDigitGroup(NatToString(n))
    ensures GroupValue(NatToString(n)) == n
  {
    var s := NatToString(n);
    if n >= 10 {
      NatToStringValue(n / 10);
      assert s[..|s| - 1] == NatToString(n / 10);
    }
  }

  lemma StripNoSpace(s: string)
    requires |s| > 0 && !IsSpace(s[0]) && !IsSpace(s[|s| - 1])
    ensures Strip(s) == s
  {
  }

  /** `int(str(n)) == n`: the parser accepts every printed integer and recovers it. */
  lemma IntRoundTrip(n: int)
    ensures ParseInt(IntToString(n)) == Some(n)
  {
    var s := IntToString(n);
    if n < 0 {
      NatToStringValue(-n);
      var d := NatToString(-n);
      assert s[1..] == d;
      assert !IsSpace(s[|s| - 1]) by { assert s[|s| - 1] == d[|d| - 1]; }
      StripNoSpace(s);
    } else {
      NatToStringValue(n);
      StripNoSpace(s);
    }
  }

  // ---------------------------------------------------------------------------
  // acceptance of float(s)
  // ---------------------------------------------------------------------------

  function Lower(c: char): char
  {
    if 'A' <= c <= 'Z' then ((c as int) + 32) as char else c
  }

  function LowerString(s: string): (r: string)
    ensures |r| == |s|
  {
    if |s| == 0 then "" else [Lower(s[0])] + LowerString(s[1..])
  }

  /** The special spellings `float` accepts, case-insensitively. */
  predicate IsSpecialFloat(s: string)
  {
    var l := LowerString(s);
    l == "inf" || l == "infinity" || l == "nan"
  }

  /** An optional exponent: empty, or `e`/`E`, an optional sign and a digit group. */
  predicate IsExponent(s: string)
  {
    || |s| == 0
    || (&& |s| >= 2 && (s[0] == 'e' || s[0] == 'E')
        && (IsDigitGroup(s[1..])
            || ((s[1] == '+' || s[1] == '-') && IsDigitGroup(s[2..]))))
  }

  /** A decimal mantissa: digits, digits `.`, `.` digits or digits `.` digits. */
  predicate IsMantissa(s: string)
  {
    || IsDigitGroup(s)
    || (exists k :: 0 <= k < |s| && s[k] == '.'
          && (IsDigitGroup(s[..k]) || k == 0)
          && (IsDigitGroup(s[k + 1..]) || k + 1 == |s|)
          && !(k == 0 && k + 1 == |s|))
  }

  /** An unsigned decimal literal: mantissa then exponent. */
  predicate IsDecimal(s: string)
  {
    exists k :: 0 <= k <= |s| && IsMantissa(s[..k]) && IsExponent(s[k..])
  }

  /** Whether `float(s)` returns rather than raising ValueError. */
  predicate FloatAccepts(s: string): (b: bool)
    ensures b ==> |Strip(s)| > 0
  {
    var t := Strip(s);
    var u := if |t| > 0 && (t[0] == '-' || t[0] == '+') then t[1..] else t;
    IsSpecialFloat(u) || IsDecimal(u)
  }

  /** Every string `int` accepts is also accepted by `float`. */
  lemma IntTextIsFloatText(s: string)
    requires ParseInt(s).Some?
    ensures FloatAccepts(s)
  {
    var t := Strip(s);
    var u := if |t| > 0 && (t[0] == '-' || t[0] == '+') then t[1..] else t;
    assert IsDigitGroup(u);
    assert u[..|u|] == u && u[|u|..] == "";
    assert IsMantissa(u[..|u|]) && IsExponent(u[|u|..]);
  }
}

/**
  String helpers that stand for the Python built-ins the parsers use.

  Strings are sequences of characters; character classes are the ASCII
  ones (`\d` is '0'..'9', whitespace is the ASCII set `str.isspace`
  accepts, upper/lower case is ASCII only).
*/
module Text {
  import opened Wrappers

  // ---------------------------------------------------------------------
  // Character classes

  predicate IsDigit(c: char) { '0' <= c <= '9' }

  /** The characters `str.strip()` removes among ASCII. */
  predicate IsSpace(c: char)
  {
    // space, \t \n \v \f \r, and the separators 0x1c..0x1f
    c == ' ' || (9 <= c as int <= 13) || (28 <= c as int <= 31)
  }

  function DigitValue(c: char): (d: nat)
    requires IsDigit(c)
    ensures d < 10
  {
    (c as int) - ('0' as int)
  }

  function DigitChar(d: nat): (c: char)
    requires d < 10
    ensures IsDigit(c) && DigitValue(c) == d
  {
    (('0' as int) + d) as char
  }

  predicate AllDigits(s: string) { forall i :: 0 <= i < |s| ==> IsDigit(s[i]) }

  function Pow10(k: nat): (r: nat)
    ensures r >= 1
  {
    if k == 0 then 1 else 10 * Pow10(k - 1)
  }

  /** The value of a string of decimal digits, most significant first. */
  function DigitsValue(s: string): nat
    requires AllDigits(s)
    decreases |s|
  {
    if s == [] then 0 else DigitsValue(s[..|s| - 1]) * 10 + DigitValue(s[|s| - 1])
  }

  lemma {:induction false} DigitsValueAppend(a: string, b: string)
    requires AllDigits(a) && AllDigits(b)
    ensures AllDigits(a + b)
    ensures DigitsValue(a + b) == DigitsValue(a) * Pow10(|b|) + DigitsValue(b)
    decreases |b|
  {
    assert AllDigits(a + b) by {
      forall i | 0 <= i < |a + b| ensures IsDigit((a + b)[i]) {
        if i < |a| { assert (a + b)[i] == a[i]; } else { assert (a + b)[i] == b[i - |a|]; }
      }
    }
    if b != [] {
      var b' := b[..|b| - 1];
      assert (a + b)[..|a + b| - 1] == a + b';
      assert (a + b)[|a + b| - 1] == b[|b| - 1];
      DigitsValueAppend(a, b');
      ShiftArith(DigitsValue(a), Pow10(|b'|), DigitsValue(b'), DigitValue(b[|b| - 1]));
    } else {
      assert a + b == a;
    }
  }

  /** The arithmetic of appending one digit: (x·p + y)·10 + l = x·(10·p) + (y·10 + l). */
  lemma {:induction false} ShiftArith(x: int, p: int, y: int, l: int)
    ensures (x * p + y) * 10 + l == x * (10 * p) + (y * 10 + l)
  {
    assert (x * p) * 10 == x * (10 * p);
  }

  /** Digit strings that differ only by leading zeros have the same value. */
  lemma {:induction false} DigitsValueZeros(k: nat, s: string)
    requires AllDigits(s)
    ensures AllDigits(Zeros(k) + s) && DigitsValue(Zeros(k) + s) == DigitsValue(s)
  {
    DigitsValueAppend(Zeros(k), s);
    ZerosValue(k);
  }

  function Zeros(k: nat): (z: string)
    ensures |z| == k && AllDigits(z)
  {
    if k == 0 then "" else "0" + Zeros(k - 1)
  }

  lemma {:induction false} ZerosValue(k: nat)
    ensures DigitsValue(Zeros(k)) == 0
  {
    if k > 0 {
      assert Zeros(k)[..k - 1] == Zeros(k - 1) by {
        ZerosTail(k);
      }
      ZerosValue(k - 1);
    }
  }

  lemma {:induction false} ZerosTail(k: nat)
    requires k > 0
    ensures Zeros(k) == Zeros(k - 1) + "0"
  {
    if k > 1 {
      ZerosTail(k - 1);
      assert Zeros(k) == "0" + Zeros(k - 1) == "0" + (Zeros(k - 2) + "0");
    }
  }

  // ---------------------------------------------------------------------
  // Integers as text

  /** Decimal digits of a natural number, as `str(n)` writes them. */
  function NatToString(n: nat): (s: string)
    ensures |s| >= 1 && AllDigits(s)
    ensures |s| > 1 ==> s[0] != '0'
  {
    if n < 10 then [DigitChar(n)] else NatToString(n / 10) + [DigitChar(n % 10)]
  }

  lemma {:induction false} NatToStringValue(n: nat)
    ensures DigitsValue(NatToString(n)) == n
  {
    if n >= 10 {
      var s := NatToString(n);
      assert s[..|s| - 1] == NatToString(n / 10);
      NatToStringValue(n / 10);
    }
  }

  /** `str(n)` / f"{n}" for an integer. */
  function IntToString(n: int): (s: string)
    ensures s != [] && (s[0] == '-' <==> n < 0)
  {
    if n < 0 then "-" + NatToString(-n) else NatToString(n)
  }

  /** `str(n)` is read back by `int()`. */
  lemma {:induction false} IntToStringRoundTrip(n: int)
    ensures PyInt(IntToString(n)) == Some(n)
  {
    if n < 0 {
      var d := NatToString(-n);
      NatToStringValue(-n);
      assert DigitsValue(d) == -n;
      PyIntOfNegDigits(d);
    } else {
      var d := NatToString(n);
      NatToStringValue(n);
      assert DigitsValue(d) == n;
      PyIntOfDigits(d);
    }
  }

  lemma {:induction false} StripOfUnspaced(s: string)
    requires |s| >= 1 && !IsSpace(s[0]) && !IsSpace(s[|s| - 1])
    ensures Strip(s) == s
  {
  }

  /** Without underscores, a digit group's value is the plain digits' value. */
  lemma {:induction false} GroupValueOfDigits(s: string)
    requires AllDigits(s)
    ensures GroupValue(s) == DigitsValue(s)
    decreases |s|
  {
    if s != [] {
      GroupValueOfDigits(s[..|s| - 1]);
    }
  }

  // ---------------------------------------------------------------------
  // Python string methods

  function StripLeft(s: string): (r: string)
    ensures |r| <= |s|
    ensures r != [] ==> !IsSpace(r[0])
  {
    if s != [] && IsSpace(s[0]) then StripLeft(s[1..]) else s
  }

  /** What `lstrip` keeps is a suffix of the string, and what it removes is whitespace. */
  lemma {:induction false} StripLeftSuffix(s: string)
    ensures StripLeft(s) == s[|s| - |StripLeft(s)|..]
    ensures AllSpace(s[..|s| - |StripLeft(s)|])
  {
    if s != [] && IsSpace(s[0]) {
      StripLeftSuffix(s[1..]);
      var t := s[1..];
      var n := |t| - |StripLeft(t)|;
      assert s[..n + 1] == [s[0]] + t[..n];
    }
  }

  /** Every character is whitespace. */
  predicate AllSpace(s: string) { forall i :: 0 <= i < |s| ==> IsSpace(s[i]) }

  function StripRight(s: string): (r: string)
    ensures |r| <= |s|
    ensures r != [] ==> !IsSpace(r[|r| - 1])
  {
    if s != [] && IsSpace(s[|s| - 1]) then StripRight(s[..|s| - 1]) else s
  }

  /** What `rstrip` keeps is a prefix of the string, and what it removes is whitespace. */
  lemma {:induction false} StripRightPrefix(s: string)
    ensures StripRight(s) == s[..|StripRight(s)|]
    ensures AllSpace(s[|StripRight(s)|..])
    decreases |s|
  {
    if s != [] && IsSpace(s[|s| - 1]) {
      var t := s[..|s| - 1];
      StripRightPrefix(t);
      var n := |StripRight(t)|;
      assert s[n..] == t[n..] + [s[|s| - 1]];
      assert t[..n] == s[..n];
    }
  }

  /**
    `s.strip()`: s with whitespace removed from both ends and nothing else;
    the result neither starts nor ends with whitespace, so no more could go.
  */
  function Strip(s: string): (r: string)
    ensures r != [] ==> !IsSpace(r[0]) && !IsSpace(r[|r| - 1])
    ensures exists a, b :: s == a + r + b && AllSpace(a) && AllSpace(b)
  {
    var l := StripLeft(s);
    StripLeftSuffix(s);
    StripRightPrefix(l);
    var r := StripRight(l);
    var a, b := s[..|s| - |l|], l[|r|..];
    assert l == r + b;
    assert s == a + l;
    assert s == a + r + b;
    r
  }

  function UpperChar(c: char): char
  {
    if 'a' <= c <= 'z' then (c as int - 32) as char else c
  }

  function LowerChar(c: char): char
  {
    if 'A' <= c <= 'Z' then (c as int + 32) as char else c
  }

  /** `s.upper()`. */
  function Upper(s: string): (r: string)
    ensures |r| == |s|
  {
    if s == [] then [] else [UpperChar(s[0])] + Upper(s[1..])
  }

  lemma {:induction false} UpperAt(s: string)
    ensures forall i :: 0 <= i < |s| ==> Upper(s)[i] == UpperChar(s[i])
  {
    if s != [] {
      UpperAt(s[1..]);
    }
  }

  /** `s.lower()`. */
  function Lower(s: string): (r: string)
    ensures |r| == |s|
  {
    if s == [] then [] else [LowerChar(s[0])] + Lower(s[1..])
  }

  lemma {:induction false} LowerAt(s: string)
    ensures forall i :: 0 <= i < |s| ==> Lower(s)[i] == LowerChar(s[i])
  {
    if s != [] {
      LowerAt(s[1..]);
    }
  }

  predicate StartsWith(s: string, p: string) { |p| <= |s| && s[..|p|] == p }

  predicate EndsWith(s: string, p: string) { |p| <= |s| && s[|s| - |p|..] == p }

  /** `p in s` for strings: p occurs in s at some position. */
  predicate Contains(s: string, p: string)
    decreases |s|
  {
    StartsWith(s, p) || (s != [] && Contains(s[1..], p))
  }

  /** Position of the first `c` in `s`. */
  function IndexOf(s: string, c: char): (k: nat)
    requires c in s
    ensures k < |s| && s[k] == c && c !in s[..k]
  {
    if s[0] == c then 0 else 1 + IndexOf(s[1..], c)
  }

  /** `s.split(sep)` for a one-character separator. */
  function Split(s: string, sep: char): (parts: seq<string>)
    ensures |parts| >= 1
    ensures forall i :: 0 <= i < |parts| ==> sep !in parts[i]
    decreases |s|
  {
    if sep !in s then [s]
    else
      var k := IndexOf(s, sep);
      [s[..k]] + Split(s[k + 1..], sep)
  }

  /** Joining the pieces of a split with the separator gives back the string. */
  lemma {:induction false} SplitJoin(s: string, sep: char)
    ensures Join(Split(s, sep), sep) == s
    decreases |s|
  {
    if sep in s {
      var k := IndexOf(s, sep);
      var rest := Split(s[k + 1..], sep);
      var parts := [s[..k]] + rest;
      assert Split(s, sep) == parts;
      assert parts[0] == s[..k] && parts[1..] == rest;
      assert Join(parts, sep) == s[..k] + [sep] + Join(rest, sep);
      SplitJoin(s[k + 1..], sep);
      assert s == s[..k] + [sep] + s[k + 1..];
    }
  }

  function Join(parts: seq<string>, sep: char): string
    requires |parts| >= 1
  {
    if |parts| == 1 then parts[0] else parts[0] + [sep] + Join(parts[1..], sep)
  }

  // ---------------------------------------------------------------------
  // int() and float()

  /** Digits with single underscores between them (Python's integer literal body). */
  predicate IsDigitGroup(s: string)
  {
    && |s| >= 1
    && IsDigit(s[0]) && IsDigit(s[|s| - 1])
    && (forall i :: 0 <= i < |s| ==> IsDigit(s[i]) || s[i] == '_')
    && (forall i :: 0 <= i < |s| - 1 ==> !DoubleUnderscoreAt(s, i))
  }

  predicate DoubleUnderscoreAt(s: string, i: nat)
    requires i + 1 < |s|
  {
    s[i] == '_' && s[i + 1] == '_'
  }

  /** The value of the digits of `s`, the underscores between them skipped. */
  function GroupValue(s: string): nat
    decreases |s|
  {
    if s == [] then 0
    else if IsDigit(s[|s| - 1]) then GroupValue(s[..|s| - 1]) * 10 + DigitValue(s[|s| - 1])
    else GroupValue(s[..|s| - 1])
  }

  /** The value of a digit group, if the string is one. */
  function DigitGroupValue(b: string): Option<nat>
  {
    if IsDigitGroup(b) then Some(GroupValue(b)) else None
  }

  /** An optional sign followed by a digit group. */
  function SignedDigitGroup(t: string): Option<int>
  {
    var signed := t != [] && (t[0] == '-' || t[0] == '+');
    match DigitGroupValue(if signed then t[1..] else t)
    case Some(v) => var n: int := v; Some(if signed && t[0] == '-' then -n else n)
    case None => None
  }

  /**
    `int(s)`: surrounding whitespace, an optional sign, then decimal digits
    with single underscores between them; anything else is a ValueError.
  */
  function PyInt(s: string): (r: Option<int>)
    ensures r.Some? ==> Strip(s) != []
  {
    SignedDigitGroup(Strip(s))
  }

  /** `int()` rejects a text holding a '.', such as a decimal. */
  lemma {:induction false} PyIntRejectsDot(s: string)
    requires '.' in s
    ensures PyInt(s).None?
  {
    var j := DotInStrip(s);
    SignedGroupRejectsDot(Strip(s), j);
  }

  /** Stripping keeps every character that is not whitespace, a '.' among them. */
  lemma {:induction false} DotInStrip(s: string) returns (j: nat)
    requires '.' in s
    ensures j < |Strip(s)| && Strip(s)[j] == '.'
  {
    var t := Strip(s);
    var a, b :| s == a + t + b && AllSpace(a) && AllSpace(b);
    var i :| 0 <= i < |s| && s[i] == '.';
    assert !IsSpace(s[i]);
    j := i - |a|;
    assert s[i] == (a + t + b)[i];
  }

  lemma {:induction false} SignedGroupRejectsDot(t: string, j: nat)
    requires j < |t| && t[j] == '.'
    ensures SignedDigitGroup(t).None?
  {
    var signed := t != [] && (t[0] == '-' || t[0] == '+');
    var body := if signed then t[1..] else t;
    assert body[j - (if signed then 1 else 0)] == '.';
    assert !IsDigitGroup(body);
  }

  /** `int()` rejects a text of whitespace only, such as the empty string. */
  lemma {:induction false} PyIntRejectsBlank(s: string)
    requires AllSpace(s)
    ensures PyInt(s).None?
  {
    StripLeftBlank(s);
  }

  lemma {:induction false} StripLeftBlank(s: string)
    requires AllSpace(s)
    ensures StripLeft(s) == []
  {
    if s != [] {
      StripLeftBlank(s[1..]);
    }
  }

  lemma {:induction false} DigitGroupOfDigits(d: string)
    requires |d| >= 1 && AllDigits(d)
    ensures DigitGroupValue(d) == Some(DigitsValue(d))
  {
    GroupValueOfDigits(d);
    assert IsDigitGroup(d);
  }

  /** A run of digits, with an optional minus sign, is always accepted by `int()`. */
  lemma {:induction false} PyIntOfSignedDigits(neg: bool, d: string)
    requires |d| >= 1 && AllDigits(d)
    ensures var v: int := DigitsValue(d); PyInt(if neg then "-" + d else d) == Some(if neg then -v else v)
  {
    if neg { PyIntOfNegDigits(d); } else { PyIntOfDigits(d); }
  }

  lemma {:induction false} PyIntOfDigits(d: string)
    requires |d| >= 1 && AllDigits(d)
    ensures PyInt(d) == Some(DigitsValue(d) as int)
  {
    DigitGroupOfDigits(d);
    assert IsDigit(d[0]) && IsDigit(d[|d| - 1]);
    StripOfUnspaced(d);
    SignedDigitGroupOfUnsigned(d, DigitsValue(d));
  }

  lemma {:induction false} SignedDigitGroupOfUnsigned(t: string, v: nat)
    requires t != [] && t[0] != '-' && t[0] != '+' && DigitGroupValue(t) == Some(v)
    ensures SignedDigitGroup(t) == Some(v as int)
  {
  }

  lemma {:induction false} PyIntOfNegDigits(d: string)
    requires |d| >= 1 && AllDigits(d)
    ensures PyInt("-" + d) == Some(-(DigitsValue(d) as int))
  {
    var s := "-" + d;
    assert s[1..] == d;
    DigitGroupOfDigits(d);
    SignedDigitGroupOfMinus(s, DigitsValue(d));
    assert s[|s| - 1] == d[|d| - 1];
    StripOfUnspaced(s);
  }

  lemma {:induction false} SignedDigitGroupOfMinus(t: string, v: nat)
    requires t != [] && t[0] == '-' && DigitGroupValue(t[1..]) == Some(v)
    ensures SignedDigitGroup(t) == Some(-(v as int))
  {
  }

  /**
    `float(s)` for the strings the parsers' regular expressions capture
    (characters among digits, '.' and a leading '-'): one optional minus
    sign, then digits with at most one '.', and at least one digit.
  */
  function FloatOfNumeral(s: string): (r: Option<real>)
    ensures r.Some? ==> s != [] && s != "-"
  {
    if s != [] && s[0] == '-' then
      match UnsignedDecimal(s[1..])
      case Some(v) => Some(-v)
      case None => None
    else UnsignedDecimal(s)
  }

  /** `float()` accepts no numeral without a digit: not "", "-", "." or "-.". */
  lemma {:induction false} FloatOfNumeralHasDigit(s: string)
    requires FloatOfNumeral(s).Some?
    ensures exists i :: 0 <= i < |s| && IsDigit(s[i])
  {
    var off := if s != [] && s[0] == '-' then 1 else 0;
    var t := s[off..];
    assert UnsignedDecimal(t).Some?;
    var j := UnsignedDecimalDigit(t);
    assert s[off + j] == t[j];
  }

  lemma {:induction false} UnsignedDecimalDigit(t: string) returns (j: nat)
    requires UnsignedDecimal(t).Some?
    ensures j < |t| && IsDigit(t[j])
  {
    if '.' in t {
      var k := IndexOf(t, '.');
      var a, b := t[..k], t[k + 1..];
      assert DecimalParts(a, b).Some?;
      if |a| >= 1 {
        j := 0;
        assert t[0] == a[0];
      } else {
        j := k + 1;
        assert t[k + 1] == b[0];
      }
    } else {
      j := 0;
    }
  }

  /** Digits with at most one '.', at least one digit. */
  function UnsignedDecimal(s: string): (r: Option<real>)
  {
    if '.' in s then
      var k := IndexOf(s, '.');
      DecimalParts(s[..k], s[k + 1..])
    else if AllDigits(s) && |s| >= 1 then Some(DigitsValue(s) as real)
    else None
  }

  /** The value of `a.b` from the digits on either side of the point. */
  function DecimalParts(a: string, b: string): (r: Option<real>)
  {
    if AllDigits(a) && AllDigits(b) && |a| + |b| >= 1 then
      Some(DigitsValue(a) as real + (DigitsValue(b) as real) / (Pow10(|b|) as real))
    else None
  }

  /** f"{v:.6f}" for v = n / 10^6 with n ≥ 0: the integer part, a point, six digits. */
  function FormatFixed6(n: nat): (s: string)
    ensures '.' in s
  {
    var s := NatToString(n / 1000000) + "." + SixDigits(n % 1000000);
    assert s[|NatToString(n / 1000000)|] == '.';
    s
  }

  /** The fractional part of `n % 10^6` never needs more than six digits. */
  lemma {:induction false} NatToStringLength(n: nat, k: nat)
    requires k >= 1 && n < Pow10(k)
    ensures |NatToString(n)| <= k
  {
    if n >= 10 {
      NatToStringLength(n / 10, k - 1);
    }
  }

  /** What f"{n/1e6:.6f}" writes, `float()` reads back as n / 10^6. */
  lemma {:induction false} FormatFixed6RoundTrip(n: nat)
    ensures FloatOfNumeral(FormatFixed6(n)) == Some(n as real / 1000000.0)
  {
    var ip := NatToString(n / 1000000);
    var b := SixDigits(n % 1000000);
    assert FormatFixed6(n) == ip + "." + b;
    NatToStringValue(n / 1000000);
    UnsignedDecimalOfParts(ip, b);
    assert (ip + "." + b)[0] == ip[0];
    SixDigitsFraction(ip, b);
    FixedSixValue(n);
  }

  /** The six fraction digits f"{:.6f}" writes for r < 10^6: zeros, then the digits of r. */
  function SixDigits(r: nat): (b: string)
    requires r < 1000000
    ensures |b| == 6 && AllDigits(b) && DigitsValue(b) == r
  {
    var frac := NatToString(r);
    assert |frac| <= 6 by {
      assert Pow10(6) == 1000000;
      NatToStringLength(r, 6);
    }
    DigitsValueZeros(6 - |frac|, frac);
    NatToStringValue(r);
    Zeros(6 - |frac|) + frac
  }

  lemma {:induction false} SixDigitsFraction(a: string, b: string)
    requires AllDigits(a) && AllDigits(b) && |a| >= 1 && |b| == 6
    ensures DecimalParts(a, b) == Some(DigitsValue(a) as real + (DigitsValue(b) as real) / 1000000.0)
  {
    assert Pow10(6) == 1000000;
  }

  lemma {:induction false} FixedSixValue(n: nat)
    ensures (n / 1000000) as real + ((n % 1000000) as real) / 1000000.0 == n as real / 1000000.0
  {
    var q, r := n / 1000000, n % 1000000;
    assert n == q * 1000000 + r;
    assert n as real == q as real * 1000000.0 + r as real;
  }

  /** A point between two digit strings reads as integer part plus fraction. */
  lemma {:induction false} UnsignedDecimalOfParts(a: string, b: string)
    requires AllDigits(a) && AllDigits(b) && |a| >= 1
    ensures UnsignedDecimal(a + "." + b) == DecimalParts(a, b)
  {
    var s := a + ['.'] + b;
    assert '.' !in a by {
      forall i | 0 <= i < |a| ensures a[i] != '.' { assert IsDigit(a[i]); }
    }
    assert s[|a|] == '.';
    assert s[..|a|] == a;
    IndexOfFirst(s, '.', |a|);
    assert s[|a| + 1..] == b;
    assert UnsignedDecimal(s) == DecimalParts(s[..|a|], s[|a| + 1..]);
  }

  lemma {:induction false} IndexOfFirst(s: string, c: char, k: nat)
    requires k < |s| && s[k] == c && c !in s[..k]
    ensures c in s && IndexOf(s, c) == k
  {
    if k > 0 {
      assert s[0] != c by { assert s[0] == s[..k][0]; }
      assert s[1..][..k - 1] == s[..k][1..];
      IndexOfFirst(s[1..], c, k - 1);
    }
  }
}

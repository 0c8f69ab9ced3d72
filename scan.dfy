/**
  Greedy character-class runs and fixed literals: the pieces from which the
  parsers' regular expressions are rebuilt as deterministic matchers.

  Every pattern the parsers use is a sequence of literals and greedy runs
  `c+` whose following literal is outside the class, so no backtracking can
  change a match: a pattern matches at a position exactly when the maximal
  runs line up with the literals.
*/
module Scan {
  import opened Wrappers
  import opened Text

  /** The character classes the patterns repeat: `\d`, `[0-9.]` and `[\d\.-]`. */
  datatype CharClass = Digit | NumChar | SignedNumChar

  predicate In(cls: CharClass, c: char)
  {
    match cls
    case Digit => IsDigit(c)
    case NumChar => IsDigit(c) || c == '.'
    case SignedNumChar => IsDigit(c) || c == '.' || c == '-'
  }

  /** Length of the longest run of characters of class `cls` that starts at `k`. */
  function Run(s: string, k: nat, cls: CharClass): (n: nat)
    requires k <= |s|
    ensures k + n <= |s|
    decreases |s| - k
  {
    if k < |s| && In(cls, s[k]) then 1 + Run(s, k + 1, cls) else 0
  }

  /** The run is made of class characters and stops at the end or at a character outside the class. */
  lemma {:induction false} RunFacts(s: string, k: nat, cls: CharClass)
    requires k <= |s|
    ensures forall i :: k <= i < k + Run(s, k, cls) ==> In(cls, s[i])
    ensures k + Run(s, k, cls) == |s| || !In(cls, s[k + Run(s, k, cls)])
    decreases |s| - k
  {
    if k < |s| && In(cls, s[k]) {
      RunFacts(s, k + 1, cls);
    }
  }

  /** A run of digits is a digit string. */
  lemma {:induction false} DigitRun(s: string, k: nat)
    requires k <= |s|
    ensures AllDigits(s[k..k + Run(s, k, Digit)])
  {
    RunFacts(s, k, Digit);
    var t := s[k..k + Run(s, k, Digit)];
    forall i | 0 <= i < |t| ensures IsDigit(t[i]) {
      assert t[i] == s[k + i];
    }
  }

  /** `lit` occurs in `s` at position `k`. */
  predicate At(s: string, k: nat, lit: string)
  {
    k + |lit| <= |s| && s[k..k + |lit|] == lit
  }

  /** A pattern's run stops exactly where the written text stops. */
  lemma {:induction false} RunOfText(pre: string, a: string, post: string, cls: CharClass)
    requires forall i :: 0 <= i < |a| ==> In(cls, a[i])
    requires post == [] || !In(cls, post[0])
    ensures Run(pre + a + post, |pre|, cls) == |a|
    decreases |a|
  {
    var s := pre + a + post;
    if a == [] {
      assert s == pre + post;
      if post != [] { assert s[|pre|] == post[0]; }
    } else {
      assert s[|pre|] == a[0];
      assert s == (pre + [a[0]]) + a[1..] + post;
      RunOfText(pre + [a[0]], a[1..], post, cls);
    }
  }

  /** A run is as long as the stretch of class characters the text has there. */
  lemma {:induction false} RunSpan(s: string, k: nat, n: nat, cls: CharClass)
    requires k + n <= |s|
    requires forall i :: k <= i < k + n ==> In(cls, s[i])
    requires k + n == |s| || !In(cls, s[k + n])
    ensures Run(s, k, cls) == n
    decreases n
  {
    if n > 0 {
      RunSpan(s, k + 1, n - 1, cls);
    }
  }

  /** Text that `[0-9.]+` matches whole. */
  predicate NumChars(t: string) { t != [] && forall i :: 0 <= i < |t| ==> In(NumChar, t[i]) }

  /** A run of `[0-9.]` characters, as `[0-9.]+` captures it. */
  lemma {:induction false} NumRun(s: string, k: nat)
    requires k <= |s| && Run(s, k, NumChar) >= 1
    ensures NumChars(s[k..k + Run(s, k, NumChar)])
  {
    RunFacts(s, k, NumChar);
    var t := s[k..k + Run(s, k, NumChar)];
    forall i | 0 <= i < |t| ensures In(NumChar, t[i]) {
      assert t[i] == s[k + i];
    }
  }

  /** The text `-?[0-9.]+` captures: an optional minus sign and a non-empty run of `[0-9.]`. */
  predicate IsSignedNum(t: string)
  {
    if t != [] && t[0] == '-' then NumChars(t[1..]) else NumChars(t)
  }

  /** End of the match of `-?[0-9.]+` starting at `k`, if it matches there. */
  function SignedNumEnd(s: string, k: nat): (e: Option<nat>)
    requires k <= |s|
    ensures e.Some? ==> k < e.value <= |s| && IsSignedNum(s[k..e.value])
    ensures e.Some? ==> e.value == |s| || !In(NumChar, s[e.value])
  {
    var b := if k < |s| && s[k] == '-' then k + 1 else k;
    var n := Run(s, b, NumChar);
    if n == 0 then None
    else
      RunFacts(s, b, NumChar);
      NumRun(s, b);
      assert b == k + 1 ==> s[k..b + n][1..] == s[b..b + n];
      assert b == k ==> s[k..b + n] == s[b..b + n];
      Some(b + n)
  }

  /** `-?[0-9.]+` matched at k ends exactly where a signed number written there ends. */
  lemma {:induction false} SignedNumSpan(s: string, k: nat, n: nat)
    requires k + n <= |s| && IsSignedNum(s[k..k + n])
    requires k + n == |s| || !In(NumChar, s[k + n])
    ensures SignedNumEnd(s, k) == Some(k + n)
  {
    var t := s[k..k + n];
    assert s[k] == t[0];
    if t[0] == '-' {
      forall i | k + 1 <= i < k + n ensures In(NumChar, s[i]) {
        assert s[i] == t[1..][i - k - 1];
      }
      RunSpan(s, k + 1, n - 1, NumChar);
    } else {
      forall i | k <= i < k + n ensures In(NumChar, s[i]) {
        assert s[i] == t[i - k];
      }
      RunSpan(s, k, n, NumChar);
    }
  }

  /** The text `-?\d+` captures: an optional minus sign and at least one digit. */
  predicate IsSignedDigits(t: string)
  {
    if t != [] && t[0] == '-' then |t| >= 2 && AllDigits(t[1..]) else |t| >= 1 && AllDigits(t)
  }

  /** End of the match of `-?\d+` starting at `k`, if it matches there. */
  function SignedDigitsEnd(s: string, k: nat): (e: Option<nat>)
    requires k <= |s|
    ensures e.Some? ==> k < e.value <= |s| && IsSignedDigits(s[k..e.value])
    ensures e.Some? ==> e.value == |s| || !IsDigit(s[e.value])
  {
    var b := if k < |s| && s[k] == '-' then k + 1 else k;
    var n := Run(s, b, Digit);
    if n == 0 then None
    else
      RunFacts(s, b, Digit);
      DigitRun(s, b);
      assert b == k + 1 ==> s[k..b + n][1..] == s[b..b + n];
      assert b == k ==> s[k..b + n] == s[b..b + n];
      Some(b + n)
  }

  /** `-?\d+` matched at k ends exactly where a signed digit string written there ends. */
  lemma {:induction false} SignedDigitsSpan(s: string, k: nat, n: nat)
    requires k + n <= |s| && IsSignedDigits(s[k..k + n])
    requires k + n == |s| || !IsDigit(s[k + n])
    ensures SignedDigitsEnd(s, k) == Some(k + n)
  {
    var t := s[k..k + n];
    assert s[k] == t[0];
    if t[0] == '-' {
      forall i | k + 1 <= i < k + n ensures In(Digit, s[i]) {
        assert s[i] == t[1..][i - k - 1];
      }
      RunSpan(s, k + 1, n - 1, Digit);
    } else {
      forall i | k <= i < k + n ensures In(Digit, s[i]) {
        assert s[i] == t[i - k];
      }
      RunSpan(s, k, n, Digit);
    }
  }

  /** `int()` reads what `-?\d+` captures, so it never raises on such a group. */
  lemma {:induction false} PyIntOfSignedText(t: string)
    requires IsSignedDigits(t)
    ensures PyInt(t).Some?
  {
    if t[0] == '-' {
      var d := t[1..];
      assert |d| >= 1 && AllDigits(d);
      PyIntOfNegText(t, d);
    } else {
      assert |t| >= 1 && AllDigits(t);
      PyIntOfSignedDigits(false, t);
    }
  }

  lemma {:induction false} PyIntOfNegText(t: string, d: string)
    requires |d| >= 1 && AllDigits(d) && t == "-" + d
    ensures PyInt(t).Some?
  {
    PyIntOfNegDigits(d);
  }

  /** Text of the form `-?\d+`, followed by a non-digit, is matched by `-?\d+` exactly. */
  lemma {:induction false} SignedDigitsOfText(s: string, pre: string, t: string, post: string)
    requires s == pre + t + post && IsSignedDigits(t)
    requires post == [] || !IsDigit(post[0])
    ensures SignedDigitsEnd(s, |pre|) == Some(|pre| + |t|)
  {
    if t[0] == '-' {
      var d := t[1..];
      var pre' := pre + "-";
      assert s == pre' + d + post;
      assert pre' != [] && pre'[|pre'| - 1] == '-' && |pre'| - 1 == |pre|;
      SignedDigitsOfDigits(s, pre', d, post);
    } else {
      SignedDigitsOfDigits(s, pre, t, post);
    }
  }

  lemma {:induction false} SignedDigitsOfDigits(s: string, pre: string, d: string, post: string)
    requires s == pre + d + post && |d| >= 1 && AllDigits(d)
    requires post == [] || !IsDigit(post[0])
    requires (pre != [] && pre[|pre| - 1] == '-') || d[0] != '-'
    ensures pre != [] && pre[|pre| - 1] == '-' ==>
      SignedDigitsEnd(s, |pre| - 1) == Some(|pre| + |d|)
    ensures SignedDigitsEnd(s, |pre|) == Some(|pre| + |d|)
  {
    RunOfText(pre, d, post, Digit);
    assert s[|pre|] == d[0];
    assert IsDigit(d[0]);
    if pre != [] && pre[|pre| - 1] == '-' {
      assert s[|pre| - 1] == '-';
    }
  }

  /** `str(n)` with a minus sign or not: the text `-?\d+` expects. */
  lemma {:induction false} IntToStringSigned(n: int)
    ensures IsSignedDigits(IntToString(n))
  {
    if n < 0 {
      assert IntToString(n)[1..] == NatToString(-n);
    } else {
      var d := NatToString(n);
      assert IsDigit(d[0]);
    }
  }

  /** A signed digit string written at k, followed by a non-digit, is the whole `-?\d+` match there. */
  lemma {:induction false} SignedGroupEnd(line: string, k: nat, t: string)
    requires IsSignedDigits(t) && k + |t| < |line| && line[k..k + |t|] == t && !IsDigit(line[k + |t|])
    ensures SignedDigitsEnd(line, k) == Some(k + |t|)
  {
    SignedDigitsSpan(line, k, |t|);
  }

  /** A digit string written at k, followed by a non-digit, is the whole `\d+` run there. */
  lemma {:induction false} DigitGroupEnd(line: string, k: nat, d: string)
    requires AllDigits(d) && k + |d| < |line| && line[k..k + |d|] == d && !IsDigit(line[k + |d|])
    ensures Run(line, k, Digit) == |d|
  {
    DigitSpan(line, k, d);
    RunSpan(line, k, |d|, Digit);
  }

  /** The pieces of a prefix of a string. */
  lemma {:induction false} PrefixParts(s: string, a: string, b: string)
    requires |a + b| <= |s| && s[..|a + b|] == a + b
    ensures s[..|a|] == a && s[|a|..|a| + |b|] == b
  {
    assert s[..|a|] == s[..|a + b|][..|a|];
    assert s[|a|..|a| + |b|] == s[..|a + b|][|a|..];
  }

  /** Adjacent slices of a string join into one. */
  lemma {:induction false} SliceSplit(s: string, a: nat, b: nat, c: nat)
    requires a <= b <= c <= |s|
    ensures s[a..c] == s[a..b] + s[b..c]
  {
  }

  /** A digit string sitting in a text makes those positions digits. */
  lemma {:induction false} DigitSpan(s: string, k: nat, d: string)
    requires k + |d| <= |s| && s[k..k + |d|] == d && AllDigits(d)
    ensures forall i :: k <= i < k + |d| ==> In(Digit, s[i])
  {
    forall i | k <= i < k + |d| ensures In(Digit, s[i]) {
      assert s[i] == d[i - k];
    }
  }
}

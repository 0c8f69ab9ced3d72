/**
  The RS-274X Gerber parser and the Excellon drill parser of the PCB viewer.

  `GerberParser.parse_file` reads the whole file, takes the coordinate
  format and the units from it, defines the apertures, then runs a
  line-driven state machine over a current aperture and a current position
  that accumulates line and flash elements. The value-level functions below
  (`Header`, `DefineAll`, `LineStep`, `Lines`, `Visualize`,
  `ParseFileSpec`) specify what the parser object does; the class and its
  loops are proved against them.
*/
module GerberViewer {
  import opened Wrappers
  import opened Text
  import opened Scan

  type Point = (real, real)

  datatype Shape = Circle | Rectangle

  /** `GerberAperture`: [diameter] for a circle, [width, height] for a rectangle. */
  datatype Aperture = Aperture(code: int, shape: Shape, size: seq<real>)

  /** The element types the parser creates ('line' and 'flash'). */
  datatype ElementType = LineElement | FlashElement

  /** `GerberElement` (its interpolation is always the default 'linear'). */
  datatype Element = Element(kind: ElementType, aperture: int, start: Point, end: Point)

  /** The fields of a `GerberParser`. */
  datatype ParserState = ParserState(
    apertures: map<int, Aperture>,
    elements: seq<Element>,
    currentAperture: Option<int>,
    currentPos: Point,
    unitScale: real,
    formatSpec: (nat, nat))

  /** A freshly constructed parser: no apertures or elements, millimetres, format 3.6. */
  const Initial: ParserState := ParserState(map[], [], None, (0.0, 0.0), 1.0, (3, 6))

  // ---------------------------------------------------------------------
  // Coordinates

  /** A length in file units times the unit scale: millimetres. */
  function Mm(v: real, unitScale: real): real { v * unitScale }

  /**
    `_parse_coordinate`: the integer the string spells, divided by ten to
    the number of decimal digits of the format, times the unit scale.
  */
  function ParseCoordinate(coordStr: string, formatSpec: (nat, nat), unitScale: real): (r: Result<real>)
    ensures r.Success? <==> PyInt(coordStr).Some?
    ensures r.Failure? ==> r.error == ValueError
    ensures r.Success? ==>
              PyInt(coordStr).Some? && r.value == Mm(PyInt(coordStr).value as real / Pow10(formatSpec.1) as real, unitScale)
  {
    match PyInt(coordStr)
    case None => Failure(ValueError)
    case Some(v) => Success(Mm(v as real / Pow10(formatSpec.1) as real, unitScale))
  }

  /** An integer written by `str()` is read back as that many format units. */
  lemma {:induction false} ParseCoordinateOfInt(v: int, formatSpec: (nat, nat), unitScale: real)
    ensures ParseCoordinate(IntToString(v), formatSpec, unitScale)
            == Success(Mm(v as real / Pow10(formatSpec.1) as real, unitScale))
  {
    IntToStringRoundTrip(v);
  }

  // ---------------------------------------------------------------------
  // Format and unit header

  /** `%FSLAX(\d)(\d)Y(\d)(\d)\*%` at position k: the two X digits. */
  function FormatAt(s: string, k: nat): Option<(nat, nat)>
  {
    if k + 13 <= |s| && At(s, k, "%FSLAX") && IsDigit(s[k + 6]) && IsDigit(s[k + 7])
       && s[k + 8] == 'Y' && IsDigit(s[k + 9]) && IsDigit(s[k + 10]) && At(s, k + 11, "*%")
    then Some((DigitValue(s[k + 6]), DigitValue(s[k + 7])))
    else None
  }

  /** `re.search` of the format pattern from position k on: the leftmost match. */
  function SearchFormat(s: string, k: nat): (r: Option<(nat, nat)>)
    ensures r.Some? ==> exists j :: k <= j < |s| && FormatAt(s, j) == r
                                    && forall i :: k <= i < j ==> FormatAt(s, i).None?
    ensures r.None? <==> forall j :: k <= j < |s| ==> FormatAt(s, j).None?
    decreases |s| - k
  {
    if k >= |s| then None
    else if FormatAt(s, k).Some? then FormatAt(s, k)
    else SearchFormat(s, k + 1)
  }

  /** The format and the unit scale `parse_file` takes from the whole text. */
  function Header(st: ParserState, content: string): (r: ParserState)
    ensures r.unitScale == 25.4 <==> Contains(content, "%MOIN*%")
    ensures r.unitScale == 25.4 || r.unitScale == 1.0
    ensures SearchFormat(content, 0).Some? ==> r.formatSpec == SearchFormat(content, 0).value
    ensures SearchFormat(content, 0).None? ==> r.formatSpec == st.formatSpec
    ensures r.apertures == st.apertures && r.elements == st.elements
    ensures r.currentAperture == st.currentAperture && r.currentPos == st.currentPos
  {
    var fs := match SearchFormat(content, 0) case Some(f) => f case None => st.formatSpec;
    st.(formatSpec := fs, unitScale := if Contains(content, "%MOIN*%") then 25.4 else 1.0)
  }

  /** A file that opens with `%FSLAXabYcd*%` has the format (a, b). */
  lemma {:induction false} FormatOfText(a: char, b: char, c: char, d: char, rest: string)
    requires IsDigit(a) && IsDigit(b) && IsDigit(c) && IsDigit(d)
    ensures SearchFormat("%FSLAX" + [a, b] + "Y" + [c, d] + "*%" + rest, 0) == Some((DigitValue(a), DigitValue(b)))
  {
    var s := "%FSLAX" + [a, b] + "Y" + [c, d] + "*%" + rest;
    assert s[..6] == "%FSLAX";
    assert s[11..13] == "*%";
    assert s[6] == a && s[7] == b && s[8] == 'Y' && s[9] == c && s[10] == d;
  }

  // ---------------------------------------------------------------------
  // Aperture definitions

  /** The groups of one match of `%ADD(\d+)([CR]),([0-9.]+)(?:X([0-9.]+))?\*%` and where it ends. */
  datatype ApertureDef = ApertureDef(code: string, shape: char, size1: string, size2: Option<string>, end: nat)

  /** The text a definition with these groups spells: `%ADD<code><shape>,<size1>[X<size2>]*%`. */
  function ApertureText(d: ApertureDef): string
  {
    "%ADD" + d.code + [d.shape] + "," + d.size1 + (if d.size2.Some? then "X" + d.size2.value else "") + "*%"
  }

  /** The group classes of the pattern: `\d+`, `[CR]`, `[0-9.]+` and an optional `[0-9.]+`. */
  predicate ApertureGroups(d: ApertureDef)
  {
    && |d.code| >= 1 && AllDigits(d.code)
    && (d.shape == 'C' || d.shape == 'R')
    && NumChars(d.size1)
    && (d.size2.Some? ==> NumChars(d.size2.value))
  }

  /**
    The aperture pattern matched at position k: the groups have the
    pattern's classes and sit where the definition they spell puts them
    (LayoutText: the text from k to the end of the match is that
    definition).
  */
  function ApertureAt(s: string, k: nat): (r: Option<ApertureDef>)
    requires k <= |s|
    ensures Found(s, k, r)
  {
    MatchApertureFacts(s, k);
    MatchAperture(s, k)
  }

  /** The matcher itself: `%ADD`, the code digits, C or R and a comma, then the sizes. */
  function MatchAperture(s: string, k: nat): Option<ApertureDef>
    requires k <= |s|
  {
    if !At(s, k, "%ADD") then None
    else
      var c := k + 4 + Run(s, k + 4, Digit);
      if c == k + 4 || c + 1 >= |s| || (s[c] != 'C' && s[c] != 'R') || s[c + 1] != ',' then None
      else MatchSizes(s, k, c)
  }

  /** The sizes after the comma at c + 1: `[0-9.]+`, an optional `X[0-9.]+`, then `*%`. */
  function MatchSizes(s: string, k: nat, c: nat): Option<ApertureDef>
    requires k + 4 < c && c + 1 < |s|
  {
    SizesFrom(s, k, c, c + 2 + Run(s, c + 2, NumChar))
  }

  /**
    The first size ends at e. An `X` there starts the second size; the
    optional group cannot be skipped then, since `*%` cannot follow.
  */
  function SizesFrom(s: string, k: nat, c: nat, e: nat): Option<ApertureDef>
    requires k + 4 < c && c + 2 <= e <= |s|
  {
    if e == c + 2 then None
    else if e < |s| && s[e] == 'X' then SecondFrom(s, k, c, e, e + 1 + Run(s, e + 1, NumChar))
    else if At(s, e, "*%") then Some(ApertureDef(s[k + 4..c], s[c], s[c + 2..e], None, e + 2))
    else None
  }

  /** The second size runs from e + 1 to e2 and `*%` must follow it. */
  function SecondFrom(s: string, k: nat, c: nat, e: nat, e2: nat): Option<ApertureDef>
    requires k + 4 < c && c + 2 <= e < e2 <= |s|
  {
    if e2 > e + 1 && At(s, e2, "*%") then Some(ApertureDef(s[k + 4..c], s[c], s[c + 2..e], Some(s[e + 1..e2]), e2 + 2))
    else None
  }

  lemma {:induction false} MatchApertureFacts(s: string, k: nat)
    requires k <= |s|
    ensures Found(s, k, MatchAperture(s, k))
  {
    if At(s, k, "%ADD") {
      var c := k + 4 + Run(s, k + 4, Digit);
      if !(c == k + 4 || c + 1 >= |s| || (s[c] != 'C' && s[c] != 'R') || s[c + 1] != ',') {
        MatchHead(s, k, c);
        SizesFacts(s, k, c, c + 2 + Run(s, c + 2, NumChar));
      }
    }
  }

  lemma {:induction false} SizesFacts(s: string, k: nat, c: nat, e: nat)
    requires At(s, k, "%ADD") && k + 4 < c && c + 2 <= e <= |s|
    requires c == k + 4 + Run(s, k + 4, Digit) && (s[c] == 'C' || s[c] == 'R') && s[c + 1] == ','
    requires e == c + 2 + Run(s, c + 2, NumChar)
    ensures Found(s, k, SizesFrom(s, k, c, e))
  {
    if e == c + 2 {
    } else if e < |s| && s[e] == 'X' {
      var e2 := e + 1 + Run(s, e + 1, NumChar);
      if e2 > e + 1 && At(s, e2, "*%") {
        var d := ApertureDef(s[k + 4..c], s[c], s[c + 2..e], Some(s[e + 1..e2]), e2 + 2);
        assert SizesFrom(s, k, c, e) == SecondFrom(s, k, c, e, e2) == Some(d);
        ApertureMatch2(s, k, c, e, e2);
      }
    } else if At(s, e, "*%") {
      var d := ApertureDef(s[k + 4..c], s[c], s[c + 2..e], None, e + 2);
      assert SizesFrom(s, k, c, e) == Some(d);
      ApertureMatch1(s, k, c, e);
    }
  }

  /** A match found at k, if any, has the pattern's groups laid out from k on. */
  predicate Found(s: string, k: nat, r: Option<ApertureDef>)
  {
    r.Some? ==> k < r.value.end <= |s| && ApertureGroups(r.value) && ApertureLayout(s, k, r.value)
  }

  /** The tail a definition's optional second size adds: `X<size2>` or nothing. */
  function SecondSize(d: ApertureDef): string
  {
    if d.size2.Some? then "X" + d.size2.value else ""
  }

  /** Where the pieces of a definition with these groups sit from position k on. */
  predicate ApertureLayout(s: string, k: nat, d: ApertureDef)
  {
    var c := k + 4 + |d.code|;
    var e := c + 2 + |d.size1|;
    var f := e + |SecondSize(d)|;
    && f + 2 <= |s| && d.end == f + 2
    && s[k..k + 4] == "%ADD" && s[k + 4..c] == d.code && s[c] == d.shape && s[c + 1] == ','
    && s[c + 2..e] == d.size1 && s[e..f] == SecondSize(d) && s[f..f + 2] == "*%"
  }

  /** Laid-out pieces spell the definition's text. */
  lemma {:induction false} LayoutText(s: string, k: nat, d: ApertureDef)
    requires ApertureLayout(s, k, d)
    ensures s[k..d.end] == ApertureText(d)
  {
    var c := k + 4 + |d.code|;
    var e := c + 2 + |d.size1|;
    var f := e + |SecondSize(d)|;
    PiecesText(s, k, c, e, f, d.code, [d.shape] + ",", d.size1, SecondSize(d));
    assert ApertureText(d) == "%ADD" + d.code + ([d.shape] + ",") + d.size1 + SecondSize(d) + "*%";
  }

  /** Six consecutive slices of s spell their concatenation. */
  lemma {:induction false} PiecesText(s: string, k: nat, c: nat, e: nat, f: nat,
                                      code: string, sep: string, size1: string, tail: string)
    requires k + 4 <= c && c + 2 <= e <= f && f + 2 <= |s|
    requires s[k..k + 4] == "%ADD" && s[k + 4..c] == code && s[c..c + 2] == sep
    requires s[c + 2..e] == size1 && s[e..f] == tail && s[f..f + 2] == "*%"
    ensures s[k..f + 2] == "%ADD" + code + sep + size1 + tail + "*%"
  {
    assert s[k..c] == "%ADD" + code by { SliceSplit(s, k, k + 4, c); }
    assert s[k..c + 2] == "%ADD" + code + sep by { SliceSplit(s, k, c, c + 2); }
    assert s[k..e] == "%ADD" + code + sep + size1 by { SliceSplit(s, k, c + 2, e); }
    assert s[k..f] == "%ADD" + code + sep + size1 + tail by { SliceSplit(s, k, e, f); }
    SliceSplit(s, k, f, f + 2);
  }

  /** The text written for a definition at position |pre| is laid out there. */
  lemma {:induction false} ApertureTextLayout(pre: string, d: ApertureDef, rest: string)
    requires d.end == |pre| + |ApertureText(d)|
    ensures ApertureLayout(pre + ApertureText(d) + rest, |pre|, d)
  {
    var p1 := pre + "%ADD";
    var p2 := p1 + d.code;
    var p3 := p2 + [d.shape];
    var p4 := p3 + ",";
    var p5 := p4 + d.size1;
    var p6 := p5 + SecondSize(d);
    var p7 := p6 + "*%";
    var s := p7 + rest;
    assert ApertureText(d) == "%ADD" + d.code + [d.shape] + "," + d.size1 + SecondSize(d) + "*%";
    assert s == pre + ApertureText(d) + rest;
    PrefixParts(s, p7, rest);
    PrefixParts(s, p6, "*%");
    PrefixParts(s, p5, SecondSize(d));
    PrefixParts(s, p4, d.size1);
    PrefixParts(s, p3, ",");
    PrefixParts(s, p2, [d.shape]);
    PrefixParts(s, p1, d.code);
    PrefixParts(s, pre, "%ADD");
  }

  /** The groups and the place of a match whose code ends at c, first size at e and second at e2. */
  lemma {:induction false} ApertureMatch2(s: string, k: nat, c: nat, e: nat, e2: nat)
    requires At(s, k, "%ADD") && k + 4 < c && c + 2 < e < |s|
    requires c == k + 4 + Run(s, k + 4, Digit) && (s[c] == 'C' || s[c] == 'R') && s[c + 1] == ','
    requires e == c + 2 + Run(s, c + 2, NumChar)
    requires s[e] == 'X' && e2 == e + 1 + Run(s, e + 1, NumChar) && e2 > e + 1 && At(s, e2, "*%")
    ensures Found(s, k, Some(ApertureDef(s[k + 4..c], s[c], s[c + 2..e], Some(s[e + 1..e2]), e2 + 2)))
  {
    var d := ApertureDef(s[k + 4..c], s[c], s[c + 2..e], Some(s[e + 1..e2]), e2 + 2);
    MatchGroups(s, k, c, e, Some(e2));
    assert s[e..e2] == SecondSize(d) by { assert s[e..e2] == [s[e]] + s[e + 1..e2]; }
    assert |d.code| == c - k - 4 && |d.size1| == e - c - 2 && |SecondSize(d)| == e2 - e;
  }

  /** The groups and the place of a match whose code ends at c and only size at e. */
  lemma {:induction false} ApertureMatch1(s: string, k: nat, c: nat, e: nat)
    requires At(s, k, "%ADD") && k + 4 < c && c + 2 < e <= |s|
    requires c == k + 4 + Run(s, k + 4, Digit) && (s[c] == 'C' || s[c] == 'R') && s[c + 1] == ','
    requires e == c + 2 + Run(s, c + 2, NumChar) && At(s, e, "*%")
    ensures Found(s, k, Some(ApertureDef(s[k + 4..c], s[c], s[c + 2..e], None, e + 2)))
  {
    var d := ApertureDef(s[k + 4..c], s[c], s[c + 2..e], None, e + 2);
    MatchGroups(s, k, c, e, None);
    assert s[e..e] == SecondSize(d);
    assert |d.code| == c - k - 4 && |d.size1| == e - c - 2 && |SecondSize(d)| == 0;
  }

  /** The captured slices have the pattern's classes. */
  lemma {:induction false} MatchGroups(s: string, k: nat, c: nat, e: nat, e2: Option<nat>)
    requires k + 4 < c <= |s| && c == k + 4 + Run(s, k + 4, Digit)
    requires c + 2 < e <= |s| && e == c + 2 + Run(s, c + 2, NumChar)
    requires e2.Some? ==> e < e2.value <= |s| && e2.value == e + 1 + Run(s, e + 1, NumChar) && e2.value > e + 1
    ensures AllDigits(s[k + 4..c]) && NumChars(s[c + 2..e])
    ensures e2.Some? ==> NumChars(s[e + 1..e2.value])
  {
    DigitRun(s, k + 4);
    NumRun(s, c + 2);
    if e2.Some? { NumRun(s, e + 1); }
  }

  /** A definition written at position |pre|, with the pattern's classes, is matched there with its own groups. */
  lemma {:induction false} ApertureOfText(pre: string, d: ApertureDef, rest: string)
    requires ApertureGroups(d) && d.end == |pre| + |ApertureText(d)|
    ensures ApertureAt(pre + ApertureText(d) + rest, |pre|) == Some(d)
  {
    var s := pre + ApertureText(d) + rest;
    ApertureTextLayout(pre, d, rest);
    ApertureOfLayout(s, |pre|, d);
    assert ApertureAt(s, |pre|) == MatchAperture(s, |pre|);
  }

  /** Laid-out groups with the pattern's classes are what the matcher finds. */
  lemma {:induction false} ApertureOfLayout(s: string, k: nat, d: ApertureDef)
    requires ApertureGroups(d) && ApertureLayout(s, k, d)
    ensures MatchAperture(s, k) == Some(d)
  {
    if d.size2.Some? { TwoSizesLayout(s, k, d); } else { OneSizeLayout(s, k, d); }
  }

  lemma {:induction false} TwoSizesLayout(s: string, k: nat, d: ApertureDef)
    requires ApertureGroups(d) && ApertureLayout(s, k, d) && d.size2.Some?
    ensures MatchAperture(s, k) == Some(d)
  {
    var c := k + 4 + |d.code|;
    var e := c + 2 + |d.size1|;
    var f := e + |SecondSize(d)|;
    assert Run(s, k + 4, Digit) == |d.code| by { DigitGroupEnd(s, k + 4, d.code); }
    assert At(s, k, "%ADD");
    assert s[e] == 'X' && s[e + 1..f] == d.size2.value by {
      assert s[e] == s[e..f][0] && s[e + 1..f] == s[e..f][1..];
    }
    assert s[f] == '*' && At(s, f, "*%") by { assert s[f] == s[f..f + 2][0]; }
    TwoSizesAt(s, k, c, e, f, d);
  }

  lemma {:induction false} OneSizeLayout(s: string, k: nat, d: ApertureDef)
    requires ApertureGroups(d) && ApertureLayout(s, k, d) && d.size2.None?
    ensures MatchAperture(s, k) == Some(d)
  {
    var c := k + 4 + |d.code|;
    var e := c + 2 + |d.size1|;
    assert Run(s, k + 4, Digit) == |d.code| by { DigitGroupEnd(s, k + 4, d.code); }
    assert At(s, k, "%ADD");
    assert s[e] == '*' && At(s, e, "*%") by { assert s[e] == s[e..e + 2][0]; }
    OneSizeAt(s, k, c, e, d);
  }

  lemma {:induction false} TwoSizesAt(s: string, k: nat, c: nat, e: nat, f: nat, d: ApertureDef)
    requires k + 4 < c && e == c + 2 + |d.size1| && d.size2.Some? && f == e + 1 + |d.size2.value| && f < |s|
    requires At(s, k, "%ADD") && c == k + 4 + Run(s, k + 4, Digit) && s[k + 4..c] == d.code
    requires (d.shape == 'C' || d.shape == 'R') && s[c] == d.shape && s[c + 1] == ','
    requires NumChars(d.size1) && s[c + 2..e] == d.size1 && NumChars(d.size2.value)
    requires s[e] == 'X' && s[e + 1..f] == d.size2.value && s[f] == '*' && At(s, f, "*%") && d.end == f + 2
    ensures MatchAperture(s, k) == Some(d)
  {
    SizesEnd(s, c + 2, e, f, d.size1, d.size2.value);
    ApertureAtOfEnds2(s, k, c, e, f);
  }

  lemma {:induction false} OneSizeAt(s: string, k: nat, c: nat, e: nat, d: ApertureDef)
    requires k + 4 < c && e == c + 2 + |d.size1| && e < |s|
    requires At(s, k, "%ADD") && c == k + 4 + Run(s, k + 4, Digit) && s[k + 4..c] == d.code
    requires (d.shape == 'C' || d.shape == 'R') && s[c] == d.shape && s[c + 1] == ','
    requires NumChars(d.size1) && s[c + 2..e] == d.size1
    requires d.size2.None? && s[e] == '*' && At(s, e, "*%") && d.end == e + 2
    ensures MatchAperture(s, k) == Some(d)
  {
    NumGroupEnd(s, c + 2, d.size1);
    ApertureAtOfEnds1(s, k, c, e);
  }

  /** Where the two size groups of a laid-out definition stop matching. */
  lemma {:induction false} SizesEnd(s: string, b: nat, e: nat, f: nat, s1: string, s2: string)
    requires NumChars(s1) && NumChars(s2) && e == b + |s1| && f == e + 1 + |s2| && f < |s|
    requires s[b..e] == s1 && s[e] == 'X' && s[e + 1..f] == s2 && s[f] == '*'
    ensures Run(s, b, NumChar) == |s1| && Run(s, e + 1, NumChar) == |s2|
  {
    NumGroupEnd(s, b, s1);
    NumGroupEnd(s, e + 1, s2);
  }

  /** `ApertureAt` once the ends of the code and of both sizes are known. */
  lemma {:induction false} ApertureAtOfEnds2(s: string, k: nat, c: nat, e: nat, e2: nat)
    requires At(s, k, "%ADD") && k + 4 < c && c + 2 < e < |s|
    requires c == k + 4 + Run(s, k + 4, Digit) && (s[c] == 'C' || s[c] == 'R') && s[c + 1] == ','
    requires e == c + 2 + Run(s, c + 2, NumChar)
    requires s[e] == 'X' && e2 == e + 1 + Run(s, e + 1, NumChar) && e2 > e + 1 && At(s, e2, "*%")
    ensures MatchAperture(s, k) == Some(ApertureDef(s[k + 4..c], s[c], s[c + 2..e], Some(s[e + 1..e2]), e2 + 2))
  {
    MatchHead(s, k, c);
    SizesOfEnds2(s, k, c, e, e2);
  }

  lemma {:induction false} SizesOfEnds2(s: string, k: nat, c: nat, e: nat, e2: nat)
    requires k + 4 < c && c + 2 < e < |s| && e == c + 2 + Run(s, c + 2, NumChar)
    requires s[e] == 'X' && e2 == e + 1 + Run(s, e + 1, NumChar) && e2 > e + 1 && At(s, e2, "*%")
    ensures MatchSizes(s, k, c) == Some(ApertureDef(s[k + 4..c], s[c], s[c + 2..e], Some(s[e + 1..e2]), e2 + 2))
  {
    assert MatchSizes(s, k, c) == SizesFrom(s, k, c, e);
    assert SizesFrom(s, k, c, e) == SecondFrom(s, k, c, e, e2);
  }

  /** `ApertureAt` once the ends of the code and of the one size are known. */
  lemma {:induction false} ApertureAtOfEnds1(s: string, k: nat, c: nat, e: nat)
    requires At(s, k, "%ADD") && k + 4 < c && c + 2 < e <= |s|
    requires c == k + 4 + Run(s, k + 4, Digit) && (s[c] == 'C' || s[c] == 'R') && s[c + 1] == ','
    requires e == c + 2 + Run(s, c + 2, NumChar)
    requires At(s, e, "*%") && s[e] == '*'
    ensures MatchAperture(s, k) == Some(ApertureDef(s[k + 4..c], s[c], s[c + 2..e], None, e + 2))
  {
    MatchHead(s, k, c);
    SizesOfEnds1(s, k, c, e);
  }

  /** Past `%ADD`, the code and `C,` or `R,`, the matcher goes on to the sizes. */
  lemma {:induction false} MatchHead(s: string, k: nat, c: nat)
    requires At(s, k, "%ADD") && k + 4 < c && c + 1 < |s|
    requires c == k + 4 + Run(s, k + 4, Digit) && (s[c] == 'C' || s[c] == 'R') && s[c + 1] == ','
    ensures MatchAperture(s, k) == MatchSizes(s, k, c)
  {
  }

  lemma {:induction false} SizesOfEnds1(s: string, k: nat, c: nat, e: nat)
    requires k + 4 < c && c + 2 < e <= |s| && e == c + 2 + Run(s, c + 2, NumChar)
    requires At(s, e, "*%") && s[e] == '*'
    ensures MatchSizes(s, k, c) == Some(ApertureDef(s[k + 4..c], s[c], s[c + 2..e], None, e + 2))
  {
    assert MatchSizes(s, k, c) == SizesFrom(s, k, c, e);
  }

  /** A size group written at k, followed by a character outside `[0-9.]`, is the whole run there. */
  lemma {:induction false} NumGroupEnd(s: string, k: nat, t: string)
    requires NumChars(t) && k + |t| < |s| && s[k..k + |t|] == t && !In(NumChar, s[k + |t|])
    ensures Run(s, k, NumChar) == |t|
  {
    forall i | k <= i < k + |t| ensures In(NumChar, s[i]) {
      assert s[i] == t[i - k];
    }
    RunSpan(s, k, |t|, NumChar);
  }

  /** `re.finditer`: the non-overlapping matches from position k on, left to right. */
  function ApertureDefs(s: string, k: nat): (r: seq<ApertureDef>)
    requires k <= |s|
    ensures forall i :: 0 <= i < |r| ==> k < r[i].end <= |s|
    decreases |s| - k
  {
    if k == |s| then []
    else
      match ApertureAt(s, k)
      case Some(d) => [d] + ApertureDefs(s, d.end)
      case None => ApertureDefs(s, k + 1)
  }

  /**
    Every match has the pattern's groups, and the matches come left to
    right without overlapping: each ends before the next one ends
    (DefsInOrder).
  */
  lemma {:induction false} ApertureDefsFacts(s: string, k: nat)
    requires k <= |s|
    ensures DefsInOrder(ApertureDefs(s, k))
    decreases |s| - k
  {
    if k < |s| {
      var r := ApertureAt(s, k);
      if r.Some? {
        ApertureDefsFacts(s, r.value.end);
        assert ApertureDefs(s, k) == [r.value] + ApertureDefs(s, r.value.end);
        ConsInOrder(r.value, ApertureDefs(s, r.value.end));
      } else {
        ApertureDefsFacts(s, k + 1);
        assert ApertureDefs(s, k) == ApertureDefs(s, k + 1);
      }
    }
  }

  /** Matches with the pattern's groups, each ending before the next one ends. */
  predicate DefsInOrder(r: seq<ApertureDef>)
  {
    (forall i :: 0 <= i < |r| ==> ApertureGroups(r[i]))
    && forall i, j :: 0 <= i < j < |r| ==> r[i].end < r[j].end
  }

  lemma {:induction false} ConsInOrder(d: ApertureDef, rest: seq<ApertureDef>)
    requires ApertureGroups(d) && DefsInOrder(rest)
    requires forall i :: 0 <= i < |rest| ==> d.end < rest[i].end
    ensures DefsInOrder([d] + rest)
  {
    var r := [d] + rest;
    forall i | 0 <= i < |r| ensures ApertureGroups(r[i]) {
      if i > 0 { assert r[i] == rest[i - 1]; }
    }
    forall i, j | 0 <= i < j < |r| ensures r[i].end < r[j].end {
      assert r[j] == rest[j - 1];
      if i > 0 { assert r[i] == rest[i - 1]; }
    }
  }

  /**
    The aperture one definition creates, sizes times the unit scale; a size
    that `float()` rejects (such as "1.2.3") raises ValueError. The second
    size is converted whenever it is present, even for a circle.
  */
  function ApertureOf(d: ApertureDef, scale: real): (r: Result<Aperture>)
    ensures r.Success? <==> PyInt(d.code).Some? && FloatOfNumeral(d.size1).Some?
                            && (d.size2.Some? ==> FloatOfNumeral(d.size2.value).Some?)
    ensures r.Failure? ==> r.error == ValueError
    ensures r.Success? ==> PyInt(d.code).Some? && r.value.code == PyInt(d.code).value && r.value.size != []
    ensures r.Success? && d.shape == 'C' ==>
              FloatOfNumeral(d.size1).Some? && r.value.shape == Circle && r.value.size == [Mm(FloatOfNumeral(d.size1).value, scale)]
    ensures r.Success? && d.shape != 'C' && d.size2.None? ==>
              FloatOfNumeral(d.size1).Some? && r.value.shape == Rectangle && r.value.size == [Mm(FloatOfNumeral(d.size1).value, scale), Mm(FloatOfNumeral(d.size1).value, scale)]
    ensures r.Success? && d.shape != 'C' && d.size2.Some? ==>
              FloatOfNumeral(d.size1).Some? && FloatOfNumeral(d.size2.value).Some? && r.value.shape == Rectangle && r.value.size == [Mm(FloatOfNumeral(d.size1).value, scale), Mm(FloatOfNumeral(d.size2.value).value, scale)]
  {
    var code := PyInt(d.code);
    var s1 := FloatOfNumeral(d.size1);
    var s2 := if d.size2.Some? then FloatOfNumeral(d.size2.value) else s1;
    if code.None? || s1.None? || s2.None? then Failure(ValueError)
    else if d.shape == 'C' then Success(Aperture(code.value, Circle, [Mm(s1.value, scale)]))
    else Success(Aperture(code.value, Rectangle, [Mm(s1.value, scale), Mm(s2.value, scale)]))
  }

  /**
    The table after defining the apertures in order; `false` when a
    definition raised, with the table as the definitions before it left it.
  */
  function DefineAll(aps: map<int, Aperture>, defs: seq<ApertureDef>, scale: real): (r: (map<int, Aperture>, bool))
    ensures Sized(aps) ==> Sized(r.0)
    ensures forall c :: c in aps ==> c in r.0
    ensures (forall c :: c in aps ==> aps[c].code == c) ==> forall c :: c in r.0 ==> r.0[c].code == c
  {
    if defs == [] then (aps, true)
    else
      var prev := DefineAll(aps, defs[..|defs| - 1], scale);
      if !prev.1 then prev else DefineOne(prev.0, defs[|defs| - 1], scale)
  }

  /** One definition: the table gains the aperture under its code, or `false` when it raised. */
  function DefineOne(m: map<int, Aperture>, d: ApertureDef, scale: real): (r: (map<int, Aperture>, bool))
    ensures Sized(m) ==> Sized(r.0)
    ensures forall c :: c in m ==> c in r.0
    ensures (forall c :: c in m ==> m[c].code == c) ==> forall c :: c in r.0 ==> r.0[c].code == c
  {
    var a := ApertureOf(d, scale);
    if a.Failure? then (m, false)
    else
      Insert(m, a.value, m[a.value.code := a.value]);
      (m[a.value.code := a.value], true)
  }

  /** Filing an aperture under its own code keeps the table's invariants. */
  lemma {:induction false} Insert(m: map<int, Aperture>, a: Aperture, m2: map<int, Aperture>)
    requires a.size != [] && m2 == m[a.code := a]
    ensures Sized(m) ==> Sized(m2)
    ensures forall c :: c in m ==> c in m2
    ensures (forall c :: c in m ==> m[c].code == c) ==> forall c :: c in m2 ==> m2[c].code == c
  {
  }

  lemma {:induction false} DefineAllUnfold(aps: map<int, Aperture>, defs: seq<ApertureDef>, scale: real, k: nat, k2: nat)
    requires k < |defs| && k2 == k + 1
    ensures var prev := DefineAll(aps, defs[..k], scale);
      DefineAll(aps, defs[..k2], scale) == (if !prev.1 then prev else DefineOne(prev.0, defs[k], scale))
  {
    assert defs[..k2][..k] == defs[..k];
  }

  /** Once a definition has raised, the later ones are never reached. */
  lemma {:induction false} DefineAllStops(aps: map<int, Aperture>, defs: seq<ApertureDef>, scale: real, k: nat)
    requires k <= |defs| && !DefineAll(aps, defs[..k], scale).1
    ensures DefineAll(aps, defs, scale) == DefineAll(aps, defs[..k], scale)
    decreases |defs| - k
  {
    if k < |defs| {
      DefineAllUnfold(aps, defs, scale, k, k + 1);
      DefineAllStops(aps, defs, scale, k + 1);
    } else {
      assert defs[..k] == defs;
    }
  }

  // ---------------------------------------------------------------------
  // The per-line state machine

  /**
    The aperture a bare `Dnn*` line selects: the line starts with 'D',
    ends with '*', what lies between is an integer for `int()`, and it is
    at least 10. (A one-character line cannot both start with 'D' and end
    with '*'.)
  */
  function SelectedCode(line: string): (r: Option<int>)
    ensures r.Some? ==> r.value >= 10
  {
    if |line| >= 2 && line[0] == 'D' && line[|line| - 1] == '*' then
      match PyInt(line[1..|line| - 1])
      case Some(v) => if v >= 10 then Some(v) else None
      case None => None
    else None
  }

  /** The groups of a match of `X(-?\d+)Y(-?\d+)D(\d+)\*` at the start of a line. */
  datatype Command = Command(x: string, y: string, d: string)

  function CommandAt(line: string): (r: Option<Command>)
    ensures r.Some? ==> IsSignedDigits(r.value.x) && IsSignedDigits(r.value.y)
                        && |r.value.d| >= 1 && AllDigits(r.value.d)
    ensures r.Some? ==> line != [] && line[0] == 'X'
  {
    if line == [] || line[0] != 'X' then None
    else
      match SignedDigitsEnd(line, 1)
      case None => None
      case Some(xe) => CommandAfterX(line, xe)
  }

  /** The rest of the match once `X` and the x group, ending at xe, have matched. */
  function CommandAfterX(line: string, xe: nat): (r: Option<Command>)
    requires 1 < xe <= |line| && IsSignedDigits(line[1..xe])
    ensures r.Some? ==> r.value.x == line[1..xe] && IsSignedDigits(r.value.y)
                        && |r.value.d| >= 1 && AllDigits(r.value.d)
  {
    if xe >= |line| || line[xe] != 'Y' then None
    else
      match SignedDigitsEnd(line, xe + 1)
      case None => None
      case Some(ye) => CommandAfterY(line, xe, ye)
  }

  /** The rest of the match once the y group, ending at ye, has matched too. */
  function CommandAfterY(line: string, xe: nat, ye: nat): (r: Option<Command>)
    requires 1 < xe < ye <= |line| && IsSignedDigits(line[1..xe]) && IsSignedDigits(line[xe + 1..ye])
    ensures r.Some? ==> r.value.x == line[1..xe] && r.value.y == line[xe + 1..ye]
                        && |r.value.d| >= 1 && AllDigits(r.value.d)
  {
    if ye >= |line| || line[ye] != 'D' then None
    else
      var e := ye + 1 + Run(line, ye + 1, Digit);
      if e == ye + 1 || e >= |line| || line[e] != '*' then None
      else
        DigitRun(line, ye + 1);
        Some(Command(line[1..xe], line[xe + 1..ye], line[ye + 1..e]))
  }

  /** The element a D01 or D03 command adds, if an aperture is selected. */
  function Drawn(st: ParserState, d: int, to: Point): seq<Element>
  {
    if !Truthy(st.currentAperture) then []
    else if d == 1 then [Element(LineElement, st.currentAperture.value, st.currentPos, to)]
    else if d == 3 then [Element(FlashElement, st.currentAperture.value, to, to)]
    else []
  }

  /** The aperture selection a line makes. */
  function SelectStep(st: ParserState, line: string): (r: ParserState)
    ensures r == st.(currentAperture := r.currentAperture)
    ensures r.currentAperture != st.currentAperture ==> r.currentAperture == SelectedCode(line)
  {
    match SelectedCode(line) case Some(v) => st.(currentAperture := Some(v)) case None => st
  }

  /**
    A move/draw command at (x, y) with D code d: the element it draws, if
    any, and the new position.
  */
  function MoveStep(st: ParserState, x: real, y: real, d: int): (r: ParserState)
    ensures r.apertures == st.apertures && r.unitScale == st.unitScale && r.formatSpec == st.formatSpec
    ensures r.currentAperture == st.currentAperture && r.currentPos == (x, y)
    ensures |st.elements| <= |r.elements| <= |st.elements| + 1 && r.elements[..|st.elements|] == st.elements
    ensures |r.elements| > |st.elements| ==>
              (Truthy(st.currentAperture) && r.elements[|st.elements|].aperture == st.currentAperture.value
               && (r.elements[|st.elements|].kind == FlashElement ==>
                     r.elements[|st.elements|].start == r.elements[|st.elements|].end))
  {
    st.(elements := st.elements + Drawn(st, d, (x, y)), currentPos := (x, y))
  }

  /** The command's groups read by `_parse_coordinate` and `int()`, which never raise on them. */
  function CommandStep(st: ParserState, c: Command): (r: ParserState)
    requires IsSignedDigits(c.x) && IsSignedDigits(c.y) && |c.d| >= 1 && AllDigits(c.d)
    ensures ParseCoordinate(c.x, st.formatSpec, st.unitScale).Success?
            && ParseCoordinate(c.y, st.formatSpec, st.unitScale).Success? && PyInt(c.d).Some?
    ensures r.currentPos == (ParseCoordinate(c.x, st.formatSpec, st.unitScale).value,
                             ParseCoordinate(c.y, st.formatSpec, st.unitScale).value)
  {
    PyIntOfSignedText(c.x);
    PyIntOfSignedText(c.y);
    PyIntOfDigits(c.d);
    MoveStep(st, ParseCoordinate(c.x, st.formatSpec, st.unitScale).value,
             ParseCoordinate(c.y, st.formatSpec, st.unitScale).value, PyInt(c.d).value)
  }

  /** One stripped line of the drawing loop: the table, units and format stay; elements only grow. */
  function LineStep(st: ParserState, line: string): (r: ParserState)
    ensures r.apertures == st.apertures && r.unitScale == st.unitScale && r.formatSpec == st.formatSpec
    ensures |st.elements| <= |r.elements| <= |st.elements| + 1 && r.elements[..|st.elements|] == st.elements
  {
    var st1 := SelectStep(st, line);
    match CommandAt(line)
    case None => st1
    case Some(c) => CommandStep(st1, c)
  }

  /** The drawing loop over the lines of the file, each stripped. */
  function Lines(st: ParserState, lines: seq<string>): (r: ParserState)
    ensures r.apertures == st.apertures && r.unitScale == st.unitScale && r.formatSpec == st.formatSpec
    ensures |st.elements| <= |r.elements| <= |st.elements| + |lines| && r.elements[..|st.elements|] == st.elements
  {
    if lines == [] then st else LineStep(Lines(st, lines[..|lines| - 1]), Strip(lines[|lines| - 1]))
  }

  lemma {:induction false} LinesUnfold(st: ParserState, lines: seq<string>, i: nat, i2: nat)
    requires i < |lines| && i2 == i + 1
    ensures Lines(st, lines[..i2]) == LineStep(Lines(st, lines[..i]), Strip(lines[i]))
  {
    assert lines[..i2][..i] == lines[..i];
  }

  // ---------------------------------------------------------------------
  // Visualisation data

  datatype LineData = LineData(x1: real, y1: real, x2: real, y2: real, width: real)
  datatype PadData = PadData(x: real, y: real, shape: Shape, size: seq<real>)
  datatype ApertureData = ApertureData(shape: Shape, size: seq<real>)
  datatype VisData = VisData(lines: seq<LineData>, pads: seq<PadData>, apertures: map<int, ApertureData>)

  /** The stand-in for an aperture the table lacks: a 0.2 mm circle. */
  const DefaultAperture: ApertureData := ApertureData(Circle, [0.2])

  /** Every aperture in the table has at least one size, as `parse_file` creates them. */
  predicate Sized(aps: map<int, Aperture>)
  {
    forall k :: k in aps ==> aps[k].size != []
  }

  function ApertureFor(aps: map<int, Aperture>, code: int): (a: ApertureData)
    ensures Sized(aps) ==> a.size != []
  {
    if code in aps then ApertureData(aps[code].shape, aps[code].size) else DefaultAperture
  }

  /** The line entries of the elements, in order, each as wide as its aperture's first size. */
  function LinesOf(es: seq<Element>, aps: map<int, Aperture>): (r: seq<LineData>)
    requires Sized(aps)
    ensures |r| <= |es|
  {
    if es == [] then []
    else
      var e := es[|es| - 1];
      var a := ApertureFor(aps, e.aperture);
      LinesOf(es[..|es| - 1], aps)
      + (if e.kind == LineElement then [LineData(e.start.0, e.start.1, e.end.0, e.end.1, a.size[0])] else [])
  }

  /** The pad entries of the flashes, in order. */
  function PadsOf(es: seq<Element>, aps: map<int, Aperture>): (r: seq<PadData>)
    ensures |r| <= |es|
  {
    if es == [] then []
    else
      var e := es[|es| - 1];
      var a := ApertureFor(aps, e.aperture);
      PadsOf(es[..|es| - 1], aps)
      + (if e.kind == FlashElement then [PadData(e.start.0, e.start.1, a.shape, a.size)] else [])
  }

  /** Every element becomes exactly one entry: a line or a pad. */
  lemma {:induction false} VisualizeCounts(es: seq<Element>, aps: map<int, Aperture>)
    requires Sized(aps)
    ensures |LinesOf(es, aps)| + |PadsOf(es, aps)| == |es|
  {
    if es != [] {
      VisualizeCounts(es[..|es| - 1], aps);
    }
  }

  /** A flash with an undefined aperture is drawn as the default 0.2 mm circle. */
  lemma {:induction false} UndefinedAperturePad(es: seq<Element>, aps: map<int, Aperture>, p: Point)
    requires Sized(aps) && es != [] && es[|es| - 1].kind == FlashElement && es[|es| - 1].aperture !in aps
    requires p == es[|es| - 1].start
    ensures PadsOf(es, aps) == PadsOf(es[..|es| - 1], aps) + [PadData(p.0, p.1, Circle, [0.2])]
    ensures LinesOf(es, aps) == LinesOf(es[..|es| - 1], aps)
  {
  }

  /** `_generate_visualization_data` as a value. */
  function Visualize(st: ParserState): (v: VisData)
    requires Sized(st.apertures)
    ensures |v.lines| + |v.pads| == |st.elements|
    ensures v.apertures.Keys == st.apertures.Keys
    ensures forall k :: k in v.apertures ==> v.apertures[k] == ApertureData(st.apertures[k].shape, st.apertures[k].size)
  {
    VisualizeCounts(st.elements, st.apertures);
    VisData(LinesOf(st.elements, st.apertures), PadsOf(st.elements, st.apertures),
            map k | k in st.apertures :: ApertureData(st.apertures[k].shape, st.apertures[k].size))
  }

  // ---------------------------------------------------------------------
  // parse_file

  /** The parser's fields after a call and what the call returns or raises. */
  datatype Outcome = Outcome(state: ParserState, result: Result<VisData>)

  function ParseFileSpec(st: ParserState, content: string): (o: Outcome)
    requires Sized(st.apertures)
    ensures o.result.Failure? ==> o.result.error == ValueError && o.state.elements == st.elements
    ensures o.result.Success? ==> Sized(o.state.apertures) && o.result.value == Visualize(o.state)
    ensures o.state.unitScale == Header(st, content).unitScale && o.state.formatSpec == Header(st, content).formatSpec
  {
    var st1 := Header(st, content);
    var (aps, ok) := DefineAll(st1.apertures, ApertureDefs(content, 0), st1.unitScale);
    if !ok then Outcome(st1.(apertures := aps), Failure(ValueError))
    else
      var st2 := Lines(st1.(apertures := aps), Split(content, '\n'));
      Outcome(st2, Success(Visualize(st2)))
  }

  /**
    What every parser built by the constructor and driven by `parse_file`
    keeps: at least one size per aperture, registered under its own code; a
    selected code of at least 10; elements drawn with such a code, and every
    flash starting where it ends.
  */
  predicate WellFormed(st: ParserState)
  {
    && Sized(st.apertures)
    && (forall c :: c in st.apertures ==> st.apertures[c].code == c)
    && (st.currentAperture.Some? ==> st.currentAperture.value >= 10)
    && (forall i :: 0 <= i < |st.elements| ==> ElementWellFormed(st.elements[i]))
  }

  predicate ElementWellFormed(e: Element)
  {
    e.aperture >= 10 && (e.kind == FlashElement ==> e.start == e.end)
  }

  lemma {:induction false} InitialWellFormed()
    ensures WellFormed(Initial)
  {
  }

  /** Drawing a line keeps the parser well formed. */
  lemma {:induction false} LineStepWellFormed(st: ParserState, line: string)
    requires WellFormed(st)
    ensures WellFormed(LineStep(st, line))
  {
    var st1 := SelectStep(st, line);
    assert WellFormed(st1);
    match CommandAt(line)
    case None =>
    case Some(c) =>
      var r := CommandStep(st1, c);
      forall i | 0 <= i < |r.elements| ensures ElementWellFormed(r.elements[i]) {
        if i < |st1.elements| {
          assert r.elements[i] == r.elements[..|st1.elements|][i];
        } else {
          assert i == |st1.elements|;
        }
      }
  }

  lemma {:induction false} LinesWellFormed(st: ParserState, lines: seq<string>)
    requires WellFormed(st)
    ensures WellFormed(Lines(st, lines))
  {
    if lines != [] {
      LinesWellFormed(st, lines[..|lines| - 1]);
      LineStepWellFormed(Lines(st, lines[..|lines| - 1]), Strip(lines[|lines| - 1]));
    }
  }

  /** `parse_file` keeps a well-formed parser well formed, whether it returns or raises. */
  lemma {:induction false} ParseFileWellFormed(st: ParserState, content: string)
    requires WellFormed(st)
    ensures WellFormed(ParseFileSpec(st, content).state)
  {
    var st1 := Header(st, content);
    var (aps, ok) := DefineAll(st1.apertures, ApertureDefs(content, 0), st1.unitScale);
    assert WellFormed(st1.(apertures := aps));
    if ok {
      LinesWellFormed(st1.(apertures := aps), Split(content, '\n'));
    }
  }

  // ---------------------------------------------------------------------
  // What one line does

  /** A bare `Dnn*` line selects aperture nn when nn >= 10 and leaves the parser as it was otherwise. */
  lemma {:induction false} SelectLine(st: ParserState, n: nat)
    ensures var line := "D" + NatToString(n) + "*";
            LineStep(st, line) == if n >= 10 then st.(currentAperture := Some(n)) else st
  {
    var line := "D" + NatToString(n) + "*";
    SelectedCodeOf(n);
    assert line[0] == 'D';
    assert CommandAt(line).None?;
  }

  lemma {:induction false} SelectedCodeOf(n: nat)
    ensures SelectedCode("D" + NatToString(n) + "*") == if n >= 10 then Some(n) else None
  {
    var d := NatToString(n);
    var line := "D" + d + "*";
    assert line[1..|line| - 1] == d;
    PyIntOfDigits(d);
    NatToStringValue(n);
  }

  /** `X<x>Y<y>D<d>*` at the start of a line is read as exactly those three groups. */
  lemma {:induction false} CommandOfText(xs: string, ys: string, ds: string, rest: string)
    requires IsSignedDigits(xs) && IsSignedDigits(ys) && |ds| >= 1 && AllDigits(ds)
    ensures CommandAt("X" + xs + "Y" + ys + "D" + ds + "*" + rest) == Some(Command(xs, ys, ds))
  {
    CommandTextLayout(xs, ys, ds, rest);
    CommandOfLayout("X" + xs + "Y" + ys + "D" + ds + "*" + rest, xs, ys, ds);
  }

  /** Where the pieces of a command line sit. */
  predicate CommandLayout(line: string, xs: string, ys: string, ds: string)
  {
    var xe := 1 + |xs|;
    var ye := xe + 1 + |ys|;
    var e := ye + 1 + |ds|;
    && e < |line| && line[0] == 'X' && line[1..xe] == xs && line[xe] == 'Y'
    && line[xe + 1..ye] == ys && line[ye] == 'D' && line[ye + 1..e] == ds && line[e] == '*'
  }

  lemma {:induction false} CommandTextLayout(xs: string, ys: string, ds: string, rest: string)
    ensures CommandLayout("X" + xs + "Y" + ys + "D" + ds + "*" + rest, xs, ys, ds)
  {
    var p1 := "X" + xs;
    var p2 := p1 + "Y";
    var p3 := p2 + ys;
    var p4 := p3 + "D";
    var p5 := p4 + ds;
    var p6 := p5 + "*";
    var line := p6 + rest;
    PrefixParts(line, p6, rest);
    PrefixParts(line, p5, "*");
    PrefixParts(line, p4, ds);
    PrefixParts(line, p3, "D");
    PrefixParts(line, p2, ys);
    PrefixParts(line, p1, "Y");
    PrefixParts(line, "X", xs);
  }

  lemma {:induction false} CommandOfLayout(line: string, xs: string, ys: string, ds: string)
    requires IsSignedDigits(xs) && IsSignedDigits(ys) && |ds| >= 1 && AllDigits(ds)
    requires CommandLayout(line, xs, ys, ds)
    ensures CommandAt(line) == Some(Command(xs, ys, ds))
  {
    var xe := 1 + |xs|;
    var ye := xe + 1 + |ys|;
    var e := ye + 1 + |ds|;
    LayoutEnds(line, xs, ys, ds);
    CommandAtOfEnds(line, xe, ye, e, xs, ys, ds);
  }

  /** Where each of the three groups of a laid-out command line stops matching. */
  lemma {:induction false} LayoutEnds(line: string, xs: string, ys: string, ds: string)
    requires IsSignedDigits(xs) && IsSignedDigits(ys) && |ds| >= 1 && AllDigits(ds)
    requires CommandLayout(line, xs, ys, ds)
    ensures SignedDigitsEnd(line, 1) == Some(1 + |xs|)
    ensures SignedDigitsEnd(line, 2 + |xs|) == Some(2 + |xs| + |ys|)
    ensures Run(line, 3 + |xs| + |ys|, Digit) == |ds|
  {
    SignedGroupEnd(line, 1, xs);
    SignedGroupEnd(line, 2 + |xs|, ys);
    DigitGroupEnd(line, 3 + |xs| + |ys|, ds);
  }

  /** `CommandAt` once the three groups' ends are known. */
  lemma {:induction false} CommandAtOfEnds(line: string, xe: nat, ye: nat, e: nat, xs: string, ys: string, ds: string)
    requires 1 <= xe < ye < e < |line| && line[0] == 'X'
    requires SignedDigitsEnd(line, 1) == Some(xe) && line[xe] == 'Y'
    requires SignedDigitsEnd(line, xe + 1) == Some(ye) && line[ye] == 'D'
    requires ye + 1 + Run(line, ye + 1, Digit) == e && e > ye + 1 && line[e] == '*'
    requires line[1..xe] == xs && line[xe + 1..ye] == ys && line[ye + 1..e] == ds
    ensures CommandAt(line) == Some(Command(xs, ys, ds))
  {
    assert CommandAt(line) == CommandAfterX(line, xe);
    assert CommandAfterX(line, xe) == CommandAfterY(line, xe, ye);
  }

  /**
    A command line sets the position to its (x, y) whatever its D code; with
    an aperture selected, D01 adds a line from the previous position and D03
    a flash at (x, y); any other D code, or no aperture, adds nothing.
  */
  lemma {:induction false} CommandLine(st: ParserState, xs: string, ys: string, ds: string, rest: string)
    requires IsSignedDigits(xs) && IsSignedDigits(ys) && |ds| >= 1 && AllDigits(ds)
    ensures PyInt(xs).Some? && PyInt(ys).Some?
    ensures var r := LineStep(st, "X" + xs + "Y" + ys + "D" + ds + "*" + rest);
            var to := (Mm(PyInt(xs).value as real / Pow10(st.formatSpec.1) as real, st.unitScale),
                       Mm(PyInt(ys).value as real / Pow10(st.formatSpec.1) as real, st.unitScale));
            var d := DigitsValue(ds);
            && r.currentPos == to
            && r.apertures == st.apertures && r.currentAperture == st.currentAperture
            && r.unitScale == st.unitScale && r.formatSpec == st.formatSpec
            && r.elements == st.elements
                             + (if Truthy(st.currentAperture) && d == 1
                                then [Element(LineElement, st.currentAperture.value, st.currentPos, to)]
                                else if Truthy(st.currentAperture) && d == 3
                                then [Element(FlashElement, st.currentAperture.value, to, to)]
                                else [])
  {
    var line := "X" + xs + "Y" + ys + "D" + ds + "*" + rest;
    CommandOfText(xs, ys, ds, rest);
    assert SelectStep(st, line) == st;
    PyIntOfSignedText(xs);
    PyIntOfSignedText(ys);
    PyIntOfDigits(ds);
  }

  /** A line that neither selects an aperture nor matches the command pattern changes nothing. */
  lemma {:induction false} OtherLine(st: ParserState, line: string)
    requires SelectedCode(line).None? && CommandAt(line).None?
    ensures LineStep(st, line) == st
  {
  }

  class GerberParser {
    var apertures: map<int, Aperture>
    var elements: seq<Element>
    var currentAperture: Option<int>
    var currentPos: Point
    var unitScale: real
    var formatSpec: (nat, nat)

    function State(): ParserState
      reads this
    {
      ParserState(apertures, elements, currentAperture, currentPos, unitScale, formatSpec)
    }

    /** The class invariant. */
    predicate Valid()
      reads this
    {
      WellFormed(State())
    }

    constructor ()
      ensures State() == Initial && Valid()
    {
      apertures := map[];
      elements := [];
      currentAperture := None;
      currentPos := (0.0, 0.0);
      unitScale := 1.0;
      formatSpec := (3, 6);
    }

    /**
      `parse_file` on the text of the file. The elements accumulate across
      calls on the same parser; a size `float()` rejects raises ValueError,
      leaving the format, the units and the apertures defined before it.
    */
    method ParseFile(content: string) returns (r: Result<VisData>)
      requires Valid()
      modifies this
      ensures Valid()
      ensures ParseFileSpec(old(State()), content) == Outcome(State(), r)
    {
      ghost var st0 := State();
      var f := SearchFormat(content, 0);
      if f.Some? {
        formatSpec := f.value;
      }
      if Contains(content, "%MOIN*%") {
        unitScale := 25.4;
      } else {
        unitScale := 1.0;
      }
      ghost var st1 := State();
      assert st1 == Header(st0, content);
      var ok := DefineApertures(ApertureDefs(content, 0));
      if !ok {
        r := Failure(ValueError);
      } else {
        ghost var st2 := State();
        DrawLines(Split(content, '\n'));
        assert State() == Lines(st2, Split(content, '\n'));
        var vis := GenerateVisualizationData();
        r := Success(vis);
      }
      ParseFileWellFormed(st0, content);
    }

    /** The aperture definition loop; `false` once a definition raised. */
    method DefineApertures(defs: seq<ApertureDef>) returns (ok: bool)
      modifies this
      ensures State() == old(State()).(apertures := apertures)
      ensures DefineAll(old(apertures), defs, unitScale) == (apertures, ok)
    {
      ghost var aps0 := apertures;
      var k := 0;
      ok := true;
      while k < |defs| && ok
        invariant k <= |defs|
        invariant State() == old(State()).(apertures := apertures)
        invariant DefineAll(aps0, defs[..k], unitScale) == (apertures, ok)
        decreases |defs| - k, ok
      {
        var a := ApertureOf(defs[k], unitScale);
        if a.Failure? {
          ok := false;
        } else {
          apertures := apertures[a.value.code := a.value];
        }
        k := k + 1;
        DefineAllUnfold(aps0, defs, unitScale, k - 1, k);
      }
      if !ok {
        DefineAllStops(aps0, defs, unitScale, k);
      } else {
        assert defs[..k] == defs;
      }
    }

    /** The drawing loop over the lines of the file. */
    method DrawLines(lines: seq<string>)
      modifies this
      ensures State() == Lines(old(State()), lines)
    {
      ghost var st := State();
      var i := 0;
      while i < |lines|
        invariant i <= |lines|
        invariant State() == Lines(st, lines[..i])
      {
        ProcessLine(Strip(lines[i]));
        i := i + 1;
        LinesUnfold(st, lines, i - 1, i);
      }
      assert lines[..i] == lines;
    }

    /** The body of the drawing loop for one stripped line. */
    method ProcessLine(line: string)
      modifies this
      ensures State() == LineStep(old(State()), line)
    {
      if |line| >= 2 && line[0] == 'D' && line[|line| - 1] == '*' {
        var code := PyInt(line[1..|line| - 1]);
        if code.Some? && code.value >= 10 {
          currentAperture := Some(code.value);
        }
      }
      assert State() == SelectStep(old(State()), line);
      var m := CommandAt(line);
      if m.Some? {
        Draw(m.value);
      }
    }

    /** A move/draw command of the drawing loop. */
    method Draw(c: Command)
      requires IsSignedDigits(c.x) && IsSignedDigits(c.y) && |c.d| >= 1 && AllDigits(c.d)
      modifies this
      ensures State() == CommandStep(old(State()), c)
    {
      ghost var st := State();
      PyIntOfSignedText(c.x);
      PyIntOfSignedText(c.y);
      PyIntOfDigits(c.d);
      var x := ParseCoordinate(c.x, formatSpec, unitScale).value;
      var y := ParseCoordinate(c.y, formatSpec, unitScale).value;
      var d := PyInt(c.d).value;
      assert CommandStep(st, c) == MoveStep(st, x, y, d);
      Move(x, y, d);
    }

    /** The effect of a parsed command: a line (D01) or flash (D03) with a selected aperture, then the move. */
    method Move(x: real, y: real, d: int)
      modifies this
      ensures State() == MoveStep(old(State()), x, y, d)
    {
      ghost var st := State();
      if d == 1 {
        if currentAperture.Some? && currentAperture.value != 0 {
          elements := elements + [Element(LineElement, currentAperture.value, currentPos, (x, y))];
        }
      } else if d == 2 {
      } else if d == 3 {
        if currentAperture.Some? && currentAperture.value != 0 {
          elements := elements + [Element(FlashElement, currentAperture.value, (x, y), (x, y))];
        }
      }
      assert elements == st.elements + Drawn(st, d, (x, y));
      currentPos := (x, y);
      assert State() == MoveStep(st, x, y, d);
    }

    /** `_generate_visualization_data`: one entry per line element and per flash. */
    method GenerateVisualizationData() returns (v: VisData)
      requires Sized(apertures)
      ensures v == Visualize(State())
    {
      var lines: seq<LineData> := [];
      var pads: seq<PadData> := [];
      var i := 0;
      while i < |elements|
        invariant i <= |elements|
        invariant lines == LinesOf(elements[..i], apertures)
        invariant pads == PadsOf(elements[..i], apertures)
      {
        var e := elements[i];
        assert elements[..i + 1][..i] == elements[..i];
        var a := ApertureFor(apertures, e.aperture);
        if e.kind == LineElement {
          lines := lines + [LineData(e.start.0, e.start.1, e.end.0, e.end.1, a.size[0])];
        } else if e.kind == FlashElement {
          pads := pads + [PadData(e.start.0, e.start.1, a.shape, a.size)];
        }
        i := i + 1;
      }
      assert elements[..i] == elements;
      v := VisData(lines, pads, map k | k in apertures :: ApertureData(apertures[k].shape, apertures[k].size));
    }
  }
}

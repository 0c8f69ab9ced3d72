/**
  The Excellon drill parser of the PCB viewer (`parse_drill_file`).

  Each stripped line may define a tool (`T<n>C<inches>`), select a tool
  (`T<n>` with no 'C' anywhere on the line) and place a hole
  (`X<x>Y<y>`, only once a tool is selected). The three checks are made
  one after the other on every line. `LineStep`, `Lines` and
  `ParseDrillSpec` specify the loop of `ParseDrillFile`.
*/
module GerberDrill {
  import opened Wrappers
  import opened Text
  import opened Scan

  /** One entry of the `holes` list: coordinates as written, diameter in millimetres. */
  datatype Hole = Hole(x: real, y: real, diameter: real)

  /** The dictionary `parse_drill_file` returns. */
  datatype DrillData = DrillData(holes: seq<Hole>, tools: map<int, real>)

  /** The loop's variables `tools`, `holes` and `current_tool`. */
  datatype DrillState = DrillState(tools: map<int, real>, holes: seq<Hole>, currentTool: Option<int>)

  const Start: DrillState := DrillState(map[], [], None)

  /** Tool diameters are written in inches and stored in millimetres. */
  const InchToMm: real := 25.4

  /** The diameter of a hole whose tool was never defined. */
  const DefaultDiameter: real := 0.3

  // ---------------------------------------------------------------------
  // The two patterns

  /** The groups of a match of `T(\d+)C([0-9.]+)` at the start of a line. */
  datatype ToolDef = ToolDef(num: string, diameter: string)

  function ToolDefAt(line: string): (r: Option<ToolDef>)
    ensures r.Some? ==> |r.value.num| >= 1 && AllDigits(r.value.num)
    ensures r.Some? ==> r.value.diameter != [] && forall i :: 0 <= i < |r.value.diameter| ==> In(NumChar, r.value.diameter[i])
    ensures r.Some? ==> line != [] && line[0] == 'T' && 'C' in line
  {
    if line == [] || line[0] != 'T' then None
    else
      var n := Run(line, 1, Digit);
      if n == 0 || 1 + n >= |line| || line[1 + n] != 'C' then None
      else
        var m := Run(line, 2 + n, NumChar);
        if m == 0 then None
        else
          DigitRun(line, 1);
          RunFacts(line, 2 + n, NumChar);
          var d := line[2 + n..2 + n + m];
          assert forall i :: 0 <= i < |d| ==> d[i] == line[2 + n + i];
          Some(ToolDef(line[1..1 + n], d))
  }

  /** The two groups of a match of `X(-?[0-9.]+)Y(-?[0-9.]+)` at the start of a line. */
  function HoleAt(line: string): (r: Option<(string, string)>)
    ensures r.Some? ==> line != [] && line[0] == 'X'
  {
    if line == [] || line[0] != 'X' then None
    else
      match SignedNumEnd(line, 1)
      case None => None
      case Some(xe) =>
        if xe >= |line| || line[xe] != 'Y' then None
        else
          match SignedNumEnd(line, xe + 1)
          case None => None
          case Some(ye) => Some((line[1..xe], line[xe + 1..ye]))
  }

  /**
    A match's groups are signed numbers, the line opens with `X<x>Y<y>`,
    and the y group runs as far as `[0-9.]` does.
  */
  lemma {:induction false} HoleAtGroups(line: string)
    ensures var r := HoleAt(line);
            r.Some? ==> IsSignedNum(r.value.0) && IsSignedNum(r.value.1)
                        && var n := 2 + |r.value.0| + |r.value.1|;
                           n <= |line| && line[..n] == "X" + r.value.0 + "Y" + r.value.1
                           && (n == |line| || !In(NumChar, line[n]))
  {
    if line != [] && line[0] == 'X' && SignedNumEnd(line, 1).Some? {
      var xe := SignedNumEnd(line, 1).value;
      if xe < |line| && line[xe] == 'Y' && SignedNumEnd(line, xe + 1).Some? {
        var ye := SignedNumEnd(line, xe + 1).value;
        assert HoleAt(line) == Some((line[1..xe], line[xe + 1..ye]));
        assert line[..ye] == line[..1] + line[1..xe] + line[xe..xe + 1] + line[xe + 1..ye];
      }
    }
  }

  /** A coordinate line `X<x>Y<y>` whose y group ends there is matched with exactly those groups. */
  lemma {:induction false} HoleOfText(xs: string, ys: string, rest: string)
    requires IsSignedNum(xs) && IsSignedNum(ys)
    requires rest == [] || !In(NumChar, rest[0])
    ensures HoleAt("X" + xs + "Y" + ys + rest) == Some((xs, ys))
  {
    var line := "X" + xs + "Y" + ys + rest;
    var xe := 1 + |xs|;
    assert line[1..xe] == xs;
    assert line[xe] == 'Y';
    SignedNumSpan(line, 1, |xs|);
    assert line[xe + 1..xe + 1 + |ys|] == ys;
    if rest != [] { assert line[xe + 1 + |ys|] == rest[0]; }
    SignedNumSpan(line, xe + 1, |ys|);
  }

  // ---------------------------------------------------------------------
  // One line

  /**
    A tool definition stores the diameter under the tool number, in
    millimetres; `float()` of a malformed diameter such as "1.2.3" raises.
  */
  function ToolDefStep(st: DrillState, line: string): (r: Result<DrillState>)
    ensures ToolDefAt(line).None? ==> r == Success(st)
    ensures ToolDefAt(line).Some? && FloatOfNumeral(ToolDefAt(line).value.diameter).None? ==> r == Failure(ValueError)
    ensures ToolDefAt(line).Some? && FloatOfNumeral(ToolDefAt(line).value.diameter).Some? ==>
              r == Success(st.(tools := st.tools[DigitsValue(ToolDefAt(line).value.num) :=
                                               FloatOfNumeral(ToolDefAt(line).value.diameter).value * InchToMm]))
  {
    match ToolDefAt(line)
    case None => Success(st)
    case Some(t) =>
      match FloatOfNumeral(t.diameter)
      case None => Failure(ValueError)
      case Some(v) => Success(st.(tools := st.tools[DigitsValue(t.num) := v * InchToMm]))
  }

  /** A line starting with 'T' and holding no 'C' selects the tool `int()` reads after the 'T'. */
  function ToolSelectStep(st: DrillState, line: string): (r: DrillState)
    ensures r.tools == st.tools && r.holes == st.holes
    ensures r.currentTool != st.currentTool ==>
              line != [] && line[0] == 'T' && 'C' !in line && PyInt(line[1..]).Some? && r.currentTool == PyInt(line[1..])
  {
    if line != [] && line[0] == 'T' && 'C' !in line then
      match PyInt(line[1..])
      case Some(n) => st.(currentTool := Some(n))
      case None => st
    else st
  }

  /**
    A coordinate line adds a hole only while a tool is selected; its
    diameter is the tool's, or 0.3 when the tool was never defined.
  */
  function HoleStep(st: DrillState, line: string): (r: Result<DrillState>)
    ensures r.Success? ==> r.value.tools == st.tools && r.value.currentTool == st.currentTool
    ensures r.Success? ==> |st.holes| <= |r.value.holes| <= |st.holes| + 1 && r.value.holes[..|st.holes|] == st.holes
    ensures r.Success? && |r.value.holes| > |st.holes| ==>
              Truthy(st.currentTool) && HoleAt(line).Some?
              && r.value.holes[|st.holes|].diameter
                 == (if st.currentTool.value in st.tools then st.tools[st.currentTool.value] else DefaultDiameter)
    ensures r.Failure? ==> r.error == ValueError && Truthy(st.currentTool) && HoleAt(line).Some?
    ensures HoleAt(line).None? || !Truthy(st.currentTool) ==> r == Success(st)
  {
    match HoleAt(line)
    case None => Success(st)
    case Some(g) =>
      if !Truthy(st.currentTool) then Success(st)
      else
        match (FloatOfNumeral(g.0), FloatOfNumeral(g.1))
        case (Some(x), Some(y)) =>
          var t := st.currentTool.value;
          var dia := if t in st.tools then st.tools[t] else DefaultDiameter;
          Success(st.(holes := st.holes + [Hole(x, y, dia)]))
        case _ => Failure(ValueError)
  }

  /** The body of the loop for one stripped line: definition, then selection, then hole. */
  function LineStep(st: DrillState, line: string): (r: Result<DrillState>)
    ensures r.Failure? ==> r.error == ValueError
    ensures r.Success? ==> |st.holes| <= |r.value.holes| <= |st.holes| + 1 && r.value.holes[..|st.holes|] == st.holes
  {
    match ToolDefStep(st, line)
    case Failure(e) => Failure(e)
    case Success(st1) => HoleStep(ToolSelectStep(st1, line), line)
  }

  /** The loop over the stripped lines; the first exception ends it. */
  function Lines(st: DrillState, lines: seq<string>): (r: Result<DrillState>)
    ensures r.Failure? ==> r.error == ValueError
  {
    if lines == [] then Success(st)
    else
      match Lines(st, lines[..|lines| - 1])
      case Failure(e) => Failure(e)
      case Success(s) => LineStep(s, Strip(lines[|lines| - 1]))
  }

  /** The loop only appends holes, at most one per line. */
  lemma {:induction false} LinesAppendHoles(st: DrillState, lines: seq<string>)
    ensures var r := Lines(st, lines);
            r.Success? ==> |st.holes| <= |r.value.holes| <= |st.holes| + |lines| && r.value.holes[..|st.holes|] == st.holes
  {
    if lines != [] {
      var init := lines[..|lines| - 1];
      LinesAppendHoles(st, init);
      var r := Lines(st, lines);
      if r.Success? {
        var s := Lines(st, init).value;
        assert r == LineStep(s, Strip(lines[|lines| - 1]));
        PrefixOfPrefix(st.holes, s.holes, r.value.holes);
      }
    }
  }

  lemma {:induction false} PrefixOfPrefix(a: seq<Hole>, b: seq<Hole>, c: seq<Hole>)
    requires |a| <= |b| <= |c| && c[..|b|] == b && b[..|a|] == a
    ensures c[..|a|] == a
  {
    assert c[..|a|] == c[..|b|][..|a|];
  }

  lemma {:induction false} LinesUnfold(st: DrillState, lines: seq<string>, i: nat, i2: nat)
    requires i < |lines| && i2 == i + 1
    ensures Lines(st, lines[..i2]) == match Lines(st, lines[..i])
                                      case Failure(e) => Failure(e)
                                      case Success(s) => LineStep(s, Strip(lines[i]))
  {
    assert lines[..i2][..i] == lines[..i];
  }

  /** Once a line has raised, the later lines are never read. */
  lemma {:induction false} LinesStop(st: DrillState, lines: seq<string>, i: nat)
    requires i <= |lines| && Lines(st, lines[..i]).Failure?
    ensures Lines(st, lines) == Lines(st, lines[..i])
    decreases |lines| - i
  {
    if i < |lines| {
      LinesUnfold(st, lines, i, i + 1);
      LinesStop(st, lines, i + 1);
    } else {
      assert lines[..i] == lines;
    }
  }

  /** `parse_drill_file` on the text of the file. */
  function ParseDrillSpec(content: string): (r: Result<DrillData>)
    ensures r.Failure? ==> r.error == ValueError
  {
    match Lines(Start, Split(content, '\n'))
    case Failure(e) => Failure(e)
    case Success(s) => Success(DrillData(s.holes, s.tools))
  }

  // ---------------------------------------------------------------------
  // Properties

  /** Diameters are never negative: `[0-9.]+` has no sign, and 0.3 is positive. */
  predicate WellFormed(st: DrillState)
  {
    && (forall t :: t in st.tools ==> st.tools[t] >= 0.0)
    && (forall i :: 0 <= i < |st.holes| ==> st.holes[i].diameter >= 0.0)
  }

  /** `float()` of a run of digits and points is never negative. */
  lemma {:induction false} FloatOfUnsigned(s: string)
    requires s != [] && forall i :: 0 <= i < |s| ==> In(NumChar, s[i])
    ensures FloatOfNumeral(s).Some? ==> FloatOfNumeral(s).value >= 0.0
  {
    assert s[0] != '-' by { assert In(NumChar, s[0]); }
    if '.' in s {
      var k := IndexOf(s, '.');
      var a, b := s[..k], s[k + 1..];
      if DecimalParts(a, b).Some? {
        var p := Pow10(|b|) as real;
        var f := (DigitsValue(b) as real) / p;
        assert f * p == DigitsValue(b) as real;
        assert f >= 0.0;
      }
    }
  }

  lemma {:induction false} LineStepWellFormed(st: DrillState, line: string)
    requires WellFormed(st) && LineStep(st, line).Success?
    ensures WellFormed(LineStep(st, line).value)
  {
    var st1 := ToolDefStep(st, line).value;
    match ToolDefAt(line)
    case None =>
    case Some(t) => FloatOfUnsigned(t.diameter);
    assert WellFormed(st1);
    var st2 := ToolSelectStep(st1, line);
    var r := HoleStep(st2, line).value;
    forall i | 0 <= i < |r.holes| ensures r.holes[i].diameter >= 0.0 {
      if i < |st2.holes| {
        assert r.holes[i] == r.holes[..|st2.holes|][i];
      }
    }
  }

  /** Every tool and hole diameter the parser records is nonnegative. */
  lemma {:induction false} LinesWellFormed(st: DrillState, lines: seq<string>)
    requires WellFormed(st) && Lines(st, lines).Success?
    ensures WellFormed(Lines(st, lines).value)
  {
    if lines != [] {
      LinesWellFormed(st, lines[..|lines| - 1]);
      LineStepWellFormed(Lines(st, lines[..|lines| - 1]).value, Strip(lines[|lines| - 1]));
    }
  }

  /** `T<n>` selects tool n and changes nothing else. */
  lemma {:induction false} ToolSelectLine(st: DrillState, n: nat)
    ensures LineStep(st, "T" + NatToString(n)) == Success(st.(currentTool := Some(n)))
  {
    var d := NatToString(n);
    var line := "T" + d;
    assert line[1..] == d;
    assert 'C' !in line by {
      forall i | 0 <= i < |line| ensures line[i] != 'C' {
        if i > 0 { assert line[i] == d[i - 1]; assert IsDigit(d[i - 1]); }
      }
    }
    NoToolDef(line);
    PyIntOfDigits(d);
    NatToStringValue(n);
    assert ToolSelectStep(st, line) == st.(currentTool := Some(n));
    assert HoleAt(line).None?;
  }

  lemma {:induction false} NoToolDef(line: string)
    requires 'C' !in line
    ensures ToolDefAt(line).None?
  {
  }

  /**
    `T<digits>C<size>` defines the tool with that number and a diameter of
    25.4 times the size, or raises when `float()` rejects the size.
  */
  lemma {:induction false} ToolDefLine(st: DrillState, ds: string, vs: string)
    requires |ds| >= 1 && AllDigits(ds)
    requires vs != [] && forall i :: 0 <= i < |vs| ==> In(NumChar, vs[i])
    ensures LineStep(st, "T" + ds + "C" + vs)
            == match FloatOfNumeral(vs)
               case None => Failure(ValueError)
               case Some(v) => Success(st.(tools := st.tools[DigitsValue(ds) := v * InchToMm]))
  {
    var line := "T" + ds + "C" + vs;
    ToolDefOfText(line, ds, vs);
    ToolDefLineStep(st, line, ToolDef(ds, vs));
  }

  /** A line that matches the tool pattern neither selects a tool nor places a hole. */
  lemma {:induction false} ToolDefLineStep(st: DrillState, line: string, t: ToolDef)
    requires ToolDefAt(line) == Some(t)
    ensures LineStep(st, line)
            == match FloatOfNumeral(t.diameter)
               case None => Failure(ValueError)
               case Some(v) => Success(st.(tools := st.tools[DigitsValue(t.num) := v * InchToMm]))
  {
    match FloatOfNumeral(t.diameter)
    case None =>
    case Some(v) =>
      var st1 := st.(tools := st.tools[DigitsValue(t.num) := v * InchToMm]);
      assert ToolSelectStep(st1, line) == st1;
      assert HoleAt(line).None?;
  }

  lemma {:induction false} ToolDefOfText(line: string, ds: string, vs: string)
    requires |ds| >= 1 && AllDigits(ds)
    requires vs != [] && forall i :: 0 <= i < |vs| ==> In(NumChar, vs[i])
    requires line == "T" + ds + "C" + vs
    ensures ToolDefAt(line) == Some(ToolDef(ds, vs))
  {
    PrefixParts(line, "T" + ds + "C", vs);
    PrefixParts(line, "T" + ds, "C");
    PrefixParts(line, "T", ds);
    ToolDefOfLayout(line, ds, vs);
  }

  /** Where the pieces of a tool definition line sit. */
  predicate ToolDefLayout(line: string, ds: string, vs: string)
  {
    && |line| == 2 + |ds| + |vs| && line[0] == 'T' && line[1..1 + |ds|] == ds
    && line[1 + |ds|] == 'C' && line[2 + |ds|..2 + |ds| + |vs|] == vs
  }

  lemma {:induction false} ToolDefOfLayout(line: string, ds: string, vs: string)
    requires |ds| >= 1 && AllDigits(ds)
    requires vs != [] && forall i :: 0 <= i < |vs| ==> In(NumChar, vs[i])
    requires ToolDefLayout(line, ds, vs)
    ensures ToolDefAt(line) == Some(ToolDef(ds, vs))
  {
    var n := |ds|;
    DigitGroupEnd(line, 1, ds);
    NumCharsToEnd(line, 2 + n, vs);
  }

  /** A run of digits and points reaching the end of the text is the whole `[0-9.]+` run. */
  lemma {:induction false} NumCharsToEnd(s: string, k: nat, v: string)
    requires k + |v| == |s| && s[k..] == v && forall i :: 0 <= i < |v| ==> In(NumChar, v[i])
    ensures Run(s, k, NumChar) == |v|
  {
    forall i | k <= i < k + |v| ensures In(NumChar, s[i]) {
      assert s[i] == v[i - k];
    }
    RunSpan(s, k, |v|, NumChar);
  }

  /** The first hole line after `T<n>`: a hole with tool n's diameter, or 0.3 when n is undefined. */
  lemma {:induction false} HoleAfterSelect(st: DrillState, n: nat, line: string)
    requires n != 0 && HoleAt(line).Some? && ToolDefAt(line).None?
    requires FloatOfNumeral(HoleAt(line).value.0).Some? && FloatOfNumeral(HoleAt(line).value.1).Some?
    ensures var s := st.(currentTool := Some(n));
            LineStep(s, line) == Success(s.(holes := st.holes + [Hole(FloatOfNumeral(HoleAt(line).value.0).value,
                                                                   FloatOfNumeral(HoleAt(line).value.1).value,
                                                                   if n in st.tools then st.tools[n] else DefaultDiameter)]))
  {
    var s := st.(currentTool := Some(n));
    assert ToolSelectStep(s, line) == s;
  }

  // ---------------------------------------------------------------------
  // The parser

  /**
    `parse_drill_file` on the text of the file: the loop over its stripped
    lines, updating `tools`, `holes` and `current_tool`.
  */
  method ParseDrillFile(content: string) returns (r: Result<DrillData>)
    ensures r == ParseDrillSpec(content)
  {
    var lines := Split(content, '\n');
    var ok, tools, holes, currentTool := ParseLines(lines);
    if !ok {
      r := Failure(ValueError);
    } else {
      r := Success(DrillData(holes, tools));
    }
  }

  /** The loop over the lines; `false` once a line raised. */
  method ParseLines(lines: seq<string>) returns (ok: bool, tools: map<int, real>, holes: seq<Hole>, currentTool: Option<int>)
    ensures ok ==> Lines(Start, lines) == Success(DrillState(tools, holes, currentTool))
    ensures !ok ==> Lines(Start, lines) == Failure(ValueError)
  {
    tools, holes, currentTool := map[], [], None;
    ok := true;
    var i := 0;
    while i < |lines| && ok
      invariant i <= |lines|
      invariant ok ==> Lines(Start, lines[..i]) == Success(DrillState(tools, holes, currentTool))
      invariant !ok ==> Lines(Start, lines[..i]) == Failure(ValueError)
      decreases |lines| - i, ok
    {
      ok, tools, holes, currentTool := ParseLine(tools, holes, currentTool, Strip(lines[i]));
      i := i + 1;
      LinesUnfold(Start, lines, i - 1, i);
    }
    if !ok {
      LinesStop(Start, lines, i);
    } else {
      assert lines[..i] == lines;
    }
  }

  /** What `parse_drill_file` returns never holds a negative diameter. */
  lemma {:induction false} ParseDrillWellFormed(content: string)
    requires ParseDrillSpec(content).Success?
    ensures var d := ParseDrillSpec(content).value;
            && (forall i :: 0 <= i < |d.holes| ==> d.holes[i].diameter >= 0.0)
            && (forall t :: t in d.tools ==> d.tools[t] >= 0.0)
  {
    LinesWellFormed(Start, Split(content, '\n'));
  }

  /** The body of the loop for one stripped line; `false` when `float()` raised. */
  method ParseLine(tools: map<int, real>, holes: seq<Hole>, currentTool: Option<int>, line: string)
    returns (ok: bool, tools': map<int, real>, holes': seq<Hole>, currentTool': Option<int>)
    ensures var r := LineStep(DrillState(tools, holes, currentTool), line);
            (ok ==> r == Success(DrillState(tools', holes', currentTool')))
            && (!ok ==> r == Failure(ValueError))
  {
    tools', holes', currentTool' := tools, holes, currentTool;
    ok := true;
    var td := ToolDefAt(line);
    if td.Some? {
      var v := FloatOfNumeral(td.value.diameter);
      if v.None? {
        ok := false;
      } else {
        tools' := tools'[DigitsValue(td.value.num) := v.value * InchToMm];
      }
    }
    if ok {
      if line != [] && line[0] == 'T' && 'C' !in line {
        var n := PyInt(line[1..]);
        if n.Some? {
          currentTool' := n;
        }
      }
      var h := HoleAt(line);
      if h.Some? && currentTool'.Some? && currentTool'.value != 0 {
        var x := FloatOfNumeral(h.value.0);
        var y := FloatOfNumeral(h.value.1);
        if x.None? || y.None? {
          ok := false;
        } else {
          var dia := if currentTool'.value in tools' then tools'[currentTool'.value] else DefaultDiameter;
          holes' := holes' + [Hole(x.value, y.value, dia)];
        }
      }
    }
  }
}

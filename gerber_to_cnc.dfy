/**
  The Gerber to G-code translator (`GerberToCNC`).

  `convert_file` writes a fixed header, then one G-code move for every
  stripped input line holding `X<digits>Y<digits>D<digits>` whose D group
  is exactly "02" (a rapid move, G00) or "01" (a cut, G01), then a fixed
  footer. `convert_all` converts the files whose extension marks a Gerber
  or drill layer. The text written is modelled as the list of its lines,
  each of which the source ends with a newline.
*/
module GerberToCnc {
  import opened Wrappers
  import opened Text
  import opened Scan

  // ---------------------------------------------------------------------
  // Coordinates

  /** `parse_coordinate`: an integer in millionths of an inch, or 0.0 when `int()` raises. */
  function ParseCoordinate(valStr: string): (r: real)
    ensures PyInt(valStr).None? ==> r == 0.0
    ensures PyInt(valStr).Some? ==> r * 1000000.0 == PyInt(valStr).value as real
  {
    match PyInt(valStr)
    case Some(v) => v as real / 1000000.0
    case None => 0.0
  }

  /** `str(n)` read back: n millionths. */
  lemma {:induction false} ParseCoordinateOfInt(n: int)
    ensures ParseCoordinate(IntToString(n)) == n as real / 1000000.0
  {
    IntToStringRoundTrip(n);
  }

  /** Text that is not an integer, such as a decimal "1.5" or a blank, reads as 0.0. */
  lemma {:induction false} ParseCoordinateOfDecimal(valStr: string)
    requires '.' in valStr || AllSpace(valStr)
    ensures ParseCoordinate(valStr) == 0.0
  {
    if '.' in valStr {
      PyIntRejectsDot(valStr);
    } else {
      PyIntRejectsBlank(valStr);
    }
  }

  /**
    f"{parse_coordinate(s):.6f}" for a digit group s: `int()` reads s as its
    value n, and n / 1e6 is written with six decimals.
  */
  function Coord(s: string): (r: string)
    requires |s| >= 1 && AllDigits(s)
    ensures '.' in r
  {
    FormatFixed6(DigitsValue(s))
  }

  /**
    The number written for a group reads back, through `float()`, as the
    group's value in millionths: the coordinate `parse_coordinate` reads
    from the same group (ParseCoordinateOfDigits).
  */
  lemma {:induction false} CoordValue(s: string)
    requires |s| >= 1 && AllDigits(s)
    ensures FloatOfNumeral(Coord(s)) == Some(DigitsValue(s) as real / 1000000.0)
  {
    FormatFixed6RoundTrip(DigitsValue(s));
  }

  /** A digit group reads as its value in millionths. */
  lemma {:induction false} ParseCoordinateOfDigits(s: string)
    requires |s| >= 1 && AllDigits(s)
    ensures ParseCoordinate(s) == DigitsValue(s) as real / 1000000.0
  {
    PyIntOfDigits(s);
  }

  // ---------------------------------------------------------------------
  // The move pattern

  /** The groups of a match of `X(\d+)Y(\d+)D(\d+)`. */
  datatype Move = Move(x: string, y: string, d: string)

  predicate DigitGroups(m: Move)
  {
    |m.x| >= 1 && AllDigits(m.x) && |m.y| >= 1 && AllDigits(m.y) && |m.d| >= 1 && AllDigits(m.d)
  }

  /** The pattern matched at position j. */
  function MoveAt(line: string, j: nat): (r: Option<Move>)
    requires j <= |line|
    ensures r.Some? ==> DigitGroups(r.value)
  {
    if j >= |line| || line[j] != 'X' then None
    else
      var a := j + 1 + Run(line, j + 1, Digit);
      if a == j + 1 || a >= |line| || line[a] != 'Y' then None
      else
        DigitRun(line, j + 1);
        MoveAfterX(line, j, a)
  }

  /** The rest of the match once `X` at j and its digits, ending at a, have matched. */
  function MoveAfterX(line: string, j: nat, a: nat): (r: Option<Move>)
    requires j + 1 < a < |line| && AllDigits(line[j + 1..a])
    ensures r.Some? ==> DigitGroups(r.value) && r.value.x == line[j + 1..a]
  {
    var b := a + 1 + Run(line, a + 1, Digit);
    if b == a + 1 || b >= |line| || line[b] != 'D' then None
    else
      var c := b + 1 + Run(line, b + 1, Digit);
      if c == b + 1 then None
      else
        DigitRun(line, a + 1);
        DigitRun(line, b + 1);
        Some(Move(line[j + 1..a], line[a + 1..b], line[b + 1..c]))
  }

  /**
    `coord_pattern.search(line)` from position k on: the match at the least
    position where the pattern matches, or None when it matches nowhere.
  */
  function SearchMove(line: string, k: nat): (r: Option<Move>)
    requires k <= |line|
    ensures r.None? <==> forall j :: k <= j < |line| ==> MoveAt(line, j).None?
    ensures r.Some? ==> exists j :: k <= j < |line| && r == MoveAt(line, j)
                                    && forall i :: k <= i < j ==> MoveAt(line, i).None?
    ensures r.Some? ==> DigitGroups(r.value)
    decreases |line| - k
  {
    if k >= |line| then None
    else if MoveAt(line, k).Some? then MoveAt(line, k)
    else SearchMove(line, k + 1)
  }

  // ---------------------------------------------------------------------
  // The translation

  /** The G-code a matched move becomes: G00 for "02", G01 at feed 10 for "01", nothing otherwise. */
  function MoveCode(m: Move): (out: seq<string>)
    requires DigitGroups(m)
    ensures |out| <= 1
    ensures out != [] <==> m.d == "02" || m.d == "01"
  {
    if m.d == "02" then ["G00 X" + Coord(m.x) + " Y" + Coord(m.y)]
    else if m.d == "01" then ["G01 X" + Coord(m.x) + " Y" + Coord(m.y) + " F10.0"]
    else []
  }

  /** What one stripped input line contributes; an empty line is skipped. */
  function Emit(line: string): (out: seq<string>)
    ensures |out| <= 1
  {
    if line == [] then []
    else
      match SearchMove(line, 0)
      case None => []
      case Some(m) => MoveCode(m)
  }

  /** The moves of the input lines, in input order. */
  function Moves(lines: seq<string>): (r: seq<string>)
    ensures |r| <= |lines|
  {
    if lines == [] then [] else Moves(lines[..|lines| - 1]) + Emit(Strip(lines[|lines| - 1]))
  }

  lemma {:induction false} MovesUnfold(lines: seq<string>, i: nat, i2: nat)
    requires i < |lines| && i2 == i + 1
    ensures Moves(lines[..i2]) == Moves(lines[..i]) + Emit(Strip(lines[i]))
  {
    assert lines[..i2][..i] == lines[..i];
  }

  function Header(filename: string): (h: seq<string>)
    ensures |h| == 7 && h[0] == "%" && h[1] == "(Converted from " + filename + ")"
  {
    ["%", "(Converted from " + filename + ")", "G20 (Units: Inches)", "G90 (Absolute coordinates)",
     "G17 (XY Plane)", "G00 Z0.1 (Safe height)", "M03 S1000 (Spindle on)"]
  }

  const Footer: seq<string> := ["M05 (Spindle off)", "M30 (End program)", "%"]

  /** The lines `convert_file` writes for an input file with this name and text. */
  function ConvertSpec(filename: string, content: string): (out: seq<string>)
    ensures |out| >= 10 && out[..7] == Header(filename) && out[|out| - 3..] == Footer
  {
    ThreeParts(Header(filename), Moves(Split(content, '\n')), Footer);
    Header(filename) + Moves(Split(content, '\n')) + Footer
  }

  /**
    `os.path.join(a, b)` on POSIX: an absolute b replaces a; otherwise b goes
    after a, with one '/' between them unless a is empty or already ends
    with one.
  */
  function JoinPath(a: string, b: string): (p: string)
    ensures EndsWith(p, b)
    ensures b != [] && b[0] == '/' ==> p == b
    ensures (b == [] || b[0] != '/') && (a == [] || a[|a| - 1] == '/') ==> p == a + b
    ensures (b == [] || b[0] != '/') && a != [] && a[|a| - 1] != '/' ==> p == a + "/" + b
  {
    if b != [] && b[0] == '/' then b
    else if a == [] || a[|a| - 1] == '/' then a + b
    else a + "/" + b
  }

  /** The path `convert_file` writes to and returns: the input name with ".nc" appended. */
  function OutputPath(outputDir: string, filename: string): (p: string)
    ensures EndsWith(p, filename + ".nc")
  {
    JoinPath(outputDir, filename + ".nc")
  }

  // ---------------------------------------------------------------------
  // Properties

  /** A move line is a G00 or a G01 line. */
  predicate IsMoveLine(s: string)
  {
    StartsWith(s, "G00 X") || StartsWith(s, "G01 X")
  }

  predicate AllMoveLines(out: seq<string>)
  {
    forall i :: 0 <= i < |out| ==> IsMoveLine(out[i])
  }

  lemma {:induction false} AppendMoveLines(a: seq<string>, b: seq<string>)
    requires AllMoveLines(a) && AllMoveLines(b)
    ensures AllMoveLines(a + b)
  {
    forall i | 0 <= i < |a + b| ensures IsMoveLine((a + b)[i]) {
      if i < |a| {
        assert (a + b)[i] == a[i];
      } else {
        assert (a + b)[i] == b[i - |a|];
      }
    }
  }

  /** The moves are G00/G01 lines, at most one per input line. */
  lemma {:induction false} MovesShape(lines: seq<string>)
    ensures |Moves(lines)| <= |lines|
    ensures AllMoveLines(Moves(lines))
  {
    if lines != [] {
      var init := lines[..|lines| - 1];
      MovesShape(init);
      EmitShape(Strip(lines[|lines| - 1]));
      AppendMoveLines(Moves(init), Emit(Strip(lines[|lines| - 1])));
    }
  }

  lemma {:induction false} EmitShape(line: string)
    ensures AllMoveLines(Emit(line))
  {
    if line != [] && SearchMove(line, 0).Some? {
      var m := SearchMove(line, 0).value;
      if m.d == "02" {
        Opens("G00 X", Coord(m.x), " Y", Coord(m.y), "");
        assert "G00 X" + Coord(m.x) + " Y" + Coord(m.y) + "" == "G00 X" + Coord(m.x) + " Y" + Coord(m.y);
      } else if m.d == "01" {
        Opens("G01 X", Coord(m.x), " Y", Coord(m.y), " F10.0");
      }
    }
  }

  lemma {:induction false} Opens(a: string, b: string, c: string, d: string, e: string)
    ensures StartsWith(a + b + c + d + e, a)
  {
    assert (a + b + c + d + e)[..|a|] == a;
  }

  /** The output opens with the seven header lines and closes with the three footer lines. */
  lemma {:induction false} ConvertShape(filename: string, content: string)
    ensures var out := ConvertSpec(filename, content);
            && |out| == 10 + |Moves(Split(content, '\n'))|
            && out[..7] == Header(filename)
            && out[|out| - 3..] == Footer
            && out[7..|out| - 3] == Moves(Split(content, '\n'))
  {
    assert |Header(filename)| == 7 && |Footer| == 3;
    ThreeParts(Header(filename), Moves(Split(content, '\n')), Footer);
  }

  lemma {:induction false} ThreeParts(h: seq<string>, m: seq<string>, f: seq<string>)
    ensures var out := h + m + f;
            && out[..|h|] == h && out[|h|..|out| - |f|] == m && out[|out| - |f|..] == f
  {
    var out := h + m + f;
    assert out[..|h|] == h;
    assert out[|h|..|out| - |f|] == m;
    assert out[|out| - |f|..] == f;
  }

  /** A text laid out as `X<xs>Y<ys>D<ds>*` at its start. */
  predicate MoveLayout(line: string, m: Move)
  {
    var a := 1 + |m.x|;
    var b := a + 1 + |m.y|;
    var c := b + 1 + |m.d|;
    && c < |line| && line[0] == 'X' && line[1..a] == m.x && line[a] == 'Y'
    && line[a + 1..b] == m.y && line[b] == 'D' && line[b + 1..c] == m.d && line[c] == '*'
  }

  lemma {:induction false} MoveTextLayout(m: Move, rest: string)
    ensures MoveLayout("X" + m.x + "Y" + m.y + "D" + m.d + "*" + rest, m)
  {
    var p1 := "X" + m.x;
    var p2 := p1 + "Y";
    var p3 := p2 + m.y;
    var p4 := p3 + "D";
    var p5 := p4 + m.d;
    var p6 := p5 + "*";
    var line := p6 + rest;
    PrefixParts(line, p6, rest);
    PrefixParts(line, p5, "*");
    PrefixParts(line, p4, m.d);
    PrefixParts(line, p3, "D");
    PrefixParts(line, p2, m.y);
    PrefixParts(line, p1, "Y");
    PrefixParts(line, "X", m.x);
  }

  /** Where the three digit groups of a laid-out move line stop. */
  lemma {:induction false} MoveLayoutEnds(line: string, m: Move)
    requires DigitGroups(m) && MoveLayout(line, m)
    ensures Run(line, 1, Digit) == |m.x|
    ensures Run(line, 2 + |m.x|, Digit) == |m.y|
    ensures Run(line, 3 + |m.x| + |m.y|, Digit) == |m.d|
  {
    DigitGroupEnd(line, 1, m.x);
    DigitGroupEnd(line, 2 + |m.x|, m.y);
    DigitGroupEnd(line, 3 + |m.x| + |m.y|, m.d);
  }

  lemma {:induction false} MoveOfLayout(line: string, m: Move)
    requires DigitGroups(m) && MoveLayout(line, m)
    ensures SearchMove(line, 0) == Some(m)
  {
    var a := 1 + |m.x|;
    MoveLayoutEnds(line, m);
    assert MoveAfterX(line, 0, a) == Some(m);
    assert MoveAt(line, 0) == Some(m);
  }

  /**
    A Gerber move `X<xs>Y<ys>D<ds>*` becomes one G00 line for D02, one G01
    line with feed 10 for D01, and nothing for any other D group.
  */
  lemma {:induction false} TranslateLine(m: Move, rest: string)
    requires DigitGroups(m)
    ensures Emit("X" + m.x + "Y" + m.y + "D" + m.d + "*" + rest)
            == if m.d == "02" then ["G00 X" + Coord(m.x) + " Y" + Coord(m.y)]
               else if m.d == "01" then ["G01 X" + Coord(m.x) + " Y" + Coord(m.y) + " F10.0"]
               else []
  {
    var line := "X" + m.x + "Y" + m.y + "D" + m.d + "*" + rest;
    MoveTextLayout(m, rest);
    MoveOfLayout(line, m);
  }

  // ---------------------------------------------------------------------
  // The extension filter

  /** Position of the last `c` in `s`. */
  function RFind(s: string, c: char): (r: Option<nat>)
    ensures r.Some? ==> r.value < |s| && s[r.value] == c
  {
    if s == [] then None
    else if s[|s| - 1] == c then Some(|s| - 1)
    else RFind(s[..|s| - 1], c)
  }

  /** `rfind` finds the last occurrence, and fails only when there is none. */
  lemma {:induction false} RFindLast(s: string, c: char)
    ensures RFind(s, c).Some? ==> c !in s[RFind(s, c).value + 1..]
    ensures RFind(s, c).None? ==> c !in s
  {
    if s != [] && s[|s| - 1] != c {
      var r := RFind(s[..|s| - 1], c);
      RFindLast(s[..|s| - 1], c);
      assert s == s[..|s| - 1] + [s[|s| - 1]];
      assert r.Some? ==> s[r.value + 1..] == s[..|s| - 1][r.value + 1..] + [s[|s| - 1]];
    }
  }

  /** And a last occurrence is what `rfind` finds. */
  lemma {:induction false} RFindOfLast(s: string, c: char, k: nat)
    requires k < |s| && s[k] == c && c !in s[k + 1..]
    ensures RFind(s, c) == Some(k)
    decreases |s|
  {
    if k < |s| - 1 {
      assert s[|s| - 1] in s[k + 1..];
      var t := s[..|s| - 1];
      assert t[k + 1..] == s[k + 1..][..|s| - k - 2];
      RFindOfLast(t, c, k);
    }
  }

  predicate AllDots(s: string) { forall i :: 0 <= i < |s| ==> s[i] == '.' }

  /**
    The extension `os.path.splitext` takes: from the last '.' after the last
    '/', provided something other than dots precedes it in the file name.
  */
  function Ext(p: string): (ext: string)
    ensures ext == [] || (ext[0] == '.' && EndsWith(p, ext))
  {
    var dot := RFind(p, '.');
    var sep := RFind(p, '/');
    if dot.None? || (sep.Some? && dot.value < sep.value) then []
    else
      var start := if sep.Some? then sep.value + 1 else 0;
      if AllDots(p[start..dot.value]) then [] else p[dot.value..]
  }

  /** An extension is empty or a dot followed by text free of dots and slashes, and it ends the path. */
  lemma {:induction false} ExtShape(p: string)
    ensures var ext := Ext(p); ext == [] || (ext[0] == '.' && '.' !in ext[1..] && '/' !in ext && EndsWith(p, ext))
  {
    var dot := RFind(p, '.');
    var sep := RFind(p, '/');
    RFindLast(p, '.');
    RFindLast(p, '/');
    if Ext(p) != [] {
      var ext := p[dot.value..];
      assert ext[1..] == p[dot.value + 1..];
    }
  }

  /** The extensions of the standard layers and of the drill file. */
  const LayerExtensions: seq<string> := [".gtl", ".gbl", ".gts", ".gbs", ".gto", ".gbo", ".gm1", ".drl"]

  /** `re.match(r'\.g\d+', ext)`: ".g" and a digit at the start. */
  predicate NumberedLayer(ext: string)
  {
    |ext| >= 3 && ext[0] == '.' && ext[1] == 'g' && IsDigit(ext[2])
  }

  /** The extension test of `convert_all`, on the lower-cased extension. */
  predicate LayerFile(filename: string)
    ensures LayerFile(filename) ==> |Ext(filename)| >= 3 && Ext(filename)[0] == '.'
  {
    var ext := Lower(Ext(filename));
    LowerAt(Ext(filename));
    ext in LayerExtensions || NumberedLayer(ext)
  }

  /** A file `convert_all` converts: a layer file that is not the readme. */
  predicate Converted(filename: string)
    ensures Converted(filename) ==> |Ext(filename)| >= 3 && filename != "readme.txt"
  {
    LowerAt(filename);
    assert filename == "readme.txt" ==> Lower(filename) == filename;
    LayerFile(filename) && Lower(filename) != "readme.txt"
  }

  /**
    The names a filter `keep` lets through, in listing order. The lemmas
    below hold for any filter; `convert_all` filters with `Converted`.
  */
  function Selected(names: seq<string>, keep: string -> bool): (r: seq<string>)
    ensures |r| <= |names|
  {
    if names == [] then []
    else Selected(names[..|names| - 1], keep) + (if keep(names[|names| - 1]) then [names[|names| - 1]] else [])
  }

  /** Every name selected passes the filter, and it is one of the names listed. */
  lemma {:induction false} SelectedKept(names: seq<string>, keep: string -> bool)
    ensures forall i :: 0 <= i < |Selected(names, keep)| ==> keep(Selected(names, keep)[i]) && Selected(names, keep)[i] in names
  {
    if names != [] {
      var init := names[..|names| - 1];
      SelectedKept(init, keep);
      var sel := Selected(names, keep);
      forall i | 0 <= i < |sel| ensures keep(sel[i]) && sel[i] in names {
        if i < |Selected(init, keep)| {
          assert sel[i] == Selected(init, keep)[i];
          assert Selected(init, keep)[i] in init;
        } else {
          assert sel[i] == names[|names| - 1];
        }
      }
    }
  }

  /**
    A listed name that passes the filter is selected, at the position given
    by the number of names before it that pass.
  */
  lemma {:induction false} KeptSelected(names: seq<string>, keep: string -> bool, k: nat)
    requires k < |names| && keep(names[k])
    ensures |Selected(names[..k], keep)| < |Selected(names, keep)|
    ensures Selected(names, keep)[|Selected(names[..k], keep)|] == names[k]
  {
    var n := |names| - 1;
    assert names[..n][..k] == names[..k];
    if k < n {
      assert names[..n][k] == names[k];
      KeptSelected(names[..n], keep, k);
    }
  }

  /** The output paths `convert_all` returns: one per name that passes, in listing order. */
  function Generated(outputDir: string, names: seq<string>, keep: string -> bool): (r: seq<string>)
    ensures |r| == |Selected(names, keep)|
  {
    if names == [] then []
    else
      var last := names[|names| - 1];
      Generated(outputDir, names[..|names| - 1], keep) + (if keep(last) then [OutputPath(outputDir, last)] else [])
  }

  /** The i-th path returned is the output path of the i-th name selected. */
  lemma {:induction false} GeneratedPaths(outputDir: string, names: seq<string>, keep: string -> bool)
    ensures forall i :: 0 <= i < |Generated(outputDir, names, keep)| ==>
              Generated(outputDir, names, keep)[i] == OutputPath(outputDir, Selected(names, keep)[i])
  {
    if names != [] {
      var init := names[..|names| - 1];
      GeneratedPaths(outputDir, init, keep);
      var g, sel := Generated(outputDir, names, keep), Selected(names, keep);
      forall i | 0 <= i < |g| ensures g[i] == OutputPath(outputDir, sel[i]) {
        if i < |Selected(init, keep)| {
          assert g[i] == Generated(outputDir, init, keep)[i];
          assert sel[i] == Selected(init, keep)[i];
        }
      }
    }
  }

  /** The names that pass, each with its text, in listing order. */
  function Jobs(names: seq<string>, contents: seq<string>, keep: string -> bool): (r: seq<(string, string)>)
    requires |contents| == |names|
    ensures |r| == |Selected(names, keep)|
  {
    if names == [] then []
    else
      var n := |names| - 1;
      Jobs(names[..n], contents[..n], keep) + (if keep(names[n]) then [(names[n], contents[n])] else [])
  }

  /** Each job pairs the i-th name selected with a text. */
  lemma {:induction false} JobsOfSelected(names: seq<string>, contents: seq<string>, keep: string -> bool)
    requires |contents| == |names|
    ensures forall i :: 0 <= i < |Jobs(names, contents, keep)| ==>
              Jobs(names, contents, keep)[i].0 == Selected(names, keep)[i]
  {
    if names != [] {
      var n := |names| - 1;
      JobsOfSelected(names[..n], contents[..n], keep);
      var js, sel := Jobs(names, contents, keep), Selected(names, keep);
      forall i | 0 <= i < |js| ensures js[i].0 == sel[i] {
        if i < |Selected(names[..n], keep)| {
          assert js[i] == Jobs(names[..n], contents[..n], keep)[i];
          assert sel[i] == Selected(names[..n], keep)[i];
        }
      }
    }
  }

  /** A name that passes is paired with its own text, at its place among the names selected. */
  lemma {:induction false} JobOfName(names: seq<string>, contents: seq<string>, keep: string -> bool, k: nat)
    requires |contents| == |names| && k < |names| && keep(names[k])
    ensures |Selected(names[..k], keep)| < |Jobs(names, contents, keep)|
    ensures Jobs(names, contents, keep)[|Selected(names[..k], keep)|] == (names[k], contents[k])
  {
    var n := |names| - 1;
    assert names[..n][..k] == names[..k];
    if k < n {
      assert names[..n][k] == names[k] && contents[..n][k] == contents[k];
      JobOfName(names[..n], contents[..n], keep, k);
    }
  }

  lemma {:induction false} GeneratedUnfold(outputDir: string, names: seq<string>, keep: string -> bool, i: nat, i2: nat, kept: bool)
    requires i < |names| && i2 == i + 1 && kept == keep(names[i])
    ensures Generated(outputDir, names[..i2], keep) ==
            Generated(outputDir, names[..i], keep) + (if kept then [OutputPath(outputDir, names[i])] else [])
  {
    assert names[..i2][..i] == names[..i];
  }

  lemma {:induction false} JobsUnfold(names: seq<string>, contents: seq<string>, keep: string -> bool, i: nat, i2: nat, kept: bool)
    requires |contents| == |names| && i < |names| && i2 == i + 1 && kept == keep(names[i])
    ensures Jobs(names[..i2], contents[..i2], keep) ==
            Jobs(names[..i], contents[..i], keep) + (if kept then [(names[i], contents[i])] else [])
  {
    assert names[..i2][..i] == names[..i];
    assert contents[..i2][..i] == contents[..i];
  }

  /**
    The readme test is never what excludes a file: any spelling of
    "readme.txt" has the extension ".txt", which the extension test already
    refuses.
  */
  lemma {:induction false} ReadmeIsNoLayer(filename: string)
    requires Lower(filename) == "readme.txt"
    ensures !LayerFile(filename)
  {
    var f := filename;
    LowerAt(f);
    assert |f| == 10;
    forall i | 0 <= i < 10 && i != 6 ensures f[i] != '.' && f[i] != '/' {
      assert LowerChar(f[i]) == "readme.txt"[i];
    }
    assert f[6] == '.' by { assert LowerChar(f[6]) == '.'; }
    assert '/' !in f;
    assert RFind(f, '.') == Some(6) by {
      assert f[7..] == [f[7], f[8], f[9]];
      RFindOfLast(f, '.', 6);
    }
    assert !AllDots(f[0..6]) by { assert f[0..6][0] == f[0]; }
    var ext := f[6..];
    assert Ext(f) == ext;
    assert Lower(ext) == ".txt" by {
      LowerAt(ext);
      forall i | 0 <= i < 4 ensures Lower(ext)[i] == ".txt"[i] {
        assert ext[i] == f[6 + i];
        assert LowerChar(f[6 + i]) == "readme.txt"[6 + i];
      }
    }
  }

  /**
    Every numbered layer is converted, whatever the case of its extension:
    a name such as "board.G12", whose extension is ".g" or ".G" and a digit.
  */
  lemma {:induction false} NumberedLayerConverted(filename: string)
    requires var ext := Ext(filename); |ext| >= 3 && (ext[1] == 'g' || ext[1] == 'G') && IsDigit(ext[2])
    ensures Converted(filename)
  {
    var ext := Ext(filename);
    ExtShape(filename);
    LowerAt(ext);
    assert NumberedLayer(Lower(ext));
    if Lower(filename) == "readme.txt" {
      ReadmeIsNoLayer(filename);
      assert false;
    }
  }

  // ---------------------------------------------------------------------
  // The converter

  /**
    `convert_file`: the lines written to the output file and the path that is
    returned. Reading the input file is the `content` parameter.
  */
  method ConvertFile(outputDir: string, filename: string, content: string) returns (outputPath: string, out: seq<string>)
    ensures outputPath == OutputPath(outputDir, filename)
    ensures out == ConvertSpec(filename, content)
  {
    outputPath := JoinPath(outputDir, filename + ".nc");
    var moves := TranslateLines(Split(content, '\n'));
    out := Header(filename) + moves + Footer;
  }

  /** The loop of `convert_file` over the input lines: the moves they translate to. */
  method TranslateLines(lines: seq<string>) returns (moves: seq<string>)
    ensures moves == Moves(lines)
  {
    moves := [];
    var i := 0;
    while i < |lines|
      invariant i <= |lines|
      invariant moves == Moves(lines[..i])
    {
      var line := Strip(lines[i]);
      var e := ConvertLine(line);
      moves := moves + e;
      i := i + 1;
      MovesUnfold(lines, i - 1, i);
    }
    assert lines[..i] == lines;
  }

  /** The body of that loop for one stripped line. */
  method ConvertLine(line: string) returns (e: seq<string>)
    ensures e == Emit(line)
  {
    e := [];
    if line != [] {
      var m := SearchMove(line, 0);
      if m.Some? {
        var x, y := Coord(m.value.x), Coord(m.value.y);
        if m.value.d == "02" {
          e := ["G00 X" + x + " Y" + y];
        } else if m.value.d == "01" {
          e := ["G01 X" + x + " Y" + y + " F10.0"];
        }
      }
    }
  }

  /**
    `convert_all` over the names the input directory lists, with the text of
    each file: the paths generated, in listing order, and what each output
    file receives.
  */
  method ConvertAll(outputDir: string, names: seq<string>, contents: seq<string>)
    returns (generated: seq<string>, written: seq<seq<string>>)
    requires |contents| == |names|
    ensures generated == Generated(outputDir, names, Converted)
    ensures WrittenFor(written, Jobs(names, contents, Converted), ConvertSpec)
  {
    generated, written := [], [];
    var i := 0;
    while i < |names|
      invariant i <= |names| && ConvertedUpTo(outputDir, names, contents, i, generated, written)
    {
      generated, written := ConvertNamed(outputDir, names, contents, i, generated, written);
      i := i + 1;
    }
    WholePrefix(names);
    WholePrefix(contents);
  }

  /** What the loop of `convert_all` has produced after the first i names. */
  ghost predicate ConvertedUpTo(outputDir: string, names: seq<string>, contents: seq<string>, i: nat,
                                generated: seq<string>, written: seq<seq<string>>)
    requires |contents| == |names| && i <= |names|
  {
    && generated == Generated(outputDir, names[..i], Converted)
    && WrittenFor(written, Jobs(names[..i], contents[..i], Converted), ConvertSpec)
  }

  /** The loop of `convert_all` ends having taken in every name. */
  lemma WholePrefix<T>(s: seq<T>)
    ensures s[..|s|] == s
  {
  }

  /** The body of the loop of `convert_all` for the i-th listed name. */
  method ConvertNamed(outputDir: string, names: seq<string>, contents: seq<string>, i: nat,
                      generated: seq<string>, written: seq<seq<string>>)
    returns (generated': seq<string>, written': seq<seq<string>>)
    requires |contents| == |names| && i < |names|
    requires ConvertedUpTo(outputDir, names, contents, i, generated, written)
    ensures ConvertedUpTo(outputDir, names, contents, i + 1, generated', written')
  {
    var convert := IsConverted(names[i]);
    generated', written' := ConvertNext(outputDir, names, contents, i, generated, written, Converted, convert);
  }

  /**
    That step for any name test `keep`, given the
    outcome `convert` of the name test `keep`.
  */
  method ConvertNext(outputDir: string, names: seq<string>, contents: seq<string>, i: nat,
                     generated: seq<string>, written: seq<seq<string>>, keep: string -> bool, convert: bool)
    returns (generated': seq<string>, written': seq<seq<string>>)
    requires |contents| == |names| && i < |names| && convert == keep(names[i])
    requires generated == Generated(outputDir, names[..i], keep)
    requires WrittenFor(written, Jobs(names[..i], contents[..i], keep), ConvertSpec)
    ensures generated' == Generated(outputDir, names[..i + 1], keep)
    ensures WrittenFor(written', Jobs(names[..i + 1], contents[..i + 1], keep), ConvertSpec)
  {
    GeneratedUnfold(outputDir, names, keep, i, i + 1, convert);
    JobsUnfold(names, contents, keep, i, i + 1, convert);
    generated', written' := generated, written;
    if convert {
      var path, out := ConvertFile(outputDir, names[i], contents[i]);
      WrittenForAppend(written, Jobs(names[..i], contents[..i], keep), ConvertSpec, names[i], contents[i]);
      generated' := generated' + [path];
      written' := written' + [out];
    }
  }

  /** Each output text is what `convert` makes of the matching job's file. */
  predicate WrittenFor(written: seq<seq<string>>, jobs: seq<(string, string)>, convert: (string, string) -> seq<string>)
  {
    |written| == |jobs| && forall k :: 0 <= k < |written| ==> written[k] == convert(jobs[k].0, jobs[k].1)
  }

  lemma {:induction false} WrittenForAppend(written: seq<seq<string>>, jobs: seq<(string, string)>,
                                            convert: (string, string) -> seq<string>, name: string, content: string)
    requires WrittenFor(written, jobs, convert)
    ensures WrittenFor(written + [convert(name, content)], jobs + [(name, content)], convert)
  {
    var w, js := written + [convert(name, content)], jobs + [(name, content)];
    forall k | 0 <= k < |w| ensures w[k] == convert(js[k].0, js[k].1) {
      if k < |written| {
        assert w[k] == written[k] && js[k] == jobs[k];
      }
    }
  }

  /** The test `convert_all` applies to each name. */
  method IsConverted(filename: string) returns (b: bool)
    ensures b == Converted(filename)
  {
    var ext := Lower(Ext(filename));
    b := (ext in LayerExtensions || NumberedLayer(ext)) && Lower(filename) != "readme.txt";
  }
}

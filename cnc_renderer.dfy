/**
  G-code path reconstruction of the CNC renderer (`CNCRenderer.parse_gcode`).

  A small state machine over the upper-cased, stripped lines of a G-code
  file: a rapid move (G00) ends the path being cut and moves the tool
  without drawing; a linear cut (G01) extends the path, starting it at the
  current position when no path is open. `Step`, `Steps` and `ParseSpec`
  specify the loop of `ParseGcode`.
*/
module CncRenderer {
  import opened Wrappers
  import opened Text
  import opened Scan

  type Point = (real, real)

  /** The loop's variables `paths`, `current_path`, `current_x` and `current_y`. */
  datatype CncState = CncState(paths: seq<seq<Point>>, currentPath: seq<Point>, x: real, y: real)

  /** The tool starts at the origin with no path drawn. */
  const Start: CncState := CncState([], [], 0.0, 0.0)

  // ---------------------------------------------------------------------
  // Coordinates

  /** The pattern `axis([\d\.-]+)` matches at j: the letter, then at least one class character. */
  predicate GroupAt(line: string, j: nat, axis: char)
  {
    j + 1 < |line| && line[j] == axis && In(SignedNumChar, line[j + 1])
  }

  /** The greedy group of a match at j: the longest run of class characters after the letter. */
  function GroupOf(line: string, j: nat): (g: string)
    requires j + 1 <= |line|
  {
    line[j + 1..j + 1 + Run(line, j + 1, SignedNumChar)]
  }

  /**
    `re.search(axis + r'([\d\.-]+)', line)` from position k on: the group of
    the leftmost axis letter followed by at least one of digit, '.' or '-'.
  */
  function SearchGroup(line: string, k: nat, axis: char): (r: Option<string>)
    requires k <= |line|
    ensures r.None? <==> forall j :: k <= j < |line| ==> !GroupAt(line, j, axis)
    ensures r.Some? ==> exists j :: k <= j < |line| && GroupAt(line, j, axis) && r.value == GroupOf(line, j)
                                    && forall i :: k <= i < j ==> !GroupAt(line, i, axis)
    ensures r.Some? ==> r.value != [] && forall i :: 0 <= i < |r.value| ==> In(SignedNumChar, r.value[i])
    decreases |line| - k
  {
    if k + 1 >= |line| then None
    else if line[k] == axis && In(SignedNumChar, line[k + 1]) then
      RunFacts(line, k + 1, SignedNumChar);
      var g := GroupOf(line, k);
      assert forall i :: 0 <= i < |g| ==> g[i] == line[k + 1 + i];
      assert GroupAt(line, k, axis);
      Some(g)
    else
      assert !GroupAt(line, k, axis);
      SearchGroup(line, k + 1, axis)
  }

  /** A line without the axis letter has no coordinate for that axis. */
  lemma {:induction false} SearchGroupAbsent(line: string, k: nat, axis: char)
    requires k <= |line| && axis !in line[k..]
    ensures SearchGroup(line, k, axis).None?
    decreases |line| - k
  {
    if k + 1 < |line| {
      assert line[k] == line[k..][0];
      assert line[k + 1..] == line[k..][1..];
      SearchGroupAbsent(line, k + 1, axis);
    }
  }

  /**
    `float(match.group(1)) if match else current`: a missing coordinate keeps
    the current one; a group `float()` rejects (such as "1-2") raises.
  */
  function NewCoord(line: string, axis: char, current: real): (r: Result<real>)
    ensures SearchGroup(line, 0, axis).None? ==> r == Success(current)
    ensures SearchGroup(line, 0, axis).Some? ==>
              && (r.Success? <==> FloatOfNumeral(SearchGroup(line, 0, axis).value).Some?)
              && (r.Success? ==> r.value == FloatOfNumeral(SearchGroup(line, 0, axis).value).value)
              && (r.Failure? ==> r.error == ValueError)
  {
    match SearchGroup(line, 0, axis)
    case None => Success(current)
    case Some(g) =>
      match FloatOfNumeral(g)
      case Some(v) => Success(v)
      case None => Failure(ValueError)
  }

  // ---------------------------------------------------------------------
  // The state machine

  /**
    G00: the open path, if any, is closed into `paths`; the tool moves to
    (nx, ny) with no path open.
  */
  function Rapid(st: CncState, nx: real, ny: real): (r: CncState)
    ensures r.currentPath == [] && r.x == nx && r.y == ny
    ensures st.currentPath == [] ==> r.paths == st.paths
    ensures st.currentPath != [] ==> r.paths == st.paths + [st.currentPath]
  {
    CncState(if st.currentPath != [] then st.paths + [st.currentPath] else st.paths, [], nx, ny)
  }

  /**
    G01: the open path gains (nx, ny); with no path open, a new one starts at
    the current position. Closed paths are untouched.
  */
  function Cut(st: CncState, nx: real, ny: real): (r: CncState)
    ensures r.paths == st.paths && r.x == nx && r.y == ny
    ensures st.currentPath != [] ==> r.currentPath == st.currentPath + [(nx, ny)]
    ensures st.currentPath == [] ==> r.currentPath == [(st.x, st.y), (nx, ny)]
  {
    var path := if st.currentPath == [] then [(st.x, st.y)] else st.currentPath;
    CncState(st.paths, path + [(nx, ny)], nx, ny)
  }

  /**
    One line, already stripped and upper-cased. An empty line is skipped;
    otherwise both coordinates are read (and may raise) before the G code
    is looked at. G00 wins when a line holds both G00 and G01; a line with
    neither changes nothing.
  */
  function Step(st: CncState, line: string): (r: Result<CncState>)
    ensures r.Failure? ==> r.error == ValueError && line != []
  {
    if line == [] then Success(st)
    else
      match (NewCoord(line, 'X', st.x), NewCoord(line, 'Y', st.y))
      case (Success(nx), Success(ny)) =>
        if Contains(line, "G00") then Success(Rapid(st, nx, ny))
        else if Contains(line, "G01") then Success(Cut(st, nx, ny))
        else Success(st)
      case _ => Failure(ValueError)
  }

  /** `line.strip().upper()`. */
  function Clean(line: string): (r: string)
    ensures |r| <= |line|
  {
    Upper(Strip(line))
  }

  /** The loop over the lines; the first exception ends it. */
  function Steps(st: CncState, lines: seq<string>): (r: Result<CncState>)
    ensures r.Failure? ==> r.error == ValueError
  {
    if lines == [] then Success(st)
    else
      match Steps(st, lines[..|lines| - 1])
      case Failure(e) => Failure(e)
      case Success(s) => Step(s, Clean(lines[|lines| - 1]))
  }

  lemma {:induction false} StepsUnfold(st: CncState, lines: seq<string>, i: nat, i2: nat)
    requires i < |lines| && i2 == i + 1
    ensures Steps(st, lines[..i2]) == match Steps(st, lines[..i])
                                      case Failure(e) => Failure(e)
                                      case Success(s) => Step(s, Clean(lines[i]))
  {
    assert lines[..i2][..i] == lines[..i];
  }

  /** Once a line has raised, the later lines are never read. */
  lemma {:induction false} StepsStop(st: CncState, lines: seq<string>, i: nat)
    requires i <= |lines| && Steps(st, lines[..i]).Failure?
    ensures Steps(st, lines) == Steps(st, lines[..i])
    decreases |lines| - i
  {
    if i < |lines| {
      StepsUnfold(st, lines, i, i + 1);
      StepsStop(st, lines, i + 1);
    } else {
      assert lines[..i] == lines;
    }
  }

  /** After the loop: a path still open is appended. */
  function Finish(st: CncState): (paths: seq<seq<Point>>)
    ensures st.currentPath == [] ==> paths == st.paths
    ensures st.currentPath != [] ==> paths == st.paths + [st.currentPath]
  {
    if st.currentPath != [] then st.paths + [st.currentPath] else st.paths
  }

  /** `parse_gcode` on the text of the file. */
  function ParseSpec(content: string): (r: Result<seq<seq<Point>>>)
    ensures r.Failure? ==> r.error == ValueError
    ensures r.Success? ==> Steps(Start, Split(content, '\n')).Success?
  {
    match Steps(Start, Split(content, '\n'))
    case Failure(e) => Failure(e)
    case Success(s) => Success(Finish(s))
  }

  // ---------------------------------------------------------------------
  // Properties

  /**
    What the state machine keeps: every closed path has at least two
    points, and an open path has at least two points and ends at the
    current position.
  */
  predicate WellFormed(st: CncState)
  {
    && (forall i :: 0 <= i < |st.paths| ==> |st.paths[i]| >= 2)
    && (st.currentPath != [] ==> |st.currentPath| >= 2 && st.currentPath[|st.currentPath| - 1] == (st.x, st.y))
  }

  lemma {:induction false} StartWellFormed()
    ensures WellFormed(Start)
  {
  }

  lemma {:induction false} StepWellFormed(st: CncState, line: string)
    requires WellFormed(st) && Step(st, line).Success?
    ensures WellFormed(Step(st, line).value)
  {
    var r := Step(st, line).value;
    if st.currentPath != [] && r.paths == st.paths + [st.currentPath] {
      forall i | 0 <= i < |r.paths| ensures |r.paths[i]| >= 2 {
        if i < |st.paths| { assert r.paths[i] == st.paths[i]; }
      }
    }
  }

  lemma {:induction false} StepsWellFormed(st: CncState, lines: seq<string>)
    requires WellFormed(st) && Steps(st, lines).Success?
    ensures WellFormed(Steps(st, lines).value)
  {
    if lines != [] {
      StepsWellFormed(st, lines[..|lines| - 1]);
      StepWellFormed(Steps(st, lines[..|lines| - 1]).value, Clean(lines[|lines| - 1]));
    }
  }

  /** Every path `parse_gcode` returns has at least two points. */
  lemma {:induction false} PathsHaveTwoPoints(content: string)
    requires ParseSpec(content).Success?
    ensures forall i :: 0 <= i < |ParseSpec(content).value| ==> |ParseSpec(content).value[i]| >= 2
  {
    var lines := Split(content, '\n');
    StartWellFormed();
    StepsWellFormed(Start, lines);
    var s := Steps(Start, lines).value;
    var paths := Finish(s);
    forall i | 0 <= i < |paths| ensures |paths[i]| >= 2 {
      if i < |s.paths| { assert paths[i] == s.paths[i]; }
    }
  }

  /**
    A line with neither G00 nor G01 moves nothing and draws nothing: its
    coordinates are still read, so it either leaves the state as it was or
    raises ValueError, exactly when `float()` rejects one of its groups.
  */
  lemma {:induction false} InertLine(st: CncState, line: string)
    requires !Contains(line, "G00") && !Contains(line, "G01")
    ensures Step(st, line) == Success(st) || Step(st, line) == Failure(ValueError)
    ensures Step(st, line).Failure? <==>
              line != [] && (NewCoord(line, 'X', st.x).Failure? || NewCoord(line, 'Y', st.y).Failure?)
  {
  }

  /**
    A G00 line closes the open path and moves the tool to the coordinates it
    names, keeping the current one for an axis it does not name; a group
    `float()` rejects raises ValueError.
  */
  lemma {:induction false} RapidLine(st: CncState, line: string)
    requires Contains(line, "G00")
    ensures var nx, ny := NewCoord(line, 'X', st.x), NewCoord(line, 'Y', st.y);
            Step(st, line) == if nx.Success? && ny.Success? then Success(Rapid(st, nx.value, ny.value))
                              else Failure(ValueError)
  {
  }

  /** A G01 line without G00 extends the path to the coordinates it names, or raises ValueError. */
  lemma {:induction false} CutLine(st: CncState, line: string)
    requires !Contains(line, "G00") && Contains(line, "G01")
    ensures var nx, ny := NewCoord(line, 'X', st.x), NewCoord(line, 'Y', st.y);
            Step(st, line) == if nx.Success? && ny.Success? then Success(Cut(st, nx.value, ny.value))
                              else Failure(ValueError)
  {
  }

  /** A G00 line that names no coordinate closes the open path where the tool stands. */
  lemma {:induction false} BareRapid(st: CncState, line: string)
    requires 'X' !in line && 'Y' !in line && Contains(line, "G00")
    ensures Step(st, line) == Success(Rapid(st, st.x, st.y))
  {
    SearchGroupAbsent(line, 0, 'X');
    SearchGroupAbsent(line, 0, 'Y');
    RapidLine(st, line);
  }

  // ---------------------------------------------------------------------
  // The parser

  /** `parse_gcode` on the text of the file. */
  method ParseGcode(content: string) returns (r: Result<seq<seq<Point>>>)
    ensures r == ParseSpec(content)
  {
    var lines := Split(content, '\n');
    var ok, st := RunLines(lines);
    if !ok {
      r := Failure(ValueError);
    } else {
      var paths := st.paths;
      if st.currentPath != [] {
        paths := paths + [st.currentPath];
      }
      r := Success(paths);
    }
  }

  /** The loop over the lines; `false` once a line raised. */
  method RunLines(lines: seq<string>) returns (ok: bool, st: CncState)
    ensures ok ==> Steps(Start, lines) == Success(st)
    ensures !ok ==> Steps(Start, lines) == Failure(ValueError)
  {
    var paths: seq<seq<Point>> := [];
    var currentPath: seq<Point> := [];
    var currentX, currentY := 0.0, 0.0;
    ok := true;
    var i := 0;
    while i < |lines| && ok
      invariant i <= |lines|
      invariant ok ==> Steps(Start, lines[..i]) == Success(CncState(paths, currentPath, currentX, currentY))
      invariant !ok ==> Steps(Start, lines[..i]) == Failure(ValueError)
      decreases |lines| - i, ok
    {
      ok, paths, currentPath, currentX, currentY := ParseLine(paths, currentPath, currentX, currentY, Clean(lines[i]));
      i := i + 1;
      StepsUnfold(Start, lines, i - 1, i);
    }
    if !ok {
      StepsStop(Start, lines, i);
    } else {
      assert lines[..i] == lines;
    }
    st := CncState(paths, currentPath, currentX, currentY);
  }

  /** The body of the loop for one cleaned line; `false` when `float()` raised. */
  method ParseLine(paths: seq<seq<Point>>, currentPath: seq<Point>, currentX: real, currentY: real, line: string)
    returns (ok: bool, paths': seq<seq<Point>>, currentPath': seq<Point>, currentX': real, currentY': real)
    ensures var r := Step(CncState(paths, currentPath, currentX, currentY), line);
            (ok ==> r == Success(CncState(paths', currentPath', currentX', currentY')))
            && (!ok ==> r == Failure(ValueError))
  {
    paths', currentPath', currentX', currentY' := paths, currentPath, currentX, currentY;
    ok := true;
    if line != [] {
      var nx := NewCoord(line, 'X', currentX);
      var ny := NewCoord(line, 'Y', currentY);
      ghost var st := CncState(paths, currentPath, currentX, currentY);
      if nx.Failure? || ny.Failure? {
        ok := false;
      } else if Contains(line, "G00") {
        if currentPath' != [] {
          paths' := paths' + [currentPath'];
          currentPath' := [];
        }
        currentX', currentY' := nx.value, ny.value;
        assert CncState(paths', currentPath', currentX', currentY') == Rapid(st, nx.value, ny.value);
      } else if Contains(line, "G01") {
        if currentPath' == [] {
          currentPath' := currentPath' + [(currentX', currentY')];
        }
        currentPath' := currentPath' + [(nx.value, ny.value)];
        currentX', currentY' := nx.value, ny.value;
        assert CncState(paths', currentPath', currentX', currentY') == Cut(st, nx.value, ny.value);
      }
    }
  }
}

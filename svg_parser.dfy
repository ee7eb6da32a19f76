/** `parsePathData` of utils/svgParser.ts, which turns the commands of an
    SVG path's `d` attribute into the points the path passes through, and
    the pairing of the tokens of a `polygon`/`polyline` `points` attribute.

    The commands come from the `svg-path-parser` library, which is not part
    of this model: a command is given as the string the code switches on
    (`cmd.command`) and its optional end point (`cmd.x`, `cmd.y`). The other
    fields (control points, arc parameters) are never read. */
module SvgParser {
  import opened Points

  /** One parsed command; `None` is a field that is absent (`'x' in cmd`
      is false). */
  datatype PathCommand = PathCommand(command: string, x: Option<real>, y: Option<real>)

  /** ASCII upper case (`toUpperCase` on the letters a command uses). */
  function UpperChar(c: char): char {
    if 'a' <= c <= 'z' then (c as int - 32) as char else c
  }

  function ToUpper(s: string): (r: string)
    ensures |r| == |s| && forall i :: 0 <= i < |s| ==> r[i] == UpperChar(s[i])
  {
    seq(|s|, i requires 0 <= i < |s| => UpperChar(s[i]))
  }

  lemma ToUpperIdempotent(s: string)
    ensures ToUpper(ToUpper(s)) == ToUpper(s)
  {
    var u := ToUpper(s);
    forall i | 0 <= i < |s| ensures ToUpper(u)[i] == u[i] {
    }
  }

  /** The variables `parsePathData` keeps between commands. */
  datatype PathState = PathState(points: seq<Point>, currentX: real, currentY: real,
                                 pathStartX: real, pathStartY: real)

  const Start := PathState([], 0.0, 0.0, 0.0, 0.0)

  predicate IsAbsolute(cmd: PathCommand) { cmd.command == ToUpper(cmd.command) }

  /** The `x`, `y` computed before the switch: the given coordinates,
      offset by the current point for a lower-case command; a missing one
      is the current coordinate; with neither given, (0, 0). */
  function Target(s: PathState, cmd: PathCommand): Point {
    var abs := IsAbsolute(cmd);
    if cmd.x.Some? && cmd.y.Some? then
      Point(if abs then cmd.x.value else s.currentX + cmd.x.value,
            if abs then cmd.y.value else s.currentY + cmd.y.value)
    else if cmd.x.Some? then
      Point(if abs then cmd.x.value else s.currentX + cmd.x.value, s.currentY)
    else if cmd.y.Some? then
      Point(s.currentX, if abs then cmd.y.value else s.currentY + cmd.y.value)
    else Point(0.0, 0.0)
  }

  /** One command: the `switch` on the upper-cased command. */
  function Exec(s: PathState, cmd: PathCommand): PathState {
    var t := Target(s, cmd);
    var letter := ToUpper(cmd.command);
    if letter == "M" then
      PathState(s.points + [t], t.x, t.y, t.x, t.y)
    else if letter == "L" || letter == "C" || letter == "Q" then
      s.(points := s.points + [t], currentX := t.x, currentY := t.y)
    else if letter == "Z" then
      if |s.points| > 0 then
        s.(points := s.points + [Point(s.pathStartX, s.pathStartY)],
           currentX := s.pathStartX, currentY := s.pathStartY)
      else s
    else if letter == "H" then
      s.(points := s.points + [Point(t.x, s.currentY)], currentX := t.x)
    else if letter == "V" then
      s.(points := s.points + [Point(s.currentX, t.y)], currentY := t.y)
    else s
  }

  /** The state after the commands `cmds`, one after another. */
  function Run(s: PathState, cmds: seq<PathCommand>): PathState {
    if |cmds| == 0 then s else Exec(Run(s, cmds[..|cmds| - 1]), cmds[|cmds| - 1])
  }

  /** The points `parsePathData` returns; `None` is a `d` the library
      rejects, which the `catch` turns into no points. */
  function PathPoints(parsed: Option<seq<PathCommand>>): seq<Point> {
    match parsed
    case None => []
    case Some(cmds) => Run(Start, cmds).points
  }

  /** `parsePathData`, from the library's result on. */
  method ParsePathData(parsed: Option<seq<PathCommand>>) returns (points: seq<Point>)
    ensures points == PathPoints(parsed)
  {
    points := [];
    var currentX, currentY, pathStartX, pathStartY := 0.0, 0.0, 0.0, 0.0;
    if parsed.None? {
      return;
    }
    var commands := parsed.value;
    for i := 0 to |commands|
      invariant PathState(points, currentX, currentY, pathStartX, pathStartY) == Run(Start, commands[..i])
    {
      assert commands[..i + 1][..i] == commands[..i];
      var cmd := commands[i];
      var isAbsolute := cmd.command == ToUpper(cmd.command);
      var x, y := 0.0, 0.0;
      if cmd.x.Some? && cmd.y.Some? {
        x := if isAbsolute then cmd.x.value else currentX + cmd.x.value;
        y := if isAbsolute then cmd.y.value else currentY + cmd.y.value;
      } else if cmd.x.Some? {
        x := if isAbsolute then cmd.x.value else currentX + cmd.x.value;
        y := currentY;
      } else if cmd.y.Some? {
        x := currentX;
        y := if isAbsolute then cmd.y.value else currentY + cmd.y.value;
      }
      var letter := ToUpper(cmd.command);
      if letter == "M" {
        pathStartX, pathStartY := x, y;
        currentX, currentY := x, y;
        points := points + [Point(x, y)];
      } else if letter == "L" || letter == "C" || letter == "Q" {
        currentX, currentY := x, y;
        points := points + [Point(x, y)];
      } else if letter == "Z" {
        if |points| > 0 {
          points := points + [Point(pathStartX, pathStartY)];
          currentX, currentY := pathStartX, pathStartY;
        }
      } else if letter == "H" {
        currentX := x;
        points := points + [Point(x, currentY)];
      } else if letter == "V" {
        currentY := y;
        points := points + [Point(currentX, y)];
      }
    }
    assert commands[..|commands|] == commands;
  }

  // ---------------------------------------------------------------------
  // Properties of the interpretation
  // ---------------------------------------------------------------------

  /** Each command appends at most one point and never changes the ones
      already there. */
  lemma ExecAppendsAtMostOne(s: PathState, cmd: PathCommand)
    ensures |s.points| <= |Exec(s, cmd).points| <= |s.points| + 1
    ensures Exec(s, cmd).points[..|s.points|] == s.points
  {
  }

  /** At most one point per command, and the points of a prefix of the
      commands are a prefix of the points. */
  lemma {:induction false} RunLength(s: PathState, cmds: seq<PathCommand>)
    ensures |s.points| <= |Run(s, cmds).points| <= |s.points| + |cmds|
    ensures Run(s, cmds).points[..|s.points|] == s.points
  {
    if |cmds| > 0 {
      var before := Run(s, cmds[..|cmds| - 1]);
      RunLength(s, cmds[..|cmds| - 1]);
      ExecAppendsAtMostOne(before, cmds[|cmds| - 1]);
      assert Run(s, cmds).points[..|before.points|] == before.points;
      assert Run(s, cmds).points[..|s.points|] == before.points[..|s.points|];
    }
  }

  lemma PathPointsLength(cmds: seq<PathCommand>)
    ensures |PathPoints(Some(cmds))| <= |cmds|
  {
    RunLength(Start, cmds);
  }

  /** A lower-case command is the upper-case one with its given
      coordinates offset by the current point. */
  lemma RelativeIsOffset(s: PathState, cmd: PathCommand)
    ensures var abs := PathCommand(ToUpper(cmd.command),
                                   if cmd.x.Some? then Some(s.currentX + cmd.x.value) else None,
                                   if cmd.y.Some? then Some(s.currentY + cmd.y.value) else None);
      !IsAbsolute(cmd) ==> Exec(s, abs) == Exec(s, cmd)
  {
    ToUpperIdempotent(cmd.command);
  }

  /** `M` starts a subpath: it moves both the current point and the
      subpath start to its target, and emits it. */
  lemma MoveStartsSubpath(s: PathState, x: real, y: real)
    ensures Exec(s, PathCommand("M", Some(x), Some(y)))
         == PathState(s.points + [Point(x, y)], x, y, x, y)
  {
    assert ToUpper("M") == "M";
  }

  /** Curves are reduced to their end points: `C` and `Q` act exactly like
      `L` with the same end point. */
  lemma CurvesAreLines(s: PathState, x: Option<real>, y: Option<real>)
    ensures Exec(s, PathCommand("C", x, y)) == Exec(s, PathCommand("L", x, y))
    ensures Exec(s, PathCommand("Q", x, y)) == Exec(s, PathCommand("L", x, y))
    ensures Exec(s, PathCommand("c", x, y)) == Exec(s, PathCommand("l", x, y))
    ensures Exec(s, PathCommand("q", x, y)) == Exec(s, PathCommand("l", x, y))
  {
    assert ToUpper("C") == "C" && ToUpper("Q") == "Q" && ToUpper("L") == "L";
    assert ToUpper("c") == "C" && ToUpper("q") == "Q" && ToUpper("l") == "L";
  }

  /** `H` is a line to (x, current y) and `V` a line to (current x, y); each
      changes only its own coordinate of the current point. */
  lemma AxisLinesAreLines(s: PathState, x: real, y: real)
    ensures Exec(s, PathCommand("H", Some(x), None)) == Exec(s, PathCommand("L", Some(x), Some(s.currentY)))
    ensures Exec(s, PathCommand("V", None, Some(y))) == Exec(s, PathCommand("L", Some(s.currentX), Some(y)))
  {
    assert ToUpper("H") == "H" && ToUpper("V") == "V" && ToUpper("L") == "L";
  }

  /** `Z` returns to the subpath start and emits it, but only once a point
      has been emitted; before that it does nothing. */
  lemma CloseReturnsToStart(s: PathState, cmd: PathCommand)
    requires ToUpper(cmd.command) == "Z"
    ensures |s.points| > 0 ==>
      Exec(s, cmd) == s.(points := s.points + [Point(s.pathStartX, s.pathStartY)],
                         currentX := s.pathStartX, currentY := s.pathStartY)
    ensures |s.points| == 0 ==> Exec(s, cmd) == s
  {
  }

  /** Any other letter (arcs, smooth curves, anything unknown) emits
      nothing and changes nothing. */
  lemma OtherLettersIgnored(s: PathState, cmd: PathCommand)
    requires ToUpper(cmd.command) !in ["M", "L", "C", "Q", "Z", "H", "V"]
    ensures Exec(s, cmd) == s
  {
  }

  /** A subpath drawn with `M`, then lines, then `Z` emits its points and
      then its start point again, and ends at the start. */
  lemma {:induction false} ClosedSubpath(s: PathState, start: Point, rest: seq<Point>)
    ensures var cmds := [PathCommand("M", Some(start.x), Some(start.y))] + LinesTo(rest) + [PathCommand("Z", None, None)];
      var e := Run(s, cmds);
      && e.points == s.points + [start] + rest + [start]
      && e.currentX == start.x && e.currentY == start.y
  {
    var m := PathCommand("M", Some(start.x), Some(start.y));
    var z := PathCommand("Z", None, None);
    var cmds := [m] + LinesTo(rest) + [z];
    MoveStartsSubpath(s, start.x, start.y);
    assert [m][..0] == [];
    var afterM := Exec(s, m);
    assert Run(s, [m]) == afterM;
    RunLines(s, [m], rest);
    var afterLines := Run(s, [m] + LinesTo(rest));
    assert afterLines.points == afterM.points + rest;
    assert cmds[..|cmds| - 1] == [m] + LinesTo(rest);
    assert ToUpper("Z") == "Z";
  }

  /** Absolute `L` commands to each of `pts`. */
  function LinesTo(pts: seq<Point>): (r: seq<PathCommand>)
    ensures |r| == |pts|
    ensures forall i :: 0 <= i < |pts| ==> r[i] == PathCommand("L", Some(pts[i].x), Some(pts[i].y))
  {
    seq(|pts|, i requires 0 <= i < |pts| => PathCommand("L", Some(pts[i].x), Some(pts[i].y)))
  }

  /** Absolute `L` commands emit their end points, keep the subpath start,
      and leave the current point at the last of them. */
  lemma {:induction false} RunLines(s: PathState, prefix: seq<PathCommand>, pts: seq<Point>)
    ensures var before := Run(s, prefix);
      var after := Run(s, prefix + LinesTo(pts));
      && after.points == before.points + pts
      && after.pathStartX == before.pathStartX && after.pathStartY == before.pathStartY
      && (|pts| > 0 ==> after.currentX == pts[|pts| - 1].x && after.currentY == pts[|pts| - 1].y)
      && (|pts| == 0 ==> after == before)
    decreases |pts|
  {
    if |pts| == 0 {
      assert prefix + LinesTo(pts) == prefix;
    } else {
      var pts' := pts[..|pts| - 1];
      var last := pts[|pts| - 1];
      RunLines(s, prefix, pts');
      var cmds := prefix + LinesTo(pts);
      assert cmds[..|cmds| - 1] == prefix + LinesTo(pts');
      assert cmds[|cmds| - 1] == PathCommand("L", Some(last.x), Some(last.y));
      var mid := Run(s, prefix + LinesTo(pts'));
      ExecLine(mid, last);
      assert Run(s, cmds) == mid.(points := mid.points + [last], currentX := last.x, currentY := last.y);
      assert pts' + [last] == pts;
    }
  }

  lemma ExecLine(s: PathState, p: Point)
    ensures Exec(s, PathCommand("L", Some(p.x), Some(p.y)))
         == s.(points := s.points + [p], currentX := p.x, currentY := p.y)
  {
    assert ToUpper("L") == "L";
  }

  // ---------------------------------------------------------------------
  // `points` attributes of polygons and polylines
  // ---------------------------------------------------------------------

  /** The tokens read in pairs (x, y); `None` is a token `parseFloat` reads
      as `NaN`. A pair with a `NaN` is skipped and a trailing odd token is
      ignored. */
  function PairPoints(coords: seq<Option<real>>): seq<Point>
    decreases |coords|
  {
    if |coords| < 2 then []
    else
      (if coords[0].Some? && coords[1].Some? then [Point(coords[0].value, coords[1].value)] else [])
      + PairPoints(coords[2..])
  }

  /** The `for (i = 0; i < coords.length - 1; i += 2)` loop, appending to
      `allPoints`. */
  method AppendPointPairs(allPoints: seq<Point>, coords: seq<Option<real>>) returns (result: seq<Point>)
    ensures result == allPoints + PairPoints(coords)
  {
    result := allPoints;
    var i := 0;
    while i < |coords| - 1
      invariant 0 <= i <= |coords| && i % 2 == 0
      invariant result + PairPoints(coords[i..]) == allPoints + PairPoints(coords)
      decreases |coords| - i
    {
      var x := coords[i];
      var y := coords[i + 1];
      assert coords[i..][2..] == coords[i + 2..];
      if x.Some? && y.Some? {
        result := result + [Point(x.value, y.value)];
      }
      i := i + 2;
    }
    assert |coords[i..]| < 2;
  }

  /** At most one point per two tokens; with every token numeric, exactly
      one per pair, the k-th point made of tokens 2k and 2k+1. */
  lemma {:induction false} PairPointsCount(coords: seq<Option<real>>)
    ensures |PairPoints(coords)| <= |coords| / 2
    ensures (forall i :: 0 <= i < |coords| ==> coords[i].Some?) ==>
      && |PairPoints(coords)| == |coords| / 2
      && forall k :: 0 <= k < |coords| / 2 ==>
           PairPoints(coords)[k] == Point(coords[2 * k].value, coords[2 * k + 1].value)
    decreases |coords|
  {
    if |coords| >= 2 {
      PairPointsCount(coords[2..]);
      if forall i :: 0 <= i < |coords| ==> coords[i].Some? {
        var rest := PairPoints(coords[2..]);
        forall k | 1 <= k < |coords| / 2
          ensures PairPoints(coords)[k] == Point(coords[2 * k].value, coords[2 * k + 1].value)
        {
          assert PairPoints(coords)[k] == rest[k - 1];
          assert coords[2..][2 * (k - 1)] == coords[2 * k];
          assert coords[2..][2 * (k - 1) + 1] == coords[2 * k + 1];
        }
      }
    }
  }

  /** A token after the last complete pair changes nothing. */
  lemma {:induction false} TrailingTokenIgnored(coords: seq<Option<real>>, t: Option<real>)
    requires |coords| % 2 == 0
    ensures PairPoints(coords + [t]) == PairPoints(coords)
    decreases |coords|
  {
    if |coords| >= 2 {
      assert (coords + [t])[2..] == coords[2..] + [t];
      TrailingTokenIgnored(coords[2..], t);
    }
  }
}

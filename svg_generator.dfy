/** `generateSVGFromPoints` of utils/svgGenerator.ts: a path through the
    points, `M` to the first and `L` to each of the others, closed with `Z`
    when the last point is near the first. The commands are those
    `parsePathData` reads, so the two are checked against each other.
    Number-to-text conversion (`${x}`) is the parameter `fmt`. */
module SvgGenerator {
  import opened Points
  import opened SvgParser

  const DefaultWidth: real := 800.0
  const DefaultHeight: real := 600.0

  /** The path is closed when the last point is less than 5 from the first,
      compared on squares. */
  const CloseDistanceSq: real := 25.0

  predicate ShouldClose(points: seq<Point>) {
    |points| > 2 && DistSq(points[0], points[|points| - 1]) < CloseDistanceSq
  }

  function MoveTo(p: Point): PathCommand { PathCommand("M", Some(p.x), Some(p.y)) }
  const ClosePath: PathCommand := PathCommand("Z", None, None)

  /** The commands of the path for a non-empty list of points. */
  function PathFor(points: seq<Point>): seq<PathCommand>
    requires |points| > 0
  {
    [MoveTo(points[0])] + LinesTo(points[1..]) + (if ShouldClose(points) then [ClosePath] else [])
  }

  /** The generated document: its size, and its path unless there are no
      points. */
  datatype SvgDoc = SvgDoc(width: real, height: real, path: Option<seq<PathCommand>>)

  function Document(points: seq<Point>, width: real, height: real): SvgDoc {
    SvgDoc(width, height, if |points| == 0 then None else Some(PathFor(points)))
  }

  // ---------------------------------------------------------------------
  // Text
  // ---------------------------------------------------------------------

  /** One command as text: its letter, then its coordinates if it has
      both. */
  function RenderCommand(c: PathCommand, fmt: real -> string): string {
    c.command + (if c.x.Some? && c.y.Some? then " " + fmt(c.x.value) + " " + fmt(c.y.value) else "")
  }

  /** The `d` attribute: the commands separated by single spaces. */
  function RenderPath(cmds: seq<PathCommand>, fmt: real -> string): string {
    if |cmds| == 0 then ""
    else if |cmds| == 1 then RenderCommand(cmds[0], fmt)
    else RenderPath(cmds[..|cmds| - 1], fmt) + " " + RenderCommand(cmds[|cmds| - 1], fmt)
  }

  function SvgOpen(width: real, height: real, fmt: real -> string): string {
    "<svg width=\"" + fmt(width) + "\" height=\"" + fmt(height) + "\" xmlns=\"http://www.w3.org/2000/svg\">"
  }

  function RenderSvg(doc: SvgDoc, fmt: real -> string): string {
    match doc.path
    case None => SvgOpen(doc.width, doc.height, fmt) + "</svg>"
    case Some(cmds) =>
      SvgOpen(doc.width, doc.height, fmt)
      + "\n  <path d=\"" + RenderPath(cmds, fmt) + "\" stroke=\"black\" stroke-width=\"2\" fill=\"none\"/>\n</svg>"
  }

  /** `generateSVGFromPoints`; `None` for `width` or `height` is an argument
      left out, which takes the default. */
  method GenerateSVGFromPoints(points: seq<Point>, width: Option<real>, height: Option<real>,
                               fmt: real -> string)
    returns (svg: string)
    ensures var w := if width.Some? then width.value else DefaultWidth;
      var h := if height.Some? then height.value else DefaultHeight;
      svg == RenderSvg(Document(points, w, h), fmt)
  {
    var w := if width.Some? then width.value else DefaultWidth;
    var h := if height.Some? then height.value else DefaultHeight;
    if |points| == 0 {
      svg := SvgOpen(w, h, fmt) + "</svg>";
      return;
    }
    var pathData := BuildPathData(points, fmt);
    svg := SvgOpen(w, h, fmt)
      + "\n  <path d=\"" + pathData + "\" stroke=\"black\" stroke-width=\"2\" fill=\"none\"/>\n</svg>";
  }

  /** The `pathData` string: the `M`/`L` part, then the `Z` test. */
  method BuildPathData(points: seq<Point>, fmt: real -> string) returns (pathData: string)
    requires |points| > 0
    ensures pathData == RenderPath(PathFor(points), fmt)
  {
    pathData := BuildLines(points, fmt);
    ghost var cmds := [MoveTo(points[0])] + LinesTo(points[1..]);
    if |points| > 2 {
      var first := points[0];
      var last := points[|points| - 1];
      var dx := last.x - first.x;
      var dy := last.y - first.y;
      if dx * dx + dy * dy < 25.0 {
        RenderAppend(cmds, ClosePath, fmt);
        assert " " + RenderCommand(ClosePath, fmt) == " Z";
        pathData := pathData + " Z";
        cmds := cmds + [ClosePath];
      }
    }
    assert cmds == PathFor(points);
  }

  /** The `for` loop appending one `L` per point after the first. */
  method BuildLines(points: seq<Point>, fmt: real -> string) returns (pathData: string)
    requires |points| > 0
    ensures pathData == RenderPath([MoveTo(points[0])] + LinesTo(points[1..]), fmt)
  {
    pathData := "M " + fmt(points[0].x) + " " + fmt(points[0].y);
    ghost var cmds := [MoveTo(points[0])];
    assert pathData == RenderPath(cmds, fmt) by { RenderPoint("M", points[0], fmt); }
    assert LinesTo(points[1..1]) == [];
    assert cmds == [MoveTo(points[0])] + LinesTo(points[1..1]);
    for i := 1 to |points|
      invariant cmds == [MoveTo(points[0])] + LinesTo(points[1..i])
      invariant pathData == RenderPath(cmds, fmt)
    {
      ghost var line := PathCommand("L", Some(points[i].x), Some(points[i].y));
      AppendLine(cmds, points[i], fmt);
      LinesStep(points, i);
      pathData := pathData + " L " + fmt(points[i].x) + " " + fmt(points[i].y);
      cmds := cmds + [line];
    }
    assert points[1..|points|] == points[1..];
  }

  /** The text of one more `L` command. */
  lemma AppendLine(cmds: seq<PathCommand>, p: Point, fmt: real -> string)
    requires |cmds| > 0
    ensures RenderPath(cmds + [PathCommand("L", Some(p.x), Some(p.y))], fmt)
         == RenderPath(cmds, fmt) + " L " + fmt(p.x) + " " + fmt(p.y)
  {
    RenderAppend(cmds, PathCommand("L", Some(p.x), Some(p.y)), fmt);
    JoinPoint(RenderPath(cmds, fmt), fmt(p.x), fmt(p.y));
  }

  /** Joining a command's text to the path text, as concatenations. */
  lemma JoinPoint(path: string, x: string, y: string)
    ensures path + " " + ("L" + (" " + x + " " + y)) == path + " L " + x + " " + y
  {
    var lhs := path + " " + ("L" + (" " + x + " " + y));
    var rhs := path + " L " + x + " " + y;
    assert |lhs| == |rhs|;
    forall i | 0 <= i < |lhs| ensures lhs[i] == rhs[i] {
      if i < |path| + 3 {
      } else if i < |path| + 3 + |x| {
      } else if i < |path| + 4 + |x| {
      } else {
      }
    }
  }

  lemma LinesStep(points: seq<Point>, i: nat)
    requires 1 <= i < |points|
    ensures LinesTo(points[1..i + 1]) == LinesTo(points[1..i]) + [PathCommand("L", Some(points[i].x), Some(points[i].y))]
  {
  }

  /** Appending a command appends a space and its text. */
  lemma RenderAppend(cmds: seq<PathCommand>, c: PathCommand, fmt: real -> string)
    requires |cmds| > 0
    ensures RenderPath(cmds + [c], fmt) == RenderPath(cmds, fmt) + " " + RenderCommand(c, fmt)
  {
    assert (cmds + [c])[..|cmds|] == cmds;
  }

  /** The text of a command with a point, as the template literals write
      it. */
  lemma RenderPoint(letter: string, p: Point, fmt: real -> string)
    ensures RenderCommand(PathCommand(letter, Some(p.x), Some(p.y)), fmt)
         == letter + " " + fmt(p.x) + " " + fmt(p.y)
    ensures " " + RenderCommand(PathCommand(letter, Some(p.x), Some(p.y)), fmt)
         == " " + letter + " " + fmt(p.x) + " " + fmt(p.y)
  {
  }

  // ---------------------------------------------------------------------
  // Properties
  // ---------------------------------------------------------------------

  /** No points, no path: only the `<svg>` element with the given size. */
  lemma EmptyInputNoPath(width: real, height: real, fmt: real -> string)
    ensures Document([], width, height).path == None
    ensures RenderSvg(Document([], width, height), fmt)
         == "<svg width=\"" + fmt(width) + "\" height=\"" + fmt(height) + "\" xmlns=\"http://www.w3.org/2000/svg\"></svg>"
  {
  }

  /** One `M` at the first point, then exactly n-1 `L` commands to the other
      points in order, then `Z` exactly when the path closes. */
  lemma PathShape(points: seq<Point>)
    requires |points| > 0
    ensures var cmds := PathFor(points);
      && |cmds| == |points| + (if ShouldClose(points) then 1 else 0)
      && cmds[0] == PathCommand("M", Some(points[0].x), Some(points[0].y))
      && (forall i :: 1 <= i < |points| ==> cmds[i] == PathCommand("L", Some(points[i].x), Some(points[i].y)))
      && (ShouldClose(points) <==> cmds[|cmds| - 1] == PathCommand("Z", None, None))
  {
    var cmds := PathFor(points);
    forall i | 1 <= i < |points|
      ensures cmds[i] == PathCommand("L", Some(points[i].x), Some(points[i].y))
    {
      assert cmds[i] == LinesTo(points[1..])[i - 1];
    }
  }

  /** The round trip: interpreting the generated commands gives back the
      points, followed by the first point again when `Z` was emitted. */
  lemma {:induction false} RoundTrip(points: seq<Point>)
    requires |points| > 0
    ensures PathPoints(Some(PathFor(points)))
         == points + (if ShouldClose(points) then [points[0]] else [])
  {
    var m := MoveTo(points[0]);
    var rest := points[1..];
    var cmds := PathFor(points);
    assert [points[0]] + rest == points;
    assert PathPoints(Some(cmds)) == Run(Start, cmds).points;
    if ShouldClose(points) {
      assert cmds == [m] + LinesTo(rest) + [ClosePath];
      assert Run(Start, cmds).points == [points[0]] + rest + [points[0]] by {
        ClosedSubpath(Start, points[0], rest);
      }
    } else {
      assert cmds == [m] + LinesTo(rest);
      assert Run(Start, [m]).points == [points[0]] by {
        MoveStartsSubpath(Start, points[0].x, points[0].y);
        assert [m][..0] == [];
      }
      assert Run(Start, cmds).points == [points[0]] + rest by {
        RunLines(Start, [m], rest);
      }
    }
  }

  /** Every generated path interprets to at least the points themselves:
      nothing is lost on the way through the text. */
  lemma PointsSurvive(points: seq<Point>)
    requires |points| > 0
    ensures |PathPoints(Some(PathFor(points)))| >= |points|
    ensures PathPoints(Some(PathFor(points)))[..|points|] == points
  {
    RoundTrip(points);
  }

  /** A path that closes comes back to where it started. */
  lemma ClosedPathEndsAtStart(points: seq<Point>)
    requires ShouldClose(points)
    ensures var r := PathPoints(Some(PathFor(points)));
      |r| == |points| + 1 && r[|r| - 1] == r[0] == points[0]
  {
    RoundTrip(points);
  }
}

/** utils/gcodeGenerator.ts: the point-stream reducer (two passes that drop
    points close to the last kept one) and the emitter that scales the kept
    points into millimetres and writes a fixed-shape G-code program
    (G21, G90, G1 F, G0, M3, G1*, M5, G0 X0 Y0 — the preparatory and
    miscellaneous functions of the NIST RS274NGC interpreter, version 3,
    sections 3.5 and 3.6). */
module GCodeGenerator {
  import opened Points

  /** Per-axis tolerance of `pointsAreEqual`. */
  const Tolerance: real := 0.1
  /** `minDistance` that `generateGCode` passes to `removeDuplicatePoints`. */
  const MinDistance: real := 0.5
  /** A cut move is written only if it moves more than this on some axis. */
  const MoveEpsilon: real := 0.001
  /** The arguments `generateGCode` uses when a caller leaves them out. */
  const DefaultFeedRate: real := 1500.0
  const DefaultScale: real := 0.1
  const DefaultFlipY: bool := true

  // ---------------------------------------------------------------------
  // Point reduction
  // ---------------------------------------------------------------------

  /** `pointsAreEqual`: closer than `tolerance` on both axes. */
  predicate PointsAreEqual(p1: Point, p2: Point, tolerance: real) {
    Abs(p1.x - p2.x) < tolerance && Abs(p1.y - p2.y) < tolerance
  }

  /** `Math.sqrt(dx*dx + dy*dy) >= minDistance`, without the square root. */
  predicate FarEnough(prev: Point, curr: Point, minDistance: real) {
    minDistance <= 0.0 || DistSq(prev, curr) >= minDistance * minDistance
  }

  /** What `removeRedundantPoints` returns: the first point, then every point
      that is not within `Tolerance` on both axes of the last point kept. */
  function WithoutRedundant(s: seq<Point>): (r: seq<Point>)
    ensures |r| <= |s|
    ensures |s| >= 1 ==> |r| >= 1
  {
    if |s| <= 1 then s
    else
      var kept := WithoutRedundant(s[..|s| - 1]);
      if PointsAreEqual(kept[|kept| - 1], s[|s| - 1], Tolerance) then kept
      else kept + [s[|s| - 1]]
  }

  /** What `removeDuplicatePoints` returns: the first point, then every point
      at distance at least `minDistance` from the last point kept. */
  function WithoutDuplicates(s: seq<Point>, minDistance: real): (r: seq<Point>)
    ensures |r| <= |s|
    ensures |s| >= 1 ==> |r| >= 1
  {
    if |s| <= 1 then s
    else
      var kept := WithoutDuplicates(s[..|s| - 1], minDistance);
      if FarEnough(kept[|kept| - 1], s[|s| - 1], minDistance) then kept + [s[|s| - 1]]
      else kept
  }

  /** The reduction `generateGCode` applies: redundant points, then points
      closer than `MinDistance`. */
  function Reduce(s: seq<Point>): seq<Point> {
    WithoutDuplicates(WithoutRedundant(s), MinDistance)
  }

  method RemoveRedundantPoints(points: seq<Point>) returns (filtered: seq<Point>)
    ensures filtered == WithoutRedundant(points)
  {
    if |points| <= 1 {
      return points;
    }
    filtered := [points[0]];
    for i := 1 to |points|
      invariant filtered == WithoutRedundant(points[..i])
    {
      var prev := filtered[|filtered| - 1];
      var curr := points[i];
      assert points[..i + 1][..i] == points[..i];
      if !PointsAreEqual(prev, curr, Tolerance) {
        filtered := filtered + [curr];
      }
    }
    assert points[..|points|] == points;
  }

  method RemoveDuplicatePoints(points: seq<Point>, minDistance: real) returns (optimized: seq<Point>)
    ensures optimized == WithoutDuplicates(points, minDistance)
  {
    if |points| == 0 {
      return [];
    }
    optimized := [points[0]];
    for i := 1 to |points|
      invariant optimized == WithoutDuplicates(points[..i], minDistance)
    {
      var prev := optimized[|optimized| - 1];
      var curr := points[i];
      assert points[..i + 1][..i] == points[..i];
      if FarEnough(prev, curr, minDistance) {
        optimized := optimized + [curr];
      }
    }
    assert points[..|points|] == points;
  }

  /** Both passes keep the first point. */
  lemma {:induction false} ReductionKeepsFirst(s: seq<Point>, minDistance: real)
    requires |s| >= 1
    ensures WithoutRedundant(s)[0] == s[0]
    ensures WithoutDuplicates(s, minDistance)[0] == s[0]
    decreases |s|
  {
    if |s| > 1 {
      ReductionKeepsFirst(s[..|s| - 1], minDistance);
    }
  }

  /** The combined reduction keeps the first point. */
  lemma ReduceKeepsFirst(s: seq<Point>)
    requires |s| >= 1
    ensures |Reduce(s)| >= 1 && Reduce(s)[0] == s[0]
  {
    ReductionKeepsFirst(s, MinDistance);
    ReductionKeepsFirst(WithoutRedundant(s), MinDistance);
  }

  /** Both passes return an order-preserving subsequence of their input. */
  lemma {:induction false} ReductionIsSubsequence(s: seq<Point>, minDistance: real)
    ensures IsSubsequence(WithoutRedundant(s), s)
    ensures IsSubsequence(WithoutDuplicates(s, minDistance), s)
  {
    if |s| <= 1 {
      SubsequenceRefl(s);
    } else {
      var init, last := s[..|s| - 1], s[|s| - 1];
      assert init + [last] == s;
      ReductionIsSubsequence(init, minDistance);
      var kr := WithoutRedundant(init);
      SubsequenceExtend(kr, init, last, !PointsAreEqual(kr[|kr| - 1], last, Tolerance));
      var kd := WithoutDuplicates(init, minDistance);
      SubsequenceExtend(kd, init, last, FarEnough(kd[|kd| - 1], last, minDistance));
    }
  }

  /** No point of `r` is within `Tolerance` on both axes of its predecessor. */
  ghost predicate Distinct(r: seq<Point>) {
    forall i :: 0 <= i < |r| - 1 ==> !PointsAreEqual(r[i], r[i + 1], Tolerance)
  }

  /** Consecutive points of `r` are at least `minDistance` apart. */
  ghost predicate Spaced(r: seq<Point>, minDistance: real) {
    forall i :: 0 <= i < |r| - 1 ==> FarEnough(r[i], r[i + 1], minDistance)
  }

  /** After the first pass no kept point is within the tolerance of its
      predecessor; after the second, consecutive kept points are at least
      `minDistance` apart. */
  lemma {:induction false} ReductionSeparates(s: seq<Point>, minDistance: real)
    ensures Distinct(WithoutRedundant(s))
    ensures Spaced(WithoutDuplicates(s, minDistance), minDistance)
  {
    if |s| > 1 {
      var init, last := s[..|s| - 1], s[|s| - 1];
      ReductionSeparates(init, minDistance);
      var kr := WithoutRedundant(init);
      var r := WithoutRedundant(s);
      if r != kr {
        assert r == kr + [last];
        forall i | 0 <= i < |r| - 1 ensures !PointsAreEqual(r[i], r[i + 1], Tolerance) {
          if i < |kr| - 1 { assert r[i] == kr[i] && r[i + 1] == kr[i + 1]; }
        }
      }
      var kd := WithoutDuplicates(init, minDistance);
      var d := WithoutDuplicates(s, minDistance);
      if d != kd {
        assert d == kd + [last];
        forall i | 0 <= i < |d| - 1 ensures FarEnough(d[i], d[i + 1], minDistance) {
          if i < |kd| - 1 { assert d[i] == kd[i] && d[i + 1] == kd[i + 1]; }
        }
      }
    }
  }

  /** A sequence whose consecutive points are already far enough apart is left
      unchanged by `WithoutDuplicates`. */
  lemma {:induction false} FarEnoughIsFixpoint(s: seq<Point>, minDistance: real)
    requires Spaced(s, minDistance)
    ensures WithoutDuplicates(s, minDistance) == s
  {
    if |s| > 1 {
      FarEnoughIsFixpoint(s[..|s| - 1], minDistance);
      assert s[..|s| - 1] + [s[|s| - 1]] == s;
    }
  }

  /** A sequence whose consecutive points already differ by the tolerance is
      left unchanged by `WithoutRedundant`. */
  lemma {:induction false} DistinctIsFixpoint(s: seq<Point>)
    requires Distinct(s)
    ensures WithoutRedundant(s) == s
  {
    if |s| > 1 {
      DistinctIsFixpoint(s[..|s| - 1]);
      assert s[..|s| - 1] + [s[|s| - 1]] == s;
    }
  }

  lemma SquareBelow(d: real, t: real)
    requires Abs(d) < t
    ensures d * d < t * t
  {
    if d < 0.0 {
      assert d * d == (-d) * (-d);
    }
    assert d * d <= Abs(d) * t < t * t;
  }

  /** Points within `Tolerance` on both axes are closer than `MinDistance`. */
  lemma EqualMeansNear(p: Point, q: Point)
    ensures PointsAreEqual(p, q, Tolerance) ==> DistSq(p, q) < MinDistance * MinDistance
  {
    if PointsAreEqual(p, q, Tolerance) {
      assert Abs(q.x - p.x) == Abs(p.x - q.x) && Abs(q.y - p.y) == Abs(p.y - q.y);
      SquareBelow(q.x - p.x, Tolerance);
      SquareBelow(q.y - p.y, Tolerance);
    }
  }

  /** The combined reduction is idempotent. */
  lemma ReduceIdempotent(s: seq<Point>)
    ensures Reduce(Reduce(s)) == Reduce(s)
  {
    var r := Reduce(s);
    ReductionSeparates(WithoutRedundant(s), MinDistance);
    assert Spaced(r, MinDistance);
    forall i | 0 <= i < |r| - 1 ensures !PointsAreEqual(r[i], r[i + 1], Tolerance) {
      EqualMeansNear(r[i], r[i + 1]);
    }
    DistinctIsFixpoint(r);
    FarEnoughIsFixpoint(r, MinDistance);
  }

  // ---------------------------------------------------------------------
  // Scaling
  // ---------------------------------------------------------------------

  /** JavaScript truthiness of an optional number (undefined and 0 are falsy). */
  predicate Truthy(v: Option<real>) { v.Some? && v.value != 0.0 }

  /** The Y scale factor: `scale` corrected by the canvas aspect ratio when both
      canvas dimensions are given. */
  function YScale(scale: real, canvasWidth: Option<real>, canvasHeight: Option<real>): real {
    if Truthy(canvasWidth) && Truthy(canvasHeight) then
      scale * (canvasHeight.value / canvasWidth.value)
    else scale
  }

  /** `scalePoint`. */
  function ScalePoint(p: Point, scale: real, yScale: real, flipY: bool, maxY: real): Point {
    var y := p.y * yScale;
    Point(p.x * scale, if flipY then maxY * yScale - y else y)
  }

  function ScaleAll(s: seq<Point>, scale: real, yScale: real, flipY: bool, maxY: real): (r: seq<Point>)
    ensures |r| == |s|
    ensures forall i :: 0 <= i < |s| ==> r[i] == ScalePoint(s[i], scale, yScale, flipY, maxY)
  {
    if |s| == 0 then []
    else ScaleAll(s[..|s| - 1], scale, yScale, flipY, maxY) + [ScalePoint(s[|s| - 1], scale, yScale, flipY, maxY)]
  }

  /** `Math.max(...points.map(p => p.y))`. */
  function MaxY(s: seq<Point>): (m: real)
    requires |s| > 0
    ensures forall i :: 0 <= i < |s| ==> s[i].y <= m
    ensures exists i :: 0 <= i < |s| && s[i].y == m
  {
    if |s| == 1 then s[0].y
    else
      var m := MaxY(s[..|s| - 1]);
      assert forall i :: 0 <= i < |s| - 1 ==> s[..|s| - 1][i] == s[i];
      Max(m, s[|s| - 1].y)
  }

  // ---------------------------------------------------------------------
  // The program
  // ---------------------------------------------------------------------

  /** One line of the emitted program. */
  datatype GCommand =
    | Millimetres              // G21
    | AbsolutePositioning      // G90
    | SetFeed(feed: real)      // G1 F<feed>
    | Rapid(x: real, y: real)  // G0 X<x> Y<y>, three decimals
    | SpindleOn                // M3
    | Linear(x: real, y: real) // G1 X<x> Y<y>, three decimals
    | SpindleOff               // M5
    | ReturnToOrigin           // G0 X0 Y0

  /** A cut move changes the position by more than `MoveEpsilon` on some axis. */
  predicate Moves(from: Point, to: Point) {
    Abs(to.x - from.x) > MoveEpsilon || Abs(to.y - from.y) > MoveEpsilon
  }

  /** The targets of the `G1` lines written for `rest`, when `last` is the last
      target written. */
  function CutTargets(last: Point, rest: seq<Point>): seq<Point>
    decreases |rest|
  {
    if |rest| == 0 then []
    else if Moves(last, rest[0]) then [rest[0]] + CutTargets(rest[0], rest[1..])
    else CutTargets(last, rest[1..])
  }

  function Linears(targets: seq<Point>): (r: seq<GCommand>)
    ensures |r| == |targets|
    ensures forall i :: 0 <= i < |targets| ==> r[i] == Linear(targets[i].x, targets[i].y)
  {
    seq(|targets|, i requires 0 <= i < |targets| => Linear(targets[i].x, targets[i].y))
  }

  /** The program written for points already reduced and scaled. */
  function ProgramFor(scaled: seq<Point>, feedRate: real): seq<GCommand>
    requires |scaled| > 0
  {
    [Millimetres, AbsolutePositioning, SetFeed(feedRate), Rapid(scaled[0].x, scaled[0].y), SpindleOn]
    + Linears(CutTargets(scaled[0], scaled[1..]))
    + [SpindleOff, ReturnToOrigin]
  }

  /** The reduced points, scaled as `generateGCode` scales them. */
  function ScaledPoints(points: seq<Point>, scale: real, flipY: bool,
                        canvasWidth: Option<real>, canvasHeight: Option<real>): (r: seq<Point>)
    requires |points| > 0
    ensures |r| == |Reduce(points)| > 0
  {
    var reduced := Reduce(points);
    ScaleAll(reduced, scale, YScale(scale, canvasWidth, canvasHeight), flipY, MaxY(reduced))
  }

  /** The program `generateGCode` writes, one command per line. */
  function GCodeProgram(points: seq<Point>, feedRate: real, scale: real, flipY: bool,
                        canvasWidth: Option<real>, canvasHeight: Option<real>): seq<GCommand>
  {
    if |points| == 0 then []
    else ProgramFor(ScaledPoints(points, scale, flipY, canvasWidth, canvasHeight), feedRate)
  }

  lemma CutTargetsStep(last: Point, point: Point, rest: seq<Point>)
    ensures CutTargets(last, [point] + rest)
         == if Moves(last, point) then [point] + CutTargets(point, rest) else CutTargets(last, rest)
  {
    assert ([point] + rest)[0] == point && ([point] + rest)[1..] == rest;
  }

  lemma LinearsAppend(a: seq<Point>, b: seq<Point>)
    ensures Linears(a + b) == Linears(a) + Linears(b)
  {
  }

  /** The loop of `generateGCode`: scales each remaining reduced point and
      writes a G1 to it when it moves more than `MoveEpsilon` on some axis
      from the last point written. */
  method WriteCuts(optimized: seq<Point>, scale: real, yScale: real, flipY: bool, maxY: real)
    returns (cutLines: seq<GCommand>)
    requires |optimized| > 0
    ensures var scaled := ScaleAll(optimized, scale, yScale, flipY, maxY);
      cutLines == Linears(CutTargets(scaled[0], scaled[1..]))
  {
    ghost var scaled := ScaleAll(optimized, scale, yScale, flipY, maxY);
    var firstPoint := ScalePoint(optimized[0], scale, yScale, flipY, maxY);
    ghost var cuts: seq<Point> := [];
    cutLines := [];
    var lastScaledPoint := firstPoint;
    for i := 1 to |optimized|
      invariant cutLines == Linears(cuts)
      invariant cuts + CutTargets(lastScaledPoint, scaled[i..]) == CutTargets(firstPoint, scaled[1..])
    {
      var point := ScalePoint(optimized[i], scale, yScale, flipY, maxY);
      assert scaled[i..] == [point] + scaled[i + 1..];
      CutTargetsStep(lastScaledPoint, point, scaled[i + 1..]);
      var dx := Abs(point.x - lastScaledPoint.x);
      var dy := Abs(point.y - lastScaledPoint.y);
      if dx > MoveEpsilon || dy > MoveEpsilon {
        LinearsAppend(cuts, [point]);
        cutLines := cutLines + [Linear(point.x, point.y)];
        assert cuts + [point] + CutTargets(point, scaled[i + 1..]) == cuts + CutTargets(lastScaledPoint, scaled[i..]);
        cuts := cuts + [point];
        lastScaledPoint := point;
      }
    }
    assert scaled[|optimized|..] == [];
  }

  /** `generateGCode`, up to the text of each line. The emptiness test the
      source makes after reducing cannot succeed (the reduction keeps the
      first point), so it is not repeated here. */
  method GenerateGCode(points: seq<Point>, feedRate: real, scale: real, flipY: bool,
                       canvasWidth: Option<real>, canvasHeight: Option<real>)
    returns (lines: seq<GCommand>)
    ensures lines == GCodeProgram(points, feedRate, scale, flipY, canvasWidth, canvasHeight)
  {
    if |points| == 0 {
      return [];
    }
    var optimized := RemoveRedundantPoints(points);
    optimized := RemoveDuplicatePoints(optimized, MinDistance);

    var maxY := MaxY(optimized);
    var yScale := scale;
    if Truthy(canvasWidth) && Truthy(canvasHeight) {
      yScale := scale * (canvasHeight.value / canvasWidth.value);
    }
    assert optimized == Reduce(points);
    assert yScale == YScale(scale, canvasWidth, canvasHeight);
    ghost var scaled := ScaleAll(optimized, scale, yScale, flipY, maxY);
    assert scaled == ScaledPoints(points, scale, flipY, canvasWidth, canvasHeight);

    var firstPoint := ScalePoint(optimized[0], scale, yScale, flipY, maxY);
    var cutLines := WriteCuts(optimized, scale, yScale, flipY, maxY);
    lines := [Millimetres, AbsolutePositioning, SetFeed(feedRate), Rapid(firstPoint.x, firstPoint.y), SpindleOn]
      + cutLines + [SpindleOff, ReturnToOrigin];
  }

  // ---------------------------------------------------------------------
  // Properties of the program
  // ---------------------------------------------------------------------

  /** Every target written is one of the candidate points, at most one per
      candidate, and each moves more than `MoveEpsilon` from the one before. */
  lemma {:induction false} CutTargetsProperties(last: Point, rest: seq<Point>)
    ensures var t := CutTargets(last, rest);
      && |t| <= |rest|
      && (forall p :: p in t ==> p in rest)
      && (|t| > 0 ==> Moves(last, t[0]))
      && (forall i :: 0 <= i < |t| - 1 ==> Moves(t[i], t[i + 1]))
    decreases |rest|
  {
    if |rest| > 0 {
      CutTargetsProperties(rest[0], rest[1..]);
      CutTargetsProperties(last, rest[1..]);
      assert rest == [rest[0]] + rest[1..];
    }
  }

  /** The shape of a program for scaled points, and where its targets come
      from. */
  lemma ProgramForShape(scaled: seq<Point>, feedRate: real)
    requires |scaled| > 0
    ensures var prog := ProgramFor(scaled, feedRate);
      && 7 <= |prog| <= 6 + |scaled|
      && prog[..3] == [Millimetres, AbsolutePositioning, SetFeed(feedRate)]
      && prog[3] == Rapid(scaled[0].x, scaled[0].y) && prog[4] == SpindleOn
      && (forall i :: 5 <= i < |prog| - 2 ==> prog[i].Linear? && Point(prog[i].x, prog[i].y) in scaled)
      && prog[|prog| - 2..] == [SpindleOff, ReturnToOrigin]
      && (|prog| > 7 ==> Moves(scaled[0], Point(prog[5].x, prog[5].y)))
      && (forall i, j :: 5 <= i && j == i + 1 < |prog| - 2 ==> Moves(Point(prog[i].x, prog[i].y), Point(prog[j].x, prog[j].y)))
  {
    var t := CutTargets(scaled[0], scaled[1..]);
    CutTargetsProperties(scaled[0], scaled[1..]);
    var prog := ProgramFor(scaled, feedRate);
    assert |prog| == 7 + |t|;
    forall i | 5 <= i < |prog| - 2
      ensures prog[i] == Linear(t[i - 5].x, t[i - 5].y) && t[i - 5] in scaled
    {
      assert t[i - 5] in scaled[1..];
    }
  }

  /** No points, no program; otherwise the fixed frame G21, G90, G1 F, one G0
      to the first point, M3, then only G1 lines — at most one per remaining
      reduced point — then M5 and G0 X0 Y0. A single reduced point gives no
      G1 line. */
  lemma GCodeShape(points: seq<Point>, feedRate: real, scale: real, flipY: bool,
                   canvasWidth: Option<real>, canvasHeight: Option<real>)
    ensures var prog := GCodeProgram(points, feedRate, scale, flipY, canvasWidth, canvasHeight);
      && (|points| == 0 <==> prog == [])
      && (|points| > 0 ==>
            && 7 <= |prog| <= 6 + |Reduce(points)|
            && prog[..3] == [Millimetres, AbsolutePositioning, SetFeed(feedRate)]
            && prog[3].Rapid? && prog[4] == SpindleOn
            && (forall i :: 5 <= i < |prog| - 2 ==> prog[i].Linear?)
            && prog[|prog| - 2..] == [SpindleOff, ReturnToOrigin]
            && (|Reduce(points)| == 1 ==> |prog| == 7))
  {
    if |points| > 0 {
      ProgramForShape(ScaledPoints(points, scale, flipY, canvasWidth, canvasHeight), feedRate);
    }
  }

  /** Each G1 of `prog` moves more than 0.001 on some axis from the position
      the previous G0 or G1 reached. */
  ghost predicate MovesAreReal(prog: seq<GCommand>) {
    && (|prog| > 7 ==> prog[3].Rapid? && prog[5].Linear? && Moves(Point(prog[3].x, prog[3].y), Point(prog[5].x, prog[5].y)))
    && (forall i, j :: 5 <= i && j == i + 1 < |prog| - 2 ==>
          prog[i].Linear? && prog[j].Linear? && Moves(Point(prog[i].x, prog[i].y), Point(prog[j].x, prog[j].y)))
  }

  /** No G1 written by `generateGCode` is a move of 0.001 or less. */
  lemma GCodeMovesAreReal(points: seq<Point>, feedRate: real, scale: real, flipY: bool,
                          canvasWidth: Option<real>, canvasHeight: Option<real>)
    ensures MovesAreReal(GCodeProgram(points, feedRate, scale, flipY, canvasWidth, canvasHeight))
  {
    if |points| > 0 {
      ProgramForShape(ScaledPoints(points, scale, flipY, canvasWidth, canvasHeight), feedRate);
    }
  }

  /** One point under the flip: its Y is non-negative, and 0 for the
      highest point. */
  lemma FlipPoint(p: Point, scale: real, yScale: real, maxY: real)
    requires p.y <= maxY && yScale >= 0.0
    ensures ScalePoint(p, scale, yScale, true, maxY).y >= 0.0
    ensures p.y == maxY ==> ScalePoint(p, scale, yScale, true, maxY).y == 0.0
  {
    assert maxY * yScale - p.y * yScale == (maxY - p.y) * yScale;
    MulNonNegative(maxY - p.y, yScale);
  }

  /** Scaled Y values are non-negative under the flip with a non-negative Y
      scale, and the point with the largest Y lands on 0. */
  lemma FlipYScaled(reduced: seq<Point>, scale: real, yScale: real)
    requires |reduced| > 0 && yScale >= 0.0
    ensures var scaled := ScaleAll(reduced, scale, yScale, true, MaxY(reduced));
      && (forall k :: 0 <= k < |scaled| ==> scaled[k].y >= 0.0)
      && (forall k :: 0 <= k < |reduced| && reduced[k].y == MaxY(reduced) ==> scaled[k].y == 0.0)
  {
    var maxY := MaxY(reduced);
    var scaled := ScaleAll(reduced, scale, yScale, true, maxY);
    forall k | 0 <= k < |reduced|
      ensures scaled[k].y >= 0.0
      ensures reduced[k].y == maxY ==> scaled[k].y == 0.0
    {
      FlipPoint(reduced[k], scale, yScale, maxY);
    }
  }

  /** With the Y flip and a non-negative Y scale, every written Y is
      non-negative, and the point with the largest Y is written at Y = 0. */
  lemma FlipYNonNegative(points: seq<Point>, feedRate: real, scale: real,
                         canvasWidth: Option<real>, canvasHeight: Option<real>)
    requires |points| > 0
    requires YScale(scale, canvasWidth, canvasHeight) >= 0.0
    ensures var prog := GCodeProgram(points, feedRate, scale, true, canvasWidth, canvasHeight);
      forall i :: 0 <= i < |prog| && (prog[i].Rapid? || prog[i].Linear?) ==> prog[i].y >= 0.0
    ensures forall k :: 0 <= k < |Reduce(points)| && Reduce(points)[k].y == MaxY(Reduce(points)) ==>
        ScaledPoints(points, scale, true, canvasWidth, canvasHeight)[k].y == 0.0
  {
    var scaled := ScaledPoints(points, scale, true, canvasWidth, canvasHeight);
    FlipYScaled(Reduce(points), scale, YScale(scale, canvasWidth, canvasHeight));
    ProgramForShape(scaled, feedRate);
    var prog := ProgramFor(scaled, feedRate);
    forall i | 0 <= i < |prog| && (prog[i].Rapid? || prog[i].Linear?) ensures prog[i].y >= 0.0 {
      var p := Point(prog[i].x, prog[i].y);
      assert p in scaled;
    }
  }

  /** Without the flip and without an aspect correction (or with a square
      canvas) a point (x, y) is written as (x·scale, y·scale). */
  lemma UniformScaling(p: Point, scale: real, canvasWidth: Option<real>, canvasHeight: Option<real>, maxY: real)
    requires !(Truthy(canvasWidth) && Truthy(canvasHeight)) || canvasWidth == canvasHeight
    ensures ScalePoint(p, scale, YScale(scale, canvasWidth, canvasHeight), false, maxY)
         == Point(p.x * scale, p.y * scale)
  {
  }

  /** `generateGCode(points)` with every optional argument left out: feed
      1500, one pixel is 0.1 mm, Y flipped so that the top point is at 0 and
      no position is negative, and the first point is reached by the G0. */
  lemma DefaultArguments(points: seq<Point>)
    requires |points| > 0
    ensures var prog := GCodeProgram(points, DefaultFeedRate, DefaultScale, DefaultFlipY, None, None);
      var reduced := Reduce(points);
      && prog[2] == SetFeed(1500.0)
      && prog[3] == Rapid(reduced[0].x * 0.1, MaxY(reduced) * 0.1 - reduced[0].y * 0.1)
      && (forall i :: 0 <= i < |prog| && (prog[i].Rapid? || prog[i].Linear?) ==> prog[i].y >= 0.0)
  {
    GCodeShape(points, DefaultFeedRate, DefaultScale, DefaultFlipY, None, None);
    FlipYNonNegative(points, DefaultFeedRate, DefaultScale, None, None);
  }

  /** The three corner points of the worked example below. */
  function ExamplePoints(): seq<Point> {
    [Point(0.0, 0.0), Point(10.0, 0.0), Point(10.0, 10.0)]
  }

  /** The highest corner of the example is at Y = 10. */
  lemma ExampleMaxY()
    ensures MaxY(ExamplePoints()) == 10.0
  {
    var pts := ExamplePoints();
    var m := MaxY(pts);
    assert pts[2].y <= m;
    var i :| 0 <= i < 3 && pts[i].y == m;
  }

  /** Scaling a three-point list point by point. */
  lemma ScaleThree(a: Point, b: Point, c: Point, scale: real, yScale: real, flipY: bool, maxY: real)
    ensures ScaleAll([a, b, c], scale, yScale, flipY, maxY)
         == [ScalePoint(a, scale, yScale, flipY, maxY), ScalePoint(b, scale, yScale, flipY, maxY),
             ScalePoint(c, scale, yScale, flipY, maxY)]
  {
    assert [a, b, c][..2] == [a, b] && [a, b][..1] == [a] && [a][..0] == [];
  }

  /** The example's corners, scaled by 0.1 with the Y flip: the highest
      corner lands on Y = 0. */
  lemma ExampleCorners()
    ensures ScalePoint(Point(0.0, 0.0), 0.1, 0.1, true, 10.0) == Point(0.0, 1.0)
    ensures ScalePoint(Point(10.0, 0.0), 0.1, 0.1, true, 10.0) == Point(1.0, 1.0)
    ensures ScalePoint(Point(10.0, 10.0), 0.1, 0.1, true, 10.0) == Point(1.0, 0.0)
  {
    assert 10.0 * 0.1 == 1.0;
    assert 0.0 * 0.1 == 0.0;
  }

  /** Scaling, by 0.1 with the Y flip, an input the reduction leaves as the
      example's corners. */
  lemma ExampleScaledPoints(points: seq<Point>)
    requires Reduce(points) == ExamplePoints()
    ensures |points| > 0
    ensures ScaledPoints(points, 0.1, true, None, None)
         == [Point(0.0, 1.0), Point(1.0, 1.0), Point(1.0, 0.0)]
  {
    var pts := ExamplePoints();
    assert |points| > 0 by { assert |Reduce(points)| <= |points|; }
    assert MaxY(pts) == 10.0 by { ExampleMaxY(); }
    assert YScale(0.1, None, None) == 0.1;
    assert ScaleAll(pts, 0.1, 0.1, true, 10.0) == [Point(0.0, 1.0), Point(1.0, 1.0), Point(1.0, 0.0)] by {
      ScaleThree(pts[0], pts[1], pts[2], 0.1, 0.1, true, 10.0);
      ExampleCorners();
    }
  }

  /** The worked example: an input that reduces to (0,0), (10,0), (10,10),
      with feed 1500, scale 0.1 and the Y flip, gives G0 to (0,1) and G1 to
      (1,1) and (1,0). */
  lemma GCodeExample(points: seq<Point>)
    requires Reduce(points) == ExamplePoints()
    ensures GCodeProgram(points, 1500.0, 0.1, true, None, None)
         == [Millimetres, AbsolutePositioning, SetFeed(1500.0), Rapid(0.0, 1.0), SpindleOn,
             Linear(1.0, 1.0), Linear(1.0, 0.0), SpindleOff, ReturnToOrigin]
  {
    ExampleScaledPoints(points);
    ExampleProgram([Point(0.0, 1.0), Point(1.0, 1.0), Point(1.0, 0.0)]);
  }

  /** The program for the example's scaled corners. */
  lemma ExampleProgram(scaled: seq<Point>)
    requires scaled == [Point(0.0, 1.0), Point(1.0, 1.0), Point(1.0, 0.0)]
    ensures ProgramFor(scaled, 1500.0)
         == [Millimetres, AbsolutePositioning, SetFeed(1500.0), Rapid(0.0, 1.0), SpindleOn,
             Linear(1.0, 1.0), Linear(1.0, 0.0), SpindleOff, ReturnToOrigin]
  {
    assert scaled[1..][1..] == [Point(1.0, 0.0)];
    assert CutTargets(Point(1.0, 1.0), [Point(1.0, 0.0)]) == [Point(1.0, 0.0)];
    var targets := CutTargets(Point(0.0, 1.0), scaled[1..]);
    assert targets == [Point(1.0, 1.0), Point(1.0, 0.0)];
    assert Linears(targets) == [Linear(1.0, 1.0), Linear(1.0, 0.0)];
  }

  // ---------------------------------------------------------------------
  // Rendering
  // ---------------------------------------------------------------------

  /** The text of one command. `fixed3` stands for `toFixed(3)` and `number`
      for the default number-to-string conversion; both are left
      uninterpreted. */
  function RenderCommand(c: GCommand, fixed3: real -> string, number: real -> string): string {
    match c
    case Millimetres => "G21"
    case AbsolutePositioning => "G90"
    case SetFeed(f) => "G1 F" + number(f)
    case Rapid(x, y) => "G0 X" + fixed3(x) + " Y" + fixed3(y)
    case SpindleOn => "M3"
    case Linear(x, y) => "G1 X" + fixed3(x) + " Y" + fixed3(y)
    case SpindleOff => "M5"
    case ReturnToOrigin => "G0 X0 Y0"
  }

  /** `lines.join('\n')`. */
  function RenderProgram(prog: seq<GCommand>, fixed3: real -> string, number: real -> string): string
    decreases |prog|
  {
    if |prog| == 0 then ""
    else if |prog| == 1 then RenderCommand(prog[0], fixed3, number)
    else RenderCommand(prog[0], fixed3, number) + "\n" + RenderProgram(prog[1..], fixed3, number)
  }

  /** An empty point list gives the empty string. */
  lemma EmptyInputEmptyText(feedRate: real, scale: real, flipY: bool,
                            canvasWidth: Option<real>, canvasHeight: Option<real>,
                            fixed3: real -> string, number: real -> string)
    ensures RenderProgram(GCodeProgram([], feedRate, scale, flipY, canvasWidth, canvasHeight), fixed3, number) == ""
  {
  }
}

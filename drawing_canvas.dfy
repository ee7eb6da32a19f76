/** The stone-layout geometry of components/DrawingCanvas.tsx: the canvas
    size in pixels for a wall of given size in metres, rotating the selected
    stone, the per-stone rectangle-cutting program, and the list updates of
    a drag (move or copy) and of a transform. */
module DrawingCanvas {
  import opened Points

  /** `cropSelection` of a stone, in the source image's pixels. */
  datatype CropBox = CropBox(startX: real, startY: real, endX: real, endY: real)

  /** `StoneImage`: a placed stone, centred on (x, y) in canvas pixels. */
  datatype StoneImage = StoneImage(id: string, stoneName: string, imageData: string,
                                   x: real, y: real, width: real, height: real,
                                   rotation: real, originalImageUrl: string,
                                   cropSelection: CropBox)

  /** The ids of the stones, in order. */
  function Ids(stones: seq<StoneImage>): (r: seq<string>)
    ensures |r| == |stones| && forall i :: 0 <= i < |stones| ==> r[i] == stones[i].id
  {
    seq(|stones|, i requires 0 <= i < |stones| => stones[i].id)
  }

  ghost predicate UniqueIds(stones: seq<StoneImage>) {
    forall i, j :: 0 <= i < j < |stones| ==> stones[i].id != stones[j].id
  }

  // ---------------------------------------------------------------------
  // Canvas size
  // ---------------------------------------------------------------------

  const MaxDisplaySize: real := 1200.0
  const MinCanvasWidth: real := 400.0
  const MinCanvasHeight: real := 300.0

  /** The canvas size: 800 wide (landscape) or 600 high (portrait), the
      other side from the aspect ratio, then grown so that it is at least
      400 by 300, keeping the ratio. */
  method CanvasSize(canvasSizeX: real, canvasSizeY: real) returns (canvasWidth: real, canvasHeight: real)
    requires canvasSizeX > 0.0 && canvasSizeY > 0.0
    ensures canvasWidth >= MinCanvasWidth && canvasHeight >= MinCanvasHeight
    ensures canvasWidth * canvasSizeY == canvasHeight * canvasSizeX
    ensures canvasWidth == 800.0 || canvasHeight == 600.0
         || canvasWidth == MinCanvasWidth || canvasHeight == MinCanvasHeight
  {
    var aspectRatio := canvasSizeX / canvasSizeY;
    DivMul(canvasSizeX, canvasSizeY);
    canvasWidth, canvasHeight := 800.0, 600.0;
    if aspectRatio >= 1.0 {
      canvasWidth := Min(MaxDisplaySize, 800.0);
      canvasHeight := canvasWidth / aspectRatio;
      DivMul(canvasWidth, aspectRatio);
      HeightFromWidth(canvasSizeX, canvasSizeY, aspectRatio, canvasWidth, canvasHeight);
    } else {
      canvasHeight := Min(MaxDisplaySize, 600.0);
      canvasWidth := canvasHeight * aspectRatio;
      WidthFromHeight(canvasSizeX, canvasSizeY, aspectRatio, canvasWidth, canvasHeight);
    }
    if canvasWidth < MinCanvasWidth {
      canvasWidth := MinCanvasWidth;
      canvasHeight := canvasWidth / aspectRatio;
      DivMul(canvasWidth, aspectRatio);
      HeightFromWidth(canvasSizeX, canvasSizeY, aspectRatio, canvasWidth, canvasHeight);
    }
    if canvasHeight < MinCanvasHeight {
      canvasHeight := MinCanvasHeight;
      canvasWidth := canvasHeight * aspectRatio;
      WidthFromHeight(canvasSizeX, canvasSizeY, aspectRatio, canvasWidth, canvasHeight);
    }
  }

  /** A height derived from a width by the aspect ratio `a` keeps the
      wall's ratio; it exceeds the width for a portrait wall, and from a
      width of 800 it is at least 300 unless the wall is more than 8/3 as
      wide as high. */
  lemma HeightFromWidth(sizeX: real, sizeY: real, a: real, w: real, h: real)
    requires sizeY > 0.0 && a > 0.0 && w > 0.0
    requires a * sizeY == sizeX && h * a == w
    ensures w * sizeY == h * sizeX && h > 0.0
    ensures a < 1.0 ==> h > w
    ensures 3.0 * a <= 8.0 && w == 800.0 ==> h >= 300.0
  {
    calc {
      h * sizeX;
      h * (a * sizeY);
      (h * a) * sizeY;
      w * sizeY;
    }
    QuotientPositive(h, a, w);
    if a < 1.0 {
      QuotientLarger(h, a, w);
    }
    if 3.0 * a <= 8.0 && w == 800.0 {
      QuotientAtLeast(h, a);
    }
  }

  lemma QuotientPositive(h: real, a: real, w: real)
    requires a > 0.0 && w > 0.0 && h * a == w
    ensures h > 0.0
  {
    if h <= 0.0 {
      MulNonNegative(-h, a);
      assert false;
    }
  }

  lemma QuotientLarger(h: real, a: real, w: real)
    requires h > 0.0 && a < 1.0 && h * a == w
    ensures h > w
  {
    MulPositive(h, 1.0 - a);
    assert h * (1.0 - a) == h - h * a;
  }

  lemma QuotientAtLeast(h: real, a: real)
    requires h > 0.0 && 3.0 * a <= 8.0 && h * a == 800.0
    ensures h >= 300.0
  {
    MulNonNegative(h, 8.0 - 3.0 * a);
    assert h * (8.0 - 3.0 * a) == 8.0 * h - 3.0 * (h * a);
  }

  /** A width derived from a height keeps the ratio, and is at least the
      height for a landscape wall. */
  lemma WidthFromHeight(sizeX: real, sizeY: real, a: real, w: real, h: real)
    requires sizeY > 0.0 && a > 0.0 && h > 0.0
    requires a * sizeY == sizeX && w == h * a
    ensures w * sizeY == h * sizeX && w > 0.0
    ensures a >= 1.0 ==> w >= h
  {
    calc {
      (h * a) * sizeY;
      h * (a * sizeY);
      h * sizeX;
    }
    MulPositive(h, a);
    if a >= 1.0 {
      MulNonNegative(h, a - 1.0);
      assert h * (a - 1.0) == h * a - h;
    }
  }

  lemma DivMul(x: real, y: real)
    requires y > 0.0
    ensures (x / y) * y == x
  {
  }
  /** With the canvas keeping the wall's aspect ratio, one pixel is the
      same length on both axes. */
  lemma EqualScaleFactors(canvasSizeX: real, canvasSizeY: real, canvasWidth: real, canvasHeight: real)
    requires canvasWidth > 0.0 && canvasHeight > 0.0
    requires canvasWidth * canvasSizeY == canvasHeight * canvasSizeX
    ensures canvasSizeX / canvasWidth == canvasSizeY / canvasHeight
  {
    var fx := canvasSizeX / canvasWidth;
    var fy := canvasSizeY / canvasHeight;
    assert fx * canvasWidth == canvasSizeX;
    assert fy * canvasHeight == canvasSizeY;
    assert fx * canvasWidth * canvasHeight == fy * canvasHeight * canvasWidth;
  }

  // ---------------------------------------------------------------------
  // Rotation
  // ---------------------------------------------------------------------

  /** Truncation toward zero. */
  function Trunc(r: real): int {
    if r >= 0.0 then r.Floor else -((-r).Floor)
  }

  /** JavaScript's `a % 360`: the remainder of a division truncated toward
      zero, so it has the sign of `a`. */
  function Rem360(a: real): (r: real)
    ensures -360.0 < r < 360.0
    ensures a >= 0.0 ==> r >= 0.0
    ensures a < 0.0 ==> r <= 0.0
    ensures -360.0 < a < 360.0 ==> r == a
  {
    a - 360.0 * (Trunc(a / 360.0) as real)
  }

  /** `d` is a whole number of turns. */
  predicate WholeTurns(d: real) {
    (d / 360.0).Floor as real == d / 360.0
  }

  /** The new rotation of `handleRotate`: `(rotation + angle) % 360`, then
      moved into [-180, 180] by one turn. */
  function NormalizeRotation(rotation: real, angle: real): (r: real)
    ensures -180.0 <= r <= 180.0
    ensures WholeTurns(r - (rotation + angle))
  {
    var newRotation := Rem360(rotation + angle);
    WholeTurnsOf(rotation + angle, newRotation);
    if newRotation > 180.0 then
      WholeTurnsShift(newRotation - (rotation + angle), -1);
      newRotation - 360.0
    else if newRotation < -180.0 then
      WholeTurnsShift(newRotation - (rotation + angle), 1);
      newRotation + 360.0
    else newRotation
  }

  lemma WholeTurnsOf(a: real, r: real)
    requires r == Rem360(a)
    ensures WholeTurns(r - a)
  {
    var k := Trunc(a / 360.0);
    assert r - a == -360.0 * (k as real);
    assert (r - a) / 360.0 == (-k) as real;
    IntFloor(-k);
  }

  lemma WholeTurnsShift(d: real, turns: int)
    requires WholeTurns(d)
    ensures WholeTurns(d + 360.0 * (turns as real))
  {
    var k := (d / 360.0).Floor;
    assert d / 360.0 == k as real;
    assert (d + 360.0 * (turns as real)) / 360.0 == (k + turns) as real;
    IntFloor(k + turns);
  }

  lemma IntFloor(k: int)
    ensures (k as real).Floor == k
  {
  }

  /** A rotation already normalised is left as it is by a rotation by 0. */
  lemma NormalizeIdempotent(rotation: real, angle: real)
    ensures NormalizeRotation(NormalizeRotation(rotation, angle), 0.0) == NormalizeRotation(rotation, angle)
  {
  }

  /** The position of the first stone with the given id, or the length of
      the list when there is none. */
  function FirstIndex(stones: seq<StoneImage>, id: string): (r: nat)
    ensures r <= |stones|
    ensures r < |stones| ==> stones[r].id == id
    ensures forall j :: 0 <= j < r ==> stones[j].id != id
  {
    if |stones| == 0 || stones[0].id == id then 0
    else 1 + FirstIndex(stones[1..], id)
  }

  /** The first stone with the given id (`stoneImages.find`). */
  function FindById(stones: seq<StoneImage>, id: string): (r: Option<StoneImage>)
    ensures r.None? <==> id !in Ids(stones)
    ensures r.Some? ==> r.value == stones[FirstIndex(stones, id)]
  {
    var k := FirstIndex(stones, id);
    if k < |stones| then
      assert Ids(stones)[k] == id;
      Some(stones[k])
    else None
  }

  /** `stoneImages.map(s => s.id === id ? update(s) : s)`. */
  function UpdateWhere(stones: seq<StoneImage>, id: string, update: StoneImage -> StoneImage): (r: seq<StoneImage>)
    ensures |r| == |stones|
    ensures forall i :: 0 <= i < |stones| ==> r[i] == if stones[i].id == id then update(stones[i]) else stones[i]
  {
    seq(|stones|, i requires 0 <= i < |stones| => if stones[i].id == id then update(stones[i]) else stones[i])
  }

  /** `handleRotate`: nothing happens without a selection (`null` or the
      empty string) or when no stone has the selected id; otherwise every
      stone with that id gets the normalised rotation of the first one. */
  function HandleRotate(stones: seq<StoneImage>, selected: Option<string>, angle: real): seq<StoneImage> {
    if selected.None? || selected.value == "" then stones
    else
      match FindById(stones, selected.value)
      case None => stones
      case Some(stone) =>
        var rotation := NormalizeRotation(stone.rotation, angle);
        UpdateWhere(stones, selected.value, (s: StoneImage) => s.(rotation := rotation))
  }

  /** Rotating changes only the selected stone, and only its rotation, to a
      value in [-180, 180] a whole number of turns from the old rotation
      plus the angle; the ids are unchanged. */
  lemma RotateChangesOnlySelected(stones: seq<StoneImage>, selected: Option<string>, angle: real)
    requires UniqueIds(stones)
    ensures var r := HandleRotate(stones, selected, angle);
      && |r| == |stones| && Ids(r) == Ids(stones)
      && forall i :: 0 <= i < |stones| ==>
           if selected.Some? && selected.value != "" && stones[i].id == selected.value then
             && r[i] == stones[i].(rotation := r[i].rotation)
             && -180.0 <= r[i].rotation <= 180.0
             && WholeTurns(r[i].rotation - (stones[i].rotation + angle))
           else r[i] == stones[i]
  {
    var r := HandleRotate(stones, selected, angle);
    if selected.Some? && selected.value != "" {
      var k := FirstIndex(stones, selected.value);
      forall i | 0 <= i < |stones| && stones[i].id == selected.value
        ensures i == k
      {
      }
    }
  }

  /** Without a selection, or with an id no stone has, nothing changes. */
  lemma RotateWithoutSelection(stones: seq<StoneImage>, selected: Option<string>, angle: real)
    requires selected.None? || selected.value == "" || selected.value !in Ids(stones)
    ensures HandleRotate(stones, selected, angle) == stones
  {
  }

  // ---------------------------------------------------------------------
  // Per-stone cutting program
  // ---------------------------------------------------------------------

  /** The lines of one stone's program. `Header` is the comment block naming
      the stone and its position, size and rotation. */
  datatype StoneCmd =
    | Header(number: int, id: string, xMetres: real, yMetres: real,
             widthMetres: real, heightMetres: real, rotation: real)
    | Millimetres                                 // G21
    | AbsolutePositioning                         // G90
    | Home                                        // G28
    | Separator                                   // ;
    | Rapid(x: real, y: real, note: string)       // G0 X Y
    | RotateFrame(x: real, y: real, angle: real)  // G68 X Y R
    | Plunge                                      // G1 Z-5 F100
    | Cut(x: real, y: real, note: string)         // G1 X Y F500
    | Raise                                       // G0 Z5
    | CancelRotation                              // G69
    | ProgramEnd                                  // M30

  /** `Math.abs(stone.rotation) > 0.1`. */
  predicate IsRotated(stone: StoneImage) { Abs(stone.rotation) > 0.1 }

  /** The rectangle's corners in millimetres, from the start corner
      (x - w/2, y - h/2) counter-clockwise and back to it. */
  function CornerPath(xMM: real, yMM: real, widthMM: real, heightMM: real): seq<Point> {
    var hw, hh := widthMM / 2.0, heightMM / 2.0;
    [Point(xMM - hw, yMM - hh), Point(xMM + hw, yMM - hh), Point(xMM + hw, yMM + hh),
     Point(xMM - hw, yMM + hh), Point(xMM - hw, yMM - hh)]
  }

  /** The program of the stone numbered `number` (from 1), with
      `pixelsToMetresX`/`Y` the canvas scale. */
  function StoneProgram(stone: StoneImage, number: int, pixelsToMetresX: real, pixelsToMetresY: real): seq<StoneCmd> {
    var xMetres, yMetres := stone.x * pixelsToMetresX, stone.y * pixelsToMetresY;
    var widthMetres, heightMetres := stone.width * pixelsToMetresX, stone.height * pixelsToMetresY;
    var xMM, yMM := xMetres * 1000.0, yMetres * 1000.0;
    var corners := CornerPath(xMM, yMM, widthMetres * 1000.0, heightMetres * 1000.0);
    [Header(number, stone.id, xMetres, yMetres, widthMetres, heightMetres, stone.rotation),
     Millimetres, AbsolutePositioning, Home, Separator,
     Rapid(xMM, yMM, "Move to stone position")]
    + (if IsRotated(stone) then [RotateFrame(xMM, yMM, stone.rotation)] else [])
    + [Rapid(corners[0].x, corners[0].y, "Move to start position (bottom-left)"),
       Plunge,
       Cut(corners[1].x, corners[1].y, "Cut to right"),
       Cut(corners[2].x, corners[2].y, "Cut to top"),
       Cut(corners[3].x, corners[3].y, "Cut to left"),
       Cut(corners[4].x, corners[4].y, "Cut to bottom (close rectangle)"),
       Raise]
    + (if IsRotated(stone) then [CancelRotation] else [])
    + [Separator, Home, ProgramEnd]
  }

  /** `generateGCode`: one program per stone, in list order, numbered from
      1; no stones, no program. */
  method GenerateStonePrograms(stones: seq<StoneImage>, canvasSizeX: real, canvasSizeY: real,
                               canvasWidth: real, canvasHeight: real)
    returns (programs: seq<seq<StoneCmd>>)
    requires canvasWidth > 0.0 && canvasHeight > 0.0
    ensures |programs| == |stones|
    ensures forall i :: 0 <= i < |stones| ==>
      programs[i] == StoneProgram(stones[i], i + 1, canvasSizeX / canvasWidth, canvasSizeY / canvasHeight)
  {
    programs := [];
    if |stones| == 0 {
      return;
    }
    var pixelsToMetersX := canvasSizeX / canvasWidth;
    var pixelsToMetersY := canvasSizeY / canvasHeight;
    for index := 0 to |stones|
      invariant |programs| == index
      invariant forall i :: 0 <= i < index ==>
        programs[i] == StoneProgram(stones[i], i + 1, pixelsToMetersX, pixelsToMetersY)
    {
      programs := programs + [StoneProgram(stones[index], index + 1, pixelsToMetersX, pixelsToMetersY)];
    }
  }

  /** The fixed frame of every stone program: it begins with the comment
      block, `G21`, `G90`, `G28`, moves to the stone's position in
      millimetres, and ends `G28`, `M30`; `G68` appears exactly when the
      stone is rotated by more than 0.1 degree, and `G69` exactly when `G68`
      does. */
  lemma StoneProgramFrame(stone: StoneImage, number: int, fx: real, fy: real)
    ensures var p := StoneProgram(stone, number, fx, fy);
      && p[0].Header? && p[0].number == number && p[0].id == stone.id
      && p[1..4] == [Millimetres, AbsolutePositioning, Home]
      && p[5] == Rapid(stone.x * fx * 1000.0, stone.y * fy * 1000.0, "Move to stone position")
      && p[|p| - 2..] == [Home, ProgramEnd]
      && |p| == 16 + (if IsRotated(stone) then 2 else 0)
      && ((exists i :: 0 <= i < |p| && p[i].RotateFrame?) <==> IsRotated(stone))
      && ((exists i :: 0 <= i < |p| && p[i].CancelRotation?) <==> IsRotated(stone))
  {
    var p := StoneProgram(stone, number, fx, fy);
    if IsRotated(stone) {
      assert p[6].RotateFrame? && p[14].CancelRotation?;
    } else {
      assert forall i :: 0 <= i < |p| ==> !p[i].RotateFrame? && !p[i].CancelRotation?;
    }
  }

  /** The cut: a rapid move to the start corner, the plunge, four cuts
      round the rectangle's corners and back to the start, and the raise. */
  lemma StoneProgramCut(stone: StoneImage, number: int, fx: real, fy: real)
    ensures var p := StoneProgram(stone, number, fx, fy);
      var c := CornerPath(stone.x * fx * 1000.0, stone.y * fy * 1000.0,
                          stone.width * fx * 1000.0, stone.height * fy * 1000.0);
      var j := if IsRotated(stone) then 7 else 6;
      && p[j].Rapid? && Point(p[j].x, p[j].y) == c[0]
      && p[j + 1] == Plunge
      && (forall k :: 1 <= k <= 4 ==> p[j + 1 + k].Cut? && Point(p[j + 1 + k].x, p[j + 1 + k].y) == c[k])
      && p[j + 6] == Raise
  {
  }

  /** Twice the signed area (shoelace formula) of a closed path. */
  function ShoelaceSum(ps: seq<Point>): real
    decreases |ps|
  {
    if |ps| < 2 then 0.0
    else ps[0].x * ps[1].y - ps[1].x * ps[0].y + ShoelaceSum(ps[1..])
  }

  /** The corner path goes round counter-clockwise (y up): its signed area
      is the rectangle's area, positive for a stone of positive size, and
      it ends where it starts. */
  lemma CornerPathCounterClockwise(xMM: real, yMM: real, widthMM: real, heightMM: real)
    ensures var c := CornerPath(xMM, yMM, widthMM, heightMM);
      && ShoelaceSum(c) == 2.0 * widthMM * heightMM
      && c[4] == c[0]
  {
    var c := CornerPath(xMM, yMM, widthMM, heightMM);
    var hw, hh := widthMM / 2.0, heightMM / 2.0;
    assert c[4..][1..] == [];
    assert ShoelaceSum(c[4..]) == 0.0;
    assert ShoelaceSum(c[3..]) == (xMM - hw) * (yMM - hh) - (xMM - hw) * (yMM + hh);
    assert ShoelaceSum(c[2..]) == (xMM + hw) * (yMM + hh) - (xMM - hw) * (yMM + hh) + ShoelaceSum(c[3..]);
    assert ShoelaceSum(c[1..]) == (xMM + hw) * (yMM + hh) - (xMM + hw) * (yMM - hh) + ShoelaceSum(c[2..]);
    assert ShoelaceSum(c) == (xMM - hw) * (yMM - hh) - (xMM + hw) * (yMM - hh) + ShoelaceSum(c[1..]);
    assert ShoelaceSum(c) == 8.0 * hw * hh;
  }

  /** On a canvas that keeps the wall's aspect ratio, the program's
      rectangle has the stone's on-screen proportions. */
  lemma ProgramKeepsProportions(stone: StoneImage, canvasSizeX: real, canvasSizeY: real,
                                canvasWidth: real, canvasHeight: real)
    requires canvasWidth > 0.0 && canvasHeight > 0.0
    requires canvasWidth * canvasSizeY == canvasHeight * canvasSizeX
    ensures var fx, fy := canvasSizeX / canvasWidth, canvasSizeY / canvasHeight;
      (stone.width * fx * 1000.0) * stone.height == (stone.height * fy * 1000.0) * stone.width
  {
    EqualScaleFactors(canvasSizeX, canvasSizeY, canvasWidth, canvasHeight);
  }

  // ---------------------------------------------------------------------
  // Drag and transform
  // ---------------------------------------------------------------------

  /** The stones and the selection after a handler. */
  datatype Layout = Layout(stones: seq<StoneImage>, selected: Option<string>)

  /** `onDragEnd` of the stone `stone` dropped at (newX, newY). With Ctrl and
      Alt held (`copy`), a copy with the fresh id `newId` is appended at the
      drop position, the original is put back at its start position and the
      copy is selected; otherwise the stone moves. */
  function OnDragEnd(stones: seq<StoneImage>, selected: Option<string>, stone: StoneImage,
                     newX: real, newY: real, copy: bool, newId: string): Layout
  {
    if copy then
      var newStone := stone.(id := newId, x := newX, y := newY);
      Layout(UpdateWhere(stones, stone.id, (s: StoneImage) => s.(x := stone.x, y := stone.y)) + [newStone], Some(newId))
    else
      Layout(UpdateWhere(stones, stone.id, (s: StoneImage) => s.(x := newX, y := newY)), selected)
  }

  /** A move changes only the dragged stone's position and keeps the list's
      length, order, ids and selection. */
  lemma DragMoves(stones: seq<StoneImage>, selected: Option<string>, stone: StoneImage,
                  newX: real, newY: real, newId: string)
    ensures var l := OnDragEnd(stones, selected, stone, newX, newY, false, newId);
      && |l.stones| == |stones| && Ids(l.stones) == Ids(stones) && l.selected == selected
      && forall i :: 0 <= i < |stones| ==>
           l.stones[i] == if stones[i].id == stone.id then stones[i].(x := newX, y := newY) else stones[i]
  {
  }

  /** A copy appends exactly one stone, the dragged one at the drop position
      under the new id, selects it, and leaves the original where it was: a
      listed stone with a unique id makes the rest of the list unchanged,
      and a fresh id keeps the ids unique. */
  lemma DragCopies(stones: seq<StoneImage>, selected: Option<string>, stone: StoneImage,
                   newX: real, newY: real, newId: string)
    requires stone in stones && UniqueIds(stones)
    ensures var l := OnDragEnd(stones, selected, stone, newX, newY, true, newId);
      && |l.stones| == |stones| + 1
      && l.stones[..|stones|] == stones
      && l.stones[|stones|] == stone.(id := newId, x := newX, y := newY)
      && l.selected == Some(newId)
      && (newId !in Ids(stones) ==> UniqueIds(l.stones))
  {
    var l := OnDragEnd(stones, selected, stone, newX, newY, true, newId);
    forall i | 0 <= i < |stones| ensures l.stones[i] == stones[i] {
      if stones[i].id == stone.id {
        var j :| 0 <= j < |stones| && stones[j] == stone;
        assert i == j;
      }
    }
    if newId !in Ids(stones) {
      forall i, j | 0 <= i < j < |l.stones| ensures l.stones[i].id != l.stones[j].id {
        if j == |stones| {
          assert Ids(stones)[i] == stones[i].id;
        }
      }
    }
  }

  /** `onTransformEnd`: the transformed stone takes the node's position and
      rotation (not normalised). */
  function OnTransformEnd(stones: seq<StoneImage>, stone: StoneImage,
                          newX: real, newY: real, newRotation: real): seq<StoneImage>
  {
    UpdateWhere(stones, stone.id, (s: StoneImage) => s.(x := newX, y := newY, rotation := newRotation))
  }

  /** A transform changes only the transformed stone, and only its position
      and rotation. */
  lemma TransformChangesOnlyStone(stones: seq<StoneImage>, stone: StoneImage,
                                  newX: real, newY: real, newRotation: real)
    ensures var r := OnTransformEnd(stones, stone, newX, newY, newRotation);
      && |r| == |stones| && Ids(r) == Ids(stones)
      && forall i :: 0 <= i < |stones| ==>
           r[i] == if stones[i].id == stone.id
                   then stones[i].(x := newX, y := newY, rotation := newRotation)
                   else stones[i]
  {
  }
}

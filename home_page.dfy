/** The selection and layout logic of app/page.tsx: deleting stones and
    ignore areas, adding an ignore area, the crop selection on a slab image
    (its bounds for each shape, kept inside the image), resizing it, the
    overlap test between crop selections, and adding a crop to the canvas
    as a new stone. The canvas-size block the page repeats is the one of
    components/DrawingCanvas.tsx, `DrawingCanvas.CanvasSize`. */
module HomePage {
  import opened Points
  import opened DrawingCanvas

  /** `IgnoreArea`: a rectangle of the canvas, by its top-left corner. */
  datatype IgnoreArea = IgnoreArea(id: string, x: real, y: real, width: real, height: real)

  // ---------------------------------------------------------------------
  // Deleting
  // ---------------------------------------------------------------------

  /** `items.filter(item => item.id !== id)`, the id read by `idOf`. */
  function WithoutId<T(==,!new)>(items: seq<T>, id: string, idOf: T -> string): (r: seq<T>)
    ensures forall x :: x in r <==> x in items && idOf(x) != id
    ensures |r| <= |items|
  {
    if |items| == 0 then []
    else
      var last := items[|items| - 1];
      WithoutId(items[..|items| - 1], id, idOf) + (if idOf(last) != id then [last] else [])
  }

  /** The list and the selection after a deletion. */
  datatype AfterDelete<T> = AfterDelete(items: seq<T>, selected: Option<string>)

  /** `handleDeleteStone` and `handleDeleteIgnoreArea`: drop the entries
      with the id, and clear the selection if it was that id. */
  function HandleDelete<T(==,!new)>(items: seq<T>, selected: Option<string>, id: string, idOf: T -> string): AfterDelete<T> {
    AfterDelete(WithoutId(items, id, idOf), if selected == Some(id) then None else selected)
  }

  /** Deleting removes exactly the entries with the id and keeps the others
      in their order; it clears the selection exactly when the selection
      was that id; with no entry of that id the list is unchanged. */
  lemma {:induction false} DeleteRemovesExactlyId<T(!new)>(items: seq<T>, selected: Option<string>, id: string, idOf: T -> string)
    ensures var d := HandleDelete(items, selected, id, idOf);
      && (forall x :: x in d.items <==> x in items && idOf(x) != id)
      && IsSubsequence(d.items, items)
      && (d.selected.None? <==> selected.None? || selected.value == id)
      && (selected != Some(id) ==> d.selected == selected)
      && ((forall x :: x in items ==> idOf(x) != id) ==> d.items == items)
  {
    KeptInOrder(items, id, idOf);
    if forall x :: x in items ==> idOf(x) != id {
      NothingToDelete(items, id, idOf);
    }
  }

  lemma {:induction false} KeptInOrder<T(!new)>(items: seq<T>, id: string, idOf: T -> string)
    ensures IsSubsequence(WithoutId(items, id, idOf), items)
  {
    if |items| > 0 {
      var init, last := items[..|items| - 1], items[|items| - 1];
      KeptInOrder(init, id, idOf);
      var w := WithoutId(init, id, idOf);
      var keep := idOf(last) != id;
      SubsequenceExtend(w, init, last, keep);
      var r := if keep then w + [last] else w;
      assert WithoutId(items, id, idOf) == r by { WithoutIdLast(items, id, idOf); }
      assert init + [last] == items;
      assert IsSubsequence(r, items);
    }
  }

  lemma {:induction false} NothingToDelete<T(!new)>(items: seq<T>, id: string, idOf: T -> string)
    requires forall x :: x in items ==> idOf(x) != id
    ensures WithoutId(items, id, idOf) == items
  {
    if |items| > 0 {
      var init, last := items[..|items| - 1], items[|items| - 1];
      forall x | x in init ensures idOf(x) != id {
        var k :| 0 <= k < |init| && init[k] == x;
        assert items[k] == x;
      }
      NothingToDelete(init, id, idOf);
      assert items[|items| - 1] in items;
      WithoutIdLast(items, id, idOf);
      assert init + [last] == items;
    }
  }

  /** One step of the filter, from the end. */
  lemma WithoutIdLast<T(!new)>(items: seq<T>, id: string, idOf: T -> string)
    requires |items| > 0
    ensures var last := items[|items| - 1];
      WithoutId(items, id, idOf)
      == WithoutId(items[..|items| - 1], id, idOf) + (if idOf(last) != id then [last] else [])
  {
  }

  // ---------------------------------------------------------------------
  // Adding an ignore area
  // ---------------------------------------------------------------------

  /** `handleAddIgnoreArea`: an area of the requested size in metres,
      converted to canvas pixels and appended centred on the canvas (whose
      size is also returned). */
  method HandleAddIgnoreArea(ignoreAreas: seq<IgnoreArea>, canvasSizeX: real, canvasSizeY: real,
                             ignoreAreaWidth: real, ignoreAreaHeight: real, newId: string)
    returns (newAreas: seq<IgnoreArea>, canvasWidth: real, canvasHeight: real)
    requires canvasSizeX > 0.0 && canvasSizeY > 0.0
    ensures canvasWidth >= MinCanvasWidth && canvasHeight >= MinCanvasHeight
    ensures canvasWidth * canvasSizeY == canvasHeight * canvasSizeX
    ensures |newAreas| == |ignoreAreas| + 1 && newAreas[..|ignoreAreas|] == ignoreAreas
    ensures var a := newAreas[|ignoreAreas|];
      && a.id == newId
      && a.x + a.width / 2.0 == canvasWidth / 2.0
      && a.y + a.height / 2.0 == canvasHeight / 2.0
      && a.width * canvasSizeX == ignoreAreaWidth * canvasWidth
      && a.height * canvasSizeY == ignoreAreaHeight * canvasHeight
  {
    var x, y, w, h;
    canvasWidth, canvasHeight, x, y, w, h :=
      CentredOnCanvas(canvasSizeX, canvasSizeY, ignoreAreaWidth, ignoreAreaHeight);
    newAreas := ignoreAreas + [IgnoreArea(newId, x, y, w, h)];
  }

  /** The canvas size, then a box of the given size in metres converted to
      canvas pixels, with (x, y) the top-left corner that centres such a box
      on the canvas, as both "add" handlers compute it. */
  method CentredOnCanvas(canvasSizeX: real, canvasSizeY: real, widthMetres: real, heightMetres: real)
    returns (canvasWidth: real, canvasHeight: real, x: real, y: real, width: real, height: real)
    requires canvasSizeX > 0.0 && canvasSizeY > 0.0
    ensures canvasWidth >= MinCanvasWidth && canvasHeight >= MinCanvasHeight
    ensures canvasWidth * canvasSizeY == canvasHeight * canvasSizeX
    ensures x + width / 2.0 == canvasWidth / 2.0 && y + height / 2.0 == canvasHeight / 2.0
    ensures width * canvasSizeX == widthMetres * canvasWidth
    ensures height * canvasSizeY == heightMetres * canvasHeight
  {
    canvasWidth, canvasHeight := CanvasSize(canvasSizeX, canvasSizeY);
    var pixelsToMetersX := canvasSizeX / canvasWidth;
    var pixelsToMetersY := canvasSizeY / canvasHeight;
    width := widthMetres / pixelsToMetersX;
    height := heightMetres / pixelsToMetersY;
    MetresToPixels(widthMetres, canvasSizeX, canvasWidth);
    MetresToPixels(heightMetres, canvasSizeY, canvasHeight);
    x := canvasWidth / 2.0 - width / 2.0;
    y := canvasHeight / 2.0 - height / 2.0;
  }

  /** A length in metres divided by the metres per pixel is the length in
      pixels. */
  lemma MetresToPixels(metres: real, size: real, pixels: real)
    requires size > 0.0 && pixels > 0.0
    ensures (metres / (size / pixels)) * size == metres * pixels
  {
    var f := size / pixels;
    assert f * pixels == size;
    assert f > 0.0;
    var p := metres / f;
    assert p * f == metres;
    calc {
      p * size;
      p * (f * pixels);
      (p * f) * pixels;
      metres * pixels;
    }
  }

  // ---------------------------------------------------------------------
  // Crop selection on a slab image
  // ---------------------------------------------------------------------

  /** `selectedShape`. */
  datatype Shape = Rectangle | Circle | Triangle | Cube

  /** An entry of `slabImages`. */
  datatype Slab = Slab(id: string, name: string, url: string,
                       exampleWidthMeters: real, exampleHeightMeters: real)

  /** `slabImages`: three slabs, each shown as 3 m by 3 m. */
  function SlabImages(): (r: seq<Slab>)
    ensures forall i :: 0 <= i < |r| ==> r[i].exampleWidthMeters > 0.0 && r[i].exampleHeightMeters > 0.0
  {
    [Slab("stone1", "Stone 1", "/images/stone.1.png", 3.0, 3.0),
     Slab("stone2", "Stone 2", "/images/stone.2.png", 3.0, 3.0),
     Slab("stone3", "Stone 3", "/images/stone.3.png", 3.0, 3.0)]
  }

  /** `slabs.find(slab => slab.url === url)`. */
  function FindSlab(slabs: seq<Slab>, url: string): (r: Option<Slab>)
    ensures r.Some? ==> r.value in slabs && r.value.url == url
    ensures r.None? ==> forall s :: s in slabs ==> s.url != url
  {
    if |slabs| == 0 then None
    else if slabs[0].url == url then Some(slabs[0])
    else FindSlab(slabs[1..], url)
  }

  /** Half the selection's width and height in display pixels: a circle
      uses the larger dimension for both. */
  function HalfExtents(shape: Shape, widthInPixels: real, heightInPixels: real): (real, real) {
    if shape == Circle then
      var radius := Max(widthInPixels, heightInPixels) / 2.0;
      (radius, radius)
    else (widthInPixels / 2.0, heightInPixels / 2.0)
  }

  /** A circle's selection is a square of half-side max(w, h) / 2, which
      covers both dimensions; the other shapes keep their width and
      height. */
  lemma CircleSelectionIsSquare(shape: Shape, w: real, h: real)
    ensures var (hw, hh) := HalfExtents(shape, w, h);
      && (shape == Circle ==> hw == hh == Max(w, h) / 2.0 && 2.0 * hw >= w && 2.0 * hh >= h)
      && (shape != Circle ==> 2.0 * hw == w && 2.0 * hh == h)
  {
  }

  /** The shape's size in metres as display pixels, at the slab's scale. */
  function ShapePixels(slab: Slab, shapeWidth: real, shapeHeight: real,
                       imgDisplayWidth: real, imgDisplayHeight: real): (real, real)
    requires imgDisplayWidth > 0.0 && imgDisplayHeight > 0.0
    requires slab.exampleWidthMeters > 0.0 && slab.exampleHeightMeters > 0.0
  {
    (shapeWidth / (slab.exampleWidthMeters / imgDisplayWidth),
     shapeHeight / (slab.exampleHeightMeters / imgDisplayHeight))
  }

  /** `Math.max(0, Math.min(v, limit))`. */
  function Clamp(v: real, limit: real): real { Max(0.0, Min(v, limit)) }

  /** The selection of half-extents (hw, hh) around (cx, cy), each bound
      clamped to the image. */
  function ClampedBox(cx: real, cy: real, hw: real, hh: real, width: real, height: real): CropBox {
    CropBox(Clamp(cx - hw, width), Clamp(cy - hh, height), Clamp(cx + hw, width), Clamp(cy + hh, height))
  }

  /** The bounds lie in the image, and in order when the half-extents are
      not negative. */
  lemma ClampedBoxInImage(cx: real, cy: real, hw: real, hh: real, width: real, height: real)
    requires width >= 0.0 && height >= 0.0
    ensures var b := ClampedBox(cx, cy, hw, hh, width, height);
      && 0.0 <= b.startX <= width && 0.0 <= b.endX <= width
      && 0.0 <= b.startY <= height && 0.0 <= b.endY <= height
      && (hw >= 0.0 ==> b.startX <= b.endX)
      && (hh >= 0.0 ==> b.startY <= b.endY)
  {
  }

  /** A selection that fits around its centre is not clamped: it has
      exactly the shape's size. */
  lemma FittingBoxUnclamped(cx: real, cy: real, hw: real, hh: real, width: real, height: real)
    requires 0.0 <= hw <= cx <= width - hw && 0.0 <= hh <= cy <= height - hh
    ensures ClampedBox(cx, cy, hw, hh, width, height) == CropBox(cx - hw, cy - hh, cx + hw, cy + hh)
  {
  }

  /** `Math.max(half, Math.min(c, limit - half))`: the centre moved so the
      selection stays inside the image. */
  function ClampCentre(c: real, half: real, limit: real): (r: real)
    ensures 2.0 * half <= limit ==> half <= r <= limit - half
    ensures half <= c <= limit - half ==> r == c
  {
    Max(half, Min(c, limit - half))
  }

  /** The outcome of `updateCropSelectionFromShape`: the selection to set,
      and the shape position to set when the centre had to move. `None`
      is an early return (no slab selected, or an unknown one). */
  datatype CropUpdate = CropUpdate(selection: Option<CropBox>, shapePosition: Option<Point>)

  /** The slab the page works on: none when no slab image is selected
      (`!selectedSlabImage`) or when its url is not one of `slabImages`. */
  function SelectedSlab(selectedSlabImage: Option<string>): (r: Option<Slab>)
    ensures r.Some? <==> selectedSlabImage.Some? && selectedSlabImage.value != ""
                         && exists i :: 0 <= i < |SlabImages()| && SlabImages()[i].url == selectedSlabImage.value
    ensures r.Some? ==> r.value in SlabImages() && r.value.url == selectedSlabImage.value
    ensures r.Some? ==> r.value.exampleWidthMeters > 0.0 && r.value.exampleHeightMeters > 0.0
  {
    if selectedSlabImage.None? || selectedSlabImage.value == "" then None
    else FindSlab(SlabImages(), selectedSlabImage.value)
  }

  /** `updateCropSelectionDirectly`: the selection around the given centre,
      only its bounds clamped to the image; nothing without a known slab. */
  method UpdateCropSelectionDirectly(centerX: real, centerY: real, selectedSlabImage: Option<string>,
                                     shape: Shape, shapeWidth: real, shapeHeight: real,
                                     imgDisplayWidth: real, imgDisplayHeight: real)
    returns (selection: Option<CropBox>)
    requires imgDisplayWidth > 0.0 && imgDisplayHeight > 0.0
    ensures selection.Some? <==> SelectedSlab(selectedSlabImage).Some?
    ensures selection.Some? ==>
      && var (hw, hh) := ShapeHalfExtents(SelectedSlab(selectedSlabImage).value, shape, shapeWidth, shapeHeight,
                                          imgDisplayWidth, imgDisplayHeight);
      && selection.value == ClampedBox(centerX, centerY, hw, hh, imgDisplayWidth, imgDisplayHeight)
    ensures selection.Some? ==>
      && 0.0 <= selection.value.startX <= imgDisplayWidth && 0.0 <= selection.value.endX <= imgDisplayWidth
      && 0.0 <= selection.value.startY <= imgDisplayHeight && 0.0 <= selection.value.endY <= imgDisplayHeight
  {
    if selectedSlabImage.None? || selectedSlabImage.value == "" {
      return None;
    }
    var selectedSlab := FindSlab(SlabImages(), selectedSlabImage.value);
    if selectedSlab.None? {
      return None;
    }
    var slab := selectedSlab.value;
    var pixelsToMetersX := slab.exampleWidthMeters / imgDisplayWidth;
    var pixelsToMetersY := slab.exampleHeightMeters / imgDisplayHeight;
    var widthInPixels := shapeWidth / pixelsToMetersX;
    var heightInPixels := shapeHeight / pixelsToMetersY;
    assert (widthInPixels, heightInPixels) == ShapePixels(slab, shapeWidth, shapeHeight, imgDisplayWidth, imgDisplayHeight);
    ghost var (hw, hh) := ShapeHalfExtents(slab, shape, shapeWidth, shapeHeight, imgDisplayWidth, imgDisplayHeight);
    var startX, startY, endX, endY;
    if shape == Circle {
      var radius := Max(widthInPixels, heightInPixels) / 2.0;
      startX, startY := centerX - radius, centerY - radius;
      endX, endY := centerX + radius, centerY + radius;
    } else {
      startX, startY := centerX - widthInPixels / 2.0, centerY - heightInPixels / 2.0;
      endX, endY := centerX + widthInPixels / 2.0, centerY + heightInPixels / 2.0;
    }
    assert startX == centerX - hw && endX == centerX + hw;
    assert startY == centerY - hh && endY == centerY + hh;
    startX := Max(0.0, Min(startX, imgDisplayWidth));
    startY := Max(0.0, Min(startY, imgDisplayHeight));
    endX := Max(0.0, Min(endX, imgDisplayWidth));
    endY := Max(0.0, Min(endY, imgDisplayHeight));
    selection := Some(CropBox(startX, startY, endX, endY));
    ClampedBoxInImage(centerX, centerY, hw, hh, imgDisplayWidth, imgDisplayHeight);
  }

  /** The half-extents of the selection for the slab, the shape and its
      size in metres. */
  function ShapeHalfExtents(slab: Slab, shape: Shape, shapeWidth: real, shapeHeight: real,
                            imgDisplayWidth: real, imgDisplayHeight: real): (real, real)
    requires imgDisplayWidth > 0.0 && imgDisplayHeight > 0.0
    requires slab.exampleWidthMeters > 0.0 && slab.exampleHeightMeters > 0.0
  {
    var (w, h) := ShapePixels(slab, shapeWidth, shapeHeight, imgDisplayWidth, imgDisplayHeight);
    HalfExtents(shape, w, h)
  }

  /** The selection and the reported shape position around (cx, cy) for
      the half-extents (hw, hh). */
  function FromShape(cx: real, cy: real, updatePosition: bool, hw: real, hh: real,
                     imgDisplayWidth: real, imgDisplayHeight: real): CropUpdate
  {
    var fx := if updatePosition then ClampCentre(cx, hw, imgDisplayWidth) else cx;
    var fy := if updatePosition then ClampCentre(cy, hh, imgDisplayHeight) else cy;
    CropUpdate(Some(ClampedBox(fx, fy, hw, hh, imgDisplayWidth, imgDisplayHeight)),
               if updatePosition && (fx != cx || fy != cy) then Some(Point(fx, fy)) else None)
  }

  /** The selection lies in the image. With `updatePosition` a shape that
      fits in the image keeps its full size, centred within the image, and
      the centre is left alone when the shape already lies inside;
      without it the centre is never moved. */
  lemma FromShapeProperties(cx: real, cy: real, updatePosition: bool, hw: real, hh: real,
                            imgDisplayWidth: real, imgDisplayHeight: real)
    requires imgDisplayWidth >= 0.0 && imgDisplayHeight >= 0.0
    ensures var u := FromShape(cx, cy, updatePosition, hw, hh, imgDisplayWidth, imgDisplayHeight);
      && u.selection.Some?
      && var b := u.selection.value;
      && 0.0 <= b.startX <= imgDisplayWidth && 0.0 <= b.endX <= imgDisplayWidth
      && 0.0 <= b.startY <= imgDisplayHeight && 0.0 <= b.endY <= imgDisplayHeight
      && (!updatePosition ==> u.shapePosition.None?)
      && (updatePosition && hw <= cx <= imgDisplayWidth - hw && hh <= cy <= imgDisplayHeight - hh ==>
            u.shapePosition.None?)
      && (updatePosition && 0.0 <= hw && 2.0 * hw <= imgDisplayWidth && 0.0 <= hh && 2.0 * hh <= imgDisplayHeight ==>
            && b.endX - b.startX == 2.0 * hw && b.endY - b.startY == 2.0 * hh
            && hw <= (b.startX + b.endX) / 2.0 <= imgDisplayWidth - hw
            && hh <= (b.startY + b.endY) / 2.0 <= imgDisplayHeight - hh)
  {
    var fx := if updatePosition then ClampCentre(cx, hw, imgDisplayWidth) else cx;
    var fy := if updatePosition then ClampCentre(cy, hh, imgDisplayHeight) else cy;
    ClampedBoxInImage(fx, fy, hw, hh, imgDisplayWidth, imgDisplayHeight);
    if updatePosition && 0.0 <= hw && 2.0 * hw <= imgDisplayWidth && 0.0 <= hh && 2.0 * hh <= imgDisplayHeight {
      FittingBoxUnclamped(fx, fy, hw, hh, imgDisplayWidth, imgDisplayHeight);
    }
  }

  /** `updateCropSelectionFromShape`: with `updatePosition`, the centre is
      first moved so that the selection fits in the image (and the new
      position reported if it moved); then the bounds are clamped. */
  method UpdateCropSelectionFromShape(centerX: real, centerY: real, updatePosition: bool,
                                      selectedSlabImage: Option<string>,
                                      shape: Shape, shapeWidth: real, shapeHeight: real,
                                      imgDisplayWidth: real, imgDisplayHeight: real)
    returns (update: CropUpdate)
    requires imgDisplayWidth > 0.0 && imgDisplayHeight > 0.0
    ensures update ==
      if selectedSlabImage.None? || selectedSlabImage.value == ""
         || FindSlab(SlabImages(), selectedSlabImage.value).None?
      then CropUpdate(None, None)
      else
        var (hw, hh) := ShapeHalfExtents(FindSlab(SlabImages(), selectedSlabImage.value).value, shape,
                                         shapeWidth, shapeHeight, imgDisplayWidth, imgDisplayHeight);
        FromShape(centerX, centerY, updatePosition, hw, hh, imgDisplayWidth, imgDisplayHeight)
  {
    if selectedSlabImage.None? || selectedSlabImage.value == "" {
      return CropUpdate(None, None);
    }
    var selectedSlab := FindSlab(SlabImages(), selectedSlabImage.value);
    if selectedSlab.None? {
      return CropUpdate(None, None);
    }
    var slab := selectedSlab.value;
    var pixelsToMetersX := slab.exampleWidthMeters / imgDisplayWidth;
    var pixelsToMetersY := slab.exampleHeightMeters / imgDisplayHeight;
    var widthInPixels := shapeWidth / pixelsToMetersX;
    var heightInPixels := shapeHeight / pixelsToMetersY;
    var halfWidth, halfHeight;
    if shape == Circle {
      var radius := Max(widthInPixels, heightInPixels) / 2.0;
      halfWidth, halfHeight := radius, radius;
    } else {
      halfWidth, halfHeight := widthInPixels / 2.0, heightInPixels / 2.0;
    }
    assert (halfWidth, halfHeight) == ShapeHalfExtents(slab, shape, shapeWidth, shapeHeight,
                                                       imgDisplayWidth, imgDisplayHeight);
    var finalCenterX, finalCenterY, shapePosition :=
      FinalCentre(centerX, centerY, updatePosition, halfWidth, halfHeight, imgDisplayWidth, imgDisplayHeight);
    var box := CropSelectionAround(finalCenterX, finalCenterY, shape, widthInPixels, heightInPixels,
                                   imgDisplayWidth, imgDisplayHeight);
    update := CropUpdate(Some(box), shapePosition);
  }

  /** The centre the bounds are recomputed around, and the shape position
      to report when it moved. */
  method FinalCentre(centerX: real, centerY: real, updatePosition: bool, halfWidth: real, halfHeight: real,
                     imgDisplayWidth: real, imgDisplayHeight: real)
    returns (finalCenterX: real, finalCenterY: real, shapePosition: Option<Point>)
    ensures var u := FromShape(centerX, centerY, updatePosition, halfWidth, halfHeight,
                               imgDisplayWidth, imgDisplayHeight);
      && u.selection == Some(ClampedBox(finalCenterX, finalCenterY, halfWidth, halfHeight,
                                        imgDisplayWidth, imgDisplayHeight))
      && u.shapePosition == shapePosition
  {
    finalCenterX, finalCenterY := centerX, centerY;
    shapePosition := None;
    if updatePosition {
      finalCenterX := Max(halfWidth, Min(centerX, imgDisplayWidth - halfWidth));
      finalCenterY := Max(halfHeight, Min(centerY, imgDisplayHeight - halfHeight));
      if finalCenterX != centerX || finalCenterY != centerY {
        shapePosition := Some(Point(finalCenterX, finalCenterY));
      }
    }
  }

  /** The bounds recomputed around the final centre, then clamped. */
  method CropSelectionAround(centerX: real, centerY: real, shape: Shape,
                             widthInPixels: real, heightInPixels: real,
                             imgDisplayWidth: real, imgDisplayHeight: real)
    returns (box: CropBox)
    requires imgDisplayWidth >= 0.0 && imgDisplayHeight >= 0.0
    ensures var (hw, hh) := HalfExtents(shape, widthInPixels, heightInPixels);
      box == ClampedBox(centerX, centerY, hw, hh, imgDisplayWidth, imgDisplayHeight)
    ensures 0.0 <= box.startX <= imgDisplayWidth && 0.0 <= box.endX <= imgDisplayWidth
    ensures 0.0 <= box.startY <= imgDisplayHeight && 0.0 <= box.endY <= imgDisplayHeight
  {
    var startX, startY, endX, endY;
    if shape == Circle {
      var radius := Max(widthInPixels, heightInPixels) / 2.0;
      startX, startY := centerX - radius, centerY - radius;
      endX, endY := centerX + radius, centerY + radius;
    } else {
      startX, startY := centerX - widthInPixels / 2.0, centerY - heightInPixels / 2.0;
      endX, endY := centerX + widthInPixels / 2.0, centerY + heightInPixels / 2.0;
    }
    startX := Max(0.0, Min(startX, imgDisplayWidth));
    startY := Max(0.0, Min(startY, imgDisplayHeight));
    endX := Max(0.0, Min(endX, imgDisplayWidth));
    endY := Max(0.0, Min(endY, imgDisplayHeight));
    box := CropBox(startX, startY, endX, endY);
  }

  // ---------------------------------------------------------------------
  // Resizing the selection
  // ---------------------------------------------------------------------

  /** `resizeStart`: the selection when the resize began. */
  datatype ResizeStart = ResizeStart(width: real, height: real, centerX: real, centerY: real)

  const MinSelectionSize: real := 20.0

  /** The selection after its handle was dragged to (imgX, imgY), before
      the centre is kept inside the image. `e`/`s` grow the size by twice
      the cursor's distance past that edge; `w`/`n` do the same past the
      opposite edge and also move the centre by that distance. A `w` is
      applied after an `e`, an `n` after an `s`, as the later `if` wins. */
  function Resized(start: ResizeStart, handle: string, imgX: real, imgY: real): ResizeStart {
    var diffE := imgX - (start.centerX + start.width / 2.0);
    var diffW := start.centerX - start.width / 2.0 - imgX;
    var diffS := imgY - (start.centerY + start.height / 2.0);
    var diffN := start.centerY - start.height / 2.0 - imgY;
    ResizeStart(
      if 'w' in handle then Max(MinSelectionSize, start.width + diffW * 2.0)
      else if 'e' in handle then Max(MinSelectionSize, start.width + diffE * 2.0)
      else start.width,
      if 'n' in handle then Max(MinSelectionSize, start.height + diffN * 2.0)
      else if 's' in handle then Max(MinSelectionSize, start.height + diffS * 2.0)
      else start.height,
      if 'w' in handle then start.centerX - diffW else start.centerX,
      if 'n' in handle then start.centerY - diffN else start.centerY)
  }

  /** The resize step of the mouse-move handler: the handle's letters say
      which edges follow the cursor (`e`, `w`, `s`, `n`); a size never drops
      below 20 pixels, and the centre is then kept inside the image. */
  method ResizeSelection(start: ResizeStart, handle: string, imgX: real, imgY: real,
                         imgDisplayWidth: real, imgDisplayHeight: real)
    returns (newWidth: real, newHeight: real, newCenterX: real, newCenterY: real)
    ensures var r := Resized(start, handle, imgX, imgY);
      && newWidth == r.width && newHeight == r.height
      && newCenterX == ClampCentre(r.centerX, newWidth / 2.0, imgDisplayWidth)
      && newCenterY == ClampCentre(r.centerY, newHeight / 2.0, imgDisplayHeight)
    ensures 'e' in handle || 'w' in handle ==> newWidth >= MinSelectionSize
    ensures 's' in handle || 'n' in handle ==> newHeight >= MinSelectionSize
    ensures !('e' in handle || 'w' in handle) ==> newWidth == start.width
    ensures !('s' in handle || 'n' in handle) ==> newHeight == start.height
    ensures newWidth <= imgDisplayWidth ==> newWidth / 2.0 <= newCenterX <= imgDisplayWidth - newWidth / 2.0
    ensures newHeight <= imgDisplayHeight ==> newHeight / 2.0 <= newCenterY <= imgDisplayHeight - newHeight / 2.0
    ensures 'w' !in handle && newWidth / 2.0 <= start.centerX <= imgDisplayWidth - newWidth / 2.0 ==>
              newCenterX == start.centerX
    ensures 'n' !in handle && newHeight / 2.0 <= start.centerY <= imgDisplayHeight - newHeight / 2.0 ==>
              newCenterY == start.centerY
  {
    newWidth, newHeight := start.width, start.height;
    newCenterX, newCenterY := start.centerX, start.centerY;
    if 'e' in handle {
      var diff := imgX - (start.centerX + start.width / 2.0);
      newWidth := Max(MinSelectionSize, start.width + diff * 2.0);
    }
    if 'w' in handle {
      var diff := start.centerX - start.width / 2.0 - imgX;
      newWidth := Max(MinSelectionSize, start.width + diff * 2.0);
      newCenterX := start.centerX - diff;
    }
    if 's' in handle {
      var diff := imgY - (start.centerY + start.height / 2.0);
      newHeight := Max(MinSelectionSize, start.height + diff * 2.0);
    }
    if 'n' in handle {
      var diff := start.centerY - start.height / 2.0 - imgY;
      newHeight := Max(MinSelectionSize, start.height + diff * 2.0);
      newCenterY := start.centerY - diff;
    }
    var halfWidth := newWidth / 2.0;
    var halfHeight := newHeight / 2.0;
    newCenterX := Max(halfWidth, Min(newCenterX, imgDisplayWidth - halfWidth));
    newCenterY := Max(halfHeight, Min(newCenterY, imgDisplayHeight - halfHeight));
  }

  /** Where the edges go. The size is twice the cursor's distance from the
      old centre (at least 20). With `e` (or `s`) the centre stays, so the
      dragged edge lands on the cursor. With `w` (or `n`) the opposite
      edge stays, and the dragged edge lands on the mirror image of its old
      position in the cursor: it moves twice as far as the cursor. */
  lemma ResizedEdges(start: ResizeStart, handle: string, imgX: real, imgY: real)
    ensures var r := Resized(start, handle, imgX, imgY);
      && ('e' in handle && 'w' !in handle ==>
            r.centerX == start.centerX && r.width == Max(MinSelectionSize, 2.0 * (imgX - start.centerX)))
      && ('e' in handle && 'w' !in handle && 2.0 * (imgX - start.centerX) >= MinSelectionSize ==>
            r.centerX + r.width / 2.0 == imgX)
      && ('w' in handle ==>
            r.centerX == imgX + start.width / 2.0 && r.width == Max(MinSelectionSize, 2.0 * (start.centerX - imgX)))
      && ('w' in handle && 2.0 * (start.centerX - imgX) >= MinSelectionSize ==>
            && r.centerX + r.width / 2.0 == start.centerX + start.width / 2.0
            && r.centerX - r.width / 2.0 == 2.0 * imgX - (start.centerX - start.width / 2.0))
      && ('s' in handle && 'n' !in handle ==>
            r.centerY == start.centerY && r.height == Max(MinSelectionSize, 2.0 * (imgY - start.centerY)))
      && ('s' in handle && 'n' !in handle && 2.0 * (imgY - start.centerY) >= MinSelectionSize ==>
            r.centerY + r.height / 2.0 == imgY)
      && ('n' in handle ==>
            r.centerY == imgY + start.height / 2.0 && r.height == Max(MinSelectionSize, 2.0 * (start.centerY - imgY)))
      && ('n' in handle && 2.0 * (start.centerY - imgY) >= MinSelectionSize ==>
            && r.centerY + r.height / 2.0 == start.centerY + start.height / 2.0
            && r.centerY - r.height / 2.0 == 2.0 * imgY - (start.centerY - start.height / 2.0))
  {
  }

  /** The `w` handle does not follow the cursor: a 40-pixel selection
      centred at x = 100 (west edge at 80), dragged by its west handle to
      x = 70, gets its west edge at 60. */
  lemma WestEdgeMissesCursor()
    ensures var r := Resized(ResizeStart(40.0, 40.0, 100.0, 100.0), "w", 70.0, 100.0);
      r.centerX - r.width / 2.0 == 60.0 && r.centerX - r.width / 2.0 != 70.0
  {
  }

  /** The resize as `e` and `s` do it, for every handle: the size grows by
      twice the cursor's distance past the dragged edge, around the
      unchanged centre. */
  function ResizedSymmetric(start: ResizeStart, handle: string, imgX: real, imgY: real): (r: ResizeStart)
    ensures r.centerX == start.centerX && r.centerY == start.centerY
  {
    ResizeStart(
      if 'w' in handle then Max(MinSelectionSize, 2.0 * (start.centerX - imgX))
      else if 'e' in handle then Max(MinSelectionSize, 2.0 * (imgX - start.centerX))
      else start.width,
      if 'n' in handle then Max(MinSelectionSize, 2.0 * (start.centerY - imgY))
      else if 's' in handle then Max(MinSelectionSize, 2.0 * (imgY - start.centerY))
      else start.height,
      start.centerX, start.centerY)
  }

  /** In the symmetric resize the dragged edge lands on the cursor for all
      four letters, unless the 20-pixel floor holds it back; it agrees with
      the code for `e` and `s`. */
  lemma DraggedEdgeFollowsCursor(start: ResizeStart, handle: string, imgX: real, imgY: real)
    ensures var r := ResizedSymmetric(start, handle, imgX, imgY);
      && ('w' in handle && 2.0 * (start.centerX - imgX) >= MinSelectionSize ==> r.centerX - r.width / 2.0 == imgX)
      && ('e' in handle && 'w' !in handle && 2.0 * (imgX - start.centerX) >= MinSelectionSize ==>
            r.centerX + r.width / 2.0 == imgX)
      && ('n' in handle && 2.0 * (start.centerY - imgY) >= MinSelectionSize ==> r.centerY - r.height / 2.0 == imgY)
      && ('s' in handle && 'n' !in handle && 2.0 * (imgY - start.centerY) >= MinSelectionSize ==>
            r.centerY + r.height / 2.0 == imgY)
    ensures 'w' !in handle && 'n' !in handle ==> ResizedSymmetric(start, handle, imgX, imgY) == Resized(start, handle, imgX, imgY)
  {
  }

  /** What the resize step sets once the slab is known: the new shape size
      in metres and the new shape position. */
  datatype ResizeUpdate = ResizeUpdate(widthMeters: real, heightMeters: real, position: Point)

  /** The whole resize step: the new size and centre in display pixels, then,
      when a known slab is selected, the size converted to metres at the
      slab's scale. Shown at that scale the new size in metres is exactly
      the new size in pixels. */
  method ResizeStep(start: ResizeStart, handle: string, imgX: real, imgY: real,
                    selectedSlabImage: Option<string>, imgDisplayWidth: real, imgDisplayHeight: real)
    returns (update: Option<ResizeUpdate>)
    requires imgDisplayWidth > 0.0 && imgDisplayHeight > 0.0
    ensures update.Some? <==> SelectedSlab(selectedSlabImage).Some?
    ensures update.Some? ==>
      && var r := Resized(start, handle, imgX, imgY);
      && ShapePixels(SelectedSlab(selectedSlabImage).value, update.value.widthMeters, update.value.heightMeters,
                     imgDisplayWidth, imgDisplayHeight) == (r.width, r.height)
      && update.value.position == Point(ClampCentre(r.centerX, r.width / 2.0, imgDisplayWidth),
                                        ClampCentre(r.centerY, r.height / 2.0, imgDisplayHeight))
  {
    var newWidth, newHeight, newCenterX, newCenterY :=
      ResizeSelection(start, handle, imgX, imgY, imgDisplayWidth, imgDisplayHeight);
    update := None;
    if selectedSlabImage.Some? && selectedSlabImage.value != "" {
      var selectedSlab := FindSlab(SlabImages(), selectedSlabImage.value);
      if selectedSlab.Some? {
        var slab := selectedSlab.value;
        var pixelsToMetersX := slab.exampleWidthMeters / imgDisplayWidth;
        var pixelsToMetersY := slab.exampleHeightMeters / imgDisplayHeight;
        var newWidthMeters := newWidth * pixelsToMetersX;
        var newHeightMeters := newHeight * pixelsToMetersY;
        ScaleBack(newWidth, pixelsToMetersX);
        ScaleBack(newHeight, pixelsToMetersY);
        update := Some(ResizeUpdate(newWidthMeters, newHeightMeters, Point(newCenterX, newCenterY)));
      }
    }
  }

  /** Multiplying by a non-zero factor and dividing by it again. */
  lemma ScaleBack(v: real, f: real)
    requires f != 0.0
    ensures (v * f) / f == v
  {
  }

  // ---------------------------------------------------------------------
  // Overlap between crop selections
  // ---------------------------------------------------------------------

  function Left(c: CropBox): real { Min(c.startX, c.endX) }
  function Right(c: CropBox): real { Max(c.startX, c.endX) }
  function Top(c: CropBox): real { Min(c.startY, c.endY) }
  function Bottom(c: CropBox): real { Max(c.startY, c.endY) }

  /** The test inside `checkSelectionOverlap` for one existing selection. */
  predicate Overlaps(a: CropBox, b: CropBox) {
    !(Right(a) <= Left(b) || Left(a) >= Right(b) || Bottom(a) <= Top(b) || Top(a) >= Bottom(b))
  }

  /** `checkSelectionOverlap`: `existing.some(...)`. */
  function CheckSelectionOverlap(newSelection: CropBox, existing: seq<CropBox>): (r: bool)
    ensures r <==> exists i :: 0 <= i < |existing| && Overlaps(newSelection, existing[i])
  {
    if |existing| == 0 then false
    else Overlaps(newSelection, existing[0]) || CheckSelectionOverlap(newSelection, existing[1..])
  }

  /** `p` lies strictly inside the rectangle. */
  predicate Inside(c: CropBox, p: Point) {
    Left(c) < p.x < Right(c) && Top(c) < p.y < Bottom(c)
  }

  /** Two selections of positive area overlap exactly when some point lies
      strictly inside both: rectangles that only share an edge or a corner
      do not. */
  lemma OverlapIffCommonInterior(a: CropBox, b: CropBox)
    requires Left(a) < Right(a) && Top(a) < Bottom(a)
    requires Left(b) < Right(b) && Top(b) < Bottom(b)
    ensures Overlaps(a, b) <==> exists p :: Inside(a, p) && Inside(b, p)
  {
    if Overlaps(a, b) {
      var p := Point((Max(Left(a), Left(b)) + Min(Right(a), Right(b))) / 2.0,
                     (Max(Top(a), Top(b)) + Min(Bottom(a), Bottom(b))) / 2.0);
      assert Inside(a, p) && Inside(b, p);
    }
  }

  /** The test is symmetric, and does not depend on which corner is the
      start and which the end. */
  lemma OverlapSymmetricAndCornerFree(a: CropBox, b: CropBox)
    ensures Overlaps(a, b) == Overlaps(b, a)
    ensures Overlaps(a.(startX := a.endX, endX := a.startX), b) == Overlaps(a, b)
    ensures Overlaps(a.(startY := a.endY, endY := a.startY), b) == Overlaps(a, b)
  {
  }

  /** Selections side by side, sharing an edge, do not overlap. */
  lemma TouchingDoesNotOverlap(a: CropBox, b: CropBox)
    requires Right(a) == Left(b) || Bottom(a) == Top(b)
    ensures !Overlaps(a, b) && !CheckSelectionOverlap(a, [b])
  {
  }

  /** `getExistingSelectionsForSlab`: the crop selections of the stones cut
      from the slab image `slabUrl`, in list order. */
  function SelectionsForSlab(stones: seq<StoneImage>, slabUrl: string): (r: seq<CropBox>)
    ensures |r| <= |stones|
    ensures forall c :: c in r <==>
      exists s :: s in stones && s.originalImageUrl == slabUrl && s.cropSelection == c
  {
    if |stones| == 0 then []
    else
      var rest := SelectionsForSlab(stones[1..], slabUrl);
      assert forall s :: s in stones <==> s == stones[0] || s in stones[1..];
      (if stones[0].originalImageUrl == slabUrl then [stones[0].cropSelection] else []) + rest
  }

  /** A new selection on a slab overlaps an existing one exactly when it
      shares an interior point with the crop of some stone cut from that
      slab. */
  lemma SlabOverlapMeaning(newSelection: CropBox, stones: seq<StoneImage>, slabUrl: string)
    ensures CheckSelectionOverlap(newSelection, SelectionsForSlab(stones, slabUrl)) <==>
      exists s :: s in stones && s.originalImageUrl == slabUrl && Overlaps(newSelection, s.cropSelection)
  {
    var sel := SelectionsForSlab(stones, slabUrl);
    if CheckSelectionOverlap(newSelection, sel) {
      var i :| 0 <= i < |sel| && Overlaps(newSelection, sel[i]);
      assert sel[i] in sel;
    }
    if exists s :: s in stones && s.originalImageUrl == slabUrl && Overlaps(newSelection, s.cropSelection) {
      var s :| s in stones && s.originalImageUrl == slabUrl && Overlaps(newSelection, s.cropSelection);
      assert s.cropSelection in sel;
      var i :| 0 <= i < |sel| && sel[i] == s.cropSelection;
    }
  }

  // ---------------------------------------------------------------------
  // Adding a crop to the canvas
  // ---------------------------------------------------------------------

  /** The crop in the slab image's natural pixels, normalised so that the
      start is the top-left corner. */
  function NaturalCrop(c: CropBox, scaleX: real, scaleY: real): CropBox {
    CropBox(Left(c) * scaleX, Top(c) * scaleY, Right(c) * scaleX, Bottom(c) * scaleY)
  }

  lemma MulMonotone(a: real, b: real, s: real)
    requires a <= b && s >= 0.0
    ensures a * s <= b * s
  {
    MulNonNegative(b - a, s);
    assert (b - a) * s == b * s - a * s;
  }

  /** The stored crop is normalised: start <= end on both axes. */
  lemma NaturalCropNormalised(c: CropBox, scaleX: real, scaleY: real)
    requires scaleX >= 0.0 && scaleY >= 0.0
    ensures var n := NaturalCrop(c, scaleX, scaleY);
      && n.startX <= n.endX && n.startY <= n.endY
      && Left(n) == Left(c) * scaleX && Right(n) == Right(c) * scaleX
      && Top(n) == Top(c) * scaleY && Bottom(n) == Bottom(c) * scaleY
  {
    MulMonotone(Left(c), Right(c), scaleX);
    MulMonotone(Top(c), Bottom(c), scaleY);
  }

  /** A positive factor keeps the order of two coordinates. */
  lemma MulOrder(u: real, v: real, s: real)
    requires s > 0.0
    ensures u * s <= v * s <==> u <= v
  {
  }

  /** On one axis, two intervals are apart exactly when they are apart
      after scaling by a positive factor. */
  lemma AxisApartScaled(lo1: real, hi1: real, lo2: real, hi2: real, s: real,
                        scaledLo1: real, scaledHi1: real, scaledLo2: real, scaledHi2: real)
    requires s > 0.0
    requires scaledLo1 == lo1 * s && scaledHi1 == hi1 * s
    requires scaledLo2 == lo2 * s && scaledHi2 == hi2 * s
    ensures (scaledHi1 <= scaledLo2 || scaledLo1 >= scaledHi2) <==> (hi1 <= lo2 || lo1 >= hi2)
  {
  }

  /** Apart horizontally before scaling exactly when apart after it. */
  lemma NaturalCropApartX(a: CropBox, b: CropBox, scaleX: real, scaleY: real)
    requires scaleX > 0.0 && scaleY >= 0.0
    ensures var na, nb := NaturalCrop(a, scaleX, scaleY), NaturalCrop(b, scaleX, scaleY);
      (Right(na) <= Left(nb) || Left(na) >= Right(nb)) <==> (Right(a) <= Left(b) || Left(a) >= Right(b))
  {
    var na, nb := NaturalCrop(a, scaleX, scaleY), NaturalCrop(b, scaleX, scaleY);
    NaturalCropNormalised(a, scaleX, scaleY);
    NaturalCropNormalised(b, scaleX, scaleY);
    AxisApartScaled(Left(a), Right(a), Left(b), Right(b), scaleX, Left(na), Right(na), Left(nb), Right(nb));
  }

  /** Apart vertically before scaling exactly when apart after it. */
  lemma NaturalCropApartY(a: CropBox, b: CropBox, scaleX: real, scaleY: real)
    requires scaleX >= 0.0 && scaleY > 0.0
    ensures var na, nb := NaturalCrop(a, scaleX, scaleY), NaturalCrop(b, scaleX, scaleY);
      (Bottom(na) <= Top(nb) || Top(na) >= Bottom(nb)) <==> (Bottom(a) <= Top(b) || Top(a) >= Bottom(b))
  {
    var na, nb := NaturalCrop(a, scaleX, scaleY), NaturalCrop(b, scaleX, scaleY);
    NaturalCropNormalised(a, scaleX, scaleY);
    NaturalCropNormalised(b, scaleX, scaleY);
    AxisApartScaled(Top(a), Bottom(a), Top(b), Bottom(b), scaleY, Top(na), Bottom(na), Top(nb), Bottom(nb));
  }

  /** Scaling both selections to natural pixels by positive factors keeps
      whether they overlap. */
  lemma NaturalCropKeepsOverlap(a: CropBox, b: CropBox, scaleX: real, scaleY: real)
    requires scaleX > 0.0 && scaleY > 0.0
    ensures Overlaps(NaturalCrop(a, scaleX, scaleY), NaturalCrop(b, scaleX, scaleY)) == Overlaps(a, b)
  {
    NaturalCropApartX(a, b, scaleX, scaleY);
    NaturalCropApartY(a, b, scaleX, scaleY);
  }

  /** `handleAddCropToCanvas`: without a selected slab image or a crop
      selection nothing happens; otherwise a stone of the chosen size in
      metres is appended, unrotated, named after its slab ("Stone" for an
      unknown one), with the crop stored in the image's natural pixels. Its
      (x, y) is W/2 - w/2, H/2 - h/2 (the canvas size is also returned). A
      stone is drawn around its (x, y), so its centre lies half its size
      left of and above the canvas centre: see `AddedStoneOffCentre`. */
  method HandleAddCropToCanvas(stones: seq<StoneImage>, selectedSlabImage: Option<string>,
                               cropSelection: Option<CropBox>,
                               imgNaturalWidth: real, imgNaturalHeight: real,
                               imgDisplayWidth: real, imgDisplayHeight: real,
                               canvasSizeX: real, canvasSizeY: real,
                               shapeWidth: real, shapeHeight: real,
                               croppedDataURL: string, newId: string)
    returns (newStones: seq<StoneImage>, canvasWidth: real, canvasHeight: real)
    requires imgDisplayWidth > 0.0 && imgDisplayHeight > 0.0
    requires imgNaturalWidth >= 0.0 && imgNaturalHeight >= 0.0
    requires canvasSizeX > 0.0 && canvasSizeY > 0.0
    ensures selectedSlabImage.None? || selectedSlabImage.value == "" || cropSelection.None? ==>
      newStones == stones
    ensures selectedSlabImage.Some? && selectedSlabImage.value != "" && cropSelection.Some? ==>
      && canvasWidth >= MinCanvasWidth && canvasHeight >= MinCanvasHeight
      && canvasWidth * canvasSizeY == canvasHeight * canvasSizeX
      && |newStones| == |stones| + 1 && newStones[..|stones|] == stones
      && var s := newStones[|stones|];
      && var slab := FindSlab(SlabImages(), selectedSlabImage.value);
      && s.id == newId && s.imageData == croppedDataURL && s.rotation == 0.0
      && s.stoneName == (if slab.Some? then slab.value.name else "Stone")
      && s.originalImageUrl == selectedSlabImage.value
      && s.cropSelection == NaturalCrop(cropSelection.value, imgNaturalWidth / imgDisplayWidth,
                                        imgNaturalHeight / imgDisplayHeight)
      && s.cropSelection.startX <= s.cropSelection.endX && s.cropSelection.startY <= s.cropSelection.endY
      && s.x + s.width / 2.0 == canvasWidth / 2.0 && s.y + s.height / 2.0 == canvasHeight / 2.0
      && s.width * canvasSizeX == shapeWidth * canvasWidth
      && s.height * canvasSizeY == shapeHeight * canvasHeight
  {
    newStones, canvasWidth, canvasHeight := stones, 0.0, 0.0;
    if selectedSlabImage.None? || selectedSlabImage.value == "" || cropSelection.None? {
      return;
    }
    var crop := cropSelection.value;
    var scaleX := imgNaturalWidth / imgDisplayWidth;
    var scaleY := imgNaturalHeight / imgDisplayHeight;
    var x, y, displayWidth, displayHeight;
    canvasWidth, canvasHeight, x, y, displayWidth, displayHeight :=
      CentredOnCanvas(canvasSizeX, canvasSizeY, shapeWidth, shapeHeight);
    var naturalCropSelection := NaturalCropSelection(crop, scaleX, scaleY);
    var selectedSlab := FindSlab(SlabImages(), selectedSlabImage.value);
    var stoneName := if selectedSlab.Some? then selectedSlab.value.name else "Stone";
    var newStoneImage := StoneImage(newId, stoneName, croppedDataURL, x, y,
                                    displayWidth, displayHeight, 0.0,
                                    selectedSlabImage.value, naturalCropSelection);
    newStones := stones + [newStoneImage];
  }

  /** A stone placed as `handleAddCropToCanvas` places it is not centred:
      its cut corners, as `CornerPath` gives them, run from the canvas
      centre less its size to the canvas centre, so its bottom-right corner
      sits on the centre, and one wider or taller than half the canvas
      sticks out past the left or top edge. */
  lemma AddedStoneOffCentre(s: StoneImage, canvasWidth: real, canvasHeight: real)
    requires s.width > 0.0 && s.height > 0.0
    requires s.x + s.width / 2.0 == canvasWidth / 2.0 && s.y + s.height / 2.0 == canvasHeight / 2.0
    ensures var corners := CornerPath(s.x, s.y, s.width, s.height);
      && corners[0] == Point(canvasWidth / 2.0 - s.width, canvasHeight / 2.0 - s.height)
      && corners[2] == Point(canvasWidth / 2.0, canvasHeight / 2.0)
      && Point(s.x, s.y) != Point(canvasWidth / 2.0, canvasHeight / 2.0)
      && (s.width > canvasWidth / 2.0 ==> corners[0].x < 0.0)
      && (s.height > canvasHeight / 2.0 ==> corners[0].y < 0.0)
  {
  }

  /** The position the "Center position" comment describes: a stone drawn
      around its (x, y) is centred on the canvas when (x, y) is the canvas
      centre. */
  function CentredStonePosition(canvasWidth: real, canvasHeight: real): Point {
    Point(canvasWidth / 2.0, canvasHeight / 2.0)
  }

  /** A stone at `CentredStonePosition` is centred: its cut corners keep its
      size and have the canvas centre as their midpoint, and a stone no
      larger than the canvas lies on it. */
  lemma CentredStoneFootprint(canvasWidth: real, canvasHeight: real, width: real, height: real)
    ensures var p := CentredStonePosition(canvasWidth, canvasHeight);
      var corners := CornerPath(p.x, p.y, width, height);
      && corners[2].x - corners[0].x == width && corners[2].y - corners[0].y == height
      && corners[0].x + corners[2].x == canvasWidth && corners[0].y + corners[2].y == canvasHeight
      && (0.0 <= width <= canvasWidth && 0.0 <= height <= canvasHeight ==>
            0.0 <= corners[0].x && corners[2].x <= canvasWidth
            && 0.0 <= corners[0].y && corners[2].y <= canvasHeight)
  {
  }

  /** The crop converted to natural pixels, normalised. */
  method NaturalCropSelection(crop: CropBox, scaleX: real, scaleY: real) returns (n: CropBox)
    requires scaleX >= 0.0 && scaleY >= 0.0
    ensures n == NaturalCrop(crop, scaleX, scaleY)
    ensures n.startX <= n.endX && n.startY <= n.endY
  {
    n := CropBox(Min(crop.startX, crop.endX) * scaleX,
                 Min(crop.startY, crop.endY) * scaleY,
                 Max(crop.startX, crop.endX) * scaleX,
                 Max(crop.startY, crop.endY) * scaleY);
    assert Left(crop) == Min(crop.startX, crop.endX) && Top(crop) == Min(crop.startY, crop.endY);
    assert Right(crop) == Max(crop.startX, crop.endX) && Bottom(crop) == Max(crop.startY, crop.endY);
    NaturalCropNormalised(crop, scaleX, scaleY);
  }
}

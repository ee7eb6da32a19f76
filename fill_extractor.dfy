/** `extractFillBoundary` and `sortBoundaryPixels` of utils/fillExtractor.ts:
    the outline of a filled area, read from an RGBA buffer that has already
    been decoded, and ordered into a path by a greedy nearest-neighbour walk.

    The JavaScript `Set`s of `"x,y"` keys become sequences of pixels without
    duplicates, in insertion order, so that "first in iteration order" keeps
    its meaning. */
module FillExtractor {
  import opened Points

  // ---------------------------------------------------------------------
  // The decoded image
  // ---------------------------------------------------------------------

  newtype Byte = b: int | 0 <= b < 256

  /** `ImageData`: `width`×`height` pixels, four bytes (R, G, B, A) each,
      row by row. */
  datatype Image = Image(width: nat, height: nat, data: seq<Byte>) {
    predicate Valid() { |data| == width * height * 4 }
  }

  predicate InImage(img: Image, p: Pixel) {
    0 <= p.x < img.width && 0 <= p.y < img.height
  }

  /** The first byte of pixel (x, y) lies at `(y*width + x)*4`, and all four
      of its bytes are inside the buffer. */
  lemma PixelIndexInRange(w: nat, h: nat, x: int, y: int)
    requires 0 <= x < w && 0 <= y < h
    ensures 0 <= (y * w + x) * 4 && (y * w + x) * 4 + 3 < w * h * 4
  {
    assert y * w <= (h - 1) * w;
  }

  /** Channel `c` (0 = R, 1 = G, 2 = B, 3 = A) of an in-image pixel. */
  function Channel(img: Image, p: Pixel, c: int): Byte
    requires img.Valid() && InImage(img, p) && 0 <= c < 4
  {
    PixelIndexInRange(img.width, img.height, p.x, p.y);
    img.data[(p.y * img.width + p.x) * 4 + c]
  }

  /** Not transparent and not pure white. */
  predicate FilledColour(r: Byte, g: Byte, b: Byte, a: Byte) {
    a > 0 && !(r == 255 && g == 255 && b == 255)
  }

  /** A filled pixel of the image; anything outside the image is unfilled. */
  predicate IsFilled(img: Image, p: Pixel)
    requires img.Valid()
  {
    InImage(img, p)
    && FilledColour(Channel(img, p, 0), Channel(img, p, 1), Channel(img, p, 2), Channel(img, p, 3))
  }

  /** A filled pixel with an unfilled pixel left, right, above or below it. */
  predicate IsBoundary(img: Image, p: Pixel)
    requires img.Valid()
  {
    && IsFilled(img, p)
    && (|| !IsFilled(img, Pixel(p.x - 1, p.y)) || !IsFilled(img, Pixel(p.x + 1, p.y))
        || !IsFilled(img, Pixel(p.x, p.y - 1)) || !IsFilled(img, Pixel(p.x, p.y + 1)))
  }

  // ---------------------------------------------------------------------
  // Row-major scan for filled pixels
  // ---------------------------------------------------------------------

  /** `p` comes before `q` in row-major order. */
  predicate Before(p: Pixel, q: Pixel) {
    p.y < q.y || (p.y == q.y && p.x < q.x)
  }

  ghost predicate RowMajor(s: seq<Pixel>) {
    forall i, j :: 0 <= i < j < |s| ==> Before(s[i], s[j])
  }

  /** The filled pixels among the first `x` of row `y`, left to right. */
  function RowScan(img: Image, y: int, x: int): seq<Pixel>
    requires img.Valid() && 0 <= y < img.height && 0 <= x <= img.width
  {
    if x == 0 then []
    else RowScan(img, y, x - 1) + (if IsFilled(img, Pixel(x - 1, y)) then [Pixel(x - 1, y)] else [])
  }

  /** The filled pixels of the first `y` rows, row by row. */
  function RowsScan(img: Image, y: int): seq<Pixel>
    requires img.Valid() && 0 <= y <= img.height
  {
    if y == 0 then [] else RowsScan(img, y - 1) + RowScan(img, y - 1, img.width)
  }

  /** The contents of `filledPixels`, in insertion order. */
  function FilledPixelsOf(img: Image): seq<Pixel>
    requires img.Valid()
  {
    RowsScan(img, img.height)
  }

  /** The nested y/x loops of `extractFillBoundary` that fill `filledPixels`. */
  method FilledPixels(img: Image) returns (filled: seq<Pixel>)
    requires img.Valid()
    ensures filled == FilledPixelsOf(img)
  {
    filled := [];
    for y := 0 to img.height
      invariant filled == RowsScan(img, y)
    {
      for x := 0 to img.width
        invariant filled == RowsScan(img, y) + RowScan(img, y, x)
      {
        var idx := (y * img.width + x) * 4;
        PixelIndexInRange(img.width, img.height, x, y);
        var r, g, b, a := img.data[idx], img.data[idx + 1], img.data[idx + 2], img.data[idx + 3];
        if a > 0 && !(r == 255 && g == 255 && b == 255) {
          filled := filled + [Pixel(x, y)];
        }
      }
    }
  }

  lemma {:induction false} RowScanMembers(img: Image, y: int, x: int)
    requires img.Valid() && 0 <= y < img.height && 0 <= x <= img.width
    ensures forall p :: p in RowScan(img, y, x) <==> p.y == y && p.x < x && IsFilled(img, p)
    ensures RowMajor(RowScan(img, y, x))
  {
    if x > 0 {
      RowScanMembers(img, y, x - 1);
    }
  }

  lemma {:induction false} RowsScanMembers(img: Image, y: int)
    requires img.Valid() && 0 <= y <= img.height
    ensures forall p :: p in RowsScan(img, y) <==> p.y < y && IsFilled(img, p)
    ensures RowMajor(RowsScan(img, y))
  {
    if y > 0 {
      RowsScanMembers(img, y - 1);
      RowScanMembers(img, y - 1, img.width);
      var a, b := RowsScan(img, y - 1), RowScan(img, y - 1, img.width);
      forall i, j | 0 <= i < j < |a + b| ensures Before((a + b)[i], (a + b)[j]) {
        if j >= |a| && i < |a| {
          assert a[i] in a && b[j - |a|] in b;
        }
      }
    }
  }

  /** `filledPixels` holds exactly the filled pixels, each once, in row-major
      order. */
  lemma FilledPixelsMembers(img: Image)
    requires img.Valid()
    ensures forall p :: p in FilledPixelsOf(img) <==> IsFilled(img, p)
    ensures RowMajor(FilledPixelsOf(img))
    ensures NoDups(FilledPixelsOf(img))
  {
    RowsScanMembers(img, img.height);
  }

  // ---------------------------------------------------------------------
  // Boundary pixels
  // ---------------------------------------------------------------------

  /** `isFilled`: inside the image and a member of `filledPixels`. */
  predicate FilledIn(img: Image, filled: seq<Pixel>, p: Pixel) {
    InImage(img, p) && p in filled
  }

  /** `hasEmptyNeighbor`. */
  predicate HasEmptyNeighbour(img: Image, filled: seq<Pixel>, p: Pixel) {
    || !FilledIn(img, filled, Pixel(p.x - 1, p.y)) || !FilledIn(img, filled, Pixel(p.x + 1, p.y))
    || !FilledIn(img, filled, Pixel(p.x, p.y - 1)) || !FilledIn(img, filled, Pixel(p.x, p.y + 1))
  }

  /** `boundaryPixels` after the `forEach` has visited the pixels of `s`. */
  function BoundaryScan(img: Image, filled: seq<Pixel>, s: seq<Pixel>): seq<Pixel> {
    if |s| == 0 then []
    else
      var b := BoundaryScan(img, filled, s[..|s| - 1]);
      var p := s[|s| - 1];
      if HasEmptyNeighbour(img, filled, p) && p !in b then b + [p] else b
  }

  function BoundaryPixelsOf(img: Image): seq<Pixel>
    requires img.Valid()
  {
    var filled := FilledPixelsOf(img);
    BoundaryScan(img, filled, filled)
  }

  /** The `forEach` over `filledPixels`; `boundarySet` always holds the same
      pixels as `boundaryPixels`, so membership is asked of the latter. */
  method BoundaryPixels(img: Image, filled: seq<Pixel>) returns (boundary: seq<Pixel>)
    ensures boundary == BoundaryScan(img, filled, filled)
  {
    boundary := [];
    for i := 0 to |filled|
      invariant boundary == BoundaryScan(img, filled, filled[..i])
    {
      assert filled[..i + 1][..i] == filled[..i];
      var p := filled[i];
      var x, y := p.x, p.y;
      var hasEmptyNeighbour := false;
      var neighbours := [Pixel(x - 1, y), Pixel(x + 1, y), Pixel(x, y - 1), Pixel(x, y + 1)];
      for k := 0 to 4
        invariant hasEmptyNeighbour <==> exists j :: 0 <= j < k && !FilledIn(img, filled, neighbours[j])
      {
        var n := neighbours[k];
        var isFilled := 0 <= n.x < img.width && 0 <= n.y < img.height && n in filled;
        if !isFilled {
          hasEmptyNeighbour := true;
        }
      }
      assert hasEmptyNeighbour == HasEmptyNeighbour(img, filled, p) by {
        if HasEmptyNeighbour(img, filled, p) {
          if !FilledIn(img, filled, neighbours[0]) {
          } else if !FilledIn(img, filled, neighbours[1]) {
          } else if !FilledIn(img, filled, neighbours[2]) {
          } else {
            assert !FilledIn(img, filled, neighbours[3]);
          }
        }
      }
      if hasEmptyNeighbour {
        if p !in boundary {
          boundary := boundary + [p];
        }
      }
    }
    assert filled[..|filled|] == filled;
  }

  lemma {:induction false} BoundaryScanMembers(img: Image, filled: seq<Pixel>, s: seq<Pixel>)
    ensures forall p :: p in BoundaryScan(img, filled, s) <==> p in s && HasEmptyNeighbour(img, filled, p)
    ensures NoDups(BoundaryScan(img, filled, s))
    ensures RowMajor(s) ==> RowMajor(BoundaryScan(img, filled, s))
  {
    if |s| > 0 {
      var s' := s[..|s| - 1];
      BoundaryScanMembers(img, filled, s');
      assert s == s' + [s[|s| - 1]];
      var b := BoundaryScan(img, filled, s');
      var p := s[|s| - 1];
      if RowMajor(s) {
        assert RowMajor(s');
        forall q | q in b ensures Before(q, p) {
          var i :| 0 <= i < |s'| && s'[i] == q;
          assert s[i] == q;
        }
        forall i, j | 0 <= i < j < |b + [p]| ensures Before((b + [p])[i], (b + [p])[j]) {
          if j == |b| {
            assert b[i] in b;
          }
        }
      }
    }
  }

  /** The pixels of the boundary are exactly the boundary pixels of the
      image, each once, in row-major order. */
  lemma BoundaryPixelsMembers(img: Image)
    requires img.Valid()
    ensures forall p :: p in BoundaryPixelsOf(img) <==> IsBoundary(img, p)
    ensures NoDups(BoundaryPixelsOf(img))
    ensures RowMajor(BoundaryPixelsOf(img))
  {
    var filled := FilledPixelsOf(img);
    FilledPixelsMembers(img);
    BoundaryScanMembers(img, filled, filled);
    forall p ensures FilledIn(img, filled, p) <==> IsFilled(img, p) {
    }
  }

  /** When something is filled there is a boundary: the first filled pixel in
      row-major order has nothing filled above it, so it is also the first
      boundary pixel. The emptiness test after the boundary scan therefore
      never succeeds once the one before it has failed. */
  lemma FirstFilledIsBoundary(img: Image)
    requires img.Valid() && |FilledPixelsOf(img)| > 0
    ensures |BoundaryPixelsOf(img)| > 0
    ensures BoundaryPixelsOf(img)[0] == FilledPixelsOf(img)[0]
  {
    var filled := FilledPixelsOf(img);
    FilledPixelsMembers(img);
    var p := filled[0];
    var above := Pixel(p.x, p.y - 1);
    forall j | 0 <= j < |filled| ensures filled[j] != above {
      if j > 0 {
        assert Before(filled[0], filled[j]);
      }
    }
    assert !FilledIn(img, filled, above);
    BoundaryScanKeepsFirst(img, filled, filled);
  }

  lemma {:induction false} BoundaryScanKeepsFirst(img: Image, filled: seq<Pixel>, s: seq<Pixel>)
    requires |s| > 0 && HasEmptyNeighbour(img, filled, s[0])
    ensures |BoundaryScan(img, filled, s)| > 0 && BoundaryScan(img, filled, s)[0] == s[0]
  {
    if |s| > 1 {
      var s' := s[..|s| - 1];
      assert s'[0] == s[0];
      BoundaryScanKeepsFirst(img, filled, s');
    }
  }

  /** An image filled everywhere: its boundary is its outermost ring. */
  lemma SolidImageBoundary(img: Image)
    requires img.Valid()
    requires forall p :: InImage(img, p) ==> IsFilled(img, p)
    ensures forall p :: p in BoundaryPixelsOf(img) <==>
      InImage(img, p) && (p.x == 0 || p.x == img.width - 1 || p.y == 0 || p.y == img.height - 1)
  {
    BoundaryPixelsMembers(img);
    forall p | InImage(img, p) && (p.x == 0 || p.x == img.width - 1 || p.y == 0 || p.y == img.height - 1)
      ensures IsBoundary(img, p)
    {
      if p.x == 0 {
        assert !InImage(img, Pixel(p.x - 1, p.y));
      } else if p.x == img.width - 1 {
        assert !InImage(img, Pixel(p.x + 1, p.y));
      } else if p.y == 0 {
        assert !InImage(img, Pixel(p.x, p.y - 1));
      } else {
        assert !InImage(img, Pixel(p.x, p.y + 1));
      }
    }
    forall p | InImage(img, p) && 0 < p.x < img.width - 1 && 0 < p.y < img.height - 1
      ensures !IsBoundary(img, p)
    {
      assert InImage(img, Pixel(p.x - 1, p.y)) && InImage(img, Pixel(p.x + 1, p.y));
      assert InImage(img, Pixel(p.x, p.y - 1)) && InImage(img, Pixel(p.x, p.y + 1));
    }
  }

  /** A solid 3×3 image: the eight pixels around the centre are boundary
      pixels and the centre is not. */
  lemma SolidThreeByThree(img: Image)
    requires img.Valid() && img.width == 3 && img.height == 3
    requires forall p :: InImage(img, p) ==> IsFilled(img, p)
    ensures Pixel(1, 1) !in BoundaryPixelsOf(img)
    ensures forall p :: InImage(img, p) && p != Pixel(1, 1) ==> p in BoundaryPixelsOf(img)
  {
    SolidImageBoundary(img);
  }

  // ---------------------------------------------------------------------
  // Set operations on sequences without duplicates
  // ---------------------------------------------------------------------

  /** `new Set(keys)`: the first occurrence of each pixel, in order. */
  function Dedup(s: seq<Pixel>): (r: seq<Pixel>)
    ensures forall p :: p in r <==> p in s
    ensures NoDups(r)
  {
    if |s| == 0 then []
    else
      var d := Dedup(s[..|s| - 1]);
      assert forall p :: p in s[..|s| - 1] ==> p in s;
      assert forall p :: p in s ==> p in s[..|s| - 1] || p == s[|s| - 1];
      if s[|s| - 1] in d then d else d + [s[|s| - 1]]
  }

  lemma {:induction false} DedupOfDistinct(s: seq<Pixel>)
    requires NoDups(s)
    ensures Dedup(s) == s
  {
    if |s| > 0 {
      var s' := s[..|s| - 1];
      DedupOfDistinct(s');
      assert s[|s| - 1] !in s';
      assert s' + [s[|s| - 1]] == s;
    }
  }

  /** `Set.delete`: every other element, in order. */
  function Remove(s: seq<Pixel>, x: Pixel): (r: seq<Pixel>)
    ensures forall p :: p in r <==> p in s && p != x
    ensures |r| <= |s| && (x in s ==> |r| < |s|)
  {
    if |s| == 0 then []
    else (if s[0] == x then [] else [s[0]]) + Remove(s[1..], x)
  }

  lemma {:induction false} RemoveAbsent(s: seq<Pixel>, x: Pixel)
    requires x !in s
    ensures Remove(s, x) == s
  {
    if |s| > 0 {
      RemoveAbsent(s[1..], x);
      assert s == [s[0]] + s[1..];
    }
  }

  lemma {:induction false} RemoveDistinct(s: seq<Pixel>, x: Pixel)
    requires NoDups(s)
    ensures NoDups(Remove(s, x))
    ensures x in s ==> multiset(Remove(s, x)) + multiset{x} == multiset(s)
  {
    if |s| > 0 {
      assert s == [s[0]] + s[1..];
      RemoveDistinct(s[1..], x);
      assert s[0] !in s[1..];
      if s[0] == x {
        RemoveAbsent(s[1..], x);
      }
    }
  }

  // ---------------------------------------------------------------------
  // One step of the walk
  // ---------------------------------------------------------------------

  /** The 8 neighbour offsets, in the order the code tries them. */
  const Directions: seq<Pixel> := [
    Pixel(-1, -1), Pixel(0, -1), Pixel(1, -1),
    Pixel(-1, 0), Pixel(1, 0),
    Pixel(-1, 1), Pixel(0, 1), Pixel(1, 1)]

  function Offset(c: Pixel, d: Pixel): Pixel { Pixel(c.x + d.x, c.y + d.y) }

  /** The best candidate so far: `minDist` (squared) and `nearest` together;
      `None` is `minDist = Infinity, nearest = null`. */
  datatype Nearest = Nearest(dist: int, pixel: Pixel)

  predicate Improves(best: Option<Nearest>, dist: int) {
    best.None? || dist < best.value.dist
  }

  /** The neighbour loop after the directions `ds`, a prefix of
      `Directions`. */
  function NeighbourScan(c: Pixel, remaining: seq<Pixel>, ds: seq<Pixel>): (r: Option<Nearest>)
    ensures r.Some? ==> r.value.pixel in remaining
  {
    if |ds| == 0 then None
    else
      var best := NeighbourScan(c, remaining, ds[..|ds| - 1]);
      var n := Offset(c, ds[|ds| - 1]);
      var dist := PixelDistSq(c, n);
      if n in remaining && Improves(best, dist) then Some(Nearest(dist, n)) else best
  }

  /** The fallback loop over `Array.from(remaining)`, after the pixels of `s`. */
  function NearestScan(c: Pixel, s: seq<Pixel>): (r: Option<Nearest>)
    ensures r.Some? ==> r.value.pixel in s
    ensures r.None? <==> |s| == 0
  {
    if |s| == 0 then None
    else
      var best := NearestScan(c, s[..|s| - 1]);
      var p := s[|s| - 1];
      var dist := PixelDistSq(c, p);
      if Improves(best, dist) then Some(Nearest(dist, p)) else best
  }

  /** The pixel the walk moves to from `c`; `None` is the `break`. */
  function Step(c: Pixel, remaining: seq<Pixel>): (r: Option<Pixel>)
    ensures r.Some? ==> r.value in remaining
  {
    match NeighbourScan(c, remaining, Directions)
    case Some(n) => Some(n.pixel)
    case None =>
      match NearestScan(c, remaining)
      case Some(n) => Some(n.pixel)
      case None => None
  }

  /** Offset `ds[j]` wins the neighbour scan over `ds`: its neighbour
      remains, no remaining neighbour is closer, and every earlier one that
      remains is strictly farther. */
  ghost predicate NeighbourWinner(c: Pixel, remaining: seq<Pixel>, ds: seq<Pixel>, j: int) {
    && 0 <= j < |ds|
    && Offset(c, ds[j]) in remaining
    && (forall i :: 0 <= i < |ds| && Offset(c, ds[i]) in remaining ==>
          PixelDistSq(c, Offset(c, ds[i])) >= PixelDistSq(c, Offset(c, ds[j])))
    && (forall i :: 0 <= i < j && Offset(c, ds[i]) in remaining ==>
          PixelDistSq(c, Offset(c, ds[i])) > PixelDistSq(c, Offset(c, ds[j])))
  }

  lemma NeighbourScanFindsFirstNearest(c: Pixel, remaining: seq<Pixel>, ds: seq<Pixel>)
    ensures NeighbourScan(c, remaining, ds).None? <==>
      forall i :: 0 <= i < |ds| ==> Offset(c, ds[i]) !in remaining
    ensures NeighbourScan(c, remaining, ds).Some? ==>
      exists j :: NeighbourWinner(c, remaining, ds, j)
        && NeighbourScan(c, remaining, ds).value == Nearest(PixelDistSq(c, Offset(c, ds[j])), Offset(c, ds[j]))
  {
    NeighbourScanNone(c, remaining, ds);
    NeighbourScanWinner(c, remaining, ds);
  }

  /** The position in `ds` of the offset the neighbour scan picked. */
  ghost function NeighbourIndex(c: Pixel, remaining: seq<Pixel>, ds: seq<Pixel>): int {
    if |ds| == 0 then -1
    else
      var n := Offset(c, ds[|ds| - 1]);
      if n in remaining && Improves(NeighbourScan(c, remaining, ds[..|ds| - 1]), PixelDistSq(c, n)) then |ds| - 1
      else NeighbourIndex(c, remaining, ds[..|ds| - 1])
  }

  lemma {:induction false} NeighbourScanWinner(c: Pixel, remaining: seq<Pixel>, ds: seq<Pixel>)
    ensures var r := NeighbourScan(c, remaining, ds);
      var k := NeighbourIndex(c, remaining, ds);
      r.Some? ==> NeighbourWinner(c, remaining, ds, k)
                  && r.value == Nearest(PixelDistSq(c, Offset(c, ds[k])), Offset(c, ds[k]))
  {
    if |ds| > 0 {
      var ds' := ds[..|ds| - 1];
      NeighbourScanWinner(c, remaining, ds');
      NeighbourScanNone(c, remaining, ds');
      var best := NeighbourScan(c, remaining, ds');
      var k' := NeighbourIndex(c, remaining, ds');
      var n := Offset(c, ds[|ds| - 1]);
      var d := PixelDistSq(c, n);
      assert forall i :: 0 <= i < |ds'| ==> ds'[i] == ds[i];
      if n in remaining && Improves(best, d) {
        forall i | 0 <= i < |ds| - 1 && Offset(c, ds[i]) in remaining
          ensures PixelDistSq(c, Offset(c, ds[i])) > d
        {
          assert Offset(c, ds'[i]) in remaining;
        }
        assert NeighbourWinner(c, remaining, ds, |ds| - 1);
      } else if best.Some? {
        assert NeighbourWinner(c, remaining, ds', k');
        assert NeighbourWinner(c, remaining, ds, k');
      }
    }
  }

  lemma {:induction false} NeighbourScanNone(c: Pixel, remaining: seq<Pixel>, ds: seq<Pixel>)
    ensures NeighbourScan(c, remaining, ds).None? <==>
      forall i :: 0 <= i < |ds| ==> Offset(c, ds[i]) !in remaining
  {
    if |ds| > 0 {
      var ds' := ds[..|ds| - 1];
      NeighbourScanNone(c, remaining, ds');
      assert forall i :: 0 <= i < |ds'| ==> ds'[i] == ds[i];
    }
  }

  /** Pixel `s[j]` wins the fallback scan over `s`: no pixel of `s` is
      closer, and every earlier one is strictly farther. */
  ghost predicate NearestWinner(c: Pixel, s: seq<Pixel>, j: int) {
    && 0 <= j < |s|
    && (forall i :: 0 <= i < |s| ==> PixelDistSq(c, s[i]) >= PixelDistSq(c, s[j]))
    && (forall i :: 0 <= i < j ==> PixelDistSq(c, s[i]) > PixelDistSq(c, s[j]))
  }

  lemma {:induction false} NearestScanFindsFirstNearest(c: Pixel, s: seq<Pixel>)
    ensures NearestScan(c, s).Some? ==>
      exists j :: NearestWinner(c, s, j) && NearestScan(c, s).value == Nearest(PixelDistSq(c, s[j]), s[j])
  {
    if |s| > 0 {
      var s' := s[..|s| - 1];
      var p := s[|s| - 1];
      assert s' + [p] == s;
      NearestScanFindsFirstNearest(c, s');
      var best := NearestScan(c, s');
      var d := PixelDistSq(c, p);
      if Improves(best, d) {
        if best.Some? {
          var j :| NearestWinner(c, s', j) && best.value == Nearest(PixelDistSq(c, s'[j]), s'[j]);
          WinnerAppendCloser(c, s', p, j);
        } else {
          assert |s| == 1;
        }
        assert NearestScan(c, s) == Some(Nearest(d, p));
        assert NearestWinner(c, s, |s| - 1);
      } else {
        var j :| NearestWinner(c, s', j) && best.value == Nearest(PixelDistSq(c, s'[j]), s'[j]);
        WinnerAppendFarther(c, s', p, j);
        assert NearestScan(c, s) == best;
        assert s[j] == s'[j];
        assert NearestWinner(c, s, j) && NearestScan(c, s).value == Nearest(PixelDistSq(c, s[j]), s[j]);
      }
    }
  }

  /** A pixel strictly closer than the winner of `s`, appended to `s`, wins. */
  lemma WinnerAppendCloser(c: Pixel, s: seq<Pixel>, p: Pixel, j: int)
    requires NearestWinner(c, s, j) && PixelDistSq(c, p) < PixelDistSq(c, s[j])
    ensures NearestWinner(c, s + [p], |s|)
  {
    var s2 := s + [p];
    forall i | 0 <= i < |s| ensures PixelDistSq(c, s2[i]) > PixelDistSq(c, p) {
      assert s2[i] == s[i];
    }
  }

  /** A pixel no closer than the winner of `s`, appended to `s`, leaves the
      winner in place. */
  lemma WinnerAppendFarther(c: Pixel, s: seq<Pixel>, p: Pixel, j: int)
    requires NearestWinner(c, s, j) && PixelDistSq(c, p) >= PixelDistSq(c, s[j])
    ensures NearestWinner(c, s + [p], j)
  {
    var s2 := s + [p];
    assert s2[j] == s[j];
    forall i | 0 <= i < |s2| ensures PixelDistSq(c, s2[i]) >= PixelDistSq(c, s2[j]) {
      if i < |s| { assert s2[i] == s[i]; }
    }
    forall i | 0 <= i < j ensures PixelDistSq(c, s2[i]) > PixelDistSq(c, s2[j]) {
      assert s2[i] == s[i];
    }
  }

  /** While pixels remain the walk always finds one, so the `break` is never
      taken. */
  lemma StepFound(c: Pixel, remaining: seq<Pixel>)
    requires |remaining| > 0
    ensures Step(c, remaining).Some?
  {
  }

  /** The neighbour preference written out: the first remaining of the axis
      neighbours above, left, right and below (distance 1), failing those
      the first remaining of the diagonal neighbours upper-left, upper-right,
      lower-left and lower-right (distance √2). */
  function PreferredNeighbour(c: Pixel, remaining: seq<Pixel>): Option<Pixel> {
    var up, left, right, down := Pixel(c.x, c.y - 1), Pixel(c.x - 1, c.y), Pixel(c.x + 1, c.y), Pixel(c.x, c.y + 1);
    var ul, ur, dl, dr := Pixel(c.x - 1, c.y - 1), Pixel(c.x + 1, c.y - 1), Pixel(c.x - 1, c.y + 1), Pixel(c.x + 1, c.y + 1);
    if up in remaining then Some(up)
    else if left in remaining then Some(left)
    else if right in remaining then Some(right)
    else if down in remaining then Some(down)
    else if ul in remaining then Some(ul)
    else if ur in remaining then Some(ur)
    else if dl in remaining then Some(dl)
    else if dr in remaining then Some(dr)
    else None
  }

  lemma DirectionOffsets(c: Pixel)
    ensures Offset(c, Directions[0]) == Pixel(c.x - 1, c.y - 1) && PixelDistSq(c, Offset(c, Directions[0])) == 2
    ensures Offset(c, Directions[1]) == Pixel(c.x, c.y - 1) && PixelDistSq(c, Offset(c, Directions[1])) == 1
    ensures Offset(c, Directions[2]) == Pixel(c.x + 1, c.y - 1) && PixelDistSq(c, Offset(c, Directions[2])) == 2
    ensures Offset(c, Directions[3]) == Pixel(c.x - 1, c.y) && PixelDistSq(c, Offset(c, Directions[3])) == 1
    ensures Offset(c, Directions[4]) == Pixel(c.x + 1, c.y) && PixelDistSq(c, Offset(c, Directions[4])) == 1
    ensures Offset(c, Directions[5]) == Pixel(c.x - 1, c.y + 1) && PixelDistSq(c, Offset(c, Directions[5])) == 2
    ensures Offset(c, Directions[6]) == Pixel(c.x, c.y + 1) && PixelDistSq(c, Offset(c, Directions[6])) == 1
    ensures Offset(c, Directions[7]) == Pixel(c.x + 1, c.y + 1) && PixelDistSq(c, Offset(c, Directions[7])) == 2
  {
  }

  /** When one of the 8 neighbours remains, the walk moves to the preferred
      one: axis neighbours beat diagonals, and ties go to the first in the
      direction list. */
  lemma StepPrefersNeighbours(c: Pixel, remaining: seq<Pixel>)
    ensures PreferredNeighbour(c, remaining).Some? <==>
      exists i :: 0 <= i < |Directions| && Offset(c, Directions[i]) in remaining
    ensures PreferredNeighbour(c, remaining).Some? ==> Step(c, remaining) == PreferredNeighbour(c, remaining)
  {
    NeighbourScanFindsFirstNearest(c, remaining, Directions);
    DirectionOffsets(c);
    if NeighbourScan(c, remaining, Directions).Some? {
      var j :| NeighbourWinner(c, remaining, Directions, j)
        && NeighbourScan(c, remaining, Directions).value
           == Nearest(PixelDistSq(c, Offset(c, Directions[j])), Offset(c, Directions[j]));
    }
  }

  /** Otherwise it moves to the first remaining pixel at the least distance;
      it finds one whenever pixels remain. */
  lemma StepFallsBackToNearest(c: Pixel, remaining: seq<Pixel>)
    requires PreferredNeighbour(c, remaining).None?
    ensures Step(c, remaining).Some? <==> |remaining| > 0
    ensures Step(c, remaining).Some? ==>
      exists j :: NearestWinner(c, remaining, j) && Step(c, remaining) == Some(remaining[j])
  {
    StepPrefersNeighbours(c, remaining);
    NeighbourScanFindsFirstNearest(c, remaining, Directions);
    NearestScanFindsFirstNearest(c, remaining);
  }

  // ---------------------------------------------------------------------
  // The walk and the sorted boundary
  // ---------------------------------------------------------------------

  /** The pixels the `while` loop appends, starting at `c` with `remaining`
      left to visit. */
  function Walk(c: Pixel, remaining: seq<Pixel>): seq<Pixel>
    decreases |remaining|
  {
    if |remaining| == 0 then []
    else
      match Step(c, remaining)
      case None => []
      case Some(n) => [n] + Walk(n, Remove(remaining, n))
  }

  /** The walk from the first pixel through all the others, before closing. */
  function WalkOrder(pixels: seq<Pixel>): seq<Pixel>
    requires |pixels| > 0
  {
    [pixels[0]] + Walk(pixels[0], Remove(Dedup(pixels), pixels[0]))
  }

  /** Appends the first pixel when more than two pixels are ordered and the
      last is one of the first's 8 neighbours (distance at most √2). */
  function CloseLoop(s: seq<Pixel>): seq<Pixel> {
    if |s| > 2 && PixelDistSq(s[0], s[|s| - 1]) <= 2 then s + [s[0]] else s
  }

  function SortedBoundary(pixels: seq<Pixel>): seq<Pixel> {
    if |pixels| <= 1 then pixels else CloseLoop(WalkOrder(pixels))
  }

  /** The neighbour loop of one `while` iteration. */
  method NearestNeighbour(current: Pixel, remaining: seq<Pixel>) returns (nearest: Option<Nearest>)
    ensures nearest == NeighbourScan(current, remaining, Directions)
  {
    nearest := None;
    for k := 0 to |Directions|
      invariant nearest == NeighbourScan(current, remaining, Directions[..k])
    {
      NeighbourScanStep(current, remaining, Directions, k);
      var d := Directions[k];
      var n := Pixel(current.x + d.x, current.y + d.y);
      if n in remaining {
        var dist := d.x * d.x + d.y * d.y;
        SquareIsProduct(d.x);
        SquareIsProduct(d.y);
        assert dist == PixelDistSq(current, n);
        if nearest.None? || dist < nearest.value.dist {
          nearest := Some(Nearest(dist, n));
        }
      }
    }
    assert Directions[..|Directions|] == Directions;
  }

  /** One more direction of the neighbour loop. */
  lemma NeighbourScanStep(c: Pixel, remaining: seq<Pixel>, ds: seq<Pixel>, k: int)
    requires 0 <= k < |ds|
    ensures var best := NeighbourScan(c, remaining, ds[..k]);
      var n := Offset(c, ds[k]);
      NeighbourScan(c, remaining, ds[..k + 1])
        == if n in remaining && Improves(best, PixelDistSq(c, n)) then Some(Nearest(PixelDistSq(c, n), n)) else best
  {
    assert ds[..k + 1][..k] == ds[..k];
  }

  /** The fallback loop of one `while` iteration. It starts from no
      candidate: the neighbour loop found none, so `minDist` is still
      `Infinity`. */
  method NearestRemaining(current: Pixel, remaining: seq<Pixel>) returns (found: Option<Nearest>)
    ensures found == NearestScan(current, remaining)
  {
    found := None;
    for i := 0 to |remaining|
      invariant found == NearestScan(current, remaining[..i])
    {
      assert remaining[..i + 1][..i] == remaining[..i];
      var point := remaining[i];
      var dx := point.x - current.x;
      var dy := point.y - current.y;
      var dist := dx * dx + dy * dy;
      SquareIsProduct(dx);
      SquareIsProduct(dy);
      if found.None? || dist < found.value.dist {
        found := Some(Nearest(dist, point));
      }
    }
    assert remaining[..|remaining|] == remaining;
  }

  lemma WalkStep(c: Pixel, remaining: seq<Pixel>, next: Pixel)
    requires |remaining| > 0 && Step(c, remaining) == Some(next)
    ensures Walk(c, remaining) == [next] + Walk(next, Remove(remaining, next))
  {
  }

  /** `sortBoundaryPixels`. */
  method SortBoundaryPixels(pixels: seq<Pixel>) returns (sorted: seq<Pixel>)
    ensures sorted == SortedBoundary(pixels)
  {
    if |pixels| == 0 {
      return [];
    }
    if |pixels| == 1 {
      return pixels;
    }
    var remaining := Dedup(pixels);
    var current := pixels[0];
    remaining := Remove(remaining, current);
    sorted := WalkFrom(current, remaining);
    sorted := ClosePath(sorted);
  }

  /** The `while` loop of `sortBoundaryPixels`: `sorted` starts as
      `[current]`, and each iteration moves to the pixel the step rule picks
      and deletes it from `remaining`. */
  method WalkFrom(start: Pixel, unvisited: seq<Pixel>) returns (sorted: seq<Pixel>)
    ensures sorted == [start] + Walk(start, unvisited)
  {
    var current := start;
    var remaining := unvisited;
    sorted := [current];
    while |remaining| > 0
      invariant sorted + Walk(current, remaining) == [start] + Walk(start, unvisited)
      decreases |remaining|
    {
      var nearest := NearestNeighbour(current, remaining);
      var next: Pixel;
      if nearest.Some? {
        next := nearest.value.pixel;
        assert Step(current, remaining) == Some(next);
      } else {
        var foundNearest := NearestRemaining(current, remaining);
        if foundNearest.Some? {
          next := foundNearest.value.pixel;
          assert Step(current, remaining) == Some(next);
        } else {
          break;
        }
      }
      WalkStep(current, remaining, next);
      sorted := sorted + [next];
      remaining := Remove(remaining, next);
      current := next;
    }
  }

  /** The closing step at the end of `sortBoundaryPixels`. */
  method ClosePath(sorted: seq<Pixel>) returns (closed: seq<Pixel>)
    ensures closed == CloseLoop(sorted)
  {
    closed := sorted;
    if |sorted| > 2 {
      var first := sorted[0];
      var last := sorted[|sorted| - 1];
      var dx := last.x - first.x;
      var dy := last.y - first.y;
      SquareIsProduct(dx);
      SquareIsProduct(dy);
      if dx * dx + dy * dy <= 2 {
        closed := sorted + [first];
      }
    }
  }

  /** The walk visits every remaining pixel exactly once. */
  lemma {:induction false} WalkIsPermutation(c: Pixel, remaining: seq<Pixel>)
    requires NoDups(remaining)
    ensures multiset(Walk(c, remaining)) == multiset(remaining)
    ensures forall p :: p in Walk(c, remaining) ==> p in remaining
    ensures NoDups(Walk(c, remaining))
    decreases |remaining|
  {
    if |remaining| > 0 {
      StepFound(c, remaining);
      var n := Step(c, remaining).value;
      var rest := Remove(remaining, n);
      RemoveDistinct(remaining, n);
      WalkIsPermutation(n, rest);
      var w := Walk(n, rest);
      assert Walk(c, remaining) == [n] + w;
      assert n !in w;
    }
  }

  /** Before closing, the sorted boundary is a permutation of the (distinct)
      input that starts with the input's first pixel. */
  lemma WalkOrderIsPermutation(pixels: seq<Pixel>)
    requires |pixels| > 0 && NoDups(pixels)
    ensures multiset(WalkOrder(pixels)) == multiset(pixels)
    ensures NoDups(WalkOrder(pixels))
    ensures WalkOrder(pixels)[0] == pixels[0]
  {
    var p0 := pixels[0];
    var rest := Remove(Dedup(pixels), p0);
    assert NoDups(rest) && multiset(rest) + multiset{p0} == multiset(pixels) && p0 !in rest by {
      DedupOfDistinct(pixels);
      RemoveDistinct(pixels, p0);
    }
    var w := Walk(p0, rest);
    assert NoDups(w) && multiset(w) == multiset(rest) && p0 !in w by {
      WalkIsPermutation(p0, rest);
    }
    assert WalkOrder(pixels) == [p0] + w;
    NoDupsCons(p0, w);
  }

  lemma NoDupsCons(x: Pixel, s: seq<Pixel>)
    requires NoDups(s) && x !in s
    ensures NoDups([x] + s)
  {
    forall i, j | 0 <= i < j < |[x] + s| ensures ([x] + s)[i] != ([x] + s)[j] {
      if i == 0 {
        assert s[j - 1] in s;
      }
    }
  }

  /** The sorted boundary: empty and one-pixel inputs unchanged; otherwise
      the walk order, then one more copy of the first pixel exactly when more
      than two pixels were ordered and the last is within √2 of the first. */
  lemma SortedBoundaryShape(pixels: seq<Pixel>)
    requires NoDups(pixels)
    ensures |pixels| <= 1 ==> SortedBoundary(pixels) == pixels
    ensures |pixels| > 1 ==>
      var w := WalkOrder(pixels);
      && |w| == |pixels|
      && SortedBoundary(pixels)[..|w|] == w
      && SortedBoundary(pixels)[0] == pixels[0]
      && (|SortedBoundary(pixels)| == |w| + 1 <==> |w| > 2 && PixelDistSq(w[0], w[|w| - 1]) <= 2)
      && (|SortedBoundary(pixels)| == |w| + 1 ==> SortedBoundary(pixels)[|w|] == pixels[0])
      && |SortedBoundary(pixels)| <= |w| + 1
  {
    if |pixels| > 1 {
      WalkOrderIsPermutation(pixels);
      var w := WalkOrder(pixels);
      assert |w| == |multiset(w)| == |multiset(pixels)| == |pixels|;
    }
  }

  /** The sorted boundary holds the input's pixels and nothing else; its
      first `|pixels|` entries are a permutation of the input. */
  lemma SortedBoundaryMembers(pixels: seq<Pixel>)
    requires NoDups(pixels)
    ensures forall p :: p in SortedBoundary(pixels) <==> p in pixels
    ensures |pixels| <= |SortedBoundary(pixels)| <= |pixels| + 1
    ensures multiset(SortedBoundary(pixels)[..|pixels|]) == multiset(pixels)
  {
    SortedBoundaryShape(pixels);
    var sorted := SortedBoundary(pixels);
    if |pixels| <= 1 {
      assert sorted[..|pixels|] == pixels;
    } else {
      var w := WalkOrder(pixels);
      WalkOrderIsPermutation(pixels);
      assert sorted[..|pixels|] == w;
      forall p ensures p in sorted <==> p in pixels {
        if p in sorted {
          var i :| 0 <= i < |sorted| && sorted[i] == p;
          if i < |w| {
            assert p in multiset(w);
          }
        }
        if p in pixels {
          assert p in multiset(w);
          assert sorted[..|pixels|] <= sorted;
        }
      }
    }
  }

  // ---------------------------------------------------------------------
  // extractFillBoundary
  // ---------------------------------------------------------------------

  function ToPoints(s: seq<Pixel>): (r: seq<Point>)
    ensures |r| == |s| && forall i :: 0 <= i < |s| ==> r[i] == ToPoint(s[i])
  {
    seq(|s|, i requires 0 <= i < |s| => ToPoint(s[i]))
  }

  /** The boundary `extractFillBoundary` resolves with. `None` stands for an
      image that fails to load or a canvas without a 2D context. */
  function FillBoundary(decoded: Option<Image>): seq<Point>
    requires decoded.Some? ==> decoded.value.Valid()
  {
    match decoded
    case None => []
    case Some(img) =>
      var filled := FilledPixelsOf(img);
      if |filled| == 0 then []
      else
        var boundary := BoundaryScan(img, filled, filled);
        if |boundary| == 0 then [] else ToPoints(SortedBoundary(boundary))
  }

  /** `extractFillBoundary` from the decoded buffer on. */
  method ExtractFillBoundary(decoded: Option<Image>) returns (points: seq<Point>)
    requires decoded.Some? ==> decoded.value.Valid()
    ensures points == FillBoundary(decoded)
  {
    if decoded.None? {
      return [];
    }
    var img := decoded.value;
    var filled := FilledPixels(img);
    if |filled| == 0 {
      return [];
    }
    var boundary := BoundaryPixels(img, filled);
    if |boundary| == 0 {
      return [];
    }
    var sorted := SortBoundaryPixels(boundary);
    points := ToPoints(sorted);
  }

  /** The result is empty exactly when the image did not decode or has no
      filled pixel. */
  lemma FillBoundaryEmpty(decoded: Option<Image>)
    requires decoded.Some? ==> decoded.value.Valid()
    ensures FillBoundary(decoded) == [] <==>
      decoded.None? || forall p :: !IsFilled(decoded.value, p)
  {
    if decoded.Some? {
      var img := decoded.value;
      FilledPixelsMembers(img);
      if |FilledPixelsOf(img)| > 0 {
        FirstFilledIsBoundary(img);
        assert FilledPixelsOf(img)[0] in FilledPixelsOf(img);
      }
    }
  }

  /** A decoded image yields each of its boundary pixels, and nothing else;
      every one of them exactly once, except the first, which is repeated at
      the end when the path closes. The path starts at the first filled
      pixel in row-major order. */
  lemma FillBoundaryContents(img: Image)
    requires img.Valid() && exists p :: IsFilled(img, p)
    ensures var pts := FillBoundary(Some(img));
      && (forall p :: ToPoint(p) in pts <==> IsBoundary(img, p))
      && |pts| > 0 && |FilledPixelsOf(img)| > 0
      && pts[0] == ToPoint(FilledPixelsOf(img)[0])
      && |BoundaryPixelsOf(img)| <= |pts| <= |BoundaryPixelsOf(img)| + 1
      && multiset(pts[..|BoundaryPixelsOf(img)|]) == multiset(ToPoints(BoundaryPixelsOf(img)))
  {
    var filled := FilledPixelsOf(img);
    assert |filled| > 0 by {
      FilledPixelsMembers(img);
      var q :| IsFilled(img, q);
      assert q in filled;
    }
    FirstFilledIsBoundary(img);
    var boundary := BoundaryPixelsOf(img);
    BoundaryPixelsMembers(img);
    SortedBoundaryShape(boundary);
    SortedBoundaryMembers(boundary);
    var sorted := SortedBoundary(boundary);
    var pts := ToPoints(sorted);
    assert pts == FillBoundary(Some(img));
    ToPointsMembers(sorted);
    ToPointsMultiset(sorted[..|boundary|], boundary);
    assert pts[..|boundary|] == ToPoints(sorted[..|boundary|]);
  }

  lemma ToPointsMembers(s: seq<Pixel>)
    ensures forall p :: ToPoint(p) in ToPoints(s) <==> p in s
  {
    forall p ensures ToPoint(p) in ToPoints(s) <==> p in s {
      if ToPoint(p) in ToPoints(s) {
        var i :| 0 <= i < |s| && ToPoints(s)[i] == ToPoint(p);
        assert s[i] == p;
      }
      if p in s {
        var i :| 0 <= i < |s| && s[i] == p;
        assert ToPoints(s)[i] == ToPoint(p);
      }
    }
  }

  lemma ToPointsMultiset(a: seq<Pixel>, b: seq<Pixel>)
    requires multiset(a) == multiset(b)
    ensures multiset(ToPoints(a)) == multiset(ToPoints(b))
  {
    ToPointsMultisetMap(a);
    ToPointsMultisetMap(b);
    forall q ensures multiset(ToPoints(a))[q] == multiset(ToPoints(b))[q] {
      if q in ToPoints(a) || q in ToPoints(b) {
        var p :| q == ToPoint(p);
      }
    }
  }

  /** `ToPoints` carries each pixel to its point one for one. */
  lemma {:induction false} ToPointsMultisetMap(a: seq<Pixel>)
    ensures forall p :: multiset(ToPoints(a))[ToPoint(p)] == multiset(a)[p]
    ensures forall q :: q in ToPoints(a) ==> exists p :: q == ToPoint(p)
  {
    if |a| > 0 {
      var a' := a[..|a| - 1];
      ToPointsMultisetMap(a');
      assert a == a' + [a[|a| - 1]];
      assert ToPoints(a) == ToPoints(a') + [ToPoint(a[|a| - 1])];
    }
  }
}

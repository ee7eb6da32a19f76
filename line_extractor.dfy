/** `extractPointsFromLines` of utils/lineExtractor.ts: the points of a
    drawing are the boundaries of its bucket fills, one after another. The
    boundary extraction itself is a parameter (`extract`), standing for
    decoding the fill's image data and running `extractFillBoundary` on it. */
module LineExtractor {
  import opened Points

  /** The drawing tool that produced an entry (`line.type`). */
  datatype Tool = Pen | Line | Eraser | Fill

  /** One entry of the drawing's `lines` array. `imageData` is the encoded
      fill mask a bucket fill carries; `None` is `undefined`. */
  datatype DrawnLine = DrawnLine(tool: Tool, points: seq<real>, imageData: Option<string>)

  /** `line.type === 'fill' && line.imageData`: a present, non-empty string
      is truthy. */
  predicate IsFillWithImage(l: DrawnLine) {
    l.tool == Fill && l.imageData.Some? && l.imageData.value != ""
  }

  /** The `filter` step. */
  function FillEntries(lines: seq<DrawnLine>): (r: seq<DrawnLine>)
    ensures forall l :: l in r <==> l in lines && IsFillWithImage(l)
    ensures forall i :: 0 <= i < |r| ==> IsFillWithImage(r[i])
  {
    if |lines| == 0 then []
    else (if IsFillWithImage(lines[0]) then [lines[0]] else []) + FillEntries(lines[1..])
  }

  /** The `map` step, then `Promise.all`, which keeps the order. */
  function Boundaries(lines: seq<DrawnLine>, extract: string -> seq<Point>): (r: seq<seq<Point>>)
    ensures |r| == |FillEntries(lines)|
  {
    var fills := FillEntries(lines);
    seq(|fills|, i requires 0 <= i < |fills| => extract(fills[i].imageData.value))
  }

  /** The boundaries one after another. */
  function Concat(bs: seq<seq<Point>>): seq<Point> {
    if |bs| == 0 then [] else Concat(bs[..|bs| - 1]) + bs[|bs| - 1]
  }

  function PointsFromLines(lines: seq<DrawnLine>, extract: string -> seq<Point>): seq<Point> {
    Concat(Boundaries(lines, extract))
  }

  /** `extractPointsFromLines`: the `forEach` pushing every boundary onto
      `allPoints`. */
  method ExtractPointsFromLines(lines: seq<DrawnLine>, extract: string -> seq<Point>)
    returns (allPoints: seq<Point>)
    ensures allPoints == PointsFromLines(lines, extract)
  {
    var fillBoundaries := Boundaries(lines, extract);
    allPoints := [];
    for i := 0 to |fillBoundaries|
      invariant allPoints == Concat(fillBoundaries[..i])
    {
      assert fillBoundaries[..i + 1][..i] == fillBoundaries[..i];
      allPoints := allPoints + fillBoundaries[i];
    }
    assert fillBoundaries[..|fillBoundaries|] == fillBoundaries;
  }

  lemma {:induction false} ConcatAppend(a: seq<seq<Point>>, b: seq<seq<Point>>)
    ensures Concat(a + b) == Concat(a) + Concat(b)
    decreases |b|
  {
    if |b| > 0 {
      var b' := b[..|b| - 1];
      assert (a + b)[..|a + b| - 1] == a + b';
      ConcatAppend(a, b');
    } else {
      assert a + b == a;
    }
  }

  lemma FillEntriesAppend(a: seq<DrawnLine>, b: seq<DrawnLine>)
    ensures FillEntries(a + b) == FillEntries(a) + FillEntries(b)
  {
    if |a| > 0 {
      assert (a + b)[1..] == a[1..] + b;
      FillEntriesAppend(a[1..], b);
    } else {
      assert a + b == b;
    }
  }

  /** What a single entry contributes: its boundary if it is a fill with
      image data, and nothing otherwise. */
  lemma SingleEntry(l: DrawnLine, extract: string -> seq<Point>)
    ensures PointsFromLines([l], extract)
         == if IsFillWithImage(l) then extract(l.imageData.value) else []
  {
    assert [l][1..] == [];
    assert FillEntries([l]) == if IsFillWithImage(l) then [l] else [];
    if IsFillWithImage(l) {
      var bs := Boundaries([l], extract);
      assert bs == [extract(l.imageData.value)];
      assert bs[..0] == [];
      assert Concat(bs) == Concat(bs[..0]) + bs[0];
    }
  }

  /** The entries are handled independently and their points keep the
      entries' order: the points of a concatenation of drawings are the
      concatenation of their points. */
  lemma PointsFromLinesAppend(a: seq<DrawnLine>, b: seq<DrawnLine>, extract: string -> seq<Point>)
    ensures PointsFromLines(a + b, extract) == PointsFromLines(a, extract) + PointsFromLines(b, extract)
  {
    var ba, bb := Boundaries(a, extract), Boundaries(b, extract);
    var bab := Boundaries(a + b, extract);
    assert bab == ba + bb by {
      var fa, fb, fab := FillEntries(a), FillEntries(b), FillEntries(a + b);
      FillEntriesAppend(a, b);
      assert |bab| == |ba| + |bb|;
      forall i | 0 <= i < |bab| ensures bab[i] == (ba + bb)[i] {
        if i < |fa| {
          assert fab[i] == fa[i];
          assert bab[i] == extract(fa[i].imageData.value) == ba[i];
        } else {
          assert fab[i] == fb[i - |fa|];
          assert bab[i] == extract(fb[i - |fa|].imageData.value) == bb[i - |ba|];
        }
      }
    }
    ConcatAppend(ba, bb);
  }

  /** Each entry in turn: the points are the concatenation, in input order,
      of the boundaries of the fill entries with image data. */
  lemma {:induction false} PointsFromLinesByEntry(lines: seq<DrawnLine>, extract: string -> seq<Point>)
    ensures |lines| > 0 ==>
      (PointsFromLines(lines, extract)
       == PointsFromLines(lines[..|lines| - 1], extract)
          + (if IsFillWithImage(lines[|lines| - 1]) then extract(lines[|lines| - 1].imageData.value) else []))
  {
    if |lines| > 0 {
      var last := lines[|lines| - 1];
      assert lines == lines[..|lines| - 1] + [last];
      PointsFromLinesAppend(lines[..|lines| - 1], [last], extract);
      SingleEntry(last, extract);
    }
  }

  /** Pen, line and eraser entries, and fills without image data, contribute
      nothing; a drawing with no fill entry gives no points. */
  lemma {:induction false} NoFillsNoPoints(lines: seq<DrawnLine>, extract: string -> seq<Point>)
    requires forall l :: l in lines ==> !IsFillWithImage(l)
    ensures PointsFromLines(lines, extract) == []
  {
    if |lines| > 0 {
      NoFillsNoPoints(lines[1..], extract);
      assert lines[0] in lines;
    }
  }

  function SumOfLengths(bs: seq<seq<Point>>): nat {
    if |bs| == 0 then 0 else SumOfLengths(bs[..|bs| - 1]) + |bs[|bs| - 1]|
  }

  /** Nothing is removed: the number of points is the sum of the boundary
      lengths. */
  lemma {:induction false} PointsCount(bs: seq<seq<Point>>)
    ensures |Concat(bs)| == SumOfLengths(bs)
  {
    if |bs| > 0 {
      PointsCount(bs[..|bs| - 1]);
    }
  }
}

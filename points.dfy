/** Value types shared by the whole pipeline: points in pixel space, integer
    pixels, an optional value, and the small real-number helpers the
    TypeScript code takes from `Math`. */
module Points {

  /** `Point | null`, and the `Infinity` start value of a running minimum. */
  datatype Option<T> = None | Some(value: T)

  /** `{x: number, y: number}` of utils/svgParser.ts. */
  datatype Point = Point(x: real, y: real)

  /** An integer pixel coordinate, the `"x,y"` key of utils/fillExtractor.ts. */
  datatype Pixel = Pixel(x: int, y: int)

  function Abs(r: real): real { if r < 0.0 then -r else r }
  function Min(a: real, b: real): real { if a <= b then a else b }
  function Max(a: real, b: real): real { if a >= b then a else b }

  /** Squared Euclidean distance: the code compares `Math.sqrt(dx*dx + dy*dy)`
      with a non-negative bound, which is the same as comparing this with the
      bound squared. */
  function DistSq(p: Point, q: Point): real {
    (q.x - p.x) * (q.x - p.x) + (q.y - p.y) * (q.y - p.y)
  }

  /** The square of an integer, as the sum of the first |n| odd numbers:
      linear arithmetic only, so that reasoning about distances between
      pixels needs no nonlinear solving unless `SquareIsProduct` is used. */
  function Square(n: int): nat
    decreases if n < 0 then -n else n
  {
    if n == 0 then 0
    else if n > 0 then Square(n - 1) + 2 * n - 1
    else Square(n + 1) - 2 * n - 1
  }

  lemma {:induction false} SquareIsProduct(n: int)
    ensures Square(n) == n * n
    decreases if n < 0 then -n else n
  {
    if n < 0 {
      SquareIsProduct(n + 1);
    } else if n > 0 {
      SquareIsProduct(n - 1);
    }
  }

  /** Squared distance between two pixels, `dx*dx + dy*dy`. */
  function PixelDistSq(p: Pixel, q: Pixel): int {
    Square(q.x - p.x) + Square(q.y - p.y)
  }

  /** A pixel as a point of the boundary the extractor returns. */
  function ToPoint(p: Pixel): Point { Point(p.x as real, p.y as real) }

  /** No element occurs twice: the contents of a JavaScript `Set`. */
  ghost predicate NoDups<T>(s: seq<T>) {
    forall i, j :: 0 <= i < j < |s| ==> s[i] != s[j]
  }

  /** `r` is an order-preserving subsequence of `s`. */
  ghost predicate IsSubsequence<T>(r: seq<T>, s: seq<T>)
    decreases |s|
  {
    if |r| == 0 then true
    else if |s| == 0 then false
    else if r[|r| - 1] == s[|s| - 1] && IsSubsequence(r[..|r| - 1], s[..|s| - 1]) then true
    else IsSubsequence(r, s[..|s| - 1])
  }

  lemma {:induction false} SubsequenceRefl<T>(s: seq<T>)
    ensures IsSubsequence(s, s)
  {
    if |s| > 0 { SubsequenceRefl(s[..|s| - 1]); }
  }

  /** A subsequence of a prefix, possibly extended by the next element, is a
      subsequence of the extended prefix. */
  lemma SubsequenceExtend<T>(r: seq<T>, s: seq<T>, x: T, keep: bool)
    requires IsSubsequence(r, s)
    ensures IsSubsequence(if keep then r + [x] else r, s + [x])
  {
    var s' := s + [x];
    assert s'[..|s'| - 1] == s;
    if keep {
      var r' := r + [x];
      assert r'[..|r'| - 1] == r;
    } else if |r| > 0 {
      assert IsSubsequence(r, s'[..|s'| - 1]);
    }
  }

  /** Signs of products, which the solver does not find on its own. */
  lemma MulPositive(x: real, y: real)
    requires x > 0.0 && y > 0.0
    ensures x * y > 0.0
  {
  }

  lemma MulNonNegative(x: real, y: real)
    requires x >= 0.0 && y >= 0.0
    ensures x * y >= 0.0
  {
  }
}

# Stone-cutting layout and tool-path core

A model of the computational core of a web application that lays stone slabs
out on a wall and turns drawings into cutting programs. The drawing pipeline
has four steps:

1. Bucket-fill masks are reduced to ordered boundary points.
2. The points are collected from all fill entries of a drawing.
3. The points are thinned.
4. The points are emitted as a G-code program.

Alongside it are an SVG path reader and writer that form a command-level
round trip. The stone layout has its own geometry:

- the canvas size derived from the wall's size in metres;
- rotation normalisation;
- the per-stone rectangle cutting program;
- stone-list updates for move, copy, rotate, transform and delete;
- crop-selection clamping, resizing and the rectangle overlap test.

There is one Dafny module per source file:

| module | file | source |
|---|---|---|
| `Points` | `points.dfy` | shared points, pixels, `Option` and sequence helpers |
| `FillExtractor` | `fill_extractor.dfy` | `utils/fillExtractor.ts` |
| `LineExtractor` | `line_extractor.dfy` | `utils/lineExtractor.ts` |
| `GCodeGenerator` | `gcode_generator.dfy` | `utils/gcodeGenerator.ts` |
| `SvgParser` | `svg_parser.dfy` | `utils/svgParser.ts` |
| `SvgGenerator` | `svg_generator.dfy` | `utils/svgGenerator.ts` |
| `DrawingCanvas` | `drawing_canvas.dfy` | `components/DrawingCanvas.tsx` |
| `HomePage` | `home_page.dfy` | `app/page.tsx` |

The code's loops are modelled as methods. Each method is proved equal to a
specification function. The properties are proved as lemmas about that
function. Coordinates are `real`, and pixels are pairs of `int`.

Comparisons against `Math.sqrt` are made on squares:

- `>= 0.5` becomes `>= 0.25`;
- `<= Math.sqrt(2)` becomes `<= 2`;
- `< 5` becomes `< 25`.

Pixel distances `dx * dx + dy * dy` are `Points.PixelDistSq`. It is built
from `Points.Square`, a linear recursive definition of the square, and the
lemma `Points.SquareIsProduct` ties it to `n * n` where the loops multiply.

The `Infinity` start value of a minimum search becomes `None`. JavaScript's
truncating `%` is written out as `DrawingCanvas.Rem360`. Number-to-text
conversion (`toFixed`, template literals) is a function parameter of the
render functions. Fresh ids (`Date.now()`) are parameters.

## Model

| member | source | states |
|---|---|---|
| Points.SquareIsProduct | utils/fillExtractor.ts:145-148 | the squared distance the fallback loop computes as `dx * dx + dy * dy` is the recursive square of each axis difference, summed |
| Points.PixelDistSq | utils/fillExtractor.ts:146-148 | the squared Euclidean distance of two pixels, the quantity `Math.sqrt` is taken of; `Points.SquareIsProduct` ties it to `dx * dx + dy * dy` |
| Points.DistSq | utils/gcodeGenerator.ts:16-18 | `dx * dx + dy * dy`, the squared distance `Math.sqrt` is taken of; `GCodeGenerator.ReductionSeparates` and `SvgGenerator.PathShape` state the comparisons made on it |
| Points.Square | utils/fillExtractor.ts:146-148 | the square of a pixel coordinate difference; `Points.SquareIsProduct` states that it is `n * n` |
| Points.Abs | utils/gcodeGenerator.ts:33-34 | `Math.abs`, by which `GCodeGenerator.PointsAreEqual` and `GCodeGenerator.Moves` compare each axis |
| Points.Min | app/page.tsx:474 | `Math.min` of two numbers; `HomePage.NaturalCropNormalised` states the edges built from it |
| Points.Max | app/page.tsx:475 | `Math.max` of two numbers; `HomePage.NaturalCropNormalised` states the edges built from it |
| Points.ToPoint | utils/fillExtractor.ts:74 | a pixel as the point `{x, y}`; `FillExtractor.ToPointsMembers` states the conversion |
| FillExtractor.PixelIndexInRange | utils/fillExtractor.ts:30-34 | the byte offset `(y*width+x)*4` of an in-image pixel and its three following channels lie inside the RGBA buffer |
| FillExtractor.FilledColour | utils/fillExtractor.ts:37 | the fill test on one pixel's bytes: alpha above 0 and not all of R, G, B at 255; `FillExtractor.FilledPixelsMembers` states the scan collects exactly such pixels |
| FillExtractor.IsFilled | utils/fillExtractor.ts:30-37 | the fill test applied to the four bytes at `(y*width+x)*4` of an in-image pixel; off-image pixels are unfilled |
| FillExtractor.InImage | utils/fillExtractor.ts:53 | the bounds test of `isFilled`: 0 ≤ x < width and 0 ≤ y < height |
| FillExtractor.Channel | utils/fillExtractor.ts:31-34 | the byte `data[idx + c]` of an in-image pixel; `FillExtractor.PixelIndexInRange` states that the index is in the buffer |
| FillExtractor.IsBoundary | utils/fillExtractor.ts:52-70 | a filled pixel with an unfilled or off-image 4-neighbour; `FillExtractor.BoundaryPixelsMembers` states the scan keeps exactly these |
| FillExtractor.RowScan | utils/fillExtractor.ts:29-40 | the inner loop's additions for one row, left to right; `FillExtractor.RowScanMembers` states its contents |
| FillExtractor.RowsScan | utils/fillExtractor.ts:28-41 | the outer loop's additions for the first rows; `FillExtractor.RowsScanMembers` states its contents |
| FillExtractor.FilledPixelsOf | utils/fillExtractor.ts:27-41 | the contents of `filledPixels` in insertion order; `FillExtractor.FilledPixelsMembers` states them |
| FillExtractor.FilledIn | utils/fillExtractor.ts:52-55 | `isFilled`: inside the image and among the filled pixels |
| FillExtractor.HasEmptyNeighbour | utils/fillExtractor.ts:57-65 | `hasEmptyNeighbor`: one of the four axis neighbours is not filled |
| FillExtractor.BoundaryScan | utils/fillExtractor.ts:68-77 | the `forEach` over the filled pixels, keeping each boundary pixel once; `FillExtractor.BoundaryScanMembers` states its contents |
| FillExtractor.FilledPixels | utils/fillExtractor.ts:27-41 | the nested row/column loops collect exactly the row-major scan of filled pixels |
| FillExtractor.RowScanMembers | utils/fillExtractor.ts:29-40 | one row's scan holds exactly the filled pixels left of `x` in that row, in increasing x |
| FillExtractor.RowsScanMembers | utils/fillExtractor.ts:28-41 | the scan of the first `y` rows holds exactly their filled pixels, in row-major order |
| FillExtractor.FilledPixelsMembers | utils/fillExtractor.ts:27-41 | a pixel is collected iff alpha > 0 and it is not pure white (255,255,255); the collection is row-major and has no repeats, as the `Set` keeps it |
| FillExtractor.BoundaryPixels | utils/fillExtractor.ts:49-77 | the `forEach` over the filled pixels builds exactly the boundary scan, with `boundarySet` as membership in the list so far |
| FillExtractor.BoundaryScanMembers | utils/fillExtractor.ts:52-77 | a scanned pixel is kept iff one of its 4-neighbours is unfilled or off the image; each is kept once, in scan order |
| FillExtractor.BoundaryPixelsOf | utils/fillExtractor.ts:27-77 | the boundary list: the boundary scan over the filled pixels; `FillExtractor.BoundaryPixelsMembers` states its members and order |
| FillExtractor.BoundaryPixelsMembers | utils/fillExtractor.ts:52-77 | the boundary pixels are exactly the filled pixels with an unfilled or off-image 4-neighbour, without repeats, in row-major order |
| FillExtractor.FirstFilledIsBoundary | utils/fillExtractor.ts:68-82 | with any filled pixel, the first filled pixel is a boundary pixel, so the check at 79-82 cannot fire once pixels exist |
| FillExtractor.BoundaryScanKeepsFirst | utils/fillExtractor.ts:68-77 | a first scanned pixel with an empty neighbour heads the boundary list |
| FillExtractor.SolidImageBoundary | utils/fillExtractor.ts:52-77 | for a fully filled image, the boundary is exactly the pixels on the image's edge |
| FillExtractor.SolidThreeByThree | utils/fillExtractor.ts:52-77 | a solid 3×3 block yields its 8 perimeter pixels and not the centre |
| FillExtractor.Dedup | utils/fillExtractor.ts:103 | `new Set(pixels...)`: the same members, each once |
| FillExtractor.DedupOfDistinct | utils/fillExtractor.ts:103 | a list without repeats is unchanged by building the set |
| FillExtractor.Remove | utils/fillExtractor.ts:108 | `remaining.delete`: exactly the pixel is gone, and the set shrinks when it was there |
| FillExtractor.RemoveAbsent | utils/fillExtractor.ts:108 | deleting an absent pixel changes nothing |
| FillExtractor.RemoveDistinct | utils/fillExtractor.ts:108 | deleting keeps the set free of repeats and removes one occurrence from its multiset |
| FillExtractor.NeighbourScan | utils/fillExtractor.ts:122-134 | a neighbour found by the direction loop is one of the remaining pixels |
| FillExtractor.Improves | utils/fillExtractor.ts:129 | `dist < minDist`, with no candidate yet as `minDist = Infinity`; `FillExtractor.NeighbourScanFindsFirstNearest` states the strict-less tie rule |
| FillExtractor.NearestScan | utils/fillExtractor.ts:141-155 | the fallback search finds a remaining pixel, and finds none only when nothing remains |
| FillExtractor.Step | utils/fillExtractor.ts:114-162 | the next pixel chosen is a remaining pixel |
| FillExtractor.NeighbourScanFindsFirstNearest | utils/fillExtractor.ts:114-134 | no neighbour is found iff no 8-neighbour remains; otherwise the one found is at minimal distance, and the first such in direction order (strict `<`) |
| FillExtractor.NeighbourScanWinner | utils/fillExtractor.ts:122-134 | the direction loop's result is the first remaining neighbour of least squared distance |
| FillExtractor.NeighbourScanNone | utils/fillExtractor.ts:122-134 | the direction loop finds nothing iff none of the offsets lands on a remaining pixel |
| FillExtractor.NearestScanFindsFirstNearest | utils/fillExtractor.ts:141-155 | the fallback returns a remaining pixel of minimal Euclidean distance, the first in `remaining` order on ties |
| FillExtractor.StepFound | utils/fillExtractor.ts:137-162 | while pixels remain a next pixel is always found, so the `break` at 160-162 is unreachable |
| FillExtractor.Directions | utils/fillExtractor.ts:115-119 | the eight neighbour offsets in the order the loop tries them; `FillExtractor.DirectionOffsets` states each one |
| FillExtractor.DirectionOffsets | utils/fillExtractor.ts:115-119 | the eight directions and their squared distances: axis neighbours 1, diagonals 2 |
| FillExtractor.Offset | utils/fillExtractor.ts:122-125 | the pixel one direction away from the current one |
| FillExtractor.PreferredNeighbour | utils/fillExtractor.ts:114-134 | an independent statement of the neighbour preference (axis neighbours up, left, right, down, then diagonals); `FillExtractor.StepPrefersNeighbours` proves the direction loop picks it |
| FillExtractor.StepPrefersNeighbours | utils/fillExtractor.ts:114-139 | if any 8-neighbour remains, the step takes a neighbour: up, left, right, down, then the diagonals in list order |
| FillExtractor.StepFallsBackToNearest | utils/fillExtractor.ts:141-159 | with no neighbour left, the step takes the first remaining pixel at minimal distance |
| FillExtractor.NearestNeighbour | utils/fillExtractor.ts:111-134 | the neighbour loop with `minDist`/`nearest` computes the neighbour scan over all eight directions |
| FillExtractor.NearestRemaining | utils/fillExtractor.ts:141-155 | the loop over `remaining` computes the nearest-pixel scan |
| FillExtractor.WalkStep | utils/fillExtractor.ts:110-164 | one `while` iteration emits the chosen pixel and removes it from `remaining` |
| FillExtractor.Walk | utils/fillExtractor.ts:110-164 | the pixels the `while` loop appends; `FillExtractor.WalkIsPermutation` states it visits every remaining pixel once |
| FillExtractor.WalkOrder | utils/fillExtractor.ts:102-164 | the first pixel, then the walk over the others; `FillExtractor.WalkOrderIsPermutation` states it is a permutation |
| FillExtractor.CloseLoop | utils/fillExtractor.ts:166-177 | the closing step; `FillExtractor.ClosePath` states when it appends the first pixel |
| FillExtractor.SortedBoundary | utils/fillExtractor.ts:98-180 | `sortBoundaryPixels`; `FillExtractor.SortedBoundaryShape` and `FillExtractor.SortedBoundaryMembers` state its shape and contents |
| FillExtractor.SortBoundaryPixels | utils/fillExtractor.ts:98-180 | the method computes the sorted boundary: inputs of 0 or 1 pixels unchanged, otherwise the greedy walk from the first pixel, then closed |
| FillExtractor.WalkFrom | utils/fillExtractor.ts:102-164 | the `while` loop emits the start and then the greedy walk over the remaining pixels |
| FillExtractor.ClosePath | utils/fillExtractor.ts:166-177 | the closing step appends the first pixel iff more than 2 pixels are ordered and the last is within √2 of the first |
| FillExtractor.WalkIsPermutation | utils/fillExtractor.ts:110-164 | the walk emits every remaining pixel exactly once (a permutation) |
| FillExtractor.WalkOrderIsPermutation | utils/fillExtractor.ts:102-164 | before closing, the output is a permutation of the input starting with the input's first pixel |
| FillExtractor.NoDupsCons | utils/fillExtractor.ts:106-108 | the first pixel, taken out of `remaining`, is not emitted again |
| FillExtractor.SortedBoundaryShape | utils/fillExtractor.ts:98-180 | 0/1 pixels unchanged; otherwise the walk, then one copy of the first pixel appended exactly when more than 2 pixels and the last within √2 of the first |
| FillExtractor.SortedBoundaryMembers | utils/fillExtractor.ts:98-180 | the sorted boundary has the same pixels, at most one extra entry, and its first n entries are a permutation of the input |
| FillExtractor.ToPoints | utils/fillExtractor.ts:74 | pixels become points `{x, y}` one for one |
| FillExtractor.ExtractFillBoundary | utils/fillExtractor.ts:7-92 | the whole extraction from a decoded buffer (or a decode error) computes the fill boundary |
| FillExtractor.FillBoundary | utils/fillExtractor.ts:7-92 | the points `extractFillBoundary` resolves with; `FillExtractor.FillBoundaryEmpty` and `FillExtractor.FillBoundaryContents` state what they are |
| FillExtractor.FillBoundaryEmpty | utils/fillExtractor.ts:43-89 | the result is empty iff decoding failed or no pixel is filled |
| FillExtractor.FillBoundaryContents | utils/fillExtractor.ts:7-92 | the result holds exactly the boundary pixels, starts at the first filled pixel, has at most one closing extra, and is otherwise a permutation of the boundary |
| FillExtractor.ToPointsMembers | utils/fillExtractor.ts:74 | a point is present iff its pixel is |
| FillExtractor.ToPointsMultiset | utils/fillExtractor.ts:74 | converting to points preserves permutations |
| FillExtractor.ToPointsMultisetMap | utils/fillExtractor.ts:74 | converting to points keeps each pixel's multiplicity |
| LineExtractor.FillEntries | utils/lineExtractor.ts:23-24 | the filter keeps exactly the entries of type `fill` with truthy `imageData` |
| LineExtractor.IsFillWithImage | utils/lineExtractor.ts:24 | the filter's test: type `fill` and a truthy `imageData` |
| LineExtractor.Concat | utils/lineExtractor.ts:30-32 | the boundaries pushed one after another; `LineExtractor.ConcatAppend` and `LineExtractor.PointsCount` state how it composes |
| LineExtractor.PointsFromLines | utils/lineExtractor.ts:19-72 | what `extractPointsFromLines` resolves with; `LineExtractor.PointsFromLinesByEntry` states it entry by entry |
| LineExtractor.Boundaries | utils/lineExtractor.ts:25-27 | one boundary per kept entry, in order (`Promise.all` keeps order) |
| LineExtractor.ExtractPointsFromLines | utils/lineExtractor.ts:19-72 | the `forEach` pushing every boundary computes their concatenation |
| LineExtractor.ConcatAppend | utils/lineExtractor.ts:30-32 | concatenating boundaries distributes over splitting the list |
| LineExtractor.FillEntriesAppend | utils/lineExtractor.ts:23-24 | the filter distributes over concatenation |
| LineExtractor.SingleEntry | utils/lineExtractor.ts:23-32 | one entry contributes its extracted boundary if it is a fill with image data, and nothing otherwise |
| LineExtractor.PointsFromLinesAppend | utils/lineExtractor.ts:23-32 | the entries are handled independently; the points of two drawings joined are their points joined |
| LineExtractor.PointsFromLinesByEntry | utils/lineExtractor.ts:23-32 | the result is the boundaries of the fill entries in input order; a fill whose extraction returns `[]` adds nothing |
| LineExtractor.NoFillsNoPoints | utils/lineExtractor.ts:23-32 | pen, line and eraser entries and fills without image data contribute nothing; no fills gives `[]` |
| LineExtractor.PointsCount | utils/lineExtractor.ts:30-32 | no deduplication: the number of points is the sum of the boundary lengths |
| GCodeGenerator.WithoutRedundant | utils/gcodeGenerator.ts:42-58 | the first pass never grows the list and never empties a non-empty one |
| GCodeGenerator.WithoutDuplicates | utils/gcodeGenerator.ts:8-27 | the second pass never grows the list and never empties a non-empty one |
| GCodeGenerator.PointsAreEqual | utils/gcodeGenerator.ts:32-36 | `pointsAreEqual`: closer than the tolerance on both axes |
| GCodeGenerator.Tolerance | utils/gcodeGenerator.ts:32 | the default tolerance 0.1 of `pointsAreEqual` |
| GCodeGenerator.MinDistance | utils/gcodeGenerator.ts:83 | the minimum distance 0.5 `generateGCode` passes; `GCodeGenerator.EqualMeansNear` relates it to the tolerance |
| GCodeGenerator.FarEnough | utils/gcodeGenerator.ts:16-21 | `distance >= minDistance` compared on squares (always true for a non-positive minimum) |
| GCodeGenerator.Reduce | utils/gcodeGenerator.ts:82-83 | the two passes in the order `generateGCode` applies them; `GCodeGenerator.ReduceKeepsFirst` and `GCodeGenerator.ReduceIdempotent` state its properties |
| GCodeGenerator.RemoveRedundantPoints | utils/gcodeGenerator.ts:42-58 | the loop computes the tolerance filter against the last kept point |
| GCodeGenerator.RemoveDuplicatePoints | utils/gcodeGenerator.ts:8-27 | the loop computes the minimum-distance filter against the last kept point |
| GCodeGenerator.ReductionKeepsFirst | utils/gcodeGenerator.ts:8-58 | both passes keep the first point |
| GCodeGenerator.ReduceKeepsFirst | utils/gcodeGenerator.ts:82-87 | the combined reduction of a non-empty input is non-empty and starts at the first point, so the check at 85-87 is unreachable |
| GCodeGenerator.ReductionIsSubsequence | utils/gcodeGenerator.ts:8-58 | both passes return an order-preserving subsequence of their input |
| GCodeGenerator.ReductionSeparates | utils/gcodeGenerator.ts:8-58 | after the first pass no kept point is within 0.1 on both axes of its predecessor; after the second consecutive points are at least `minDistance` apart |
| GCodeGenerator.FarEnoughIsFixpoint | utils/gcodeGenerator.ts:8-27 | a list already spaced by `minDistance` is unchanged by the second pass |
| GCodeGenerator.DistinctIsFixpoint | utils/gcodeGenerator.ts:32-58 | a list with no two consecutive equal points (tolerance 0.1) is unchanged by the first pass |
| GCodeGenerator.SquareBelow | utils/gcodeGenerator.ts:32-36 | proof helper: an axis difference below the tolerance has square below its square |
| GCodeGenerator.EqualMeansNear | utils/gcodeGenerator.ts:18-36 | points equal within 0.1 on both axes are less than 0.5 apart |
| GCodeGenerator.ReduceIdempotent | utils/gcodeGenerator.ts:8-83 | reducing an already reduced list changes nothing |
| GCodeGenerator.ScaleAll | utils/gcodeGenerator.ts:107-116 | every point is scaled by `scalePoint`, one for one |
| GCodeGenerator.Truthy | utils/gcodeGenerator.ts:95 | JavaScript truthiness of an optional canvas size: present and non-zero; `GCodeGenerator.UniformScaling` states what a falsy size does to the Y scale |
| GCodeGenerator.YScale | utils/gcodeGenerator.ts:95-99 | the Y factor: `scale`, times height / width when both canvas sizes are truthy |
| GCodeGenerator.ScalePoint | utils/gcodeGenerator.ts:107-116 | `scalePoint`; `GCodeGenerator.FlipPoint` and `GCodeGenerator.UniformScaling` state its meaning |
| GCodeGenerator.MaxY | utils/gcodeGenerator.ts:92 | `Math.max(...y)`: an upper bound on every y that is attained |
| GCodeGenerator.ScaledPoints | utils/gcodeGenerator.ts:82-116 | one scaled point per reduced point, and at least one |
| GCodeGenerator.Linears | utils/gcodeGenerator.ts:135 | one `G1` per target, to that target |
| GCodeGenerator.Moves | utils/gcodeGenerator.ts:131-134 | a move of more than 0.001 on some axis |
| GCodeGenerator.MoveEpsilon | utils/gcodeGenerator.ts:134 | the 0.001 a cut move must exceed on some axis; `GCodeGenerator.GCodeMovesAreReal` states the effect |
| GCodeGenerator.CutTargets | utils/gcodeGenerator.ts:126-138 | the targets the cut loop writes; `GCodeGenerator.CutTargetsProperties` states them |
| GCodeGenerator.ProgramFor | utils/gcodeGenerator.ts:101-144 | the program for reduced, scaled points; `GCodeGenerator.ProgramForShape` states its shape |
| GCodeGenerator.GCodeProgram | utils/gcodeGenerator.ts:77-146 | the program `generateGCode` writes; `GCodeGenerator.GCodeShape` and `GCodeGenerator.GCodeMovesAreReal` state its shape |
| GCodeGenerator.CutTargetsStep | utils/gcodeGenerator.ts:126-138 | a point is emitted and becomes the last target iff it moves more than 0.001 on some axis |
| GCodeGenerator.LinearsAppend | utils/gcodeGenerator.ts:126-138 | emitting two runs of targets is emitting them in sequence |
| GCodeGenerator.WriteCuts | utils/gcodeGenerator.ts:126-138 | the cut loop, with `lastScaledPoint` reassigned, writes `G1` to exactly the targets that move |
| GCodeGenerator.GenerateGCode | utils/gcodeGenerator.ts:69-147 | the method computes the G-code program of its inputs |
| GCodeGenerator.CutTargetsProperties | utils/gcodeGenerator.ts:126-138 | at most one target per remaining point, each one of those points, each moving more than 0.001 from the previous target |
| GCodeGenerator.ProgramForShape | utils/gcodeGenerator.ts:101-144 | `G21`, `G90`, `G1 F`, `G0` to the first point, `M3`, `G1`s to scaled points that each move, `M5`, `G0 X0 Y0`; at most (points − 1) `G1` |
| GCodeGenerator.GCodeShape | utils/gcodeGenerator.ts:77-146 | empty input gives the empty program and only it; otherwise the fixed order, and a single reduced point gives no `G1` |
| GCodeGenerator.GCodeMovesAreReal | utils/gcodeGenerator.ts:126-138 | no `G1` repeats the previous target within 0.001 on both axes |
| GCodeGenerator.FlipPoint | utils/gcodeGenerator.ts:107-116 | with a flip and yScale ≥ 0, a point at or below `maxY` maps to y ≥ 0, and one at `maxY` to 0 |
| GCodeGenerator.FlipYScaled | utils/gcodeGenerator.ts:92-116 | with a flip, every scaled y is ≥ 0 and the points at the maximum y map to 0 |
| GCodeGenerator.FlipYNonNegative | utils/gcodeGenerator.ts:92-144 | with a flip and yScale ≥ 0, every emitted `G0`/`G1` Y is ≥ 0, and the max-y point maps to 0 |
| GCodeGenerator.UniformScaling | utils/gcodeGenerator.ts:95-116 | without both canvas sizes (or with a square canvas), x and y are both multiplied by `scale` |
| GCodeGenerator.DefaultFeedRate | utils/gcodeGenerator.ts:71 | the default feed rate 1500; `GCodeGenerator.DefaultArguments` states the call without arguments |
| GCodeGenerator.DefaultScale | utils/gcodeGenerator.ts:72 | the default scale 0.1 |
| GCodeGenerator.DefaultFlipY | utils/gcodeGenerator.ts:73 | the default Y flip, on |
| GCodeGenerator.DefaultArguments | utils/gcodeGenerator.ts:69-73 | with every optional argument left out: feed 1500, 0.1 mm per pixel, Y flipped so that every position is ≥ 0, and the `G0` goes to the first reduced point so scaled |
| GCodeGenerator.ExampleMaxY | utils/gcodeGenerator.ts:92 | the example's maximum y is 10 |
| GCodeGenerator.ScaleThree | utils/gcodeGenerator.ts:107-116 | scaling three points scales each |
| GCodeGenerator.ExampleCorners | utils/gcodeGenerator.ts:107-116 | each example corner's scaled position |
| GCodeGenerator.ExampleScaledPoints | utils/gcodeGenerator.ts:82-116 | any input the reduction leaves as (0,0),(10,0),(10,10) is non-empty and scales to (0,1),(1,1),(1,0) |
| GCodeGenerator.GCodeExample | utils/gcodeGenerator.ts:92-144 | for any input that reduces to (0,0),(10,0),(10,10), with feed 1500, scale 0.1 and the flip: `G0` to (0,1), then `G1` to (1,1) and to (1,0) |
| GCodeGenerator.ExampleProgram | utils/gcodeGenerator.ts:101-144 | the program for the example's scaled points |
| GCodeGenerator.EmptyInputEmptyText | utils/gcodeGenerator.ts:77-79 | no points gives the empty string |
| GCodeGenerator.RenderCommand | utils/gcodeGenerator.ts:102-144 | the text of one command, with `toFixed(3)` as a parameter |
| GCodeGenerator.RenderProgram | utils/gcodeGenerator.ts:146 | `lines.join('\n')`; `GCodeGenerator.EmptyInputEmptyText` states the empty case |
| SvgParser.ToUpper | utils/svgParser.ts:35 | upper-casing maps each character (ASCII letters) |
| SvgParser.ToUpperIdempotent | utils/svgParser.ts:20-35 | upper-casing twice is upper-casing once, so upper-case letters are absolute |
| SvgParser.UpperChar | utils/svgParser.ts:20 | `toUpperCase` on one ASCII character |
| SvgParser.IsAbsolute | utils/svgParser.ts:20 | the command equals its upper-case form |
| SvgParser.Target | utils/svgParser.ts:20-33 | the `x`, `y` before the switch; `SvgParser.RelativeIsOffset` states the relative case |
| SvgParser.Exec | utils/svgParser.ts:35-75 | one command of the `switch`; `SvgParser.MoveStartsSubpath`, `SvgParser.CurvesAreLines`, `SvgParser.AxisLinesAreLines`, `SvgParser.CloseReturnsToStart` and `SvgParser.OtherLettersIgnored` state each case |
| SvgParser.Run | utils/svgParser.ts:18-75 | the `forEach` over the commands; `SvgParser.RunLength` states it only appends |
| SvgParser.Start | utils/svgParser.ts:9-13 | no points, the current point and the subpath start at (0, 0) |
| SvgParser.PathPoints | utils/svgParser.ts:8-82 | what `parsePathData` returns, `[]` when the library rejects `d`; `SvgParser.PathPointsLength` bounds it |
| SvgParser.ParsePathData | utils/svgParser.ts:8-82 | the `forEach` over the commands, updating the current point and subpath start, computes the interpreted points; a rejected `d` gives `[]` |
| SvgParser.ExecAppendsAtMostOne | utils/svgParser.ts:35-75 | each command emits at most one point and keeps the earlier ones |
| SvgParser.RunLength | utils/svgParser.ts:35-75 | running commands only appends, at most one point per command |
| SvgParser.PathPointsLength | utils/svgParser.ts:8-82 | the output has no more points than the input has commands |
| SvgParser.RelativeIsOffset | utils/svgParser.ts:20-33 | a lower-case command acts as its upper-case form with the coordinates offset by the current point |
| SvgParser.MoveStartsSubpath | utils/svgParser.ts:36-43 | `M` emits its point and sets both the current point and the subpath start to it |
| SvgParser.CurvesAreLines | utils/svgParser.ts:44-56 | `C` and `Q` act exactly as `L` to their end point; control points are ignored |
| SvgParser.AxisLinesAreLines | utils/svgParser.ts:65-74 | `H` emits (x, currentY) and `V` emits (currentX, y), each updating only its own axis |
| SvgParser.CloseReturnsToStart | utils/svgParser.ts:57-64 | `Z` emits the subpath start and moves there, but only when a point was already emitted |
| SvgParser.OtherLettersIgnored | utils/svgParser.ts:35-75 | any other letter leaves the state unchanged |
| SvgParser.ClosedSubpath | utils/svgParser.ts:36-64 | `M`, then `L`s, then `Z` emits the start, the line points and the start again, and ends at the start |
| SvgParser.LinesTo | utils/svgParser.ts:44-49 | one `L` per point, to that point |
| SvgParser.RunLines | utils/svgParser.ts:44-49 | a run of `L`s appends exactly their points and ends at the last one |
| SvgParser.ExecLine | utils/svgParser.ts:44-49 | an absolute `L` appends its point and moves there |
| SvgParser.AppendPointPairs | utils/svgParser.ts:130-137 | the `i += 2` loop appends exactly the pairs of numeric tokens |
| SvgParser.PairPoints | utils/svgParser.ts:130-137 | the points of a `points` attribute; `SvgParser.PairPointsCount` and `SvgParser.TrailingTokenIgnored` state them |
| SvgParser.PairPointsCount | utils/svgParser.ts:130-137 | at most one point per two tokens; with all tokens numeric, the k-th point is tokens 2k and 2k+1 |
| SvgParser.TrailingTokenIgnored | utils/svgParser.ts:131 | a trailing odd token is ignored |
| SvgGenerator.GenerateSVGFromPoints | utils/svgGenerator.ts:7-35 | the text is the rendered document, with width and height defaulting to 800 and 600 |
| SvgGenerator.ShouldClose | utils/svgGenerator.ts:19-25 | more than two points and the ends closer than 5, compared on squares |
| SvgGenerator.DefaultWidth | utils/svgGenerator.ts:7 | the default width 800 |
| SvgGenerator.DefaultHeight | utils/svgGenerator.ts:7 | the default height 600 |
| SvgGenerator.CloseDistanceSq | utils/svgGenerator.ts:24-25 | `dist < 5` compared on squares, 25 |
| SvgGenerator.MoveTo | utils/svgGenerator.ts:13 | the `M` command to the first point |
| SvgGenerator.ClosePath | utils/svgGenerator.ts:19-28 | the ` Z` command; `SvgGenerator.PathShape` states that it is appended last iff there are more than two points and the ends are closer than 5 |
| SvgGenerator.PathFor | utils/svgGenerator.ts:13-28 | the path commands; `SvgGenerator.PathShape` and `SvgGenerator.RoundTrip` state them |
| SvgGenerator.Document | utils/svgGenerator.ts:7-35 | the document: its size, and a path exactly when there are points |
| SvgGenerator.RenderCommand | utils/svgGenerator.ts:13-15 | one command as text; `SvgGenerator.RenderPoint` states its form |
| SvgGenerator.RenderPath | utils/svgGenerator.ts:13-28 | the `d` attribute, the commands separated by spaces; `SvgGenerator.RenderAppend` states how it grows |
| SvgGenerator.SvgOpen | utils/svgGenerator.ts:30 | the opening `<svg>` tag with the width and height |
| SvgGenerator.RenderSvg | utils/svgGenerator.ts:7-35 | the document as text, with or without the `path` element; `SvgGenerator.EmptyInputNoPath` states the empty case |
| SvgGenerator.BuildPathData | utils/svgGenerator.ts:13-28 | `pathData` is the rendering of the path commands, `Z` included exactly when the path closes |
| SvgGenerator.BuildLines | utils/svgGenerator.ts:13-16 | the `+=` loop renders the `M` and the `L` commands |
| SvgGenerator.AppendLine | utils/svgGenerator.ts:15 | each iteration appends ` L x y` |
| SvgGenerator.JoinPoint | utils/svgGenerator.ts:15 | the text of one more `L` command, as the template literal writes it |
| SvgGenerator.LinesStep | utils/svgGenerator.ts:14-16 | one more point adds one `L` to it |
| SvgGenerator.RenderAppend | utils/svgGenerator.ts:13-28 | appending a command appends a space and its text |
| SvgGenerator.RenderPoint | utils/svgGenerator.ts:13-15 | a command with a point renders as letter, x and y separated by spaces |
| SvgGenerator.EmptyInputNoPath | utils/svgGenerator.ts:8-10 | no points: only the `<svg>` element with the given size and no path |
| SvgGenerator.PathShape | utils/svgGenerator.ts:13-28 | one `M` at the first point, exactly n−1 `L` in order, and `Z` last exactly when n > 2 and the ends are closer than 5 |
| SvgGenerator.RoundTrip | utils/svgGenerator.ts:13-28 | interpreting the generated commands returns the input points, plus the first point again when `Z` was emitted |
| SvgGenerator.PointsSurvive | utils/svgGenerator.ts:13-28 | the interpreted points begin with all the input points, in order |
| SvgGenerator.ClosedPathEndsAtStart | utils/svgGenerator.ts:19-28 | a closed path interprets to n+1 points ending where it starts |
| DrawingCanvas.Ids | components/DrawingCanvas.tsx:5-16 | the stones' ids, one for one |
| DrawingCanvas.CanvasSize | components/DrawingCanvas.tsx:325-348 | for positive metre sizes the canvas is at least 400 × 300 with width/height = sizeX/sizeY, and one side is 800, 600, 400 or 300 |
| DrawingCanvas.MaxDisplaySize | components/DrawingCanvas.tsx:325 | the 1200 px display bound |
| DrawingCanvas.MinCanvasWidth | components/DrawingCanvas.tsx:341-342 | the 400 px minimum width `DrawingCanvas.CanvasSize` guarantees |
| DrawingCanvas.MinCanvasHeight | components/DrawingCanvas.tsx:345-346 | the 300 px minimum height `DrawingCanvas.CanvasSize` guarantees |
| DrawingCanvas.HeightFromWidth | components/DrawingCanvas.tsx:330-333 | height from width by the ratio keeps the ratio; portrait gives height > width; a landscape ratio ≤ 8/3 gives height ≥ 300 |
| DrawingCanvas.QuotientPositive | components/DrawingCanvas.tsx:330-333 | proof helper: dividing a positive width by a positive ratio gives a positive height |
| DrawingCanvas.QuotientLarger | components/DrawingCanvas.tsx:330-333 | a ratio below 1 gives a height above the width |
| DrawingCanvas.QuotientAtLeast | components/DrawingCanvas.tsx:330-333 | width 800 and a ratio of at most 8/3 give a height of at least 300 |
| DrawingCanvas.WidthFromHeight | components/DrawingCanvas.tsx:334-337 | width from height by the ratio keeps the ratio; a landscape ratio gives width ≥ height |
| DrawingCanvas.DivMul | components/DrawingCanvas.tsx:185-186 | proof helper: dividing then multiplying by the canvas size recovers the value |
| DrawingCanvas.EqualScaleFactors | components/DrawingCanvas.tsx:325-348 | the pixels-to-metres factors on X and Y are equal |
| DrawingCanvas.Rem360 | components/DrawingCanvas.tsx:154 | JavaScript `% 360`: strictly between −360 and 360, with the sign of the dividend, and the identity inside that range |
| DrawingCanvas.NormalizeRotation | components/DrawingCanvas.tsx:154-161 | the new rotation is in [−180, 180] and a whole number of turns from rotation + angle |
| DrawingCanvas.Trunc | components/DrawingCanvas.tsx:154 | truncation toward zero, the quotient JavaScript's `%` is defined by; `DrawingCanvas.Rem360` states the remainder |
| DrawingCanvas.WholeTurnsOf | components/DrawingCanvas.tsx:154 | `%` removes whole turns only |
| DrawingCanvas.WholeTurnsShift | components/DrawingCanvas.tsx:156-161 | adding or removing a turn keeps the whole-turn difference |
| DrawingCanvas.NormalizeIdempotent | components/DrawingCanvas.tsx:154-161 | normalising a normalised rotation by 0 changes nothing |
| DrawingCanvas.FirstIndex | components/DrawingCanvas.tsx:151 | the first position with the id, or the length when it is absent |
| DrawingCanvas.FindById | components/DrawingCanvas.tsx:151-152 | `find` returns nothing iff the id is absent, otherwise the first stone with it |
| DrawingCanvas.UpdateWhere | components/DrawingCanvas.tsx:163-167 | the `map` updates exactly the stones with the id |
| DrawingCanvas.HandleRotate | components/DrawingCanvas.tsx:148-167 | `handleRotate`; `DrawingCanvas.RotateChangesOnlySelected` and `DrawingCanvas.RotateWithoutSelection` state what it changes |
| DrawingCanvas.RotateChangesOnlySelected | components/DrawingCanvas.tsx:148-167 | only the selected stone changes, and only its rotation, to a normalised value; ids and length are kept |
| DrawingCanvas.RotateWithoutSelection | components/DrawingCanvas.tsx:149-152 | no selection or an unknown id leaves the stones unchanged |
| DrawingCanvas.GenerateStonePrograms | components/DrawingCanvas.tsx:178-199 | one program per stone in list order, numbered from 1, scaled by canvas size over canvas pixels; none for no stones |
| DrawingCanvas.IsRotated | components/DrawingCanvas.tsx:232 | the rotation test `Math.abs(rotation) > 0.1` |
| DrawingCanvas.CornerPath | components/DrawingCanvas.tsx:244-277 | the cut's corners; `DrawingCanvas.CornerPathCounterClockwise` states their order |
| DrawingCanvas.StoneProgram | components/DrawingCanvas.tsx:202-287 | one stone's program; `DrawingCanvas.StoneProgramFrame` and `DrawingCanvas.StoneProgramCut` state its commands |
| DrawingCanvas.StoneProgramFrame | components/DrawingCanvas.tsx:202-287 | header, `G21`, `G90`, `G28`, `G0` to the position in mm; ends `G28`, `M30`; `G68` iff \|rotation\| > 0.1 and `G69` iff `G68` |
| DrawingCanvas.StoneProgramCut | components/DrawingCanvas.tsx:244-278 | `G0` to (x−w/2, y−h/2), `G1 Z-5`, four `G1` to the corners, back to the start, `G0 Z5` |
| DrawingCanvas.CornerPathCounterClockwise | components/DrawingCanvas.tsx:244-277 | the corners run counter-clockwise (signed area 2·w·h) and return to the start corner |
| DrawingCanvas.ProgramKeepsProportions | components/DrawingCanvas.tsx:185-199 | the cut rectangle in mm has the stone's on-screen proportions |
| DrawingCanvas.OnDragEnd | components/DrawingCanvas.tsx:725-764 | `onDragEnd`; `DrawingCanvas.DragMoves` and `DrawingCanvas.DragCopies` state the move and the copy |
| DrawingCanvas.OnTransformEnd | components/DrawingCanvas.tsx:806-821 | `onTransformEnd`; `DrawingCanvas.TransformChangesOnlyStone` states what it changes |
| DrawingCanvas.DragMoves | components/DrawingCanvas.tsx:758-764 | a plain drag moves only the dragged stone; length, ids and selection are kept |
| DrawingCanvas.DragCopies | components/DrawingCanvas.tsx:725-757 | Ctrl+Alt drag appends one copy at the new position, leaves the original in place and selects the copy |
| DrawingCanvas.TransformChangesOnlyStone | components/DrawingCanvas.tsx:806-821 | a transform updates only that stone's position and rotation |
| HomePage.WithoutId | app/page.tsx:114-126 | the filter keeps exactly the entries whose id differs |
| HomePage.HandleDelete | app/page.tsx:114-126 | `handleDeleteStone` and `handleDeleteIgnoreArea`; `HomePage.DeleteRemovesExactlyId` states the result |
| HomePage.DeleteRemovesExactlyId | app/page.tsx:114-126 | deleting removes exactly the entries with the id, keeps the others in order, and clears the selection iff it was that id |
| HomePage.KeptInOrder | app/page.tsx:114-126 | the kept entries are a subsequence of the input |
| HomePage.NothingToDelete | app/page.tsx:114-126 | deleting an absent id changes nothing |
| HomePage.WithoutIdLast | app/page.tsx:114-126 | the filter handles the last entry on its own |
| HomePage.HandleAddIgnoreArea | app/page.tsx:128-171 | the area is appended with the new id, sized from metres to canvas pixels; an area's (x, y) is its top-left corner, so it is centred on the canvas |
| HomePage.CentredOnCanvas | app/page.tsx:130-167 | the canvas size, the rectangle's size in canvas pixels from metres, and (x, y) as the top-left corner that centres it |
| HomePage.MetresToPixels | app/page.tsx:153-158 | converting metres to pixels and back recovers the length |
| HomePage.SlabImages | app/page.tsx:174-196 | every slab has positive example dimensions |
| HomePage.FindSlab | app/page.tsx:219-221 | `find` by url returns a slab with that url, or nothing when none has it |
| HomePage.SelectedSlab | app/page.tsx:207-222 | a slab exactly when the selected url is non-empty and some slab has it; that slab has the url and positive example sizes |
| HomePage.ShapePixels | app/page.tsx:288-295 | the shape's size in metres as display pixels at the slab's scale; `HomePage.ResizeStep` states the round trip through metres |
| HomePage.HalfExtents | app/page.tsx:297-383 | half the selection's size per shape; `HomePage.CircleSelectionIsSquare` states it |
| HomePage.ShapeHalfExtents | app/page.tsx:288-383 | the half-extents for the slab, the shape and its size in metres |
| HomePage.Clamp | app/page.tsx:386 | `Math.max(0, Math.min(v, limit))` |
| HomePage.ClampedBox | app/page.tsx:385-389 | the box around the centre with each bound clamped; `HomePage.ClampedBoxInImage` and `HomePage.FittingBoxUnclamped` state it |
| HomePage.CircleSelectionIsSquare | app/page.tsx:301-309 | a circle's selection is a square of half-side max(w, h)/2; other shapes keep their width and height |
| HomePage.ClampedBoxInImage | app/page.tsx:386-389 | after the clamp every bound lies in [0, W] × [0, H] |
| HomePage.FittingBoxUnclamped | app/page.tsx:386-389 | a selection already inside the image is unchanged by the clamp |
| HomePage.ClampCentre | app/page.tsx:342-351 | the centre is clamped to [half, W − half] when the selection fits, and kept when already there |
| HomePage.FromShape | app/page.tsx:296-389 | the selection and the reported position; `HomePage.FromShapeProperties` states them |
| HomePage.UpdateCropSelectionDirectly | app/page.tsx:206-263 | a selection exactly when a slab with the selected url is known; it is then exactly the box of the shape's half-extents around the given centre, each bound clamped into the image |
| HomePage.FromShapeProperties | app/page.tsx:296-389 | bounds in the image; the shape position is reported only when the centre moved; a fitting selection keeps its size with its centre in [half, W − half] |
| HomePage.UpdateCropSelectionFromShape | app/page.tsx:266-392 | nothing without a known slab; otherwise the update for the shape's half-extents |
| HomePage.FinalCentre | app/page.tsx:339-384 | the clamped centre and the shape position reported, as the update states |
| HomePage.CropSelectionAround | app/page.tsx:296-389 | the shape's box around the centre, clamped, with every bound in the image |
| HomePage.ResizeSelection | app/page.tsx:1431-1478 | the new size and the centre before the clamp are exactly those of `HomePage.Resized` for the handle's letters; the centre is then clamped to [half, W − half]; a handled side never goes below 20 px and the others keep their size |
| HomePage.Resized | app/page.tsx:1431-1466 | the size and centre after the handle's letters, before the clamp; `HomePage.ResizedEdges` states where the edges go |
| HomePage.MinSelectionSize | app/page.tsx:1441 | the 20 px floor of a resized selection; `HomePage.ResizeSelection` never makes a dragged side smaller |
| HomePage.ResizedEdges | app/page.tsx:1437-1466 | the size is twice the cursor's distance from the old centre (at least 20); `e`/`s` keep the centre, so the dragged edge lands on the cursor; `w`/`n` keep the opposite edge, so the dragged edge moves twice as far as the cursor |
| HomePage.WestEdgeMissesCursor | app/page.tsx:1443-1447 | a 40 px selection centred at x = 100, dragged by `w` to x = 70, gets its west edge at 60, not at the cursor |
| HomePage.ResizedSymmetric | app/page.tsx:1437-1442 | the `e` rule applied to every side: the size changes around the unchanged centre |
| HomePage.DraggedEdgeFollowsCursor | app/page.tsx:1437-1466 | in the symmetric resize the dragged edge lands on the cursor for all four letters unless the 20 px floor holds it back; it agrees with the code without `w` and `n` |
| HomePage.ResizeStep | app/page.tsx:1427-1500 | a size update exactly when a slab with the selected url is known; the size in metres, shown at the slab's scale, is exactly the resized size in pixels, and the position is the clamped centre |
| HomePage.CheckSelectionOverlap | app/page.tsx:460-493 | true iff some existing selection overlaps the new one; false for an empty list |
| HomePage.Overlaps | app/page.tsx:474-491 | the rectangle test for one existing selection; `HomePage.OverlapIffCommonInterior` states its meaning |
| HomePage.Left | app/page.tsx:474 | a selection's left edge, `Math.min` of its x coordinates; `HomePage.OverlapIffCommonInterior` uses it |
| HomePage.Right | app/page.tsx:475 | a selection's right edge, `Math.max` of its x coordinates |
| HomePage.Top | app/page.tsx:476 | a selection's top edge, `Math.min` of its y coordinates |
| HomePage.Bottom | app/page.tsx:477 | a selection's bottom edge, `Math.max` of its y coordinates |
| HomePage.OverlapIffCommonInterior | app/page.tsx:474-492 | two selections of positive area overlap iff some point lies strictly inside both |
| HomePage.OverlapSymmetricAndCornerFree | app/page.tsx:474-492 | the test is symmetric, and unaffected by which corner is start or end |
| HomePage.TouchingDoesNotOverlap | app/page.tsx:487-492 | rectangles sharing only an edge do not overlap |
| HomePage.SelectionsForSlab | app/page.tsx:453-457 | exactly the crop selections of stones cut from that slab |
| HomePage.SlabOverlapMeaning | app/page.tsx:453-493 | the check is true iff a stone from the slab has a selection overlapping the new one |
| HomePage.MulMonotone | app/page.tsx:576-579 | proof helper: multiplying by a non-negative scale keeps order |
| HomePage.NaturalCropNormalised | app/page.tsx:575-580 | the stored crop has start ≤ end on both axes, and its edges are the selection's edges times the scale |
| HomePage.NaturalCropSelection | app/page.tsx:575-580 | the stored crop is the normalised selection scaled to natural pixels |
| HomePage.NaturalCrop | app/page.tsx:575-580 | the selection normalised and scaled to natural pixels; `HomePage.NaturalCropNormalised` states its bounds |
| HomePage.NaturalCropKeepsOverlap | app/page.tsx:575-580 | scaling two selections to natural pixels by positive factors keeps whether they overlap |
| HomePage.NaturalCropApartX | app/page.tsx:575-580 | two scaled selections are apart horizontally exactly when the selections are |
| HomePage.NaturalCropApartY | app/page.tsx:575-580 | two scaled selections are apart vertically exactly when the selections are |
| HomePage.HandleAddCropToCanvas | app/page.tsx:495-608 | without a slab or selection nothing changes; otherwise one stone is appended with the new id, the slab's name, rotation 0, a normalised natural crop, sized from metres, at x = W/2 − w/2, y = H/2 − h/2; a stone is drawn around its (x, y), so its centre lies half its size left of and above the canvas centre |
| HomePage.AddedStoneOffCentre | app/page.tsx:593-594 | a stone placed that way has its cut corners (`DrawingCanvas.CornerPath`) from the canvas centre less its size to the canvas centre, its centre is not the canvas centre, and one wider or taller than half the canvas sticks out past the left or top edge |
| HomePage.CentredStonePosition | app/page.tsx:593-594 | the placement the "Center position" comment describes, the canvas centre; `HomePage.CentredStoneFootprint` states its properties |
| HomePage.CentredStoneFootprint | app/page.tsx:593-594 | a stone at the canvas centre keeps its size, its corners have the canvas centre as midpoint, and a stone no larger than the canvas lies on it |
| Points.SubsequenceRefl | utils/gcodeGenerator.ts:8-58 | every list is a subsequence of itself |
| Points.SubsequenceExtend | utils/gcodeGenerator.ts:8-58 | a subsequence stays one when both lists gain the same last element, or only the longer one does |
| Points.MulPositive | components/DrawingCanvas.tsx:325-348 | proof helper: a product of positives is positive |
| Points.MulNonNegative | utils/gcodeGenerator.ts:107-116 | proof helper: a product of non-negatives is non-negative |

## Left out

- Image decoding, the canvas and `getImageData` are not modelled. The model starts from a decoded RGBA buffer, and an `onerror` decode failure is `None`.
- `DOMParser`, its `parsererror` check, and the selection of `path`, `polygon` and `polyline` elements are not modelled. The model starts from the library's command list and from the parsed `points` tokens.
- The svg-path-parser library is not part of this model. Its command list is a parameter, and a thrown error is `None`. The commands are keyed on the letter the code switches on.
- Splitting `points` on `/[\s,]+/` and `parseFloat` are not modelled. Tokens arrive as `Option<real>`, with `None` standing for `NaN`.
- The sampling of circles and ellipses in `extractPointsFromSVG` is left out because it needs trigonometry. So is the fall-back order between paths and other elements.
- `arePointsClose` in `utils/lineExtractor.ts` is not modelled, because its only use is commented out.
- The promises and `async` are left out: `Promise.all` keeps order, and that is all the model uses.
- `console` logging is left out.
- Number-to-text (`toFixed`, template literals) is a function parameter and is not interpreted.
- Date-based file names, Blob download, `localStorage` and `window.open` are left out. So are React state setters, dialogs, alerts, Konva rendering and keyboard handlers.
- The rotated-corner bounds during drag and transform are left out because they need trigonometry. So are the ruler ticks, which use floating-point `%`.
- The comment text of the stone program is kept only in the `Rapid` and `Cut` commands. The header carries its values, and its rendering to text is not modelled.
- The `!ctx`, ref and image-loaded guards of the crop handlers are left out. Browser layout values (`getBoundingClientRect`, `naturalWidth`) are parameters.
- `utils/vectorize.ts`, the Three.js scenes and the declaration files are not part of this model.
- Floating-point rounding is not modelled: arithmetic is exact `real` arithmetic.
- DrawingCanvas.CanvasSize: requires positive metre sizes. For zero or negative sizes JavaScript would compute `Infinity` or `NaN`, which the model does not represent.
- HomePage.HandleAddIgnoreArea: requires positive metre sizes, for the same reason as CanvasSize.
- HomePage.CentredOnCanvas: requires positive metre sizes, for the same reason as CanvasSize.
- HomePage.HandleAddCropToCanvas: requires a positive displayed image size and positive metre sizes, which the code divides by.
- HomePage.UpdateCropSelectionDirectly: requires a positive displayed image size, which the code divides by.
- HomePage.UpdateCropSelectionFromShape: requires a positive displayed image size, which the code divides by.
- DrawingCanvas.GenerateStonePrograms: requires a positive canvas size, which the code divides by.
- DrawingCanvas.RotateChangesOnlySelected: assumes unique stone ids. With repeated ids, `map` updates every stone with the id, while the new rotation comes from the first of them.
- DrawingCanvas.DragCopies: requires that the dragged stone is in the list and that the ids are unique.
- HomePage.OverlapIffCommonInterior: stated only for selections of positive area. A degenerate selection never overlaps under the code's test, and has no interior.
- SvgParser.ToUpper: upper-cases ASCII letters only. The command letters are ASCII.
- HomePage.UpdateCropSelectionFromShape: the parameter `updatePosition` has no default. The code's default `true` (app/page.tsx:269) is a call that passes `true`.
- HomePage.ResizeStep: the call to `updateCropSelectionDirectly` at the end of the step (app/page.tsx:1500) is not composed in. It runs before React applies the new size, so it sees the shape size of the current render, and that is React scheduling. The cursor position relative to the image (app/page.tsx:1428-1429) is a parameter.
- GCodeGenerator.GCodeExample: takes as a hypothesis that the input reduces to the three corners. That (0,0), (10,0), (10,10) survive the reduction is not proved. It needs the squared distance on concrete reals, where the solver's nonlinear arithmetic does not finish reliably.

## Findings

| source | as written | input that shows it | evidently intended | confidence | as-written member | corrected member |
|---|---|---|---|---|---|---|
| app/page.tsx:1443-1466 | the `w` handle grows the width by twice the cursor's overshoot and also moves the centre by it, so the east edge stays and the west edge moves twice as far as the cursor; `n` does the same vertically | a 40 px selection centred at x = 100, dragged by its `w` handle to x = 70, gets its west edge at 60 | the dragged edge follows the cursor, as it does for `e` and `s` | medium, not executed | HomePage.WestEdgeMissesCursor | HomePage.DraggedEdgeFollowsCursor |
| app/page.tsx:593-594 | a new stone's x and y are set to W/2 − w/2 and H/2 − h/2, the top-left corner of a centred box, but a stone is drawn and cut around its (x, y) (components/DrawingCanvas.tsx:244-277) | on an 800 × 600 canvas a 100 × 50 stone gets its centre at (350, 275), not (400, 300) | the stone's centre at the canvas centre, as the "Center position" comment says | medium, not executed | HomePage.AddedStoneOffCentre | HomePage.CentredStoneFootprint |

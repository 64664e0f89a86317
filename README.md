# Termite core in Dafny

Termite draws wireframe 3D models in a terminal. This project models its
core three files:

- **model.rs**: a model is a list of points and a list of edges placed at a
  world position. `new_obj` reads a Wavefront OBJ text into a model.
  `new_cube` builds a cube from twelve edges. `model_to_world` places a model
  point in the world. `world_bounds` computes the axis-aligned box of a
  model.
- **screen.rs**: a screen is a grid of on/off cells that can be written,
  cleared, resized and drawn on with Bresenham's line algorithm. `render`
  packs blocks of cells into one character each. A block is either 2x2
  cells (a quadrant character) or 4x2 cells (a Braille character).
- **three.rs**: a camera with a position, yaw, pitch and roll, a viewport
  distance and a field of view. It maps world points into camera space and
  projects them onto its screen. It plots model points and model edges, and
  clips edges at the viewport plane.

Modules, in dependency order:

- `Wrappers`: the optional value.
- `Geometry`: points over the reals.
- `Strings`: the text steps of `new_obj`. These are line continuations,
  splitting on a character, whitespace tokens and `usize` parsing.
- `Sorting`: `sort` followed by `dedup` on index pairs.
- `Models`: the model, world placement, bounds and the cube.
- `ObjLoader`: `new_obj`.
- `ObjScenarios`: whole-file loads worked end to end.
- `Glyphs`: the two pixel densities and their characters.
- `Raster`: the walk of `Screen::line`.
- `Screens`: the screen class and rendering.
- `Three`: the camera.

The model follows the code where the code and its documentation differ:

- `dedup` after `sort` removes repeated *ordered* pairs only. An edge and its
  reverse both survive (`ObjLoader.BothDirectionsSurvive`), and a two-vertex
  face gives both directions (`ObjLoader.TwoSidedFace`).
- `Screen::write` treats column 0 and row 0 as out of bounds. Its test is
  `0 < x < width`, so the first row and column are never lit.
- `Screen::line` writes its start pixel twice: once before the loop and
  again in the first iteration. It never writes the end pixel unless start
  and end coincide.
- A `l` reference may have at most two `/`-separated fields. A `f`/`fo`
  reference may have at most three. Fields after the first are not read.
- A vertex line takes three or four coordinates. A fourth one is read but
  ignored.
- `resize` grows a screen that gains both rows and columns in two steps. New
  rows are made at the new width, then every row is widened by the
  difference. So new rows end up longer than the width, with all extra cells
  off. The model keeps those lengths.
- The packer of `render` reads column `x + j` for block `x`. See Findings.
- Two lines of `new_obj` do not type-check as written:
  - `checked_sub(1)?` applies `?` to an `Option` inside a function that
    returns a `Result` (model.rs:148, 173). The model reads this as the
    evident intent: index 0 is rejected with a parse error.
  - The closing edge of a face pushes a pair of references (model.rs:212).
    The model pushes the pair (last index, first index).
- Indexing `vertices` with an out-of-range reference panics
  (model.rs:221-224). The model returns `Err(IndexOutOfRange)`. See
  Findings.

## Model

| member | source | states |
|---|---|---|
| Models.ModelToWorld | model.rs:235-241 | the world point minus the model position is the model point, so the placement is a translation that can be undone |
| Models.PlacedPoints | model.rs:255-256 | the i-th point visited by the first loop is the i-th model point placed in world space |
| Models.PlacedEnds | model.rs:280-282 | the second loop visits the start then the end of each edge, placed in world space, two points per edge |
| Models.Include | model.rs:258-276 | the six comparisons give a box that holds the new point, only grows, and moves each face either nowhere or onto the new point |
| Models.IncludeKeepsTight | model.rs:258-276 | widening a tight bound of the points seen so far by one more point gives a tight bound of them all |
| Models.DropSeed | model.rs:250-251 | starting the box at a point that the loops visit anyway does not change the result: a tight box of the seed and the rest is a tight box of the rest |
| Models.SweepPoints | model.rs:255-277 | the loop over the points keeps the box tight around everything seen and ends tight around the seed and every placed point |
| Models.SweepEnds | model.rs:279-322 | the loop over the edges does the same for the start and the end of every edge |
| Models.Sweep | model.rs:250-325 | both loops from a seed box at a visited point give a box that holds every visited point and touches one on each of its six faces |
| Models.WorldBounds | model.rs:244-325 | as written: the origin box for an empty model, and the tight box of every point and edge end when the model has a point |
| Models.SeededBounds | model.rs:244-325 | corrected: the origin box exactly when the model is empty, and otherwise the tight box of every visited point, for edge-only models too |
| Models.NewCube | model.rs:57-98 | the cube has no points, twelve edges and the given position |
| Models.CubeEdgesAxial | model.rs:60-97 | every cube edge runs along one axis with length equal to the side |
| Models.CubeCorners | model.rs:60-97 | every cube corner is half a side from the model origin along each axis |
| Models.CubeHasNoBounds | model.rs:57-98 | the cube has edges but no points, so `world_bounds` would index an empty point list |
| Strings.JoinContinuations | model.rs:106 | the text never grows, and its first character is a space where a backslash-newline pair started it and is kept otherwise |
| Strings.ContinuationsJoined | model.rs:106 | the result has no backslash-newline pair left |
| Strings.PairBecomesSpace | model.rs:106 | a backslash-newline pair anywhere in the text becomes exactly one space, and the text on each side is processed on its own |
| Strings.NoContinuationUnchanged | model.rs:106 | text without a backslash-newline pair is left as it is |
| Strings.Split | model.rs:114 | splitting gives at least one piece, even for empty text |
| Strings.JoinSplit | model.rs:114 | joining the pieces with the separator gives back the text |
| Strings.SplitPiecesFree | model.rs:114 | no piece contains the separator |
| Strings.SplitFree | model.rs:114 | text without the separator is one piece |
| Strings.SplitAfterPiece | model.rs:114 | splitting a piece, the separator and more text gives that piece followed by the pieces of the rest |
| Strings.SplitJoin | model.rs:114 | splitting separator-free pieces joined by the separator gives back the pieces |
| Strings.Tokens | model.rs:116 | every token is non-empty and free of whitespace, and a line that starts with a non-space character starts its first token |
| Strings.TokensSpellVisible | model.rs:116 | concatenating the tokens gives the line with all whitespace removed |
| Strings.TokensAfterWord | model.rs:116 | a word, a space and more text tokenise as that word followed by the tokens of the rest |
| Strings.TokensOfWord | model.rs:116 | a single word is its own single token |
| Strings.TokensOfSpacedWords | model.rs:116 | words joined by spaces tokenise back to the words |
| Strings.ParseUsize | model.rs:147 | a successful parse reads text starting with a digit or `+`, and gives a value that fits in a `usize` |
| Strings.Decimal | model.rs:147 | the decimal spelling of a number is a non-empty run of digits |
| Strings.DecimalValue | model.rs:147 | the digits of the decimal spelling read back as the number |
| Strings.ParseDecimal | model.rs:147 | parsing the decimal spelling of n, with or without a leading `+`, gives n |
| Sorting.InsertSpec | model.rs:217 | inserting into a sorted list keeps it sorted and adds exactly the element |
| Sorting.Sort | model.rs:217 | the result is sorted lexicographically and is a permutation of the input |
| Sorting.SortedUnique | model.rs:217 | two sorted permutations of the same list are equal, so the sort's result is the only possible one |
| Sorting.Dedup | model.rs:218 | dropping repeats of the previous element keeps the first element and the set of elements, and leaves no two equal neighbours |
| Sorting.DedupSorted | model.rs:217-218 | after sorting, dedup gives a strictly increasing list |
| Sorting.IncreasingUnique | model.rs:217-218 | two strictly increasing lists with the same elements are equal |
| Sorting.NormaliseSpec | model.rs:217-218 | sort then dedup gives a strictly increasing list with the same set of pairs |
| Sorting.NormaliseBySet | model.rs:217-218 | two edge lists with the same set of pairs normalise to the same list |
| Sorting.Normalise | model.rs:217-218 | no contract of its own: `sort` then `dedup`; its result is stated by `NormaliseSpec` and `NormaliseBySet` |
| ObjLoader.VertexRef | model.rs:142-155 | a malformed reference is a parse error |
| ObjLoader.References | model.rs:140-156 | all references parse exactly when each does; the result lists each one's index in order; any failure is a parse error |
| ObjLoader.ParseReferences | model.rs:140-156 | the loop over the reference tokens computes `References` |
| ObjLoader.VertexRefFields | model.rs:145-150 | a reference is accepted with up to two `/`-fields on `l` and up to three on `f`, and is refused with more |
| ObjLoader.OneBasedIndex | model.rs:147-148 | reference n+1 names vertex n on both `l` and `f` lines |
| ObjLoader.IndexZeroRejected | model.rs:148 | reference 0, with or without further fields, is rejected |
| ObjLoader.ParseLine | model.rs:116-192 | a line that fails is always a parse error |
| ObjLoader.Scan | model.rs:114-193 | reading succeeds exactly when every line parses; the first failure is a parse error |
| ObjLoader.LinesAreJoined | model.rs:106-114 | no line holds a newline or a backslash-newline pair |
| ObjLoader.VertexLine | model.rs:121-135 | `v` with words parses exactly when there are three or four of them and the first three are numbers, and then gives the point of those three |
| ObjLoader.SkippedLineAnywhere | model.rs:187-191 | inserting a comment, blank or unsupported line anywhere does not change the result |
| ObjLoader.VertexTotal | model.rs:121-135 | the vertex list has one entry per vertex line |
| ObjLoader.VertexNumbering | model.rs:121-135 | the vertex on a line is at the position given by the number of vertex lines before it |
| ObjLoader.PolylineEdges | model.rs:197-204 | a polyline of fewer than two references gives no edges; otherwise one edge per consecutive pair, in order |
| ObjLoader.PolylineEdgeSource | model.rs:197-204 | a pair is an edge of a polyline exactly when it is a consecutive pair of it |
| ObjLoader.PolylinesSource | model.rs:197-204 | a pair is among all polyline edges exactly when some polyline has it as a consecutive pair |
| ObjLoader.FacesSource | model.rs:205-214 | a pair is among all face edges exactly when some face of two or more references has it as a consecutive pair or as its closing pair |
| ObjLoader.EdgeSources | model.rs:196-214 | an index edge comes from a polyline or from a face, and every such pair is an index edge |
| ObjLoader.PushNeighbours | model.rs:198-203 | the inner loop appends exactly the polyline's consecutive pairs |
| ObjLoader.CollectEdges | model.rs:196-214 | the two loops build exactly the polyline edges followed by the face edges |
| ObjLoader.BothDirectionsSurvive | model.rs:217-218 | an edge and its reverse both survive sort and dedup |
| ObjLoader.TwoSidedFace | model.rs:205-214 | a face of two distinct vertices yields the edge both ways, and both survive |
| ObjLoader.Resolve | model.rs:221-224 | corrected: resolution succeeds exactly when every pair is in range, else IndexOutOfRange; on success each pair becomes its two points, in order |
| ObjLoader.ResolveUnchecked | model.rs:221-224 | as written: defined only when every index is in range, and then agrees with `Resolve` |
| ObjLoader.LoadObj | model.rs:101-232 | no contract of its own: `new_obj` over the file contents; its result is stated by `LoadObjSpec` and computed by `NewObj` |
| ObjLoader.LoadObjSpec | model.rs:101-232 | a bad line is a parse error; otherwise the load succeeds exactly when every reference is in range; the points are then the vertex list, and the edges are the points of each pair of a strictly increasing index list holding exactly the referenced pairs, in that order (two index pairs naming equal points still give two edges) |
| ObjLoader.LoadedModelsHaveBounds | model.rs:221-232 | a loaded model with an edge has a point |
| ObjLoader.ReadLine | model.rs:115-192 | one pass of the loop over lines adds the line's statement to the three lists, or returns the line's parse error (`ParseLine`) |
| ObjLoader.NewObj | model.rs:101-232 | the imperative load computes `LoadObj` |
| ObjScenarios.TwoVerticesOneEdge | model.rs:101-232 | two vertex lines and `l 1 2` load to those two points and the one edge between them |
| ObjScenarios.ShortVertexFails | model.rs:121-135 | `v 1 2` is a parse error |
| ObjScenarios.DanglingScan | model.rs:114-193 | `l 1 2` alone reads as one polyline over indices 0 and 1 with no vertices |
| ObjScenarios.DanglingReferenceUnchecked | model.rs:221-224 | as written: the file `l 1 2` reaches resolution with edge indices outside the empty vertex list |
| ObjScenarios.DanglingReferenceRefused | model.rs:221-224 | corrected: loading `l 1 2` is `Err(IndexOutOfRange)` |
| Glyphs.Blank | screen.rs:34 | a new block has the density's shape with every cell off |
| Glyphs.BlockChar | screen.rs:37-57 | no contract of its own: the sixteen-arm match; its glyphs are stated by `BlockCharInks`, `BlockCharInjective` and `BlockCharRange` |
| Glyphs.BlockCharInks | screen.rs:37-57 | the character of a 2x2 block inks exactly the block's lit quadrants |
| Glyphs.BlockCharInjective | screen.rs:37-57 | different 2x2 blocks get different characters |
| Glyphs.BlockCharRange | screen.rs:37-57 | blank is a space, full is the full block, and every other glyph is a quadrant block element |
| Glyphs.BrailleGlyph | screen.rs:67-86 | the character is in the Braille Patterns block and raises exactly the lit cells as dots |
| Glyphs.BrailleGlyphInjective | screen.rs:67-86 | different 4x2 blocks get different characters |
| Glyphs.DotSum | screen.rs:67-86 | the dot mask is the weighted sum of the eight cells with the Braille dot weights |
| Glyphs.BrailleChar | screen.rs:67-86 | or-ing each lit cell's bit and adding the block base gives `BrailleGlyph` |
| Glyphs.ToBitsFromBits | screen.rs:67-86 | reading bits back from a mask gives the original bits |
| Glyphs.ToChar | screen.rs:37-86 | no contract of its own: `to_char` of either density; stated by `ToCharInjective`, `BlockCharInks` and `BrailleGlyph` |
| Glyphs.ToCharInjective | screen.rs:37-86 | for each density, distinct blocks print as distinct characters |
| Raster.BeginOnTrack | screen.rs:182-189 | the starting error term meets the loop invariant |
| Raster.StepsOnlyTowardsEnd | screen.rs:194-207 | on track and not at the end, at least one axis steps, and never one with no steps left |
| Raster.Next | screen.rs:196-206 | no contract of its own: one iteration of the loop, both tests reading the error before the iteration; stated by `NextOnTrack` and `StepsOnlyTowardsEnd` |
| Raster.NextOnTrack | screen.rs:194-207 | one iteration keeps the invariant and shortens the remaining distance |
| Raster.LinePixels | screen.rs:181-208 | the pixels written start with the start point |
| Raster.Trace | screen.rs:194-207 | no contract of its own: the pixels the loop writes; stated by `TraceEmptyIffAtEnd`, `TraceLength` and `TraceShape` |
| Raster.TraceEmptyIffAtEnd | screen.rs:194 | the loop writes nothing exactly when it starts at the end |
| Raster.TraceLength | screen.rs:194-207 | the loop runs once per pixel of the longer axis |
| Raster.TraceShape | screen.rs:194-207 | every loop pixel lies in the segment's box and is not the end; consecutive pixels touch; the last one touches the end |
| Raster.LinePixelsShape | screen.rs:181-208 | one more pixel than the longer axis; the end is written only when start and end coincide; all pixels inside the box; consecutive pixels equal or touching |
| Screens.Row | screen.rs:151 | a row of n cells, all off |
| Screens.Written | screen.rs:141-147 | a write keeps the screen's shape |
| Screens.WriteChangesOneCell | screen.rs:141-147 | a write sets exactly the target cell when `0 < x < width` and `0 < y < height`, and no other cell changes |
| Screens.PlotAll | screen.rs:191-195 | writing a list of points keeps the screen's shape |
| Screens.PlotAllCells | screen.rs:191-195 | after writing a list of points, a cell is on exactly when it was on or is a writable point of the list |
| Screens.PlotAllAppend | screen.rs:191-195 | writing two lists one after the other is writing their concatenation |
| Screens.Cleared | screen.rs:150-152 | a cleared screen has the same size with every cell off |
| Screens.Heightened | screen.rs:157-165 | the height step gives exactly the new number of rows |
| Screens.Widened | screen.rs:168-177 | the width step keeps the number of rows |
| Screens.Resized | screen.rs:155-178 | no contract of its own: the height step then the width step; stated by `ResizeKeepsShared`, `ResizeNewRowLength` and `ShrinkThenGrow` |
| Screens.ResizeKeepsShared | screen.rs:155-178 | after a resize the screen fits its new size; a cell is on exactly when it was inside the old size and on before |
| Screens.ResizeNewRowLength | screen.rs:157-171 | when both dimensions grow, each new row is twice the new width minus the old width long |
| Screens.ShrinkThenGrow | screen.rs:155-178 | shrinking then growing back keeps the cells of the smaller size and clears the rest |
| Screens.Sample | screen.rs:226-233 | as written: block x of a band holds cell (y, x + j) at (y, j) |
| Screens.Pixels | screen.rs:222-233 | one block per character column, `ceil(width / block width)` of them |
| Screens.Printed | screen.rs:236-238 | one character per block, each the block's character |
| Screens.ChunkRest | screen.rs:218 | taking one chunk off whole chunks leaves whole chunks |
| Screens.Text | screen.rs:211-240 | no contract of its own: the glyphs of each chunk of rows, in order; stated by `TextLength`, `TextStep` and `TextReadsLeftColumns` |
| Screens.TextLength | screen.rs:211-240 | the output has one character per block column for each band of rows |
| Screens.TextReadsLeftColumns | screen.rs:226-233 | as written: two screens that agree on the first `ceil(width / 2) + 1` columns render the same |
| Screens.Tile | screen.rs:226-233 | corrected: block x holds cells x·2 + j, off past the width |
| Screens.Tiles | screen.rs:222-233 | corrected: one tile per character column |
| Screens.TilesShowEveryCell | screen.rs:226-233 | corrected: every cell of the band appears in exactly the tile and place of its column, and tile places past the width are off |
| Screens.RenderMissesLastColumn | screen.rs:230 | as written: a 4-wide 2x2-block screen whose lit cell is in the last column renders as two blanks |
| Screens.TilesShowLastColumn | screen.rs:230 | corrected: the same screen's second tile shows the lit cell |
| Screens.Screen.constructor | screen.rs:112-124 | a new screen is 0 by 0 with no rows |
| Screens.Screen.Write | screen.rs:141-147 | the content becomes `Written` of the old content, and the screen stays consistent |
| Screens.Screen.Clear | screen.rs:150-152 | every row is exactly the width long and every cell is off |
| Screens.Screen.Resize | screen.rs:155-178 | the new size is recorded and the content becomes `Resized` of the old |
| Screens.Screen.Line | screen.rs:181-208 | the content becomes the old content with `LinePixels` written in order |
| Screens.Screen.Render | screen.rs:211-240 | the text printed is `Text` of the content |
| Screens.TextStep | screen.rs:221-239 | the text of the screen is the first band's characters followed by the text of the rest |
| Screens.PrintRow | screen.rs:236-238 | the loop prints `Printed` of the row of blocks |
| Screens.Print | screen.rs:37-86 | the character of a block is `ToChar` of its density |
| Screens.Packing | screen.rs:223-233 | the partial packing has one block per column, each of the density's shape |
| Screens.Pack | screen.rs:223-233 | the triple loop fills the blocks with exactly `Pixels` |
| Screens.PackingStart | screen.rs:223 | before the loops every block is blank |
| Screens.PackingStep | screen.rs:230 | one assignment sets one cell of one block |
| Screens.PackingNextColumn | screen.rs:227-229 | finishing the inner loop moves to the next block |
| Screens.PackingNextRow | screen.rs:226-227 | finishing the middle loop moves to the next row |
| Screens.PackingDone | screen.rs:226-233 | after all rows the packing is `Pixels` |
| Three.Round | three.rs:109 | rounding gives an integer within one half of the value |
| Three.RoundProperties | three.rs:109 | rounding is odd, fixes integers and keeps order |
| Three.ToI32 | three.rs:109 | the `as i32` cast saturates to the 32-bit range and keeps values inside it |
| Three.Yaw | three.rs:70-75 | the yaw step keeps y |
| Three.Pitch | three.rs:77-82 | the pitch step keeps x |
| Three.Roll | three.rs:84-89 | the roll step keeps z |
| Three.WorldToCamera | three.rs:60-92 | no contract of its own: subtract the camera, then yaw, pitch and roll in that order; stated by `WorldToCameraIsRigid`, `Yaw`, `Pitch` and `Roll` |
| Three.View.ToCamera | three.rs:60-92 | no contract of its own: `WorldToCamera` with the view's placement and angles; stated by `WorldToCameraIsRigid` |
| Three.StepsAreRotations | three.rs:70-89 | when sine and cosine lie on the unit circle each step keeps length and is undone by the opposite angle |
| Three.WorldToCameraIsRigid | three.rs:60-92 | world to camera keeps distances to the camera, can be undone, and maps the camera position to the origin |
| Three.PerspectiveOfRay | three.rs:97-98 | points on one ray from the eye project to the same viewport point |
| Three.CameraToScreen | three.rs:95-110 | no contract of its own: perspective, viewport scaling, flip of y, rounding and the `i32` cast; stated by `CentreProjectsToMiddle`, `RayProjectsToOnePixel` and `ProjectionKeepsColumnOrder` |
| Three.CentreProjectsToMiddle | three.rs:95-110 | a point on the view axis lands on the middle pixel |
| Three.RayProjectsToOnePixel | three.rs:95-110 | all points of one ray from the eye land on one pixel |
| Three.PerspectiveKeepsOrder | three.rs:97 | at one depth in front of the eye, projection keeps the order of x |
| Three.ColumnKeepsOrder | three.rs:105 | the screen column is monotone in the projected x |
| Three.ProjectionKeepsColumnOrder | three.rs:95-110 | at one depth in front, a point further right never lands in a column further left |
| Three.ClipLiesOnEdge | three.rs:169-182 | the clipped point lies on the segment towards the unclipped end, at a fraction in (0, 1], on the viewport plane |
| Three.ClipToViewport | three.rs:168-182 | no contract of its own: the synthetic point on the viewport plane; stated by `ClipLiesOnEdge` and computed by `Clip` |
| Three.Clip | three.rs:168-182 | the clipping arithmetic computes `ClipToViewport` |
| Three.EdgeSegmentCases | three.rs:138-189 | nothing is drawn exactly when both ends are behind the viewport; with one end behind, the order of the ends does not matter; with none behind, reversing the ends reverses the segment |
| Three.EdgeSegment | three.rs:138-189 | no contract of its own: the segment `edge` draws, or none; stated by `EdgeSegmentCases` and `ClipLiesOnEdge` |
| Three.Shown | three.rs:130-135 | plotting a point keeps the screen's shape |
| Three.Edged | three.rs:138-189 | drawing an edge keeps the screen's shape |
| Three.PointsShown | three.rs:113-117 | plotting a model's points keeps the screen's shape |
| Three.PointsShownLights | three.rs:113-117 | plotting a model's points writes exactly the projected pixels of the points in front of the viewport |
| Three.EdgesShown | three.rs:120-127 | plotting a model's edges keeps the screen's shape |
| Three.EdgesShownLights | three.rs:120-127 | plotting a model's edges writes exactly the line pixels of each clipped edge, in order |
| Three.Camera.constructor | three.rs:40-57 | the camera keeps the given placement and optics over a new empty screen |
| Three.Camera.ToCamera | three.rs:60-92 | the method computes the camera-space point of the current view |
| Three.Camera.Write | three.rs:130-135 | the screen becomes `Shown`: the point is written only when it is at or beyond the viewport |
| Three.Camera.Edge | three.rs:138-189 | the screen becomes `Edged`: the edge is dropped, drawn, or clipped then drawn |
| Three.Camera.PlotModelPoints | three.rs:113-117 | the screen becomes `PointsShown` of every model point |
| Three.Camera.PlotModelEdges | three.rs:120-127 | the screen becomes `EdgesShown` of every model edge |

## Left out

- Which error `new_obj` returns. The source can fail with a `ParseFloatError`
  from `parse::<f32>` (model.rs:125-127), a `ParseIntError` from
  `parse::<usize>` (model.rs:147, 172) or an `ObjParseError` (model.rs:131,
  151, 176). The model merges all three into one `ParseError`, so the error
  kind and its printed message are not modelled.
- Reading the file (`fs::read_to_string`). `ObjLoader.LoadObj` takes the
  file contents as a string, so a read failure is not modelled.
- Floating point. `f32` is modelled as `real`, and NaN and the infinities
  are not modelled. `parse::<f32>` is a parameter `parseReal`. `sin`, `cos`
  and `tan` are the fields of a `Trig` parameter. The camera lemmas assume
  sine and cosine on the unit circle.
- Integer widths. Screen sizes (`u16`) and `usize` indices are `nat`,
  except that `usize` parsing bounds values by `USIZE_MAX` (64-bit). Screen
  points (`i32`) are `int`. Only the saturating `as i32` cast of a
  projected coordinate is modelled (`Three.ToI32`). No `i32` overflow in
  `Screen::line` is modelled. Such an overflow can happen in these places:
  - `(end.x - start.x).abs()` (screen.rs:182) and `(end.y - start.y).abs()`
    (screen.rs:184), when the ends lie far apart;
  - `delta_x + delta_y` (screen.rs:186);
  - `2 * err` and the steps of `x` and `y` inside the loop.

  Saturated ends from `Three.ToI32`, such as `I32_MIN` at one end and
  `I32_MAX` at the other, reach these values. A far off-axis end clipped
  onto the viewport plane can produce them.
- Terminal I/O: cursor moves, clearing the terminal in `Screen::new`, and
  `print!`. `render` returns its text instead of printing it.
- `Screen::fit_to_terminal` and `DEFAULT_TERMINAL_DIMENSIONS`. They only
  query the terminal and call `resize`, which is modelled.
- `main.rs`, `termite.py` and `Model::new` are not part of this model.
- Generic `Pixel` types. They are modelled by the two-valued `Density`.
- Three.CameraToScreen: requires a non-zero depth, a non-zero viewport
  width and a screen of non-zero size. The source divides by them and gets
  an infinity or NaN.
- Three.Camera.Write and Three.Camera.Edge: require a positive viewport
  distance and a non-zero `tan(fov / 2)`.
- Three.Shown, Three.Edged: on a screen with a zero dimension, nothing is
  drawn. The model skips the projection there. The source projects through
  a division by zero, but no cell of such a screen is writable, so the
  content is the same.
- Screens.Screen.Render: requires the number of rows to be a multiple of
  the block height, and every row to be long enough for the column `x + j`
  the packer reads. The source panics otherwise.
- Models.WorldBounds: requires a point when there are edges. The source
  panics on an edge-only model (see Findings).
- Glyphs.BrailleChar: models `|=` of distinct bits as `+`.
- ObjLoader.ParseLine: `checked_sub(1)?` and the closing-edge push are
  modelled by their evident meaning, since they do not compile as written.
- Models.CubeEdgesAxial, Models.CubeCorners: Dafny proves them without a
  written proof. They hold by computation on the twelve literal edges.
- Sorting.Sort: insertion sort stands in for Rust's `sort` (a stable
  sort). Only the result, which is unique, is modelled.

## Findings

| source | as written | input that shows it | evidently intended | confidence | as-written member | corrected member |
|---|---|---|---|---|---|---|
| model.rs:221-224 | each index pair is resolved by indexing `vertices`, which panics when a reference names a vertex that was never declared | the file `l 1 2` (no `v` lines) | return an error from `new_obj`, which already returns `Result` | high; not executed | ObjScenarios.DanglingReferenceUnchecked | ObjScenarios.DanglingReferenceRefused |
| screen.rs:230 | block `x` is filled from columns `x + j`, so blocks overlap and columns past `ceil(width / 2) + 1` are never shown | a 4-wide screen with 2x2 blocks and only cell (row 1, column 3) lit renders as two blanks | fill block `x` from columns `x * WIDTH + j` | high; not executed | Screens.RenderMissesLastColumn | Screens.TilesShowEveryCell |
| model.rs:250 | the box starts from `points[0]` even when the model has edges and no points, after a guard that only excludes models with neither | `world_bounds` of any `new_cube` model (no points, twelve edges) | start from the first point visited, a point or an edge end | medium; not executed | Models.CubeHasNoBounds | Models.SeededBounds |

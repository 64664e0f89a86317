/**
 * The `Screen` of screen.rs: a grid of on/off cells, `content[row][column]`,
 * written by points and lines and rendered as glyphs of a `Glyphs.Density`.
 *
 * The source's `u16` dimensions and `i32` coordinates are unbounded here.
 */
module Screens {
  import opened Raster
  import Glyphs

  // ---------------------------------------------------------------------
  // The content, as a value
  // ---------------------------------------------------------------------

  /** A row of `n` cells, all off: `vec![false; n]`. */
  function Row(n: nat): (r: seq<bool>)
    ensures |r| == n && forall i :: 0 <= i < n ==> !r[i]
  {
    seq(n, _ => false)
  }

  /**
   * The shape the screen keeps: `height` rows, each at least `width` cells
   * long, and every cell past `width` off. Rows can be longer than `width`
   * after `resize` grows both dimensions at once.
   */
  predicate Fits(content: seq<seq<bool>>, width: nat, height: nat) {
    |content| == height &&
    forall y :: 0 <= y < height ==>
      |content[y]| >= width && forall x :: width <= x < |content[y]| ==> !content[y][x]
  }

  /** The guard of `write`: both coordinates strictly positive and below the size. */
  predicate Writable(p: Point, width: nat, height: nat) {
    0 < p.x < width && 0 < p.y < height
  }

  /** The content after `write(val, p)`. */
  function Written(content: seq<seq<bool>>, width: nat, height: nat, val: bool, p: Point): (c: seq<seq<bool>>)
    requires Fits(content, width, height)
    ensures Fits(c, width, height)
  {
    if Writable(p, width, height) then content[p.y := content[p.y][p.x := val]] else content
  }

  /** `write` sets the one cell at `p` when the guard admits it and changes nothing else. */
  lemma WriteChangesOneCell(content: seq<seq<bool>>, width: nat, height: nat, val: bool, p: Point)
    requires Fits(content, width, height)
    ensures forall y :: 0 <= y < height ==> |Written(content, width, height, val, p)[y]| == |content[y]|
    ensures forall y, x :: 0 <= y < height && 0 <= x < |content[y]| ==>
      Written(content, width, height, val, p)[y][x] ==
        if Writable(p, width, height) && p == Point(x, y) then val else content[y][x]
  {
  }

  /** The content after writing `true` at each point of `ps`, in order. */
  function PlotAll(content: seq<seq<bool>>, width: nat, height: nat, ps: seq<Point>): (c: seq<seq<bool>>)
    requires Fits(content, width, height)
    ensures Fits(c, width, height)
    decreases |ps|
  {
    if |ps| == 0 then content
    else PlotAll(Written(content, width, height, true, ps[0]), width, height, ps[1..])
  }

  /** The two conditional steps at the end of `line`'s loop body: one step of Bresenham's walk. */
  method Advance(ghost s: Segment, x: int, y: int, err: int, deltaX: int, deltaY: int, stepX: int, stepY: int)
    returns (x': int, y': int, err': int)
    requires deltaX == s.DeltaX() && deltaY == s.DeltaY() && stepX == s.StepX() && stepY == s.StepY()
    ensures Walk(x', y', err') == Next(s, Walk(x, y, err))
  {
    x', y', err' := x, y, err;
    var currErr := err;

    if 2 * currErr >= deltaY {
      err' := err' + deltaY;
      x' := x' + stepX;
    }

    if 2 * currErr <= deltaX {
      err' := err' + deltaX;
      y' := y' + stepY;
    }
  }

  /** Plotting the rest of a walk is plotting its current point, then the rest after one step. */
  lemma TraceStepPlots(content: seq<seq<bool>>, width: nat, height: nat, s: Segment, w: Walk)
    requires Fits(content, width, height)
    requires OnTrack(s, w) && !AtEnd(s, w)
    ensures OnTrack(s, Next(s, w))
    ensures PlotAll(content, width, height, Trace(s, w))
         == PlotAll(Written(content, width, height, true, Point(w.x, w.y)), width, height, Trace(s, Next(s, w)))
  {
    NextOnTrack(s, w);
    var rest := Trace(s, Next(s, w));
    assert Trace(s, w) == [Point(w.x, w.y)] + rest;
    assert ([Point(w.x, w.y)] + rest)[1..] == rest;
  }

  /** After plotting, a cell is on exactly when it was on or it is a writable point of `ps`. */
  lemma {:induction false} PlotAllCells(content: seq<seq<bool>>, width: nat, height: nat, ps: seq<Point>)
    requires Fits(content, width, height)
    ensures forall y :: 0 <= y < height ==> |PlotAll(content, width, height, ps)[y]| == |content[y]|
    ensures forall y, x :: 0 <= y < height && 0 <= x < |content[y]| ==>
      PlotAll(content, width, height, ps)[y][x] ==
        (content[y][x] || (Point(x, y) in ps && Writable(Point(x, y), width, height)))
    decreases |ps|
  {
    if |ps| > 0 {
      var next := Written(content, width, height, true, ps[0]);
      WriteChangesOneCell(content, width, height, true, ps[0]);
      PlotAllCells(next, width, height, ps[1..]);
      assert forall q :: q in ps <==> q == ps[0] || q in ps[1..];
    }
  }

  /** Plotting two runs of points is plotting the first, then the second. */
  lemma {:induction false} PlotAllAppend(content: seq<seq<bool>>, width: nat, height: nat, ps: seq<Point>, qs: seq<Point>)
    requires Fits(content, width, height)
    ensures PlotAll(content, width, height, ps + qs) == PlotAll(PlotAll(content, width, height, ps), width, height, qs)
    decreases |ps|
  {
    if |ps| > 0 {
      assert (ps + qs)[1..] == ps[1..] + qs;
      PlotAllAppend(Written(content, width, height, true, ps[0]), width, height, ps[1..], qs);
    } else {
      assert ps + qs == qs;
    }
  }

  /** `clear`: every row `width` cells long, every cell off. */
  function Cleared(width: nat, height: nat): (c: seq<seq<bool>>)
    ensures Fits(c, width, height)
    ensures forall y, x :: 0 <= y < height && 0 <= x < |c[y]| ==> !c[y][x]
  {
    seq(height, _ => Row(width))
  }

  /** The rows after the height step of `resize`: new rows are `width` cells long. */
  function Heightened(content: seq<seq<bool>>, width: nat, height: nat): (rows: seq<seq<bool>>)
    ensures |rows| == height
  {
    if height > |content| then content + seq(height - |content|, _ => Row(width))
    else content[..height]
  }

  /**
   * The rows after the width step of `resize`: growing appends
   * `width - oldWidth` cells to every row, shrinking truncates every row.
   */
  function Widened(rows: seq<seq<bool>>, oldWidth: nat, width: nat): (r: seq<seq<bool>>)
    ensures |r| == |rows|
  {
    if width > oldWidth then seq(|rows|, i requires 0 <= i < |rows| => rows[i] + Row(width - oldWidth))
    else seq(|rows|, i requires 0 <= i < |rows| => if |rows[i]| <= width then rows[i] else rows[i][..width])
  }

  /** The content after `resize(width, height)` of a screen of size `oldWidth` by `|content|`. */
  function Resized(content: seq<seq<bool>>, oldWidth: nat, width: nat, height: nat): seq<seq<bool>> {
    Widened(Heightened(content, width, height), oldWidth, width)
  }

  /**
   * `resize` keeps the shape, keeps every cell both sizes share and shows
   * every other cell off, including cells that an earlier shrink hid.
   */
  lemma ResizeKeepsShared(content: seq<seq<bool>>, oldWidth: nat, oldHeight: nat, width: nat, height: nat)
    requires Fits(content, oldWidth, oldHeight)
    ensures Fits(Resized(content, oldWidth, width, height), width, height)
    ensures forall y, x :: 0 <= y < height && 0 <= x < width ==>
      Resized(content, oldWidth, width, height)[y][x] == (y < oldHeight && x < oldWidth && content[y][x])
  {
    var rows := Heightened(content, width, height);
    var r := Resized(content, oldWidth, width, height);
    assert forall y :: 0 <= y < height ==> rows[y] == if y < oldHeight then content[y] else Row(width);
    forall y | 0 <= y < height
      ensures |r[y]| >= width && forall x :: width <= x < |r[y]| ==> !r[y][x]
      ensures forall x :: 0 <= x < width ==> r[y][x] == (y < oldHeight && x < oldWidth && content[y][x])
    {
      if width > oldWidth {
        assert r[y] == rows[y] + Row(width - oldWidth);
      } else {
        assert |rows[y]| >= width;
        assert r[y] == rows[y][..width];
      }
    }
  }

  /**
   * When `resize` grows both dimensions, each new row gets `width` cells
   * from the height step and `width - oldWidth` more from the width step.
   */
  lemma ResizeNewRowLength(content: seq<seq<bool>>, oldWidth: nat, oldHeight: nat, width: nat, height: nat)
    requires Fits(content, oldWidth, oldHeight)
    requires width > oldWidth && height > oldHeight
    ensures forall y :: oldHeight <= y < height ==>
      |Resized(content, oldWidth, width, height)[y]| == 2 * width - oldWidth
  {
    var rows := Heightened(content, width, height);
    var r := Resized(content, oldWidth, width, height);
    forall y | oldHeight <= y < height
      ensures |r[y]| == 2 * width - oldWidth
    {
      assert rows[y] == Row(width);
      assert r[y] == rows[y] + Row(width - oldWidth);
    }
  }

  /** A cell hidden by a shrink comes back off when the screen grows again. */
  lemma ShrinkThenGrow(content: seq<seq<bool>>, width: nat, height: nat, smallWidth: nat, smallHeight: nat)
    requires Fits(content, width, height)
    ensures Fits(Resized(Resized(content, width, smallWidth, smallHeight), smallWidth, width, height), width, height)
    ensures forall y, x :: 0 <= y < height && 0 <= x < width ==>
      Resized(Resized(content, width, smallWidth, smallHeight), smallWidth, width, height)[y][x] ==
        (y < smallHeight && x < smallWidth && content[y][x])
  {
    ResizeKeepsShared(content, width, height, smallWidth, smallHeight);
    var small := Resized(content, width, smallWidth, smallHeight);
    ResizeKeepsShared(small, smallWidth, smallHeight, width, height);
  }

  // ---------------------------------------------------------------------
  // Rendering, as a value
  // ---------------------------------------------------------------------

  /** `div_ceil(width, WIDTH)`: the glyphs per row of glyphs. */
  function Columns(width: nat, d: Glyphs.Density): nat {
    (width + d.Width() - 1) / d.Width()
  }

  /**
   * What `render` needs to run without a panic: the rows come in whole
   * chunks of the glyph height, and every row is long enough for the
   * rightmost read, column `Columns - 1 + WIDTH - 1`.
   */
  predicate Renderable(content: seq<seq<bool>>, width: nat, d: Glyphs.Density) {
    Columns(width, d) == 0 ||
    (|content| % d.Height() == 0 &&
     forall y :: 0 <= y < |content| ==> |content[y]| >= Columns(width, d) + d.Width() - 1)
  }

  /** One chunk of rows ready to be packed: `HEIGHT` rows, long enough to read. */
  predicate Band(subrows: seq<seq<bool>>, width: nat, d: Glyphs.Density) {
    Columns(width, d) == 0 ||
    (|subrows| == d.Height() &&
     forall y :: 0 <= y < |subrows| ==> |subrows[y]| >= Columns(width, d) + d.Width() - 1)
  }

  /** The glyph block `render` packs at glyph column `x`: cell `[y][j]` is column `x + j` of row `y`. */
  function Sample(subrows: seq<seq<bool>>, width: nat, d: Glyphs.Density, x: nat): (p: seq<seq<bool>>)
    requires Band(subrows, width, d) && x < Columns(width, d)
    ensures Glyphs.Shaped(p, d.Height(), d.Width())
    ensures forall y, j :: 0 <= y < d.Height() && 0 <= j < d.Width() ==> p[y][j] == subrows[y][x + j]
  {
    seq(d.Height(), y requires 0 <= y < d.Height() => seq(d.Width(), j requires 0 <= j < d.Width() => subrows[y][x + j]))
  }

  /** The glyph blocks of one chunk of rows, `real_row` after the packing loops. */
  function Pixels(subrows: seq<seq<bool>>, width: nat, d: Glyphs.Density): (ps: seq<seq<seq<bool>>>)
    requires Band(subrows, width, d)
    ensures |ps| == Columns(width, d)
  {
    seq(Columns(width, d), x requires 0 <= x < Columns(width, d) => Sample(subrows, width, d, x))
  }

  /** The characters printed for a sequence of glyph blocks. */
  function Printed(d: Glyphs.Density, ps: seq<seq<seq<bool>>>): (t: seq<char>)
    requires forall x :: 0 <= x < |ps| ==> Glyphs.Shaped(ps[x], d.Height(), d.Width())
    ensures |t| == |ps|
    ensures forall x :: 0 <= x < |ps| ==> t[x] == Glyphs.ToChar(d, ps[x])
  {
    seq(|ps|, x requires 0 <= x < |ps| => Glyphs.ToChar(d, ps[x]))
  }

  /** A whole number of chunks, less one chunk, is a whole number of chunks. */
  lemma ChunkRest(n: nat, d: Glyphs.Density)
    requires n > 0 && n % d.Height() == 0
    ensures n >= d.Height() && (n - d.Height()) % d.Height() == 0
  {
    match d
    case Block =>
    case Braille =>
  }

  /** Everything `render` prints after moving the cursor home: the glyphs of each chunk of rows, in order. */
  function Text(content: seq<seq<bool>>, width: nat, d: Glyphs.Density): (t: seq<char>)
    requires Renderable(content, width, d)
    decreases |content|
  {
    if |content| == 0 then []
    else
      var k := if |content| < d.Height() then |content| else d.Height();
      assert Renderable(content[k..], width, d) by {
        if Columns(width, d) > 0 {
          ChunkRest(|content|, d);
        }
      }
      assert Band(content[..k], width, d) by {
        if Columns(width, d) > 0 {
          ChunkRest(|content|, d);
        }
      }
      Printed(d, Pixels(content[..k], width, d)) + Text(content[k..], width, d)
  }

  /** A screen of `rows` rows renders as `rows / HEIGHT` rows of `Columns` glyphs. */
  lemma {:induction false} TextLength(content: seq<seq<bool>>, width: nat, d: Glyphs.Density)
    requires Renderable(content, width, d) && |content| % d.Height() == 0
    ensures |Text(content, width, d)| == (|content| / d.Height()) * Columns(width, d)
    decreases |content|
  {
    if |content| > 0 {
      ChunkRest(|content|, d);
      TextStep(content, width, d);
      var k := d.Height();
      var c := Columns(width, d);
      var q := (|content| - k) / k;
      TextLength(content[k..], width, d);
      assert |content| / k == q + 1 by {
        match d
        case Block =>
        case Braille =>
      }
      assert |Text(content, width, d)| == c + q * c;
      assert (q + 1) * c == q * c + c;
    }
  }

  /**
   * Any two screens that agree on the columns below `Columns + WIDTH - 1`
   * render the same: `render` never looks further right.
   */
  lemma {:induction false} TextReadsLeftColumns(a: seq<seq<bool>>, b: seq<seq<bool>>, width: nat, d: Glyphs.Density)
    requires Renderable(a, width, d) && Renderable(b, width, d) && |a| == |b|
    requires forall y, x :: 0 <= y < |a| && 0 <= x < Columns(width, d) + d.Width() - 1 && x < |a[y]| && x < |b[y]| ==>
      a[y][x] == b[y][x]
    ensures Text(a, width, d) == Text(b, width, d)
    decreases |a|
  {
    if |a| > 0 {
      var k := if |a| < d.Height() then |a| else d.Height();
      assert Band(a[..k], width, d) && Band(b[..k], width, d) by {
        if Columns(width, d) > 0 {
          ChunkRest(|a|, d);
        }
      }
      assert Pixels(a[..k], width, d) == Pixels(b[..k], width, d) by {
        forall x | 0 <= x < Columns(width, d)
          ensures Sample(a[..k], width, d, x) == Sample(b[..k], width, d, x)
        {
          var p, q := Sample(a[..k], width, d, x), Sample(b[..k], width, d, x);
          forall y | 0 <= y < d.Height()
            ensures p[y] == q[y]
          {
            assert forall j :: 0 <= j < d.Width() ==> p[y][j] == a[y][x + j] == b[y][x + j] == q[y][j];
          }
        }
      }
      assert Renderable(a[k..], width, d) && Renderable(b[k..], width, d) by {
        if Columns(width, d) > 0 {
          ChunkRest(|a|, d);
        }
      }
      TextReadsLeftColumns(a[k..], b[k..], width, d);
    }
  }

  // ---------------------------------------------------------------------
  // Rendering by whole glyph tiles (the evidently intended packing)
  // ---------------------------------------------------------------------

  /** The glyph block at glyph column `x` when glyph `x` covers columns `x * WIDTH` to `x * WIDTH + WIDTH - 1`. */
  function Tile(subrows: seq<seq<bool>>, width: nat, d: Glyphs.Density, x: nat): (p: seq<seq<bool>>)
    requires |subrows| == d.Height() && forall y :: 0 <= y < |subrows| ==> |subrows[y]| >= width
    ensures Glyphs.Shaped(p, d.Height(), d.Width())
  {
    seq(d.Height(), y requires 0 <= y < d.Height() =>
      seq(d.Width(), j requires 0 <= j < d.Width() => x * d.Width() + j < width && subrows[y][x * d.Width() + j]))
  }

  function Tiles(subrows: seq<seq<bool>>, width: nat, d: Glyphs.Density): (ps: seq<seq<seq<bool>>>)
    requires |subrows| == d.Height() && forall y :: 0 <= y < |subrows| ==> |subrows[y]| >= width
    ensures |ps| == Columns(width, d)
  {
    seq(Columns(width, d), x requires 0 <= x < Columns(width, d) => Tile(subrows, width, d, x))
  }

  /** Tiling shows every cell of the chunk exactly once, at glyph `c / WIDTH`, position `[y][c % WIDTH]`. */
  lemma TilesShowEveryCell(subrows: seq<seq<bool>>, width: nat, d: Glyphs.Density)
    requires |subrows| == d.Height() && forall y :: 0 <= y < |subrows| ==> |subrows[y]| >= width
    ensures forall y, c :: 0 <= y < d.Height() && 0 <= c < width ==>
      Tiles(subrows, width, d)[c / 2][y][c % 2] == subrows[y][c]
    ensures forall x, y, j :: 0 <= x < Columns(width, d) && 0 <= y < d.Height() && 0 <= j < d.Width() && x * 2 + j >= width ==>
      !Tiles(subrows, width, d)[x][y][j]
  {
    assert d.Width() == 2;
    forall y, c | 0 <= y < d.Height() && 0 <= c < width
      ensures Tiles(subrows, width, d)[c / 2][y][c % 2] == subrows[y][c]
    {
      assert c / 2 < Columns(width, d);
      assert (c / 2) * 2 + c % 2 == c;
    }
  }

  /**
   * On a 4-column screen of block glyphs, `render` packs columns 0-1 and
   * 1-2 and never reads column 3: a lit cell there is not shown.
   */
  lemma RenderMissesLastColumn()
    ensures Renderable([[false, false, false, false], [false, false, false, true]], 4, Glyphs.Block)
    ensures Text([[false, false, false, false], [false, false, false, true]], 4, Glyphs.Block) == [' ', ' ']
  {
    var c := [[false, false, false, false], [false, false, false, true]];
    var d := Glyphs.Block;
    assert Columns(4, d) == 2;
    TextStep(c, 4, d);
    assert c[2..] == [];
    var ps := Pixels(c[..2], 4, d);
    forall x | 0 <= x < 2
      ensures ps[x] == Glyphs.Blank(d)
    {
      var p := ps[x];
      assert p == Sample(c[..2], 4, d, x);
      assert forall y, j :: 0 <= y < 2 && 0 <= j < 2 ==> p[y][j] == c[y][x + j] == false;
      assert p[0] == [false, false] && p[1] == [false, false];
      assert Glyphs.Blank(d)[0] == [false, false] && Glyphs.Blank(d)[1] == [false, false];
    }
    Glyphs.BlockCharRange(Glyphs.Blank(d));
  }

  /** Tiling the same screen shows the lit cell in the lower right quadrant of the second glyph. */
  lemma TilesShowLastColumn()
    ensures Tiles([[false, false, false, false], [false, false, false, true]], 4, Glyphs.Block)[1] == [[false, false], [false, true]]
  {
    var c := [[false, false, false, false], [false, false, false, true]];
    var t := Tiles(c, 4, Glyphs.Block)[1];
    assert t == Tile(c, 4, Glyphs.Block, 1);
    assert Glyphs.Shaped(t, 2, 2);
    assert t[0][0] == c[0][2] && t[0][1] == c[0][3];
    assert t[1][0] == c[1][2] && t[1][1] == c[1][3];
    assert t[0] == [false, false] && t[1] == [false, true];
  }

  // ---------------------------------------------------------------------
  // The screen object
  // ---------------------------------------------------------------------

  /** `Screen`: its size and its cells, updated in place. */
  class Screen {
    var width: nat
    var height: nat
    var content: seq<seq<bool>>

    ghost predicate Valid()
      reads this
    {
      Fits(content, width, height)
    }

    /** `Screen::new`, without clearing the terminal: an empty screen. */
    constructor ()
      ensures Valid() && width == 0 && height == 0 && content == []
    {
      width, height, content := 0, 0, [];
    }

    /** `write`: set one cell, if the point is on the screen away from its top row and left column. */
    method Write(val: bool, point: Point)
      requires Valid()
      modifies this`content
      ensures Valid()
      ensures content == Written(old(content), width, height, val, point)
    {
      var xInBounds := 0 < point.x && point.x < width;
      var yInBounds := 0 < point.y && point.y < height;
      if xInBounds && yInBounds {
        content := content[point.y := content[point.y][point.x := val]];
      }
    }

    /** `clear`: every cell off, every row exactly `width` cells long. */
    method Clear()
      requires Valid()
      modifies this`content
      ensures Valid()
      ensures |content| == height && forall y :: 0 <= y < height ==> |content[y]| == width
      ensures forall y, x :: 0 <= y < height && 0 <= x < width ==> !content[y][x]
    {
      content := Cleared(width, height);
    }

    /** `resize`: adjust the rows to the new height, then every row to the new width. */
    method Resize(newWidth: nat, newHeight: nat)
      requires Valid()
      modifies this
      ensures Valid() && width == newWidth && height == newHeight
      ensures content == Resized(old(content), old(width), newWidth, newHeight)
    {
      if newHeight > height {
        content := content + seq(newHeight - height, _ => Row(newWidth));
      } else {
        content := content[..newHeight];
      }
      height := newHeight;
      var oldWidth := width;
      ghost var rows := content;
      assert rows == Heightened(old(content), newWidth, newHeight);

      var i := 0;
      if newWidth > oldWidth {
        while i < |content|
          invariant 0 <= i <= |content| == |rows|
          invariant forall k :: 0 <= k < i ==> content[k] == rows[k] + Row(newWidth - oldWidth)
          modifies this`content
          invariant forall k :: i <= k < |content| ==> content[k] == rows[k]
        {
          content := content[i := content[i] + Row(newWidth - oldWidth)];
          i := i + 1;
        }
      } else {
        while i < |content|
          invariant 0 <= i <= |content| == |rows|
          invariant forall k :: 0 <= k < i ==> content[k] == if |rows[k]| <= newWidth then rows[k] else rows[k][..newWidth]
          modifies this`content
          invariant forall k :: i <= k < |content| ==> content[k] == rows[k]
        {
          if |content[i]| > newWidth {
            content := content[i := content[i][..newWidth]];
          }
          i := i + 1;
        }
      }
      assert content == Widened(rows, oldWidth, newWidth);
      ResizeKeepsShared(old(content), oldWidth, old(height), newWidth, newHeight);
      width := newWidth;
    }

    /** `line`: Bresenham's walk from `start`, writing each pixel it stands on before stepping. */
    method Line(start: Point, end: Point)
      requires Valid()
      modifies this`content
      ensures Valid()
      ensures content == PlotAll(old(content), width, height, LinePixels(start, end))
    {
      var deltaX := Abs(end.x - start.x);
      var stepX := if start.x < end.x then 1 else -1;
      var deltaY := -(Abs(end.y - start.y) as int);
      var stepY := if start.y < end.y then 1 else -1;
      var err := deltaX + deltaY;

      var x := start.x;
      var y := start.y;

      ghost var s := Segment(start, end);
      assert deltaX == s.DeltaX() && deltaY == s.DeltaY() && stepX == s.StepX() && stepY == s.StepY();
      ghost var final := PlotAll(content, width, height, LinePixels(start, end));
      BeginOnTrack(s);
      Write(true, Point(x, y));
      assert final == PlotAll(content, width, height, Trace(s, Walk(x, y, err)));

      while !(x == end.x && y == end.y)
        invariant Valid()
        invariant OnTrack(s, Walk(x, y, err))
        invariant final == PlotAll(content, width, height, Trace(s, Walk(x, y, err)))
        decreases LeftX(s, Walk(x, y, err)) + LeftY(s, Walk(x, y, err))
      {
        ghost var here := Walk(x, y, err);
        NextOnTrack(s, here);
        TraceStepPlots(content, width, height, s, here);
        Write(true, Point(x, y));
        x, y, err := Advance(s, x, y, err, deltaX, deltaY, stepX, stepY);
      }
    }

    /**
     * `render`: the characters printed, chunk by chunk of `HEIGHT` rows, each
     * chunk packed into `div_ceil(width, WIDTH)` glyphs.
     */
    method Render(d: Glyphs.Density) returns (text: seq<char>)
      requires Valid() && Renderable(content, width, d)
      ensures text == Text(content, width, d)
    {
      var w, rows := width, content;
      text := [];
      var rest := rows;
      while |rest| > 0
        invariant Renderable(rest, w, d)
        invariant Text(rows, w, d) == text + Text(rest, w, d)
        decreases |rest|
      {
        var line;
        line, rest := RenderChunk(rest, w, d);
        assert text + (line + Text(rest, w, d)) == (text + line) + Text(rest, w, d);
        text := text + line;
      }
    }
  }

  /** One pass of the loop over chunks in `render`: pack the first chunk and print it. */
  method RenderChunk(rows: seq<seq<bool>>, width: nat, d: Glyphs.Density) returns (line: seq<char>, rest: seq<seq<bool>>)
    requires Renderable(rows, width, d) && |rows| > 0
    ensures Renderable(rest, width, d) && |rest| < |rows|
    ensures Text(rows, width, d) == line + Text(rest, width, d)
  {
    var k := if |rows| < d.Height() then |rows| else d.Height();
    TextStep(rows, width, d);
    var realRow := Pack(rows[..k], width, d);
    line := PrintRow(d, realRow);
    rest := rows[k..];
  }

  /** `Text` takes one chunk of rows at a time. */
  lemma TextStep(rest: seq<seq<bool>>, width: nat, d: Glyphs.Density)
    requires Renderable(rest, width, d) && |rest| > 0
    ensures
      var k := if |rest| < d.Height() then |rest| else d.Height();
      Band(rest[..k], width, d) && Renderable(rest[k..], width, d) &&
      Text(rest, width, d) == Printed(d, Pixels(rest[..k], width, d)) + Text(rest[k..], width, d)
  {
    if Columns(width, d) > 0 {
      ChunkRest(|rest|, d);
    }
  }

  /** The printing loop of `render` for one packed chunk. */
  method PrintRow(d: Glyphs.Density, realRow: seq<seq<seq<bool>>>) returns (line: seq<char>)
    requires forall x :: 0 <= x < |realRow| ==> Glyphs.Shaped(realRow[x], d.Height(), d.Width())
    ensures line == Printed(d, realRow)
  {
    line := [];
    var i := 0;
    while i < |realRow|
      invariant 0 <= i <= |realRow|
      invariant line == Printed(d, realRow[..i])
    {
      var ch := Print(d, realRow[i]);
      line := line + [ch];
      i := i + 1;
      assert realRow[..i] == realRow[..i - 1] + [realRow[i - 1]];
    }
    assert realRow[..i] == realRow;
  }

  /**
   * The call of `to_char` in `render`, dispatching on the density as the
   * generic pixel type does. `Glyphs.ToChar` is the same character as a
   * function, and the glyph lemmas are stated about it.
   */
  method Print(d: Glyphs.Density, p: seq<seq<bool>>) returns (ch: char)
    requires Glyphs.Shaped(p, d.Height(), d.Width())
    ensures ch == Glyphs.ToChar(d, p)
  {
    match d
    case Block =>
      ch := Glyphs.BlockChar(p);
    case Braille =>
      ch := Glyphs.BrailleChar(p);
  }

  /** `(y, x, j)` comes before `(y0, x0, j0)` in the order the packing loops visit cells. */
  predicate PackedBefore(y: int, x: int, j: int, y0: int, x0: int, j0: int) {
    y < y0 || (y == y0 && (x < x0 || (x == x0 && j < j0)))
  }

  /** `real_row` part way through the packing loops: visited cells copied, the rest still off. */
  function Packing(subrows: seq<seq<bool>>, width: nat, d: Glyphs.Density, y0: int, x0: int, j0: int): (r: seq<seq<seq<bool>>>)
    requires Band(subrows, width, d)
    ensures |r| == Columns(width, d)
    ensures forall x :: 0 <= x < |r| ==> Glyphs.Shaped(r[x], d.Height(), d.Width())
  {
    seq(Columns(width, d), x requires 0 <= x < Columns(width, d) =>
      seq(d.Height(), y requires 0 <= y < d.Height() =>
        seq(d.Width(), j requires 0 <= j < d.Width() =>
          PackedBefore(y, x, j, y0, x0, j0) && subrows[y][x + j])))
  }

  /** The packing loops of `render` for one chunk of rows. */
  method Pack(subrows: seq<seq<bool>>, width: nat, d: Glyphs.Density) returns (realRow: seq<seq<seq<bool>>>)
    requires Band(subrows, width, d)
    ensures realRow == Pixels(subrows, width, d)
  {
    var realRowWidth := Columns(width, d);
    realRow := seq(realRowWidth, _ => Glyphs.Blank(d));
    PackingStart(subrows, width, d);
    var y := 0;
    while y < d.Height()
      invariant 0 <= y <= d.Height()
      invariant realRow == Packing(subrows, width, d, y, 0, 0)
    {
      realRow := PackRow(subrows, width, d, y, realRow);
      y := y + 1;
    }
    PackingDone(subrows, width, d);
  }

  /** The middle loop of the packing: subrow `y` copied into every glyph. */
  method PackRow(subrows: seq<seq<bool>>, width: nat, d: Glyphs.Density, y: nat, realRow: seq<seq<seq<bool>>>)
    returns (r: seq<seq<seq<bool>>>)
    requires Band(subrows, width, d) && y < d.Height()
    requires realRow == Packing(subrows, width, d, y, 0, 0)
    ensures r == Packing(subrows, width, d, y + 1, 0, 0)
  {
    var realRowWidth := Columns(width, d);
    r := realRow;
    var x := 0;
    while x < realRowWidth
      invariant 0 <= x <= realRowWidth
      invariant r == Packing(subrows, width, d, y, x, 0)
    {
      r := PackGlyphRow(subrows, width, d, y, x, r);
      x := x + 1;
    }
    PackingNextRow(subrows, width, d, y);
  }

  /** The inner loop of the packing: columns `x + j` of subrow `y` into row `y` of glyph `x`. */
  method PackGlyphRow(subrows: seq<seq<bool>>, width: nat, d: Glyphs.Density, y: nat, x: nat, realRow: seq<seq<seq<bool>>>)
    returns (r: seq<seq<seq<bool>>>)
    requires Band(subrows, width, d) && y < d.Height() && x < Columns(width, d)
    requires realRow == Packing(subrows, width, d, y, x, 0)
    ensures r == Packing(subrows, width, d, y, x + 1, 0)
  {
    r := realRow;
    var j := 0;
    while j < d.Width()
      invariant 0 <= j <= d.Width()
      invariant r == Packing(subrows, width, d, y, x, j)
    {
      PackingStep(subrows, width, d, y, x, j);
      r := r[x := r[x][y := r[x][y][j := subrows[y][x + j]]]];
      j := j + 1;
    }
    PackingNextColumn(subrows, width, d, y, x);
  }

  lemma PackingStart(subrows: seq<seq<bool>>, width: nat, d: Glyphs.Density)
    requires Band(subrows, width, d)
    ensures Packing(subrows, width, d, 0, 0, 0) == seq(Columns(width, d), _ => Glyphs.Blank(d))
  {
    var r := Packing(subrows, width, d, 0, 0, 0);
    var r' := seq(Columns(width, d), _ => Glyphs.Blank(d));
    forall x1 | 0 <= x1 < |r|
      ensures r[x1] == r'[x1]
    {
      forall y1 | 0 <= y1 < d.Height()
        ensures r[x1][y1] == r'[x1][y1]
      {
        assert forall j1 :: 0 <= j1 < d.Width() ==> r[x1][y1][j1] == r'[x1][y1][j1];
      }
    }
  }

  lemma PackingStep(subrows: seq<seq<bool>>, width: nat, d: Glyphs.Density, y: nat, x: nat, j: nat)
    requires Band(subrows, width, d) && y < d.Height() && x < Columns(width, d) && j < d.Width()
    ensures
      var r := Packing(subrows, width, d, y, x, j);
      Packing(subrows, width, d, y, x, j + 1) == r[x := r[x][y := r[x][y][j := subrows[y][x + j]]]]
  {
    var r := Packing(subrows, width, d, y, x, j);
    var r' := Packing(subrows, width, d, y, x, j + 1);
    var s := r[x := r[x][y := r[x][y][j := subrows[y][x + j]]]];
    assert |r'| == |s|;
    forall x1 | 0 <= x1 < |s|
      ensures r'[x1] == s[x1]
    {
      forall y1 | 0 <= y1 < d.Height()
        ensures r'[x1][y1] == s[x1][y1]
      {
        assert forall j1 :: 0 <= j1 < d.Width() ==> r'[x1][y1][j1] == s[x1][y1][j1];
      }
    }
  }

  lemma PackingNextColumn(subrows: seq<seq<bool>>, width: nat, d: Glyphs.Density, y: nat, x: nat)
    requires Band(subrows, width, d)
    ensures Packing(subrows, width, d, y, x, d.Width()) == Packing(subrows, width, d, y, x + 1, 0)
  {
    var r := Packing(subrows, width, d, y, x, d.Width());
    var r' := Packing(subrows, width, d, y, x + 1, 0);
    forall x1 | 0 <= x1 < |r|
      ensures r[x1] == r'[x1]
    {
      forall y1 | 0 <= y1 < d.Height()
        ensures r[x1][y1] == r'[x1][y1]
      {
        assert forall j1 :: 0 <= j1 < d.Width() ==> r[x1][y1][j1] == r'[x1][y1][j1];
      }
    }
  }

  lemma PackingNextRow(subrows: seq<seq<bool>>, width: nat, d: Glyphs.Density, y: nat)
    requires Band(subrows, width, d)
    ensures Packing(subrows, width, d, y, Columns(width, d), 0) == Packing(subrows, width, d, y + 1, 0, 0)
  {
    var r := Packing(subrows, width, d, y, Columns(width, d), 0);
    var r' := Packing(subrows, width, d, y + 1, 0, 0);
    forall x1 | 0 <= x1 < |r|
      ensures r[x1] == r'[x1]
    {
      forall y1 | 0 <= y1 < d.Height()
        ensures r[x1][y1] == r'[x1][y1]
      {
        assert forall j1 :: 0 <= j1 < d.Width() ==> r[x1][y1][j1] == r'[x1][y1][j1];
      }
    }
  }

  lemma PackingDone(subrows: seq<seq<bool>>, width: nat, d: Glyphs.Density)
    requires Band(subrows, width, d)
    ensures Packing(subrows, width, d, d.Height(), 0, 0) == Pixels(subrows, width, d)
  {
    var r := Packing(subrows, width, d, d.Height(), 0, 0);
    var r' := Pixels(subrows, width, d);
    forall x1 | 0 <= x1 < |r|
      ensures r[x1] == r'[x1]
    {
      forall y1 | 0 <= y1 < d.Height()
        ensures r[x1][y1] == r'[x1][y1]
      {
        assert forall j1 :: 0 <= j1 < d.Width() ==> r[x1][y1][j1] == r'[x1][y1][j1];
      }
    }
  }
}

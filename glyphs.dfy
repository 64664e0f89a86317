/**
 * The two glyph densities of screen.rs: a `BlockPixel` is 2 rows by 2
 * columns of screen cells shown as one quadrant character of the Unicode
 * Block Elements block, and a `BrailePixel` is 4 rows by 2 columns shown as
 * one character of the Unicode Braille Patterns block.
 *
 * A pixel block is `cells[row][column]`.
 */
module Glyphs {
  import opened Wrappers

  /** `cells` has `rows` rows of `columns` cells each. */
  predicate Shaped(cells: seq<seq<bool>>, rows: nat, columns: nat) {
    |cells| == rows && forall r :: 0 <= r < rows ==> |cells[r]| == columns
  }

  /** The glyph densities, each with its block size (`Dim::WIDTH`, `Dim::HEIGHT`). */
  datatype Density = Block | Braille {
    function Width(): nat { 2 }

    function Height(): nat {
      match this
      case Block => 2
      case Braille => 4
    }
  }

  /** `Pixel::new`: a block of the density with every cell off. */
  function Blank(d: Density): (p: seq<seq<bool>>)
    ensures Shaped(p, d.Height(), d.Width())
    ensures forall r, c :: 0 <= r < d.Height() && 0 <= c < d.Width() ==> !p[r][c]
  {
    seq(d.Height(), _ => seq(d.Width(), _ => false))
  }

  // ---------------------------------------------------------------------
  // Block elements
  // ---------------------------------------------------------------------

  /** `BlockPixel::to_char`: the quadrant character for a 2x2 block, in the source's match order. */
  function BlockChar(p: seq<seq<bool>>): char
    requires Shaped(p, 2, 2)
  {
    match (p[0][0], p[0][1], p[1][0], p[1][1])
    case (false, false, false, false) => ' '
    case (true, false, false, false) => '▘'
    case (false, true, false, false) => '▝'
    case (true, true, false, false) => '▀'
    case (false, false, true, false) => '▖'
    case (true, false, true, false) => '▌'
    case (false, true, true, false) => '▞'
    case (true, true, true, false) => '▛'
    case (false, false, false, true) => '▗'
    case (true, false, false, true) => '▚'
    case (false, true, false, true) => '▐'
    case (true, true, false, true) => '▜'
    case (false, false, true, true) => '▄'
    case (true, false, true, true) => '▙'
    case (false, true, true, true) => '▟'
    case (true, true, true, true) => '█'
  }

  function Quad(upperLeft: bool, upperRight: bool, lowerLeft: bool, lowerRight: bool): seq<seq<bool>> {
    [[upperLeft, upperRight], [lowerLeft, lowerRight]]
  }

  /**
   * The quadrants a character inks, read off its Unicode name ("QUADRANT
   * UPPER LEFT AND LOWER RIGHT", "LEFT HALF BLOCK", ...); `None` for a
   * character that is not one of the sixteen.
   */
  function InkedQuadrants(c: char): Option<seq<seq<bool>>> {
    if c == ' ' then Some(Quad(false, false, false, false))
    else if c == '▘' then Some(Quad(true, false, false, false))
    else if c == '▝' then Some(Quad(false, true, false, false))
    else if c == '▖' then Some(Quad(false, false, true, false))
    else if c == '▗' then Some(Quad(false, false, false, true))
    else if c == '▀' then Some(Quad(true, true, false, false))
    else if c == '▄' then Some(Quad(false, false, true, true))
    else if c == '▌' then Some(Quad(true, false, true, false))
    else if c == '▐' then Some(Quad(false, true, false, true))
    else if c == '▚' then Some(Quad(true, false, false, true))
    else if c == '▞' then Some(Quad(false, true, true, false))
    else if c == '▛' then Some(Quad(true, true, true, false))
    else if c == '▜' then Some(Quad(true, true, false, true))
    else if c == '▙' then Some(Quad(true, false, true, true))
    else if c == '▟' then Some(Quad(false, true, true, true))
    else if c == '█' then Some(Quad(true, true, true, true))
    else None
  }

  /** Every 2x2 block gets the character whose inked quadrants are exactly its lit cells. */
  lemma BlockCharInks(p: seq<seq<bool>>)
    requires Shaped(p, 2, 2)
    ensures InkedQuadrants(BlockChar(p)) == Some(p)
  {
    assert p[0] == [p[0][0], p[0][1]] && p[1] == [p[1][0], p[1][1]];
    assert p == Quad(p[0][0], p[0][1], p[1][0], p[1][1]);
  }

  /** The sixteen blocks get sixteen different characters. */
  lemma BlockCharInjective(p: seq<seq<bool>>, q: seq<seq<bool>>)
    requires Shaped(p, 2, 2) && Shaped(q, 2, 2)
    requires BlockChar(p) == BlockChar(q)
    ensures p == q
  {
    BlockCharInks(p);
    BlockCharInks(q);
  }

  /** A blank block is a space, a full one the full block, and every other glyph is a quadrant element. */
  lemma BlockCharRange(p: seq<seq<bool>>)
    requires Shaped(p, 2, 2)
    ensures BlockChar(p) == ' ' <==> p == Blank(Block)
    ensures BlockChar(p) == '█' <==> p == Quad(true, true, true, true)
    ensures BlockChar(p) == ' ' || '▀' <= BlockChar(p) <= '▟'
  {
    BlockCharInks(p);
    assert Blank(Block)[0] == [false, false] && Blank(Block)[1] == [false, false];
  }

  // ---------------------------------------------------------------------
  // Braille patterns
  // ---------------------------------------------------------------------

  /** The number whose binary digits, least significant first, are `bits`. */
  function FromBits(bits: seq<bool>): nat {
    if bits == [] then 0 else Digit(bits[0]) + 2 * FromBits(bits[1..])
  }

  lemma {:induction false} FromBitsBound(bits: seq<bool>)
    ensures FromBits(bits) < Pow2(|bits|)
  {
    if bits != [] {
      FromBitsBound(bits[1..]);
    }
  }

  function Pow2(k: nat): (p: nat)
    ensures p >= 1
  {
    if k == 0 then 1 else 2 * Pow2(k - 1)
  }

  /** The lowest `count` binary digits of `n`, least significant first. */
  function ToBits(n: nat, count: nat): (bits: seq<bool>)
    ensures |bits| == count
  {
    if count == 0 then [] else [n % 2 == 1] + ToBits(n / 2, count - 1)
  }

  lemma {:induction false} ToBitsFromBits(bits: seq<bool>)
    ensures ToBits(FromBits(bits), |bits|) == bits
  {
    if bits != [] {
      ToBitsFromBits(bits[1..]);
      var n := FromBits(bits);
      assert n % 2 == (if bits[0] then 1 else 0) && n / 2 == FromBits(bits[1..]);
    }
  }

  function Digit(b: bool): nat {
    if b then 1 else 0
  }

  /** An eight-digit binary number as the sum of its digit values. */
  lemma FromEightBits(bits: seq<bool>)
    requires |bits| == 8
    ensures FromBits(bits) == Digit(bits[0]) + 2 * Digit(bits[1]) + 4 * Digit(bits[2]) + 8 * Digit(bits[3])
      + 16 * Digit(bits[4]) + 32 * Digit(bits[5]) + 64 * Digit(bits[6]) + 128 * Digit(bits[7])
  {
    assert bits[7..][1..] == [];
    assert bits[6..][1..] == bits[7..] && bits[5..][1..] == bits[6..] && bits[4..][1..] == bits[5..];
    assert bits[3..][1..] == bits[4..] && bits[2..][1..] == bits[3..] && bits[1..][1..] == bits[2..];
    assert FromBits(bits[7..]) == Digit(bits[7]);
    assert FromBits(bits[6..]) == Digit(bits[6]) + 2 * FromBits(bits[7..]);
    assert FromBits(bits[5..]) == Digit(bits[5]) + 2 * FromBits(bits[6..]);
    assert FromBits(bits[4..]) == Digit(bits[4]) + 2 * FromBits(bits[5..]);
    assert FromBits(bits[3..]) == Digit(bits[3]) + 2 * FromBits(bits[4..]);
    assert FromBits(bits[2..]) == Digit(bits[2]) + 2 * FromBits(bits[3..]);
    assert FromBits(bits[1..]) == Digit(bits[1]) + 2 * FromBits(bits[2..]);
  }

  /**
   * The cells of a 4x2 block in the order of the Braille dots 1 to 8, which
   * is the order of the bits of the code point's offset from U+2800: dots
   * 1-3 down the left column, dots 4-6 down the right column, dots 7 and 8
   * on the bottom row.
   */
  function DotOrder(p: seq<seq<bool>>): (bits: seq<bool>)
    requires Shaped(p, 4, 2)
    ensures |bits| == 8
  {
    [p[0][0], p[1][0], p[2][0], p[0][1], p[1][1], p[2][1], p[3][0], p[3][1]]
  }

  /** The 4x2 block whose dots are the given bits, the inverse of `DotOrder`. */
  function DotCell(bits: seq<bool>): (p: seq<seq<bool>>)
    requires |bits| == 8
    ensures Shaped(p, 4, 2)
  {
    [[bits[0], bits[3]], [bits[1], bits[4]], [bits[2], bits[5]], [bits[6], bits[7]]]
  }

  /** The dots raised by a character of the Braille Patterns block. */
  function RaisedDots(ch: char): seq<seq<bool>>
    requires '⠀' <= ch <= '⣿'
  {
    DotCell(ToBits(ch as int - 0x2800, 8))
  }

  /** The Braille character whose raised dots are the lit cells of `p`. */
  function BrailleGlyph(p: seq<seq<bool>>): (ch: char)
    requires Shaped(p, 4, 2)
    ensures '⠀' <= ch <= '⣿'
    ensures RaisedDots(ch) == p
  {
    var mask := FromBits(DotOrder(p));
    assert Pow2(8) == 256;
    FromBitsBound(DotOrder(p));
    ToBitsFromBits(DotOrder(p));
    assert p[0] == [p[0][0], p[0][1]] && p[1] == [p[1][0], p[1][1]];
    assert p[2] == [p[2][0], p[2][1]] && p[3] == [p[3][0], p[3][1]];
    (0x2800 + mask) as char
  }

  /** The 256 blocks get 256 different characters. */
  lemma BrailleGlyphInjective(p: seq<seq<bool>>, q: seq<seq<bool>>)
    requires Shaped(p, 4, 2) && Shaped(q, 4, 2)
    requires BrailleGlyph(p) == BrailleGlyph(q)
    ensures p == q
  {
    assert RaisedDots(BrailleGlyph(p)) == p;
  }

  /** The dot mask of a cell, written as the weighted sum of its eight dots. */
  lemma DotSum(p: seq<seq<bool>>)
    requires Shaped(p, 4, 2)
    ensures FromBits(DotOrder(p)) == Digit(p[0][0]) + 2 * Digit(p[1][0]) + 4 * Digit(p[2][0]) + 8 * Digit(p[0][1]) + 16 * Digit(p[1][1]) + 32 * Digit(p[2][1]) + 64 * Digit(p[3][0]) + 128 * Digit(p[3][1])
  {
    var bits := DotOrder(p);
    FromEightBits(bits);
    assert bits[0] == p[0][0] && bits[1] == p[1][0] && bits[2] == p[2][0] && bits[3] == p[0][1];
    assert bits[4] == p[1][1] && bits[5] == p[2][1] && bits[6] == p[3][0] && bits[7] == p[3][1];
  }

  /**
   * `BrailePixel::to_char`: the bit of each lit cell is or-ed into a `u32`,
   * then the block's base 0x28 << 8. The bits are distinct, so each or adds
   * its bit; the model adds.
   */
  method BrailleChar(p: seq<seq<bool>>) returns (ch: char)
    requires Shaped(p, 4, 2)
    ensures ch == BrailleGlyph(p)
  {
    var unicode: nat := 0;
    if p[0][0] { unicode := unicode + 1; }
    assert unicode == Digit(p[0][0]);
    if p[1][0] { unicode := unicode + 2; }
    assert unicode == Digit(p[0][0]) + 2 * Digit(p[1][0]);
    if p[2][0] { unicode := unicode + 4; }
    assert unicode == Digit(p[0][0]) + 2 * Digit(p[1][0]) + 4 * Digit(p[2][0]);
    if p[0][1] { unicode := unicode + 8; }
    assert unicode == Digit(p[0][0]) + 2 * Digit(p[1][0]) + 4 * Digit(p[2][0]) + 8 * Digit(p[0][1]);
    if p[1][1] { unicode := unicode + 16; }
    assert unicode == Digit(p[0][0]) + 2 * Digit(p[1][0]) + 4 * Digit(p[2][0]) + 8 * Digit(p[0][1]) + 16 * Digit(p[1][1]);
    if p[2][1] { unicode := unicode + 32; }
    assert unicode == Digit(p[0][0]) + 2 * Digit(p[1][0]) + 4 * Digit(p[2][0]) + 8 * Digit(p[0][1]) + 16 * Digit(p[1][1]) + 32 * Digit(p[2][1]);
    if p[3][0] { unicode := unicode + 64; }
    assert unicode == Digit(p[0][0]) + 2 * Digit(p[1][0]) + 4 * Digit(p[2][0]) + 8 * Digit(p[0][1]) + 16 * Digit(p[1][1]) + 32 * Digit(p[2][1]) + 64 * Digit(p[3][0]);
    if p[3][1] { unicode := unicode + 128; }
    assert unicode == Digit(p[0][0]) + 2 * Digit(p[1][0]) + 4 * Digit(p[2][0]) + 8 * Digit(p[0][1]) + 16 * Digit(p[1][1]) + 32 * Digit(p[2][1]) + 64 * Digit(p[3][0]) + 128 * Digit(p[3][1]);
    DotSum(p);
    unicode := unicode + 0x28 * 256;
    ch := unicode as char;
  }

  /** `Pixel::to_char` of the density. */
  function ToChar(d: Density, p: seq<seq<bool>>): char
    requires Shaped(p, d.Height(), d.Width())
  {
    match d
    case Block => BlockChar(p)
    case Braille => BrailleGlyph(p)
  }

  /** Each density tells its blocks apart: distinct blocks are distinct characters. */
  lemma ToCharInjective(d: Density, p: seq<seq<bool>>, q: seq<seq<bool>>)
    requires Shaped(p, d.Height(), d.Width()) && Shaped(q, d.Height(), d.Width())
    requires ToChar(d, p) == ToChar(d, q)
    ensures p == q
  {
    match d
    case Block => BlockCharInjective(p, q);
    case Braille => BrailleGlyphInjective(p, q);
  }
}

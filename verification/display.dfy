/** The logical framebuffer of `Display`: a flat, row-major vector of
    64 x 32 cells, one byte per pixel.  Only the `pixels` buffer and its
    accessors are modelled; the SDL window, canvas and texture are not. */
module Display {
  import opened Bytes

  const BaseWidth: nat := 64
  const BaseHeight: nat := 32
  const PixelCount: nat := BaseWidth * BaseHeight

  /** The flat index of the pixel in column `x` of row `y`. */
  function CellIndex(x: nat, y: nat): (k: nat)
    ensures x < BaseWidth && y < BaseHeight ==> k < PixelCount
  {
    y * BaseWidth + x
  }

  /** An all-dark screen. */
  function Blank(): (p: seq<u8>)
    ensures |p| == PixelCount
    ensures forall k :: 0 <= k < |p| ==> p[k] == 0
  {
    seq(PixelCount, _ => 0)
  }

  /** Row-major layout is a bijection between the 64 x 32 grid and the
      2048 cells: every grid position has an in-bounds cell, and the cell
      gives back its column and row. */
  lemma CellIndexBijective(x: nat, y: nat)
    requires x < BaseWidth && y < BaseHeight
    ensures CellIndex(x, y) < PixelCount
    ensures CellIndex(x, y) % BaseWidth == x && CellIndex(x, y) / BaseWidth == y
  {
    var k := CellIndex(x, y);
    assert k == y * 64 + x;
    assert k / 64 == y by {
      assert y * 64 <= k < (y + 1) * 64;
    }
  }

  /** Every cell is the cell of exactly one grid position. */
  lemma CellIndexOnto(k: nat)
    requires k < PixelCount
    ensures k % BaseWidth < BaseWidth && k / BaseWidth < BaseHeight
    ensures CellIndex(k % BaseWidth, k / BaseWidth) == k
  {
  }

  class Display {
    const pixels: array<u8>

    ghost predicate Valid()
      reads this
    {
      pixels.Length == PixelCount
    }

    /** `Display::new`: the buffer starts all zero. */
    constructor ()
      ensures Valid() && fresh(pixels)
      ensures pixels[..] == Blank()
    {
      pixels := new u8[PixelCount](_ => 0);
    }

    /** `get_pixel`: reads the cell at `y * 64 + x`; it is defined exactly
        when that index is inside the buffer (the source panics otherwise),
        in particular for every position of the grid. */
    function GetPixel(x: u32, y: u32): (r: u8)
      reads this, pixels
      requires Valid() && CellIndex(x, y) < PixelCount
      ensures r == pixels[..][CellIndex(x, y)]
    {
      pixels[CellIndex(x, y)]
    }

    /** `set_pixel`: afterwards the cell reads back `bit`, and every other
        cell, and the length, are as before. */
    method SetPixel(x: u32, y: u32, bit: u8)
      requires Valid() && CellIndex(x, y) < PixelCount
      modifies pixels
      ensures Valid()
      ensures GetPixel(x, y) == bit
      ensures pixels[..] == old(pixels[..])[CellIndex(x, y) := bit]
      ensures forall k :: 0 <= k < PixelCount && k != CellIndex(x, y) ==> pixels[k] == old(pixels[k])
    {
      pixels[CellIndex(x, y)] := bit;
    }

    /** `clear` without its redraw: every cell becomes 0. */
    method Clear()
      requires Valid()
      modifies pixels
      ensures Valid() && pixels[..] == Blank()
    {
      for k := 0 to pixels.Length
        invariant forall j :: 0 <= j < k ==> pixels[j] == 0
      {
        pixels[k] := 0;
      }
    }
  }

  /** Setting one grid pixel leaves every other grid pixel as it was. */
  lemma SetPixelFrame(p: seq<u8>, x: nat, y: nat, bit: u8, x': nat, y': nat)
    requires |p| == PixelCount
    requires x < BaseWidth && y < BaseHeight && x' < BaseWidth && y' < BaseHeight
    requires (x', y') != (x, y)
    ensures CellIndex(x', y') < PixelCount
    ensures p[CellIndex(x, y) := bit][CellIndex(x', y')] == p[CellIndex(x', y')]
  {
    CellIndexBijective(x, y);
    CellIndexBijective(x', y');
  }
}

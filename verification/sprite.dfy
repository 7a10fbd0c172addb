/** The sprite draw of instruction DXYN as a function on the pixel buffer.
    It follows the source's two nested loops pixel by pixel: rows of the
    sprite top to bottom, the 8 bits of each row most significant first;
    each pixel is XOR-ed with its sprite bit and VF is OVERWRITTEN with
    `pixel & sprite_bit` of that pixel, so after the draw VF reports only
    the last pixel drawn.  Coordinates wrap modulo 64 and 32. */
module Sprite {
  import opened Bytes
  import opened Display

  /** The pixel buffer together with the flag register VF. */
  datatype Canvas = Canvas(pixels: seq<u8>, vf: u8)

  /** `(sprite >> (7 - bit)) & 1`: bit `bit` of the byte, counted from the
      most significant. */
  function SpriteBit(sprite: u8, bit: nat): (b: u8)
    requires bit < 8
    ensures b <= 1
  {
    (sprite / Pow2(7 - bit)) % 2
  }

  /** The cell that sprite row `row`, bit `bit` lands on at origin (x, y). */
  function Target(x: nat, y: nat, row: nat, bit: nat): (k: nat)
    ensures k < PixelCount
  {
    CellIndexBijective((x + bit) % BaseWidth, (y + row) % BaseHeight);
    CellIndex((x + bit) % BaseWidth, (y + row) % BaseHeight)
  }

  /** One step of the inner loop. */
  function DrawPixel(c: Canvas, sprite: u8, x: nat, y: nat, row: nat, bit: nat): (r: Canvas)
    requires |c.pixels| == PixelCount && bit < 8
    ensures |r.pixels| == PixelCount
  {
    var k := Target(x, y, row, bit);
    var pixel := c.pixels[k];
    var spriteBit := SpriteBit(sprite, bit);
    Canvas(c.pixels[k := Xor8(pixel, spriteBit)], And8(pixel, spriteBit))
  }

  /** The first `bits` iterations of the inner loop for sprite row `row`. */
  function DrawRowBits(c: Canvas, sprite: u8, x: nat, y: nat, row: nat, bits: nat): (r: Canvas)
    requires |c.pixels| == PixelCount && bits <= 8
    ensures |r.pixels| == PixelCount
  {
    if bits == 0 then c
    else DrawPixel(DrawRowBits(c, sprite, x, y, row, bits - 1), sprite, x, y, row, bits - 1)
  }

  /** The first `rows` iterations of the outer loop. */
  function DrawRows(c: Canvas, sprites: seq<u8>, x: nat, y: nat, rows: nat): (r: Canvas)
    requires |c.pixels| == PixelCount && rows <= |sprites|
    ensures |r.pixels| == PixelCount
  {
    if rows == 0 then c
    else DrawRowBits(DrawRows(c, sprites, x, y, rows - 1), sprites[rows - 1], x, y, rows - 1, 8)
  }

  /** The whole draw: VF is cleared first, then every row is drawn. */
  function Draw(pixels: seq<u8>, sprites: seq<u8>, x: nat, y: nat): (r: Canvas)
    requires |pixels| == PixelCount
    ensures |r.pixels| == PixelCount
  {
    DrawRows(Canvas(pixels, 0), sprites, x, y, |sprites|)
  }

  // ----- Which sprite bit covers a cell -----

  /** The sprite row whose screen row is the row of cell `k`. */
  function RowOf(y: nat, k: nat): nat
  {
    (k / BaseWidth - y) % BaseHeight
  }

  /** The sprite bit whose screen column is the column of cell `k`. */
  function BitOf(x: nat, k: nat): nat
  {
    (k % BaseWidth - x) % BaseWidth
  }

  /** Cell `k` is drawn by the time `rows` full rows and `bits` bits of the
      next row are done. */
  predicate Covered(x: nat, y: nat, k: nat, rows: nat, bits: nat)
  {
    (RowOf(y, k) < rows && BitOf(x, k) < 8) || (RowOf(y, k) == rows && BitOf(x, k) < bits)
  }

  /** The sprite bit that lands on cell `k`, or 0 if the sprite does not
      cover it. */
  function Mask(sprites: seq<u8>, x: nat, y: nat, k: nat): (b: u8)
    ensures b <= 1
  {
    if RowOf(y, k) < |sprites| && BitOf(x, k) < 8 then SpriteBit(sprites[RowOf(y, k)], BitOf(x, k)) else 0
  }

  lemma TargetCoordinates(x: nat, y: nat, row: nat, bit: nat)
    requires row < BaseHeight && bit < 8
    ensures RowOf(y, Target(x, y, row, bit)) == row
    ensures BitOf(x, Target(x, y, row, bit)) == bit
  {
    var k := Target(x, y, row, bit);
    CellIndexBijective((x + bit) % BaseWidth, (y + row) % BaseHeight);
    assert k / 64 == (y + row) % 32 && k % 64 == (x + bit) % 64;
    assert ((y + row) % 32 - y) % 32 == row;
    assert ((x + bit) % 64 - x) % 64 == bit;
  }

  /** A cell is determined by its sprite row and bit (for a sprite at most
      32 rows tall, which every DXYN sprite is). */
  lemma TargetUnique(x: nat, y: nat, k: nat)
    requires k < PixelCount && RowOf(y, k) < BaseHeight && BitOf(x, k) < 8
    ensures Target(x, y, RowOf(y, k), BitOf(x, k)) == k
  {
    var row, bit := RowOf(y, k), BitOf(x, k);
    CellIndexOnto(k);
    var cx, cy := k % 64, k / 64;
    assert (y + (cy - y) % 32) % 32 == cy;
    assert (x + (cx - x) % 64) % 64 == cx;
  }

  lemma Xor8Zero(a: u8)
    ensures Xor8(a, 0) == a
  {
    assert Pow2(8) == 0x100;
    XorZero(a, 8);
  }

  lemma {:induction false} XorZero(a: nat, width: nat)
    requires a < Pow2(width)
    ensures 0 < Pow2(width) && BitXor(a, 0, width) == a
  {
    if width > 0 {
      XorZero(a / 2, width - 1);
    }
  }

  /** The invariant of the inner loop: after `rows` rows and `bits` bits,
      each cell is its original value XOR-ed with the sprite bit that covers
      it, if any. */
  lemma {:induction false} DrawRowBitsPointwise(p: seq<u8>, sprites: seq<u8>, x: nat, y: nat, rows: nat, bits: nat, k: nat)
    requires |p| == PixelCount && rows < |sprites| <= BaseHeight && bits <= 8 && k < PixelCount
    ensures DrawRowBits(DrawRows(Canvas(p, 0), sprites, x, y, rows), sprites[rows], x, y, rows, bits).pixels[k]
         == Xor8(p[k], if Covered(x, y, k, rows, bits) then Mask(sprites, x, y, k) else 0)
    decreases rows, bits + 1
  {
    var before := DrawRows(Canvas(p, 0), sprites, x, y, rows);
    if bits == 0 {
      DrawRowsPointwise(p, sprites, x, y, rows, k);
      assert Covered(x, y, k, rows, 0) == (RowOf(y, k) < rows && BitOf(x, k) < 8);
    } else {
      var mid := DrawRowBits(before, sprites[rows], x, y, rows, bits - 1);
      var t := Target(x, y, rows, bits - 1);
      assert DrawRowBits(before, sprites[rows], x, y, rows, bits).pixels
          == mid.pixels[t := Xor8(mid.pixels[t], SpriteBit(sprites[rows], bits - 1))];
      TargetCoordinates(x, y, rows, bits - 1);
      if k == t {
        DrawRowBitsPointwise(p, sprites, x, y, rows, bits - 1, t);
        assert !Covered(x, y, t, rows, bits - 1);
        Xor8Zero(p[t]);
        assert Covered(x, y, t, rows, bits);
        assert Mask(sprites, x, y, t) == SpriteBit(sprites[rows], bits - 1);
      } else {
        DrawRowBitsPointwise(p, sprites, x, y, rows, bits - 1, k);
        StillCovered(x, y, rows, bits, k);
      }
    }
  }

  /** Any other cell is covered after step (rows, bits - 1) iff it was before. */
  lemma StillCovered(x: nat, y: nat, rows: nat, bits: nat, k: nat)
    requires k < PixelCount && rows < BaseHeight && 0 < bits <= 8 && k != Target(x, y, rows, bits - 1)
    ensures Covered(x, y, k, rows, bits) == Covered(x, y, k, rows, bits - 1)
  {
    if RowOf(y, k) == rows && BitOf(x, k) == bits - 1 {
      TargetUnique(x, y, k);
    }
  }

  /** The invariant of the outer loop. */
  lemma {:induction false} DrawRowsPointwise(p: seq<u8>, sprites: seq<u8>, x: nat, y: nat, rows: nat, k: nat)
    requires |p| == PixelCount && rows <= |sprites| <= BaseHeight && k < PixelCount
    ensures DrawRows(Canvas(p, 0), sprites, x, y, rows).pixels[k]
         == Xor8(p[k], if RowOf(y, k) < rows && BitOf(x, k) < 8 then Mask(sprites, x, y, k) else 0)
    decreases rows, 0
  {
    if rows == 0 {
      Xor8Zero(p[k]);
    } else {
      DrawRowBitsPointwise(p, sprites, x, y, rows - 1, 8, k);
      assert Covered(x, y, k, rows - 1, 8) == (RowOf(y, k) < rows && BitOf(x, k) < 8);
    }
  }

  /** After the draw, each cell is its old value XOR-ed with the sprite bit
      that lands on it; cells the sprite does not cover are unchanged. */
  lemma DrawPointwise(p: seq<u8>, sprites: seq<u8>, x: nat, y: nat, k: nat)
    requires |p| == PixelCount && |sprites| <= BaseHeight && k < PixelCount
    ensures Draw(p, sprites, x, y).pixels[k] == Xor8(p[k], Mask(sprites, x, y, k))
  {
    DrawRowsPointwise(p, sprites, x, y, |sprites|, k);
  }

  /** The pixel at `((x + bit) mod 64, (y + row) mod 32)` becomes its old
      value XOR the sprite bit; nothing outside the sprite's 8 x n box moves. */
  lemma DrawTouches(p: seq<u8>, sprites: seq<u8>, x: nat, y: nat)
    requires |p| == PixelCount && |sprites| <= BaseHeight
    ensures forall row, bit :: 0 <= row < |sprites| && 0 <= bit < 8 ==>
      Draw(p, sprites, x, y).pixels[Target(x, y, row, bit)]
        == Xor8(p[Target(x, y, row, bit)], SpriteBit(sprites[row], bit))
    ensures forall k :: 0 <= k < PixelCount && Mask(sprites, x, y, k) == 0 ==>
      Draw(p, sprites, x, y).pixels[k] == p[k]
  {
    forall row, bit | 0 <= row < |sprites| && 0 <= bit < 8
      ensures Draw(p, sprites, x, y).pixels[Target(x, y, row, bit)]
        == Xor8(p[Target(x, y, row, bit)], SpriteBit(sprites[row], bit))
    {
      TargetCoordinates(x, y, row, bit);
      DrawPointwise(p, sprites, x, y, Target(x, y, row, bit));
    }
    forall k | 0 <= k < PixelCount && Mask(sprites, x, y, k) == 0
      ensures Draw(p, sprites, x, y).pixels[k] == p[k]
    {
      DrawPointwise(p, sprites, x, y, k);
      Xor8Zero(p[k]);
    }
  }

  /** Drawing the same sprite twice at the same place restores the screen. */
  lemma DrawTwiceRestores(p: seq<u8>, sprites: seq<u8>, x: nat, y: nat)
    requires |p| == PixelCount && |sprites| <= BaseHeight
    ensures Draw(Draw(p, sprites, x, y).pixels, sprites, x, y).pixels == p
  {
    var once := Draw(p, sprites, x, y).pixels;
    var twice := Draw(once, sprites, x, y).pixels;
    forall k | 0 <= k < PixelCount
      ensures twice[k] == p[k]
    {
      DrawPointwise(p, sprites, x, y, k);
      DrawPointwise(once, sprites, x, y, k);
      Xor8Twice(p[k], Mask(sprites, x, y, k));
    }
  }

  /** A screen of 0s and 1s stays a screen of 0s and 1s. */
  lemma DrawKeepsBits(p: seq<u8>, sprites: seq<u8>, x: nat, y: nat)
    requires |p| == PixelCount && |sprites| <= BaseHeight
    requires forall k :: 0 <= k < |p| ==> p[k] <= 1
    ensures forall k :: 0 <= k < PixelCount ==> Draw(p, sprites, x, y).pixels[k] <= 1
  {
    forall k | 0 <= k < PixelCount
      ensures Draw(p, sprites, x, y).pixels[k] <= 1
    {
      DrawPointwise(p, sprites, x, y, k);
      BitTables(p[k], Mask(sprites, x, y, k));
    }
  }

  /** VF after the draw is `pixel & sprite_bit` of the LAST pixel drawn
      (bit 7 of the last row) against the screen as it was before the draw,
      and 0 for an empty sprite: earlier collisions are overwritten. */
  lemma DrawFlag(p: seq<u8>, sprites: seq<u8>, x: nat, y: nat)
    requires |p| == PixelCount && |sprites| <= BaseHeight
    ensures Draw(p, sprites, x, y).vf ==
      if |sprites| == 0 then 0
      else And8(p[Target(x, y, |sprites| - 1, 7)], SpriteBit(sprites[|sprites| - 1], 7))
  {
    if |sprites| > 0 {
      var last := |sprites| - 1;
      var t := Target(x, y, last, 7);
      TargetCoordinates(x, y, last, 7);
      DrawRowBitsPointwise(p, sprites, x, y, last, 7, t);
      Xor8Zero(p[t]);
    }
  }

  /** The flag can miss a collision: a lit top-left pixel under the sprite
      byte 0x80 is turned off, yet VF ends up 0 because the last pixel of the
      row (bit 7, which is 0 in 0x80) overwrote it. */
  lemma CollisionOverwritten(p: seq<u8>)
    requires |p| == PixelCount && p[0] == 1 && p[7] == 0
    ensures Draw(p, [0x80], 0, 0).pixels[0] == 0
    ensures Draw(p, [0x80], 0, 0).vf == 0
  {
    assert Pow2(7) == 128 && Pow2(0) == 1;
    assert SpriteBit(0x80, 0) == 1 && SpriteBit(0x80, 7) == 0;
    assert Target(0, 0, 0, 0) == 0 && Target(0, 0, 0, 7) == 7;
    DrawTouches(p, [0x80], 0, 0);
    BitTables(1, 1);
    DrawFlag(p, [0x80], 0, 0);
    BitTables(0, 0);
  }
}

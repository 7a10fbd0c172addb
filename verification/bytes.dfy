/** Fixed-width unsigned integers of the emulator and the bitwise operators
    on them.  The widths are subset types of `int`; the bitwise operators
    (Rust's `&`, `|`, `^`) are defined bit by bit, least significant bit
    first, so that every fact about them is an ordinary arithmetic fact. */
module Bytes {

  type u8 = x: int | 0 <= x < 0x100
  type u16 = x: int | 0 <= x < 0x1_0000
  type u32 = x: int | 0 <= x < 0x1_0000_0000

  /** A 4-bit field of an instruction word: a register index or a small immediate. */
  type nibble = x: int | 0 <= x < 0x10

  function Pow2(k: nat): (r: nat)
    ensures 1 <= r
  {
    if k == 0 then 1 else 2 * Pow2(k - 1)
  }

  /** Bitwise AND of two `width`-bit numbers. */
  function BitAnd(a: nat, b: nat, width: nat): (r: nat)
    requires a < Pow2(width) && b < Pow2(width)
    ensures r < Pow2(width)
    ensures r <= a && r <= b
  {
    if width == 0 then 0
    else 2 * BitAnd(a / 2, b / 2, width - 1) + (if a % 2 == 1 && b % 2 == 1 then 1 else 0)
  }

  /** Bitwise OR of two `width`-bit numbers. */
  function BitOr(a: nat, b: nat, width: nat): (r: nat)
    requires a < Pow2(width) && b < Pow2(width)
    ensures r < Pow2(width)
    ensures a <= r && b <= r
  {
    if width == 0 then 0
    else 2 * BitOr(a / 2, b / 2, width - 1) + (if a % 2 == 1 || b % 2 == 1 then 1 else 0)
  }

  /** Bitwise exclusive OR of two `width`-bit numbers. */
  function BitXor(a: nat, b: nat, width: nat): (r: nat)
    requires a < Pow2(width) && b < Pow2(width)
    ensures r < Pow2(width)
    ensures r == 0 <==> a == b
  {
    if width == 0 then 0
    else 2 * BitXor(a / 2, b / 2, width - 1) + (if a % 2 == b % 2 then 0 else 1)
  }

  function And8(a: u8, b: u8): (r: u8)
    ensures r <= a && r <= b
  {
    assert Pow2(8) == 0x100;
    BitAnd(a, b, 8)
  }

  function Or8(a: u8, b: u8): (r: u8)
    ensures a <= r && b <= r
  {
    assert Pow2(8) == 0x100;
    BitOr(a, b, 8)
  }

  function Xor8(a: u8, b: u8): (r: u8)
    ensures r == 0 <==> a == b
  {
    assert Pow2(8) == 0x100;
    BitXor(a, b, 8)
  }

  /** XOR-ing with the same value twice gives back the original. */
  lemma {:induction false} BitXorTwice(a: nat, b: nat, width: nat)
    requires a < Pow2(width) && b < Pow2(width)
    ensures BitXor(BitXor(a, b, width), b, width) == a
  {
    if width > 0 {
      BitXorTwice(a / 2, b / 2, width - 1);
      assert BitXor(a, b, width) / 2 == BitXor(a / 2, b / 2, width - 1);
    }
  }

  lemma Xor8Twice(a: u8, b: u8)
    ensures Xor8(Xor8(a, b), b) == a
  {
    assert Pow2(8) == 0x100;
    BitXorTwice(a, b, 8);
  }

  /** The lowest bit of `a & b` and the bits above it. */
  lemma BitAndHalves(a: nat, b: nat, width: nat)
    requires 0 < width && a < Pow2(width) && b < Pow2(width)
    ensures BitAnd(a, b, width) / 2 == BitAnd(a / 2, b / 2, width - 1)
    ensures BitAnd(a, b, width) % 2 == if a % 2 == 1 && b % 2 == 1 then 1 else 0
  {
  }

  /** The complement `2^width - 1 - m` flips the lowest bit of `m` and
      complements the bits above it. */
  lemma ComplementHalves(m: nat, width: nat)
    requires 0 < width && m < Pow2(width)
    ensures (Pow2(width) - 1 - m) / 2 == Pow2(width - 1) - 1 - m / 2
    ensures (Pow2(width) - 1 - m) % 2 == 1 - m % 2
  {
    var h := Pow2(width - 1) - 1 - m / 2;
    assert Pow2(width) - 1 - m == 2 * h + (1 - m % 2);
  }

  /** `a & m` has no bit outside `m`: `(a & m) & !m == 0`, where `!m` is
      the `width`-bit complement `2^width - 1 - m`. */
  lemma {:induction false} BitAndWithinMask(a: nat, m: nat, width: nat)
    requires a < Pow2(width) && m < Pow2(width)
    ensures BitAnd(BitAnd(a, m, width), Pow2(width) - 1 - m, width) == 0
  {
    if width > 0 {
      BitAndWithinMask(a / 2, m / 2, width - 1);
      var x := BitAnd(a, m, width);
      var c := Pow2(width) - 1 - m;
      BitAndHalves(a, m, width);
      ComplementHalves(m, width);
      BitAndHalves(x, c, width);
    }
  }

  lemma And8WithinMask(a: u8, m: u8)
    ensures And8(And8(a, m), 0xFF - m) == 0
  {
    assert Pow2(8) == 0x100;
    BitAndWithinMask(a, m, 8);
  }

  /** On single bits the operators are the truth tables of the source's
      pixel arithmetic: `p & b` is 1 exactly when both are, `p ^ b` flips
      `p` exactly when `b` is 1, and the result is again a bit. */
  lemma BitTables(p: u8, b: u8)
    requires p <= 1 && b <= 1
    ensures And8(p, b) == (if p == 1 && b == 1 then 1 else 0)
    ensures Xor8(p, b) == (if p == b then 0 else 1)
  {
    assert Pow2(8) == 0x100;
    assert p / 2 == 0 && b / 2 == 0;
    assert BitAnd(0, 0, 7) == 0 && BitXor(0, 0, 7) == 0 by {
      ZeroOps(7);
    }
  }

  lemma {:induction false} ZeroOps(width: nat)
    ensures BitAnd(0, 0, width) == 0 && BitXor(0, 0, width) == 0
  {
    if width > 0 {
      ZeroOps(width - 1);
    }
  }
}

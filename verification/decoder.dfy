/** The instruction decoder: a 16-bit instruction word split into its four
    nibbles and the derived fields.  Both CPU versions decode the same way.
    Rust's `(op & 0xF000) >> 12`, `(op & 0x0F00) >> 8`, `(op & 0x00F0) >> 4`
    and `op & 0x000F` are written as division and remainder by powers of 16. */
module Decoder {
  import opened Bytes

  datatype Fields = Fields(
    op0: nibble, op1: nibble, op2: nibble, op3: nibble,
    nnn: int,   // 12-bit address, nibbles 1-3
    nn: u8,     // 8-bit immediate, nibbles 2-3
    n: nibble,  // 4-bit immediate, nibble 3
    vx: nibble, // first register index, nibble 1
    vy: nibble  // second register index, nibble 2
  )

  /** Decoding is total: every word decodes, the nibbles reassemble the word,
      and the derived fields are the masks `op & 0x0FFF`, `op & 0xFF`,
      `op & 0xF` and the nibbles `(op >> 8) & 0xF`, `(op >> 4) & 0xF`. */
  function Decode(op: u16): (f: Fields)
    ensures op == f.op0 * 0x1000 + f.op1 * 0x100 + f.op2 * 0x10 + f.op3
    ensures f.nnn == op % 0x1000 && f.nnn < 0x1000
    ensures f.nn == op % 0x100
    ensures f.n == op % 0x10 && f.n == f.op3
    ensures f.vx == (op / 0x100) % 0x10 && f.vx == f.op1
    ensures f.vy == (op / 0x10) % 0x10 && f.vy == f.op2
    ensures f.op0 == op / 0x1000
  {
    NibbleArithmetic(op);
    var op0, op1, op2, op3 := op / 0x1000, (op / 0x100) % 0x10, (op / 0x10) % 0x10, op % 0x10;
    Fields(op0, op1, op2, op3,
           op1 * 0x100 + op2 * 0x10 + op3,
           op2 * 0x10 + op3,
           op3, op1, op2)
  }

  /** Peeling off one hexadecimal digit at a time. */
  lemma NibbleArithmetic(op: u16)
    ensures op == (op / 0x10) * 0x10 + op % 0x10
    ensures op / 0x10 == (op / 0x100) * 0x10 + (op / 0x10) % 0x10
    ensures op / 0x100 == (op / 0x1000) * 0x10 + (op / 0x100) % 0x10
    ensures op % 0x100 == ((op / 0x10) % 0x10) * 0x10 + op % 0x10
    ensures op % 0x1000 == ((op / 0x100) % 0x10) * 0x100 + op % 0x100
    ensures op / 0x1000 < 0x10
  {
    var d1 := op / 0x10;
    var d2 := d1 / 0x10;
    var d3 := d2 / 0x10;
    assert d2 == op / 0x100;
    assert d3 == op / 0x1000;
  }

  /** The sample words of the IBM logo ROM decode to the fields the
      instruction table expects. */
  lemma DecodeSamples()
    ensures Decode(0x00E0).op0 == 0x0 && Decode(0x00E0).op2 == 0xE && Decode(0x00E0).op3 == 0x0
    ensures Decode(0xA22A).op0 == 0xA && Decode(0xA22A).nnn == 0x22A
    ensures Decode(0x600C).vx == 0 && Decode(0x600C).nn == 0x0C
    ensures Decode(0xD01F).vx == 0 && Decode(0xD01F).vy == 1 && Decode(0xD01F).n == 0xF
  {
  }
}

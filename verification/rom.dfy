/** The memory image: the built-in font table, the fixed load addresses,
    copying bytes into memory, and the pairing of ROM bytes into
    big-endian instruction words.  Both CPU versions share these. */
module Rom {
  import opened Bytes

  const MemorySize: nat := 4096
  /** Where `init_fonts` puts the font table. */
  const FontStart: nat := 0x050
  /** Where `load_rom_into_memory` puts the program, and the initial PC. */
  const ProgramStart: nat := 0x200
  /** The largest ROM that fits between `ProgramStart` and the end of memory. */
  const MaxRomSize: nat := MemorySize - ProgramStart

  /** Sixteen hexadecimal digit glyphs, five rows of 4 pixels (high nibble) each,
      written glyph by glyph. */
  const Fonts: seq<u8> :=
    [0xF0, 0x90, 0x90, 0x90, 0xF0] + // 0
    [0x20, 0x60, 0x20, 0x20, 0x70] + // 1
    [0xF0, 0x10, 0xF0, 0x80, 0xF0] + // 2
    [0xF0, 0x10, 0xF0, 0x10, 0xF0] + // 3
    [0x90, 0x90, 0xF0, 0x10, 0x10] + // 4
    [0xF0, 0x80, 0xF0, 0x10, 0xF0] + // 5
    [0xF0, 0x80, 0xF0, 0x90, 0xF0] + // 6
    [0xF0, 0x10, 0x20, 0x40, 0x40] + // 7
    [0xF0, 0x90, 0xF0, 0x90, 0xF0] + // 8
    [0xF0, 0x90, 0xF0, 0x10, 0xF0] + // 9
    [0xF0, 0x90, 0xF0, 0x90, 0x90] + // A
    [0xE0, 0x90, 0xE0, 0x90, 0xE0] + // B
    [0xF0, 0x80, 0x80, 0x80, 0xF0] + // C
    [0xE0, 0x90, 0x90, 0x90, 0xE0] + // D
    [0xF0, 0x80, 0xF0, 0x80, 0xF0] + // E
    [0xF0, 0x80, 0xF0, 0x80, 0x80]   // F

  /** `mem` with `data` written from address `base` on. */
  function Overlay(mem: seq<u8>, base: nat, data: seq<u8>): (r: seq<u8>)
    requires base + |data| <= |mem|
    ensures |r| == |mem|
    ensures r[base..base + |data|] == data
    ensures r[..base] == mem[..base] && r[base + |data|..] == mem[base + |data|..]
  {
    seq(|mem|, k requires 0 <= k < |mem| => if base <= k < base + |data| then data[k - base] else mem[k])
  }

  /** Memory as `CPU::new` leaves it: the font table at 0x050, the ROM at
      0x200, zero everywhere else. */
  function InitialMemory(rom: seq<u8>): (m: seq<u8>)
    requires |rom| <= MaxRomSize
    ensures |m| == MemorySize
    ensures m[FontStart..FontStart + |Fonts|] == Fonts
    ensures m[ProgramStart..ProgramStart + |rom|] == rom
    ensures forall a :: 0 <= a < FontStart ==> m[a] == 0
    ensures forall a :: FontStart + |Fonts| <= a < ProgramStart ==> m[a] == 0
    ensures forall a :: ProgramStart + |rom| <= a < MemorySize ==> m[a] == 0
  {
    var withFonts := Overlay(seq(MemorySize, _ => 0), FontStart, Fonts);
    var m := Overlay(withFonts, ProgramStart, rom);
    assert forall a :: 0 <= a < ProgramStart ==> m[a] == m[..ProgramStart][a] == withFonts[a];
    assert m[FontStart..FontStart + |Fonts|] == withFonts[FontStart..FontStart + |Fonts|];
    assert forall a :: 0 <= a < FontStart ==> withFonts[a] == withFonts[..FontStart][a];
    assert forall a :: FontStart + |Fonts| <= a < MemorySize ==> withFonts[a] == withFonts[FontStart + |Fonts|..][a - (FontStart + |Fonts|)];
    assert forall a :: ProgramStart + |rom| <= a < MemorySize ==> m[a] == m[ProgramStart + |rom|..][a - (ProgramStart + |rom|)];
    m
  }

  /** The big-endian word `(hi << 8) | lo`; the two bytes occupy disjoint bits. */
  function Word(hi: u8, lo: u8): (w: u16)
    ensures w / 0x100 == hi && w % 0x100 == lo
  {
    hi * 0x100 + lo
  }

  /** Copy `data` into `mem` from `base` on, one byte at a time, touching no
      other cell (the loops of `init_fonts` and `load_rom_into_memory`). */
  method CopyInto(mem: array<u8>, base: nat, data: seq<u8>)
    requires base + |data| <= mem.Length
    modifies mem
    ensures mem[..] == Overlay(old(mem[..]), base, data)
  {
    for i := 0 to |data|
      invariant forall k :: 0 <= k < mem.Length ==>
        mem[k] == (if base <= k < base + i then data[k - base] else old(mem[k]))
    {
      mem[base + i] := data[i];
    }
    assert forall k :: 0 <= k < mem.Length ==> mem[..][k] == Overlay(old(mem[..]), base, data)[k];
  }

  /** Pair the bytes of a ROM into big-endian words; an odd trailing byte is
      dropped.  (`convert_rom_to_opcodes`.) */
  method ConvertRomToOpcodes(rom: seq<u8>) returns (ops: seq<u16>)
    ensures |ops| == |rom| / 2
    ensures forall k :: 0 <= k < |ops| ==> ops[k] == rom[2 * k] as int * 0x100 + rom[2 * k + 1]
  {
    ops := [];
    for index := 0 to |rom| / 2
      invariant |ops| == index
      invariant forall k :: 0 <= k < index ==> ops[k] == rom[2 * k] as int * 0x100 + rom[2 * k + 1]
    {
      var val0 := rom[2 * index];
      var val1 := rom[2 * index + 1];
      ops := ops + [Word(val0, val1)];
    }
  }

  /** Reading the words back: each byte of an even-length ROM is a byte of
      the corresponding word, so no information is lost. */
  lemma OpcodesRecoverRom(rom: seq<u8>, ops: seq<u16>)
    requires |ops| == |rom| / 2
    requires forall k :: 0 <= k < |ops| ==> ops[k] == rom[2 * k] as int * 0x100 + rom[2 * k + 1]
    ensures forall j :: 0 <= j < 2 * |ops| ==>
      rom[j] == (if j % 2 == 0 then ops[j / 2] / 0x100 else ops[j / 2] % 0x100)
  {
    forall j | 0 <= j < 2 * |ops|
      ensures rom[j] == (if j % 2 == 0 then ops[j / 2] / 0x100 else ops[j / 2] % 0x100)
    {
      var k := j / 2;
      assert ops[k] == Word(rom[2 * k], rom[2 * k + 1]);
    }
  }

  /** The first twelve bytes of the IBM logo ROM give the words the source's
      test expects. */
  method IbmLogoPrefix() returns (ops: seq<u16>)
    ensures ops == [0x00E0, 0xA22A, 0x600C, 0x6108, 0xD01F, 0x7009]
  {
    ops := ConvertRomToOpcodes([0x00, 0xE0, 0xA2, 0x2A, 0x60, 0x0C, 0x61, 0x08, 0xD0, 0x1F, 0x70, 0x09]);
  }
}

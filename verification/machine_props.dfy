/** Properties of the reference semantics that relate several instructions,
    or an instruction and the initial state, and the behaviours the source's
    own unit tests pin down. */
module MachineProps {
  import opened Bytes
  import opened Decoder
  import Rom
  import Display
  import Sprite
  import opened Machine

  /** 2NNN followed by 00EE comes back to the calling instruction with the
      stack pointer where it was; only the stack slot written by the call
      differs. */
  lemma CallThenReturn(s: State, address: u16)
    requires s.Wf() && s.sp < 16
    ensures CallSubroutineAtAddress(s, address).status.Running?
    ensures
      var called := CallSubroutineAtAddress(s, address).next;
      var back := ReturnFromSubroutine(called);
      called.pc == address && back.status.Running? &&
      back.next == s.(stack := s.stack[s.sp := s.pc])
  {
  }

  /** The same round trip through the decoder: executing the words 2NNN and
      00EE. */
  lemma CallThenReturnWords(s: State, nnn: int, rnd: u8)
    requires s.Wf() && s.sp < 16 && 0 <= nnn < 0x1000
    ensures Execute(s, 0x2000 + nnn, rnd).status.Running?
    ensures
      var called := Execute(s, 0x2000 + nnn, rnd).next;
      var back := Execute(called, 0x00EE, rnd);
      called.pc == nnn && called.sp == s.sp + 1 &&
      back.status.Running? && back.next.pc == s.pc && back.next.sp == s.sp
  {
    var f := Decode(0x2000 + nnn);
    assert f.op0 == 2 && f.nnn == nnn;
    var g := Decode(0x00EE);
    assert g.op0 == 0 && g.op1 == 0 && g.op2 == 0xE && g.op3 == 0xE;
  }

  /** A stack holds at most 16 return addresses: the 17th nested call panics. */
  lemma CallOnFullStackPanics(s: State, address: u16)
    requires s.Wf() && s.sp == 16
    ensures CallSubroutineAtAddress(s, address) == Outcome(Halted(IndexOutOfBounds), s)
  {
  }

  /** FX55 then FX65 with the same I and x gives every register back, and
      the memory stays as FX55 left it. */
  lemma StoreThenRead(s: State, x: nibble)
    requires s.Wf() && s.i + x < Rom.MemorySize && s.pc <= 0xFFFB
    ensures
      var stored := StoreVRegInMemoryFromIndReg(s, x);
      var read := ReadVRegFromIndReg(stored.next, x);
      stored.status.Running? && read.status.Running? &&
      read.next == stored.next.(pc := s.pc + 4)
  {
    var stored := StoreVRegInMemoryFromIndReg(s, x).next;
    var read := ReadVRegFromIndReg(stored, x).next;
    assert read.v[..x + 1] == s.v[..x + 1];
    assert read.v == read.v[..x + 1] + read.v[x + 1..];
    assert s.v == s.v[..x + 1] + s.v[x + 1..];
  }

  /** FX65 then FX55 with the same I and x writes back exactly the bytes
      it read: memory is unchanged. */
  lemma ReadThenStore(s: State, x: nibble)
    requires s.Wf() && s.i + x < Rom.MemorySize && s.pc <= 0xFFFB
    ensures
      var read := ReadVRegFromIndReg(s, x);
      var stored := StoreVRegInMemoryFromIndReg(read.next, x);
      read.status.Running? && stored.status.Running? &&
      stored.next.memory == s.memory && stored.next.v == read.next.v
  {
    var read := ReadVRegFromIndReg(s, x).next;
    var stored := StoreVRegInMemoryFromIndReg(read, x).next;
    forall a | 0 <= a < Rom.MemorySize
      ensures stored.memory[a] == s.memory[a]
    {
      if s.i <= a <= s.i + x {
        assert stored.memory[a] == stored.memory[s.i..s.i + x + 1][a - s.i];
        assert s.memory[a] == s.memory[s.i..s.i + x + 1][a - s.i];
      }
    }
  }

  /** FX33 on 143 writes 1, 4, 3 (the source's test), and every byte value
      is recovered from its three digits. */
  lemma BcdOf143(s: State, x: nibble)
    requires s.Wf() && s.v[x] == 143 && s.i + 2 < Rom.MemorySize && s.pc <= 0xFFFD
    ensures
      var r := StoreBcdVxInIndReg(s, x);
      r.status.Running? && r.next.memory[s.i] == 1 && r.next.memory[s.i + 1] == 4 && r.next.memory[s.i + 2] == 3
  {
    var r := StoreBcdVxInIndReg(s, x);
    assert r.next.memory[s.i..s.i + 3] == [1, 4, 3];
    assert r.next.memory[s.i] == r.next.memory[s.i..s.i + 3][0];
    assert r.next.memory[s.i + 1] == r.next.memory[s.i..s.i + 3][1];
    assert r.next.memory[s.i + 2] == r.next.memory[s.i..s.i + 3][2];
  }

  /** The source's CXNN test: with mask 0x0F, no high bit survives,
      whatever byte was drawn. */
  lemma RandomMaskedByLowNibble(s: State, rnd: u8)
    requires s.Wf() && s.pc <= 0xFFFD
    ensures And8(SetVxToRndAndNn(s, 0, 0x0F, rnd).next.v[0], 0xF0) == 0
  {
  }

  /** DXYN drawn twice with the same operands leaves the screen as it was,
      provided neither coordinate register is VF (which the first draw
      overwrites with the collision flag). */
  lemma DrawSpriteTwiceRestores(s: State, x: nibble, y: nibble, n: nibble)
    requires s.Wf() && x != Flag && y != Flag && s.pc <= 0xFFFB
    requires DisplaySprite(s, x, y, n).status.Running?
    ensures
      var once := DisplaySprite(s, x, y, n).next;
      var twice := DisplaySprite(once, x, y, n);
      twice.status.Running? && twice.next.pixels == s.pixels
  {
    var once := DisplaySprite(s, x, y, n).next;
    assert once.v[x] == s.v[x] && once.v[y] == s.v[y];
    assert SpriteRows(once, n) == SpriteRows(s, n);
    Sprite.DrawTwiceRestores(s.pixels, SpriteRows(s, n), s.v[x], s.v[y]);
  }

  /** FX29 points I at Vx * 5: for every digit the five bytes there lie
      wholly below the font table at 0x050, and in the initial machine they
      are zero, so the digit would be drawn blank. */
  lemma FontPointerMissesGlyph(rom: seq<u8>, d: u8)
    requires |rom| <= Rom.MaxRomSize && d < 16
    ensures
      var s := Initial(rom).(v := Initial(rom).v[0 := d]);
      var r := SetIndRegToLocOfSpriteForDigitVx(s, 0);
      r.status.Running? && r.next.i == d as int * 5 && r.next.i + 5 <= Rom.FontStart &&
      r.next.memory[r.next.i..r.next.i + 5] == [0, 0, 0, 0, 0]
  {
    var m := Rom.InitialMemory(rom);
    var a := d as int * 5;
    assert m[a] == 0 && m[a + 1] == 0 && m[a + 2] == 0 && m[a + 3] == 0 && m[a + 4] == 0;
    assert m[a..a + 5] == [m[a], m[a + 1], m[a + 2], m[a + 3], m[a + 4]];
  }

  /** Words that no pattern of the dispatcher matches change nothing, not
      even PC: a machine that meets one executes it for ever. */
  lemma UnknownWordsAreNoOps(s: State, op: u16, rnd: u8)
    requires s.Wf()
    requires (op < 0x1000 && op != 0x00E0 && op != 0x00EE) ||
             (op / 0x1000 == 0x8 && op % 0x10 in {0x8, 0x9, 0xA, 0xB, 0xC, 0xD, 0xF}) ||
             (op / 0x1000 == 0xE && op % 0x100 !in {0x9E, 0xA1}) ||
             (op / 0x1000 == 0xF && op % 0x100 !in {0x07, 0x0A, 0x15, 0x18, 0x1E, 0x29, 0x33, 0x55, 0x65})
    ensures Execute(s, op, rnd) == Outcome(Running, s)
  {
    var f := Decode(op);
    if op < 0x1000 {
      assert f.op0 == 0;
      assert !(f.op1 == 0 && f.op2 == 0xE && f.op3 == 0x0);
      assert !(f.op1 == 0 && f.op2 == 0xE && f.op3 == 0xE);
    }
  }

  /** The stack pointer never passes 16: 2NNN refuses to push a 17th
      address. */
  lemma ExecuteKeepsStackBound(s: State, op: u16, rnd: u8)
    requires s.Wf() && s.sp <= 16
    ensures Execute(s, op, rnd).next.sp <= 16
  {
  }

  /** A screen of 0s and 1s stays one: 00E0 darkens it and DXYN only
      XORs cells with sprite bits. */
  lemma ExecuteKeepsBits(s: State, op: u16, rnd: u8)
    requires s.Wf() && AllBits(s.pixels)
    ensures AllBits(Execute(s, op, rnd).next.pixels)
  {
  }

  /** In the initial machine PC sits on the first ROM word, and the word at
      0x200 + 2k is the k-th word of `convert_rom_to_opcodes`. */
  lemma FetchReadsRomWords(rom: seq<u8>, k: nat)
    requires |rom| <= Rom.MaxRomSize && k < |rom| / 2
    ensures Initial(rom).pc == Rom.ProgramStart
    ensures Fetch(Initial(rom).(pc := Rom.ProgramStart + 2 * k)) == Ok(rom[2 * k] as int * 0x100 + rom[2 * k + 1])
  {
    var s := Initial(rom);
    var a := Rom.ProgramStart + 2 * k;
    assert s.memory[a] == s.memory[Rom.ProgramStart..Rom.ProgramStart + |rom|][2 * k];
    assert s.memory[a + 1] == s.memory[Rom.ProgramStart..Rom.ProgramStart + |rom|][2 * k + 1];
  }

  /** The first two steps of the IBM logo program: 00E0 clears the screen,
      A22A points I at the logo data. */
  lemma IbmLogoFirstSteps(rnd: u8)
    ensures
      var rom: seq<u8> := [0x00, 0xE0, 0xA2, 0x2A, 0x60, 0x0C, 0x61, 0x08, 0xD0, 0x1F, 0x70, 0x09];
      var s0 := Initial(rom);
      var s1 := Step(s0, rnd);
      var s2 := Step(s1.next, rnd);
      s1.status.Running? && s1.next.pc == 0x202 && s1.next.pixels == Display.Blank() &&
      s2.status.Running? && s2.next.pc == 0x204 && s2.next.i == 0x22A
  {
    var rom: seq<u8> := [0x00, 0xE0, 0xA2, 0x2A, 0x60, 0x0C, 0x61, 0x08, 0xD0, 0x1F, 0x70, 0x09];
    FetchReadsRomWords(rom, 0);
    FetchReadsRomWords(rom, 1);
    var s0 := Initial(rom);
    var s1 := Step(s0, rnd).next;
    assert Fetch(s0) == Ok(0x00E0);
    assert Decode(0x00E0).op2 == 0xE;
    assert s1 == s0.(pixels := Display.Blank(), pc := 0x202);
    assert Fetch(s1) == Ok(0xA22A);
    assert Decode(0xA22A).op0 == 0xA && Decode(0xA22A).nnn == 0x22A;
  }

  /** The source's 8XY4/8XY5/8XY7 tests: VF is the carry of the sum and
      the BORROW of a difference. */
  lemma ArithmeticFlagSamples(s: State)
    requires s.Wf() && s.pc <= 0xFFFD
    ensures
      var a := AddVxVy(s.(v := s.v[0 := 0xFF][1 := 0x01]), 0, 1).next;
      a.v[0] == 0 && a.v[Flag] == 1
    ensures
      var b := SubVxVy(s.(v := s.v[0 := 0x03][1 := 0x02]), 0, 1).next;
      b.v[0] == 1 && b.v[Flag] == 0
    ensures
      var c := SubVxVy(s.(v := s.v[0 := 0x00][1 := 0x01]), 0, 1).next;
      c.v[0] == 0xFF && c.v[Flag] == 1
    ensures
      var d := SubVyVx(s.(v := s.v[0 := 0x01][1 := 0x00]), 0, 1).next;
      d.v[0] == 0xFF && d.v[Flag] == 1
  {
  }

  /** When the target register is VF itself the two writes collide: for
      8FY4 the flag is written last and wins, for 8FY6 the shifted value is
      written last and wins. */
  lemma FlagRegisterWriteOrder(s: State, y: nibble)
    requires s.Wf() && s.pc <= 0xFFFD
    ensures AddVxVy(s, Flag, y).next.v[Flag] == if s.v[Flag] as int + s.v[y] > 0xFF then 1 else 0
    ensures ShiftVxRight(s, Flag).next.v[Flag] == s.v[Flag] / 2
    ensures ShiftVxLeft(s, Flag).next.v[Flag] == (s.v[Flag] as int * 2) % 0x100
  {
  }

  /** The skip instructions as the code has them: a skip moves PC by 4 and
      a non-skip by 2 (the source's tests expect a non-skip to leave PC at
      0x200, which the code does not do). */
  lemma SkipSamples(rom: seq<u8>)
    requires |rom| <= Rom.MaxRomSize
    ensures
      var s := Initial(rom).(v := Initial(rom).v[0 := 0xCC]);
      SkipIfVxEqNn(s, 0, 0xCD).next.pc == 0x202 && SkipIfVxEqNn(s, 0, 0xCC).next.pc == 0x204 &&
      SkipIfVxNeqNn(s, 0, 0xCC).next.pc == 0x202 && SkipIfVxNeqNn(s, 0, 0xCD).next.pc == 0x204
  {
  }

  /** BNNN can jump past the end of memory (0xFF + 0xFFF = 0x10FE); the
      next fetch then panics. */
  lemma JumpPastMemory(s: State)
    requires s.Wf() && s.v[0] == 0xFF
    ensures JumpToV0PlusAddress(s, 0xFFF).next.pc == 0x10FE
    ensures Fetch(JumpToV0PlusAddress(s, 0xFFF).next) == Err(IndexOutOfBounds)
  {
  }
}

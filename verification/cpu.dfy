/** The `CPU` struct of `src/chip8/cpu.rs` as a class whose methods update
    its fields and arrays in place, as the source's `&mut self` methods do.
    Every instruction method is proved to implement the matching function
    of `Machine`: the new state and the status it returns are what that
    function gives for the old state.  A method that would panic returns
    `Halted` and leaves every field as it was. */
module Chip8Cpu {
  import opened Bytes
  import opened Decoder
  import Rom
  import Display
  import Sprite
  import M = Machine

  class Cpu {
    const memory: array<u8>
    const v_reg: array<u8>
    var i_reg: u16
    var delay_reg: u8
    var sound_reg: u8
    var prog_counter: u16
    var stack_ptr: u8
    const stack: array<u16>
    /** The ROM as instruction words, kept for debugging only. */
    const opcodes: seq<u16>
    const display: Display.Display

    ghost predicate Valid()
      reads this, display
    {
      memory.Length == Rom.MemorySize && v_reg.Length == 16 && stack.Length == 16 &&
      display.Valid() &&
      memory != v_reg && memory != display.pixels && v_reg != display.pixels
    }

    /** The machine state the fields hold. */
    ghost function Model(): (s: M.State)
      reads this, memory, v_reg, stack, display, display.pixels
      requires Valid()
      ensures s.Wf()
    {
      M.State(memory[..], v_reg[..], i_reg, delay_reg, sound_reg, prog_counter, stack_ptr, stack[..], display.pixels[..])
    }

    /** `CPU::new` for a ROM that fits in memory: the words of the ROM are
        kept in `opcodes`, the fonts and the ROM are loaded, and the state
        is `Machine.Initial(rom)`. */
    constructor Init(rom: seq<u8>)
      requires |rom| <= Rom.MaxRomSize
      ensures Valid() && fresh(memory) && fresh(v_reg) && fresh(stack) && fresh(display) && fresh(display.pixels)
      ensures Model() == M.Initial(rom)
      ensures |opcodes| == |rom| / 2
      ensures forall k :: 0 <= k < |opcodes| ==> opcodes[k] == rom[2 * k] as int * 0x100 + rom[2 * k + 1]
    {
      var words := Rom.ConvertRomToOpcodes(rom);
      memory := new u8[Rom.MemorySize](_ => 0);
      v_reg := new u8[16](_ => 0);
      i_reg, delay_reg, sound_reg := 0, 0, 0;
      prog_counter := Rom.ProgramStart;
      stack_ptr := 0;
      stack := new u16[16](_ => 0);
      opcodes := words;
      display := new Display.Display();
      new;
      InitFonts();
      var loaded := LoadRomIntoMemory(rom);
    }

    /** `CPU::new`: `None` stands for the panic of a ROM too large to load. */
    static method New(rom: seq<u8>) returns (cpu: M.Option<Cpu>)
      ensures cpu.Some? <==> |rom| <= Rom.MaxRomSize
      ensures cpu.Some? ==> fresh(cpu.value) && cpu.value.Valid() && cpu.value.Model() == M.Initial(rom)
    {
      if |rom| > Rom.MaxRomSize {
        return M.None;
      }
      var c := new Cpu.Init(rom);
      return M.Some(c);
    }

    /** `init_fonts`: the font table goes to 0x050, nothing else changes. */
    method InitFonts()
      requires Valid()
      modifies memory
      ensures Valid()
      ensures memory[..] == Rom.Overlay(old(memory[..]), Rom.FontStart, Rom.Fonts)
    {
      Rom.CopyInto(memory, Rom.FontStart, Rom.Fonts);
    }

    /** `load_rom_into_memory`: the ROM goes to PC onwards; a byte that would
        land past the end of memory panics. */
    method LoadRomIntoMemory(rom: seq<u8>) returns (status: M.Status)
      requires Valid()
      modifies memory
      ensures Valid()
      ensures status.Running? <==> prog_counter + |rom| <= Rom.MemorySize
      ensures status.Running? ==> memory[..] == Rom.Overlay(old(memory[..]), prog_counter, rom)
      ensures status.Halted? ==> status.panic == M.IndexOutOfBounds && memory[..] == old(memory[..])
    {
      if prog_counter as int + |rom| > Rom.MemorySize {
        return M.Halted(M.IndexOutOfBounds);
      }
      Rom.CopyInto(memory, prog_counter, rom);
      return M.Running;
    }

    /** `fetch_current_instruction` */
    method FetchCurrentInstruction() returns (r: M.Result<u16>)
      requires Valid()
      ensures r == M.Fetch(Model())
    {
      if prog_counter as int + 1 >= Rom.MemorySize {
        return M.Err(M.IndexOutOfBounds);
      }
      r := M.Ok(Rom.Word(memory[prog_counter], memory[prog_counter + 1]));
    }

    /** `run_instruction`: decode and dispatch.  `rnd` is the byte CXNN
        draws from the random source. */
    method RunInstruction(opcode: u16, rnd: u8) returns (status: M.Status)
      requires Valid()
      modifies this, memory, v_reg, stack, display.pixels
      ensures Valid()
      ensures M.Outcome(status, Model()) == M.Execute(old(Model()), opcode, rnd)
    {
      var f := Decode(opcode);
      var vx, vy := f.vx, f.vy;
      match (f.op0, f.op1, f.op2, f.op3)
      case (0x0, 0x0, 0xE, 0x0) => status := ClearDisplay();
      case (0x0, 0x0, 0xE, 0xE) => status := ReturnFromSubroutine();
      case (0x1, _, _, _) => status := JumpToAddress(f.nnn);
      case (0x2, _, _, _) => status := CallSubroutineAtAddress(f.nnn);
      case (0x3, _, _, _) => status := SkipIfVxEqNn(vx, f.nn);
      case (0x4, _, _, _) => status := SkipIfVxNeqNn(vx, f.nn);
      case (0x5, _, _, _) => status := SkipIfVxEqVy(vx, vy);
      case (0x6, _, _, _) => status := SetVxToNn(vx, f.nn);
      case (0x7, _, _, _) => status := AddVxNn(vx, f.nn);
      case (0x8, _, _, 0x0) => status := SetVxToVy(vx, vy);
      case (0x8, _, _, 0x1) => status := SetVxToVxOrVy(vx, vy);
      case (0x8, _, _, 0x2) => status := SetVxToVxAndVy(vx, vy);
      case (0x8, _, _, 0x3) => status := SetVxToVxXorVy(vx, vy);
      case (0x8, _, _, 0x4) => status := AddVxVy(vx, vy);
      case (0x8, _, _, 0x5) => status := SubVxVy(vx, vy);
      case (0x8, _, _, 0x6) => status := ShiftVxRight(vx);
      case (0x8, _, _, 0x7) => status := SubVyVx(vx, vy);
      case (0x8, _, _, 0xE) => status := ShiftVxLeft(vx);
      case (0x9, _, _, _) => status := SkipIfVxNeqVy(vx, vy);
      case (0xA, _, _, _) => status := SetIndRegToAddress(f.nnn);
      case (0xB, _, _, _) => status := JumpToV0PlusAddress(f.nnn);
      case (0xC, _, _, _) => status := SetVxToRndAndNn(vx, f.nn, rnd);
      case (0xD, _, _, _) => status := DisplaySprite(vx, vy, f.n);
      case (0xE, _, 0x9, 0xE) => status := SkipIfKeyEqVxPressed(vx);
      case (0xE, _, 0xA, 0x1) => status := SkipIfKeyEqVxNotPressed(vx);
      case (0xF, _, 0x0, 0x7) => status := SetVxToDelayTimer(vx);
      case (0xF, _, 0x0, 0xA) => status := SetVxToKeyPress(vx);
      case (0xF, _, 0x1, 0x5) => status := SetDelayTimerToVx(vx);
      case (0xF, _, 0x1, 0x8) => status := SetSoundTimerToVx(vx);
      case (0xF, _, 0x1, 0xE) => status := AddIndRegVx(vx);
      case (0xF, _, 0x2, 0x9) => status := SetIndRegToLocOfSpriteForDigitVx(vx);
      case (0xF, _, 0x3, 0x3) => status := StoreBcdVxInIndReg(vx);
      case (0xF, _, 0x5, 0x5) => status := StoreVRegInMemoryFromIndReg(vx);
      case (0xF, _, 0x6, 0x5) => status := ReadVRegFromIndReg(vx);
      case _ => status := M.Running;
    }

    /** `prog_counter += step` with its overflow check. */
    method AdvancePc(step: nat) returns (status: M.Status)
      requires Valid()
      modifies this
      ensures Valid()
      ensures status.Running? <==> old(prog_counter) + step <= 0xFFFF
      ensures status.Running? ==> prog_counter == old(prog_counter) + step
      ensures status.Halted? ==> status.panic == M.AddOverflow && prog_counter == old(prog_counter)
      ensures i_reg == old(i_reg) && delay_reg == old(delay_reg) && sound_reg == old(sound_reg)
      ensures stack_ptr == old(stack_ptr)
    {
      if prog_counter as int + step > 0xFFFF {
        return M.Halted(M.AddOverflow);
      }
      prog_counter := prog_counter + step;
      return M.Running;
    }

    // 00E0
    method ClearDisplay() returns (status: M.Status)
      requires Valid()
      modifies this, display.pixels
      ensures Valid()
      ensures M.Outcome(status, Model()) == M.ClearDisplay(old(Model()))
    {
      if prog_counter > 0xFFFD {
        return M.Halted(M.AddOverflow);
      }
      display.Clear();
      status := AdvancePc(2);
    }

    // 00EE
    method ReturnFromSubroutine() returns (status: M.Status)
      requires Valid()
      modifies this
      ensures Valid()
      ensures M.Outcome(status, Model()) == M.ReturnFromSubroutine(old(Model()))
    {
      if stack_ptr == 0 {
        return M.Halted(M.SubOverflow);
      }
      if stack_ptr - 1 >= 16 {
        return M.Halted(M.IndexOutOfBounds);
      }
      stack_ptr := stack_ptr - 1;
      prog_counter := stack[stack_ptr];
      return M.Running;
    }

    // 1NNN
    method JumpToAddress(address: u16) returns (status: M.Status)
      requires Valid()
      modifies this
      ensures Valid()
      ensures M.Outcome(status, Model()) == M.JumpToAddress(old(Model()), address)
    {
      prog_counter := address;
      return M.Running;
    }

    // 2NNN
    method CallSubroutineAtAddress(address: u16) returns (status: M.Status)
      requires Valid()
      modifies this, stack
      ensures Valid()
      ensures M.Outcome(status, Model()) == M.CallSubroutineAtAddress(old(Model()), address)
    {
      if stack_ptr >= 16 {
        return M.Halted(M.IndexOutOfBounds);
      }
      stack[stack_ptr] := prog_counter;
      stack_ptr := stack_ptr + 1;
      prog_counter := address;
      return M.Running;
    }

    /** The body shared by the four skip instructions. */
    method SkipIf(condition: bool) returns (status: M.Status)
      requires Valid()
      modifies this
      ensures Valid()
      ensures M.Outcome(status, Model()) == M.SkipIf(old(Model()), condition)
    {
      if prog_counter as int + (if condition then 4 else 2) > 0xFFFF {
        return M.Halted(M.AddOverflow);
      }
      if condition {
        prog_counter := prog_counter + 2;
      }
      prog_counter := prog_counter + 2;
      return M.Running;
    }

    // 3XNN
    method SkipIfVxEqNn(vx: nibble, nn: u8) returns (status: M.Status)
      requires Valid()
      modifies this
      ensures Valid()
      ensures M.Outcome(status, Model()) == M.SkipIfVxEqNn(old(Model()), vx, nn)
    {
      status := SkipIf(v_reg[vx] == nn);
    }

    // 4XNN
    method SkipIfVxNeqNn(vx: nibble, nn: u8) returns (status: M.Status)
      requires Valid()
      modifies this
      ensures Valid()
      ensures M.Outcome(status, Model()) == M.SkipIfVxNeqNn(old(Model()), vx, nn)
    {
      status := SkipIf(v_reg[vx] != nn);
    }

    // 5XY0
    method SkipIfVxEqVy(vx: nibble, vy: nibble) returns (status: M.Status)
      requires Valid()
      modifies this
      ensures Valid()
      ensures M.Outcome(status, Model()) == M.SkipIfVxEqVy(old(Model()), vx, vy)
    {
      status := SkipIf(v_reg[vx] == v_reg[vy]);
    }

    // 9XY0
    method SkipIfVxNeqVy(vx: nibble, vy: nibble) returns (status: M.Status)
      requires Valid()
      modifies this
      ensures Valid()
      ensures M.Outcome(status, Model()) == M.SkipIfVxNeqVy(old(Model()), vx, vy)
    {
      status := SkipIf(v_reg[vx] != v_reg[vy]);
    }

    /** Write one register and move on. */
    method SetRegister(vx: nibble, value: u8) returns (status: M.Status)
      requires Valid()
      modifies this, v_reg
      ensures Valid()
      ensures M.Outcome(status, Model()) == M.SetRegister(old(Model()), vx, value)
    {
      if prog_counter > 0xFFFD {
        return M.Halted(M.AddOverflow);
      }
      v_reg[vx] := value;
      status := AdvancePc(2);
    }

    // 6XNN
    method SetVxToNn(vx: nibble, nn: u8) returns (status: M.Status)
      requires Valid()
      modifies this, v_reg
      ensures Valid()
      ensures M.Outcome(status, Model()) == M.SetVxToNn(old(Model()), vx, nn)
    {
      status := SetRegister(vx, nn);
    }

    // 7XNN
    method AddVxNn(vx: nibble, nn: u8) returns (status: M.Status)
      requires Valid()
      modifies this, v_reg
      ensures Valid()
      ensures M.Outcome(status, Model()) == M.AddVxNn(old(Model()), vx, nn)
    {
      status := SetRegister(vx, (v_reg[vx] as int + nn) % 0x100);
    }

    // 8XY0
    method SetVxToVy(vx: nibble, vy: nibble) returns (status: M.Status)
      requires Valid()
      modifies this, v_reg
      ensures Valid()
      ensures M.Outcome(status, Model()) == M.SetVxToVy(old(Model()), vx, vy)
    {
      status := SetRegister(vx, v_reg[vy]);
    }

    // 8XY1
    method SetVxToVxOrVy(vx: nibble, vy: nibble) returns (status: M.Status)
      requires Valid()
      modifies this, v_reg
      ensures Valid()
      ensures M.Outcome(status, Model()) == M.SetVxToVxOrVy(old(Model()), vx, vy)
    {
      status := SetRegister(vx, Or8(v_reg[vx], v_reg[vy]));
    }

    // 8XY2
    method SetVxToVxAndVy(vx: nibble, vy: nibble) returns (status: M.Status)
      requires Valid()
      modifies this, v_reg
      ensures Valid()
      ensures M.Outcome(status, Model()) == M.SetVxToVxAndVy(old(Model()), vx, vy)
    {
      status := SetRegister(vx, And8(v_reg[vx], v_reg[vy]));
    }

    // 8XY3
    method SetVxToVxXorVy(vx: nibble, vy: nibble) returns (status: M.Status)
      requires Valid()
      modifies this, v_reg
      ensures Valid()
      ensures M.Outcome(status, Model()) == M.SetVxToVxXorVy(old(Model()), vx, vy)
    {
      status := SetRegister(vx, Xor8(v_reg[vx], v_reg[vy]));
    }

    // 8XY4
    method AddVxVy(vx: nibble, vy: nibble) returns (status: M.Status)
      requires Valid()
      modifies this, v_reg
      ensures Valid()
      ensures M.Outcome(status, Model()) == M.AddVxVy(old(Model()), vx, vy)
    {
      if prog_counter > 0xFFFD {
        return M.Halted(M.AddOverflow);
      }
      var valX, valY := v_reg[vx] as int, v_reg[vy] as int;
      var didOverflow := valX + valY > 0xFF;
      v_reg[vx] := (valX + valY) % 0x100;
      v_reg[0xF] := if didOverflow then 1 else 0;
      status := AdvancePc(2);
    }

    // 8XY5
    method SubVxVy(vx: nibble, vy: nibble) returns (status: M.Status)
      requires Valid()
      modifies this, v_reg
      ensures Valid()
      ensures M.Outcome(status, Model()) == M.SubVxVy(old(Model()), vx, vy)
    {
      if prog_counter > 0xFFFD {
        return M.Halted(M.AddOverflow);
      }
      var valX, valY := v_reg[vx] as int, v_reg[vy] as int;
      var didOverflow := valX < valY;
      v_reg[vx] := (valX - valY) % 0x100;
      v_reg[0xF] := if didOverflow then 1 else 0;
      status := AdvancePc(2);
    }

    // 8XY6
    method ShiftVxRight(vx: nibble) returns (status: M.Status)
      requires Valid()
      modifies this, v_reg
      ensures Valid()
      ensures M.Outcome(status, Model()) == M.ShiftVxRight(old(Model()), vx)
    {
      if prog_counter > 0xFFFD {
        return M.Halted(M.AddOverflow);
      }
      var valX := v_reg[vx];
      v_reg[0xF] := valX % 2;
      v_reg[vx] := valX / 2;
      status := AdvancePc(2);
    }

    // 8XY7
    method SubVyVx(vx: nibble, vy: nibble) returns (status: M.Status)
      requires Valid()
      modifies this, v_reg
      ensures Valid()
      ensures M.Outcome(status, Model()) == M.SubVyVx(old(Model()), vx, vy)
    {
      if prog_counter > 0xFFFD {
        return M.Halted(M.AddOverflow);
      }
      var valX, valY := v_reg[vx] as int, v_reg[vy] as int;
      var didOverflow := valY < valX;
      v_reg[vx] := (valY - valX) % 0x100;
      v_reg[0xF] := if didOverflow then 1 else 0;
      status := AdvancePc(2);
    }

    // 8XYE
    method ShiftVxLeft(vx: nibble) returns (status: M.Status)
      requires Valid()
      modifies this, v_reg
      ensures Valid()
      ensures M.Outcome(status, Model()) == M.ShiftVxLeft(old(Model()), vx)
    {
      if prog_counter > 0xFFFD {
        return M.Halted(M.AddOverflow);
      }
      var valX := v_reg[vx] as int;
      v_reg[0xF] := valX / 0x80;
      v_reg[vx] := (valX * 2) % 0x100;
      status := AdvancePc(2);
    }

    // ANNN
    method SetIndRegToAddress(address: u16) returns (status: M.Status)
      requires Valid()
      modifies this
      ensures Valid()
      ensures M.Outcome(status, Model()) == M.SetIndRegToAddress(old(Model()), address)
    {
      if prog_counter > 0xFFFD {
        return M.Halted(M.AddOverflow);
      }
      i_reg := address;
      status := AdvancePc(2);
    }

    // BNNN
    method JumpToV0PlusAddress(address: u16) returns (status: M.Status)
      requires Valid()
      modifies this
      ensures Valid()
      ensures M.Outcome(status, Model()) == M.JumpToV0PlusAddress(old(Model()), address)
    {
      if v_reg[0] as int + address > 0xFFFF {
        return M.Halted(M.AddOverflow);
      }
      prog_counter := v_reg[0] as int + address;
      return M.Running;
    }

    // CXNN; the random byte is a parameter
    method SetVxToRndAndNn(vx: nibble, nn: u8, rnd: u8) returns (status: M.Status)
      requires Valid()
      modifies this, v_reg
      ensures Valid()
      ensures M.Outcome(status, Model()) == M.SetVxToRndAndNn(old(Model()), vx, nn, rnd)
    {
      status := SetRegister(vx, And8(rnd, nn));
    }

    // DXYN
    method DisplaySprite(vx: nibble, vy: nibble, n: nibble) returns (status: M.Status)
      requires Valid()
      modifies this, v_reg, display.pixels
      ensures Valid()
      ensures M.Outcome(status, Model()) == M.DisplaySprite(old(Model()), vx, vy, n)
    {
      var xCoords, yCoords := v_reg[vx], v_reg[vy];
      var check := M.SpritePanic(i_reg, xCoords, yCoords, n, 0);
      M.SpritePanicFree(i_reg, xCoords, yCoords, n, 0);
      if check.Err? {
        return M.Halted(check.panic);
      }
      if prog_counter > 0xFFFD {
        return M.Halted(M.AddOverflow);
      }
      ghost var s := Model();
      ghost var sprites := M.SpriteRows(s, n);
      v_reg[0xF] := 0;
      for row := 0 to n
        invariant display.Valid() && i_reg == s.i && prog_counter == s.pc
        invariant stack_ptr == s.sp && delay_reg == s.delay && sound_reg == s.sound
        invariant v_reg[..] == s.v[0xF := v_reg[0xF]]
        invariant Sprite.Canvas(display.pixels[..], v_reg[0xF]) == Sprite.DrawRows(Sprite.Canvas(s.pixels, 0), sprites, xCoords, yCoords, row)
      {
        var sprite := memory[i_reg as int + row];
        assert sprite == sprites[row];
        DrawSpriteRow(sprite, xCoords, yCoords, row);
      }
      ghost var c := Sprite.Draw(s.pixels, sprites, xCoords, yCoords);
      assert display.pixels[..] == c.pixels && v_reg[..] == s.v[0xF := c.vf];
      status := AdvancePc(2);
    }

    /** One row of DXYN: the eight bits of `sprite` XOR-ed onto row
        `(yCoords + row) % 32`, VF holding the collision bit of the last pixel. */
    method DrawSpriteRow(sprite: u8, xCoords: u8, yCoords: u8, row: nat)
      requires Valid()
      modifies v_reg, display.pixels
      ensures Valid()
      ensures v_reg[..] == old(v_reg[..])[0xF := v_reg[0xF]]
      ensures Sprite.Canvas(display.pixels[..], v_reg[0xF]) ==
        Sprite.DrawRowBits(Sprite.Canvas(old(display.pixels[..]), old(v_reg[0xF])), sprite, xCoords, yCoords, row, 8)
    {
      ghost var start := Sprite.Canvas(display.pixels[..], v_reg[0xF]);
      ghost var v0 := v_reg[..];
      var yCoord := (yCoords as int + row) % Display.BaseHeight;
      for bit := 0 to 8
        invariant display.Valid()
        invariant v_reg[..] == v0[0xF := v_reg[0xF]]
        invariant Sprite.Canvas(display.pixels[..], v_reg[0xF]) == Sprite.DrawRowBits(start, sprite, xCoords, yCoords, row, bit)
      {
        var xCoord := (xCoords + bit) % Display.BaseWidth;
        Display.CellIndexBijective(xCoord, yCoord);
        var pixel := display.GetPixel(xCoord, yCoord);
        var spriteBit := Sprite.SpriteBit(sprite, bit);
        v_reg[0xF] := And8(pixel, spriteBit);
        display.SetPixel(xCoord, yCoord, Xor8(pixel, spriteBit));
      }
    }

    // EX9E: a stub in the source
    method SkipIfKeyEqVxPressed(vx: nibble) returns (status: M.Status)
      requires Valid()
      modifies this
      ensures Valid()
      ensures M.Outcome(status, Model()) == M.KeyStub(old(Model()))
    {
      status := AdvancePc(2);
    }

    // EXA1: a stub in the source
    method SkipIfKeyEqVxNotPressed(vx: nibble) returns (status: M.Status)
      requires Valid()
      modifies this
      ensures Valid()
      ensures M.Outcome(status, Model()) == M.KeyStub(old(Model()))
    {
      status := AdvancePc(2);
    }

    // FX07
    method SetVxToDelayTimer(vx: nibble) returns (status: M.Status)
      requires Valid()
      modifies this, v_reg
      ensures Valid()
      ensures M.Outcome(status, Model()) == M.SetVxToDelayTimer(old(Model()), vx)
    {
      status := SetRegister(vx, delay_reg);
    }

    // FX0A: a stub in the source
    method SetVxToKeyPress(vx: nibble) returns (status: M.Status)
      requires Valid()
      modifies this
      ensures Valid()
      ensures M.Outcome(status, Model()) == M.KeyStub(old(Model()))
    {
      status := AdvancePc(2);
    }

    // FX15
    method SetDelayTimerToVx(vx: nibble) returns (status: M.Status)
      requires Valid()
      modifies this
      ensures Valid()
      ensures M.Outcome(status, Model()) == M.SetDelayTimerToVx(old(Model()), vx)
    {
      if prog_counter > 0xFFFD {
        return M.Halted(M.AddOverflow);
      }
      delay_reg := v_reg[vx];
      status := AdvancePc(2);
    }

    // FX18
    method SetSoundTimerToVx(vx: nibble) returns (status: M.Status)
      requires Valid()
      modifies this
      ensures Valid()
      ensures M.Outcome(status, Model()) == M.SetSoundTimerToVx(old(Model()), vx)
    {
      if prog_counter > 0xFFFD {
        return M.Halted(M.AddOverflow);
      }
      sound_reg := v_reg[vx];
      status := AdvancePc(2);
    }

    // FX1E
    method AddIndRegVx(vx: nibble) returns (status: M.Status)
      requires Valid()
      modifies this
      ensures Valid()
      ensures M.Outcome(status, Model()) == M.AddIndRegVx(old(Model()), vx)
    {
      if i_reg as int + v_reg[vx] > 0xFFFF {
        return M.Halted(M.AddOverflow);
      }
      if prog_counter > 0xFFFD {
        return M.Halted(M.AddOverflow);
      }
      i_reg := i_reg + v_reg[vx];
      status := AdvancePc(2);
    }

    // FX29
    method SetIndRegToLocOfSpriteForDigitVx(vx: nibble) returns (status: M.Status)
      requires Valid()
      modifies this
      ensures Valid()
      ensures M.Outcome(status, Model()) == M.SetIndRegToLocOfSpriteForDigitVx(old(Model()), vx)
    {
      if prog_counter > 0xFFFD {
        return M.Halted(M.AddOverflow);
      }
      var x := v_reg[vx];
      i_reg := x as int * 5;
      status := AdvancePc(2);
    }

    // FX33
    method StoreBcdVxInIndReg(vx: nibble) returns (status: M.Status)
      requires Valid()
      modifies this, memory
      ensures Valid()
      ensures M.Outcome(status, Model()) == M.StoreBcdVxInIndReg(old(Model()), vx)
    {
      if i_reg as int + 2 >= Rom.MemorySize {
        return M.Halted(M.IndexOutOfBounds);
      }
      if prog_counter > 0xFFFD {
        return M.Halted(M.AddOverflow);
      }
      var value := v_reg[vx];
      var ones := value % 10;
      var tens := (value / 10) % 10;
      var hundreds := (value / 100) % 10;
      memory[i_reg] := hundreds;
      memory[i_reg + 1] := tens;
      memory[i_reg + 2] := ones;
      assert memory[..] == Rom.Overlay(old(memory[..]), i_reg, M.Bcd(value));
      status := AdvancePc(2);
    }

    // FX55
    method StoreVRegInMemoryFromIndReg(vx: nibble) returns (status: M.Status)
      requires Valid()
      modifies this, memory
      ensures Valid()
      ensures M.Outcome(status, Model()) == M.StoreVRegInMemoryFromIndReg(old(Model()), vx)
    {
      if i_reg as int + vx >= Rom.MemorySize {
        return M.Halted(M.IndexOutOfBounds);
      }
      if prog_counter > 0xFFFD {
        return M.Halted(M.AddOverflow);
      }
      var base := i_reg as int;
      for ind := 0 to vx + 1
        invariant i_reg == old(i_reg) && prog_counter == old(prog_counter) && stack_ptr == old(stack_ptr)
        invariant delay_reg == old(delay_reg) && sound_reg == old(sound_reg)
        invariant forall a :: 0 <= a < Rom.MemorySize && !(base <= a < base + ind) ==> memory[a] == old(memory[a])
        invariant forall k :: 0 <= k < ind ==> memory[base + k] == v_reg[k]
      {
        memory[base + ind] := v_reg[ind];
      }
      assert memory[..] == Rom.Overlay(old(memory[..]), base, v_reg[..vx + 1]);
      status := AdvancePc(2);
    }

    // FX65
    method ReadVRegFromIndReg(vx: nibble) returns (status: M.Status)
      requires Valid()
      modifies this, v_reg
      ensures Valid()
      ensures M.Outcome(status, Model()) == M.ReadVRegFromIndReg(old(Model()), vx)
    {
      if i_reg as int + vx >= Rom.MemorySize {
        return M.Halted(M.IndexOutOfBounds);
      }
      if prog_counter > 0xFFFD {
        return M.Halted(M.AddOverflow);
      }
      var base := i_reg as int;
      for ind := 0 to vx + 1
        invariant i_reg == old(i_reg) && prog_counter == old(prog_counter) && stack_ptr == old(stack_ptr)
        invariant delay_reg == old(delay_reg) && sound_reg == old(sound_reg)
        invariant forall k :: 0 <= k < ind ==> v_reg[k] == memory[base + k]
        invariant forall k :: ind <= k < 16 ==> v_reg[k] == old(v_reg[k])
      {
        v_reg[ind] := memory[base + ind];
      }
      assert v_reg[..] == memory[base..base + vx + 1] + old(v_reg[..])[vx + 1..];
      status := AdvancePc(2);
    }
  }
}

/** The earlier `CPU` of `src/cpu.rs`: the same memory layout and loading as
    the current engine, no display, and a `run_instruction` that decodes
    every pattern but acts only on 1NNN; every other pattern only logs a
    mnemonic, which this model leaves out. */
module LegacyCpu {
  import opened Bytes
  import opened Decoder
  import Rom
  import M = Machine

  class Cpu {
    const memory: array<u8>
    const v_reg: array<u8>
    var i_reg: u16
    var delay_reg: u8
    var sound_reg: u8
    var prog_counter: u16
    var stack_ptr: u8
    const stack: array<u16>
    /** The ROM as instruction words, kept for debugging only. */
    const opcodes: seq<u16>

    ghost predicate Valid()
      reads this
    {
      memory.Length == Rom.MemorySize && v_reg.Length == 16 && stack.Length == 16 && memory != v_reg
    }

    /** `CPU::new` for a ROM that fits: fonts at 0x050, the ROM at 0x200,
        everything else zero, PC at 0x200. */
    constructor Init(rom: seq<u8>)
      requires |rom| <= Rom.MaxRomSize
      ensures Valid() && fresh(memory) && fresh(v_reg) && fresh(stack)
      ensures memory[..] == Rom.InitialMemory(rom)
      ensures prog_counter == Rom.ProgramStart && stack_ptr == 0 && i_reg == 0 && delay_reg == 0 && sound_reg == 0
      ensures v_reg[..] == seq(16, _ => 0) && stack[..] == seq(16, _ => 0)
      ensures |opcodes| == |rom| / 2
      ensures forall k :: 0 <= k < |opcodes| ==> opcodes[k] == rom[2 * k] as int * 0x100 + rom[2 * k + 1]
    {
      var words := Rom.ConvertRomToOpcodes(rom);
      memory := new u8[Rom.MemorySize](_ => 0);
      v_reg := new u8[16](_ => 0);
      i_reg, delay_reg, sound_reg := 0, 0, 0;
      prog_counter := Rom.ProgramStart;
      stack_ptr := 0;
      stack := new u16[16](_ => 0);
      opcodes := words;
      new;
      assert memory[..] == seq(Rom.MemorySize, _ => 0);
      InitFonts();
      var loaded := LoadRomIntoMemory(rom);
    }

    /** `CPU::new`: `None` stands for the panic of a ROM too large to load. */
    static method New(rom: seq<u8>) returns (cpu: M.Option<Cpu>)
      ensures cpu.Some? <==> |rom| <= Rom.MaxRomSize
      ensures cpu.Some? ==> fresh(cpu.value) && cpu.value.Valid()
      ensures cpu.Some? ==> cpu.value.memory[..] == Rom.InitialMemory(rom)
      ensures cpu.Some? ==> cpu.value.memory[Rom.ProgramStart..Rom.ProgramStart + |rom|] == rom
      ensures cpu.Some? ==> cpu.value.memory[Rom.FontStart..Rom.FontStart + |Rom.Fonts|] == Rom.Fonts
      ensures cpu.Some? ==> cpu.value.prog_counter == Rom.ProgramStart && cpu.value.stack_ptr == 0 && cpu.value.i_reg == 0
      ensures cpu.Some? ==> cpu.value.delay_reg == 0 && cpu.value.sound_reg == 0
      ensures cpu.Some? ==> cpu.value.v_reg[..] == seq(16, _ => 0) && cpu.value.stack[..] == seq(16, _ => 0)
      ensures cpu.Some? ==> |cpu.value.opcodes| == |rom| / 2
      ensures cpu.Some? ==> forall k :: 0 <= k < |cpu.value.opcodes| ==> cpu.value.opcodes[k] == rom[2 * k] as int * 0x100 + rom[2 * k + 1]
    {
      if |rom| > Rom.MaxRomSize {
        return M.None;
      }
      var c := new Cpu.Init(rom);
      return M.Some(c);
    }

    /** `init_fonts` */
    method InitFonts()
      requires Valid()
      modifies memory
      ensures Valid()
      ensures memory[..] == Rom.Overlay(old(memory[..]), Rom.FontStart, Rom.Fonts)
    {
      Rom.CopyInto(memory, Rom.FontStart, Rom.Fonts);
    }

    /** `load_rom_into_memory`: a byte past the end of memory panics. */
    method LoadRomIntoMemory(rom: seq<u8>) returns (status: M.Status)
      requires Valid()
      modifies memory
      ensures Valid()
      ensures status.Running? <==> prog_counter + |rom| <= Rom.MemorySize
      ensures status.Running? ==> memory[..] == Rom.Overlay(old(memory[..]), prog_counter, rom)
      ensures status.Halted? ==> status.panic == M.IndexOutOfBounds && memory[..] == old(memory[..])
    {
      if prog_counter as int + |rom| > Rom.MemorySize {
        return M.Halted(M.IndexOutOfBounds);
      }
      Rom.CopyInto(memory, prog_counter, rom);
      return M.Running;
    }

    /** `run_instruction`: a 1NNN word jumps to NNN; every other word leaves
        the whole machine as it was. */
    method RunInstruction(opcode: u16)
      requires Valid()
      modifies this
      ensures Valid()
      ensures prog_counter == if opcode / 0x1000 == 0x1 then opcode % 0x1000 else old(prog_counter)
      ensures i_reg == old(i_reg) && delay_reg == old(delay_reg) && sound_reg == old(sound_reg)
      ensures stack_ptr == old(stack_ptr)
    {
      var f := Decode(opcode);
      if f.op0 == 0x1 {
        JumpToAddress(f.nnn);
      }
    }

    /** `jump_to_address` */
    method JumpToAddress(address: u16)
      requires Valid()
      modifies this
      ensures Valid() && prog_counter == address
      ensures i_reg == old(i_reg) && delay_reg == old(delay_reg) && sound_reg == old(sound_reg)
      ensures stack_ptr == old(stack_ptr)
    {
      prog_counter := address;
    }
  }
}

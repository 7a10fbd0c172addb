/** Reference semantics of the CHIP-8 engine of `src/chip8/cpu.rs`: the
    machine state as a value, one function per instruction handler, the
    decode-and-dispatch of `run_instruction`, and the fetch.

    The model follows a build with overflow checks on (the default of
    `cargo run` and `cargo test`): there an overflowing `+=`/`-=` on a
    register PANICS, and so does an out-of-bounds index in any build.  Each handler therefore yields an `Outcome`:
    either `Running` with the new state, or `Halted` with the panic and the
    state unchanged (nothing observes the machine after a panic). */
module Machine {
  import opened Bytes
  import opened Decoder
  import Rom
  import Display
  import Sprite

  /** The three ways the source's handlers can panic. */
  datatype Panic =
    | AddOverflow      // "attempt to add with overflow"
    | SubOverflow      // "attempt to subtract with overflow"
    | IndexOutOfBounds // "index out of bounds"

  datatype Status = Running | Halted(panic: Panic)

  /** The fields of `CPU` that instructions read and write, with the pixel
      buffer of its `Display`. */
  datatype State = State(
    memory: seq<u8>,  // 4096 bytes
    v: seq<u8>,       // V0..VF
    i: u16,           // index register
    delay: u8,
    sound: u8,
    pc: u16,
    sp: u8,
    stack: seq<u16>,  // 16 return addresses
    pixels: seq<u8>   // 64 x 32, row-major
  ) {
    predicate Wf() {
      |memory| == Rom.MemorySize && |v| == 16 && |stack| == 16 && |pixels| == Display.PixelCount
    }
  }

  datatype Outcome = Outcome(status: Status, next: State)

  datatype Result<T> = Ok(value: T) | Err(panic: Panic)

  /** A value that may be missing: `CPU::new` gives none for a ROM that panics. */
  datatype Option<T> = None | Some(value: T)

  /** The flag register VF. */
  const Flag: nibble := 0xF

  predicate AllBits(pixels: seq<u8>) {
    forall k :: 0 <= k < |pixels| ==> pixels[k] <= 1
  }

  /** `t` with the program counter of `s` advanced by `step`; if that
      overflows 16 bits the `+=` panics and `s` is kept. */
  function AdvancePc(s: State, t: State, step: nat): (r: Outcome)
    requires s.Wf() && t.Wf()
    ensures r.next.Wf()
    ensures r.status.Running? <==> s.pc + step <= 0xFFFF
    ensures r.status.Running? ==> r.next == t.(pc := s.pc + step)
    ensures r.status.Halted? ==> r.next == s && r.status.panic == AddOverflow
  {
    if s.pc + step > 0xFFFF then Outcome(Halted(AddOverflow), s) else Outcome(Running, t.(pc := s.pc + step))
  }

  // ===== Construction =====

  /** `CPU::new` for a ROM that fits: fonts at 0x050, the ROM at 0x200, every
      other byte, register, timer and pixel zero, PC at 0x200, empty stack. */
  function Initial(rom: seq<u8>): (s: State)
    requires |rom| <= Rom.MaxRomSize
    ensures s.Wf()
    ensures s.pc == Rom.ProgramStart && s.sp == 0 && s.i == 0 && s.delay == 0 && s.sound == 0
    ensures forall k :: 0 <= k < 16 ==> s.v[k] == 0 && s.stack[k] == 0
    ensures s.memory == Rom.InitialMemory(rom)
    ensures s.pixels == Display.Blank()
  {
    State(Rom.InitialMemory(rom), seq(16, _ => 0), 0, 0, 0, Rom.ProgramStart, 0, seq(16, _ => 0), Display.Blank())
  }

  // ===== Fetch =====

  /** `fetch_current_instruction`: the big-endian word at PC; reading past
      the end of memory panics. */
  function Fetch(s: State): (r: Result<u16>)
    requires s.Wf()
    ensures r.Ok? <==> s.pc + 1 < Rom.MemorySize
    ensures r.Ok? ==> r.value / 0x100 == s.memory[s.pc] && r.value % 0x100 == s.memory[s.pc + 1]
    ensures r.Err? ==> r.panic == IndexOutOfBounds
  {
    if s.pc >= Rom.MemorySize then Err(IndexOutOfBounds)
    else if s.pc + 1 >= Rom.MemorySize then Err(IndexOutOfBounds)
    else Ok(Rom.Word(s.memory[s.pc], s.memory[s.pc + 1]))
  }

  // ===== Instruction handlers (one per `fn` of the source) =====

  /** 00E0: the screen goes dark. */
  function ClearDisplay(s: State): (r: Outcome)
    requires s.Wf()
    ensures r.next.Wf() && (r.status.Halted? ==> r.next == s)
    ensures r.status.Running? <==> s.pc <= 0xFFFD
    ensures r.status.Running? ==> r.next == s.(pixels := Display.Blank(), pc := s.pc + 2)
  {
    AdvancePc(s, s.(pixels := Display.Blank()), 2)
  }

  /** 00EE: pop the return address; an empty stack underflows the `-= 1`,
      and a pointer past 16 indexes out of bounds. */
  function ReturnFromSubroutine(s: State): (r: Outcome)
    requires s.Wf()
    ensures r.next.Wf() && (r.status.Halted? ==> r.next == s)
    ensures r.status.Running? <==> 0 < s.sp <= 16
    ensures s.sp == 0 ==> r.status == Halted(SubOverflow)
    ensures r.status.Running? ==> r.next == s.(sp := s.sp - 1, pc := s.stack[s.sp - 1])
  {
    if s.sp == 0 then Outcome(Halted(SubOverflow), s)
    else if s.sp - 1 >= 16 then Outcome(Halted(IndexOutOfBounds), s)
    else Outcome(Running, s.(sp := s.sp - 1, pc := s.stack[s.sp - 1]))
  }

  /** 1NNN */
  function JumpToAddress(s: State, address: u16): (r: Outcome)
    requires s.Wf()
    ensures r.next.Wf() && r.status.Running?
    ensures r.next == s.(pc := address)
  {
    Outcome(Running, s.(pc := address))
  }

  /** 2NNN: push PC and jump; a full stack (16 entries) indexes out of bounds. */
  function CallSubroutineAtAddress(s: State, address: u16): (r: Outcome)
    requires s.Wf()
    ensures r.next.Wf() && (r.status.Halted? ==> r.next == s)
    ensures r.status.Running? <==> s.sp < 16
    ensures r.status.Running? ==> r.next == s.(stack := s.stack[s.sp := s.pc], sp := s.sp + 1, pc := address)
    ensures r.status.Halted? ==> r.status.panic == IndexOutOfBounds
  {
    if s.sp >= 16 then Outcome(Halted(IndexOutOfBounds), s)
    else Outcome(Running, s.(stack := s.stack[s.sp := s.pc], sp := s.sp + 1, pc := address))
  }

  /** The skip rule shared by 3XNN, 4XNN, 5XY0 and 9XY0: PC moves on by 4
      when the condition holds and by 2 otherwise, nothing else changes. */
  function SkipIf(s: State, condition: bool): (r: Outcome)
    requires s.Wf()
    ensures r.next.Wf() && (r.status.Halted? ==> r.next == s)
    ensures r.status.Running? <==> s.pc + (if condition then 4 else 2) <= 0xFFFF
    ensures r.status.Running? ==> r.next == s.(pc := s.pc + (if condition then 4 else 2))
  {
    AdvancePc(s, s, if condition then 4 else 2)
  }

  /** 3XNN */
  function SkipIfVxEqNn(s: State, x: nibble, nn: u8): (r: Outcome)
    requires s.Wf()
    ensures r == SkipIf(s, s.v[x] == nn)
  {
    SkipIf(s, s.v[x] == nn)
  }

  /** 4XNN */
  function SkipIfVxNeqNn(s: State, x: nibble, nn: u8): (r: Outcome)
    requires s.Wf()
    ensures r == SkipIf(s, s.v[x] != nn)
  {
    SkipIf(s, s.v[x] != nn)
  }

  /** 5XY0 (the last nibble is not checked) */
  function SkipIfVxEqVy(s: State, x: nibble, y: nibble): (r: Outcome)
    requires s.Wf()
    ensures r == SkipIf(s, s.v[x] == s.v[y])
  {
    SkipIf(s, s.v[x] == s.v[y])
  }

  /** 9XY0 (the last nibble is not checked) */
  function SkipIfVxNeqVy(s: State, x: nibble, y: nibble): (r: Outcome)
    requires s.Wf()
    ensures r == SkipIf(s, s.v[x] != s.v[y])
  {
    SkipIf(s, s.v[x] != s.v[y])
  }

  /** Writing one register and moving on: the shape of most register handlers. */
  function SetRegister(s: State, x: nibble, value: u8): (r: Outcome)
    requires s.Wf()
    ensures r.next.Wf() && (r.status.Halted? ==> r.next == s)
    ensures r.status.Running? <==> s.pc <= 0xFFFD
    ensures r.status.Running? ==> r.next == s.(v := s.v[x := value], pc := s.pc + 2)
  {
    AdvancePc(s, s.(v := s.v[x := value]), 2)
  }

  /** 6XNN */
  function SetVxToNn(s: State, x: nibble, nn: u8): (r: Outcome)
    requires s.Wf()
    ensures r == SetRegister(s, x, nn)
  {
    SetRegister(s, x, nn)
  }

  /** 7XNN: `wrapping_add`, VF untouched. */
  function AddVxNn(s: State, x: nibble, nn: u8): (r: Outcome)
    requires s.Wf()
    ensures r.next.Wf() && (r.status.Halted? ==> r.next == s)
    ensures r.status.Running? <==> s.pc <= 0xFFFD
    ensures r.status.Running? ==> r.next.v[x] == (s.v[x] as int + nn) % 0x100
    ensures r.status.Running? ==> (r.next.v[x] < s.v[x] <==> s.v[x] as int + nn > 0xFF)
    ensures r.status.Running? ==> r.next == s.(v := r.next.v, pc := s.pc + 2) && r.next.v == s.v[x := r.next.v[x]]
  {
    SetRegister(s, x, (s.v[x] as int + nn) % 0x100)
  }

  /** 8XY0 */
  function SetVxToVy(s: State, x: nibble, y: nibble): (r: Outcome)
    requires s.Wf()
    ensures r == SetRegister(s, x, s.v[y])
  {
    SetRegister(s, x, s.v[y])
  }

  /** 8XY1 */
  function SetVxToVxOrVy(s: State, x: nibble, y: nibble): (r: Outcome)
    requires s.Wf()
    ensures r == SetRegister(s, x, Or8(s.v[x], s.v[y]))
  {
    SetRegister(s, x, Or8(s.v[x], s.v[y]))
  }

  /** 8XY2 */
  function SetVxToVxAndVy(s: State, x: nibble, y: nibble): (r: Outcome)
    requires s.Wf()
    ensures r == SetRegister(s, x, And8(s.v[x], s.v[y]))
  {
    SetRegister(s, x, And8(s.v[x], s.v[y]))
  }

  /** 8XY3 */
  function SetVxToVxXorVy(s: State, x: nibble, y: nibble): (r: Outcome)
    requires s.Wf()
    ensures r == SetRegister(s, x, Xor8(s.v[x], s.v[y]))
  {
    SetRegister(s, x, Xor8(s.v[x], s.v[y]))
  }

  /** Register x then VF are written, in that order: for x = F the flag wins. */
  function SetThenFlag(s: State, x: nibble, value: u8, flag: bool): (r: Outcome)
    requires s.Wf()
    ensures r.next.Wf() && (r.status.Halted? ==> r.next == s)
    ensures r.status.Running? <==> s.pc <= 0xFFFD
    ensures r.status.Running? ==> r.next == s.(v := s.v[x := value][Flag := if flag then 1 else 0], pc := s.pc + 2)
  {
    AdvancePc(s, s.(v := s.v[x := value][Flag := if flag then 1 else 0]), 2)
  }

  /** 8XY4: Vx = (Vx + Vy) mod 256, then VF = the carry out of the sum. */
  function AddVxVy(s: State, x: nibble, y: nibble): (r: Outcome)
    requires s.Wf()
    ensures r.next.Wf() && (r.status.Halted? ==> r.next == s)
    ensures r.status.Running? <==> s.pc <= 0xFFFD
    ensures r.status.Running? ==> r.next.v[Flag] == if s.v[x] as int + s.v[y] > 0xFF then 1 else 0
    ensures r.status.Running? && x != Flag ==> r.next.v[Flag] as int * 0x100 + r.next.v[x] == s.v[x] as int + s.v[y]
    ensures r.status.Running? ==> forall k :: 0 <= k < 16 && k != x && k != Flag ==> r.next.v[k] == s.v[k]
    ensures r.status.Running? ==> r.next == s.(v := r.next.v, pc := s.pc + 2)
  {
    var a, b := s.v[x] as int, s.v[y] as int;
    SetThenFlag(s, x, (a + b) % 0x100, a + b > 0xFF)
  }

  /** 8XY5: Vx = (Vx - Vy) mod 256, then VF = 1 exactly when the subtraction
      BORROWED (`overflowing_sub`'s flag), the opposite of the usual
      CHIP-8 convention. */
  function SubVxVy(s: State, x: nibble, y: nibble): (r: Outcome)
    requires s.Wf()
    ensures r.next.Wf() && (r.status.Halted? ==> r.next == s)
    ensures r.status.Running? <==> s.pc <= 0xFFFD
    ensures r.status.Running? ==> r.next.v[Flag] == if s.v[x] < s.v[y] then 1 else 0
    ensures r.status.Running? && x != Flag ==> r.next.v[x] as int - r.next.v[Flag] as int * 0x100 == s.v[x] as int - s.v[y]
    ensures r.status.Running? ==> forall k :: 0 <= k < 16 && k != x && k != Flag ==> r.next.v[k] == s.v[k]
    ensures r.status.Running? ==> r.next == s.(v := r.next.v, pc := s.pc + 2)
  {
    var a, b := s.v[x] as int, s.v[y] as int;
    SetThenFlag(s, x, (a - b) % 0x100, a < b)
  }

  /** 8XY7: Vx = (Vy - Vx) mod 256, then VF = 1 exactly when it borrowed. */
  function SubVyVx(s: State, x: nibble, y: nibble): (r: Outcome)
    requires s.Wf()
    ensures r.next.Wf() && (r.status.Halted? ==> r.next == s)
    ensures r.status.Running? <==> s.pc <= 0xFFFD
    ensures r.status.Running? ==> r.next.v[Flag] == if s.v[y] < s.v[x] then 1 else 0
    ensures r.status.Running? && x != Flag ==> r.next.v[x] as int - r.next.v[Flag] as int * 0x100 == s.v[y] as int - s.v[x]
    ensures r.status.Running? ==> forall k :: 0 <= k < 16 && k != x && k != Flag ==> r.next.v[k] == s.v[k]
    ensures r.status.Running? ==> r.next == s.(v := r.next.v, pc := s.pc + 2)
  {
    var a, b := s.v[x] as int, s.v[y] as int;
    SetThenFlag(s, x, (b - a) % 0x100, b < a)
  }

  /** VF then register x are written, in that order: for x = F the shifted
      value wins. */
  function FlagThenSet(s: State, x: nibble, flag: u8, value: u8): (r: Outcome)
    requires s.Wf()
    ensures r.next.Wf() && (r.status.Halted? ==> r.next == s)
    ensures r.status.Running? <==> s.pc <= 0xFFFD
    ensures r.status.Running? ==> r.next == s.(v := s.v[Flag := flag][x := value], pc := s.pc + 2)
  {
    AdvancePc(s, s.(v := s.v[Flag := flag][x := value]), 2)
  }

  /** 8XY6: VF = the bit shifted out (Vx & 1), then Vx = Vx >> 1. */
  function ShiftVxRight(s: State, x: nibble): (r: Outcome)
    requires s.Wf()
    ensures r.next.Wf() && (r.status.Halted? ==> r.next == s)
    ensures r.status.Running? <==> s.pc <= 0xFFFD
    ensures r.status.Running? && x != Flag ==> r.next.v[Flag] <= 1 && r.next.v[x] as int * 2 + r.next.v[Flag] == s.v[x]
    ensures r.status.Running? && x == Flag ==> r.next.v[Flag] as int * 2 + s.v[x] % 2 == s.v[x]
    ensures r.status.Running? ==> forall k :: 0 <= k < 16 && k != x && k != Flag ==> r.next.v[k] == s.v[k]
    ensures r.status.Running? ==> r.next == s.(v := r.next.v, pc := s.pc + 2)
  {
    var a := s.v[x];
    FlagThenSet(s, x, a % 2, a / 2)
  }

  /** 8XYE: VF = the bit shifted out ((Vx >> 7) & 1), then Vx = (Vx << 1) mod 256. */
  function ShiftVxLeft(s: State, x: nibble): (r: Outcome)
    requires s.Wf()
    ensures r.next.Wf() && (r.status.Halted? ==> r.next == s)
    ensures r.status.Running? <==> s.pc <= 0xFFFD
    ensures r.status.Running? && x != Flag ==> r.next.v[Flag] <= 1 && r.next.v[Flag] as int * 0x100 + r.next.v[x] == s.v[x] as int * 2
    ensures r.status.Running? && x == Flag ==> s.v[x] as int / 0x80 * 0x100 + r.next.v[Flag] == s.v[x] as int * 2
    ensures r.status.Running? ==> forall k :: 0 <= k < 16 && k != x && k != Flag ==> r.next.v[k] == s.v[k]
    ensures r.status.Running? ==> r.next == s.(v := r.next.v, pc := s.pc + 2)
  {
    var a := s.v[x] as int;
    FlagThenSet(s, x, a / 0x80, (a * 2) % 0x100)
  }

  /** ANNN */
  function SetIndRegToAddress(s: State, address: u16): (r: Outcome)
    requires s.Wf()
    ensures r.next.Wf() && (r.status.Halted? ==> r.next == s)
    ensures r.status.Running? <==> s.pc <= 0xFFFD
    ensures r.status.Running? ==> r.next == s.(i := address, pc := s.pc + 2)
  {
    AdvancePc(s, s.(i := address), 2)
  }

  /** BNNN: PC = V0 + address; the u16 sum overflows only for addresses
      above 0xFF00, never for the 12-bit NNN the dispatcher passes. */
  function JumpToV0PlusAddress(s: State, address: u16): (r: Outcome)
    requires s.Wf()
    ensures r.next.Wf() && (r.status.Halted? ==> r.next == s)
    ensures r.status.Running? <==> s.v[0] + address <= 0xFFFF
    ensures address < 0x1000 ==> r.status.Running?
    ensures r.status.Running? ==> r.next == s.(pc := s.v[0] + address)
  {
    if s.v[0] + address > 0xFFFF then Outcome(Halted(AddOverflow), s)
    else Outcome(Running, s.(pc := s.v[0] + address))
  }

  /** CXNN: Vx = rnd & NN, where `rnd` is the byte the random source drew;
      whatever it is, Vx has no bit outside NN. */
  function SetVxToRndAndNn(s: State, x: nibble, nn: u8, rnd: u8): (r: Outcome)
    requires s.Wf()
    ensures r.next.Wf() && (r.status.Halted? ==> r.next == s)
    ensures r.status.Running? <==> s.pc <= 0xFFFD
    ensures r.status.Running? ==> And8(r.next.v[x], 0xFF - nn) == 0 && r.next.v[x] <= nn && r.next.v[x] <= rnd
    ensures r.status.Running? ==> r.next == s.(v := s.v[x := r.next.v[x]], pc := s.pc + 2)
  {
    And8WithinMask(rnd, nn);
    SetRegister(s, x, And8(rnd, nn))
  }

  /** The panic the sprite loops of DXYN hit first, checking rows from
      `row` on in the source's order: the memory read at I + row, the u8 sum
      Vy + row, then the u8 sums Vx + bit. */
  function SpritePanic(i: nat, x: u8, y: u8, n: nat, row: nat): (p: Result<()>)
    ensures p.Err? ==> row < n
    ensures row < n && i + row >= Rom.MemorySize ==> p == Err(IndexOutOfBounds)
    ensures row < n && i + row < Rom.MemorySize && y + row > 0xFF ==> p == Err(AddOverflow)
    ensures p == Err(IndexOutOfBounds) ==> i + n > Rom.MemorySize
    ensures p == Err(AddOverflow) ==> y + n > 0x100 || x + 7 > 0xFF
    ensures p.Err? ==> p.panic == IndexOutOfBounds || p.panic == AddOverflow
    decreases n - row
  {
    if row >= n then Ok(())
    else if i + row >= Rom.MemorySize then Err(IndexOutOfBounds)
    else if y + row > 0xFF then Err(AddOverflow)
    else if x + 7 > 0xFF then Err(AddOverflow)
    else SpritePanic(i, x, y, n, row + 1)
  }

  /** DXYN draws without panicking exactly when the sprite is empty or its
      bytes lie in memory and no coordinate sum overflows a byte. */
  lemma {:induction false} SpritePanicFree(i: nat, x: u8, y: u8, n: nat, row: nat)
    ensures SpritePanic(i, x, y, n, row).Ok? <==>
      (row >= n || (i + n <= Rom.MemorySize && y + n <= 0x100 && x <= 0xF8))
    decreases n - row
  {
    if row < n {
      SpritePanicFree(i, x, y, n, row + 1);
    }
  }

  lemma DrawKeepsAllBits(p: seq<u8>, sprites: seq<u8>, x: nat, y: nat)
    requires |p| == Display.PixelCount && |sprites| <= Display.BaseHeight
    ensures AllBits(p) ==> AllBits(Sprite.Draw(p, sprites, x, y).pixels)
  {
    if AllBits(p) {
      Sprite.DrawKeepsBits(p, sprites, x, y);
    }
  }

  /** The sprite rows DXYN reads: none when N is 0, else memory[I..I+N]. */
  function SpriteRows(s: State, n: nibble): (rows: seq<u8>)
    requires s.Wf() && (n == 0 || s.i + n <= Rom.MemorySize)
    ensures |rows| == n
    ensures forall r :: 0 <= r < n ==> rows[r] == s.memory[s.i + r]
  {
    if n == 0 then [] else s.memory[s.i..s.i + n]
  }

  /** DXYN: read the n sprite bytes at I, XOR them onto the screen at
      (Vx, Vy) with wrap-around, and leave VF as `Sprite.Draw` does. */
  function DisplaySprite(s: State, x: nibble, y: nibble, n: nibble): (r: Outcome)
    requires s.Wf()
    ensures r.next.Wf() && (r.status.Halted? ==> r.next == s)
    ensures r.status.Running? <==> (n == 0 || (s.i + n <= Rom.MemorySize && s.v[y] + n <= 0x100 && s.v[x] <= 0xF8)) && s.pc <= 0xFFFD
    ensures r.status.Running? ==>
      var c := Sprite.Draw(s.pixels, SpriteRows(s, n), s.v[x], s.v[y]);
      r.next == s.(v := s.v[Flag := c.vf], pixels := c.pixels, pc := s.pc + 2)
    ensures AllBits(s.pixels) ==> AllBits(r.next.pixels)
  {
    var xc, yc := s.v[x], s.v[y];
    SpritePanicFree(s.i, xc, yc, n, 0);
    match SpritePanic(s.i, xc, yc, n, 0)
    case Err(p) => Outcome(Halted(p), s)
    case Ok(_) =>
      var sprites := SpriteRows(s, n);
      var c := Sprite.Draw(s.pixels, sprites, xc, yc);
      DrawKeepsAllBits(s.pixels, sprites, xc, yc);
      AdvancePc(s, s.(v := s.v[Flag := c.vf], pixels := c.pixels), 2)
  }

  /** EX9E, EXA1 and FX0A are stubs in the source: they only move on. */
  function KeyStub(s: State): (r: Outcome)
    requires s.Wf()
    ensures r.next.Wf() && (r.status.Halted? ==> r.next == s)
    ensures r.status.Running? <==> s.pc <= 0xFFFD
    ensures r.status.Running? ==> r.next == s.(pc := s.pc + 2)
  {
    AdvancePc(s, s, 2)
  }

  /** FX07 */
  function SetVxToDelayTimer(s: State, x: nibble): (r: Outcome)
    requires s.Wf()
    ensures r == SetRegister(s, x, s.delay)
  {
    SetRegister(s, x, s.delay)
  }

  /** FX15 */
  function SetDelayTimerToVx(s: State, x: nibble): (r: Outcome)
    requires s.Wf()
    ensures r.next.Wf() && (r.status.Halted? ==> r.next == s)
    ensures r.status.Running? <==> s.pc <= 0xFFFD
    ensures r.status.Running? ==> r.next == s.(delay := s.v[x], pc := s.pc + 2)
  {
    AdvancePc(s, s.(delay := s.v[x]), 2)
  }

  /** FX18 */
  function SetSoundTimerToVx(s: State, x: nibble): (r: Outcome)
    requires s.Wf()
    ensures r.next.Wf() && (r.status.Halted? ==> r.next == s)
    ensures r.status.Running? <==> s.pc <= 0xFFFD
    ensures r.status.Running? ==> r.next == s.(sound := s.v[x], pc := s.pc + 2)
  {
    AdvancePc(s, s.(sound := s.v[x]), 2)
  }

  /** FX1E: I += Vx with no flag; a sum past 0xFFFF overflows the u16 `+=`. */
  function AddIndRegVx(s: State, x: nibble): (r: Outcome)
    requires s.Wf()
    ensures r.next.Wf() && (r.status.Halted? ==> r.next == s)
    ensures r.status.Running? <==> s.i + s.v[x] <= 0xFFFF && s.pc <= 0xFFFD
    ensures s.i + s.v[x] > 0xFFFF ==> r.status == Halted(AddOverflow)
    ensures r.status.Running? ==> r.next == s.(i := s.i + s.v[x], pc := s.pc + 2)
  {
    if s.i + s.v[x] > 0xFFFF then Outcome(Halted(AddOverflow), s)
    else AdvancePc(s, s.(i := s.i + s.v[x]), 2)
  }

  /** FX29: I = Vx * 5, WITHOUT the 0x050 offset of the font table. */
  function SetIndRegToLocOfSpriteForDigitVx(s: State, x: nibble): (r: Outcome)
    requires s.Wf()
    ensures r.next.Wf() && (r.status.Halted? ==> r.next == s)
    ensures r.status.Running? <==> s.pc <= 0xFFFD
    ensures r.status.Running? ==> r.next == s.(i := s.v[x] as int * 5, pc := s.pc + 2)
  {
    AdvancePc(s, s.(i := s.v[x] as int * 5), 2)
  }

  /** The three decimal digits of a byte, hundreds first. */
  function Bcd(value: u8): (digits: seq<u8>)
    ensures |digits| == 3 && digits[0] < 10 && digits[1] < 10 && digits[2] < 10
    ensures digits[0] as int * 100 + digits[1] as int * 10 + digits[2] == value
  {
    [(value / 100) % 10, (value / 10) % 10, value % 10]
  }

  /** FX33: memory[I..I+3] = hundreds, tens, ones of Vx, nothing else
      changes; an address past memory panics. */
  function StoreBcdVxInIndReg(s: State, x: nibble): (r: Outcome)
    requires s.Wf()
    ensures r.next.Wf() && (r.status.Halted? ==> r.next == s)
    ensures r.status.Running? <==> s.i + 2 < Rom.MemorySize && s.pc <= 0xFFFD
    ensures r.status.Running? ==> r.next.memory[s.i..s.i + 3] == Bcd(s.v[x])
    ensures r.status.Running? ==> forall a :: 0 <= a < Rom.MemorySize && !(s.i <= a < s.i + 3) ==> r.next.memory[a] == s.memory[a]
    ensures r.status.Running? ==> r.next == s.(memory := r.next.memory, pc := s.pc + 2)
  {
    if s.i + 2 >= Rom.MemorySize then Outcome(Halted(IndexOutOfBounds), s)
    else
      var memory := Rom.Overlay(s.memory, s.i, Bcd(s.v[x]));
      assert forall a :: 0 <= a < s.i ==> memory[a] == memory[..s.i][a];
      assert forall a :: s.i + 3 <= a < Rom.MemorySize ==> memory[a] == memory[s.i + 3..][a - (s.i + 3)];
      AdvancePc(s, s.(memory := memory), 2)
  }

  /** FX55: memory[I + k] = Vk for k = 0..=x, nothing else changes. */
  function StoreVRegInMemoryFromIndReg(s: State, x: nibble): (r: Outcome)
    requires s.Wf()
    ensures r.next.Wf() && (r.status.Halted? ==> r.next == s)
    ensures r.status.Running? <==> s.i + x < Rom.MemorySize && s.pc <= 0xFFFD
    ensures r.status.Running? ==> r.next.memory[s.i..s.i + x + 1] == s.v[..x + 1]
    ensures r.status.Running? ==> forall a :: 0 <= a < Rom.MemorySize && !(s.i <= a <= s.i + x) ==> r.next.memory[a] == s.memory[a]
    ensures r.status.Running? ==> r.next == s.(memory := r.next.memory, pc := s.pc + 2)
  {
    if s.i + x >= Rom.MemorySize then Outcome(Halted(IndexOutOfBounds), s)
    else
      var memory := Rom.Overlay(s.memory, s.i, s.v[..x + 1]);
      assert forall a :: 0 <= a < s.i ==> memory[a] == memory[..s.i][a];
      assert forall a :: s.i + x + 1 <= a < Rom.MemorySize ==> memory[a] == memory[s.i + x + 1..][a - (s.i + x + 1)];
      AdvancePc(s, s.(memory := memory), 2)
  }

  /** FX65: Vk = memory[I + k] for k = 0..=x, nothing else changes. */
  function ReadVRegFromIndReg(s: State, x: nibble): (r: Outcome)
    requires s.Wf()
    ensures r.next.Wf() && (r.status.Halted? ==> r.next == s)
    ensures r.status.Running? <==> s.i + x < Rom.MemorySize && s.pc <= 0xFFFD
    ensures r.status.Running? ==> r.next.v[..x + 1] == s.memory[s.i..s.i + x + 1]
    ensures r.status.Running? ==> r.next.v[x + 1..] == s.v[x + 1..]
    ensures r.status.Running? ==> r.next == s.(v := r.next.v, pc := s.pc + 2)
  {
    if s.i + x >= Rom.MemorySize then Outcome(Halted(IndexOutOfBounds), s)
    else
      var v := s.memory[s.i..s.i + x + 1] + s.v[x + 1..];
      assert v[..x + 1] == s.memory[s.i..s.i + x + 1] && v[x + 1..] == s.v[x + 1..];
      AdvancePc(s, s.(v := v), 2)
  }

  // ===== Decode and dispatch =====

  /** `run_instruction`: decode the word and apply the matching handler; a
      word no pattern matches changes nothing at all (not even PC). */
  function Execute(s: State, op: u16, rnd: u8): (r: Outcome)
    requires s.Wf()
    ensures r.next.Wf() && (r.status.Halted? ==> r.next == s)
  {
    var f := Decode(op);
    var x, y := f.vx, f.vy;
    match (f.op0, f.op1, f.op2, f.op3)
    case (0x0, 0x0, 0xE, 0x0) => ClearDisplay(s)
    case (0x0, 0x0, 0xE, 0xE) => ReturnFromSubroutine(s)
    case (0x1, _, _, _) => JumpToAddress(s, f.nnn)
    case (0x2, _, _, _) => CallSubroutineAtAddress(s, f.nnn)
    case (0x3, _, _, _) => SkipIfVxEqNn(s, x, f.nn)
    case (0x4, _, _, _) => SkipIfVxNeqNn(s, x, f.nn)
    case (0x5, _, _, _) => SkipIfVxEqVy(s, x, y)
    case (0x6, _, _, _) => SetVxToNn(s, x, f.nn)
    case (0x7, _, _, _) => AddVxNn(s, x, f.nn)
    case (0x8, _, _, 0x0) => SetVxToVy(s, x, y)
    case (0x8, _, _, 0x1) => SetVxToVxOrVy(s, x, y)
    case (0x8, _, _, 0x2) => SetVxToVxAndVy(s, x, y)
    case (0x8, _, _, 0x3) => SetVxToVxXorVy(s, x, y)
    case (0x8, _, _, 0x4) => AddVxVy(s, x, y)
    case (0x8, _, _, 0x5) => SubVxVy(s, x, y)
    case (0x8, _, _, 0x6) => ShiftVxRight(s, x)
    case (0x8, _, _, 0x7) => SubVyVx(s, x, y)
    case (0x8, _, _, 0xE) => ShiftVxLeft(s, x)
    case (0x9, _, _, _) => SkipIfVxNeqVy(s, x, y)
    case (0xA, _, _, _) => SetIndRegToAddress(s, f.nnn)
    case (0xB, _, _, _) => JumpToV0PlusAddress(s, f.nnn)
    case (0xC, _, _, _) => SetVxToRndAndNn(s, x, f.nn, rnd)
    case (0xD, _, _, _) => DisplaySprite(s, x, y, f.n)
    case (0xE, _, 0x9, 0xE) => KeyStub(s)
    case (0xE, _, 0xA, 0x1) => KeyStub(s)
    case (0xF, _, 0x0, 0x7) => SetVxToDelayTimer(s, x)
    case (0xF, _, 0x0, 0xA) => KeyStub(s)
    case (0xF, _, 0x1, 0x5) => SetDelayTimerToVx(s, x)
    case (0xF, _, 0x1, 0x8) => SetSoundTimerToVx(s, x)
    case (0xF, _, 0x1, 0xE) => AddIndRegVx(s, x)
    case (0xF, _, 0x2, 0x9) => SetIndRegToLocOfSpriteForDigitVx(s, x)
    case (0xF, _, 0x3, 0x3) => StoreBcdVxInIndReg(s, x)
    case (0xF, _, 0x5, 0x5) => StoreVRegInMemoryFromIndReg(s, x)
    case (0xF, _, 0x6, 0x5) => ReadVRegFromIndReg(s, x)
    case _ => Outcome(Running, s)
  }

  /** One iteration of the run loop without its I/O: fetch, then execute. */
  function Step(s: State, rnd: u8): (r: Outcome)
    requires s.Wf()
    ensures r.next.Wf()
    ensures Fetch(s).Err? ==> r == Outcome(Halted(Fetch(s).panic), s)
    ensures Fetch(s).Ok? ==> r == Execute(s, Fetch(s).value, rnd)
  {
    match Fetch(s)
    case Err(p) => Outcome(Halted(p), s)
    case Ok(op) => Execute(s, op, rnd)
  }
}

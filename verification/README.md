# A verified model of the rust-chip8 interpreter core

This project models the core of a CHIP-8 emulator written in Rust:

- the fetch/decode/execute engine of `src/chip8/cpu.rs`;
- the earlier skeleton engine of `src/cpu.rs`;
- the logical 64 x 32 framebuffer of `src/chip8/display.rs`.

The model has two layers.

- `Machine` (machine.dfy) is a reference semantics on values. `State` holds
  memory, the sixteen V registers, I, the two timers, PC, the stack pointer,
  the stack and the pixel buffer. There is one function per handler of the
  source, plus `Execute` for the dispatcher and `Step` for fetch then
  execute. Each handler's contract says what the instruction means: the
  carry or borrow in VF, the bit shifted out, the skip distance, the decimal
  digits, the bytes dumped or loaded, the pixels flipped.
- `Chip8Cpu.Cpu` (cpu.dfy) is the source's `CPU` struct as a class. Its
  memory, registers and stack are arrays updated in place, and its display
  is a `Display.Display` object holding the pixel array. Every method that
  mirrors a handler is proved to implement the matching `Machine` function:
  the status it returns and its new state, read back through `Model()`, are
  exactly what that function gives for the old state. `RunInstruction`
  dispatches on the same nibble patterns as the source, in the same order.

`LegacyCpu.Cpu` (legacy_cpu.dfy) is the skeleton engine. It loads memory the
same way. Its `run_instruction` decodes every pattern but acts only on 1NNN.

The model follows the semantics of a Rust build with overflow checks on
(the debug profile): an arithmetic `+=` or `-=` that overflows panics, and
so does an out-of-range array index in any build. The model makes each panic explicit as a `Halted(panic)` status. A handler
that would panic is checked before it writes anything and leaves the state
as it was. `CPU::new` with a ROM longer than 3584 bytes panics while
loading, and `New` returns `None` for such a ROM.

The sprite draw of DXYN is a function on the pixel buffer (sprite.dfy),
defined loop step by loop step. Lemmas there show, cell by cell, that every
covered pixel becomes its old value XOR the sprite bit and every other pixel
keeps its value. They also show that drawing twice restores the screen, that
a 0/1 screen stays 0/1, and that VF ends up as the collision bit of the last
pixel drawn.

Bitwise AND, OR and XOR are defined bit by bit on integers (bytes.dfy).
Shifts and masks are division and remainder by powers of two.

Where the code departs from common CHIP-8 descriptions, the model follows
the code:

- 8XY5 and 8XY7 set VF to 1 when the subtraction borrows, not when it does not.
- DXYN overwrites VF at every pixel, so VF holds the collision bit of the
  last pixel only (`Sprite.CollisionOverwritten` shows a missed collision).
- FX29 sets I to Vx * 5, with no 0x050 offset, so I points below the font
  table (`MachineProps.FontPointerMissesGlyph`).
- A word no pattern matches does nothing, and PC does not move either
  (`MachineProps.UnknownWordsAreNoOps`).
- 00EE pops the saved PC without adding 2, and 2NNN saves the PC of the call
  itself. A call followed by a return therefore lands back on the call
  (`MachineProps.CallThenReturn`).
- No timer ever counts down; FX07, FX15 and FX18 only read or write them.
- The unit tests of the skip handlers (`src/chip8/cpu.rs:427-465`, `575-587`)
  expect PC to stay at 0x200 when the condition fails. The code adds 2 in
  that case, and the model does too (`MachineProps.SkipSamples`).
- BNNN adds V0 to the address as a 16-bit sum. With 0xFF and 0xFFF the
  result is 0x10FE, past the end of memory, and the next fetch panics
  (`MachineProps.JumpPastMemory`).

## Model

| member | source | states |
|---|---|---|
| Bytes.BitAnd | src/chip8/cpu.rs:226-229 | Rust's `&` on `width`-bit numbers, bit by bit: the result fits the width and is at most either operand |
| Bytes.BitOr | src/chip8/cpu.rs:221-224 | Rust's bitwise OR on `width`-bit numbers, bit by bit: the result fits the width and is at least either operand |
| Bytes.BitXor | src/chip8/cpu.rs:231-234 | Rust's `^` on `width`-bit numbers, bit by bit: the result fits the width and is 0 exactly when the operands are equal |
| Bytes.Xor8 | src/chip8/cpu.rs:314-316 | `^` on bytes is 0 exactly when the bytes are equal; its inverse law is `Xor8Twice` |
| Bytes.Or8 | src/chip8/cpu.rs:220-224 | the OR of two bytes is a byte at least as large as either operand |
| Bytes.And8 | src/chip8/cpu.rs:225-229 | the AND of two bytes is a byte no larger than either operand |
| Bytes.BitXorTwice | src/chip8/cpu.rs:316 | XOR-ing the same value twice, at any width, gives back the original |
| Bytes.Xor8Twice | src/chip8/cpu.rs:316 | `(a ^ b) ^ b == a` on bytes |
| Bytes.BitAndWithinMask | src/chip8/cpu.rs:299 | `(a & m) & !m == 0` at any width: AND with a mask keeps no bit outside it |
| Bytes.And8WithinMask | src/chip8/cpu.rs:299 | `(a & m) & (0xFF - m) == 0` on bytes |
| Bytes.BitTables | src/chip8/cpu.rs:314-316 | on single bits, `&` and `^` are the AND and XOR truth tables |
| Decoder.Decode | src/chip8/cpu.rs:112-123 | decoding is total; the four nibbles reassemble the word; nnn = op mod 0x1000, nn = op mod 0x100, n = op3, vx = op1, vy = op2, every register index below 16 |
| Decoder.NibbleArithmetic | src/cpu.rs:91-102 | peeling off hex digits by div/mod reassembles the word, so the legacy decoder's fields are the same as the current one's |
| Decoder.DecodeSamples | src/chip8/cpu.rs:404-407 | the IBM logo words 00E0, A22A, 600C, D01F decode to the expected fields |
| Rom.Overlay | src/chip8/cpu.rs:74-78 | writing `data` at `base` puts `data` there and keeps every byte before and after |
| Rom.InitialMemory | src/chip8/cpu.rs:45-66 | memory after loading: the 80 font bytes at 0x050, the ROM at 0x200, zero everywhere else |
| Rom.Word | src/chip8/cpu.rs:85 | the big-endian word of two bytes has the high byte as quotient and the low byte as remainder by 0x100 |
| Rom.CopyInto | src/chip8/cpu.rs:68-72 | the byte-by-byte copy loop leaves the array equal to `Overlay` of its old contents |
| Rom.ConvertRomToOpcodes | src/chip8/cpu.rs:80-89 | `len/2` words, word k being `rom[2k]*256 + rom[2k+1]`; an odd trailing byte is dropped |
| Rom.OpcodesRecoverRom | src/cpu.rs:79-88 | the words give back every byte of the ROM (high byte at even positions, low at odd) |
| Rom.IbmLogoPrefix | src/chip8/cpu.rs:399-410 | the first twelve bytes of the IBM logo ROM convert to 00E0, A22A, 600C, 6108, D01F, 7009 |
| Display.Blank | src/chip8/display.rs:27 | a buffer of `BASE_WIDTH * BASE_HEIGHT` = 2048 cells, all zero |
| Display.CellIndex | src/chip8/display.rs:51-57 | `y * BASE_WIDTH + x`: for x < 64 and y < 32 the cell lies within the 2048 cells; `CellIndexBijective` gives x and y back |
| Display.CellIndexBijective | src/chip8/display.rs:51-53 | for x < 64 and y < 32, `y*64 + x` is in bounds and gives x and y back |
| Display.CellIndexOnto | src/chip8/display.rs:51-57 | every one of the 2048 cells is the cell of one grid position |
| Display.SetPixelFrame | src/chip8/display.rs:55-57 | setting one grid pixel leaves every other grid pixel as it was |
| Display.Display.constructor | src/chip8/display.rs:22-33 | a new display has 2048 pixels, all zero |
| Display.Display.GetPixel | src/chip8/display.rs:51-53 | the pixel read is the cell at `y*64 + x` |
| Display.Display.SetPixel | src/chip8/display.rs:55-57 | the pixel reads back the written value, every other cell is unchanged, the length is kept |
| Display.Display.Clear | src/chip8/display.rs:74-79 | every cell becomes 0 and the length is kept |
| Sprite.SpriteBit | src/chip8/cpu.rs:314 | `(sprite >> (7 - bit)) & 1` is 0 or 1 |
| Sprite.Target | src/chip8/cpu.rs:310-313 | the cell at `((x + bit) mod 64, (y + row) mod 32)` is in the buffer |
| Sprite.TargetCoordinates | src/chip8/cpu.rs:310-312 | the target cell of (row, bit) gives row and bit back |
| Sprite.TargetUnique | src/chip8/cpu.rs:310-312 | a cell is the target of at most one (row, bit) of a sprite |
| Sprite.Mask | src/chip8/cpu.rs:308-318 | the sprite bit landing on a cell is 0 or 1 |
| Sprite.Xor8Zero | src/chip8/cpu.rs:316 | XOR with a zero sprite bit keeps the pixel |
| Sprite.DrawPixel | src/chip8/cpu.rs:312-316 | one pixel of DXYN (read, VF = `pixel & sprite_bit`, write `pixel ^ sprite_bit`); the contract keeps only the buffer's 2048 cells, and `DrawRowBitsPointwise` states the cell it flips |
| Sprite.DrawRowBits | src/chip8/cpu.rs:311-317 | the first `bits` iterations of the inner loop; the contract keeps only the buffer's length, and `DrawRowBitsPointwise` states the cells they flip |
| Sprite.DrawRows | src/chip8/cpu.rs:308-318 | the first `rows` iterations of the outer loop; the contract keeps only the buffer's length, and `DrawRowsPointwise` states the cells they flip |
| Sprite.Draw | src/chip8/cpu.rs:306-318 | VF cleared, then both loops of DXYN; the contract keeps only the buffer's length, and `DrawPointwise` states the screen it computes and `DrawFlag` the final VF |
| Sprite.DrawRowBitsPointwise | src/chip8/cpu.rs:311-317 | the inner loop's invariant: after some bits of a row, each covered cell is flipped by its sprite bit and every other cell is as before |
| Sprite.StillCovered | src/chip8/cpu.rs:311-317 | one more loop step changes the coverage of its own cell only |
| Sprite.DrawRowsPointwise | src/chip8/cpu.rs:308-318 | the outer loop's invariant, cell by cell |
| Sprite.DrawPointwise | src/chip8/cpu.rs:303-318 | after the draw each cell is its old value XOR the sprite bit that lands on it |
| Sprite.DrawTouches | src/chip8/cpu.rs:303-318 | the pixel at `((x+bit) mod 64, (y+row) mod 32)` becomes old XOR sprite bit, and cells no sprite bit covers keep their value |
| Sprite.DrawTwiceRestores | src/chip8/cpu.rs:303-318 | drawing the same sprite twice at the same place restores the screen |
| Sprite.DrawKeepsBits | src/chip8/cpu.rs:313-316 | a screen of 0s and 1s stays a screen of 0s and 1s |
| Sprite.DrawFlag | src/chip8/cpu.rs:315 | VF after the draw is the AND of the last pixel drawn (as it was before the draw) and its sprite bit, or 0 for an empty sprite |
| Sprite.CollisionOverwritten | src/chip8/cpu.rs:315 | a collision on the first pixel of a row is lost once a later pixel is drawn |
| Machine.AdvancePc | src/chip8/cpu.rs:166 | `prog_counter += step` succeeds iff the sum fits in 16 bits, otherwise panics with the state unchanged |
| Machine.Initial | src/chip8/cpu.rs:45-66 | after `new`: PC 0x200, stack pointer, I, timers, registers and stack zero, memory as loaded, screen blank |
| Machine.Fetch | src/chip8/cpu.rs:91-94 | the fetched word has memory[PC] as high byte and memory[PC+1] as low byte; it panics iff PC+1 is past memory |
| Machine.ClearDisplay | src/chip8/cpu.rs:164-167 | 00E0 blanks the screen, PC += 2, nothing else changes |
| Machine.ReturnFromSubroutine | src/chip8/cpu.rs:169-172 | 00EE pops the stack into PC; an empty stack underflows the pointer and panics |
| Machine.JumpToAddress | src/chip8/cpu.rs:174-176 | 1NNN sets PC to the address and changes nothing else |
| Machine.CallSubroutineAtAddress | src/chip8/cpu.rs:178-183 | 2NNN pushes PC and jumps; the 17th entry indexes out of bounds |
| Machine.SkipIf | src/chip8/cpu.rs:185-204 | PC += 4 when the condition holds, += 2 otherwise, nothing else changes |
| Machine.SkipIfVxEqNn | src/chip8/cpu.rs:185-190 | 3XNN skips exactly when Vx == NN |
| Machine.SkipIfVxNeqNn | src/chip8/cpu.rs:192-197 | 4XNN skips exactly when Vx != NN |
| Machine.SkipIfVxEqVy | src/chip8/cpu.rs:199-204 | 5XY0 skips exactly when Vx == Vy |
| Machine.SkipIfVxNeqVy | src/chip8/cpu.rs:280-285 | 9XY0 skips exactly when Vx != Vy |
| Machine.SetRegister | src/chip8/cpu.rs:206-209 | one register gets the value, PC += 2, nothing else changes |
| Machine.SetVxToNn | src/chip8/cpu.rs:206-209 | 6XNN writes NN to Vx |
| Machine.AddVxNn | src/chip8/cpu.rs:211-214 | 7XNN: Vx = (Vx + NN) mod 256, the result is below the old Vx iff the sum wrapped, VF untouched |
| Machine.SetVxToVy | src/chip8/cpu.rs:216-219 | 8XY0 copies Vy into Vx |
| Machine.SetVxToVxOrVy | src/chip8/cpu.rs:221-224 | 8XY1 writes Vx OR Vy to Vx |
| Machine.SetVxToVxAndVy | src/chip8/cpu.rs:226-229 | 8XY2 writes Vx AND Vy to Vx |
| Machine.SetVxToVxXorVy | src/chip8/cpu.rs:231-234 | 8XY3 writes Vx XOR Vy to Vx |
| Machine.SetThenFlag | src/chip8/cpu.rs:241-242 | Vx is written first and VF second, so for x = F the flag wins |
| Machine.AddVxVy | src/chip8/cpu.rs:236-244 | 8XY4: VF = 1 iff Vx + Vy > 255, and VF*256 + new Vx is the exact sum; other registers unchanged |
| Machine.SubVxVy | src/chip8/cpu.rs:246-254 | 8XY5: VF = 1 iff Vx < Vy (a borrow), and new Vx - VF*256 is the exact difference Vx - Vy |
| Machine.SubVyVx | src/chip8/cpu.rs:263-271 | 8XY7: VF = 1 iff Vy < Vx, and new Vx - VF*256 is the exact difference Vy - Vx |
| Machine.FlagThenSet | src/chip8/cpu.rs:258-259 | VF is written first and Vx second, so for x = F the shifted value wins |
| Machine.ShiftVxRight | src/chip8/cpu.rs:256-261 | 8XY6: new Vx * 2 + VF is the old Vx, with VF the bit shifted out |
| Machine.ShiftVxLeft | src/chip8/cpu.rs:273-278 | 8XYE: VF*256 + new Vx is twice the old Vx, with VF the bit shifted out |
| Machine.SetIndRegToAddress | src/chip8/cpu.rs:287-290 | ANNN sets I to the address |
| Machine.JumpToV0PlusAddress | src/chip8/cpu.rs:292-294 | BNNN sets PC to V0 + address; it panics iff the sum exceeds 0xFFFF, which no 12-bit address can cause |
| Machine.SetVxToRndAndNn | src/chip8/cpu.rs:296-301 | CXNN: Vx has no bit outside NN and is at most NN and at most the random byte |
| Machine.SpritePanic | src/chip8/cpu.rs:308-312 | the order in which DXYN's loops can panic: never on an empty range; a row's memory read at I + row is checked before its `Vy + row` sum; an index panic happens only when I + N passes memory, an add overflow only when Vy + N > 256 or Vx + 7 > 255 |
| Machine.SpritePanicFree | src/chip8/cpu.rs:308-312 | the sprite loops run without panic iff the sprite is empty, or I + N ≤ 4096, Vy + N ≤ 256 (the last row's Vy + N - 1 fits in a byte) and Vx + 7 fits in a byte |
| Machine.DrawKeepsAllBits | src/chip8/cpu.rs:313-316 | the draw keeps a 0/1 screen 0/1 |
| Machine.SpriteRows | src/chip8/cpu.rs:308-309 | DXYN reads exactly N sprite bytes, row r being memory[I + r] |
| Machine.DisplaySprite | src/chip8/cpu.rs:303-322 | DXYN runs iff no loop panics; it sets the screen and VF to the sprite draw of memory[I..I+N] at (Vx, Vy), PC += 2, and keeps a 0/1 screen 0/1 |
| Machine.KeyStub | src/chip8/cpu.rs:323-339 | EX9E, EXA1 and FX0A only add 2 to PC |
| Machine.SetVxToDelayTimer | src/chip8/cpu.rs:332-335 | FX07 copies the delay timer into Vx |
| Machine.SetDelayTimerToVx | src/chip8/cpu.rs:341-344 | FX15 copies Vx into the delay timer |
| Machine.SetSoundTimerToVx | src/chip8/cpu.rs:346-349 | FX18 copies Vx into the sound timer |
| Machine.AddIndRegVx | src/chip8/cpu.rs:351-354 | FX1E: I += Vx with no flag, and a sum past 0xFFFF panics |
| Machine.SetIndRegToLocOfSpriteForDigitVx | src/chip8/cpu.rs:356-360 | FX29 sets I to Vx * 5 |
| Machine.Bcd | src/chip8/cpu.rs:363-365 | three decimal digits whose weighted sum 100h + 10t + o is the byte |
| Machine.StoreBcdVxInIndReg | src/chip8/cpu.rs:362-370 | FX33 writes the digits of Vx at I, I+1, I+2 and no other byte; it panics iff I+2 is past memory |
| Machine.StoreVRegInMemoryFromIndReg | src/chip8/cpu.rs:372-377 | FX55: memory[I..I+x+1] becomes V0..Vx, every other byte is unchanged; panics iff I+x is past memory |
| Machine.ReadVRegFromIndReg | src/chip8/cpu.rs:379-384 | FX65: V0..Vx become memory[I..I+x+1], every other register is unchanged; panics iff I+x is past memory |
| Machine.Execute | src/chip8/cpu.rs:111-162 | dispatch keeps the state well formed, and a panicking word leaves the state unchanged |
| Machine.Step | src/chip8/cpu.rs:98-100 | a fetch past memory panics with the state unchanged; otherwise the outcome is `Execute` of the fetched word |
| MachineProps.CallThenReturn | src/chip8/cpu.rs:169-183 | 2NNN then 00EE restores PC and the stack pointer; only the stack slot the call wrote differs |
| MachineProps.CallThenReturnWords | src/chip8/cpu.rs:125-129 | the same round trip through the dispatcher, executing the words 2NNN and 00EE |
| MachineProps.CallOnFullStackPanics | src/chip8/cpu.rs:178-183 | a call with 16 entries on the stack panics and changes nothing |
| MachineProps.StoreThenRead | src/chip8/cpu.rs:372-384 | FX55 then FX65 with the same I and x gives every register back and keeps the memory FX55 left |
| MachineProps.ReadThenStore | src/chip8/cpu.rs:372-384 | FX65 then FX55 with the same I and x writes back the bytes already there: memory is unchanged |
| MachineProps.BcdOf143 | src/chip8/cpu.rs:663-671 | FX33 on 143 writes 1, 4, 3 |
| MachineProps.RandomMaskedByLowNibble | src/chip8/cpu.rs:603-608 | CX0F leaves no high bit in Vx, whatever byte is drawn |
| MachineProps.DrawSpriteTwiceRestores | src/chip8/cpu.rs:303-322 | DXYN executed twice with the same operands restores the screen, when neither coordinate register is VF |
| MachineProps.FontPointerMissesGlyph | src/chip8/cpu.rs:356-360 | after FX29 on a digit, I lies below the font table and the five bytes there are zero in a fresh machine |
| MachineProps.UnknownWordsAreNoOps | src/chip8/cpu.rs:125-161 | a word matching no pattern (0NNN other than 00E0/00EE, 8XY8-8XYD, 8XYF, and the unmatched EX and FX words) changes nothing, PC included |
| MachineProps.ExecuteKeepsStackBound | src/chip8/cpu.rs:178-183 | no instruction takes the stack pointer past 16 |
| MachineProps.ExecuteKeepsBits | src/chip8/cpu.rs:125-161 | no instruction puts a value other than 0 or 1 on a 0/1 screen |
| MachineProps.FetchReadsRomWords | src/chip8/cpu.rs:91-94 | in a fresh machine the word fetched at 0x200 + 2k is ROM word k |
| MachineProps.IbmLogoFirstSteps | src/chip8/cpu.rs:96-100 | the IBM logo program's first two steps clear the screen (PC 0x202), then set I to 0x22A (PC 0x204) |
| MachineProps.ArithmeticFlagSamples | src/chip8/cpu.rs:513-562 | the unit tests' values: 0xFF + 1 gives 0 with VF 1, 3 - 2 gives 1 with VF 0, 0 - 1 gives 0xFF with VF 1 |
| MachineProps.FlagRegisterWriteOrder | src/chip8/cpu.rs:236-278 | with x = F, 8FY4 leaves the carry in VF, 8FY6 and 8FYE leave the shifted value |
| MachineProps.SkipSamples | src/chip8/cpu.rs:427-450 | with V0 = 0xCC, a failed skip moves PC from 0x200 to 0x202 and a taken one to 0x204 |
| MachineProps.JumpPastMemory | src/chip8/cpu.rs:292-294 | BNNN with V0 = 0xFF and 0xFFF lands on 0x10FE and the next fetch panics |
| Chip8Cpu.Cpu.Init | src/chip8/cpu.rs:45-66 | the new CPU's state is `Machine.Initial(rom)` and `opcodes` holds the ROM's words |
| Chip8Cpu.Cpu.New | src/chip8/cpu.rs:45-66 | a CPU exists iff the ROM fits, and then its state is `Machine.Initial(rom)` |
| Chip8Cpu.Cpu.InitFonts | src/chip8/cpu.rs:68-72 | the font table lands at 0x050 and no other byte changes |
| Chip8Cpu.Cpu.LoadRomIntoMemory | src/chip8/cpu.rs:74-78 | the ROM lands at PC and no other byte changes; a ROM past the end of memory panics |
| Chip8Cpu.Cpu.FetchCurrentInstruction | src/chip8/cpu.rs:91-94 | returns `Machine.Fetch` of the state |
| Chip8Cpu.Cpu.RunInstruction | src/chip8/cpu.rs:111-162 | the status and new state are `Machine.Execute` of the old state |
| Chip8Cpu.Cpu.AdvancePc | src/chip8/cpu.rs:166 | PC += step with its overflow check; nothing else changes |
| Chip8Cpu.Cpu.ClearDisplay | src/chip8/cpu.rs:164-167 | implements `Machine.ClearDisplay` |
| Chip8Cpu.Cpu.ReturnFromSubroutine | src/chip8/cpu.rs:169-172 | implements `Machine.ReturnFromSubroutine` |
| Chip8Cpu.Cpu.JumpToAddress | src/chip8/cpu.rs:174-176 | implements `Machine.JumpToAddress` |
| Chip8Cpu.Cpu.CallSubroutineAtAddress | src/chip8/cpu.rs:178-183 | implements `Machine.CallSubroutineAtAddress` |
| Chip8Cpu.Cpu.SkipIf | src/chip8/cpu.rs:185-204 | implements `Machine.SkipIf` |
| Chip8Cpu.Cpu.SkipIfVxEqNn | src/chip8/cpu.rs:185-190 | implements `Machine.SkipIfVxEqNn` |
| Chip8Cpu.Cpu.SkipIfVxNeqNn | src/chip8/cpu.rs:192-197 | implements `Machine.SkipIfVxNeqNn` |
| Chip8Cpu.Cpu.SkipIfVxEqVy | src/chip8/cpu.rs:199-204 | implements `Machine.SkipIfVxEqVy` |
| Chip8Cpu.Cpu.SkipIfVxNeqVy | src/chip8/cpu.rs:280-285 | implements `Machine.SkipIfVxNeqVy` |
| Chip8Cpu.Cpu.SetRegister | src/chip8/cpu.rs:206-209 | implements `Machine.SetRegister` |
| Chip8Cpu.Cpu.SetVxToNn | src/chip8/cpu.rs:206-209 | implements `Machine.SetVxToNn` |
| Chip8Cpu.Cpu.AddVxNn | src/chip8/cpu.rs:211-214 | implements `Machine.AddVxNn` |
| Chip8Cpu.Cpu.SetVxToVy | src/chip8/cpu.rs:216-219 | implements `Machine.SetVxToVy` |
| Chip8Cpu.Cpu.SetVxToVxOrVy | src/chip8/cpu.rs:221-224 | implements `Machine.SetVxToVxOrVy` |
| Chip8Cpu.Cpu.SetVxToVxAndVy | src/chip8/cpu.rs:226-229 | implements `Machine.SetVxToVxAndVy` |
| Chip8Cpu.Cpu.SetVxToVxXorVy | src/chip8/cpu.rs:231-234 | implements `Machine.SetVxToVxXorVy` |
| Chip8Cpu.Cpu.AddVxVy | src/chip8/cpu.rs:236-244 | implements `Machine.AddVxVy` |
| Chip8Cpu.Cpu.SubVxVy | src/chip8/cpu.rs:246-254 | implements `Machine.SubVxVy` |
| Chip8Cpu.Cpu.ShiftVxRight | src/chip8/cpu.rs:256-261 | implements `Machine.ShiftVxRight` |
| Chip8Cpu.Cpu.SubVyVx | src/chip8/cpu.rs:263-271 | implements `Machine.SubVyVx` |
| Chip8Cpu.Cpu.ShiftVxLeft | src/chip8/cpu.rs:273-278 | implements `Machine.ShiftVxLeft` |
| Chip8Cpu.Cpu.SetIndRegToAddress | src/chip8/cpu.rs:287-290 | implements `Machine.SetIndRegToAddress` |
| Chip8Cpu.Cpu.JumpToV0PlusAddress | src/chip8/cpu.rs:292-294 | implements `Machine.JumpToV0PlusAddress` |
| Chip8Cpu.Cpu.SetVxToRndAndNn | src/chip8/cpu.rs:296-301 | implements `Machine.SetVxToRndAndNn` for the drawn byte `rnd` |
| Chip8Cpu.Cpu.DisplaySprite | src/chip8/cpu.rs:303-322 | the nested loops over `get_pixel`/`set_pixel` implement `Machine.DisplaySprite` |
| Chip8Cpu.Cpu.DrawSpriteRow | src/chip8/cpu.rs:310-317 | the inner loop leaves screen and VF as `Sprite.DrawRowBits` of their old values, every other register unchanged |
| Chip8Cpu.Cpu.SkipIfKeyEqVxPressed | src/chip8/cpu.rs:324-326 | implements `Machine.KeyStub` |
| Chip8Cpu.Cpu.SkipIfKeyEqVxNotPressed | src/chip8/cpu.rs:328-330 | implements `Machine.KeyStub` |
| Chip8Cpu.Cpu.SetVxToDelayTimer | src/chip8/cpu.rs:332-335 | implements `Machine.SetVxToDelayTimer` |
| Chip8Cpu.Cpu.SetVxToKeyPress | src/chip8/cpu.rs:337-339 | implements `Machine.KeyStub` |
| Chip8Cpu.Cpu.SetDelayTimerToVx | src/chip8/cpu.rs:341-344 | implements `Machine.SetDelayTimerToVx` |
| Chip8Cpu.Cpu.SetSoundTimerToVx | src/chip8/cpu.rs:346-349 | implements `Machine.SetSoundTimerToVx` |
| Chip8Cpu.Cpu.AddIndRegVx | src/chip8/cpu.rs:351-354 | implements `Machine.AddIndRegVx` |
| Chip8Cpu.Cpu.SetIndRegToLocOfSpriteForDigitVx | src/chip8/cpu.rs:356-360 | implements `Machine.SetIndRegToLocOfSpriteForDigitVx` |
| Chip8Cpu.Cpu.StoreBcdVxInIndReg | src/chip8/cpu.rs:362-370 | implements `Machine.StoreBcdVxInIndReg` |
| Chip8Cpu.Cpu.StoreVRegInMemoryFromIndReg | src/chip8/cpu.rs:372-377 | the copy loop implements `Machine.StoreVRegInMemoryFromIndReg` |
| Chip8Cpu.Cpu.ReadVRegFromIndReg | src/chip8/cpu.rs:379-384 | the copy loop implements `Machine.ReadVRegFromIndReg` |
| LegacyCpu.Cpu.Init | src/cpu.rs:44-64 | PC 0x200, stack pointer, I, timers, registers and stack zero, memory as `Rom.InitialMemory(rom)`, `opcodes` the ROM's words |
| LegacyCpu.Cpu.New | src/cpu.rs:44-64 | a CPU exists iff the ROM fits; its memory is `Rom.InitialMemory(rom)` (fonts at 0x050, ROM at 0x200), PC 0x200, registers, I, timers, stack pointer and stack zero, `opcodes` the ROM's words |
| LegacyCpu.Cpu.InitFonts | src/cpu.rs:66-71 | the font table lands at 0x050 and no other byte changes |
| LegacyCpu.Cpu.LoadRomIntoMemory | src/cpu.rs:73-77 | the ROM lands at PC and no other byte changes; a ROM past the end of memory panics |
| LegacyCpu.Cpu.RunInstruction | src/cpu.rs:90-142 | a 1NNN word sets PC to NNN; every other word leaves every field unchanged |
| LegacyCpu.Cpu.JumpToAddress | src/cpu.rs:152-154 | PC becomes the address and nothing else changes |

## Left out

- SDL: creating the window (`init_sdl`), polling events (`update`) and rendering (`draw`). These are foreign library calls. `Clear` is modelled without its `draw(true)` call, and DXYN without its `display.draw()` call. The `width`, `height`, `scale`, canvas and texture fields of `Display` are not modelled.
- The run loop of `CPU::run`: its sleep, pacing, quit event and tracing. `Machine.Step` is one iteration without them.
- The random source of CXNN. The drawn byte is a parameter `rnd`.
- Keyboard input. EX9E, EXA1 and FX0A are stubs in the source that only move PC on, and they are modelled as such.
- `src/main.rs` (argument and file reading) is not part of this model, and neither are the `Debug` impls or the tracing `println!` calls. That includes the mnemonics the legacy `run_instruction` prints.
- The legacy `clear_display` and `return_from_subroutine` are `todo!()` bodies that no path reaches. They are not modelled.
- The unit tests that read the IBM logo ROM from a file. The ROM's first twelve bytes stand in for it (`Rom.IbmLogoPrefix`, `MachineProps.IbmLogoFirstSteps`).
- A handler that panics part-way is modelled as panicking before it writes. FX33, FX55, FX65 and DXYN can write some bytes, pixels or VF before the failing index. Nothing observes the state after a panic, so the model leaves it unchanged.
- Release builds are not modelled. The source does not fix a build profile. Without overflow checks, `prog_counter += 2`, `i_reg += Vx`, `stack_ptr -= 1` and the DXYN byte sums `x_coords + bit` and `y_coords + row` wrap instead of panicking. Those wrapped DXYN sums would land on the same pixels, because 256 is a multiple of 64 and of 32.
- Register indices are typed as 4-bit values. The handlers take a `u8` index, but every caller passes a decoded nibble, so an index of 16 or more (which would panic) is not modelled.
- Display.Display.GetPixel: requires the cell `y*64 + x` to lie in the buffer. The source panics on an index past the buffer, and a 32-bit `y*64` could overflow first. Neither panic is modelled, because the only caller, DXYN, always passes x < 64 and y < 32.
- Display.Display.SetPixel: requires the cell to lie in the buffer, for the same reason as `GetPixel`.
- Machine.Execute: states only that the state stays well formed and that a panic changes nothing. What each word does is stated by the handler it dispatches to, and by `MachineProps.UnknownWordsAreNoOps`, `ExecuteKeepsStackBound` and `ExecuteKeepsBits`.
- Sprite.DrawPixel: its own contract keeps only the buffer's length. The cell it changes and the value it writes are stated by `Sprite.DrawRowBitsPointwise`, so that each unfolding of the loop functions stays cheap for the solver.
- Sprite.DrawRowBits: its own contract keeps only the buffer's length, for the same reason; `Sprite.DrawRowBitsPointwise` states its effect cell by cell.
- Sprite.DrawRows: its own contract keeps only the buffer's length, for the same reason; `Sprite.DrawRowsPointwise` states its effect cell by cell.
- Sprite.Draw: its own contract keeps only the buffer's length, for the same reason; `Sprite.DrawPointwise` states the screen and `Sprite.DrawFlag` the final VF.

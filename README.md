# CHIP-8 interpreter core in Dafny

This project models the interpreter core of a CHIP-8 emulator written in Rust.
The core is the machine state, the fetch / decode / execute cycle, the
instruction semantics, sprite drawing, timers and ROM loading. The repository
holds three snapshots of that core, and the model covers all three as one
`Variant`:

- `C8`: `Cpu` of `src/c8.rs`, with its own `execute` and `draw`.
- `Modular`: `CPU` of `src/cpu.rs`, plus the `parse_opcode` and `draw` of
  `src/instructions.rs`.
- `Arch`: `CPU` of `src/arch.rs`. Its dispatch has no Bnnn, Cxkk or Fx29.
  Its draw does not clip, and its cycle does not tick the timers.

The model has five modules, which follow the source's own layering:

- `Chip8` (`chip8.dfy`): the machine widths (`Byte` is `u8`, `Word` is `u16`),
  the constants, the variants, `u8` bitwise OR/AND/XOR as recursive functions
  on integers, and the font table.
- `Decoding` (`decoding.dfy`): the opcode match as a pure function
  `Decode(variant, opcode): Option<Instr>`. `None` is the source's
  "Unknown opcode" panic. `Encode` is a reference encoder, and lemmas connect
  the two in both directions.
- `Semantics` (`semantics.dfy`): the machine state as a value, and each
  instruction as a function from state to `Outcome`, which is `Done(state)` or
  `Panic`. `Cycle` is one `emulate_cycle`.
- `Interpreter` (`machine.dfy`): the `Machine` class. Its fields are updated in
  place, as the Rust structs' are: arrays for memory, registers, stack, keys
  and the 64x32 display, and mutable fields for I, PC, SP, the timers and the
  draw flag. `LoadRom` copies the ROM with a loop. `EmulateCycle` fetches,
  decodes and executes in place; the draw is a double loop over sprite rows
  and columns. Every top-level method (`EmulateCycle`, `Execute`, `Step` and
  the per-family methods) is proved against the matching `Semantics` function:
  it reports success exactly when that function does not panic, and then its
  new state is that function's result. The draw loop's inner methods
  (`DrawRows`, `DrawRow`, `DrawBit`, `ToggleCell`, `FlipCell`) and
  `ClearScreen` are proved against `DrawProgress` and `Blank`.
- `Properties` (`properties.dfy`): what the instructions, the draw, the cycle
  and start-up promise, proved over the `Semantics` functions.

Debug-build Rust semantics are modelled. Every overflow, underflow and
out-of-range index that the source leaves unchecked is a `Panic` at exactly
the inputs that cause it:

- `sp -= 1` at 0; `stack[16]`;
- `pc + 2` past `u16`; a fetch at PC 4095;
- `keys[Vx]` for `Vx >= 16`;
- `FONTSET[Vx]` for `Vx >= 80`;
- `i + Vx` past `u16`;
- `memory[i + k]` past 4095;
- in `src/arch.rs`, a sprite bit off the display.

What the machine holds after a panic is left unspecified.

Where the code and the usual CHIP-8 description (Cowgod's CHIP-8 Technical
Reference) disagree, the model follows the code:

- Fx0A does not wait for a key; it does nothing.
- 8xy5 and 8xy7 set VF to 1 when the operands are equal: the code sets VF
  whenever the subtraction does not borrow (Vx >= Vy for 8xy5, Vy >= Vx for
  8xy7), where the reference asks for "greater than".
- There is no Fx18, so the sound timer is never loaded.
- Fx29 loads byte Vx of the font table into I, not the glyph address 5 * Vx.
- Fx1E does not mask I to 12 bits.
- 5xyN and 9xyN ignore N.
- 00E0 does not set the draw flag.
- In `src/c8.rs` and `src/instructions.rs`, sprite pixels past the right or
  bottom edge are dropped, not wrapped.

## Model

| member | source | states |
|---|---|---|
| Decoding.DecodeEncode | src/c8.rs:233-483 | decoding the reference encoding of any instruction the variant's dispatch supports gives that instruction back |
| Decoding.EncodeDecode | src/c8.rs:233-483 | every opcode the dispatch accepts decodes to a supported instruction whose encoding is the opcode itself, or the opcode with its low nibble cleared for the forms that ignore it |
| Decoding.FieldsDecode | src/instructions.rs:4-216 | field-level form of the previous row: an accepted opcode's fields are exactly those of its instruction |
| Decoding.UnknownOpcodes | src/c8.rs:244 | an opcode panics as unknown exactly when it is one of the listed unknown forms; this covers the catch-all arms at c8.rs lines 244, 371, 419, 479 and 481 |
| Decoding.NoSoundTimerLoad | src/c8.rs:423-480 | Fx18 has no arm, so in every variant it is an unknown opcode |
| Decoding.LowNibbleIgnored | src/c8.rs:258-282 | 5xyN and 9xyN decode the same for every N |
| Decoding.VariantsAgree | src/arch.rs:51-250 | the three dispatch tables agree on every opcode except Bnnn, Cxkk and Fx29 |
| Properties.VariantOpcodeSets | src/arch.rs:51-250 | src/arch.rs lacks Bnnn, Cxkk and Fx29; src/instructions.rs has Bnnn and Fx29 but lacks Cxkk; src/c8.rs has all three |
| Properties.AddCarry | src/c8.rs:329-335 | 8xy4: VF is the carry, and Vx + 256 * carry is the true sum; nothing else changes |
| Properties.SubBorrow | src/c8.rs:338-344 | 8xy5: VF is 1 exactly when Vx >= Vy, and Vx is Vx - Vy modulo 256; no other register or field changes |
| Properties.SubNBorrow | src/c8.rs:355-361 | 8xy7: VF is 1 exactly when Vy >= Vx, and Vx is Vy - Vx modulo 256; no other register or field changes |
| Properties.ShiftRight | src/c8.rs:347-352 | 8xy6: VF is the old Vx mod 2, the bit shifted out, even when x is F; for other x, 2 * Vx' + VF = Vx, and Vy does not matter; no other register, memory or field changes |
| Properties.ShiftLeft | src/c8.rs:364-369 | 8xyE: VF is the old Vx / 128, the top bit shifted out, even when x is F; for other x, Vx' + 256 * VF = 2 * Vx, and Vy does not matter; no other register, memory or field changes |
| Properties.LogicOpsOnlyVx | src/c8.rs:300-326 | 8xy0 to 8xy3 write only Vx and leave VF alone; Vx becomes Vy, Vx OR Vy, Vx AND Vy or Vx XOR Vy, with the bitwise operations defined bit by bit |
| Properties.AddByteKeepsFlag | src/c8.rs:292-296 | 7xkk adds modulo 256 and leaves VF unchanged |
| Properties.RandomMasked | src/c8.rs:395-399 | Cxkk: Vx becomes the random byte AND kk, so it has no bit outside kk, and only Vx changes |
| Properties.AddIndexUnmasked | src/c8.rs:474-477 | Fx1E panics exactly on 16-bit overflow; otherwise I becomes I + Vx unmasked, so 0xFFF + 1 gives 0x1000 |
| Properties.FontLoadIsGlyphByte | src/c8.rs:442-446 | Fx29 panics exactly when Vx >= 80; otherwise I is font byte Vx |
| Properties.ClearAndJumps | src/c8.rs:238-248 | 00E0 blanks every cell and leaves the draw flag alone; 1nnn sets PC to nnn; Bnnn sets PC to V0 + nnn unmasked, which may reach 0x1000 |
| Properties.SimpleLoads | src/c8.rs:285-289 | 6xkk, Annn, Fx07 and Fx15 each copy one value into one place; Fx0A changes nothing |
| Properties.CallPushes | src/c8.rs:251-255 | 2nnn panics exactly on a full stack; otherwise it pushes PC, bumps SP and jumps |
| Properties.ReturnPops | src/c8.rs:240-243 | 00EE panics exactly when SP is 0 or past 16; otherwise it pops PC |
| Properties.CallThenReturn | src/c8.rs:240-255 | CALL then RET restores PC and SP; only the stack slot CALL wrote differs |
| Properties.SkipOnlyMovesPc | src/c8.rs:256-418 | a skip moves PC by 0 or 2 and changes nothing else; Ex9E/ExA1 panic when Vx >= 16 |
| Properties.SkipConditions | src/c8.rs:256-418 | with PC below 0xFFFE: 3xkk skips exactly when Vx = kk, 4xkk exactly when Vx != kk, 5xy0 exactly when Vx = Vy, 9xy0 exactly when Vx != Vy, Ex9E exactly when key Vx is down and ExA1 exactly when it is up; Ex9E and ExA1 panic exactly when Vx >= 16 |
| Properties.SkipPairsComplementary | src/c8.rs:256-418 | SE and SNE with the same operands (byte, register or key) skip in complementary cases |
| Properties.BcdDigits | src/c8.rs:449-455 | Fx33 panics exactly when I + 2 is past memory; otherwise it writes three digits, each at most 9, that add back up to Vx, and nothing else |
| Properties.StoreRegsWrites | src/c8.rs:458-463 | Fx55 panics exactly when I + x is past memory; otherwise memory I..I+x holds V0..Vx and nothing else changes |
| Properties.LoadRegsReads | src/c8.rs:466-471 | Fx65 panics exactly when I + x is past memory; otherwise V0..Vx hold memory I..I+x and the higher registers stay |
| Properties.StoreThenLoad | src/c8.rs:458-471 | Fx55 then Fx65 with the same x gives the same state as Fx55 alone |
| Properties.LoadThenStore | src/c8.rs:458-471 | Fx65 then Fx55 with the same x gives the same state as Fx65 alone |
| Properties.DrawTogglesCovered | src/c8.rs:202-231 | Dxyn: a cell changes exactly when a set sprite bit lies on it; cells above or left of the origin never change (no wrap-around); VF is 1 exactly on a collision; only VF, the display and the draw flag change |
| Properties.DrawPanics | src/arch.rs:252-274 | the clipping draw panics only on a sprite row past memory; the src/arch.rs draw also panics when a set bit falls off the display, and otherwise matches the clipping draw |
| Properties.DrawKeepsBinary | src/c8.rs:226 | `^= 1` keeps every display cell 0 or 1 |
| Properties.DrawnTwice | src/c8.rs:226 | XOR-ing the same sprite twice at the same origin restores the display |
| Properties.DrawTwiceRestores | src/c8.rs:202-231 | drawing the same sprite twice, with neither coordinate in VF, cannot panic the second time and restores the display |
| Properties.DrawOnBlankNoCollision | src/c8.rs:211-225 | drawing on a blank display leaves VF 0 |
| Properties.DrawTwiceCollides | src/c8.rs:211-226 | drawing a sprite on a blank display and drawing it again: the second draw succeeds and sets VF to 1 exactly when the first lit some cell |
| Properties.SelfCollisionLit | src/c8.rs:223-226 | a sprite that collides with its own image on a blank display has lit some cell |
| Properties.LitSelfCollision | src/c8.rs:223-226 | a sprite that lit some cell of a blank display collides with that image when drawn again |
| Properties.ApplyFrame | src/c8.rs:233-483 | no instruction writes the sound timer or the keys; only Fx15 writes the delay timer; only 00E0 and Dxyn write the display; array sizes are kept |
| Properties.FetchBigEndian | src/c8.rs:165-167 | the opcode is the big-endian word at PC |
| Properties.ZeroOpcodeIsNoOp | src/c8.rs:165-172 | fetching at PC 4095 panics; opcode 0 only advances PC by 2, with no dispatch and no timer tick |
| Properties.CallSavesNextInstruction | src/c8.rs:169-178 | PC is advanced before execution, so a CALL through the cycle saves the address of the next instruction |
| Properties.CycleTimers | src/c8.rs:180-187 | after an executed instruction each nonzero timer drops by 1 and a zero timer stays 0; src/arch.rs leaves both timers alone |
| Properties.SoundTimerNeverRises | src/cpu.rs:151-158 | no cycle raises the sound timer |
| Properties.TicksFloorAtZero | src/cpu.rs:151-158 | k ticks in a row bring each timer to max(t - k, 0) and change nothing else |
| Properties.ApplyKeepsBinary | src/c8.rs:233-483 | every instruction keeps the display cells 0 or 1 |
| Properties.CycleKeepsBinary | src/c8.rs:164-188 | every cycle keeps the state well formed and the display cells 0 or 1 |
| Properties.InitialState | src/cpu.rs:23-57 | `new()` puts PC at 0x200 and zeroes everything else; memory does not hold the 80-byte font |
| Properties.LoadedHoldsRom | src/cpu.rs:112-116 | after loading, memory from 0x200 reads back the ROM, and memory outside it is unchanged |
| Properties.BootFetchesRom | src/c8.rs:52-54 | after `new()` and loading a ROM, the first fetch reads the ROM's first two bytes |
| Properties.ExecuteEncoded | src/c8.rs:233-483 | executing the encoding of a supported instruction runs that instruction |
| Properties.UnknownOpcodeIsFatal | src/c8.rs:479-481 | an opcode without an arm, Fx18 among them, panics |
| Interpreter.Machine.constructor | src/c8.rs:25-41 | the new machine's state is the initial state |
| Interpreter.Machine.LoadRom | src/c8.rs:43-57 | succeeds exactly when the ROM fits in 0xE00 bytes, and then only memory changes, to the loaded image |
| Interpreter.Machine.SetKey | src/cpu.rs:89-91 | the host's key write changes exactly one key |
| Interpreter.Machine.EmulateCycle | src/c8.rs:164-188 | the in-place cycle succeeds exactly when `Semantics.Cycle` does not panic, and then leaves exactly its state |
| Interpreter.Machine.TickTimers | src/c8.rs:180-187 | the in-place decrements leave exactly the state `Semantics.TickTimers` describes |
| Interpreter.Machine.Execute | src/c8.rs:233-483 | the in-place dispatch agrees with `Semantics.Execute` |
| Interpreter.Machine.Step | src/c8.rs:233-483 | one decoded instruction in place: it succeeds exactly when `Semantics.Apply` does not panic, and then leaves the state `Semantics.Apply` gives |
| Interpreter.Machine.Control | src/c8.rs:236-255 | 00E0, 00EE, 1nnn, 2nnn and Bnnn in place agree with `Semantics.Control` |
| Interpreter.Machine.Skip | src/c8.rs:258-421 | the skips in place agree with `Semantics.Skip` |
| Interpreter.Machine.Registers | src/c8.rs:285-477 | the register, I and delay-timer instructions in place agree with `Semantics.Registers` |
| Interpreter.Machine.MemoryOp | src/c8.rs:449-471 | Fx33, Fx55 and Fx65 in place agree with `Semantics.MemoryOp` |
| Interpreter.Machine.StoreRegisters | src/c8.rs:458-463 | the Fx55 copy loop writes exactly what `Semantics.StoredRegs` describes |
| Interpreter.Machine.LoadRegisters | src/c8.rs:466-471 | the Fx65 copy loop reads exactly what `Semantics.LoadedRegs` describes |
| Interpreter.Machine.DrawSprite | src/c8.rs:202-231 | the in-place double loop draw agrees with `Semantics.DrawSprite`: panics, VF, display and draw flag |
| Interpreter.Machine.DrawRows | src/instructions.rs:228-245 | the row loop reads the sprite rows from memory and keeps every cell, and VF, equal to the drawn-so-far display and collision |
| Interpreter.Machine.DrawRow | src/c8.rs:214-228 | the column loop over one sprite row advances the drawn-so-far display and collision by eight bits, or panics on a stray bit without clipping |
| Interpreter.Machine.ToggleCell | src/c8.rs:223-226 | toggling the cell under a set bit advances the drawn-so-far display and collision by one bit |
| Interpreter.Machine.FlipCell | src/c8.rs:223-226 | VF becomes 1 when the cell was 1, the cell is flipped, and no other cell or register changes |
| Interpreter.Machine.AluStep | src/c8.rs:298-370 | the 8xyN arms in place leave exactly the state `Semantics.AluStep` describes |
| Interpreter.Machine.StoreDigits | src/c8.rs:449-455 | the Fx33 writes in place agree with `Semantics.MemoryOp` |
| Interpreter.Machine.ClearScreen | src/c8.rs:238 | after clearing, the display is blank |
| Interpreter.Machine.DrawBit | src/arch.rs:262-270 | one sprite bit: it toggles its cell and records a collision, is skipped off screen when clipping, or panics in src/arch.rs |

## Left out

- The SDL window, audio and event loop are not modelled: `boot`, `run`, `check_keys`, `src/display.rs` and `src/main.rs`. The display is the `display` array the loop would present.
- The key map from host key codes to CHIP-8 keys (`load_keys`) is not modelled. `SetKey` models the host writing one entry of `keys`.
- Reading the ROM file from disk is not modelled: `fs::read`, the file-name argument, the `rom_loaded` flag and its messages. `LoadRom` takes the ROM bytes.
- Random numbers are not modelled: Cxkk's `rand::random::<u8>()` is the parameter `rnd` of `Cycle`, `Execute` and `EmulateCycle`.
- Frame pacing, `async` scheduling and single-step mode are not modelled; nor is any printing (`print_registers`, "BEEP!", opcode traces).
- `Semantics.Cycle`: a panic is one `Panic` outcome. Writes the source made before panicking, such as registers already copied by Fx55, are not modelled.
- Release-build wrap-around of `u8`/`u16` arithmetic is not modelled; the debug-build panics are.
- `crate::FONTSET`, which `src/c8.rs` reads in Fx29, is not shown in the source files. It is modelled as the 80-byte table of `src/cpu.rs`.
- `Properties.FontLoadIsGlyphByte`: does not state which concrete font byte Fx29 yields for a given Vx, only that it is entry Vx of the table.
- `Interpreter.Machine.Execute`, `Interpreter.Machine.Step` and the other in-place methods do not describe the machine after a panic (`ok == false`).

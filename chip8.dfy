/** Machine words, sizes, the 8-bit bitwise operators and the built-in font
    of the CHIP-8 interpreter, shared by every other module. */
module Chip8 {

  /** An unsigned 8-bit value (`u8`). */
  type Byte = x: int | 0 <= x < 0x100
  /** An unsigned 16-bit value (`u16`). */
  type Word = x: int | 0 <= x < 0x1_0000
  /** A 4-bit instruction field; also a register number 0x0..0xF. */
  type Nibble = x: int | 0 <= x < 0x10
  /** The 12-bit address field `nnn` of an instruction. */
  type Addr = x: int | 0 <= x < 0x1000

  const MEMORY_SIZE: nat := 4096
  /** Where a ROM is copied to and where execution starts. */
  const PROGRAM_START: nat := 0x200
  /** The largest ROM `load_rom` can copy without indexing past memory. */
  const MAX_ROM_SIZE: nat := MEMORY_SIZE - PROGRAM_START
  const REGISTER_COUNT: nat := 16
  const STACK_SIZE: nat := 16
  const KEY_COUNT: nat := 16
  const WIDTH: nat := 64
  const HEIGHT: nat := 32
  /** VF, the register that receives carry, borrow, shifted-out bit and collision. */
  const FLAG: Nibble := 0xF

  datatype Option<T> = None | Some(value: T)

  /** The three snapshots of the interpreter in the repository:
      `C8` is `Cpu` of src/c8.rs, `Modular` is `CPU` of src/cpu.rs together
      with the opcode set of src/instructions.rs, `Arch` is `CPU` of src/arch.rs. */
  datatype Variant = C8 | Modular | Arch {
    /** Bnnn (JP V0, addr) has an arm in the dispatch. */
    predicate HasJumpOffset() { this != Arch }
    /** Cxkk (RND Vx, byte) has an arm in the dispatch. */
    predicate HasRandom() { this == C8 }
    /** Fx29 (LD F, Vx) has an arm in the dispatch. */
    predicate HasFontLoad() { this != Arch }
    /** Draw skips sprite pixels that fall off the display instead of indexing past it. */
    predicate ClipsSprites() { this != Arch }
    /** `emulate_cycle` decrements the timers after an executed instruction. */
    predicate TicksTimers() { this != Arch }
  }

  function Pow2(k: nat): (p: nat)
    ensures p >= 1
  {
    if k == 0 then 1 else 2 * Pow2(k - 1)
  }

  /** The low `width` bits of `a | b`, combined bit by bit from the least significant. */
  function BitOr(a: nat, b: nat, width: nat): (r: nat)
    ensures r < Pow2(width)
  {
    if width == 0 then 0
    else 2 * BitOr(a / 2, b / 2, width - 1) + (if a % 2 == 1 || b % 2 == 1 then 1 else 0)
  }

  /** The low `width` bits of `a & b`. */
  function BitAnd(a: nat, b: nat, width: nat): (r: nat)
    ensures r < Pow2(width)
  {
    if width == 0 then 0
    else 2 * BitAnd(a / 2, b / 2, width - 1) + (if a % 2 == 1 && b % 2 == 1 then 1 else 0)
  }

  /** The low `width` bits of `a ^ b`. */
  function BitXor(a: nat, b: nat, width: nat): (r: nat)
    ensures r < Pow2(width)
  {
    if width == 0 then 0
    else 2 * BitXor(a / 2, b / 2, width - 1) + (if a % 2 != b % 2 then 1 else 0)
  }

  /** `u8 | u8`, `u8 & u8` and `u8 ^ u8`. */
  function Or(a: Byte, b: Byte): Byte { BitOr(a, b, 8) }
  function And(a: Byte, b: Byte): Byte { BitAnd(a, b, 8) }
  function Xor(a: Byte, b: Byte): Byte { BitXor(a, b, 8) }

  lemma Pow2Byte()
    ensures Pow2(8) == 0x100
  {
  }

  /** Every set bit of `BitAnd(a, m, width)` is a bit of `m`. */
  lemma {:induction false} AndWithinMask(a: nat, m: nat, width: nat)
    requires m < Pow2(width)
    ensures BitOr(BitAnd(a, m, width), m, width) == m
  {
    if width > 0 {
      AndWithinMask(a / 2, m / 2, width - 1);
      var lo := BitAnd(a / 2, m / 2, width - 1);
      assert (2 * lo + (if a % 2 == 1 && m % 2 == 1 then 1 else 0)) / 2 == lo;
    }
  }

  /** XOR with the same mask twice gives back the input. */
  lemma {:induction false} XorTwice(a: nat, b: nat, width: nat)
    requires a < Pow2(width)
    ensures BitXor(BitXor(a, b, width), b, width) == a
  {
    if width > 0 {
      XorTwice(a / 2, b / 2, width - 1);
      var lo := BitXor(a / 2, b / 2, width - 1);
      assert (2 * lo + (if a % 2 != b % 2 then 1 else 0)) / 2 == lo;
    }
  }

  /** `cell ^= 1` on a display cell. */
  function Toggle(cell: Byte): Byte { Xor(cell, 1) }

  lemma ToggleTwice(cell: Byte)
    ensures Toggle(Toggle(cell)) == cell
  {
    Pow2Byte();
    XorTwice(cell, 1, 8);
  }

  /** `cell ^= 1` always changes the cell: it flips the lowest bit. */
  lemma ToggleChanges(cell: Byte)
    ensures Toggle(cell) != cell
  {
    assert Toggle(cell) == 2 * BitXor(cell / 2, 0, 7) + (if cell % 2 != 1 then 1 else 0);
  }

  lemma ToggleBit(cell: Byte)
    ensures cell == 0 ==> Toggle(cell) == 1
    ensures cell == 1 ==> Toggle(cell) == 0
  {
  }

  /** `0x80 >> xline`: the bit of sprite column `xline`, the leftmost column being the top bit. */
  function ColumnMask(xline: nat): Byte
    requires xline < 8
  {
    if xline == 0 then 0x80 else ColumnMask(xline - 1) / 2
  }

  /** Sprite row `pixel` has its column `xline` set: `pixel & (0x80 >> xline) != 0`. */
  predicate SpriteBit(pixel: Byte, xline: int)
    requires 0 <= xline < 8
  {
    And(pixel, ColumnMask(xline)) != 0
  }

  /** The font of src/cpu.rs: 16 glyphs (0-F), 5 rows each, one byte per row. */
  const FONTSET: seq<Byte> := [
    0xF0, 0x90, 0x90, 0x90, 0xF0, // 0
    0x20, 0x60, 0x20, 0x20, 0x70, // 1
    0xF0, 0x10, 0xF0, 0x80, 0xF0, // 2
    0xF0, 0x10, 0xF0, 0x10, 0xF0, // 3
    0x90, 0x90, 0xF0, 0x10, 0x10, // 4
    0xF0, 0x80, 0xF0, 0x10, 0xF0, // 5
    0xF0, 0x80, 0xF0, 0x90, 0xF0, // 6
    0xF0, 0x10, 0x20, 0x40, 0x40, // 7
    0xF0, 0x90, 0xF0, 0x90, 0xF0, // 8
    0xF0, 0x90, 0xF0, 0x10, 0xF0, // 9
    0xF0, 0x90, 0xF0, 0x90, 0x90, // A
    0xE0, 0x90, 0xE0, 0x90, 0xE0, // B
    0xF0, 0x80, 0x80, 0x80, 0xF0, // C
    0xE0, 0x90, 0x90, 0x90, 0xE0, // D
    0xF0, 0x80, 0xF0, 0x80, 0xF0, // E
    0xF0, 0x80, 0xF0, 0x80, 0x80  // F
  ]
}

/** Instruction decoding: the nested match on the opcode's nibbles that
    `execute` / `parse_opcode` perform before acting, and the reference
    encoding of each instruction (Cowgod's CHIP-8 Technical Reference, section 3.1). */
module Decoding {
  import opened Chip8

  /** The operations of the 8xy? family, by their low nibble. */
  datatype AluOp =
    | Copy  // 8xy0 LD Vx, Vy
    | BitwiseOr   // 8xy1 OR Vx, Vy
    | BitwiseAnd  // 8xy2 AND Vx, Vy
    | BitwiseXor  // 8xy3 XOR Vx, Vy
    | Add   // 8xy4 ADD Vx, Vy
    | Sub   // 8xy5 SUB Vx, Vy
    | Shr   // 8xy6 SHR Vx
    | SubN  // 8xy7 SUBN Vx, Vy
    | Shl   // 8xyE SHL Vx

  /** An opcode with its fields pulled out, one constructor per arm of the dispatch. */
  datatype Instr =
    | ClearScreen                             // 00E0 CLS
    | Return                                  // 00EE RET
    | Jump(nnn: Addr)                         // 1nnn JP addr
    | Call(nnn: Addr)                         // 2nnn CALL addr
    | SkipEqByte(x: Nibble, kk: Byte)         // 3xkk SE Vx, byte
    | SkipNeByte(x: Nibble, kk: Byte)         // 4xkk SNE Vx, byte
    | SkipEqReg(x: Nibble, y: Nibble)         // 5xy? SE Vx, Vy
    | LoadByte(x: Nibble, kk: Byte)           // 6xkk LD Vx, byte
    | AddByte(x: Nibble, kk: Byte)            // 7xkk ADD Vx, byte
    | Alu(op: AluOp, x: Nibble, y: Nibble)    // 8xy0-8xy7, 8xyE
    | SkipNeReg(x: Nibble, y: Nibble)         // 9xy? SNE Vx, Vy
    | LoadIndex(nnn: Addr)                    // Annn LD I, addr
    | JumpOffset(nnn: Addr)                   // Bnnn JP V0, addr
    | Random(x: Nibble, kk: Byte)             // Cxkk RND Vx, byte
    | Draw(x: Nibble, y: Nibble, n: Nibble)   // Dxyn DRW Vx, Vy, nibble
    | SkipKey(x: Nibble)                      // Ex9E SKP Vx
    | SkipNoKey(x: Nibble)                    // ExA1 SKNP Vx
    | WaitKey(x: Nibble)                      // Fx0A LD Vx, K
    | LoadDelay(x: Nibble)                    // Fx07 LD Vx, DT
    | SetDelay(x: Nibble)                     // Fx15 LD DT, Vx
    | LoadFont(x: Nibble)                     // Fx29 LD F, Vx
    | StoreBcd(x: Nibble)                     // Fx33 LD B, Vx
    | StoreRegs(x: Nibble)                    // Fx55 LD [I], Vx
    | LoadRegs(x: Nibble)                     // Fx65 LD Vx, [I]
    | AddIndex(x: Nibble)                     // Fx1E ADD I, Vx

  /** The dispatch of `execute` (src/c8.rs) / `parse_opcode` (src/instructions.rs,
      src/arch.rs): `None` is the `panic!("Unknown opcode")` arm. The four fields
      are `opcode & 0xF000`, `(opcode & 0x0F00) >> 8`, `(opcode & 0x00F0) >> 4`
      and `opcode & 0x000F`. */
  function Decode(variant: Variant, opcode: Word): Option<Instr>
  {
    DecodeFields(variant, opcode / 0x1000, (opcode / 0x100) % 0x10, (opcode / 0x10) % 0x10, opcode % 0x10)
  }

  /** The nested match on the fields; `kk` is `opcode & 0x00FF`, `nnn` is `opcode & 0x0FFF`. */
  function DecodeFields(variant: Variant, hi: Nibble, x: Nibble, y: Nibble, n: Nibble): Option<Instr>
  {
    var kk: Byte := y * 0x10 + n;
    var nnn: Addr := x * 0x100 + kk;
    match hi
    case 0x0 =>
      if nnn == 0x0E0 then Some(ClearScreen)
      else if nnn == 0x0EE then Some(Return)
      else None
    case 0x1 => Some(Jump(nnn))
    case 0x2 => Some(Call(nnn))
    case 0x3 => Some(SkipEqByte(x, kk))
    case 0x4 => Some(SkipNeByte(x, kk))
    case 0x5 => Some(SkipEqReg(x, y))
    case 0x6 => Some(LoadByte(x, kk))
    case 0x7 => Some(AddByte(x, kk))
    case 0x8 =>
      (match n
       case 0x0 => Some(Alu(Copy, x, y))
       case 0x1 => Some(Alu(BitwiseOr, x, y))
       case 0x2 => Some(Alu(BitwiseAnd, x, y))
       case 0x3 => Some(Alu(BitwiseXor, x, y))
       case 0x4 => Some(Alu(Add, x, y))
       case 0x5 => Some(Alu(Sub, x, y))
       case 0x6 => Some(Alu(Shr, x, y))
       case 0x7 => Some(Alu(SubN, x, y))
       case 0xE => Some(Alu(Shl, x, y))
       case _ => None)
    case 0x9 => Some(SkipNeReg(x, y))
    case 0xA => Some(LoadIndex(nnn))
    case 0xB => if variant.HasJumpOffset() then Some(JumpOffset(nnn)) else None
    case 0xC => if variant.HasRandom() then Some(Random(x, kk)) else None
    case 0xD => Some(Draw(x, y, n))
    case 0xE =>
      if kk == 0x9E then Some(SkipKey(x))
      else if kk == 0xA1 then Some(SkipNoKey(x))
      else None
    case _ =>
      (match kk
       case 0x0A => Some(WaitKey(x))
       case 0x07 => Some(LoadDelay(x))
       case 0x15 => Some(SetDelay(x))
       case 0x29 => if variant.HasFontLoad() then Some(LoadFont(x)) else None
       case 0x33 => Some(StoreBcd(x))
       case 0x55 => Some(StoreRegs(x))
       case 0x65 => Some(LoadRegs(x))
       case 0x1E => Some(AddIndex(x))
       case _ => None)
  }

  /** The instruction has an arm in the dispatch of `variant`. */
  predicate Supported(variant: Variant, i: Instr)
  {
    match i
    case JumpOffset(_) => variant.HasJumpOffset()
    case Random(_, _) => variant.HasRandom()
    case LoadFont(_) => variant.HasFontLoad()
    case _ => true
  }

  function AluCode(op: AluOp): Nibble
  {
    match op
    case Copy => 0x0
    case BitwiseOr => 0x1
    case BitwiseAnd => 0x2
    case BitwiseXor => 0x3
    case Add => 0x4
    case Sub => 0x5
    case Shr => 0x6
    case SubN => 0x7
    case Shl => 0xE
  }

  function Pack(hi: Nibble, x: Nibble, y: Nibble, n: Nibble): Word
  {
    hi * 0x1000 + x * 0x100 + y * 0x10 + n
  }

  /** The four nibbles of each instruction's reference encoding; the register
      forms of SE and SNE are encoded with a zero low nibble. */
  function Fields(i: Instr): (Nibble, Nibble, Nibble, Nibble)
  {
    match i
    case ClearScreen => (0x0, 0x0, 0xE, 0x0)
    case Return => (0x0, 0x0, 0xE, 0xE)
    case Jump(nnn) => (0x1, nnn / 0x100, (nnn / 0x10) % 0x10, nnn % 0x10)
    case Call(nnn) => (0x2, nnn / 0x100, (nnn / 0x10) % 0x10, nnn % 0x10)
    case SkipEqByte(x, kk) => (0x3, x, kk / 0x10, kk % 0x10)
    case SkipNeByte(x, kk) => (0x4, x, kk / 0x10, kk % 0x10)
    case SkipEqReg(x, y) => (0x5, x, y, 0x0)
    case LoadByte(x, kk) => (0x6, x, kk / 0x10, kk % 0x10)
    case AddByte(x, kk) => (0x7, x, kk / 0x10, kk % 0x10)
    case Alu(op, x, y) => (0x8, x, y, AluCode(op))
    case SkipNeReg(x, y) => (0x9, x, y, 0x0)
    case LoadIndex(nnn) => (0xA, nnn / 0x100, (nnn / 0x10) % 0x10, nnn % 0x10)
    case JumpOffset(nnn) => (0xB, nnn / 0x100, (nnn / 0x10) % 0x10, nnn % 0x10)
    case Random(x, kk) => (0xC, x, kk / 0x10, kk % 0x10)
    case Draw(x, y, n) => (0xD, x, y, n)
    case SkipKey(x) => (0xE, x, 0x9, 0xE)
    case SkipNoKey(x) => (0xE, x, 0xA, 0x1)
    case WaitKey(x) => (0xF, x, 0x0, 0xA)
    case LoadDelay(x) => (0xF, x, 0x0, 0x7)
    case SetDelay(x) => (0xF, x, 0x1, 0x5)
    case LoadFont(x) => (0xF, x, 0x2, 0x9)
    case StoreBcd(x) => (0xF, x, 0x3, 0x3)
    case StoreRegs(x) => (0xF, x, 0x5, 0x5)
    case LoadRegs(x) => (0xF, x, 0x6, 0x5)
    case AddIndex(x) => (0xF, x, 0x1, 0xE)
  }

  /** The reference encoding of an instruction: its four nibbles, high first. */
  function Encode(i: Instr): Word
  {
    var (hi, x, y, n) := Fields(i);
    Pack(hi, x, y, n)
  }

  /** The register forms of SE and SNE never look at the low nibble. */
  predicate IgnoresLowNibble(i: Instr)
  {
    i.SkipEqReg? || i.SkipNeReg?
  }

  /** The four nibbles of a packed word are recovered by the shifts and masks of the source. */
  lemma PackFields(hi: Nibble, x: Nibble, y: Nibble, n: Nibble)
    ensures var w := Pack(hi, x, y, n);
      && w / 0x1000 == hi && (w / 0x100) % 0x10 == x && (w / 0x10) % 0x10 == y && w % 0x10 == n
  {
    var w := Pack(hi, x, y, n);
    assert 0 <= x * 0x100 + y * 0x10 + n < 0x1000;
    assert w / 0x1000 == hi;
    assert w / 0x100 == hi * 0x10 + x;
    assert w / 0x10 == hi * 0x100 + x * 0x10 + y;
  }

  /** Every word is the packing of its own four nibbles. */
  lemma Unpack(w: Word)
    ensures w == Pack(w / 0x1000, (w / 0x100) % 0x10, (w / 0x10) % 0x10, w % 0x10)
  {
    var a := w / 0x10;
    var b := a / 0x10;
    assert w == a * 0x10 + w % 0x10;
    assert a == b * 0x10 + a % 0x10;
    assert b == (b / 0x10) * 0x10 + b % 0x10;
    assert b == w / 0x100;
    assert b / 0x10 == w / 0x1000;
  }

  lemma SplitAddr(nnn: Addr)
    ensures nnn == (nnn / 0x100) * 0x100 + ((nnn / 0x10) % 0x10) * 0x10 + nnn % 0x10
  {
    var a := nnn / 0x10;
    assert nnn == a * 0x10 + nnn % 0x10;
    assert a == (a / 0x10) * 0x10 + a % 0x10;
    assert a / 0x10 == nnn / 0x100;
  }

  lemma DecodeAddressForms(variant: Variant, i: Instr)
    requires i.Jump? || i.Call? || i.LoadIndex? || i.JumpOffset?
    requires Supported(variant, i)
    ensures var (hi, x, y, n) := Fields(i); DecodeFields(variant, hi, x, y, n) == Some(i)
  {
    var (hi, x, y, n) := Fields(i);
    SplitAddr(i.nnn);
    assert x * 0x100 + (y * 0x10 + n) == i.nnn;
  }

  lemma DecodeByteForms(variant: Variant, i: Instr)
    requires i.SkipEqByte? || i.SkipNeByte? || i.LoadByte? || i.AddByte? || i.Random?
    requires Supported(variant, i)
    ensures var (hi, x, y, n) := Fields(i); DecodeFields(variant, hi, x, y, n) == Some(i)
  {
  }

  lemma DecodeTimerMemoryForms(variant: Variant, i: Instr)
    requires i.WaitKey? || i.LoadDelay? || i.SetDelay? || i.LoadFont? || i.StoreBcd?
          || i.StoreRegs? || i.LoadRegs? || i.AddIndex?
    requires Supported(variant, i)
    ensures var (hi, x, y, n) := Fields(i); DecodeFields(variant, hi, x, y, n) == Some(i)
  {
  }

  lemma DecodeRegisterForms(variant: Variant, i: Instr)
    requires i.ClearScreen? || i.Return? || i.SkipEqReg? || i.SkipNeReg? || i.Alu?
          || i.Draw? || i.SkipKey? || i.SkipNoKey?
    requires Supported(variant, i)
    ensures var (hi, x, y, n) := Fields(i); DecodeFields(variant, hi, x, y, n) == Some(i)
  {
  }

  /** The nibble fields of an instruction's encoding decode back to it. */
  lemma DecodeFieldsEncode(variant: Variant, i: Instr)
    requires Supported(variant, i)
    ensures var (hi, x, y, n) := Fields(i); DecodeFields(variant, hi, x, y, n) == Some(i)
  {
    if i.Jump? || i.Call? || i.LoadIndex? || i.JumpOffset? {
      DecodeAddressForms(variant, i);
    } else if i.SkipEqByte? || i.SkipNeByte? || i.LoadByte? || i.AddByte? || i.Random? {
      DecodeByteForms(variant, i);
    } else if i.WaitKey? || i.LoadDelay? || i.SetDelay? || i.LoadFont? || i.StoreBcd?
           || i.StoreRegs? || i.LoadRegs? || i.AddIndex? {
      DecodeTimerMemoryForms(variant, i);
    } else {
      DecodeRegisterForms(variant, i);
    }
  }

  /** Decoding the reference encoding of an instruction the variant supports gives it back. */
  lemma DecodeEncode(variant: Variant, i: Instr)
    requires Supported(variant, i)
    ensures Decode(variant, Encode(i)) == Some(i)
  {
    var (hi, x, y, n) := Fields(i);
    PackFields(hi, x, y, n);
    DecodeFieldsEncode(variant, i);
  }

  lemma FieldsDecodeAddress(variant: Variant, hi: Nibble, x: Nibble, y: Nibble, n: Nibble)
    requires hi == 0x1 || hi == 0x2 || hi == 0xA || hi == 0xB
    requires DecodeFields(variant, hi, x, y, n).Some?
    ensures var i := DecodeFields(variant, hi, x, y, n).value;
      && Supported(variant, i)
      && Fields(i) == (hi, x, y, if IgnoresLowNibble(i) then 0 else n)
  {
    var nnn := x * 0x100 + y * 0x10 + n;
    assert nnn / 0x100 == x && (nnn / 0x10) % 0x10 == y && nnn % 0x10 == n;
  }

  lemma FieldsDecodeByte(variant: Variant, hi: Nibble, x: Nibble, y: Nibble, n: Nibble)
    requires hi == 0x3 || hi == 0x4 || hi == 0x6 || hi == 0x7 || hi == 0xC
    requires DecodeFields(variant, hi, x, y, n).Some?
    ensures var i := DecodeFields(variant, hi, x, y, n).value;
      && Supported(variant, i)
      && Fields(i) == (hi, x, y, if IgnoresLowNibble(i) then 0 else n)
  {
    var kk := y * 0x10 + n;
    assert kk / 0x10 == y && kk % 0x10 == n;
  }

  lemma FieldsDecodeRegister(variant: Variant, hi: Nibble, x: Nibble, y: Nibble, n: Nibble)
    requires hi == 0x0 || hi == 0x5 || hi == 0x9 || hi == 0xD || hi == 0xE
    requires DecodeFields(variant, hi, x, y, n).Some?
    ensures var i := DecodeFields(variant, hi, x, y, n).value;
      && Supported(variant, i)
      && Fields(i) == (hi, x, y, if IgnoresLowNibble(i) then 0 else n)
  {
  }

  lemma FieldsDecodeAlu(variant: Variant, hi: Nibble, x: Nibble, y: Nibble, n: Nibble)
    requires hi == 0x8
    requires DecodeFields(variant, hi, x, y, n).Some?
    ensures var i := DecodeFields(variant, hi, x, y, n).value;
      && Supported(variant, i)
      && Fields(i) == (hi, x, y, if IgnoresLowNibble(i) then 0 else n)
  {
  }

  lemma FieldsDecodeTimerMemory(variant: Variant, hi: Nibble, x: Nibble, y: Nibble, n: Nibble)
    requires hi == 0xF
    requires DecodeFields(variant, hi, x, y, n).Some?
    ensures var i := DecodeFields(variant, hi, x, y, n).value;
      && Supported(variant, i)
      && Fields(i) == (hi, x, y, if IgnoresLowNibble(i) then 0 else n)
  {
  }

  /** What the dispatch accepts is supported, and its encoding has the same fields
      (the low nibble of 5xyN and 9xyN reads as zero). */
  lemma FieldsDecode(variant: Variant, hi: Nibble, x: Nibble, y: Nibble, n: Nibble)
    requires DecodeFields(variant, hi, x, y, n).Some?
    ensures var i := DecodeFields(variant, hi, x, y, n).value;
      && Supported(variant, i)
      && Fields(i) == (hi, x, y, if IgnoresLowNibble(i) then 0 else n)
  {
    if hi == 0x1 || hi == 0x2 || hi == 0xA || hi == 0xB {
      FieldsDecodeAddress(variant, hi, x, y, n);
    } else if hi == 0x3 || hi == 0x4 || hi == 0x6 || hi == 0x7 || hi == 0xC {
      FieldsDecodeByte(variant, hi, x, y, n);
    } else if hi == 0x8 {
      FieldsDecodeAlu(variant, hi, x, y, n);
    } else if hi == 0xF {
      FieldsDecodeTimerMemory(variant, hi, x, y, n);
    } else {
      FieldsDecodeRegister(variant, hi, x, y, n);
    }
  }

  /** Whatever the dispatch accepts is a supported instruction whose reference
      encoding is the opcode itself, except that 5xyN and 9xyN drop N. */
  lemma EncodeDecode(variant: Variant, opcode: Word)
    requires Decode(variant, opcode).Some?
    ensures var i := Decode(variant, opcode).value;
      && Supported(variant, i)
      && Encode(i) == if IgnoresLowNibble(i) then opcode - opcode % 0x10 else opcode
  {
    var hi, x, y, n := opcode / 0x1000, (opcode / 0x100) % 0x10, (opcode / 0x10) % 0x10, opcode % 0x10;
    Unpack(opcode);
    FieldsDecode(variant, hi, x, y, n);
  }

  /** The opcodes that reach the `panic!("Unknown opcode")` arm, listed family
      by family from the opcode table rather than from the dispatch. */
  predicate Unknown(variant: Variant, hi: Nibble, x: Nibble, y: Nibble, n: Nibble)
  {
    || (hi == 0x0 && !(x == 0x0 && y == 0xE && (n == 0x0 || n == 0xE)))
    || (hi == 0x8 && n in {0x8, 0x9, 0xA, 0xB, 0xC, 0xD, 0xF})
    || (hi == 0xB && !variant.HasJumpOffset())
    || (hi == 0xC && !variant.HasRandom())
    || (hi == 0xE && !((y == 0x9 && n == 0xE) || (y == 0xA && n == 0x1)))
    || (hi == 0xF && !((y == 0x0 && (n == 0x7 || n == 0xA)) || (y == 0x1 && (n == 0x5 || n == 0xE))
                       || (y == 0x2 && n == 0x9 && variant.HasFontLoad())
                       || (y == 0x3 && n == 0x3) || (y == 0x5 && n == 0x5) || (y == 0x6 && n == 0x5)))
  }

  lemma UnknownLowFamilies(variant: Variant, hi: Nibble, x: Nibble, y: Nibble, n: Nibble)
    requires hi < 0x8
    ensures DecodeFields(variant, hi, x, y, n) == None <==> Unknown(variant, hi, x, y, n)
  {
  }

  lemma UnknownHighFamilies(variant: Variant, hi: Nibble, x: Nibble, y: Nibble, n: Nibble)
    requires 0x8 <= hi < 0xF
    ensures DecodeFields(variant, hi, x, y, n) == None <==> Unknown(variant, hi, x, y, n)
  {
  }

  lemma UnknownFFamily(variant: Variant, x: Nibble, y: Nibble, n: Nibble)
    ensures DecodeFields(variant, 0xF, x, y, n) == None <==> Unknown(variant, 0xF, x, y, n)
  {
  }

  /** The dispatch panics on exactly the opcodes of `Unknown`. */
  lemma UnknownOpcodes(variant: Variant, hi: Nibble, x: Nibble, y: Nibble, n: Nibble)
    ensures Decode(variant, Pack(hi, x, y, n)) == None <==> Unknown(variant, hi, x, y, n)
  {
    PackFields(hi, x, y, n);
    if hi < 0x8 {
      UnknownLowFamilies(variant, hi, x, y, n);
    } else if hi < 0xF {
      UnknownHighFamilies(variant, hi, x, y, n);
    } else {
      UnknownFFamily(variant, x, y, n);
    }
  }

  /** Fx18 (LD ST, Vx) has no arm in any variant, so nothing ever loads the sound timer. */
  lemma NoSoundTimerLoad(variant: Variant, x: Nibble)
    ensures Decode(variant, Pack(0xF, x, 0x1, 0x8)) == None
  {
    PackFields(0xF, x, 0x1, 0x8);
  }

  /** 5xyN and 9xyN decode the same whatever N is. */
  lemma LowNibbleIgnored(variant: Variant, opcode: Word, n: Nibble)
    requires opcode / 0x1000 == 0x5 || opcode / 0x1000 == 0x9
    ensures Decode(variant, opcode - opcode % 0x10 + n) == Decode(variant, opcode)
  {
    Unpack(opcode);
    PackFields(opcode / 0x1000, (opcode / 0x100) % 0x10, (opcode / 0x10) % 0x10, n);
  }
  /** The three dispatch tables differ only in Bnnn, Cxkk and Fx29. */
  lemma VariantsAgree(hi: Nibble, x: Nibble, y: Nibble, n: Nibble)
    requires hi != 0xB && hi != 0xC && !(hi == 0xF && y == 0x2 && n == 0x9)
    ensures DecodeFields(C8, hi, x, y, n) == DecodeFields(Modular, hi, x, y, n)
    ensures DecodeFields(C8, hi, x, y, n) == DecodeFields(Arch, hi, x, y, n)
  {
  }
}

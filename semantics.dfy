/** The machine state as a value, and what one instruction and one cycle do
    to it. These functions are the specification the `Machine` class is
    proved against; a `panic!` of the interpreter (an unknown opcode, an index
    out of range, an overflow of checked `u8`/`u16` arithmetic) is the
    outcome `Panic`. */
module Semantics {
  import opened Chip8
  import opened Decoding

  /** The fields of `Cpu` (src/c8.rs) / `CPU` (src/cpu.rs, src/arch.rs). */
  datatype State = State(
    memory: seq<Byte>,
    v: seq<Byte>,
    index: Word,
    pc: Word,
    stack: seq<Word>,
    sp: Byte,
    delayTimer: Byte,
    soundTimer: Byte,
    keys: seq<bool>,
    screen: seq<seq<Byte>>,
    drawFlag: bool)
  {
    /** The fixed sizes of the Rust arrays. */
    predicate WellFormed()
    {
      && |memory| == MEMORY_SIZE
      && |v| == REGISTER_COUNT
      && |stack| == STACK_SIZE
      && |keys| == KEY_COUNT
      && ScreenShape(screen)
    }
  }

  /** 32 rows of 64 cells. */
  predicate ScreenShape(screen: seq<seq<Byte>>)
  {
    |screen| == HEIGHT && forall r :: 0 <= r < HEIGHT ==> |screen[r]| == WIDTH
  }

  /** Every display cell is 0 or 1. */
  predicate Binary(screen: seq<seq<Byte>>)
    requires ScreenShape(screen)
  {
    forall r, c :: 0 <= r < HEIGHT && 0 <= c < WIDTH ==> screen[r][c] <= 1
  }

  /** `[[0; 64]; 32]` */
  function Blank(): (screen: seq<seq<Byte>>)
    ensures ScreenShape(screen)
  {
    seq(HEIGHT, _ => seq(WIDTH, _ => 0))
  }

  /** The result of an instruction or a cycle; `Panic` aborts the interpreter,
      so no state follows it. */
  datatype Outcome = Done(state: State) | Panic

  /** `new()`: everything zero, execution starting at 0x200. The font table is
      a separate vector and is not copied into memory. */
  function Initial(): (s: State)
    ensures s.WellFormed()
  {
    State(seq(MEMORY_SIZE, _ => 0), seq(REGISTER_COUNT, _ => 0), 0, PROGRAM_START as Word,
          seq(STACK_SIZE, _ => 0), 0, 0, 0, seq(KEY_COUNT, _ => false), Blank(), false)
  }

  /** Memory after the copy loop of `load_rom`, for a ROM that fits. */
  function Loaded(memory: seq<Byte>, rom: seq<Byte>): (m: seq<Byte>)
    requires |memory| == MEMORY_SIZE && |rom| <= MAX_ROM_SIZE
    ensures |m| == MEMORY_SIZE
  {
    seq(MEMORY_SIZE, k requires 0 <= k < MEMORY_SIZE =>
      if PROGRAM_START <= k < PROGRAM_START + |rom| then rom[k - PROGRAM_START] else memory[k])
  }

  function SetReg(s: State, x: Nibble, b: Byte): State
    requires s.WellFormed()
  {
    s.(v := s.v[x := b])
  }

  /** `if cond { self.pc += 2; }` with the checked `u16` addition. */
  function SkipIf(s: State, cond: bool): Outcome
  {
    if !cond then Done(s)
    else if s.pc + 2 > 0xFFFF then Panic
    else Done(s.(pc := s.pc + 2))
  }

  /** The 8xy? family: Vx is written first, VF last. */
  function AluStep(s: State, op: AluOp, x: Nibble, y: Nibble): State
    requires s.WellFormed()
  {
    var vx, vy: int := s.v[x], s.v[y];
    match op
    case Copy => SetReg(s, x, vy)
    case BitwiseOr => SetReg(s, x, Or(vx, vy))
    case BitwiseAnd => SetReg(s, x, And(vx, vy))
    case BitwiseXor => SetReg(s, x, Xor(vx, vy))
    // overflowing_add: the wrapped sum, VF = 1 on overflow
    case Add => SetReg(SetReg(s, x, (vx + vy) % 0x100), FLAG, if vx + vy > 0xFF then 1 else 0)
    // overflowing_sub: the wrapped difference, VF = 1 when there is no borrow
    case Sub => SetReg(SetReg(s, x, (vx - vy) % 0x100), FLAG, if vx < vy then 0 else 1)
    case Shr => SetReg(SetReg(s, x, vx / 2), FLAG, vx % 2)
    case SubN => SetReg(SetReg(s, x, (vy - vx) % 0x100), FLAG, if vy < vx then 0 else 1)
    // `<<= 1` on a u8 drops the top bit, which is what VF receives
    case Shl => SetReg(SetReg(s, x, (2 * vx) % 0x100), FLAG, vx / 0x80)
  }

  // ---------------------------------------------------------------- drawing

  /** Bit `xl` of sprite row `yl` is set: the draw loop toggles a cell for it. */
  predicate Lit(rows: seq<Byte>, yl: int, xl: int)
  {
    0 <= yl < |rows| && 0 <= xl < 8 && SpriteBit(rows[yl], xl)
  }

  /** Sprite bit (yl, xl) is among the first `k` the row-major loop visits. */
  predicate Visited(yl: int, xl: int, k: int)
  {
    yl * 8 + xl < k
  }

  /** A set bit, visited by step `k`, lands on a cell that was already 1. */
  predicate Hit(screen: seq<seq<Byte>>, rows: seq<Byte>, x0: nat, y0: nat, yl: int, xl: int)
    requires ScreenShape(screen)
  {
    && Lit(rows, yl, xl)
    && y0 + yl < HEIGHT && x0 + xl < WIDTH
    && screen[y0 + yl][x0 + xl] == 1
  }

  /** Some set bit among the first `k` visited collides with a lit cell of `screen`. */
  predicate Collision(screen: seq<seq<Byte>>, rows: seq<Byte>, x0: nat, y0: nat, k: int)
    requires ScreenShape(screen)
  {
    exists yl, xl | 0 <= yl < |rows| && 0 <= xl < 8 ::
      Visited(yl, xl, k) && Hit(screen, rows, x0, y0, yl, xl)
  }

  /** A set bit, visited by step `k`, falls past the right or bottom edge. */
  predicate Stray(rows: seq<Byte>, x0: nat, y0: nat, yl: int, xl: int)
  {
    Lit(rows, yl, xl) && (y0 + yl >= HEIGHT || x0 + xl >= WIDTH)
  }

  predicate OffScreen(rows: seq<Byte>, x0: nat, y0: nat, k: int)
  {
    exists yl, xl | 0 <= yl < |rows| && 0 <= xl < 8 ::
      Visited(yl, xl, k) && Stray(rows, x0, y0, yl, xl)
  }

  /** Cell (r, c) lies under a set sprite bit visited within the first `k` steps. */
  predicate Covered(rows: seq<Byte>, x0: nat, y0: nat, k: int, r: int, c: int)
  {
    Lit(rows, r - y0, c - x0) && Visited(r - y0, c - x0, k)
  }

  /** Cell (r, c) after the first `k` steps of the draw loop. */
  function DrawnCell(screen: seq<seq<Byte>>, rows: seq<Byte>, x0: nat, y0: nat, k: int, r: nat, c: nat): Byte
    requires ScreenShape(screen) && r < HEIGHT && c < WIDTH
  {
    if Covered(rows, x0, y0, k, r, c) then Toggle(screen[r][c]) else screen[r][c]
  }

  /** The display after XOR-ing the whole sprite at origin (x0, y0), clipped at the edges. */
  function Drawn(screen: seq<seq<Byte>>, rows: seq<Byte>, x0: nat, y0: nat): (d: seq<seq<Byte>>)
    requires ScreenShape(screen)
    ensures ScreenShape(d)
  {
    seq(HEIGHT, r requires 0 <= r < HEIGHT =>
      seq(WIDTH, c requires 0 <= c < WIDTH => DrawnCell(screen, rows, x0, y0, 8 * |rows|, r, c)))
  }

  /** One more step of the loop adds exactly bit (yl, xl) to what has been checked. */
  lemma CollisionStep(screen: seq<seq<Byte>>, rows: seq<Byte>, x0: nat, y0: nat, yl: nat, xl: nat)
    requires ScreenShape(screen) && yl < |rows| && xl < 8
    ensures Collision(screen, rows, x0, y0, yl * 8 + xl + 1)
            <==> Collision(screen, rows, x0, y0, yl * 8 + xl) || Hit(screen, rows, x0, y0, yl, xl)
  {
    var k := yl * 8 + xl;
    if Collision(screen, rows, x0, y0, k + 1) && !Hit(screen, rows, x0, y0, yl, xl) {
      var a, b :| 0 <= a < |rows| && 0 <= b < 8 && Visited(a, b, k + 1) && Hit(screen, rows, x0, y0, a, b);
      assert a != yl || b != xl;
      assert Visited(a, b, k);
    }
    if Collision(screen, rows, x0, y0, k) {
      var a, b :| 0 <= a < |rows| && 0 <= b < 8 && Visited(a, b, k) && Hit(screen, rows, x0, y0, a, b);
      assert Visited(a, b, k + 1);
    }
    if Hit(screen, rows, x0, y0, yl, xl) {
      assert Visited(yl, xl, k + 1);
    }
  }

  lemma OffScreenStep(rows: seq<Byte>, x0: nat, y0: nat, yl: nat, xl: nat)
    requires yl < |rows| && xl < 8
    ensures OffScreen(rows, x0, y0, yl * 8 + xl + 1)
            <==> OffScreen(rows, x0, y0, yl * 8 + xl) || Stray(rows, x0, y0, yl, xl)
  {
    var k := yl * 8 + xl;
    if OffScreen(rows, x0, y0, k + 1) && !Stray(rows, x0, y0, yl, xl) {
      var a, b :| 0 <= a < |rows| && 0 <= b < 8 && Visited(a, b, k + 1) && Stray(rows, x0, y0, a, b);
      assert a != yl || b != xl;
      assert Visited(a, b, k);
    }
    if OffScreen(rows, x0, y0, k) {
      var a, b :| 0 <= a < |rows| && 0 <= b < 8 && Visited(a, b, k) && Stray(rows, x0, y0, a, b);
      assert Visited(a, b, k + 1);
    }
    if Stray(rows, x0, y0, yl, xl) {
      assert Visited(yl, xl, k + 1);
    }
  }

  /** Step `k1` of the loop toggles only the cell under bit (yl, xl), if that bit is set
      and the cell is on the display, and that cell has not been touched before. */
  lemma DrawnCellStep(screen: seq<seq<Byte>>, rows: seq<Byte>, x0: nat, y0: nat, yl: nat, xl: nat, k1: int)
    requires ScreenShape(screen) && yl < |rows| && xl < 8 && k1 == yl * 8 + xl + 1
    ensures forall r, c | 0 <= r < HEIGHT && 0 <= c < WIDTH ::
      DrawnCell(screen, rows, x0, y0, k1, r, c)
      == if r == y0 + yl && c == x0 + xl && Lit(rows, yl, xl) then Toggle(screen[r][c])
         else DrawnCell(screen, rows, x0, y0, k1 - 1, r, c)
    ensures y0 + yl < HEIGHT && x0 + xl < WIDTH ==>
      DrawnCell(screen, rows, x0, y0, k1 - 1, y0 + yl, x0 + xl) == screen[y0 + yl][x0 + xl]
  {
  }

  /** Reading one more sprite row changes nothing about the bits already visited. */
  lemma RowsExtend(screen: seq<seq<Byte>>, rows: seq<Byte>, pixel: Byte, x0: nat, y0: nat)
    requires ScreenShape(screen)
    ensures Collision(screen, rows + [pixel], x0, y0, 8 * |rows|) == Collision(screen, rows, x0, y0, 8 * |rows|)
    ensures OffScreen(rows + [pixel], x0, y0, 8 * |rows|) == OffScreen(rows, x0, y0, 8 * |rows|)
    ensures forall r, c :: Covered(rows + [pixel], x0, y0, 8 * |rows|, r, c) == Covered(rows, x0, y0, 8 * |rows|, r, c)
  {
    var rows' := rows + [pixel];
    var k := 8 * |rows|;
    if Collision(screen, rows', x0, y0, k) {
      var a, b :| 0 <= a < |rows'| && 0 <= b < 8 && Visited(a, b, k) && Hit(screen, rows', x0, y0, a, b);
      assert Hit(screen, rows, x0, y0, a, b);
    }
    if Collision(screen, rows, x0, y0, k) {
      var a, b :| 0 <= a < |rows| && 0 <= b < 8 && Visited(a, b, k) && Hit(screen, rows, x0, y0, a, b);
      assert Hit(screen, rows', x0, y0, a, b);
    }
    if OffScreen(rows', x0, y0, k) {
      var a, b :| 0 <= a < |rows'| && 0 <= b < 8 && Visited(a, b, k) && Stray(rows', x0, y0, a, b);
      assert Stray(rows, x0, y0, a, b);
    }
    if OffScreen(rows, x0, y0, k) {
      var a, b :| 0 <= a < |rows| && 0 <= b < 8 && Visited(a, b, k) && Stray(rows, x0, y0, a, b);
      assert Stray(rows', x0, y0, a, b);
    }
  }

  /** A stray bit found early stays a stray bit of any longer sprite, checked to the end. */
  lemma OffScreenGrows(rows: seq<Byte>, more: seq<Byte>, x0: nat, y0: nat, k: int)
    requires OffScreen(rows, x0, y0, k) && k <= 8 * |rows|
    ensures OffScreen(rows + more, x0, y0, 8 * |rows + more|)
  {
    var a, b :| 0 <= a < |rows| && 0 <= b < 8 && Visited(a, b, k) && Stray(rows, x0, y0, a, b);
    assert Stray(rows + more, x0, y0, a, b);
    assert Visited(a, b, 8 * |rows + more|);
  }

  /** The sprite bytes `memory[I..I+n]`, or `None` when a row read would panic. */
  function SpriteRows(s: State, n: Nibble): Option<seq<Byte>>
    requires s.WellFormed()
  {
    if n == 0 then Some([])
    else if s.index + n > MEMORY_SIZE then None
    else Some(s.memory[s.index .. s.index + n])
  }

  /** Dxyn: the origin is taken from Vx and Vy before VF is cleared. */
  function DrawSprite(variant: Variant, s: State, x: Nibble, y: Nibble, n: Nibble): Outcome
    requires s.WellFormed()
  {
    var x0, y0 := s.v[x] % WIDTH, s.v[y] % HEIGHT;
    match SpriteRows(s, n)
    case None => Panic
    case Some(rows) =>
      if !variant.ClipsSprites() && OffScreen(rows, x0, y0, 8 * |rows|) then Panic
      else Done(s.(v := s.v[FLAG := if Collision(s.screen, rows, x0, y0, 8 * |rows|) then 1 else 0],
                   screen := Drawn(s.screen, rows, x0, y0),
                   drawFlag := true))
  }

  // ------------------------------------------------------------ instructions

  /** 00E0, 00EE, 1nnn, 2nnn and Bnnn. */
  function Control(s: State, i: Instr): Outcome
    requires s.WellFormed()
    requires i.ClearScreen? || i.Return? || i.Jump? || i.Call? || i.JumpOffset?
  {
    match i
    case ClearScreen => Done(s.(screen := Blank()))
    case Return =>
      // `sp -= 1` underflows at 0; `stack[sp]` is out of range past 16
      if s.sp == 0 || s.sp > STACK_SIZE then Panic
      else Done(s.(sp := s.sp - 1, pc := s.stack[s.sp - 1]))
    case Jump(nnn) => Done(s.(pc := nnn))
    case Call(nnn) =>
      if s.sp >= STACK_SIZE then Panic
      else Done(s.(stack := s.stack[s.sp := s.pc], sp := s.sp + 1, pc := nnn))
    case JumpOffset(nnn) => Done(s.(pc := s.v[0] + nnn))
  }

  /** 3xkk, 4xkk, 5xy?, 9xy?, Ex9E and ExA1. */
  function Skip(s: State, i: Instr): Outcome
    requires s.WellFormed()
    requires i.SkipEqByte? || i.SkipNeByte? || i.SkipEqReg? || i.SkipNeReg? || i.SkipKey? || i.SkipNoKey?
  {
    match i
    case SkipEqByte(x, kk) => SkipIf(s, s.v[x] == kk)
    case SkipNeByte(x, kk) => SkipIf(s, s.v[x] != kk)
    case SkipEqReg(x, y) => SkipIf(s, s.v[x] == s.v[y])
    case SkipNeReg(x, y) => SkipIf(s, s.v[x] != s.v[y])
    case SkipKey(x) => if s.v[x] >= KEY_COUNT then Panic else SkipIf(s, s.keys[s.v[x]])
    case SkipNoKey(x) => if s.v[x] >= KEY_COUNT then Panic else SkipIf(s, !s.keys[s.v[x]])
  }

  /** The instructions that change only registers, I or the delay timer. */
  function Registers(s: State, i: Instr, rnd: Byte): Outcome
    requires s.WellFormed()
    requires i.LoadByte? || i.AddByte? || i.Alu? || i.LoadIndex? || i.Random? || i.WaitKey?
          || i.LoadDelay? || i.SetDelay? || i.LoadFont? || i.AddIndex?
  {
    match i
    case LoadByte(x, kk) => Done(SetReg(s, x, kk))
    case AddByte(x, kk) => Done(SetReg(s, x, (s.v[x] as int + kk) % 0x100))
    case Alu(op, x, y) => Done(AluStep(s, op, x, y))
    case LoadIndex(nnn) => Done(s.(index := nnn))
    case Random(x, kk) => Done(SetReg(s, x, And(rnd, kk)))
    case WaitKey(_) => Done(s)
    case LoadDelay(x) => Done(SetReg(s, x, s.delayTimer))
    case SetDelay(x) => Done(s.(delayTimer := s.v[x]))
    case LoadFont(x) => if s.v[x] >= |FONTSET| then Panic else Done(s.(index := FONTSET[s.v[x]]))
    case AddIndex(x) => if s.index + s.v[x] > 0xFFFF then Panic else Done(s.(index := s.index + s.v[x]))
  }

  /** Memory after Fx55: V0..Vx copied to I..I+x. */
  function StoredRegs(memory: seq<Byte>, index: nat, v: seq<Byte>, x: Nibble): (m: seq<Byte>)
    requires |memory| == MEMORY_SIZE && |v| == REGISTER_COUNT && index + x < MEMORY_SIZE
    ensures |m| == MEMORY_SIZE
  {
    seq(MEMORY_SIZE, k requires 0 <= k < MEMORY_SIZE =>
      if index <= k <= index + x then v[k - index] else memory[k])
  }

  /** Registers after Fx65: memory I..I+x copied to V0..Vx. */
  function LoadedRegs(memory: seq<Byte>, index: nat, v: seq<Byte>, x: Nibble): (r: seq<Byte>)
    requires |memory| == MEMORY_SIZE && |v| == REGISTER_COUNT && index + x < MEMORY_SIZE
    ensures |r| == REGISTER_COUNT
  {
    seq(REGISTER_COUNT, k requires 0 <= k < REGISTER_COUNT =>
      if k <= x then memory[index + k] else v[k])
  }

  /** Fx33, Fx55 and Fx65; any write or read past memory panics. */
  function MemoryOp(s: State, i: Instr): Outcome
    requires s.WellFormed()
    requires i.StoreBcd? || i.StoreRegs? || i.LoadRegs?
  {
    match i
    case StoreBcd(x) =>
      if s.index + 2 >= MEMORY_SIZE then Panic
      else
        var value := s.v[x];
        Done(s.(memory := s.memory[s.index := value / 100]
                                  [s.index + 1 := (value / 10) % 10]
                                  [s.index + 2 := (value % 100) % 10]))
    case StoreRegs(x) =>
      if s.index + x >= MEMORY_SIZE then Panic
      else Done(s.(memory := StoredRegs(s.memory, s.index, s.v, x)))
    case LoadRegs(x) =>
      if s.index + x >= MEMORY_SIZE then Panic
      else Done(s.(v := LoadedRegs(s.memory, s.index, s.v, x)))
  }

  /** One arm of the dispatch, with `rnd` the byte `rand::random` would return. */
  function Apply(variant: Variant, s: State, i: Instr, rnd: Byte): Outcome
    requires s.WellFormed()
  {
    match i
    case ClearScreen => Control(s, i)
    case Return => Control(s, i)
    case Jump(_) => Control(s, i)
    case Call(_) => Control(s, i)
    case JumpOffset(_) => Control(s, i)
    case SkipEqByte(_, _) => Skip(s, i)
    case SkipNeByte(_, _) => Skip(s, i)
    case SkipEqReg(_, _) => Skip(s, i)
    case SkipNeReg(_, _) => Skip(s, i)
    case SkipKey(_) => Skip(s, i)
    case SkipNoKey(_) => Skip(s, i)
    case Draw(x, y, n) => DrawSprite(variant, s, x, y, n)
    case StoreBcd(_) => MemoryOp(s, i)
    case StoreRegs(_) => MemoryOp(s, i)
    case LoadRegs(_) => MemoryOp(s, i)
    case _ => Registers(s, i, rnd)
  }

  /** `execute` / `parse_opcode`: decode, then act; an unknown opcode panics. */
  function Execute(variant: Variant, s: State, opcode: Word, rnd: Byte): Outcome
    requires s.WellFormed()
  {
    match Decode(variant, opcode)
    case None => Panic
    case Some(i) => Apply(variant, s, i, rnd)
  }

  /** `(memory[pc] as u16) << 8 | memory[pc + 1] as u16`; the two bytes do not overlap,
      so the OR is a sum. */
  function Fetch(memory: seq<Byte>, pc: nat): Word
    requires pc + 1 < |memory|
  {
    memory[pc] as int * 0x100 + memory[pc + 1]
  }

  /** The end of `emulate_cycle`: each nonzero timer drops by one. */
  function TickTimers(s: State): State
  {
    s.(delayTimer := if s.delayTimer > 0 then s.delayTimer - 1 else 0,
       soundTimer := if s.soundTimer > 0 then s.soundTimer - 1 else 0)
  }

  /** `emulate_cycle`: fetch, advance PC, stop on opcode 0, execute, then (except in
      src/arch.rs) tick the timers. */
  function Cycle(variant: Variant, s: State, rnd: Byte): Outcome
    requires s.WellFormed()
  {
    if s.pc + 1 >= MEMORY_SIZE then Panic
    else
      var opcode := Fetch(s.memory, s.pc);
      var advanced := s.(pc := s.pc + 2);
      if opcode == 0 then Done(advanced)
      else match Execute(variant, advanced, opcode, rnd)
        case Panic => Panic
        case Done(t) => Done(if variant.TicksTimers() then TickTimers(t) else t)
  }
}

/** The interpreter as the source has it: one object whose fixed-size arrays
    and scalar fields each method updates in place. Every method is proved
    to leave `Snapshot()` equal to what the functions of `Semantics` say,
    and to report `false` exactly where the source would panic. */
module Interpreter {
  import opened Chip8
  import opened Decoding
  import Sem = Semantics

  class Machine {
    /** Which of the three snapshots of the source this object behaves as. */
    const variant: Variant
    const memory: array<Byte>
    /** V0..VF (`vx` in src/c8.rs, `registers` elsewhere). */
    const v: array<Byte>
    var index: Word
    var pc: Word
    const stack: array<Word>
    var sp: Byte
    var delayTimer: Byte
    var soundTimer: Byte
    /** Written by the host's keyboard loop, read by Ex9E / ExA1. */
    const keys: array<bool>
    /** `display[row][column]`. */
    const display: array2<Byte>
    var drawFlag: bool

    ghost predicate Valid()
    {
      && memory.Length == MEMORY_SIZE
      && v.Length == REGISTER_COUNT
      && stack.Length == STACK_SIZE
      && keys.Length == KEY_COUNT
      && display.Length0 == HEIGHT && display.Length1 == WIDTH
      && memory != v
    }

    function Screen(): (screen: seq<seq<Byte>>)
      requires Valid()
      reads display
      ensures Sem.ScreenShape(screen)
    {
      seq(HEIGHT, r requires 0 <= r < HEIGHT reads display =>
        seq(WIDTH, c requires 0 <= c < WIDTH reads display => display[r, c]))
    }

    /** The display holds `screen` cell by cell. */
    lemma ScreenIs(screen: seq<seq<Byte>>)
      requires Valid() && Sem.ScreenShape(screen)
      requires forall r, c :: 0 <= r < HEIGHT && 0 <= c < WIDTH ==> display[r, c] == screen[r][c]
      ensures Screen() == screen
    {
      forall r | 0 <= r < HEIGHT
        ensures Screen()[r] == screen[r]
      {
      }
    }

    /** The whole machine as a value of `Semantics.State`. */
    function Snapshot(): (s: Sem.State)
      requires Valid()
      reads this, memory, v, stack, keys, display
      ensures s.WellFormed()
    {
      Sem.State(memory[..], v[..], index, pc, stack[..], sp, delayTimer, soundTimer,
                keys[..], Screen(), drawFlag)
    }

    /** `new()` */
    constructor(variant: Variant)
      ensures Valid() && this.variant == variant
      ensures fresh(memory) && fresh(v) && fresh(stack) && fresh(keys) && fresh(display)
      ensures Snapshot() == Sem.Initial()
    {
      this.variant := variant;
      memory := new Byte[MEMORY_SIZE](_ => 0);
      v := new Byte[REGISTER_COUNT](_ => 0);
      index := 0;
      pc := PROGRAM_START as Word;
      stack := new Word[STACK_SIZE](_ => 0);
      sp := 0;
      delayTimer := 0;
      soundTimer := 0;
      keys := new bool[KEY_COUNT](_ => false);
      display := new Byte[HEIGHT, WIDTH]((_, _) => 0);
      drawFlag := false;
      new;
      ScreenIs(Sem.Blank());
      assert memory[..] == Sem.Initial().memory;
    }

    /** The copy loop of `load_rom`: byte k of the ROM goes to 0x200 + k; a ROM longer
        than 3584 bytes runs past memory and panics. */
    method LoadRom(rom: seq<Byte>) returns (ok: bool)
      requires Valid()
      modifies memory
      ensures ok <==> |rom| <= MAX_ROM_SIZE
      ensures ok ==> Snapshot() == old(Snapshot()).(memory := Sem.Loaded(old(memory[..]), rom))
    {
      var i := 0;
      while i < |rom|
        invariant 0 <= i <= |rom| && PROGRAM_START + i <= MEMORY_SIZE
        invariant forall k :: 0 <= k < MEMORY_SIZE ==>
          memory[k] == if PROGRAM_START <= k < PROGRAM_START + i then rom[k - PROGRAM_START] else old(memory[k])
      {
        if PROGRAM_START + i >= memory.Length {
          return false;
        }
        memory[PROGRAM_START + i] := rom[i];
        i := i + 1;
      }
      assert memory[..] == Sem.Loaded(old(memory[..]), rom);
      return true;
    }

    /** The host's keyboard refresh: `keys[keymap[key]] = pressed`. */
    method SetKey(key: Nibble, pressed: bool)
      requires Valid()
      modifies keys
      ensures Snapshot() == old(Snapshot()).(keys := old(keys[..])[key := pressed])
    {
      keys[key] := pressed;
    }

    /** `emulate_cycle` */
    method EmulateCycle(rnd: Byte) returns (ok: bool)
      requires Valid()
      modifies this, memory, v, stack, display
      ensures ok == Sem.Cycle(variant, old(Snapshot()), rnd).Done?
      ensures ok ==> Snapshot() == Sem.Cycle(variant, old(Snapshot()), rnd).state
    {
      ghost var s := Snapshot();
      if pc as int + 1 >= memory.Length {
        return false;
      }
      var opcode: Word := memory[pc] as int * 0x100 + memory[pc + 1];
      assert opcode == Sem.Fetch(s.memory, s.pc);
      pc := pc + 2;
      assert Snapshot() == s.(pc := s.pc + 2);
      if opcode == 0 {
        return true;
      }
      ok := Execute(opcode, rnd);
      if ok && variant.TicksTimers() {
        TickTimers();
      }
    }

    /** The timer decrements at the end of `emulate_cycle`. */
    method TickTimers()
      requires Valid()
      modifies this
      ensures Valid()
      ensures Snapshot() == Sem.TickTimers(old(Snapshot()))
    {
      if delayTimer > 0 {
        delayTimer := delayTimer - 1;
      }
      if soundTimer > 0 {
        soundTimer := soundTimer - 1;
      }
    }

    /** `execute` / `parse_opcode`; `rnd` stands for `rand::random::<u8>()`. */
    method Execute(opcode: Word, rnd: Byte) returns (ok: bool)
      requires Valid()
      modifies this, memory, v, stack, display
      ensures ok == Sem.Execute(variant, old(Snapshot()), opcode, rnd).Done?
      ensures ok ==> Snapshot() == Sem.Execute(variant, old(Snapshot()), opcode, rnd).state
    {
      match Decode(variant, opcode)
      case None =>
        ok := false;
      case Some(i) =>
        ok := Step(i, rnd);
    }

    /** One arm of the dispatch. */
    method Step(i: Instr, rnd: Byte) returns (ok: bool)
      requires Valid()
      modifies this, memory, v, stack, display
      ensures ok == Sem.Apply(variant, old(Snapshot()), i, rnd).Done?
      ensures ok ==> Snapshot() == Sem.Apply(variant, old(Snapshot()), i, rnd).state
    {
      if i.ClearScreen? || i.Return? || i.Jump? || i.Call? || i.JumpOffset? {
        ok := Control(i);
      } else if i.SkipEqByte? || i.SkipNeByte? || i.SkipEqReg? || i.SkipNeReg? || i.SkipKey? || i.SkipNoKey? {
        ok := Skip(i);
      } else if i.Draw? {
        ok := DrawSprite(i.x, i.y, i.n);
      } else if i.StoreBcd? || i.StoreRegs? || i.LoadRegs? {
        ok := MemoryOp(i);
      } else {
        ok := Registers(i, rnd);
      }
    }

    /** CLS: `display = [[0; 64]; 32]`. */
    method ClearScreen()
      requires Valid()
      modifies display
      ensures Screen() == Sem.Blank()
    {
      forall r, c | 0 <= r < HEIGHT && 0 <= c < WIDTH {
        display[r, c] := 0;
      }
      ScreenIs(Sem.Blank());
    }

    /** CLS, RET, JP, CALL and JP V0. */
    method Control(i: Instr) returns (ok: bool)
      requires Valid()
      requires i.ClearScreen? || i.Return? || i.Jump? || i.Call? || i.JumpOffset?
      modifies this, stack, display
      ensures ok == Sem.Control(old(Snapshot()), i).Done?
      ensures ok ==> Snapshot() == Sem.Control(old(Snapshot()), i).state
    {
      ok := true;
      match i
      case ClearScreen =>
        ClearScreen();
      case Return =>
        if sp == 0 {
          return false;
        }
        sp := sp - 1;
        if sp as int >= stack.Length {
          return false;
        }
        pc := stack[sp];
      case Jump(nnn) =>
        pc := nnn;
      case Call(nnn) =>
        if sp as int >= stack.Length {
          return false;
        }
        stack[sp] := pc;
        sp := sp + 1;
        pc := nnn;
      case JumpOffset(nnn) =>
        pc := v[0] + nnn;
    }

    /** SE, SNE, SKP and SKNP. */
    method Skip(i: Instr) returns (ok: bool)
      requires Valid()
      requires i.SkipEqByte? || i.SkipNeByte? || i.SkipEqReg? || i.SkipNeReg? || i.SkipKey? || i.SkipNoKey?
      modifies this
      ensures ok == Sem.Skip(old(Snapshot()), i).Done?
      ensures ok ==> Snapshot() == Sem.Skip(old(Snapshot()), i).state
    {
      var cond: bool;
      match i {
      case SkipEqByte(x, kk) =>
        cond := v[x] == kk;
      case SkipNeByte(x, kk) =>
        cond := v[x] != kk;
      case SkipEqReg(x, y) =>
        cond := v[x] == v[y];
      case SkipNeReg(x, y) =>
        cond := v[x] != v[y];
      case SkipKey(x) =>
        if v[x] as int >= keys.Length {
          return false;
        }
        cond := keys[v[x]];
      case SkipNoKey(x) =>
        if v[x] as int >= keys.Length {
          return false;
        }
        cond := !keys[v[x]];
      }
      ok := true;
      if cond {
        if pc as int + 2 > 0xFFFF {
          return false;
        }
        pc := pc + 2;
      }
    }

    /** LD, ADD, the 8xy? family, LD I, RND, LD Vx K, LD Vx DT, LD DT Vx, LD F and ADD I. */
    method Registers(i: Instr, rnd: Byte) returns (ok: bool)
      requires Valid()
      requires i.LoadByte? || i.AddByte? || i.Alu? || i.LoadIndex? || i.Random? || i.WaitKey?
            || i.LoadDelay? || i.SetDelay? || i.LoadFont? || i.AddIndex?
      modifies this, v
      ensures ok == Sem.Registers(old(Snapshot()), i, rnd).Done?
      ensures ok ==> Snapshot() == Sem.Registers(old(Snapshot()), i, rnd).state
    {
      ok := true;
      match i
      case LoadByte(x, kk) =>
        v[x] := kk;
      case AddByte(x, kk) =>
        v[x] := (v[x] as int + kk) % 0x100;
      case Alu(op, x, y) =>
        AluStep(op, x, y);
      case LoadIndex(nnn) =>
        index := nnn;
      case Random(x, kk) =>
        v[x] := And(rnd, kk);
      case WaitKey(_) =>
      case LoadDelay(x) =>
        v[x] := delayTimer;
      case SetDelay(x) =>
        delayTimer := v[x];
      case LoadFont(x) =>
        if v[x] as int >= |FONTSET| {
          return false;
        }
        index := FONTSET[v[x]];
      case AddIndex(x) =>
        if index as int + v[x] > 0xFFFF {
          return false;
        }
        index := index + v[x];
    }

    /** The 8xy? family; VF is written after Vx. */
    method AluStep(op: AluOp, x: Nibble, y: Nibble)
      requires Valid()
      modifies v
      ensures Snapshot() == Sem.AluStep(old(Snapshot()), op, x, y)
    {
      var vx, vy: int := v[x], v[y];
      match op
      case Copy =>
        v[x] := vy;
      case BitwiseOr =>
        v[x] := Or(vx, vy);
      case BitwiseAnd =>
        v[x] := And(vx, vy);
      case BitwiseXor =>
        v[x] := Xor(vx, vy);
      case Add =>
        v[x] := (vx + vy) % 0x100;
        v[FLAG] := if vx + vy > 0xFF then 1 else 0;
      case Sub =>
        v[x] := (vx - vy) % 0x100;
        v[FLAG] := if vx < vy then 0 else 1;
      case Shr =>
        var flag := vx % 2;
        v[x] := vx / 2;
        v[FLAG] := flag;
      case SubN =>
        v[x] := (vy - vx) % 0x100;
        v[FLAG] := if vy < vx then 0 else 1;
      case Shl =>
        var flag := vx / 0x80;
        v[x] := (2 * vx) % 0x100;
        v[FLAG] := flag;
    }

    /** LD B, LD [I] and LD Vx, [I]: each access past memory panics. */
    method MemoryOp(i: Instr) returns (ok: bool)
      requires Valid()
      requires i.StoreBcd? || i.StoreRegs? || i.LoadRegs?
      modifies memory, v
      ensures ok == Sem.MemoryOp(old(Snapshot()), i).Done?
      ensures ok ==> Snapshot() == Sem.MemoryOp(old(Snapshot()), i).state
    {
      match i
      case StoreBcd(x) =>
        ok := StoreDigits(x);
      case StoreRegs(x) =>
        ok := StoreRegisters(x);
      case LoadRegs(x) =>
        ok := LoadRegisters(x);
    }

    /** LD B, Vx: the three decimal digits of Vx at I, I+1, I+2. */
    method StoreDigits(x: Nibble) returns (ok: bool)
      requires Valid()
      modifies memory
      ensures ok == Sem.MemoryOp(old(Snapshot()), StoreBcd(x)).Done?
      ensures ok ==> Snapshot() == Sem.MemoryOp(old(Snapshot()), StoreBcd(x)).state
    {
      var value := v[x];
      if index as int >= memory.Length {
        return false;
      }
      memory[index] := value / 100;
      if index as int + 1 >= memory.Length {
        return false;
      }
      memory[index + 1] := (value / 10) % 10;
      if index as int + 2 >= memory.Length {
        return false;
      }
      memory[index + 2] := (value % 100) % 10;
      return true;
    }

    /** `for i in 0..=x { memory[index + i] = v[i]; }` */
    method StoreRegisters(x: Nibble) returns (ok: bool)
      requires Valid()
      modifies memory
      ensures ok == Sem.MemoryOp(old(Snapshot()), StoreRegs(x)).Done?
      ensures ok ==> Snapshot() == Sem.MemoryOp(old(Snapshot()), StoreRegs(x)).state
    {
      var k := 0;
      while k <= x
        invariant 0 <= k <= x + 1
        invariant k == 0 || index as int + k <= MEMORY_SIZE
        invariant forall j :: 0 <= j < MEMORY_SIZE ==>
          memory[j] == if index <= j < index as int + k then v[j - index] else old(memory[j])
      {
        if index as int + k >= memory.Length {
          return false;
        }
        memory[index as int + k] := v[k];
        k := k + 1;
      }
      assert memory[..] == Sem.StoredRegs(old(memory[..]), index, v[..], x);
      return true;
    }

    /** `for i in 0..=x { v[i] = memory[index + i]; }` */
    method LoadRegisters(x: Nibble) returns (ok: bool)
      requires Valid()
      modifies v
      ensures ok == Sem.MemoryOp(old(Snapshot()), LoadRegs(x)).Done?
      ensures ok ==> Snapshot() == Sem.MemoryOp(old(Snapshot()), LoadRegs(x)).state
    {
      var k := 0;
      while k <= x
        invariant 0 <= k <= x + 1
        invariant k == 0 || index as int + k <= MEMORY_SIZE
        invariant forall j :: 0 <= j < REGISTER_COUNT ==>
          v[j] == if j < k then memory[index as int + j] else old(v[j])
      {
        if index as int + k >= memory.Length {
          return false;
        }
        v[k] := memory[index as int + k];
        k := k + 1;
      }
      assert v[..] == Sem.LoadedRegs(memory[..], index, old(v[..]), x);
      return true;
    }

    /** The draw loop has handled the first `k` sprite bits of `rows` against the
        display `before` it started from. */
    ghost predicate DrawProgress(before: seq<seq<Byte>>, rows: seq<Byte>, x0: nat, y0: nat, k: int)
      requires Valid() && Sem.ScreenShape(before)
      reads v, display
    {
      && (forall r, c :: 0 <= r < HEIGHT && 0 <= c < WIDTH ==>
            display[r, c] == Sem.DrawnCell(before, rows, x0, y0, k, r, c))
      && v[FLAG] == (if Sem.Collision(before, rows, x0, y0, k) then 1 else 0)
      && (!variant.ClipsSprites() ==> !Sem.OffScreen(rows, x0, y0, k))
    }

    /** DRW Vx, Vy, nibble */
    method DrawSprite(x: Nibble, y: Nibble, n: Nibble) returns (ok: bool)
      requires Valid()
      modifies this, v, display
      ensures ok == Sem.DrawSprite(variant, old(Snapshot()), x, y, n).Done?
      ensures ok ==> Snapshot() == Sem.DrawSprite(variant, old(Snapshot()), x, y, n).state
    {
      ghost var s := Snapshot();
      var x0 := v[x] as int % WIDTH;
      var y0 := v[y] as int % HEIGHT;
      v[FLAG] := 0;
      ghost var before := s.screen;
      ghost var rows;
      ok, rows := DrawRows(n, x0, y0, before);
      assert Sem.SpriteRows(Snapshot(), n) == Sem.SpriteRows(s, n);
      if !ok {
        return false;
      }
      drawFlag := true;
      ScreenIs(Sem.Drawn(before, rows, x0, y0));
      assert v[..] == s.v[FLAG := v[FLAG]];
      assert Sem.DrawSprite(variant, s, x, y, n)
          == Sem.Done(s.(v := v[..], screen := Screen(), drawFlag := true));
    }

    /** `for yline in 0..n { pixel = memory[I + yline]; ... }`: the outer loop of the
        draw, reading one sprite row per pass. */
    method DrawRows(n: Nibble, x0: nat, y0: nat, ghost before: seq<seq<Byte>>)
      returns (ok: bool, ghost rows: seq<Byte>)
      requires Valid() && Sem.ScreenShape(before)
      requires DrawProgress(before, [], x0, y0, 0)
      modifies v, display
      ensures forall j :: 0 <= j < REGISTER_COUNT && j != FLAG ==> v[j] == old(v[j])
      ensures ok ==> Sem.SpriteRows(Snapshot(), n) == Some(rows)
      ensures ok ==> DrawProgress(before, rows, x0, y0, 8 * |rows|)
      ensures !ok ==> (|| Sem.SpriteRows(Snapshot(), n).None?
                       || (!variant.ClipsSprites() && Sem.OffScreen(Sem.SpriteRows(Snapshot(), n).value, x0, y0, 8 * n)))
    {
      rows := [];
      var yline := 0;
      while yline < n
        invariant 0 <= yline <= n && |rows| == yline
        invariant forall j :: 0 <= j < yline ==> index as int + j < MEMORY_SIZE && rows[j] == memory[index as int + j]
        invariant DrawProgress(before, rows, x0, y0, 8 * yline)
        invariant forall j :: 0 <= j < REGISTER_COUNT && j != FLAG ==> v[j] == old(v[j])
      {
        if index as int + yline >= memory.Length {
          return false, rows;
        }
        var pixel := memory[index as int + yline];
        ExtendProgress(before, rows, pixel, x0, y0);
        rows := rows + [pixel];
        ok := DrawRow(pixel, yline, x0, y0, before, rows);
        if !ok {
          StrayRowPanics(n, x0, y0, rows);
          return false, rows;
        }
        yline := yline + 1;
      }
      if n > 0 {
        assert index as int + (n - 1) < MEMORY_SIZE by {
          assert yline == n && 0 <= n - 1 < yline;
          assert rows[n - 1] == memory[index as int + (n - 1)];
        }
        assert memory[index .. index as int + n] == rows;
      }
      return true, rows;
    }

    /** Reading the next sprite row leaves the progress of the draw as it was. */
    lemma ExtendProgress(before: seq<seq<Byte>>, rows: seq<Byte>, pixel: Byte, x0: nat, y0: nat)
      requires Valid() && Sem.ScreenShape(before)
      requires DrawProgress(before, rows, x0, y0, 8 * |rows|)
      ensures DrawProgress(before, rows + [pixel], x0, y0, 8 * |rows|)
    {
      Sem.RowsExtend(before, rows, pixel, x0, y0);
    }

    /** A stray bit in the rows read so far makes the whole non-clipping draw panic. */
    lemma StrayRowPanics(n: Nibble, x0: nat, y0: nat, rows: seq<Byte>)
      requires Valid() && 0 < |rows| <= n
      requires forall j :: 0 <= j < |rows| ==> index as int + j < MEMORY_SIZE && rows[j] == memory[index as int + j]
      requires !variant.ClipsSprites() && Sem.OffScreen(rows, x0, y0, 8 * |rows|)
      ensures || Sem.SpriteRows(Snapshot(), n).None?
              || Sem.OffScreen(Sem.SpriteRows(Snapshot(), n).value, x0, y0, 8 * n)
    {
      if index as int + n <= MEMORY_SIZE {
        assert memory[index .. index as int + n] == rows + memory[index as int + |rows| .. index as int + n];
        Sem.OffScreenGrows(rows, memory[index as int + |rows| .. index as int + n], x0, y0, 8 * |rows|);
      }
    }

    /** One pass of the inner loop: the eight bits of sprite row `yline`. */
    method DrawRow(pixel: Byte, yline: nat, x0: nat, y0: nat, ghost before: seq<seq<Byte>>, ghost rows: seq<Byte>)
      returns (ok: bool)
      requires Valid() && Sem.ScreenShape(before)
      requires |rows| == yline + 1 && rows[yline] == pixel
      requires DrawProgress(before, rows, x0, y0, 8 * yline)
      modifies v, display
      ensures forall j :: 0 <= j < REGISTER_COUNT && j != FLAG ==> v[j] == old(v[j])
      ensures ok ==> DrawProgress(before, rows, x0, y0, 8 * yline + 8)
      ensures !ok ==> !variant.ClipsSprites() && Sem.OffScreen(rows, x0, y0, 8 * yline + 8)
    {
      var xline := 0;
      while xline < 8
        invariant 0 <= xline <= 8
        invariant DrawProgress(before, rows, x0, y0, 8 * yline + xline)
        invariant forall j :: 0 <= j < REGISTER_COUNT && j != FLAG ==> v[j] == old(v[j])
      {
        ok := DrawBit(pixel, yline, xline, x0, y0, before, rows);
        if !ok {
          assert Sem.Visited(yline, xline, 8 * yline + 8);
          return false;
        }
        xline := xline + 1;
      }
      return true;
    }

    /** The body of the inner loop: toggle the cell under bit `xline` if it is set,
        recording a collision; past the edge, skip it (or panic, without clipping). */
    method DrawBit(pixel: Byte, yline: nat, xline: nat, x0: nat, y0: nat,
                   ghost before: seq<seq<Byte>>, ghost rows: seq<Byte>)
      returns (ok: bool)
      requires Valid() && Sem.ScreenShape(before)
      requires |rows| == yline + 1 && rows[yline] == pixel && xline < 8
      requires DrawProgress(before, rows, x0, y0, 8 * yline + xline)
      modifies v, display
      ensures forall j :: 0 <= j < REGISTER_COUNT && j != FLAG ==> v[j] == old(v[j])
      ensures ok ==> DrawProgress(before, rows, x0, y0, 8 * yline + xline + 1)
      ensures !ok ==> !variant.ClipsSprites() && Sem.Stray(rows, x0, y0, yline, xline)
    {
      ok := true;
      if SpriteBit(pixel, xline) {
        var ia, ib := y0 + yline, x0 + xline;
        if ia < HEIGHT && ib < WIDTH {
          ToggleCell(ia, ib, yline, xline, x0, y0, before, rows);
        } else if !variant.ClipsSprites() {
          return false;
        } else {
          SkipBit(yline, xline, x0, y0, before, rows);
        }
      } else {
        SkipBit(yline, xline, x0, y0, before, rows);
      }
    }

    /** A bit that is clear, or set but clipped, leaves the display and VF as they are. */
    lemma SkipBit(yline: nat, xline: nat, x0: nat, y0: nat, before: seq<seq<Byte>>, rows: seq<Byte>)
      requires Valid() && Sem.ScreenShape(before)
      requires yline < |rows| && xline < 8
      requires !Sem.Lit(rows, yline, xline)
            || (variant.ClipsSprites() && (y0 + yline >= HEIGHT || x0 + xline >= WIDTH))
      requires DrawProgress(before, rows, x0, y0, 8 * yline + xline)
      ensures DrawProgress(before, rows, x0, y0, 8 * yline + xline + 1)
    {
      Sem.CollisionStep(before, rows, x0, y0, yline, xline);
      Sem.OffScreenStep(rows, x0, y0, yline, xline);
      Sem.DrawnCellStep(before, rows, x0, y0, yline, xline, 8 * yline + xline + 1);
    }

    /** `if display[ia][ib] == 1 { VF = 1 } display[ia][ib] ^= 1` for a set bit on the display. */
    method ToggleCell(ia: nat, ib: nat, yline: nat, xline: nat, x0: nat, y0: nat,
                      ghost before: seq<seq<Byte>>, ghost rows: seq<Byte>)
      requires Valid() && Sem.ScreenShape(before)
      requires yline < |rows| && xline < 8 && Sem.Lit(rows, yline, xline)
      requires ia == y0 + yline < HEIGHT && ib == x0 + xline < WIDTH
      requires DrawProgress(before, rows, x0, y0, 8 * yline + xline)
      modifies v, display
      ensures forall j :: 0 <= j < REGISTER_COUNT && j != FLAG ==> v[j] == old(v[j])
      ensures DrawProgress(before, rows, x0, y0, 8 * yline + xline + 1)
    {
      ghost var k := 8 * yline + xline;
      Sem.CollisionStep(before, rows, x0, y0, yline, xline);
      Sem.OffScreenStep(rows, x0, y0, yline, xline);
      Sem.DrawnCellStep(before, rows, x0, y0, yline, xline, k + 1);
      assert display[ia, ib] == before[ia][ib];
      assert !Sem.Stray(rows, x0, y0, yline, xline);
      assert Sem.Collision(before, rows, x0, y0, k + 1) <==>
        Sem.Collision(before, rows, x0, y0, k) || display[ia, ib] == 1;
      FlipCell(ia, ib);
      forall r, c | 0 <= r < HEIGHT && 0 <= c < WIDTH
        ensures display[r, c] == Sem.DrawnCell(before, rows, x0, y0, k + 1, r, c)
      {
      }
    }

    /** The two statements of the toggle: record a collision, then flip the cell. */
    method FlipCell(ia: nat, ib: nat)
      requires Valid() && ia < HEIGHT && ib < WIDTH
      modifies v, display
      ensures display[ia, ib] == Toggle(old(display[ia, ib]))
      ensures forall r, c :: 0 <= r < HEIGHT && 0 <= c < WIDTH && (r != ia || c != ib) ==>
        display[r, c] == old(display[r, c])
      ensures v[FLAG] == if old(display[ia, ib]) == 1 then 1 else old(v[FLAG])
      ensures forall j :: 0 <= j < REGISTER_COUNT && j != FLAG ==> v[j] == old(v[j])
    {
      if display[ia, ib] == 1 {
        v[FLAG] := 1;
      }
      display[ia, ib] := Toggle(display[ia, ib]);
    }
  }
}

/** What the interpreter promises about single instructions, the draw, the
    cycle and start-up, stated over the functions of `Semantics`. */
module Properties {
  import opened Chip8
  import opened Decoding
  import opened Semantics

  // ------------------------------------------------------------ arithmetic

  /** 8xy4: the wrapped sum and the carry together give the true sum; VF is
      written last, so with x = F it holds the carry. */
  lemma AddCarry(s: State, x: Nibble, y: Nibble)
    requires s.WellFormed()
    ensures var t := AluStep(s, Add, x, y);
      && t.v[FLAG] == (if s.v[x] as int + s.v[y] > 0xFF then 1 else 0)
      && (x != FLAG ==> t.v[x] as int + 0x100 * (t.v[FLAG] as int) == s.v[x] as int + s.v[y])
      && (forall j :: 0 <= j < REGISTER_COUNT && j != x && j != FLAG ==> t.v[j] == s.v[j])
      && t == s.(v := t.v)
  {
  }

  /** 8xy5: VF = 1 exactly when there is no borrow, and Vx + 256 * borrow = Vx - Vy. */
  lemma SubBorrow(s: State, x: Nibble, y: Nibble)
    requires s.WellFormed()
    ensures var t := AluStep(s, Sub, x, y);
      && (t.v[FLAG] == 1 <==> s.v[x] >= s.v[y])
      && t.v[FLAG] <= 1
      && (x != FLAG ==> t.v[x] as int == s.v[x] as int - s.v[y] + 0x100 * (1 - t.v[FLAG] as int))
      && (forall j :: 0 <= j < REGISTER_COUNT && j != x && j != FLAG ==> t.v[j] == s.v[j])
      && t == s.(v := t.v)
  {
  }

  /** 8xy7: as SUB with the operands swapped; the result still goes to Vx. */
  lemma SubNBorrow(s: State, x: Nibble, y: Nibble)
    requires s.WellFormed()
    ensures var t := AluStep(s, SubN, x, y);
      && (t.v[FLAG] == 1 <==> s.v[y] >= s.v[x])
      && t.v[FLAG] <= 1
      && (x != FLAG ==> t.v[x] as int == s.v[y] as int - s.v[x] + 0x100 * (1 - t.v[FLAG] as int))
      && (forall j :: 0 <= j < REGISTER_COUNT && j != x && j != FLAG ==> t.v[j] == s.v[j])
      && t == s.(v := t.v)
  {
  }

  /** 8xy6: VF receives the bit shifted out at the bottom; Vy plays no part. */
  lemma ShiftRight(s: State, x: Nibble, y: Nibble, y': Nibble)
    requires s.WellFormed()
    ensures var t := AluStep(s, Shr, x, y);
      && t.v[FLAG] <= 1
      && t.v[FLAG] == s.v[x] % 2
      && (x != FLAG ==> 2 * t.v[x] as int + t.v[FLAG] == s.v[x])
      && (forall j :: 0 <= j < REGISTER_COUNT && j != x && j != FLAG ==> t.v[j] == s.v[j])
      && t == s.(v := t.v)
      && t == AluStep(s, Shr, x, y')
  {
  }

  /** 8xyE: VF receives the bit shifted out at the top; Vy plays no part. */
  lemma ShiftLeft(s: State, x: Nibble, y: Nibble, y': Nibble)
    requires s.WellFormed()
    ensures var t := AluStep(s, Shl, x, y);
      && t.v[FLAG] <= 1
      && t.v[FLAG] == s.v[x] / 0x80
      && (x != FLAG ==> t.v[x] as int + 0x100 * (t.v[FLAG] as int) == 2 * s.v[x] as int)
      && (forall j :: 0 <= j < REGISTER_COUNT && j != x && j != FLAG ==> t.v[j] == s.v[j])
      && t == s.(v := t.v)
      && t == AluStep(s, Shl, x, y')
  {
  }

  /** 8xy0-8xy3 write Vx and nothing else: Vy, Vx | Vy, Vx & Vy or Vx ^ Vy; VF changes
      only when it is Vx. */
  lemma LogicOpsOnlyVx(s: State, op: AluOp, x: Nibble, y: Nibble)
    requires s.WellFormed()
    requires op in {Copy, BitwiseOr, BitwiseAnd, BitwiseXor}
    ensures var t := AluStep(s, op, x, y);
      && t == s.(v := s.v[x := t.v[x]])
      && (op == Copy ==> t.v[x] == s.v[y])
      && (op == BitwiseOr ==> t.v[x] == Or(s.v[x], s.v[y]))
      && (op == BitwiseAnd ==> t.v[x] == And(s.v[x], s.v[y]))
      && (op == BitwiseXor ==> t.v[x] == Xor(s.v[x], s.v[y]))
  {
  }

  /** 7xkk adds modulo 256 and never reports a carry. */
  lemma AddByteKeepsFlag(s: State, x: Nibble, kk: Byte)
    requires s.WellFormed()
    ensures Registers(s, AddByte(x, kk), 0).Done?
    ensures var t := Registers(s, AddByte(x, kk), 0).state;
      && t.v[x] == (if s.v[x] + kk > 0xFF then s.v[x] + kk - 0x100 else s.v[x] + kk)
      && (x != FLAG ==> t.v[FLAG] == s.v[FLAG])
      && t == s.(v := s.v[x := t.v[x]])
  {
  }

  /** Cxkk: Vx is the random byte masked by kk, so it has no bit outside kk. */
  lemma RandomMasked(s: State, x: Nibble, kk: Byte, rnd: Byte)
    requires s.WellFormed()
    ensures Registers(s, Random(x, kk), rnd).Done?
    ensures var t := Registers(s, Random(x, kk), rnd).state;
      && t.v[x] == And(rnd, kk)
      && Or(t.v[x], kk) == kk
      && t == s.(v := s.v[x := t.v[x]])
  {
    Pow2Byte();
    AndWithinMask(rnd, kk, 8);
  }

  /** Fx1E adds without the 12-bit mask: I can leave the address space and stay there. */
  lemma AddIndexUnmasked(s: State, x: Nibble)
    requires s.WellFormed()
    ensures var o := Registers(s, AddIndex(x), 0);
      && (o.Panic? <==> s.index + s.v[x] > 0xFFFF)
      && (o.Done? ==> o.state == s.(index := s.index + s.v[x]))
    ensures s.index == 0xFFF && s.v[x] == 1 ==> Registers(s, AddIndex(x), 0).state.index == 0x1000
  {
  }

  /** Fx29 loads byte Vx of the font table into I (a row of some glyph), not the
      address 5 * Vx of glyph Vx; values past 79 panic. */
  lemma FontLoadIsGlyphByte(s: State, x: Nibble)
    requires s.WellFormed()
    ensures var o := Registers(s, LoadFont(x), 0);
      && (o.Panic? <==> s.v[x] >= 80)
      && (o.Done? ==> o.state == s.(index := FONTSET[s.v[x]]))
  {
  }

  // ----------------------------------------------------------- control flow

  /** 2nnn: the return address goes to stack[sp]; a full stack panics. */
  lemma CallPushes(s: State, nnn: Addr)
    requires s.WellFormed()
    ensures var o := Control(s, Call(nnn));
      && (o.Panic? <==> s.sp >= STACK_SIZE)
      && (o.Done? ==> o.state.stack[s.sp] == s.pc && o.state.sp == s.sp + 1 && o.state.pc == nnn)
  {
  }

  /** 00EE: an empty stack (or sp past it) panics. */
  lemma ReturnPops(s: State)
    requires s.WellFormed()
    ensures var o := Control(s, Return);
      && (o.Panic? <==> s.sp == 0 || s.sp > STACK_SIZE)
      && (o.Done? ==> o.state == s.(sp := s.sp - 1, pc := s.stack[s.sp - 1]))
  {
  }

  /** CALL followed by RET comes back to the same PC and SP; only the stack slot
      written by CALL differs. */
  lemma CallThenReturn(s: State, nnn: Addr)
    requires s.WellFormed() && s.sp < STACK_SIZE
    ensures Control(s, Call(nnn)).Done?
    ensures Control(Control(s, Call(nnn)).state, Return)
         == Done(s.(stack := s.stack[s.sp := s.pc]))
  {
  }

  /** 00E0 blanks every cell but leaves the draw flag as it was; 1nnn jumps; Bnnn adds
      V0 to nnn without the 12-bit mask, so PC can land past memory (and the next fetch
      then panics) but the addition itself never overflows 16 bits. */
  lemma ClearAndJumps(s: State, nnn: Addr)
    requires s.WellFormed()
    ensures Control(s, ClearScreen).Done? && Control(s, Jump(nnn)).Done? && Control(s, JumpOffset(nnn)).Done?
    ensures var t := Control(s, ClearScreen).state;
      && (forall r, c :: 0 <= r < HEIGHT && 0 <= c < WIDTH ==> t.screen[r][c] == 0)
      && t.drawFlag == s.drawFlag
      && t == s.(screen := t.screen)
    ensures Control(s, Jump(nnn)).state == s.(pc := nnn)
    ensures var t := Control(s, JumpOffset(nnn)).state;
      && t == s.(pc := t.pc)
      && t.pc as int == s.v[0] as int + nnn
      && t.pc < 0xFF + 0x1000
    ensures s.v[0] == 1 && nnn == 0xFFF ==> Control(s, JumpOffset(nnn)).state.pc == MEMORY_SIZE
  {
  }

  /** 6xkk, Annn, Fx07 and Fx15 copy one value into one place; Fx0A does not wait for a
      key: it changes nothing. */
  lemma SimpleLoads(s: State, x: Nibble, kk: Byte, nnn: Addr)
    requires s.WellFormed()
    ensures Registers(s, LoadByte(x, kk), 0) == Done(s.(v := s.v[x := kk]))
    ensures Registers(s, LoadIndex(nnn), 0) == Done(s.(index := nnn))
    ensures Registers(s, LoadDelay(x), 0) == Done(s.(v := s.v[x := s.delayTimer]))
    ensures Registers(s, SetDelay(x), 0) == Done(s.(delayTimer := s.v[x]))
    ensures Registers(s, WaitKey(x), 0) == Done(s)
  {
  }

  /** The skips move PC by 0 or 2 and change nothing else. */
  lemma SkipOnlyMovesPc(s: State, i: Instr)
    requires s.WellFormed()
    requires i.SkipEqByte? || i.SkipNeByte? || i.SkipEqReg? || i.SkipNeReg? || i.SkipKey? || i.SkipNoKey?
    ensures Skip(s, i).Done? ==> Skip(s, i).state == s.(pc := Skip(s, i).state.pc)
    ensures Skip(s, i).Done? ==> Skip(s, i).state.pc in {s.pc, s.pc + 2}
    ensures (i.SkipKey? || i.SkipNoKey?) && s.v[i.x] >= KEY_COUNT ==> Skip(s, i).Panic?
  {
  }

  /** When each skip fires: 3xkk on Vx == kk, 4xkk on Vx != kk, 5xy0 on Vx == Vy,
      9xy0 on Vx != Vy, Ex9E while key Vx is down and ExA1 while it is up. The key
      forms panic exactly when Vx names no key. */
  lemma SkipConditions(s: State, x: Nibble, y: Nibble, kk: Byte)
    requires s.WellFormed() && s.pc + 2 <= 0xFFFF
    ensures Skip(s, SkipEqByte(x, kk)).Done? && Skip(s, SkipNeByte(x, kk)).Done?
    ensures Skip(s, SkipEqReg(x, y)).Done? && Skip(s, SkipNeReg(x, y)).Done?
    ensures Skip(s, SkipEqByte(x, kk)).state.pc == s.pc + 2 <==> s.v[x] == kk
    ensures Skip(s, SkipNeByte(x, kk)).state.pc == s.pc + 2 <==> s.v[x] != kk
    ensures Skip(s, SkipEqReg(x, y)).state.pc == s.pc + 2 <==> s.v[x] == s.v[y]
    ensures Skip(s, SkipNeReg(x, y)).state.pc == s.pc + 2 <==> s.v[x] != s.v[y]
    ensures Skip(s, SkipKey(x)).Panic? <==> s.v[x] >= KEY_COUNT
    ensures Skip(s, SkipNoKey(x)).Panic? <==> s.v[x] >= KEY_COUNT
    ensures s.v[x] < KEY_COUNT ==> (Skip(s, SkipKey(x)).state.pc == s.pc + 2 <==> s.keys[s.v[x]])
    ensures s.v[x] < KEY_COUNT ==> (Skip(s, SkipNoKey(x)).state.pc == s.pc + 2 <==> !s.keys[s.v[x]])
  {
  }

  /** SE and SNE with the same operands are complementary: exactly one of them skips. */
  lemma SkipPairsComplementary(s: State, x: Nibble, y: Nibble, kk: Byte)
    requires s.WellFormed() && s.pc + 2 <= 0xFFFF
    ensures Skip(s, SkipEqByte(x, kk)).Done? && Skip(s, SkipNeByte(x, kk)).Done?
    ensures (Skip(s, SkipEqByte(x, kk)).state.pc == s.pc + 2) != (Skip(s, SkipNeByte(x, kk)).state.pc == s.pc + 2)
    ensures (Skip(s, SkipEqReg(x, y)).state.pc == s.pc + 2) != (Skip(s, SkipNeReg(x, y)).state.pc == s.pc + 2)
    ensures s.v[x] < KEY_COUNT ==>
      (Skip(s, SkipKey(x)).state.pc == s.pc + 2) != (Skip(s, SkipNoKey(x)).state.pc == s.pc + 2)
  {
  }

  // ----------------------------------------------------------------- memory

  /** The hundreds, tens and units digits of a byte add back up to it. */
  lemma DecimalDigits(value: Byte)
    ensures value / 100 <= 2 && (value / 10) % 10 <= 9 && (value % 100) % 10 <= 9
    ensures 100 * (value / 100) + 10 * ((value / 10) % 10) + (value % 100) % 10 == value
  {
    var h, t := value / 100, value / 10;
    assert value == 100 * h + value % 100;
    assert value == 10 * t + value % 10;
    assert t == 10 * h + t % 10;
    assert (value % 100) % 10 == value % 10;
  }

  /** Fx33: three decimal digits, each at most 9, that add back up to Vx. */
  lemma BcdDigits(s: State, x: Nibble)
    requires s.WellFormed()
    ensures MemoryOp(s, StoreBcd(x)).Panic? <==> s.index + 2 >= MEMORY_SIZE
    ensures MemoryOp(s, StoreBcd(x)).Done? ==>
      var t := MemoryOp(s, StoreBcd(x)).state;
      var a, b, c := t.memory[s.index], t.memory[s.index + 1], t.memory[s.index + 2];
      && a <= 9 && b <= 9 && c <= 9
      && 100 * a + 10 * b + c == s.v[x]
      && (forall k :: 0 <= k < MEMORY_SIZE && !(s.index <= k <= s.index + 2) ==> t.memory[k] == s.memory[k])
      && t == s.(memory := t.memory)
  {
    DecimalDigits(s.v[x]);
  }

  /** Fx55 copies V0..Vx to I..I+x and leaves I and the rest of memory alone. */
  lemma StoreRegsWrites(s: State, x: Nibble)
    requires s.WellFormed()
    ensures MemoryOp(s, StoreRegs(x)).Panic? <==> s.index + x >= MEMORY_SIZE
    ensures MemoryOp(s, StoreRegs(x)).Done? ==>
      var t := MemoryOp(s, StoreRegs(x)).state;
      && (forall k :: 0 <= k <= x ==> t.memory[s.index + k] == s.v[k])
      && (forall k :: 0 <= k < MEMORY_SIZE && !(s.index <= k <= s.index + x) ==> t.memory[k] == s.memory[k])
      && t == s.(memory := t.memory)
  {
  }

  /** Fx65 copies I..I+x to V0..Vx and leaves the higher registers alone. */
  lemma LoadRegsReads(s: State, x: Nibble)
    requires s.WellFormed()
    ensures MemoryOp(s, LoadRegs(x)).Panic? <==> s.index + x >= MEMORY_SIZE
    ensures MemoryOp(s, LoadRegs(x)).Done? ==>
      var t := MemoryOp(s, LoadRegs(x)).state;
      && (forall k :: 0 <= k <= x ==> t.v[k] == s.memory[s.index + k])
      && (forall k :: x < k < REGISTER_COUNT ==> t.v[k] == s.v[k])
      && t == s.(v := t.v)
  {
  }

  /** Fx55 then Fx65 with the same x and I gives the registers back unchanged. */
  lemma StoreThenLoad(s: State, x: Nibble)
    requires s.WellFormed() && s.index + x < MEMORY_SIZE
    ensures MemoryOp(s, StoreRegs(x)).Done?
    ensures MemoryOp(MemoryOp(s, StoreRegs(x)).state, LoadRegs(x)) == MemoryOp(s, StoreRegs(x))
  {
    var t := MemoryOp(s, StoreRegs(x)).state;
    assert LoadedRegs(t.memory, t.index, t.v, x) == t.v;
  }

  /** Fx65 then Fx55 with the same x and I leaves memory as it was. */
  lemma LoadThenStore(s: State, x: Nibble)
    requires s.WellFormed() && s.index + x < MEMORY_SIZE
    ensures MemoryOp(s, LoadRegs(x)).Done?
    ensures MemoryOp(MemoryOp(s, LoadRegs(x)).state, StoreRegs(x)) == MemoryOp(s, LoadRegs(x))
  {
    var t := MemoryOp(s, LoadRegs(x)).state;
    assert StoredRegs(t.memory, t.index, t.v, x) == t.memory;
  }
  // ------------------------------------------------------------------- draw

  /** Dxyn: a cell changes exactly when a set sprite bit lies on it, so cells left of
      or above the origin (where a wrapped sprite would land) never change; VF is 1
      exactly on a collision, and nothing but VF, the display and the draw flag changes. */
  lemma DrawTogglesCovered(variant: Variant, s: State, x: Nibble, y: Nibble, n: Nibble)
    requires s.WellFormed() && DrawSprite(variant, s, x, y, n).Done?
    ensures SpriteRows(s, n).Some?
    ensures var t := DrawSprite(variant, s, x, y, n).state;
      var rows, x0, y0 := SpriteRows(s, n).value, s.v[x] % WIDTH, s.v[y] % HEIGHT;
      && |rows| == n
      && (forall r, c :: 0 <= r < HEIGHT && 0 <= c < WIDTH ==>
            (t.screen[r][c] != s.screen[r][c] <==> Covered(rows, x0, y0, 8 * n, r, c)))
      && (forall r, c :: 0 <= r < HEIGHT && 0 <= c < WIDTH && (r < y0 || c < x0) ==>
            t.screen[r][c] == s.screen[r][c])
      && (t.v[FLAG] == 1 <==> Collision(s.screen, rows, x0, y0, 8 * n))
      && t.v[FLAG] <= 1
      && (forall j :: 0 <= j < REGISTER_COUNT && j != FLAG ==> t.v[j] == s.v[j])
      && t == s.(v := t.v, screen := t.screen, drawFlag := true)
  {
    var rows, x0, y0 := SpriteRows(s, n).value, s.v[x] % WIDTH, s.v[y] % HEIGHT;
    forall r, c | 0 <= r < HEIGHT && 0 <= c < WIDTH
      ensures Drawn(s.screen, rows, x0, y0)[r][c] != s.screen[r][c] <==> Covered(rows, x0, y0, 8 * n, r, c)
    {
      ToggleChanges(s.screen[r][c]);
    }
  }

  /** The clipping draw panics only when a sprite row lies past memory; the draw of
      src/arch.rs also panics when a set bit falls off the display, and otherwise
      does exactly what the clipping draw does. */
  lemma DrawPanics(s: State, x: Nibble, y: Nibble, n: Nibble)
    requires s.WellFormed()
    ensures DrawSprite(C8, s, x, y, n) == DrawSprite(Modular, s, x, y, n)
    ensures DrawSprite(C8, s, x, y, n).Panic? <==> n > 0 && s.index + n > MEMORY_SIZE
    ensures DrawSprite(Arch, s, x, y, n).Panic? <==>
      || DrawSprite(C8, s, x, y, n).Panic?
      || OffScreen(SpriteRows(s, n).value, s.v[x] % WIDTH, s.v[y] % HEIGHT, 8 * n)
    ensures DrawSprite(Arch, s, x, y, n).Done? ==> DrawSprite(Arch, s, x, y, n) == DrawSprite(C8, s, x, y, n)
  {
  }

  /** Display cells stay 0 or 1 under a draw. */
  lemma DrawKeepsBinary(variant: Variant, s: State, x: Nibble, y: Nibble, n: Nibble)
    requires s.WellFormed() && Binary(s.screen) && DrawSprite(variant, s, x, y, n).Done?
    ensures Binary(DrawSprite(variant, s, x, y, n).state.screen)
  {
    var rows, x0, y0 := SpriteRows(s, n).value, s.v[x] % WIDTH, s.v[y] % HEIGHT;
    forall r, c | 0 <= r < HEIGHT && 0 <= c < WIDTH
      ensures Drawn(s.screen, rows, x0, y0)[r][c] <= 1
    {
      ToggleBit(s.screen[r][c]);
    }
  }

  /** XOR-ing the same sprite twice at the same origin gives the display back. */
  lemma DrawnTwice(screen: seq<seq<Byte>>, rows: seq<Byte>, x0: nat, y0: nat)
    requires ScreenShape(screen)
    ensures Drawn(Drawn(screen, rows, x0, y0), rows, x0, y0) == screen
  {
    var twice := Drawn(Drawn(screen, rows, x0, y0), rows, x0, y0);
    forall r | 0 <= r < HEIGHT
      ensures twice[r] == screen[r]
    {
      forall c | 0 <= c < WIDTH
        ensures twice[r][c] == screen[r][c]
      {
        ToggleTwice(screen[r][c]);
      }
    }
  }

  /** Drawing the same sprite twice (neither coordinate held in VF, which the first draw
      overwrites) restores the display, and the second draw cannot panic. */
  lemma DrawTwiceRestores(variant: Variant, s: State, x: Nibble, y: Nibble, n: Nibble)
    requires s.WellFormed() && x != FLAG && y != FLAG
    requires DrawSprite(variant, s, x, y, n).Done?
    ensures var t := DrawSprite(variant, s, x, y, n).state;
      && DrawSprite(variant, t, x, y, n).Done?
      && DrawSprite(variant, t, x, y, n).state.screen == s.screen
  {
    var rows, x0, y0 := SpriteRows(s, n).value, s.v[x] % WIDTH, s.v[y] % HEIGHT;
    var t := DrawSprite(variant, s, x, y, n).state;
    assert SpriteRows(t, n) == SpriteRows(s, n);
    DrawnTwice(s.screen, rows, x0, y0);
  }

  /** On a blank display, the draw lights exactly the covered cells. */
  lemma DrawnOnBlank(rows: seq<Byte>, x0: nat, y0: nat, r: nat, c: nat)
    requires r < HEIGHT && c < WIDTH
    ensures Drawn(Blank(), rows, x0, y0)[r][c] == if Covered(rows, x0, y0, 8 * |rows|, r, c) then 1 else 0
  {
    ToggleBit(0);
  }

  /** A collision with the sprite itself marks a cell it lit. */
  lemma SelfCollisionLit(rows: seq<Byte>, x0: nat, y0: nat)
    requires Collision(Drawn(Blank(), rows, x0, y0), rows, x0, y0, 8 * |rows|)
    ensures Drawn(Blank(), rows, x0, y0) != Blank()
  {
    var d, k := Drawn(Blank(), rows, x0, y0), 8 * |rows|;
    var a, b :| 0 <= a < |rows| && 0 <= b < 8 && Visited(a, b, k) && Hit(d, rows, x0, y0, a, b);
    assert d[y0 + a][x0 + b] != Blank()[y0 + a][x0 + b];
  }

  /** A cell the sprite lit collides when the sprite is drawn again. */
  lemma LitSelfCollision(rows: seq<Byte>, x0: nat, y0: nat)
    requires Drawn(Blank(), rows, x0, y0) != Blank()
    ensures Collision(Drawn(Blank(), rows, x0, y0), rows, x0, y0, 8 * |rows|)
  {
    var d := Drawn(Blank(), rows, x0, y0);
    assert exists r :: 0 <= r < HEIGHT && d[r] != Blank()[r];
    var r :| 0 <= r < HEIGHT && d[r] != Blank()[r];
    var c :| 0 <= c < WIDTH && d[r][c] != Blank()[r][c];
    DrawnOnBlank(rows, x0, y0, r, c);
    assert Hit(d, rows, x0, y0, r - y0, c - x0);
  }

  /** Drawing a sprite on a blank display and then drawing it again: the second draw
      reports a collision exactly when the first one lit some cell. */
  lemma DrawTwiceCollides(variant: Variant, s: State, x: Nibble, y: Nibble, n: Nibble)
    requires s.WellFormed() && s.screen == Blank() && x != FLAG && y != FLAG
    requires DrawSprite(variant, s, x, y, n).Done?
    ensures var t := DrawSprite(variant, s, x, y, n).state;
      && DrawSprite(variant, t, x, y, n).Done?
      && (DrawSprite(variant, t, x, y, n).state.v[FLAG] == 1 <==> t.screen != s.screen)
  {
    var rows, x0, y0 := SpriteRows(s, n).value, s.v[x] % WIDTH, s.v[y] % HEIGHT;
    var t := DrawSprite(variant, s, x, y, n).state;
    assert SpriteRows(t, n) == SpriteRows(s, n);
    DrawTwiceRestores(variant, s, x, y, n);
    if Collision(t.screen, rows, x0, y0, 8 * |rows|) {
      SelfCollisionLit(rows, x0, y0);
    }
    if t.screen != s.screen {
      LitSelfCollision(rows, x0, y0);
    }
  }

  /** On a blank display nothing collides. */
  lemma DrawOnBlankNoCollision(variant: Variant, s: State, x: Nibble, y: Nibble, n: Nibble)
    requires s.WellFormed() && s.screen == Blank() && DrawSprite(variant, s, x, y, n).Done?
    ensures DrawSprite(variant, s, x, y, n).state.v[FLAG] == 0
  {
  }

  // ------------------------------------------------------------------ cycle

  /** `t` keeps the array sizes, the sound timer and the keys of `s`, and its delay
      timer too unless `i` is Fx15. */
  predicate KeepsFrame(s: State, t: State, i: Instr)
  {
    && t.WellFormed()
    && t.soundTimer == s.soundTimer
    && t.keys == s.keys
    && (!i.SetDelay? ==> t.delayTimer == s.delayTimer)
    && (!i.ClearScreen? && !i.Draw? ==> t.screen == s.screen)
  }

  lemma ControlFrame(s: State, i: Instr)
    requires s.WellFormed() && (i.ClearScreen? || i.Return? || i.Jump? || i.Call? || i.JumpOffset?)
    requires Control(s, i).Done?
    ensures KeepsFrame(s, Control(s, i).state, i)
  {
  }

  lemma SkipFrame(s: State, i: Instr)
    requires s.WellFormed()
    requires i.SkipEqByte? || i.SkipNeByte? || i.SkipEqReg? || i.SkipNeReg? || i.SkipKey? || i.SkipNoKey?
    requires Skip(s, i).Done?
    ensures KeepsFrame(s, Skip(s, i).state, i)
  {
  }

  lemma MemoryOpFrame(s: State, i: Instr)
    requires s.WellFormed() && (i.StoreBcd? || i.StoreRegs? || i.LoadRegs?)
    requires MemoryOp(s, i).Done?
    ensures KeepsFrame(s, MemoryOp(s, i).state, i)
  {
  }

  lemma RegistersFrame(s: State, i: Instr, rnd: Byte)
    requires s.WellFormed()
    requires i.LoadByte? || i.AddByte? || i.Alu? || i.LoadIndex? || i.Random? || i.WaitKey?
          || i.LoadDelay? || i.SetDelay? || i.LoadFont? || i.AddIndex?
    requires Registers(s, i, rnd).Done?
    ensures KeepsFrame(s, Registers(s, i, rnd).state, i)
  {
  }

  /** No instruction writes the sound timer or the keys, and every result keeps the
      array sizes; only Fx15 writes the delay timer and only 00E0 and Dxyn the display. */
  lemma ApplyFrame(variant: Variant, s: State, i: Instr, rnd: Byte)
    requires s.WellFormed() && Apply(variant, s, i, rnd).Done?
    ensures var t := Apply(variant, s, i, rnd).state;
      && t.WellFormed()
      && t.soundTimer == s.soundTimer
      && t.keys == s.keys
      && (!i.SetDelay? ==> t.delayTimer == s.delayTimer)
      && (!i.ClearScreen? && !i.Draw? ==> t.screen == s.screen)
  {
    if i.ClearScreen? || i.Return? || i.Jump? || i.Call? || i.JumpOffset? {
      ControlFrame(s, i);
    } else if i.SkipEqByte? || i.SkipNeByte? || i.SkipEqReg? || i.SkipNeReg? || i.SkipKey? || i.SkipNoKey? {
      SkipFrame(s, i);
    } else if i.Draw? {
    } else if i.StoreBcd? || i.StoreRegs? || i.LoadRegs? {
      MemoryOpFrame(s, i);
    } else {
      RegistersFrame(s, i, rnd);
    }
  }

  /** The opcode is the big-endian word at PC: its high byte is memory[pc], its low byte memory[pc + 1]. */
  lemma FetchBigEndian(memory: seq<Byte>, pc: nat)
    requires pc + 1 < |memory|
    ensures Fetch(memory, pc) / 0x100 == memory[pc] && Fetch(memory, pc) % 0x100 == memory[pc + 1]
    ensures Fetch(memory, pc) == 0 <==> memory[pc] == 0 && memory[pc + 1] == 0
  {
  }

  /** Fetching past memory panics; opcode 0 only advances PC (no dispatch, no timers). */
  lemma ZeroOpcodeIsNoOp(variant: Variant, s: State, rnd: Byte)
    requires s.WellFormed()
    ensures s.pc + 1 >= MEMORY_SIZE ==> Cycle(variant, s, rnd) == Panic
    ensures s.pc + 1 < MEMORY_SIZE && s.memory[s.pc] == 0 && s.memory[s.pc + 1] == 0
            ==> Cycle(variant, s, rnd) == Done(s.(pc := s.pc + 2))
  {
  }

  /** PC is advanced before the instruction runs, so a CALL saves the address of the
      instruction after it. */
  lemma CallSavesNextInstruction(variant: Variant, s: State, rnd: Byte, nnn: Addr)
    requires s.WellFormed() && s.pc + 1 < MEMORY_SIZE && s.sp < STACK_SIZE
    requires Decode(variant, Fetch(s.memory, s.pc)) == Some(Call(nnn))
    ensures Cycle(variant, s, rnd).Done?
    ensures var t := Cycle(variant, s, rnd).state;
      t.stack[s.sp] == s.pc + 2 && t.sp == s.sp + 1 && t.pc == nnn
  {
    CycleExecutes(variant, s, rnd);
  }

  /** A cycle that fetches a nonzero opcode executes it on the advanced state, then
      ticks the timers of the result. */
  lemma CycleExecutes(variant: Variant, s: State, rnd: Byte)
    requires s.WellFormed() && s.pc + 1 < MEMORY_SIZE && Fetch(s.memory, s.pc) != 0
    ensures Cycle(variant, s, rnd) == match Execute(variant, s.(pc := s.pc + 2), Fetch(s.memory, s.pc), rnd)
      case Panic => Panic
      case Done(t) => Done(if variant.TicksTimers() then TickTimers(t) else t)
  {
  }

  /** Executing a known opcode applies the instruction it decodes to. */
  lemma ExecuteApplies(variant: Variant, s: State, opcode: Word, rnd: Byte)
    requires s.WellFormed() && Execute(variant, s, opcode, rnd).Done?
    ensures Decode(variant, opcode).Some?
    ensures Execute(variant, s, opcode, rnd) == Apply(variant, s, Decode(variant, opcode).value, rnd)
  {
  }

  /** After an executed instruction each nonzero timer drops by one and a zero timer
      stays 0; src/arch.rs leaves both alone. Fx15 may set the delay timer first. */
  lemma CycleTimers(variant: Variant, s: State, rnd: Byte)
    requires s.WellFormed() && s.pc + 1 < MEMORY_SIZE && Fetch(s.memory, s.pc) != 0
    requires Cycle(variant, s, rnd).Done?
    ensures Decode(variant, Fetch(s.memory, s.pc)).Some?
    ensures var t, tick := Cycle(variant, s, rnd).state, variant.TicksTimers();
      && t.soundTimer == (if tick && s.soundTimer > 0 then s.soundTimer - 1 else s.soundTimer)
      && (!Decode(variant, Fetch(s.memory, s.pc)).value.SetDelay? ==>
            t.delayTimer == (if tick && s.delayTimer > 0 then s.delayTimer - 1 else s.delayTimer))
  {
    CycleExecutes(variant, s, rnd);
    ExecuteApplies(variant, s.(pc := s.pc + 2), Fetch(s.memory, s.pc), rnd);
    ApplyFrame(variant, s.(pc := s.pc + 2), Decode(variant, Fetch(s.memory, s.pc)).value, rnd);
  }

  /** Nothing loads the sound timer (there is no Fx18), so it never rises. */
  lemma SoundTimerNeverRises(variant: Variant, s: State, rnd: Byte)
    requires s.WellFormed() && Cycle(variant, s, rnd).Done?
    ensures Cycle(variant, s, rnd).state.soundTimer <= s.soundTimer
  {
    if Fetch(s.memory, s.pc) != 0 {
      CycleTimers(variant, s, rnd);
    }
  }

  /** `k` timer ticks in a row. */
  function Ticked(s: State, k: nat): State
  {
    if k == 0 then s else TickTimers(Ticked(s, k - 1))
  }

  /** Repeated ticks count each timer down to 0 and hold it there. */
  lemma {:induction false} TicksFloorAtZero(s: State, k: nat)
    ensures Ticked(s, k).delayTimer == if s.delayTimer >= k then s.delayTimer - k else 0
    ensures Ticked(s, k).soundTimer == if s.soundTimer >= k then s.soundTimer - k else 0
    ensures Ticked(s, k) == s.(delayTimer := Ticked(s, k).delayTimer, soundTimer := Ticked(s, k).soundTimer)
  {
    if k > 0 {
      TicksFloorAtZero(s, k - 1);
    }
  }

  /** Every instruction keeps the display cells 0 or 1. */
  lemma ApplyKeepsBinary(variant: Variant, s: State, i: Instr, rnd: Byte)
    requires s.WellFormed() && Binary(s.screen) && Apply(variant, s, i, rnd).Done?
    ensures Binary(Apply(variant, s, i, rnd).state.screen)
  {
    if i.Draw? {
      DrawKeepsBinary(variant, s, i.x, i.y, i.n);
    } else if !i.ClearScreen? {
      ApplyFrame(variant, s, i, rnd);
    }
  }

  /** So does every cycle. */
  lemma CycleKeepsBinary(variant: Variant, s: State, rnd: Byte)
    requires s.WellFormed() && Binary(s.screen) && Cycle(variant, s, rnd).Done?
    ensures Cycle(variant, s, rnd).state.WellFormed()
    ensures Binary(Cycle(variant, s, rnd).state.screen)
  {
    if Fetch(s.memory, s.pc) != 0 {
      CycleExecutes(variant, s, rnd);
      ExecuteApplies(variant, s.(pc := s.pc + 2), Fetch(s.memory, s.pc), rnd);
      var i := Decode(variant, Fetch(s.memory, s.pc)).value;
      ApplyKeepsBinary(variant, s.(pc := s.pc + 2), i, rnd);
      ApplyFrame(variant, s.(pc := s.pc + 2), i, rnd);
    }
  }

  // ------------------------------------------------------- start-up and ROM

  /** `new()`: PC at 0x200, everything else zero; the 80-byte font is not in memory. */
  lemma InitialState()
    ensures var s := Initial();
      && s.pc == 0x200 && s.sp == 0 && s.index == 0
      && s.delayTimer == 0 && s.soundTimer == 0 && !s.drawFlag
      && (forall k :: 0 <= k < MEMORY_SIZE ==> s.memory[k] == 0)
      && (forall k :: 0 <= k < REGISTER_COUNT ==> s.v[k] == 0)
      && (forall k :: 0 <= k < STACK_SIZE ==> s.stack[k] == 0)
      && (forall k :: 0 <= k < KEY_COUNT ==> !s.keys[k])
      && (forall r, c :: 0 <= r < HEIGHT && 0 <= c < WIDTH ==> s.screen[r][c] == 0)
      && Binary(s.screen)
    ensures |FONTSET| == 16 * 5
  {
  }

  /** The ROM can be read back from 0x200 on; memory below and after it is untouched. */
  lemma LoadedHoldsRom(memory: seq<Byte>, rom: seq<Byte>)
    requires |memory| == MEMORY_SIZE && |rom| <= MAX_ROM_SIZE
    ensures var m := Loaded(memory, rom);
      && m[PROGRAM_START .. PROGRAM_START + |rom|] == rom
      && m[.. PROGRAM_START] == memory[.. PROGRAM_START]
      && m[PROGRAM_START + |rom| ..] == memory[PROGRAM_START + |rom| ..]
  {
    var m := Loaded(memory, rom);
    assert m == memory[.. PROGRAM_START] + rom + memory[PROGRAM_START + |rom| ..];
  }

  /** After `new()` and `load_rom`, the first cycle fetches the ROM's first two bytes. */
  lemma BootFetchesRom(rom: seq<Byte>)
    requires 2 <= |rom| <= MAX_ROM_SIZE
    ensures var s := Initial().(memory := Loaded(Initial().memory, rom));
      Fetch(s.memory, s.pc) == rom[0] as int * 0x100 + rom[1]
  {
  }

  // ---------------------------------------------------------------- dispatch

  /** Running the reference encoding of a supported instruction runs that instruction. */
  lemma ExecuteEncoded(variant: Variant, s: State, i: Instr, rnd: Byte)
    requires s.WellFormed() && Supported(variant, i)
    ensures Execute(variant, s, Encode(i), rnd) == Apply(variant, s, i, rnd)
  {
    DecodeEncode(variant, i);
  }

  /** Fx18 (LD ST, Vx) is fatal in every variant, as is any opcode the dispatch lacks. */
  lemma UnknownOpcodeIsFatal(variant: Variant, s: State, opcode: Word, rnd: Byte, x: Nibble)
    requires s.WellFormed()
    ensures Decode(variant, opcode) == None ==> Execute(variant, s, opcode, rnd) == Panic
    ensures Execute(variant, s, Pack(0xF, x, 0x1, 0x8), rnd) == Panic
  {
    NoSoundTimerLoad(variant, x);
  }

  /** src/arch.rs lacks Bnnn, Cxkk and Fx29; src/instructions.rs lacks Cxkk. */
  lemma VariantOpcodeSets(x: Nibble, y: Nibble, n: Nibble)
    ensures Decode(Arch, Pack(0xB, x, y, n)) == None && Decode(C8, Pack(0xB, x, y, n)).Some?
    ensures Decode(Arch, Pack(0xC, x, y, n)) == None && Decode(Modular, Pack(0xC, x, y, n)) == None
    ensures Decode(C8, Pack(0xC, x, y, n)).Some?
    ensures Decode(Arch, Pack(0xF, x, 0x2, 0x9)) == None && Decode(Modular, Pack(0xF, x, 0x2, 0x9)).Some?
    ensures Decode(Modular, Pack(0xB, x, y, n)).Some? && Decode(C8, Pack(0xF, x, 0x2, 0x9)).Some?
  {
    UnknownOpcodes(Arch, 0xB, x, y, n);
    UnknownOpcodes(C8, 0xB, x, y, n);
    UnknownOpcodes(Arch, 0xC, x, y, n);
    UnknownOpcodes(Modular, 0xC, x, y, n);
    UnknownOpcodes(C8, 0xC, x, y, n);
    UnknownOpcodes(Arch, 0xF, x, 0x2, 0x9);
    UnknownOpcodes(Modular, 0xF, x, 0x2, 0x9);
    UnknownOpcodes(Modular, 0xB, x, y, n);
    UnknownOpcodes(C8, 0xF, x, 0x2, 0x9);
  }
}

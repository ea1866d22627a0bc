/**
 * What the engine promises, proved about the definitions in module Semantics:
 * the initial and loaded memory, the flag rules of the arithmetic
 * instructions, call and return, BCD, register dump and load, drawing, the
 * skip instructions, the key wait of `mainloop`, and a small program run from
 * power-on.
 */
module Properties {
  import opened Bytes
  import opened Config
  import opened Opcode
  import opened Sprite
  import opened Semantics

  // ---------------------------------------------------------------------------
  // new, load, get_opcode

  /** After `new`, the font occupies memory[0..80) and the rest of memory is zero. */
  lemma InitialMemory(i: nat)
    requires i < MEMORY_SIZE
    ensures Initial().memory[i] == if i < |FONTSET| then FONTSET[i] else 0
  {
  }

  /**
   * `load(data)` copies data[i] to 0x200 + i for every i that stays below
   * 4096, drops the rest of `data`, and changes nothing else.
   */
  lemma LoadedMemory(m: Machine, data: seq<U8>, i: nat)
    requires Valid(m) && i < MEMORY_SIZE
    ensures Loaded(m, data) == m.(memory := Loaded(m, data).memory)
    ensures Loaded(m, data).memory[i] ==
      if PROGRAM_START <= i < PROGRAM_START + |data| then data[i - PROGRAM_START] else m.memory[i]
  {
    var k := Fits(data);
    var mem := Loaded(m, data).memory;
    if i < PROGRAM_START {
      assert mem[i] == m.memory[..PROGRAM_START][i];
    } else if i < PROGRAM_START + k {
      assert mem[i] == data[..k][i - PROGRAM_START];
    } else {
      assert mem[i] == m.memory[PROGRAM_START + k..][i - PROGRAM_START - k];
    }
  }

  /** The opcode fetched at the program counter has the high and low nibbles of the two bytes there. */
  lemma FetchNibbles(m: Machine)
    requires Valid(m) && m.pc + 1 < MEMORY_SIZE
    ensures var hi, lo := m.memory[m.pc] as nat, m.memory[m.pc + 1] as nat;
      Split(Fetch(m)) == (hi / 0x10, hi % 0x10, lo / 0x10, lo % 0x10)
  {
    var hi, lo := m.memory[m.pc] as nat, m.memory[m.pc + 1] as nat;
    var t: Nibbles := (hi / 0x10, hi % 0x10, lo / 0x10, lo % 0x10);
    assert Join(t) == Fetch(m);
    SplitJoin(t);
  }

  // ---------------------------------------------------------------------------
  // The program counter

  /** 3xkk and 4xkk add 4 to the program counter when their condition holds and 2 otherwise, and change nothing else. */
  lemma SkipOnByte(m: Machine, x: Nibble, kk: U8)
    requires Valid(m)
    ensures Op3xkk(m, x, kk) == m.(pc := m.pc + if m.regs[x] == kk then 4 else 2)
    ensures Op4xkk(m, x, kk) == m.(pc := m.pc + if m.regs[x] == kk then 2 else 4)
  {
  }

  /** 5xy0 and 9xy0 add 4 to the program counter when their condition holds and 2 otherwise, and change nothing else. */
  lemma SkipOnRegister(m: Machine, x: Nibble, y: Nibble)
    requires Valid(m)
    ensures Op5xy0(m, x, y) == m.(pc := m.pc + if m.regs[x] == m.regs[y] then 4 else 2)
    ensures Op9xy0(m, x, y) == m.(pc := m.pc + if m.regs[x] == m.regs[y] then 2 else 4)
  {
  }

  /** Ex9E and ExA1 add 4 to the program counter when their condition holds and 2 otherwise, and change nothing else. */
  lemma SkipOnKey(m: Machine, x: Nibble)
    requires Valid(m) && m.regs[x] as int < KEY_COUNT
    ensures OpEx9e(m, x) == m.(pc := m.pc + if m.keys[m.regs[x]] then 4 else 2)
    ensures OpExa1(m, x) == m.(pc := m.pc + if m.keys[m.regs[x]] then 2 else 4)
  {
  }

  /** An opcode that no pattern of `run_opcode` accepts only moves the program counter on by 2. */
  lemma UnknownOpcode(m: Machine, op: Word, rnd: U8)
    requires Valid(m) && Decode(op).Unknown?
    ensures Exec(m, Decode(op), rnd) == m.(pc := m.pc + 2)
  {
  }

  /**
   * With a free stack slot, a call followed by a return leaves the stack
   * pointer as it was and continues after the call; only the stack slot that
   * held the return address differs.
   */
  lemma CallThenReturn(m: Machine, nnn: Addr)
    requires Valid(m) && m.sp < STACK_SIZE
    ensures var c := Op2nnn(m, nnn);
      && c.pc == nnn && c.sp == m.sp + 1
      && c.sp > 0
      && Op00EE(c) == m.(pc := m.pc + 2, stack := m.stack[m.sp := m.pc + 2])
  {
  }

  // ---------------------------------------------------------------------------
  // Register arithmetic and its flag

  /** The registers other than x and VF. */
  predicate OthersUnchanged(r: seq<U8>, s: seq<U8>, x: Nibble)
    requires |r| == REGISTER_COUNT && |s| == REGISTER_COUNT
  {
    forall i :: 0 <= i < REGISTER_COUNT && i != x && i != VF ==> r[i] == s[i]
  }

  /** 8xy4: Vx and the carry in VF together hold the full sum; only Vx and VF change. */
  lemma AddCarry(m: Machine, x: Nibble, y: Nibble)
    requires Valid(m) && x != VF
    ensures var r := Op8xy4(m, x, y);
      && r == m.(regs := r.regs, pc := m.pc + 2)
      && r.regs[VF] <= 1
      && r.regs[x] as int + 0x100 * r.regs[VF] as int == m.regs[x] as int + m.regs[y] as int
      && OthersUnchanged(r.regs, m.regs, x)
  {
  }

  /** 8xy4 with x = 15: the carry overwrites the low byte of the sum. */
  lemma AddCarryIntoFlag(m: Machine, y: Nibble)
    requires Valid(m)
    ensures var r := Op8xy4(m, VF, y);
      r.regs == m.regs[VF := if m.regs[VF] as int + m.regs[y] as int > 0xFF then 1 else 0]
  {
  }

  /**
   * 8xy5 with x, y other than 15: VF is 1 exactly when Vx > Vy (so 0 when they
   * are equal), and Vx becomes Vx - Vy modulo 256.
   */
  lemma SubFlag(m: Machine, x: Nibble, y: Nibble)
    requires Valid(m) && x != VF && y != VF
    ensures var r := Op8xy5(m, x, y);
      && r == m.(regs := r.regs, pc := m.pc + 2)
      && (r.regs[VF] == 1 <==> m.regs[x] > m.regs[y]) && r.regs[VF] <= 1
      && r.regs[x] as int == (m.regs[x] as int - m.regs[y] as int) % 0x100
      && (m.regs[x] >= m.regs[y] ==> r.regs[x] == m.regs[x] - m.regs[y])
      && OthersUnchanged(r.regs, m.regs, x)
  {
  }

  /** 8xy7 with x, y other than 15: VF is 1 exactly when Vy > Vx, and Vx becomes Vy - Vx modulo 256. */
  lemma SubnFlag(m: Machine, x: Nibble, y: Nibble)
    requires Valid(m) && x != VF && y != VF
    ensures var r := Op8xy7(m, x, y);
      && r == m.(regs := r.regs, pc := m.pc + 2)
      && (r.regs[VF] == 1 <==> m.regs[y] > m.regs[x]) && r.regs[VF] <= 1
      && r.regs[x] as int == (m.regs[y] as int - m.regs[x] as int) % 0x100
      && OthersUnchanged(r.regs, m.regs, x)
  {
  }

  /**
   * 8xy5 and 8xy7 with x = 15: the flag is written first and the difference
   * then overwrites it, computed from the flag itself in place of the old VF.
   */
  lemma SubIntoFlag(m: Machine, y: Nibble)
    requires Valid(m) && y != VF
    ensures var flag: U8 := if m.regs[VF] > m.regs[y] then 1 else 0;
      Op8xy5(m, VF, y).regs == m.regs[VF := WrappingSub(flag, m.regs[y])]
    ensures var flag: U8 := if m.regs[y] > m.regs[VF] then 1 else 0;
      Op8xy7(m, VF, y).regs == m.regs[VF := WrappingSub(m.regs[y], flag)]
  {
  }

  /**
   * 8xy5 and 8xy7 with y = 15 and x other than 15: the flag is written first,
   * so the difference is taken with the new flag in place of the old VF.
   */
  lemma SubFromFlag(m: Machine, x: Nibble)
    requires Valid(m) && x != VF
    ensures var flag: U8 := if m.regs[x] > m.regs[VF] then 1 else 0;
      Op8xy5(m, x, VF).regs == m.regs[VF := flag][x := WrappingSub(m.regs[x], flag)]
    ensures var flag: U8 := if m.regs[VF] > m.regs[x] then 1 else 0;
      Op8xy7(m, x, VF).regs == m.regs[VF := flag][x := WrappingSub(flag, m.regs[x])]
  {
  }

  /** 8FF5 and 8FF7: no register is greater than itself, so VF ends 0 and no other register changes. */
  lemma SubOnFlag(m: Machine)
    requires Valid(m)
    ensures Op8xy5(m, VF, VF).regs == m.regs[VF := 0]
    ensures Op8xy7(m, VF, VF).regs == m.regs[VF := 0]
  {
  }

  /**
   * 8F06 and 8F0E: the shifted value overwrites the flag, so 8F06 leaves VF at
   * 0 and 8F0E leaves it at twice its old top bit; no other register changes.
   */
  lemma ShiftOnFlag(m: Machine)
    requires Valid(m)
    ensures Op8x06(m, VF).regs == m.regs[VF := 0]
    ensures Op8x0e(m, VF).regs == m.regs[VF := if m.regs[VF] >= 0x80 then 2 else 0]
  {
    var v := m.regs[VF];
    AndOne(v);
    AndHighBit(v);
    assert Op8x06(m, VF).regs[VF] == And(v, 1) / 2 == 0;
    assert Op8x0e(m, VF).regs[VF] as int == (v as int / 128 * 2) % 256;
  }

  /** 8xy6: the bit shifted out lands in VF, so 2 * Vx' + VF' is the old Vx. */
  lemma ShiftRightFlag(m: Machine, x: Nibble)
    requires Valid(m) && x != VF
    ensures var r := Op8x06(m, x);
      && r == m.(regs := r.regs, pc := m.pc + 2)
      && r.regs[VF] <= 1
      && 2 * r.regs[x] as int + r.regs[VF] as int == m.regs[x] as int
      && OthersUnchanged(r.regs, m.regs, x)
  {
    AndOne(m.regs[x]);
  }

  /** 8xyE: the bit shifted out lands in VF, so Vx' + 256 * VF' is twice the old Vx. */
  lemma ShiftLeftFlag(m: Machine, x: Nibble)
    requires Valid(m) && x != VF
    ensures var r := Op8x0e(m, x);
      && r == m.(regs := r.regs, pc := m.pc + 2)
      && r.regs[VF] <= 1
      && r.regs[x] as int + 0x100 * r.regs[VF] as int == 2 * m.regs[x] as int
      && OthersUnchanged(r.regs, m.regs, x)
  {
    AndHighBit(m.regs[x]);
    var v := m.regs[x] as int;
    var r := Op8x0e(m, x);
    assert r.regs[VF] as int == v / 128 && r.regs[x] as int == (v * 2) % 256;
    if v < 0x80 {
      assert v / 128 == 0 && (v * 2) % 256 == 2 * v;
    } else {
      assert v / 128 == 1 && (v * 2) % 256 == 2 * v - 256;
    }
  }

  // ---------------------------------------------------------------------------
  // Memory through the index register

  /**
   * Fx33: the three bytes from I on are the hundreds, tens and units digits
   * of Vx, the first at most 2 and the others below 10; no other byte changes.
   */
  lemma BcdDigits(m: Machine, x: Nibble)
    requires Valid(m) && m.index + 2 < MEMORY_SIZE
    ensures var r := OpFx33(m, x);
      var i := m.index;
      && r == m.(memory := r.memory, pc := m.pc + 2)
      && r.memory[i] as int * 100 + r.memory[i + 1] as int * 10 + r.memory[i + 2] as int == m.regs[x] as int
      && r.memory[i] <= 2 && r.memory[i + 1] < 10 && r.memory[i + 2] < 10
      && forall j :: 0 <= j < MEMORY_SIZE && !(i <= j <= i + 2) ==> r.memory[j] == m.memory[j]
  {
  }

  /** Fx55: memory[I + i] holds Vi for i <= x; the rest of memory is unchanged. */
  lemma DumpStores(m: Machine, x: Nibble)
    requires Valid(m) && m.index + x < MEMORY_SIZE
    ensures var r := OpFx55(m, x);
      && r == m.(memory := r.memory, pc := m.pc + 2)
      && (forall i :: 0 <= i <= x ==> r.memory[m.index + i] == m.regs[i])
      && (forall j :: 0 <= j < MEMORY_SIZE && !(m.index <= j <= m.index + x) ==> r.memory[j] == m.memory[j])
  {
    var mem := Dump(m, x);
    forall i | 0 <= i <= x
      ensures mem[m.index + i] == m.regs[i]
    {
      assert mem[m.index + i] == (m.memory[..m.index] + m.regs[..x + 1])[m.index + i];
    }
    forall j | 0 <= j < MEMORY_SIZE && !(m.index <= j <= m.index + x)
      ensures mem[j] == m.memory[j]
    {
      if j < m.index {
        assert mem[j] == (m.memory[..m.index] + m.regs[..x + 1])[j];
      }
    }
  }

  /** Fx65: Vi becomes memory[I + i] for i <= x; the registers above x are unchanged. */
  lemma RestoreLoads(m: Machine, x: Nibble)
    requires Valid(m) && m.index + x < MEMORY_SIZE
    ensures var r := OpFx65(m, x);
      && r == m.(regs := r.regs, pc := m.pc + 2)
      && (forall i :: 0 <= i <= x ==> r.regs[i] == m.memory[m.index + i])
      && (forall i :: x < i < REGISTER_COUNT ==> r.regs[i] == m.regs[i])
  {
  }

  /** Fx55 then Fx65 with the same I and x gives every register back. */
  lemma DumpThenRestore(m: Machine, x: Nibble)
    requires Valid(m) && m.index + x < MEMORY_SIZE
    ensures var d := OpFx55(m, x);
      && d.index + x < MEMORY_SIZE
      && OpFx65(d, x).regs == m.regs
  {
    var d := OpFx55(m, x);
    DumpStores(m, x);
    RestoreLoads(d, x);
    var r := OpFx65(d, x);
    forall i | 0 <= i < REGISTER_COUNT
      ensures r.regs[i] == m.regs[i]
    {
    }
  }

  // ---------------------------------------------------------------------------
  // Drawing

  /**
   * Dxyn with x, y other than 15: every sprite bit is XORed onto its
   * wrapped-around pixel, VF is 1 exactly when a set bit met a lit pixel, no
   * other register changes, and the framebuffer is marked changed.
   */
  lemma DrawSprite(m: Machine, x: Nibble, y: Nibble, n: Nibble)
    requires Valid(m) && x != VF && y != VF && (n == 0 || m.index + n <= MEMORY_SIZE)
    ensures var r := OpDxyn(m, x, y, n);
      var vx, vy := m.regs[x] as int, m.regs[y] as int;
      && r == m.(screen := r.screen, regs := r.regs, changed := true, pc := m.pc + 2)
      && Drawn(m.screen, r.screen, SpriteAt(m, n), 0, vx, vy)
      && r.regs == m.regs[VF := if Collides(m.screen, SpriteAt(m, n), 0, vx, vy) then 1 else 0]
  {
    DrawClosedForm(Frame(m.screen, m.regs[VF := 0]), x, y, SpriteAt(m, n));
  }

  /** Drawing the same sprite twice at the same place restores the framebuffer. */
  lemma DrawTwiceRestores(m: Machine, x: Nibble, y: Nibble, n: Nibble)
    requires Valid(m) && x != VF && y != VF && (n == 0 || m.index + n <= MEMORY_SIZE)
    ensures var d := OpDxyn(m, x, y, n);
      && (n == 0 || d.index + n <= MEMORY_SIZE)
      && OpDxyn(d, x, y, n).screen == m.screen
  {
    var d := OpDxyn(m, x, y, n);
    DrawSprite(m, x, y, n);
    assert SpriteAt(d, n) == SpriteAt(m, n);
    DrawSprite(d, x, y, n);
    var r := OpDxyn(d, x, y, n);
    DrawnTwice(m.screen, d.screen, r.screen, SpriteAt(m, n), m.regs[x] as int, m.regs[y] as int);
  }

  /**
   * Dxyn for any x and y, 15 included, with V' the registers after VF is
   * cleared: VF ends 1 exactly when a set bit drawn at (V'x, V'y) meets a lit
   * pixel, and when none does, the sprite is XORed in at (V'x, V'y) and no
   * register other than VF changes.
   */
  lemma DrawCollisionFlag(m: Machine, x: Nibble, y: Nibble, n: Nibble)
    requires Valid(m) && (n == 0 || m.index + n <= MEMORY_SIZE)
    ensures var r := OpDxyn(m, x, y, n);
      var cleared := m.regs[VF := 0];
      var vx, vy := cleared[x] as int, cleared[y] as int;
      && r == m.(screen := r.screen, regs := r.regs, changed := true, pc := m.pc + 2)
      && (r.regs[VF] == 1 <==> Collides(m.screen, SpriteAt(m, n), 0, vx, vy))
      && (!Collides(m.screen, SpriteAt(m, n), 0, vx, vy) ==>
            r.regs == cleared && Drawn(m.screen, r.screen, SpriteAt(m, n), 0, vx, vy))
  {
    DrawWithoutCollision(Frame(m.screen, m.regs[VF := 0]), x, y, SpriteAt(m, n));
  }

  /** Nothing collides with a dark framebuffer. */
  lemma NoCollisionOnDark(s: seq<seq<U8>>, sprite: seq<U8>, vx: int, vy: int)
    requires IsScreen(s) && forall r, c :: 0 <= r < HEIGHT && 0 <= c < WIDTH ==> Pixel(s, r, c) == 0
    ensures !Collides(s, sprite, 0, vx, vy)
  {
    forall row, bit | 0 <= row < |sprite| && 0 <= bit < 8
      ensures Pixel(s, RowAt(vy, row), ColumnAt(vx, bit)) == 0
    {
    }
  }

  /**
   * For any x and y: on a cleared framebuffer a sprite never collides; drawn a
   * second time in the same place it collides exactly when it has a set bit.
   */
  lemma DrawOnCleared(m: Machine, x: Nibble, y: Nibble, n: Nibble)
    requires Valid(m) && (n == 0 || m.index + n <= MEMORY_SIZE)
    ensures var c := Op00E0(m);
      var d := OpDxyn(c, x, y, n);
      var sprite := SpriteAt(m, n);
      && d.regs[VF] == 0
      && (n == 0 || d.index + n <= MEMORY_SIZE)
      && (OpDxyn(d, x, y, n).regs[VF] == 1 <==>
          exists row, bit :: 0 <= row < n && 0 <= bit < 8 && Bit(sprite[row], bit) == 1)
  {
    var c := Op00E0(m);
    var d := OpDxyn(c, x, y, n);
    var sprite := SpriteAt(m, n);
    assert SpriteAt(c, n) == sprite;
    var cleared := c.regs[VF := 0];
    var vx, vy := cleared[x] as int, cleared[y] as int;
    forall r, col | 0 <= r < HEIGHT && 0 <= col < WIDTH
      ensures Pixel(c.screen, r, col) == 0
    {
    }
    NoCollisionOnDark(c.screen, sprite, vx, vy);
    DrawCollisionFlag(c, x, y, n);
    assert d.regs == cleared;
    assert d.regs[VF := 0] == cleared;
    assert SpriteAt(d, n) == sprite;
    DrawCollisionFlag(d, x, y, n);
    RedrawCollides(c.screen, d.screen, sprite, vx, vy);
  }

  /** With VF set, Dxyn with x = 15 draws bit k at column 1 + k, so bits `bit` on leave columns up to `bit` alone. */
  lemma {:induction false} FlagColumnUntouched(f: Frame, cy: nat, rowByte: U8, bit: nat, c: nat)
    requires WellFormed(f) && cy < HEIGHT && bit <= 8 && Binary(f.screen) && f.regs[VF] == 1 && c <= bit
    ensures Pixel(DrawBits(f, VF, cy, rowByte, bit).screen, cy, c) == Pixel(f.screen, cy, c)
    decreases 8 - bit
  {
    if bit < 8 {
      var cx := ColumnAt(1, bit);
      var color := Bit(rowByte, bit);
      var pixel := Pixel(f.screen, cy, cx);
      var h := DrawPixel(f, VF, cy, rowByte, bit);
      ToggleIsXor(pixel, color);
      CollisionOnBits(1, color, pixel);
      BinaryUpdate(f.screen, cy, cx, Xor(pixel, color));
      PixelOfSet(f.screen, cy, cx, Xor(pixel, color));
      FlagColumnUntouched(h, cy, rowByte, bit + 1, c);
    }
  }

  /**
   * A row byte whose first four bits are set, drawn with x = 15 and VF clear
   * over a row whose pixels 0, 2 and 3 are lit and pixel 4 is dark: bit 0
   * collides at column 0, VF becomes 1, and bits 1 to 3 land on columns 2 to
   * 4, lighting pixel 4.
   */
  lemma RedrawOnFlagColumn(f: Frame, rowByte: U8)
    requires WellFormed(f) && Binary(f.screen) && f.regs[VF] == 0
    requires Bit(rowByte, 0) == 1 && Bit(rowByte, 1) == 1 && Bit(rowByte, 2) == 1 && Bit(rowByte, 3) == 1
    requires Pixel(f.screen, 0, 0) == 1 && Pixel(f.screen, 0, 2) == 1
    requires Pixel(f.screen, 0, 3) == 1 && Pixel(f.screen, 0, 4) == 0
    ensures Pixel(DrawBits(f, VF, 0, rowByte, 0).screen, 0, 4) == 1
  {
    var p0 := DrawPixel(f, VF, 0, rowByte, 0);
    CollisionOnBits(0, 1, 1);
    ToggleIsXor(1, 1);
    PixelOfSet(f.screen, 0, 0, 0);
    assert p0.regs[VF] == 1 && Pixel(p0.screen, 0, 2) == 1 && Pixel(p0.screen, 0, 3) == 1 && Pixel(p0.screen, 0, 4) == 0;
    BinaryUpdate(f.screen, 0, 0, 0);
    var p1 := DrawPixel(p0, VF, 0, rowByte, 1);
    CollisionOnBits(1, 1, 1);
    PixelOfSet(p0.screen, 0, 2, 0);
    assert p1.regs[VF] == 1 && Pixel(p1.screen, 0, 3) == 1 && Pixel(p1.screen, 0, 4) == 0;
    BinaryUpdate(p0.screen, 0, 2, 0);
    var p2 := DrawPixel(p1, VF, 0, rowByte, 2);
    PixelOfSet(p1.screen, 0, 3, 0);
    assert p2.regs[VF] == 1 && Pixel(p2.screen, 0, 4) == 0;
    BinaryUpdate(p1.screen, 0, 3, 0);
    var p3 := DrawPixel(p2, VF, 0, rowByte, 3);
    CollisionOnBits(1, 1, 0);
    ToggleIsXor(0, 1);
    PixelOfSet(p2.screen, 0, 4, 1);
    assert p3.regs[VF] == 1 && Pixel(p3.screen, 0, 4) == 1;
    BinaryUpdate(p2.screen, 0, 4, 1);
    assert DrawBits(f, VF, 0, rowByte, 0) == DrawBits(p0, VF, 0, rowByte, 1);
    assert DrawBits(p0, VF, 0, rowByte, 1) == DrawBits(p1, VF, 0, rowByte, 2);
    assert DrawBits(p1, VF, 0, rowByte, 2) == DrawBits(p2, VF, 0, rowByte, 3);
    assert DrawBits(p2, VF, 0, rowByte, 3) == DrawBits(p3, VF, 0, rowByte, 4);
    FlagColumnUntouched(p3, 0, rowByte, 4, 4);
  }

  /** A sprite drawn at (0, 0) over a dark pixel of row 0 puts its first row's bit there. */
  lemma DrawnAtOrigin(s: seq<seq<U8>>, t: seq<seq<U8>>, sprite: seq<U8>, col: nat)
    requires IsScreen(s) && IsScreen(t) && Binary(s) && 0 < |sprite| <= HEIGHT && col < 8
    requires Drawn(s, t, sprite, 0, 0, 0) && Pixel(s, 0, col) == 0
    ensures Pixel(t, 0, col) == Bit(sprite[0], col)
  {
    MaskAt(sprite, 0, 0, 0, col);
    assert RowAt(0, 0) == 0 && ColumnAt(0, col) == col;
  }

  /**
   * Drawing twice does not restore the framebuffer when x = 15: on a dark
   * framebuffer with V0 = VF = 0 and a one-row sprite whose bits 0 to 3 are
   * set and bit 4 clear, `DF01` run twice leaves pixel (0, 4) lit, because
   * the second draw collides at column 0 and then moves one column right
   * with VF.
   */
  lemma DrawTwiceOnFlag(m: Machine)
    requires Valid(m) && m.regs[0] == 0 && m.regs[VF] == 0 && m.index < MEMORY_SIZE
    requires forall r, c :: 0 <= r < HEIGHT && 0 <= c < WIDTH ==> Pixel(m.screen, r, c) == 0
    requires var b := m.memory[m.index];
      Bit(b, 0) == 1 && Bit(b, 1) == 1 && Bit(b, 2) == 1 && Bit(b, 3) == 1 && Bit(b, 4) == 0
    ensures var r := OpDxyn(OpDxyn(m, VF, 0, 1), VF, 0, 1);
      Pixel(m.screen, 0, 4) == 0 && Pixel(r.screen, 0, 4) == 1 && r.screen != m.screen
  {
    var sprite := SpriteAt(m, 1);
    assert sprite == [m.memory[m.index]];
    NoCollisionOnDark(m.screen, sprite, 0, 0);
    DrawCollisionFlag(m, VF, 0, 1);
    var d := OpDxyn(m, VF, 0, 1);
    assert m.regs[VF := 0] == m.regs;
    assert d.regs == m.regs;
    assert Drawn(m.screen, d.screen, sprite, 0, 0, 0);
    forall col | 0 <= col < 8
      ensures Pixel(d.screen, 0, col) == Bit(sprite[0], col)
    {
      DrawnAtOrigin(m.screen, d.screen, sprite, col);
    }
    assert SpriteAt(d, 1) == sprite;
    var f := Frame(d.screen, d.regs[VF := 0]);
    var r := OpDxyn(d, VF, 0, 1);
    assert r.screen == Draw(f, VF, 0, sprite).screen;
    assert RowAt(f.regs[0] as int, 0) == 0;
    var g := DrawBits(f, VF, 0, sprite[0], 0);
    assert DrawRows(f, VF, 0, sprite, 0) == DrawRows(g, VF, 0, sprite, 1);
    assert r.screen == g.screen;
    RedrawOnFlagColumn(f, sprite[0]);
  }

  /** The bits of 0xF0, most significant first. */
  lemma BitsOfF0()
    ensures Bit(0xF0, 0) == 1 && Bit(0xF0, 1) == 1 && Bit(0xF0, 2) == 1 && Bit(0xF0, 3) == 1 && Bit(0xF0, 4) == 0
  { }

  /**
   * A concrete instance: with the program `[0xF0]` loaded at 0x200 and
   * I = 0x200, `DF01` twice from power-on leaves pixel (0, 4) lit.
   */
  lemma DrawTwiceFromPowerOn()
    ensures var m := OpAnnn(Loaded(Initial(), [0xF0]), 0x200);
      var r := OpDxyn(OpDxyn(m, VF, 0, 1), VF, 0, 1);
      Pixel(m.screen, 0, 4) == 0 && Pixel(r.screen, 0, 4) == 1 && r.screen != m.screen
  {
    var m := OpAnnn(Loaded(Initial(), [0xF0]), 0x200);
    LoadedMemory(Initial(), [0xF0], 0x200);
    BitsOfF0();
    DrawTwiceOnFlag(m);
  }

  // ---------------------------------------------------------------------------
  // mainloop

  /** `FirstPressed` finds the lowest pressed key from `from` on, and none when no key there is pressed. */
  lemma {:induction false} FirstPressedLowest(keys: seq<bool>, from: nat)
    requires from <= |keys|
    ensures match FirstPressed(keys, from)
      case Some(k) => forall j :: from <= j < k ==> !keys[j]
      case None => forall j :: from <= j < |keys| ==> !keys[j]
    decreases |keys| - from
  {
    if from < |keys| && !keys[from] {
      FirstPressedLowest(keys, from + 1);
    }
  }

  /**
   * A tick while waiting for a key stores the snapshot and clears the changed
   * flag; it neither fetches nor moves the timers. With a key pressed, the
   * lowest one goes into the latched register and waiting ends; with none,
   * nothing else changes.
   */
  lemma WaitingTick(m: Machine, keys: seq<bool>, rnd: U8)
    requires Valid(m) && |keys| == KEY_COUNT && m.waiting
    ensures var r := Step(m, keys, rnd);
      && r.keys == keys && !r.changed
      && r.pc == m.pc && r.delay == m.delay && r.sound == m.sound
      && (if exists k :: 0 <= k < KEY_COUNT && keys[k] then
            exists k :: 0 <= k < KEY_COUNT && keys[k] &&
              (forall j :: 0 <= j < k ==> !keys[j]) &&
              r == m.(keys := keys, changed := false, waiting := false, regs := m.regs[m.keyReg := k as U8])
          else r == m.(keys := keys, changed := false))
  {
    FirstPressedLowest(keys, 0);
  }

  /**
   * A tick while not waiting stores the snapshot, clears the changed flag,
   * takes one from each timer that is above zero, and then runs exactly the
   * one instruction fetched at the program counter.
   */
  lemma RunningTick(m: Machine, keys: seq<bool>, rnd: U8)
    requires Valid(m) && |keys| == KEY_COUNT && !m.waiting && CanStep(m, keys)
    ensures var t := m.(keys := keys, changed := false,
                        delay := if m.delay == 0 then 0 else m.delay - 1,
                        sound := if m.sound == 0 then 0 else m.sound - 1);
      && Valid(t) && Fetch(t) == Fetch(m) && Defined(t, Decode(Fetch(m)))
      && Step(m, keys, rnd) == Exec(t, Decode(Fetch(m)), rnd)
  {
    var t := Tick(Latch(m, keys));
    assert t == m.(keys := keys, changed := false,
                   delay := if m.delay == 0 then 0 else m.delay - 1,
                   sound := if m.sound == 0 then 0 else m.sound - 1);
    assert Fetch(t) == Fetch(m);
  }

  /**
   * Fx0A latches x and starts waiting; the next tick with key k the lowest
   * pressed one puts k in Vx and ends the wait.
   */
  lemma WaitForKey(m: Machine, x: Nibble, keys: seq<bool>, k: nat, rnd: U8)
    requires Valid(m) && |keys| == KEY_COUNT
    requires k < KEY_COUNT && keys[k] && forall j :: 0 <= j < k ==> !keys[j]
    ensures var w := OpFx0a(m, x);
      && w.waiting && w.pc == m.pc + 2
      && CanStep(w, keys)
      && Step(w, keys, rnd) == w.(keys := keys, changed := false, waiting := false, regs := m.regs[x := k as U8])
  {
    FirstPressedLowest(keys, 0);
    var w := OpFx0a(m, x);
    match FirstPressed(keys, 0)
    case Some(j) =>
      if j < k {
      } else if k < j {
      }
    case None =>
  }

  // ---------------------------------------------------------------------------
  // A program from power-on

  /** `6005` decodes as LD V0, 5. */
  lemma Decode6005()
    ensures Decode(0x6005) == LdByte(0, 5)
  {
    SplitJoin((6, 0, 0, 5));
  }

  /** `700A` decodes as ADD V0, 10. */
  lemma Decode700A()
    ensures Decode(0x700A) == AddByte(0, 10)
  {
    SplitJoin((7, 0, 0, 10));
  }

  /** A tick that fetches 6xkk: Vx becomes kk and the program counter moves to the next instruction. */
  lemma StepLoad(m: Machine, keys: seq<bool>, rnd: U8, x: Nibble, kk: U8)
    requires Valid(m) && |keys| == KEY_COUNT && !m.waiting && m.pc + 1 < MEMORY_SIZE
    requires Decode(Fetch(m)) == LdByte(x, kk)
    ensures CanStep(m, keys)
    ensures var s := Step(m, keys, rnd);
      s.regs == m.regs[x := kk] && s.pc == m.pc + 2 && s.memory == m.memory && !s.waiting
  {
    RunningTick(m, keys, rnd);
  }

  /** A tick that fetches 7xkk: kk is added to Vx, wrapping, and the program counter moves on. */
  lemma StepAdd(m: Machine, keys: seq<bool>, rnd: U8, x: Nibble, kk: U8)
    requires Valid(m) && |keys| == KEY_COUNT && !m.waiting && m.pc + 1 < MEMORY_SIZE
    requires Decode(Fetch(m)) == AddByte(x, kk)
    ensures CanStep(m, keys)
    ensures var s := Step(m, keys, rnd);
      s.regs == m.regs[x := WrappingAdd(m.regs[x], kk)] && s.pc == m.pc + 2 && s.memory == m.memory && !s.waiting
  {
    RunningTick(m, keys, rnd);
  }

  /**
   * `6005` then `700A` at the program counter of a running machine: two ticks
   * with no key pressed leave 15 in V0 and move the program counter four bytes.
   */
  lemma LoadThenAdd(m: Machine, keys: seq<bool>, rnd: U8)
    requires Valid(m) && |keys| == KEY_COUNT && !m.waiting && m.pc + 3 < MEMORY_SIZE
    requires m.memory[m.pc] == 0x60 && m.memory[m.pc + 1] == 0x05
    requires m.memory[m.pc + 2] == 0x70 && m.memory[m.pc + 3] == 0x0A
    ensures CanStep(m, keys) && CanStep(Step(m, keys, rnd), keys)
    ensures var r := Step(Step(m, keys, rnd), keys, rnd);
      r.regs[0] == 15 && r.pc == m.pc + 4
  {
    assert Fetch(m) == 0x6005;
    Decode6005();
    StepLoad(m, keys, rnd, 0, 5);
    var s := Step(m, keys, rnd);
    assert Fetch(s) == 0x700A;
    Decode700A();
    StepAdd(s, keys, rnd, 0, 10);
  }

  /** The same two instructions loaded at 0x200 and run from power-on. */
  lemma SmallProgram(rnd: U8)
    ensures var m := Loaded(Initial(), [0x60, 0x05, 0x70, 0x0A]);
      var keys := seq(KEY_COUNT, _ => false);
      && CanStep(m, keys)
      && CanStep(Step(m, keys, rnd), keys)
      && var r := Step(Step(m, keys, rnd), keys, rnd);
      r.regs[0] == 15 && r.pc == 0x204
  {
    var m := Loaded(Initial(), [0x60, 0x05, 0x70, 0x0A]);
    LoadedMemory(Initial(), [0x60, 0x05, 0x70, 0x0A], 0x200);
    LoadedMemory(Initial(), [0x60, 0x05, 0x70, 0x0A], 0x201);
    LoadedMemory(Initial(), [0x60, 0x05, 0x70, 0x0A], 0x202);
    LoadedMemory(Initial(), [0x60, 0x05, 0x70, 0x0A], 0x203);
    LoadThenAdd(m, seq(KEY_COUNT, _ => false), rnd);
  }
}

/**
 * The engine as it runs: `ProgramCounter` and `Cpu` with their fields updated
 * in place. Every method is proved to take the state, read through `Abs`, to
 * what the matching definition in module Semantics says.
 */
module Engine {
  import opened Bytes
  import opened Config
  import opened Opcode
  import opened Sprite
  import opened Semantics
  import opened Properties

  /** The framebuffer `g`, row by row. */
  ghost function Pixels(g: array2<U8>): (s: seq<seq<U8>>)
    reads g
    requires g.Length0 == HEIGHT && g.Length1 == WIDTH
    ensures IsScreen(s)
  {
    seq(HEIGHT, r reads g requires 0 <= r < HEIGHT =>
      seq(WIDTH, c reads g requires 0 <= c < WIDTH => g[r, c]))
  }

  /** The address of the next instruction. */
  class ProgramCounter {
    var counter: nat

    constructor (counter: nat)
      ensures this.counter == counter
    {
      this.counter := counter;
    }

    /** Step over the next instruction. */
    method Skip()
      modifies this
      ensures counter == old(counter) + 4
    {
      counter := counter + 4;
    }

    /** Move on to the next instruction. */
    method Increment()
      modifies this
      ensures counter == old(counter) + 2
    {
      counter := counter + 2;
    }

    method SkipIf(condition: bool)
      modifies this
      ensures counter == Semantics.SkipIf(old(counter), condition)
    {
      if condition {
        Skip();
      } else {
        Increment();
      }
    }

    method Jump(addr: nat)
      modifies this
      ensures counter == addr
    {
      counter := addr;
    }
  }

  class Cpu {
    var programCounter: ProgramCounter
    var index: nat
    var sp: nat
    var delayTimer: U8
    var soundTimer: U8
    var graphics: array2<U8>
    var memory: array<U8>
    var registers: array<U8>
    var stack: array<nat>
    var keys: seq<bool>
    var keypadWaiting: bool
    var keypadRegister: nat
    var graphicsChanged: bool

    /** The array sizes, and two distinct byte arrays. */
    ghost predicate Shapes()
      reads this
    {
      && graphics.Length0 == HEIGHT && graphics.Length1 == WIDTH
      && memory.Length == MEMORY_SIZE && registers.Length == REGISTER_COUNT
      && stack.Length == STACK_SIZE && memory != registers
    }

    /** The framebuffer and the registers: what a draw changes. */
    ghost function Canvas(): (f: Frame)
      reads this, graphics, registers
      requires graphics.Length0 == HEIGHT && graphics.Length1 == WIDTH && registers.Length == REGISTER_COUNT
      ensures WellFormed(f)
    {
      Frame(Pixels(graphics), registers[..])
    }

    /** The state as a value. */
    ghost function Abs(): Machine
      reads this, programCounter, graphics, memory, registers, stack
      requires Shapes()
    {
      Machine(programCounter.counter, index, sp, delayTimer, soundTimer, Pixels(graphics),
        memory[..], registers[..], stack[..], keys, keypadWaiting, keypadRegister, graphicsChanged)
    }

    ghost predicate Valid()
      reads this, programCounter, graphics, memory, registers, stack
    {
      Shapes() && Semantics.Valid(Abs())
    }

    /** `Cpu::new`: the font copied to address 0, everything else zero, execution to start at 0x200. */
    constructor ()
      ensures Valid() && Abs() == Initial()
    {
      programCounter := new ProgramCounter(PROGRAM_START);
      index := 0;
      sp := 0;
      delayTimer := 0;
      soundTimer := 0;
      graphics := new U8[HEIGHT, WIDTH]((_, _) => 0);
      memory := new U8[MEMORY_SIZE](_ => 0);
      registers := new U8[REGISTER_COUNT](_ => 0);
      stack := new nat[STACK_SIZE](_ => 0);
      keys := seq(KEY_COUNT, _ => false);
      keypadWaiting := false;
      keypadRegister := 0;
      graphicsChanged := false;
      new;
      CopyFont(memory);
      BlankScreen();
    }

    /** The loop of `new` that copies the font to the start of a zeroed memory. */
    static method CopyFont(memory: array<U8>)
      requires memory.Length == MEMORY_SIZE
      requires forall j :: 0 <= j < MEMORY_SIZE ==> memory[j] == 0
      modifies memory
      ensures memory[..] == Initial().memory
    {
      var i := 0;
      while i < |FONTSET|
        invariant 0 <= i <= |FONTSET|
        invariant forall j :: 0 <= j < i ==> memory[j] == FONTSET[j]
        invariant forall j :: i <= j < MEMORY_SIZE ==> memory[j] == 0
      {
        memory[i] := FONTSET[i];
        i := i + 1;
      }
      forall j | 0 <= j < MEMORY_SIZE
        ensures memory[j] == Initial().memory[j]
      {
        InitialMemory(j);
      }
    }

    /** A framebuffer whose every pixel is 0 is the blank one. */
    lemma BlankScreen()
      requires Shapes()
      requires forall r, c :: 0 <= r < HEIGHT && 0 <= c < WIDTH ==> graphics[r, c] == 0
      ensures Pixels(graphics) == Blank()
    {
      forall r | 0 <= r < HEIGHT
        ensures Pixels(graphics)[r] == Blank()[r]
      {
      }
    }

    /** `get_opcode`: the byte at the program counter in the high half, the next byte in the low half. */
    method GetOpcode() returns (opcode: Word)
      requires Valid() && programCounter.counter + 1 < MEMORY_SIZE
      ensures opcode == Fetch(Abs())
    {
      opcode := memory[programCounter.counter] as nat * 0x100 + memory[programCounter.counter + 1] as nat;
    }

    /**
     * `load(data)`: data[i] goes to 0x200 + i until the end of memory; the rest
     * of `data` is dropped.
     */
    method Load(data: seq<U8>)
      requires Valid()
      modifies memory
      ensures Valid() && Abs() == Loaded(old(Abs()), data)
    {
      var i := 0;
      while i < |data|
        invariant 0 <= i <= Fits(data)
        invariant forall j :: 0 <= j < i ==> memory[PROGRAM_START + j] == data[j]
        invariant forall j :: 0 <= j < MEMORY_SIZE && !(PROGRAM_START <= j < PROGRAM_START + i) ==> memory[j] == old(memory[j])
        invariant i < |data| && i != Fits(data) ==> PROGRAM_START + i < MEMORY_SIZE
      {
        var addr := PROGRAM_START + i;
        if addr < MEMORY_SIZE {
          memory[addr] := data[i];
        } else {
          break;
        }
        i := i + 1;
      }
      assert i == Fits(data);
      assert memory[..] == Loaded(old(Abs()), data).memory;
    }

    // -------------------------------------------------------------------------
    // The instruction handlers

    /** 00E0 CLS: every pixel set to 0, row by row. */
    method Op00E0()
      requires Valid()
      modifies this`graphicsChanged, graphics, programCounter
      ensures Valid() && Abs() == Semantics.Op00E0(old(Abs()))
    {
      var y := 0;
      while y < HEIGHT
        invariant 0 <= y <= HEIGHT
        invariant forall r, c :: 0 <= r < y && 0 <= c < WIDTH ==> graphics[r, c] == 0
        modifies graphics
      {
        var x := 0;
        while x < WIDTH
          invariant 0 <= x <= WIDTH
          invariant forall r, c :: 0 <= r < y && 0 <= c < WIDTH ==> graphics[r, c] == 0
          invariant forall c :: 0 <= c < x ==> graphics[y, c] == 0
          modifies graphics
        {
          graphics[y, x] := 0;
          x := x + 1;
        }
        y := y + 1;
      }
      BlankScreen();
      graphicsChanged := true;
      programCounter.Increment();
    }

    /** 00EE RET */
    method Op00EE()
      requires Valid() && sp > 0
      modifies this`sp, programCounter
      ensures Valid() && Abs() == Semantics.Op00EE(old(Abs()))
    {
      sp := sp - 1;
      programCounter.Jump(stack[sp]);
    }

    /** 1nnn JP addr */
    method Op1nnn(addr: Addr)
      requires Valid()
      modifies programCounter
      ensures Valid() && Abs() == Semantics.Op1nnn(old(Abs()), addr)
    {
      programCounter.Jump(addr);
    }

    /** 2nnn CALL addr */
    method Op2nnn(addr: Addr)
      requires Valid() && sp < STACK_SIZE
      modifies this`sp, stack, programCounter
      ensures Valid() && Abs() == Semantics.Op2nnn(old(Abs()), addr)
    {
      stack[sp] := programCounter.counter + 2;
      sp := sp + 1;
      programCounter.Jump(addr);
    }

    /** 3xkk SE Vx, byte */
    method Op3xkk(x: Nibble, kk: U8)
      requires Valid()
      modifies programCounter
      ensures Valid() && Abs() == Semantics.Op3xkk(old(Abs()), x, kk)
    {
      programCounter.SkipIf(registers[x] == kk);
    }

    /** 4xkk SNE Vx, byte */
    method Op4xkk(x: Nibble, kk: U8)
      requires Valid()
      modifies programCounter
      ensures Valid() && Abs() == Semantics.Op4xkk(old(Abs()), x, kk)
    {
      programCounter.SkipIf(registers[x] != kk);
    }

    /** 5xy0 SE Vx, Vy */
    method Op5xy0(x: Nibble, y: Nibble)
      requires Valid()
      modifies programCounter
      ensures Valid() && Abs() == Semantics.Op5xy0(old(Abs()), x, y)
    {
      programCounter.SkipIf(registers[x] == registers[y]);
    }

    /** 6xkk LD Vx, byte */
    method Op6xkk(x: Nibble, kk: U8)
      requires Valid()
      modifies registers, programCounter
      ensures Valid() && Abs() == Semantics.Op6xkk(old(Abs()), x, kk)
    {
      registers[x] := kk;
      programCounter.Increment();
    }

    /** 7xkk ADD Vx, byte: the sum is formed in 16 bits and truncated to 8. */
    method Op7xkk(x: Nibble, kk: U8)
      requires Valid()
      modifies registers, programCounter
      ensures Valid() && Abs() == Semantics.Op7xkk(old(Abs()), x, kk)
    {
      var vx := registers[x] as int;
      var val := kk as int;
      var result := vx + val;
      registers[x] := (result % 0x100) as U8;
      programCounter.Increment();
    }

    /** 8xy0 LD Vx, Vy */
    method Op8xy0(x: Nibble, y: Nibble)
      requires Valid()
      modifies registers, programCounter
      ensures Valid() && Abs() == Semantics.Op8xy0(old(Abs()), x, y)
    {
      registers[x] := registers[y];
      programCounter.Increment();
    }

    /** 8xy1 OR Vx, Vy */
    method Op8xy1(x: Nibble, y: Nibble)
      requires Valid()
      modifies registers, programCounter
      ensures Valid() && Abs() == Semantics.Op8xy1(old(Abs()), x, y)
    {
      registers[x] := Or(registers[x], registers[y]);
      programCounter.Increment();
    }

    /** 8xy2 AND Vx, Vy */
    method Op8xy2(x: Nibble, y: Nibble)
      requires Valid()
      modifies registers, programCounter
      ensures Valid() && Abs() == Semantics.Op8xy2(old(Abs()), x, y)
    {
      registers[x] := And(registers[x], registers[y]);
      programCounter.Increment();
    }

    /** 8xy3 XOR Vx, Vy */
    method Op8xy3(x: Nibble, y: Nibble)
      requires Valid()
      modifies registers, programCounter
      ensures Valid() && Abs() == Semantics.Op8xy3(old(Abs()), x, y)
    {
      registers[x] := Xor(registers[x], registers[y]);
      programCounter.Increment();
    }

    /** 8xy4 ADD Vx, Vy: the low byte to Vx, then the carry to VF. */
    method Op8xy4(x: Nibble, y: Nibble)
      requires Valid()
      modifies registers, programCounter
      ensures Valid() && Abs() == Semantics.Op8xy4(old(Abs()), x, y)
    {
      var vx := registers[x] as int;
      var vy := registers[y] as int;
      var result := vx + vy;
      registers[x] := (result % 0x100) as U8;
      registers[VF] := if result > 0xFF then 1 else 0;
      programCounter.Increment();
    }

    /** 8xy5 SUB Vx, Vy: the flag first, then the wrapping difference. */
    method Op8xy5(x: Nibble, y: Nibble)
      requires Valid()
      modifies registers, programCounter
      ensures Valid() && Abs() == Semantics.Op8xy5(old(Abs()), x, y)
    {
      registers[VF] := if registers[x] > registers[y] then 1 else 0;
      registers[x] := WrappingSub(registers[x], registers[y]);
      programCounter.Increment();
    }

    /** 8xy6 SHR Vx: the low bit to VF, then Vx shifted right by one. */
    method Op8x06(x: Nibble)
      requires Valid()
      modifies registers, programCounter
      ensures Valid() && Abs() == Semantics.Op8x06(old(Abs()), x)
    {
      registers[VF] := And(registers[x], 1);
      registers[x] := registers[x] / 2;
      programCounter.Increment();
    }

    /** 8xy7 SUBN Vx, Vy: the flag first, then the wrapping difference Vy - Vx. */
    method Op8xy7(x: Nibble, y: Nibble)
      requires Valid()
      modifies registers, programCounter
      ensures Valid() && Abs() == Semantics.Op8xy7(old(Abs()), x, y)
    {
      registers[VF] := if registers[y] > registers[x] then 1 else 0;
      registers[x] := WrappingSub(registers[y], registers[x]);
      programCounter.Increment();
    }

    /** 8xyE SHL Vx: the high bit to VF, then Vx shifted left by one within 8 bits. */
    method Op8x0e(x: Nibble)
      requires Valid()
      modifies registers, programCounter
      ensures Valid() && Abs() == Semantics.Op8x0e(old(Abs()), x)
    {
      AndHighBit(registers[x]);
      registers[VF] := ShiftRight(And(registers[x], 0x80) as nat, 7) as U8;
      registers[x] := ((registers[x] as int * 2) % 0x100) as U8;
      programCounter.Increment();
    }

    /** 9xy0 SNE Vx, Vy */
    method Op9xy0(x: Nibble, y: Nibble)
      requires Valid()
      modifies programCounter
      ensures Valid() && Abs() == Semantics.Op9xy0(old(Abs()), x, y)
    {
      programCounter.SkipIf(registers[x] != registers[y]);
    }

    /** Annn LD I, addr */
    method OpAnnn(nnn: Addr)
      requires Valid()
      modifies this`index, programCounter
      ensures Valid() && Abs() == Semantics.OpAnnn(old(Abs()), nnn)
    {
      index := nnn;
      programCounter.Increment();
    }

    /** Bnnn JP V0, addr */
    method OpBnnn(nnn: Addr)
      requires Valid()
      modifies programCounter
      ensures Valid() && Abs() == Semantics.OpBnnn(old(Abs()), nnn)
    {
      programCounter.Jump(registers[0] as nat + nnn);
    }

    /** Cxkk RND Vx, byte, with `rnd` the byte the random generator yields. */
    method OpCxkk(x: Nibble, kk: U8, rnd: U8)
      requires Valid()
      modifies registers, programCounter
      ensures Valid() && Abs() == Semantics.OpCxkk(old(Abs()), x, kk, rnd)
    {
      registers[x] := And(rnd, kk);
      programCounter.Increment();
    }

    /** Ex9E SKP Vx */
    method OpEx9e(x: Nibble)
      requires Valid() && registers[x] as int < KEY_COUNT
      modifies programCounter
      ensures Valid() && Abs() == Semantics.OpEx9e(old(Abs()), x)
    {
      programCounter.SkipIf(keys[registers[x]]);
    }

    /** ExA1 SKNP Vx */
    method OpExa1(x: Nibble)
      requires Valid() && registers[x] as int < KEY_COUNT
      modifies programCounter
      ensures Valid() && Abs() == Semantics.OpExa1(old(Abs()), x)
    {
      programCounter.SkipIf(!keys[registers[x]]);
    }

    /** Fx07 LD Vx, DT */
    method OpFx07(x: Nibble)
      requires Valid()
      modifies registers, programCounter
      ensures Valid() && Abs() == Semantics.OpFx07(old(Abs()), x)
    {
      registers[x] := delayTimer;
      programCounter.Increment();
    }

    /** Fx0A LD Vx, K: latch the register and wait. */
    method OpFx0a(x: Nibble)
      requires Valid()
      modifies this`keypadWaiting, this`keypadRegister, programCounter
      ensures Valid() && Abs() == Semantics.OpFx0a(old(Abs()), x)
    {
      keypadWaiting := true;
      keypadRegister := x;
      programCounter.Increment();
    }

    /** Fx15 LD DT, Vx */
    method OpFx15(x: Nibble)
      requires Valid()
      modifies this`delayTimer, programCounter
      ensures Valid() && Abs() == Semantics.OpFx15(old(Abs()), x)
    {
      delayTimer := registers[x];
      programCounter.Increment();
    }

    /** Fx18 LD ST, Vx */
    method OpFx18(x: Nibble)
      requires Valid()
      modifies this`soundTimer, programCounter
      ensures Valid() && Abs() == Semantics.OpFx18(old(Abs()), x)
    {
      soundTimer := registers[x];
      programCounter.Increment();
    }

    /** Fx1E ADD I, Vx: the flag first, then I grows by Vx. */
    method OpFx1e(x: Nibble)
      requires Valid()
      modifies this`index, registers, programCounter
      ensures Valid() && Abs() == Semantics.OpFx1e(old(Abs()), x)
    {
      registers[VF] := if index > 0x0F00 then 1 else 0;
      index := index + registers[x] as nat;
      programCounter.Increment();
    }

    /** Fx29 LD F, Vx: each font glyph is five bytes long. */
    method OpFx29(x: Nibble)
      requires Valid()
      modifies this`index, programCounter
      ensures Valid() && Abs() == Semantics.OpFx29(old(Abs()), x)
    {
      index := registers[x] as nat * 5;
      programCounter.Increment();
    }

    /** Fx33 LD B, Vx */
    method OpFx33(x: Nibble)
      requires Valid() && index + 2 < MEMORY_SIZE
      modifies memory, programCounter
      ensures Valid() && Abs() == Semantics.OpFx33(old(Abs()), x)
    {
      memory[index] := registers[x] / 100;
      memory[index + 1] := (registers[x] / 10) % 10;
      memory[index + 2] := registers[x] % 10;
      programCounter.Increment();
    }

    /** Fx55 LD [I], Vx: registers 0..=x stored one by one. */
    method OpFx55(x: Nibble)
      requires Valid() && index + x < MEMORY_SIZE
      modifies memory, programCounter
      ensures Valid() && Abs() == Semantics.OpFx55(old(Abs()), x)
    {
      var i := 0;
      while i <= x
        invariant 0 <= i <= x + 1
        invariant forall j :: 0 <= j < i ==> memory[index + j] == registers[j]
        invariant forall j :: 0 <= j < MEMORY_SIZE && !(index <= j < index + i) ==> memory[j] == old(memory[j])
        modifies memory
      {
        memory[index + i] := registers[i];
        i := i + 1;
      }
      assert memory[..] == Dump(old(Abs()), x);
      programCounter.Increment();
    }

    /** Fx65 LD Vx, [I]: registers 0..=x loaded one by one. */
    method OpFx65(x: Nibble)
      requires Valid() && index + x < MEMORY_SIZE
      modifies registers, programCounter
      ensures Valid() && Abs() == Semantics.OpFx65(old(Abs()), x)
    {
      var i := 0;
      while i <= x
        invariant 0 <= i <= x + 1
        invariant forall j :: 0 <= j < i ==> registers[j] == memory[index + j]
        invariant forall j :: i <= j < REGISTER_COUNT ==> registers[j] == old(registers[j])
        modifies registers
      {
        registers[i] := memory[index + i];
        i := i + 1;
      }
      assert registers[..] == Restore(old(Abs()), x);
      programCounter.Increment();
    }
  
    /**
     * Dxyn DRW Vx, Vy, nibble: VF cleared, then the `n` bytes from I drawn row
     * by row, re-reading Vy for each row.
     */
    method OpDxyn(x: Nibble, y: Nibble, n: Nibble)
      requires Valid() && (n == 0 || index + n <= MEMORY_SIZE)
      modifies this`graphicsChanged, registers, graphics, programCounter
      ensures Valid() && Abs() == Semantics.OpDxyn(old(Abs()), x, y, n)
    {
      registers[VF] := 0;
      ghost var start := Canvas();
      assert start == Frame(old(Abs()).screen, old(Abs()).regs[VF := 0]);
      DrawSprite(x, y, n, SpriteAt(old(Abs()), n));
      graphicsChanged := true;
      programCounter.Increment();
      ghost var r := Semantics.OpDxyn(old(Abs()), x, y, n);
      assert Abs() == r;
      assert Semantics.Valid(r);
    }

    /** The outer loop of Dxyn: sprite row `byte` is the byte at I + byte. */
    method DrawSprite(x: Nibble, y: Nibble, n: Nibble, ghost sprite: seq<U8>)
      requires Shapes() && |sprite| == n
      requires forall i :: 0 <= i < n ==> index + i < MEMORY_SIZE && sprite[i] == memory[index + i]
      modifies registers, graphics
      ensures Canvas() == Draw(old(Canvas()), x, y, sprite)
    {
      var byte := 0;
      while byte < n
        invariant 0 <= byte <= n
        invariant DrawRows(Canvas(), x, y, sprite, byte) == DrawRows(old(Canvas()), x, y, sprite, 0)
      {
        ghost var before := Canvas();
        var cy := (registers[y] as nat + byte) % HEIGHT;
        assert cy == RowAt(before.regs[y] as int, byte);
        DrawRow(x, cy, memory[index + byte]);
        assert Canvas() == DrawBits(before, x, cy, sprite[byte], 0);
        byte := byte + 1;
      }
    }

    /** The inner loop of Dxyn: the eight bits of one sprite row drawn on row `cy`, re-reading Vx for each. */
    method DrawRow(x: Nibble, cy: nat, rowByte: U8)
      requires Shapes() && cy < HEIGHT
      modifies registers, graphics
      ensures Canvas() == DrawBits(old(Canvas()), x, cy, rowByte, 0)
    {
      var bit := 0;
      while bit < 8
        invariant 0 <= bit <= 8
        invariant DrawBits(Canvas(), x, cy, rowByte, bit) == DrawBits(old(Canvas()), x, cy, rowByte, 0)
      {
        DrawPixelAt(x, cy, rowByte, bit);
        bit := bit + 1;
      }
    }

    /** One step of the inner loop of Dxyn: the collision into VF, then the pixel flipped by the sprite bit. */
    method DrawPixelAt(x: Nibble, cy: nat, rowByte: U8, bit: nat)
      requires Shapes() && cy < HEIGHT && bit < 8
      modifies registers, graphics
      ensures Canvas() == DrawPixel(old(Canvas()), x, cy, rowByte, bit)
    {
      var cx := (registers[x] as nat + bit) % WIDTH;
      var color := Bit(rowByte, bit);
      ghost var before := Pixels(graphics);
      registers[VF] := Or(registers[VF], And(color, graphics[cy, cx]));
      graphics[cy, cx] := Xor(graphics[cy, cx], color);
      PixelOfSet(before, cy, cx, Xor(Pixel(before, cy, cx), color));
      forall r | 0 <= r < HEIGHT
        ensures Pixels(graphics)[r] == SetPixel(before, cy, cx, Xor(Pixel(before, cy, cx), color))[r]
      {
        assert forall c :: 0 <= c < WIDTH ==> Pixels(graphics)[r][c] == Pixel(Pixels(graphics), r, c);
      }
    }
  
    // -------------------------------------------------------------------------
    // Dispatch and the main loop

    /**
     * `run_opcode(opcode)`: the handler the opcode's nibbles select, with x, y,
     * n, kk and nnn cut from it; an opcode no pattern matches moves on to the
     * next instruction.
     */
    method RunOpcode(opcode: Word, rnd: U8)
      requires Valid() && Defined(Abs(), Decode(opcode))
      modifies this, registers, memory, stack, graphics, programCounter
      ensures Valid() && Abs() == Exec(old(Abs()), Decode(opcode), rnd)
    {
      var ins := Decode(opcode);
      if FlowGroup(ins) {
        RunFlow(ins);
      } else if AluGroup(ins) {
        RunAlu(ins);
      } else if IndexedGroup(ins) {
        RunIndexed(ins, rnd);
      } else if TimerGroup(ins) {
        RunTimers(ins);
      } else {
        RunMemory(ins);
      }
    }

    /** The patterns with first nibble 0 to 7. */
    method RunFlow(ins: Instr)
      requires Valid() && Defined(Abs(), ins) && FlowGroup(ins)
      modifies this`graphicsChanged, this`sp, registers, stack, graphics, programCounter
      ensures Valid() && Abs() == ExecFlow(old(Abs()), ins)
    {
      match ins
      case Cls => Op00E0();
      case Ret => Op00EE();
      case Jp(nnn) => Op1nnn(nnn);
      case Call(nnn) => Op2nnn(nnn);
      case SeByte(x, kk) => Op3xkk(x, kk);
      case SneByte(x, kk) => Op4xkk(x, kk);
      case SeReg(x, y) => Op5xy0(x, y);
      case LdByte(x, kk) => Op6xkk(x, kk);
      case AddByte(x, kk) => Op7xkk(x, kk);
    }

    /** The patterns with first nibble 8 and 9. */
    method RunAlu(ins: Instr)
      requires Valid() && AluGroup(ins)
      modifies registers, programCounter
      ensures Valid() && Abs() == ExecAlu(old(Abs()), ins)
    {
      match ins
      case LdReg(x, y) => Op8xy0(x, y);
      case OrReg(x, y) => Op8xy1(x, y);
      case AndReg(x, y) => Op8xy2(x, y);
      case XorReg(x, y) => Op8xy3(x, y);
      case AddReg(x, y) => Op8xy4(x, y);
      case SubReg(x, y) => Op8xy5(x, y);
      case Shr(x) => Op8x06(x);
      case Subn(x, y) => Op8xy7(x, y);
      case Shl(x) => Op8x0e(x);
      case SneReg(x, y) => Op9xy0(x, y);
    }

    /** The patterns with first nibble A to E. */
    method RunIndexed(ins: Instr, rnd: U8)
      requires Valid() && Defined(Abs(), ins) && IndexedGroup(ins)
      modifies this`index, this`graphicsChanged, registers, graphics, programCounter
      ensures Valid() && Abs() == ExecIndexed(old(Abs()), ins, rnd)
    {
      match ins
      case LdI(nnn) => OpAnnn(nnn);
      case JpV0(nnn) => OpBnnn(nnn);
      case Rnd(x, kk) => OpCxkk(x, kk, rnd);
      case Drw(x, y, n) => OpDxyn(x, y, n);
      case Skp(x) => OpEx9e(x);
      case Sknp(x) => OpExa1(x);
    }

    /** The F patterns on the timers and the keypad. */
    method RunTimers(ins: Instr)
      requires Valid() && TimerGroup(ins)
      modifies this`keypadWaiting, this`keypadRegister, this`delayTimer, this`soundTimer, registers, programCounter
      ensures Valid() && Abs() == ExecTimers(old(Abs()), ins)
    {
      match ins
      case LdVxDt(x) => OpFx07(x);
      case LdVxK(x) => OpFx0a(x);
      case LdDtVx(x) => OpFx15(x);
      case LdStVx(x) => OpFx18(x);
    }

    /** The F patterns on I and memory, and the fallback for an opcode no pattern matches. */
    method RunMemory(ins: Instr)
      requires Valid() && Defined(Abs(), ins)
      requires !FlowGroup(ins) && !AluGroup(ins) && !IndexedGroup(ins) && !TimerGroup(ins)
      modifies this`index, registers, memory, programCounter
      ensures Valid() && Abs() == ExecMemory(old(Abs()), ins)
    {
      match ins
      case AddI(x) => OpFx1e(x);
      case LdF(x) => OpFx29(x);
      case LdB(x) => OpFx33(x);
      case LdIVx(x) => OpFx55(x);
      case LdVxI(x) => OpFx65(x);
      case Unknown(_) => programCounter.Increment();
    }

    /**
     * `mainloop(keys)`: store the key snapshot and clear `graphics_changed`;
     * then, while waiting for a key, put the lowest pressed one into the
     * latched register, or else tick both timers and run the instruction at
     * the program counter. Reports whether the frame changed.
     */
    method Mainloop(keys: seq<bool>, rnd: U8) returns (changed: bool)
      requires Valid() && |keys| == KEY_COUNT && CanStep(Abs(), keys)
      modifies this, registers, memory, stack, graphics, programCounter
      ensures Valid() && Abs() == Step(old(Abs()), keys, rnd)
      ensures changed == Abs().changed
    {
      this.keys := keys;
      graphicsChanged := false;
      ghost var latched := Abs();
      assert latched == Latch(old(Abs()), keys);
      if keypadWaiting {
        assert Step(old(Abs()), keys, rnd) == KeyWait(latched);
        WaitForKey(keys);
      } else {
        ghost var ticked := Tick(latched);
        assert Fetch(ticked) == Fetch(old(Abs()));
        assert Defined(ticked, Decode(Fetch(ticked)));
        assert Step(old(Abs()), keys, rnd) == Exec(ticked, Decode(Fetch(ticked)), rnd);
        Cycle(rnd);
      }
      changed := graphicsChanged;
    }

    /** The running branch of `mainloop`: tick both timers, then fetch and run one instruction. */
    method Cycle(rnd: U8)
      requires Valid() && programCounter.counter + 1 < MEMORY_SIZE
      requires Defined(Tick(Abs()), Decode(Fetch(Tick(Abs()))))
      modifies this, registers, memory, stack, graphics, programCounter
      ensures Valid() && Abs() == Exec(Tick(old(Abs())), Decode(Fetch(Tick(old(Abs())))), rnd)
    {
      TickTimers();
      var opcode := GetOpcode();
      RunOpcode(opcode, rnd);
    }

    /** Each timer above zero goes down by one. */
    method TickTimers()
      requires Valid()
      modifies this`delayTimer, this`soundTimer
      ensures Valid() && Abs() == Tick(old(Abs()))
    {
      if delayTimer > 0 {
        delayTimer := delayTimer - 1;
      }
      if soundTimer > 0 {
        soundTimer := soundTimer - 1;
      }
    }

    /** The key scan of `mainloop` while waiting: the first pressed key, if any, ends the wait. */
    method WaitForKey(keys: seq<bool>)
      requires Valid() && keys == this.keys
      modifies this`keypadWaiting, registers
      ensures Valid() && Abs() == KeyWait(old(Abs()))
    {
      var i := 0;
      while i < |keys|
        invariant 0 <= i <= |keys|
        invariant FirstPressed(keys, i) == FirstPressed(keys, 0)
        invariant Abs() == old(Abs())
      {
        if keys[i] {
          keypadWaiting := false;
          registers[keypadRegister] := i as U8;
          break;
        }
        i := i + 1;
      }
    }
  }
}

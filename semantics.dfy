/**
 * The engine's state as a value, and what each instruction, an opcode fetch,
 * `new`, `load` and one tick of `mainloop` do to it. The `Cpu` class in module
 * Engine is proved to follow these definitions step for step; the properties
 * the engine promises are proved about them in module Properties.
 *
 * Where the engine would panic (an index out of bounds, a stack pointer below
 * zero) the definitions have a precondition instead; `Defined` collects them.
 */
module Semantics {
  import opened Bytes
  import opened Config
  import opened Opcode
  import opened Sprite

  datatype Option<T> = None | Some(value: T)

  /** The fields of `Cpu`, with the program counter's one field inlined as `pc`. */
  datatype Machine = Machine(
    pc: nat,
    index: nat,
    sp: nat,
    delay: U8,
    sound: U8,
    screen: seq<seq<U8>>,
    memory: seq<U8>,
    regs: seq<U8>,
    stack: seq<nat>,
    keys: seq<bool>,
    waiting: bool,
    keyReg: nat,
    changed: bool)

  /** The array sizes of `Cpu`, a 0/1 framebuffer, and the bounds the engine keeps on `sp` and the latched register. */
  predicate Valid(m: Machine)
  {
    && IsScreen(m.screen) && Binary(m.screen)
    && |m.memory| == MEMORY_SIZE && |m.regs| == REGISTER_COUNT
    && |m.stack| == STACK_SIZE && |m.keys| == KEY_COUNT
    && m.sp <= STACK_SIZE && m.keyReg < REGISTER_COUNT
  }

  /** An all-dark framebuffer. */
  function Blank(): (s: seq<seq<U8>>)
    ensures IsScreen(s) && Binary(s)
  {
    seq(HEIGHT, _ => seq(WIDTH, _ => 0 as U8))
  }

  /** `a.wrapping_sub(b)` on `u8`. */
  function WrappingSub(a: U8, b: U8): U8
  {
    ((a as int - b as int) % 256) as U8
  }

  /** `(a as u16 + b as u16) as u8`: the low byte of the sum. */
  function WrappingAdd(a: U8, b: U8): U8
  {
    ((a as int + b as int) % 256) as U8
  }

  /** The `n` sprite bytes Dxyn reads, from memory[I] on. */
  function SpriteAt(m: Machine, n: nat): (sprite: seq<U8>)
    requires Valid(m) && (n == 0 || m.index + n <= MEMORY_SIZE)
    ensures |sprite| == n
  {
    if n == 0 then [] else m.memory[m.index..m.index + n]
  }

  /** Memory after Fx55: registers 0..=x stored from I on. */
  function Dump(m: Machine, x: Nibble): (mem: seq<U8>)
    requires Valid(m) && m.index + x < MEMORY_SIZE
    ensures |mem| == MEMORY_SIZE
  {
    m.memory[..m.index] + m.regs[..x + 1] + m.memory[m.index + x + 1..]
  }

  /** Registers after Fx65: registers 0..=x loaded from I on. */
  function Restore(m: Machine, x: Nibble): (regs: seq<U8>)
    requires Valid(m) && m.index + x < MEMORY_SIZE
    ensures |regs| == REGISTER_COUNT
  {
    m.memory[m.index..m.index + x + 1] + m.regs[x + 1..]
  }

  /**
   * What the engine needs of the state to run `ins` without panicking: a
   * return address to pop, a free stack slot, sprite, BCD and register-dump
   * bytes inside memory, and a key number below 16 in Ex9E and ExA1.
   */
  predicate Defined(m: Machine, ins: Instr)
    requires Valid(m)
    ensures !(ins.Ret? || ins.Call? || ins.Drw? || ins.Skp? || ins.Sknp? || ins.LdB? || ins.LdIVx? || ins.LdVxI?) ==>
      Defined(m, ins)
  {
    match ins
    case Ret => m.sp > 0
    case Call(_) => m.sp < STACK_SIZE
    case Drw(_, _, n) => n == 0 || m.index + n <= MEMORY_SIZE
    case Skp(x) => m.regs[x] as int < KEY_COUNT
    case Sknp(x) => m.regs[x] as int < KEY_COUNT
    case LdB(_) => m.index + 2 < MEMORY_SIZE
    case LdIVx(x) => m.index + x < MEMORY_SIZE
    case LdVxI(x) => m.index + x < MEMORY_SIZE
    case _ => true
  }

  /** `ProgramCounter::skip_if`: skip the next instruction (4 bytes) if `condition`, else move to it (2 bytes). */
  function SkipIf(pc: nat, condition: bool): (next: nat)
    ensures next == pc + 2 || next == pc + 4
    ensures next == pc + 4 <==> condition
  {
    if condition then pc + 4 else pc + 2
  }

  /** 00E0 CLS: every pixel dark; the framebuffer has changed. */
  function Op00E0(m: Machine): (r: Machine)
    requires Valid(m)
    ensures Valid(r)
  {
    m.(screen := Blank(), changed := true, pc := m.pc + 2)
  }

  /** 00EE RET: pop the return address into the program counter. */
  function Op00EE(m: Machine): (r: Machine)
    requires Valid(m) && m.sp > 0
    ensures Valid(r)
  {
    m.(sp := m.sp - 1, pc := m.stack[m.sp - 1])
  }

  /** 1nnn JP: jump to nnn. */
  function Op1nnn(m: Machine, nnn: Addr): (r: Machine)
    requires Valid(m)
    ensures Valid(r)
  {
    m.(pc := nnn)
  }

  /** 2nnn CALL: push the address of the next instruction and jump to nnn. */
  function Op2nnn(m: Machine, nnn: Addr): (r: Machine)
    requires Valid(m) && m.sp < STACK_SIZE
    ensures Valid(r)
  {
    m.(stack := m.stack[m.sp := m.pc + 2], sp := m.sp + 1, pc := nnn)
  }

  /** 3xkk SE: skip if Vx == kk. */
  function Op3xkk(m: Machine, x: Nibble, kk: U8): (r: Machine)
    requires Valid(m)
    ensures Valid(r)
  {
    m.(pc := SkipIf(m.pc, m.regs[x] == kk))
  }

  /** 4xkk SNE: skip if Vx != kk. */
  function Op4xkk(m: Machine, x: Nibble, kk: U8): (r: Machine)
    requires Valid(m)
    ensures Valid(r)
  {
    m.(pc := SkipIf(m.pc, m.regs[x] != kk))
  }

  /** 5xy0 SE: skip if Vx == Vy. */
  function Op5xy0(m: Machine, x: Nibble, y: Nibble): (r: Machine)
    requires Valid(m)
    ensures Valid(r)
  {
    m.(pc := SkipIf(m.pc, m.regs[x] == m.regs[y]))
  }

  /** 6xkk LD: Vx := kk. */
  function Op6xkk(m: Machine, x: Nibble, kk: U8): (r: Machine)
    requires Valid(m)
    ensures Valid(r)
  {
    m.(regs := m.regs[x := kk], pc := m.pc + 2)
  }

  /** 7xkk ADD: Vx := Vx + kk, wrapping, VF untouched. */
  function Op7xkk(m: Machine, x: Nibble, kk: U8): (r: Machine)
    requires Valid(m)
    ensures Valid(r)
  {
    m.(regs := m.regs[x := WrappingAdd(m.regs[x], kk)], pc := m.pc + 2)
  }

  /** 8xy0 LD: Vx := Vy. */
  function Op8xy0(m: Machine, x: Nibble, y: Nibble): (r: Machine)
    requires Valid(m)
    ensures Valid(r)
  {
    m.(regs := m.regs[x := m.regs[y]], pc := m.pc + 2)
  }

  /** 8xy1 OR: Vx := Vx | Vy. */
  function Op8xy1(m: Machine, x: Nibble, y: Nibble): (r: Machine)
    requires Valid(m)
    ensures Valid(r)
  {
    m.(regs := m.regs[x := Or(m.regs[x], m.regs[y])], pc := m.pc + 2)
  }

  /** 8xy2 AND: Vx := Vx & Vy. */
  function Op8xy2(m: Machine, x: Nibble, y: Nibble): (r: Machine)
    requires Valid(m)
    ensures Valid(r)
  {
    m.(regs := m.regs[x := And(m.regs[x], m.regs[y])], pc := m.pc + 2)
  }

  /** 8xy3 XOR: Vx := Vx ^ Vy. */
  function Op8xy3(m: Machine, x: Nibble, y: Nibble): (r: Machine)
    requires Valid(m)
    ensures Valid(r)
  {
    m.(regs := m.regs[x := Xor(m.regs[x], m.regs[y])], pc := m.pc + 2)
  }

  /** 8xy4 ADD: Vx := the low byte of Vx + Vy, then VF := the carry. */
  function Op8xy4(m: Machine, x: Nibble, y: Nibble): (r: Machine)
    requires Valid(m)
    ensures Valid(r)
  {
    var sum := m.regs[x] as int + m.regs[y] as int;
    m.(regs := m.regs[x := WrappingAdd(m.regs[x], m.regs[y])][VF := if sum > 0xFF then 1 else 0], pc := m.pc + 2)
  }

  /** 8xy5 SUB: VF := (Vx > Vy), then Vx := Vx - Vy, wrapping, read after the flag is written. */
  function Op8xy5(m: Machine, x: Nibble, y: Nibble): (r: Machine)
    requires Valid(m)
    ensures Valid(r)
  {
    var flagged := m.regs[VF := if m.regs[x] > m.regs[y] then 1 else 0];
    m.(regs := flagged[x := WrappingSub(flagged[x], flagged[y])], pc := m.pc + 2)
  }

  /** 8xy6 SHR: VF := Vx & 1, then Vx := Vx >> 1. */
  function Op8x06(m: Machine, x: Nibble): (r: Machine)
    requires Valid(m)
    ensures Valid(r)
  {
    var flagged := m.regs[VF := And(m.regs[x], 1)];
    m.(regs := flagged[x := flagged[x] / 2], pc := m.pc + 2)
  }

  /** 8xy7 SUBN: VF := (Vy > Vx), then Vx := Vy - Vx, wrapping, read after the flag is written. */
  function Op8xy7(m: Machine, x: Nibble, y: Nibble): (r: Machine)
    requires Valid(m)
    ensures Valid(r)
  {
    var flagged := m.regs[VF := if m.regs[y] > m.regs[x] then 1 else 0];
    m.(regs := flagged[x := WrappingSub(flagged[y], flagged[x])], pc := m.pc + 2)
  }

  /** 8xyE SHL: VF := (Vx & 0x80) >> 7, then Vx := Vx << 1, dropping the top bit. */
  function Op8x0e(m: Machine, x: Nibble): (r: Machine)
    requires Valid(m)
    ensures Valid(r)
  {
    AndHighBit(m.regs[x]);
    var flagged := m.regs[VF := ShiftRight(And(m.regs[x], 0x80) as nat, 7) as U8];
    m.(regs := flagged[x := ((flagged[x] as int * 2) % 256) as U8], pc := m.pc + 2)
  }

  /** 9xy0 SNE: skip if Vx != Vy. */
  function Op9xy0(m: Machine, x: Nibble, y: Nibble): (r: Machine)
    requires Valid(m)
    ensures Valid(r)
  {
    m.(pc := SkipIf(m.pc, m.regs[x] != m.regs[y]))
  }

  /** Annn LD I: I := nnn. */
  function OpAnnn(m: Machine, nnn: Addr): (r: Machine)
    requires Valid(m)
    ensures Valid(r)
  {
    m.(index := nnn, pc := m.pc + 2)
  }

  /** Bnnn JP V0: jump to V0 + nnn. */
  function OpBnnn(m: Machine, nnn: Addr): (r: Machine)
    requires Valid(m)
    ensures Valid(r)
  {
    m.(pc := m.regs[0] as nat + nnn)
  }

  /** Cxkk RND: Vx := rnd & kk, where `rnd` is the random byte. */
  function OpCxkk(m: Machine, x: Nibble, kk: U8, rnd: U8): (r: Machine)
    requires Valid(m)
    ensures Valid(r)
  {
    m.(regs := m.regs[x := And(rnd, kk)], pc := m.pc + 2)
  }

  /** Dxyn DRW: VF := 0, then the n sprite bytes from I on are drawn at (Vx, Vy) by `Sprite.Draw`. */
  function OpDxyn(m: Machine, x: Nibble, y: Nibble, n: Nibble): (r: Machine)
    requires Valid(m) && (n == 0 || m.index + n <= MEMORY_SIZE)
    ensures Valid(r)
  {
    var f := Frame(m.screen, m.regs[VF := 0]);
    DrawRowsBinary(f, x, y, SpriteAt(m, n), 0);
    var g := Draw(f, x, y, SpriteAt(m, n));
    m.(screen := g.screen, regs := g.regs, changed := true, pc := m.pc + 2)
  }

  /** Ex9E SKP: skip if key Vx is pressed. */
  function OpEx9e(m: Machine, x: Nibble): (r: Machine)
    requires Valid(m) && m.regs[x] as int < KEY_COUNT
    ensures Valid(r)
  {
    m.(pc := SkipIf(m.pc, m.keys[m.regs[x]]))
  }

  /** ExA1 SKNP: skip if key Vx is not pressed. */
  function OpExa1(m: Machine, x: Nibble): (r: Machine)
    requires Valid(m) && m.regs[x] as int < KEY_COUNT
    ensures Valid(r)
  {
    m.(pc := SkipIf(m.pc, !m.keys[m.regs[x]]))
  }

  /** Fx07 LD Vx, DT. */
  function OpFx07(m: Machine, x: Nibble): (r: Machine)
    requires Valid(m)
    ensures Valid(r)
  {
    m.(regs := m.regs[x := m.delay], pc := m.pc + 2)
  }

  /** Fx0A LD Vx, K: latch x and wait for a key (see `Step`). */
  function OpFx0a(m: Machine, x: Nibble): (r: Machine)
    requires Valid(m)
    ensures Valid(r)
  {
    m.(waiting := true, keyReg := x, pc := m.pc + 2)
  }

  /** Fx15 LD DT, Vx. */
  function OpFx15(m: Machine, x: Nibble): (r: Machine)
    requires Valid(m)
    ensures Valid(r)
  {
    m.(delay := m.regs[x], pc := m.pc + 2)
  }

  /** Fx18 LD ST, Vx. */
  function OpFx18(m: Machine, x: Nibble): (r: Machine)
    requires Valid(m)
    ensures Valid(r)
  {
    m.(sound := m.regs[x], pc := m.pc + 2)
  }

  /** Fx1E ADD I: VF := (I > 0x0F00), then I := I + Vx, read after the flag is written. */
  function OpFx1e(m: Machine, x: Nibble): (r: Machine)
    requires Valid(m)
    ensures Valid(r)
  {
    var flagged := m.regs[VF := if m.index > 0x0F00 then 1 else 0];
    m.(regs := flagged, index := m.index + flagged[x] as nat, pc := m.pc + 2)
  }

  /** Fx29 LD F: I := the address of the font glyph for digit Vx. */
  function OpFx29(m: Machine, x: Nibble): (r: Machine)
    requires Valid(m)
    ensures Valid(r)
  {
    m.(index := m.regs[x] as nat * 5, pc := m.pc + 2)
  }

  /** Fx33 LD B: the decimal digits of Vx at I, I + 1, I + 2. */
  function OpFx33(m: Machine, x: Nibble): (r: Machine)
    requires Valid(m) && m.index + 2 < MEMORY_SIZE
    ensures Valid(r)
  {
    var v := m.regs[x];
    m.(memory := m.memory[m.index := v / 100][m.index + 1 := (v / 10) % 10][m.index + 2 := v % 10], pc := m.pc + 2)
  }

  /** Fx55 LD [I], Vx: store registers 0..=x from I on. */
  function OpFx55(m: Machine, x: Nibble): (r: Machine)
    requires Valid(m) && m.index + x < MEMORY_SIZE
    ensures Valid(r)
  {
    m.(memory := Dump(m, x), pc := m.pc + 2)
  }

  /** Fx65 LD Vx, [I]: load registers 0..=x from I on. */
  function OpFx65(m: Machine, x: Nibble): (r: Machine)
    requires Valid(m) && m.index + x < MEMORY_SIZE
    ensures Valid(r)
  {
    m.(regs := Restore(m, x), pc := m.pc + 2)
  }

  /** Instructions whose first nibble is 0 to 7: flow of control and byte operands. */
  predicate FlowGroup(ins: Instr)
  {
    ins.Cls? || ins.Ret? || ins.Jp? || ins.Call? || ins.SeByte? || ins.SneByte? || ins.SeReg? || ins.LdByte? || ins.AddByte?
  }

  /** Instructions whose first nibble is 8 or 9: register against register. */
  predicate AluGroup(ins: Instr)
  {
    ins.LdReg? || ins.OrReg? || ins.AndReg? || ins.XorReg? || ins.AddReg? || ins.SubReg? || ins.Shr? || ins.Subn? || ins.Shl? || ins.SneReg?
  }

  /** Instructions whose first nibble is A to E. */
  predicate IndexedGroup(ins: Instr)
  {
    ins.LdI? || ins.JpV0? || ins.Rnd? || ins.Drw? || ins.Skp? || ins.Sknp?
  }

  /** The F patterns on the timers and the keypad. */
  predicate TimerGroup(ins: Instr)
  {
    ins.LdVxDt? || ins.LdVxK? || ins.LdDtVx? || ins.LdStVx?
  }

  function ExecFlow(m: Machine, ins: Instr): (r: Machine)
    requires Valid(m) && Defined(m, ins) && FlowGroup(ins)
    ensures Valid(r)
  {
    match ins
    case Cls => Op00E0(m)
    case Ret => Op00EE(m)
    case Jp(nnn) => Op1nnn(m, nnn)
    case Call(nnn) => Op2nnn(m, nnn)
    case SeByte(x, kk) => Op3xkk(m, x, kk)
    case SneByte(x, kk) => Op4xkk(m, x, kk)
    case SeReg(x, y) => Op5xy0(m, x, y)
    case LdByte(x, kk) => Op6xkk(m, x, kk)
    case AddByte(x, kk) => Op7xkk(m, x, kk)
  }

  function ExecAlu(m: Machine, ins: Instr): (r: Machine)
    requires Valid(m) && AluGroup(ins)
    ensures Valid(r)
  {
    match ins
    case LdReg(x, y) => Op8xy0(m, x, y)
    case OrReg(x, y) => Op8xy1(m, x, y)
    case AndReg(x, y) => Op8xy2(m, x, y)
    case XorReg(x, y) => Op8xy3(m, x, y)
    case AddReg(x, y) => Op8xy4(m, x, y)
    case SubReg(x, y) => Op8xy5(m, x, y)
    case Shr(x) => Op8x06(m, x)
    case Subn(x, y) => Op8xy7(m, x, y)
    case Shl(x) => Op8x0e(m, x)
    case SneReg(x, y) => Op9xy0(m, x, y)
  }

  function ExecIndexed(m: Machine, ins: Instr, rnd: U8): (r: Machine)
    requires Valid(m) && Defined(m, ins) && IndexedGroup(ins)
    ensures Valid(r)
  {
    match ins
    case LdI(nnn) => OpAnnn(m, nnn)
    case JpV0(nnn) => OpBnnn(m, nnn)
    case Rnd(x, kk) => OpCxkk(m, x, kk, rnd)
    case Drw(x, y, n) => OpDxyn(m, x, y, n)
    case Skp(x) => OpEx9e(m, x)
    case Sknp(x) => OpExa1(m, x)
  }

  function ExecTimers(m: Machine, ins: Instr): (r: Machine)
    requires Valid(m) && TimerGroup(ins)
    ensures Valid(r)
  {
    match ins
    case LdVxDt(x) => OpFx07(m, x)
    case LdVxK(x) => OpFx0a(m, x)
    case LdDtVx(x) => OpFx15(m, x)
    case LdStVx(x) => OpFx18(m, x)
  }

  /** The F patterns on I and memory, and the fallback for an opcode no pattern matches. */
  function ExecMemory(m: Machine, ins: Instr): (r: Machine)
    requires Valid(m) && Defined(m, ins)
    requires !FlowGroup(ins) && !AluGroup(ins) && !IndexedGroup(ins) && !TimerGroup(ins)
    ensures Valid(r)
  {
    match ins
    case AddI(x) => OpFx1e(m, x)
    case LdF(x) => OpFx29(m, x)
    case LdB(x) => OpFx33(m, x)
    case LdIVx(x) => OpFx55(m, x)
    case LdVxI(x) => OpFx65(m, x)
    case Unknown(_) => m.(pc := m.pc + 2)
  }

  /**
   * The handler `run_opcode` calls for `ins`, with `rnd` the byte the random
   * generator yields for Cxkk; an unknown opcode only advances the program
   * counter. The patterns are taken a first nibble range at a time.
   */
  function Exec(m: Machine, ins: Instr, rnd: U8): (r: Machine)
    requires Valid(m) && Defined(m, ins)
    ensures Valid(r)
  {
    if FlowGroup(ins) then ExecFlow(m, ins)
    else if AluGroup(ins) then ExecAlu(m, ins)
    else if IndexedGroup(ins) then ExecIndexed(m, ins, rnd)
    else if TimerGroup(ins) then ExecTimers(m, ins)
    else ExecMemory(m, ins)
  }

  /** `get_opcode`: the byte at the program counter, shifted up, or-ed with the next one. */
  function Fetch(m: Machine): (op: Word)
    requires Valid(m) && m.pc + 1 < MEMORY_SIZE
    ensures op / 0x100 == m.memory[m.pc] as int && op % 0x100 == m.memory[m.pc + 1] as int
  {
    m.memory[m.pc] as nat * 0x100 + m.memory[m.pc + 1] as nat
  }

  /** The lowest key from `from` on that is pressed, if any. */
  function FirstPressed(keys: seq<bool>, from: nat): (k: Option<nat>)
    requires from <= |keys|
    ensures k.Some? ==> from <= k.value < |keys| && keys[k.value]
    decreases |keys| - from
  {
    if from == |keys| then None
    else if keys[from] then Some(from)
    else FirstPressed(keys, from + 1)
  }

  /** The first thing `mainloop` does: store the key snapshot and clear `graphics_changed`. */
  function Latch(m: Machine, keys: seq<bool>): (r: Machine)
    requires Valid(m) && |keys| == KEY_COUNT
    ensures Valid(r) && r.keys == keys && !r.changed
    ensures r.(keys := m.keys, changed := m.changed) == m
  {
    m.(keys := keys, changed := false)
  }

  /** Each timer that is above zero goes down by one. */
  function Tick(m: Machine): (r: Machine)
    requires Valid(m)
    ensures Valid(r) && r.(delay := m.delay, sound := m.sound) == m
    ensures r.delay <= m.delay && m.delay as int - r.delay as int <= 1 && (r.delay == m.delay <==> m.delay == 0)
    ensures r.sound <= m.sound && m.sound as int - r.sound as int <= 1 && (r.sound == m.sound <==> m.sound == 0)
  {
    m.(delay := if m.delay > 0 then m.delay - 1 else 0, sound := if m.sound > 0 then m.sound - 1 else 0)
  }

  /** What one tick needs to run without panicking: when not waiting, a fetch inside memory and a defined instruction. */
  predicate CanStep(m: Machine, keys: seq<bool>)
    requires Valid(m) && |keys| == KEY_COUNT
    ensures CanStep(m, keys) <==> m.waiting || (m.pc + 1 < MEMORY_SIZE && Defined(m, Decode(Fetch(m))))
  {
    m.waiting ||
    (m.pc + 1 < MEMORY_SIZE && Defined(Tick(Latch(m, keys)), Decode(Fetch(m))))
  }

  /**
   * One call of `mainloop(keys)`: while waiting for a key, the lowest pressed
   * key goes into the latched register and waiting ends (nothing happens if no
   * key is pressed); otherwise the timers tick and one instruction runs.
   */
  function Step(m: Machine, keys: seq<bool>, rnd: U8): (r: Machine)
    requires Valid(m) && |keys| == KEY_COUNT && CanStep(m, keys)
    ensures Valid(r)
  {
    var s := Latch(m, keys);
    if s.waiting then KeyWait(s)
    else
      var t := Tick(s);
      assert Fetch(t) == Fetch(m);
      Exec(t, Decode(Fetch(t)), rnd)
  }

  /** The waiting branch of `mainloop`: the lowest pressed key, if any, goes into the latched register and ends the wait. */
  function KeyWait(s: Machine): (r: Machine)
    requires Valid(s)
    ensures Valid(r)
  {
    match FirstPressed(s.keys, 0)
    case Some(k) => s.(waiting := false, regs := s.regs[s.keyReg := k as U8])
    case None => s
  }

  /** The state `Cpu::new` builds: the font at address 0, everything else zero, the program counter at 0x200. */
  function Initial(): (m: Machine)
    ensures Valid(m)
  {
    Machine(PROGRAM_START, 0, 0, 0, 0, Blank(),
      FONTSET + seq(MEMORY_SIZE - |FONTSET|, _ => 0 as U8),
      seq(REGISTER_COUNT, _ => 0 as U8), seq(STACK_SIZE, _ => 0),
      seq(KEY_COUNT, _ => false), false, 0, false)
  }

  /** How many bytes of a program fit from 0x200 to the end of memory. */
  function Fits(data: seq<U8>): (k: nat)
    ensures k <= |data| && PROGRAM_START + k <= MEMORY_SIZE
  {
    if PROGRAM_START + |data| <= MEMORY_SIZE then |data| else MEMORY_SIZE - PROGRAM_START
  }

  /** Memory after `load(data)`: the part of `data` that fits, copied from 0x200 on. */
  function Loaded(m: Machine, data: seq<U8>): (r: Machine)
    requires Valid(m)
    ensures Valid(r)
  {
    var k := Fits(data);
    m.(memory := m.memory[..PROGRAM_START] + data[..k] + m.memory[PROGRAM_START + k..])
  }
}

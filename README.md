# A verified model of the chip8emu CPU

This project models the CHIP-8 interpreter core of `chip8emu` (`src/chip8/cpu.rs`):
the `ProgramCounter`, the `Cpu` with its registers, timers, stack, keypad latch,
4 KiB memory and 64×32 framebuffer, the fetch (`get_opcode`), the decoder and
dispatcher (`run_opcode`), the 35 instruction handlers, `load` and the per-tick
`mainloop`. The sizes come from `src/main.rs` (64, 32, 4096).

The model has two layers.

* **Values** (`semantics.dfy`, with `opcode.dfy` and `sprite.dfy`): the machine
  state as a datatype `Machine`, one function per handler (`Op00E0` … `OpFx65`),
  the decoder `Decode`, the dispatcher `Exec`, and one call of `mainloop` as
  `Step`. An instruction that would make the Rust code panic (an out-of-range
  index, a stack underflow or overflow) is excluded by the predicate `Defined`,
  and a fetch past the end of memory by `CanStep`.
* **Objects** (`engine.dfy`): `ProgramCounter` and `Cpu` as classes whose methods
  update arrays and fields in place, as the Rust code does. The `Cpu` keeps
  `graphics` as a 2-D array, `memory`, `registers` and `stack` as arrays, and the
  loops of `new`, `load`, 00E0, Dxyn, Fx55, Fx65 and the key scan of `mainloop`
  as loops with invariants. Every instruction and tick method (the constructor,
  `Load`, `Mainloop`, `Cycle`, `TickTimers`, `RunOpcode` and the `Op…` handlers)
  is proved to take the state, read as a `Machine` through `Abs()`, to exactly
  the state the value layer prescribes, and to keep the class invariant
  `Valid()`. The loop helpers are stated on the part of the state they touch:
  `CopyFont` on `memory[..]`, and `DrawSprite`, `DrawRow` and `DrawPixelAt` on
  the framebuffer and registers read as a `Sprite.Frame`.

The properties are proved about the value layer (`properties.dfy`, `sprite.dfy`,
`opcode.dfy`): decode/encode round trips, the skip rules, carry/borrow/shift-out
flags, BCD digits, store/load of registers, the sprite XOR with wrap-around and
collision, call/return, the key wait, and a two-instruction program run end to end.

Bytes are the integers 0..255 (`Bytes.U8`); `|`, `&`, `^` are defined bit by bit
and `>>` by repeated halving. The Rust `u8` wrap-around of 7xkk, 8xy4, 8xy5,
8xy7 and 8xyE is written out modulo 256.

Where a reading of CHIP-8 differs from the code, the model follows the code:
8xy5 and 8xy7 set VF only when the minuend is strictly greater (VF is 0 when
the operands are equal, although "VF = no borrow" would give 1); Fx1E sets VF
from I > 0x0F00 before the addition; 8xy6 and 8xyE shift Vx and ignore Vy.

## Model

| member | source | states |
|---|---|---|
| Engine.ProgramCounter.constructor | src/chip8/cpu.rs:31-35 | the counter starts at the given address |
| Engine.ProgramCounter.Skip | src/chip8/cpu.rs:37-39 | the counter grows by 4 |
| Engine.ProgramCounter.Increment | src/chip8/cpu.rs:41-43 | the counter grows by 2 |
| Engine.ProgramCounter.SkipIf | src/chip8/cpu.rs:45-51 | the counter grows by 4 when the condition holds and by 2 otherwise |
| Semantics.SkipIf | src/chip8/cpu.rs:45-51 | the next pc is pc + 4 exactly when the condition holds and pc + 2 otherwise |
| Engine.ProgramCounter.Jump | src/chip8/cpu.rs:52-54 | the counter becomes the address |
| Engine.Cpu.constructor | src/chip8/cpu.rs:74-92 | the new Cpu is valid and equals `Initial()`: pc 0x200, the font at 0..80, every other byte, register, timer, pixel and flag zero or false |
| Engine.Cpu.CopyFont | src/chip8/cpu.rs:85-87 | after the copy loop memory is exactly the font followed by zeros |
| Properties.InitialMemory | src/chip8/cpu.rs:81-87 | in the initial memory byte i is FONTSET[i] below 80 and 0 from 80 on |
| Semantics.Initial | src/chip8/cpu.rs:74-92 | the initial machine satisfies the invariant (sizes, 0/1 pixels, sp ≤ 16) |
| Semantics.Fetch | src/chip8/cpu.rs:93-95 | the opcode's high byte is memory[pc] and its low byte memory[pc + 1] |
| Engine.Cpu.GetOpcode | src/chip8/cpu.rs:93-95 | the opcode is memory[pc] · 256 + memory[pc + 1], i.e. `Fetch` of the state |
| Properties.FetchNibbles | src/chip8/cpu.rs:93-95 | the four nibbles of the fetched opcode are the high and low nibbles of memory[pc] and memory[pc + 1] |
| Engine.Cpu.Load | src/chip8/cpu.rs:177-186 | memory becomes `Loaded(old, data)`: data copied from 0x200 up to the end of memory, the rest dropped, nothing else changed |
| Semantics.Fits | src/chip8/cpu.rs:177-186 | the number of bytes copied is at most |data| and stays within memory |
| Semantics.Loaded | src/chip8/cpu.rs:177-186 | loading a program keeps the machine invariant |
| Properties.LoadedMemory | src/chip8/cpu.rs:177-186 | after `load`, byte i is data[i − 0x200] when 0x200 ≤ i < 0x200 + |data| and the old byte otherwise; only memory changes |
| Engine.Cpu.Mainloop | src/chip8/cpu.rs:97-120 | the new state is `Step(old, keys, rnd)`, the state stays valid, and the result is the new `graphics_changed` |
| Engine.Cpu.WaitForKey | src/chip8/cpu.rs:101-108 | the key scan leaves the state as `KeyWait` says: the lowest pressed key into the latched register and waiting off, or no change |
| Engine.Cpu.Cycle | src/chip8/cpu.rs:109-117 | the running branch ticks the timers, then runs the instruction fetched at pc: the state becomes `Exec(Tick(old), Decode(Fetch(Tick(old))), rnd)` |
| Engine.Cpu.TickTimers | src/chip8/cpu.rs:109-114 | each timer above zero goes down by one and nothing else changes |
| Semantics.Latch | src/chip8/cpu.rs:98-99 | storing a 16-key snapshot and clearing `graphics_changed` keeps the invariant and changes nothing else |
| Semantics.Tick | src/chip8/cpu.rs:110-115 | each timer goes down by exactly one when above zero and stays put at zero; nothing else changes and the invariant is kept |
| Semantics.CanStep | src/chip8/cpu.rs:97-120 | whether a tick panics depends on neither the key snapshot nor the timers: never while waiting, otherwise exactly when pc + 1 is inside memory and the fetched instruction is `Defined` on the current state |
| Semantics.Defined | src/chip8/cpu.rs:200-421 | only 00EE, 2nnn, Dxyn, Ex9E, ExA1, Fx33, Fx55 and Fx65 can panic; every other instruction is defined in every valid state |
| Semantics.Step | src/chip8/cpu.rs:97-120 | one tick keeps the machine invariant |
| Semantics.KeyWait | src/chip8/cpu.rs:101-108 | the key-wait branch keeps the machine invariant |
| Semantics.FirstPressed | src/chip8/cpu.rs:102-107 | a key found by the scan is in range and pressed |
| Properties.FirstPressedLowest | src/chip8/cpu.rs:102-107 | the key found is the lowest pressed one, and none is found only when no key is pressed |
| Properties.WaitingTick | src/chip8/cpu.rs:97-108 | while waiting, a tick stores the keys, clears the changed flag, leaves pc and timers alone, and puts the lowest pressed key (if any) in the latched register ending the wait |
| Properties.RunningTick | src/chip8/cpu.rs:109-117 | while not waiting, a tick is: store keys, clear changed, decrement nonzero timers, then run exactly the instruction at pc |
| Properties.WaitForKey | src/chip8/cpu.rs:364-368 | Fx0A latches x and starts waiting; the next tick with k the lowest pressed key puts k in Vx and ends the wait |
| Properties.StepLoad | src/chip8/cpu.rs:109-117 | a running tick that fetches 6xkk can step, sets Vx to kk, moves pc by 2 and leaves memory and the wait flag alone |
| Properties.StepAdd | src/chip8/cpu.rs:109-117 | a running tick that fetches 7xkk can step, adds kk to Vx modulo 256, moves pc by 2 and leaves memory and the wait flag alone |
| Properties.Decode6005 | src/chip8/cpu.rs:143 | 6005 decodes as LD V0, 5 |
| Properties.Decode700A | src/chip8/cpu.rs:144 | 700A decodes as ADD V0, 10 |
| Properties.LoadThenAdd | src/chip8/cpu.rs:97-120 | with 6005 700A at pc of a running machine, two ticks can run and leave V0 = 15 and pc moved by 4 |
| Properties.SmallProgram | src/chip8/cpu.rs:97-120 | loading 6005 700A and ticking twice from power-on leaves V0 = 15 and pc = 0x204 |
| Engine.Cpu.RunOpcode | src/chip8/cpu.rs:122-175 | running an opcode takes the state to `Exec(old, Decode(opcode), rnd)` and keeps it valid |
| Engine.Cpu.RunFlow | src/chip8/cpu.rs:136-144 | the 0–7 patterns take the state to `ExecFlow` |
| Engine.Cpu.RunAlu | src/chip8/cpu.rs:145-154 | the 8 and 9 patterns take the state to `ExecAlu` |
| Engine.Cpu.RunIndexed | src/chip8/cpu.rs:155-160 | the A–E patterns take the state to `ExecIndexed` |
| Engine.Cpu.RunTimers | src/chip8/cpu.rs:161-164 | Fx07, Fx0A, Fx15, Fx18 take the state to `ExecTimers` |
| Engine.Cpu.RunMemory | src/chip8/cpu.rs:165-174 | Fx1E … Fx65 and the fallback take the state to `ExecMemory` |
| Semantics.Exec | src/chip8/cpu.rs:122-175 | every defined instruction keeps the machine invariant |
| Semantics.ExecFlow | src/chip8/cpu.rs:136-144 | the 0–7 handlers keep the invariant |
| Semantics.ExecAlu | src/chip8/cpu.rs:145-154 | the 8 and 9 handlers keep the invariant |
| Semantics.ExecIndexed | src/chip8/cpu.rs:155-160 | the A–E handlers keep the invariant |
| Semantics.ExecTimers | src/chip8/cpu.rs:161-164 | the timer and keypad handlers keep the invariant |
| Semantics.ExecMemory | src/chip8/cpu.rs:165-174 | the memory handlers and the fallback keep the invariant |
| Opcode.SplitJoin | src/chip8/cpu.rs:123-128 | joining four nibbles and splitting the word gives the nibbles back |
| Opcode.Split | src/chip8/cpu.rs:123-128 | the four nibbles of a 16-bit opcode, joined again, give the opcode back |
| Opcode.DecodeNibbles | src/chip8/cpu.rs:135-174 | nibbles no arm matches fall to the `_` arm, which keeps the opcode whole as `Unknown(op)` |
| Opcode.Decode | src/chip8/cpu.rs:122-174 | the instruction run for an opcode; an opcode no arm matches is kept whole as `Unknown(op)` |
| Opcode.OperandFields | src/chip8/cpu.rs:129-130 | `opcode & 0x0FFF` is the address of the low three nibbles and `opcode & 0x00FF` the byte of the low two |
| Opcode.DecodeEncodeNibbles | src/chip8/cpu.rs:136-169 | the nibble pattern of every instruction is matched by the arm of that instruction |
| Opcode.DecodeEncode | src/chip8/cpu.rs:136-169 | decoding the encoding of any instruction gives it back |
| Opcode.EncodeDecodeNibbles | src/chip8/cpu.rs:136-169 | every matched nibble pattern is the encoding of its instruction, except the ignored y nibble of 8xy6 and 8xyE |
| Opcode.EncodeDecode | src/chip8/cpu.rs:136-174 | encoding the decoding of any opcode gives it back, with y cleared for 8xy6/8xyE, and an unmatched opcode is kept as `Unknown` |
| Properties.UnknownOpcode | src/chip8/cpu.rs:170-173 | an opcode no arm matches only moves pc on by 2 |
| Engine.Cpu.Op00E0 | src/chip8/cpu.rs:189-197 | every pixel set to 0 by the nested loop, changed flag set, pc + 2: `Semantics.Op00E0` |
| Semantics.Op00E0 | src/chip8/cpu.rs:189-197 | CLS keeps the invariant |
| Semantics.Blank | src/chip8/cpu.rs:189-194 | the cleared framebuffer has 32 rows of 64 pixels, each 0 or 1 |
| Engine.Cpu.Op00EE | src/chip8/cpu.rs:200-203 | sp − 1, then pc = stack[sp]: `Semantics.Op00EE` |
| Semantics.Op00EE | src/chip8/cpu.rs:200-203 | RET keeps the invariant when sp > 0 |
| Engine.Cpu.Op1nnn | src/chip8/cpu.rs:206-208 | pc = nnn: `Semantics.Op1nnn` |
| Semantics.Op1nnn | src/chip8/cpu.rs:206-208 | JP keeps the invariant |
| Engine.Cpu.Op2nnn | src/chip8/cpu.rs:211-215 | stack[sp] = pc + 2, sp + 1, pc = nnn: `Semantics.Op2nnn` |
| Semantics.Op2nnn | src/chip8/cpu.rs:211-215 | CALL keeps the invariant when sp < 16 |
| Properties.CallThenReturn | src/chip8/cpu.rs:200-215 | CALL then RET restores sp and continues after the call; only the used stack slot differs |
| Engine.Cpu.Op3xkk | src/chip8/cpu.rs:218-220 | skip if Vx = kk: `Semantics.Op3xkk` |
| Semantics.Op3xkk | src/chip8/cpu.rs:218-220 | SE Vx, byte keeps the invariant |
| Engine.Cpu.Op4xkk | src/chip8/cpu.rs:223-225 | skip if Vx ≠ kk: `Semantics.Op4xkk` |
| Semantics.Op4xkk | src/chip8/cpu.rs:223-225 | SNE Vx, byte keeps the invariant |
| Properties.SkipOnByte | src/chip8/cpu.rs:218-225 | 3xkk adds 4 to pc exactly when Vx = kk and 4xkk exactly when Vx ≠ kk, 2 otherwise; nothing else changes |
| Engine.Cpu.Op5xy0 | src/chip8/cpu.rs:228-230 | skip if Vx = Vy: `Semantics.Op5xy0` |
| Semantics.Op5xy0 | src/chip8/cpu.rs:228-230 | SE Vx, Vy keeps the invariant |
| Properties.SkipOnRegister | src/chip8/cpu.rs:228-230 | 5xy0 adds 4 exactly when Vx = Vy and 9xy0 exactly when Vx ≠ Vy, 2 otherwise; nothing else changes |
| Engine.Cpu.Op6xkk | src/chip8/cpu.rs:233-236 | Vx = kk, pc + 2: `Semantics.Op6xkk` |
| Semantics.Op6xkk | src/chip8/cpu.rs:233-236 | LD Vx, byte keeps the invariant |
| Engine.Cpu.Op7xkk | src/chip8/cpu.rs:239-245 | Vx = (Vx + kk) mod 256, VF untouched: `Semantics.Op7xkk` |
| Semantics.Op7xkk | src/chip8/cpu.rs:239-245 | ADD Vx, byte keeps the invariant |
| Engine.Cpu.Op8xy0 | src/chip8/cpu.rs:248-251 | Vx = Vy: `Semantics.Op8xy0` |
| Semantics.Op8xy0 | src/chip8/cpu.rs:248-251 | LD Vx, Vy keeps the invariant |
| Engine.Cpu.Op8xy1 | src/chip8/cpu.rs:254-257 | Vx = Vx OR Vy: `Semantics.Op8xy1` |
| Semantics.Op8xy1 | src/chip8/cpu.rs:254-257 | OR keeps the invariant |
| Engine.Cpu.Op8xy2 | src/chip8/cpu.rs:260-263 | Vx = Vx AND Vy: `Semantics.Op8xy2` |
| Semantics.Op8xy2 | src/chip8/cpu.rs:260-263 | AND keeps the invariant |
| Engine.Cpu.Op8xy3 | src/chip8/cpu.rs:266-269 | Vx = Vx XOR Vy: `Semantics.Op8xy3` |
| Semantics.Op8xy3 | src/chip8/cpu.rs:266-269 | XOR keeps the invariant |
| Engine.Cpu.Op8xy4 | src/chip8/cpu.rs:272-279 | low byte of the sum to Vx, then the carry to VF: `Semantics.Op8xy4` |
| Semantics.Op8xy4 | src/chip8/cpu.rs:272-279 | ADD Vx, Vy keeps the invariant |
| Properties.AddCarry | src/chip8/cpu.rs:272-279 | for x ≠ 15, Vx' + 256 · VF' = Vx + Vy with VF' ≤ 1; no other register changes |
| Properties.AddCarryIntoFlag | src/chip8/cpu.rs:272-279 | for x = 15 the carry overwrites the sum: VF' is 1 exactly when VF + Vy > 255 |
| Engine.Cpu.Op8xy5 | src/chip8/cpu.rs:282-286 | VF = (Vx > Vy), then Vx = Vx − Vy mod 256: `Semantics.Op8xy5` |
| Semantics.Op8xy5 | src/chip8/cpu.rs:282-286 | SUB keeps the invariant |
| Properties.SubFlag | src/chip8/cpu.rs:282-286 | for x, y ≠ 15, VF' = 1 iff Vx > Vy (0 on equal operands), Vx' = (Vx − Vy) mod 256, exact when Vx ≥ Vy; no other register changes |
| Properties.SubIntoFlag | src/chip8/cpu.rs:282-300 | for x = 15 and y ≠ 15 (8Fy5 and 8Fy7) the difference is taken with the freshly written flag in place of VF and overwrites it |
| Properties.SubFromFlag | src/chip8/cpu.rs:282-300 | for y = 15 and x ≠ 15 (8xF5 and 8xF7) the flag is computed from the old VF, then the freshly written flag is the operand subtracted or subtracted from |
| Properties.SubOnFlag | src/chip8/cpu.rs:282-300 | 8FF5 and 8FF7 leave VF = 0 and every other register unchanged |
| Engine.Cpu.Op8x06 | src/chip8/cpu.rs:289-293 | VF = Vx & 1, then Vx = Vx / 2: `Semantics.Op8x06` |
| Semantics.Op8x06 | src/chip8/cpu.rs:289-293 | SHR keeps the invariant |
| Properties.ShiftRightFlag | src/chip8/cpu.rs:289-293 | for x ≠ 15, 2 · Vx' + VF' = Vx with VF' ≤ 1; no other register changes |
| Engine.Cpu.Op8xy7 | src/chip8/cpu.rs:296-300 | VF = (Vy > Vx), then Vx = Vy − Vx mod 256: `Semantics.Op8xy7` |
| Semantics.Op8xy7 | src/chip8/cpu.rs:296-300 | SUBN keeps the invariant |
| Properties.SubnFlag | src/chip8/cpu.rs:296-300 | for x, y ≠ 15, VF' = 1 iff Vy > Vx and Vx' = (Vy − Vx) mod 256; no other register changes |
| Engine.Cpu.Op8x0e | src/chip8/cpu.rs:303-307 | VF = (Vx & 0x80) >> 7, then Vx = 2 · Vx mod 256: `Semantics.Op8x0e` |
| Semantics.Op8x0e | src/chip8/cpu.rs:303-307 | SHL keeps the invariant |
| Properties.ShiftLeftFlag | src/chip8/cpu.rs:303-307 | for x ≠ 15, Vx' + 256 · VF' = 2 · Vx with VF' ≤ 1; no other register changes |
| Properties.ShiftOnFlag | src/chip8/cpu.rs:289-307 | 8F06 leaves VF = 0, and 8F0E leaves VF = 2 when bit 7 of VF was set and 0 otherwise; no other register changes |
| Engine.Cpu.Op9xy0 | src/chip8/cpu.rs:310-312 | skip if Vx ≠ Vy: `Semantics.Op9xy0` |
| Semantics.Op9xy0 | src/chip8/cpu.rs:310-312 | SNE Vx, Vy keeps the invariant |
| Engine.Cpu.OpAnnn | src/chip8/cpu.rs:315-318 | I = nnn, only `index` and pc change: `Semantics.OpAnnn` |
| Semantics.OpAnnn | src/chip8/cpu.rs:315-318 | LD I keeps the invariant |
| Engine.Cpu.OpBnnn | src/chip8/cpu.rs:321-323 | pc = V0 + nnn: `Semantics.OpBnnn` |
| Semantics.OpBnnn | src/chip8/cpu.rs:321-323 | JP V0 keeps the invariant |
| Engine.Cpu.OpCxkk | src/chip8/cpu.rs:326-330 | Vx = rnd AND kk for the random byte rnd: `Semantics.OpCxkk` |
| Semantics.OpCxkk | src/chip8/cpu.rs:326-330 | RND keeps the invariant |
| Engine.Cpu.OpDxyn | src/chip8/cpu.rs:333-346 | VF cleared, the n sprite bytes from I drawn row by row, changed flag set, pc + 2: `Semantics.OpDxyn` |
| Engine.Cpu.DrawSprite | src/chip8/cpu.rs:335-344 | the outer loop takes framebuffer and registers to `Draw` of the sprite bytes at I |
| Engine.Cpu.DrawRow | src/chip8/cpu.rs:337-343 | the inner loop takes framebuffer and registers to `DrawBits` of one row |
| Engine.Cpu.DrawPixelAt | src/chip8/cpu.rs:338-342 | one step ORs color & pixel into VF and XORs color into the wrapped pixel: `DrawPixel` |
| Semantics.OpDxyn | src/chip8/cpu.rs:333-346 | DRW keeps the invariant, in particular every pixel stays 0 or 1 |
| Semantics.SpriteAt | src/chip8/cpu.rs:339 | the sprite is the n bytes from I |
| Sprite.DrawPixel | src/chip8/cpu.rs:338-342 | one pixel step keeps the framebuffer 32 × 64 and 16 registers |
| Sprite.DrawBits | src/chip8/cpu.rs:337-343 | one row keeps the shapes |
| Sprite.DrawRows | src/chip8/cpu.rs:335-344 | the remaining rows keep the shapes |
| Sprite.Draw | src/chip8/cpu.rs:335-344 | the whole sprite keeps the shapes |
| Sprite.CollisionOnBits | src/chip8/cpu.rs:341 | on 0/1 values `VF | (color & pixel)` is 1 exactly when VF was 1 or a set bit meets a lit pixel |
| Sprite.DrawRowsBinary | src/chip8/cpu.rs:335-344 | drawing keeps every pixel 0 or 1, for any x and y |
| Sprite.DrawClosedForm | src/chip8/cpu.rs:333-346 | for x, y ≠ 15: each sprite bit is XORed onto its wrapped pixel, VF = 1 iff a set bit met a lit pixel, no other register changes |
| Sprite.DrawBitsStaysSet | src/chip8/cpu.rs:337-343 | once VF is 1 the rest of a row leaves it 1, for any x |
| Sprite.DrawRowsStaysSet | src/chip8/cpu.rs:335-344 | once VF is 1 the remaining rows leave it 1, for any x and y |
| Sprite.DrawBitsNoHit | src/chip8/cpu.rs:337-343 | with VF clear and no set bit meeting a lit pixel, a row leaves the registers alone and XORs each bit onto its wrapped pixel, for any x |
| Sprite.DrawPixelHit | src/chip8/cpu.rs:338-342 | with VF clear and a collision ahead in the row, one pixel step either sets VF or leaves the registers alone with the collision still ahead |
| Sprite.DrawBitsHit | src/chip8/cpu.rs:337-343 | with VF clear, a set bit meeting a lit pixel in the row sets VF, for any x |
| Sprite.DrawRowsNoHit | src/chip8/cpu.rs:335-344 | with VF clear and no collision in the remaining rows, the registers are left alone and the rows are XORed on at (Vx, Vy), for any x and y |
| Sprite.DrawRowHit | src/chip8/cpu.rs:335-344 | with VF clear and a collision ahead, one row either sets VF or leaves the registers alone with the collision in a later row |
| Sprite.DrawRowsHit | src/chip8/cpu.rs:335-344 | with VF clear, a collision in the remaining rows sets VF, for any x and y |
| Sprite.DrawWithoutCollision | src/chip8/cpu.rs:333-346 | for any x and y (15 included) with VF cleared: VF ends 1 iff a set bit drawn at (Vx, Vy) meets a lit pixel, and without a collision the sprite is XORed on with wrap-around and no register changes |
| Sprite.DrawnTwice | src/chip8/cpu.rs:340-342 | XOR-drawing the same sprite twice at the same place restores the framebuffer |
| Sprite.RedrawCollides | src/chip8/cpu.rs:340-341 | on a blank framebuffer a sprite does not collide; drawn again over itself it collides iff it has a set bit |
| Properties.DrawSprite | src/chip8/cpu.rs:333-346 | for x, y ≠ 15, Dxyn XORs the sprite onto the framebuffer with wrap-around, sets VF iff a collision, and changes no other register |
| Properties.DrawCollisionFlag | src/chip8/cpu.rs:333-346 | for any x and y, Dxyn sets VF iff a set bit drawn at the operands read after VF is cleared meets a lit pixel, and without a collision it XORs the sprite on and leaves the cleared registers |
| Properties.NoCollisionOnDark | src/chip8/cpu.rs:340-341 | nothing collides with a dark framebuffer |
| Properties.DrawTwiceRestores | src/chip8/cpu.rs:333-346 | for x, y ≠ 15, running the same Dxyn twice restores the framebuffer |
| Properties.DrawOnCleared | src/chip8/cpu.rs:189-346 | for any x and y: after CLS a sprite never collides; drawn a second time it collides iff it has a set bit |
| Properties.FlagColumnUntouched | src/chip8/cpu.rs:337-343 | drawing with x = 15 while VF = 1 places bit k at column 1 + k, so the columns up to the current bit keep their pixels |
| Properties.RedrawOnFlagColumn | src/chip8/cpu.rs:337-343 | with x = 15 and VF clear, a row over lit pixels 0, 2, 3 and dark pixel 4 collides at column 0 and then, moved one column right, lights pixel 4 |
| Properties.DrawnAtOrigin | src/chip8/cpu.rs:338-342 | a sprite drawn at (0, 0) over a dark pixel of row 0 puts its first row's bit there |
| Properties.DrawTwiceOnFlag | src/chip8/cpu.rs:333-346 | for x = 15 running the same Dxyn twice need not restore the framebuffer: on a dark screen with V0 = VF = 0, DF01 twice of a row with bits 0-3 set and bit 4 clear lights pixel (0, 4) |
| Properties.DrawTwiceFromPowerOn | src/chip8/cpu.rs:333-346 | the same from power-on with 0xF0 loaded at 0x200 and I = 0x200 |
| Engine.Cpu.OpEx9e | src/chip8/cpu.rs:348-350 | skip if key Vx is pressed: `Semantics.OpEx9e` |
| Semantics.OpEx9e | src/chip8/cpu.rs:348-350 | SKP keeps the invariant when Vx < 16 |
| Engine.Cpu.OpExa1 | src/chip8/cpu.rs:353-355 | skip if key Vx is not pressed: `Semantics.OpExa1` |
| Semantics.OpExa1 | src/chip8/cpu.rs:353-355 | SKNP keeps the invariant when Vx < 16 |
| Properties.SkipOnKey | src/chip8/cpu.rs:348-355 | Ex9E adds 4 exactly when key Vx is pressed and ExA1 exactly when it is not, 2 otherwise |
| Engine.Cpu.OpFx07 | src/chip8/cpu.rs:358-361 | Vx = delay timer: `Semantics.OpFx07` |
| Semantics.OpFx07 | src/chip8/cpu.rs:358-361 | keeps the invariant |
| Engine.Cpu.OpFx0a | src/chip8/cpu.rs:364-368 | waiting on, latched register x, pc + 2: `Semantics.OpFx0a` |
| Semantics.OpFx0a | src/chip8/cpu.rs:364-368 | keeps the invariant (the latched register is below 16) |
| Engine.Cpu.OpFx15 | src/chip8/cpu.rs:371-374 | delay timer = Vx: `Semantics.OpFx15` |
| Semantics.OpFx15 | src/chip8/cpu.rs:371-374 | keeps the invariant |
| Engine.Cpu.OpFx18 | src/chip8/cpu.rs:377-380 | sound timer = Vx: `Semantics.OpFx18` |
| Semantics.OpFx18 | src/chip8/cpu.rs:377-380 | keeps the invariant |
| Engine.Cpu.OpFx1e | src/chip8/cpu.rs:383-387 | VF = (I > 0x0F00), then I = I + Vx: `Semantics.OpFx1e` |
| Semantics.OpFx1e | src/chip8/cpu.rs:383-387 | keeps the invariant |
| Engine.Cpu.OpFx29 | src/chip8/cpu.rs:390-393 | I = 5 · Vx: `Semantics.OpFx29` |
| Semantics.OpFx29 | src/chip8/cpu.rs:390-393 | keeps the invariant |
| Engine.Cpu.OpFx33 | src/chip8/cpu.rs:396-401 | the three BCD bytes written at I, I+1, I+2: `Semantics.OpFx33` |
| Semantics.OpFx33 | src/chip8/cpu.rs:396-401 | keeps the invariant when I + 2 < 4096 |
| Properties.BcdDigits | src/chip8/cpu.rs:396-401 | 100 · m[I] + 10 · m[I+1] + m[I+2] = Vx with digits ≤ 2, < 10, < 10; no other byte changes |
| Engine.Cpu.OpFx55 | src/chip8/cpu.rs:404-411 | the store loop writes V0..Vx to memory from I on: `Semantics.OpFx55` |
| Semantics.OpFx55 | src/chip8/cpu.rs:404-411 | keeps the invariant when I + x < 4096 |
| Semantics.Dump | src/chip8/cpu.rs:404-411 | the stored memory keeps 4096 bytes |
| Properties.DumpStores | src/chip8/cpu.rs:404-411 | memory[I + i] = Vi for i ≤ x and every other byte unchanged |
| Engine.Cpu.OpFx65 | src/chip8/cpu.rs:414-421 | the load loop fills V0..Vx from memory at I: `Semantics.OpFx65` |
| Semantics.OpFx65 | src/chip8/cpu.rs:414-421 | keeps the invariant when I + x < 4096 |
| Semantics.Restore | src/chip8/cpu.rs:414-421 | the loaded register file keeps 16 registers |
| Properties.RestoreLoads | src/chip8/cpu.rs:414-421 | Vi = memory[I + i] for i ≤ x and the registers above x unchanged |
| Properties.DumpThenRestore | src/chip8/cpu.rs:404-421 | Fx55 followed by Fx65 with the same I and x gives every register back |

## Left out

- The display, the SDL event loop, reading the ROM file, the 17 ms sleep and the host-side timer decrement in `src/main.rs` are not part of this model.
- The random byte of Cxkk is a parameter (`rnd`) of `RunOpcode`, `Mainloop`, `Exec` and `Step` instead of a call to the thread-local generator.
- The `println!` of an unknown opcode is left out; only its effect on pc is modelled.
- A Rust panic (stack underflow on 00EE, stack overflow on 2nnn, a memory index at or past 4096 in Dxyn, Fx33, Fx55, Fx65 or the fetch, a key index ≥ 16 in Ex9E/ExA1) is a precondition (`Defined`, `CanStep`) rather than a modelled outcome; bytes written by Fx33 or Fx55 before such a panic are not modelled.
- `pc`, `I` and the stack entries are unbounded naturals: the `usize` overflow of `pc + 2`, `I + Vx` or `V0 + nnn` is not modelled (it needs values near 2^64).
- `keys` is stored as a whole sequence each tick (the Rust code copies the array).
- Properties.DrawSprite: the closed form is stated for x, y ≠ 15 only, because the code re-reads Vx and Vy from the live register file after VF is cleared and while it is updated; `Semantics.OpDxyn` and the engine model the re-reading exactly. For every x and y, `Properties.DrawCollisionFlag` states the collision flag and, when nothing collides, the XOR drawing.
- Sprite.DrawClosedForm: stated for x, y ≠ 15 for the same reason; `Sprite.DrawWithoutCollision` covers every x and y up to the first collision, and `Sprite.DrawRowsBinary` keeps pixels 0/1 for every x and y.
- Properties.DrawTwiceRestores: stated for x, y ≠ 15 because it does not hold for x = 15: once the first collision sets VF, the rest of the second draw moves one column right; `Properties.DrawTwiceOnFlag` and `Properties.DrawTwiceFromPowerOn` exhibit a case (DF01 twice lights pixel (0, 4)). It does not hold for y = 15 either, because Vy is re-read for every row: D0F2 twice on a dark screen with V0 = VF = 0 and sprite bytes 0x80, 0x80 collides on row 0 in the second draw, sets VF = 1, and draws sprite row 1 onto screen row 2, so column 0 of rows 1 and 2 stays lit.
- Properties.AddCarry: stated for x ≠ 15; the case x = 15 (the carry overwrites the sum) is `Properties.AddCarryIntoFlag`.
- Properties.SubFlag: stated for x, y ≠ 15; x = 15 with y ≠ 15 is `Properties.SubIntoFlag`, y = 15 with x ≠ 15 is `Properties.SubFromFlag`, and x = y = 15 is `Properties.SubOnFlag`.
- Properties.SubnFlag: stated for x, y ≠ 15; the same three lemmas cover 8xy7 with VF as an operand.
- Properties.ShiftRightFlag: stated for x ≠ 15; 8F06 is `Properties.ShiftOnFlag`.
- Properties.ShiftLeftFlag: stated for x ≠ 15; 8F0E is `Properties.ShiftOnFlag`.
- Opcode.Decode, Opcode.DecodeNibbles: their own contracts state only that an unmatched opcode is kept whole. That every other opcode re-encodes to itself is `Opcode.EncodeDecode` (and `Opcode.EncodeDecodeNibbles`), and that every instruction decodes back from its encoding is `Opcode.DecodeEncode`. These are lemmas rather than postconditions because as postconditions they would make every proof that mentions `Decode` carry the encoder.

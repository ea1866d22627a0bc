/**
 * The 16-bit CHIP-8 opcode: its four nibbles, the operand fields the handlers
 * take (x, y, n, kk, nnn) and the dispatch of `run_opcode` as a decoding into
 * an instruction value.
 */
module Opcode {
  import opened Bytes

  /** An opcode as fetched: two memory bytes, high byte first. */
  type Word = n: nat | n < 0x1_0000
  /** One hexadecimal digit of an opcode (also a register or key number). */
  type Nibble = n: nat | n < 16
  /** The low twelve bits of an opcode. */
  type Addr = n: nat | n < 0x1000

  /** The handler `run_opcode` selects, with the operands it passes. */
  datatype Instr =
    | Cls                            // 00E0
    | Ret                            // 00EE
    | Jp(addr: Addr)                 // 1nnn
    | Call(addr: Addr)               // 2nnn
    | SeByte(x: Nibble, kk: U8)      // 3xkk
    | SneByte(x: Nibble, kk: U8)     // 4xkk
    | SeReg(x: Nibble, y: Nibble)    // 5xy0
    | LdByte(x: Nibble, kk: U8)      // 6xkk
    | AddByte(x: Nibble, kk: U8)     // 7xkk
    | LdReg(x: Nibble, y: Nibble)    // 8xy0
    | OrReg(x: Nibble, y: Nibble)    // 8xy1
    | AndReg(x: Nibble, y: Nibble)   // 8xy2
    | XorReg(x: Nibble, y: Nibble)   // 8xy3
    | AddReg(x: Nibble, y: Nibble)   // 8xy4
    | SubReg(x: Nibble, y: Nibble)   // 8xy5
    | Shr(x: Nibble)                 // 8xy6, y ignored
    | Subn(x: Nibble, y: Nibble)     // 8xy7
    | Shl(x: Nibble)                 // 8xyE, y ignored
    | SneReg(x: Nibble, y: Nibble)   // 9xy0
    | LdI(addr: Addr)                // Annn
    | JpV0(addr: Addr)               // Bnnn
    | Rnd(x: Nibble, kk: U8)         // Cxkk
    | Drw(x: Nibble, y: Nibble, n: Nibble) // Dxyn
    | Skp(x: Nibble)                 // Ex9E
    | Sknp(x: Nibble)                // ExA1
    | LdVxDt(x: Nibble)              // Fx07
    | LdVxK(x: Nibble)               // Fx0A
    | LdDtVx(x: Nibble)              // Fx15
    | LdStVx(x: Nibble)              // Fx18
    | AddI(x: Nibble)                // Fx1E
    | LdF(x: Nibble)                 // Fx29
    | LdB(x: Nibble)                 // Fx33
    | LdIVx(x: Nibble)               // Fx55
    | LdVxI(x: Nibble)               // Fx65
    | Unknown(op: Word)              // anything else

  /** The four nibbles of an opcode, most significant first, as `run_opcode` matches on them. */
  type Nibbles = (Nibble, Nibble, Nibble, Nibble)

  /** The nibbles of `op` (the masks and shifts of `run_opcode`); joining them gives `op` back. */
  function Split(op: Word): (t: Nibbles)
    ensures Join(t) == op
  {
    assert op == (op / 0x10) * 0x10 + op % 0x10;
    assert op / 0x10 == (op / 0x100) * 0x10 + (op / 0x10) % 0x10;
    assert op / 0x100 == (op / 0x1000) * 0x10 + (op / 0x100) % 0x10;
    (op / 0x1000, (op / 0x100) % 0x10, (op / 0x10) % 0x10, op % 0x10)
  }

  /** The opcode with the given nibbles. */
  function Join(t: Nibbles): Word
  {
    t.0 * 0x1000 + t.1 * 0x100 + t.2 * 0x10 + t.3
  }

  /** Splitting and joining are inverse. */
  lemma SplitJoin(t: Nibbles)
    ensures Split(Join(t)) == t
  {
    var w := Join(t);
    var low := t.1 * 0x100 + t.2 * 0x10 + t.3;
    assert w == t.0 * 0x1000 + low && low < 0x1000;
    assert w / 0x1000 == t.0;
    assert w / 0x100 == t.0 * 0x10 + t.1;
    assert w / 0x10 == t.0 * 0x100 + t.1 * 0x10 + t.2;
  }

  /** The address with nibbles h, m, l, most significant first. */
  function AddrOf(h: Nibble, m: Nibble, l: Nibble): Addr
  {
    h * 0x100 + m * 0x10 + l
  }

  /** The byte with nibbles h and l. */
  function ByteOf(h: Nibble, l: Nibble): U8
  {
    (h * 0x10 + l) as U8
  }

  /** `nnn`, the low twelve bits, from the last three nibbles. */
  function Nnn(t: Nibbles): Addr
  {
    AddrOf(t.1, t.2, t.3)
  }

  /** `kk`, the low byte, from the last two nibbles. */
  function Kk(t: Nibbles): U8
  {
    ByteOf(t.2, t.3)
  }

  /**
   * The match of `run_opcode` on the nibbles `t` of `op`. Its patterns fix
   * disjoint nibble values, so it is written here by first nibble; anything
   * no pattern accepts is `Unknown`.
   */
  function DecodeNibbles(t: Nibbles, op: Word): (ins: Instr)
    ensures ins.Unknown? ==> ins.op == op
  {
    var (a, b, c, d) := t;
    match a
    case 0x0 =>
      if b == 0x0 && c == 0xE && d == 0x0 then Cls
      else if b == 0x0 && c == 0xE && d == 0xE then Ret
      else Unknown(op)
    case 0x1 => Jp(Nnn(t))
    case 0x2 => Call(Nnn(t))
    case 0x3 => SeByte(b, Kk(t))
    case 0x4 => SneByte(b, Kk(t))
    case 0x5 => if d == 0x0 then SeReg(b, c) else Unknown(op)
    case 0x6 => LdByte(b, Kk(t))
    case 0x7 => AddByte(b, Kk(t))
    case 0x8 =>
      (match d
       case 0x0 => LdReg(b, c)
       case 0x1 => OrReg(b, c)
       case 0x2 => AndReg(b, c)
       case 0x3 => XorReg(b, c)
       case 0x4 => AddReg(b, c)
       case 0x5 => SubReg(b, c)
       case 0x6 => Shr(b)
       case 0x7 => Subn(b, c)
       case 0xE => Shl(b)
       case _ => Unknown(op))
    case 0x9 => if d == 0x0 then SneReg(b, c) else Unknown(op)
    case 0xA => LdI(Nnn(t))
    case 0xB => JpV0(Nnn(t))
    case 0xC => Rnd(b, Kk(t))
    case 0xD => Drw(b, c, d)
    case 0xE =>
      if c == 0x9 && d == 0xE then Skp(b)
      else if c == 0xA && d == 0x1 then Sknp(b)
      else Unknown(op)
    case _ =>
      if c == 0x0 && d == 0x7 then LdVxDt(b)
      else if c == 0x0 && d == 0xA then LdVxK(b)
      else if c == 0x1 && d == 0x5 then LdDtVx(b)
      else if c == 0x1 && d == 0x8 then LdStVx(b)
      else if c == 0x1 && d == 0xE then AddI(b)
      else if c == 0x2 && d == 0x9 then LdF(b)
      else if c == 0x3 && d == 0x3 then LdB(b)
      else if c == 0x5 && d == 0x5 then LdIVx(b)
      else if c == 0x6 && d == 0x5 then LdVxI(b)
      else Unknown(op)
  }

  /** `opcode & 0x0FFF` and `opcode & 0x00FF`, as `run_opcode` computes them, are the operands read off the nibbles. */
  lemma OperandFields(op: Word)
    ensures Nnn(Split(op)) == op % 0x1000
    ensures Kk(Split(op)) as int == op % 0x100
  {
    var t := Split(op);
    var nnn, kk := Nnn(t), Kk(t) as int;
    var hi := t.0 as int * 0x10 + t.1 as int;
    assert op == t.0 as int * 0x1000 + nnn;
    assert op % 0x1000 == nnn;
    assert op == hi * 0x100 + kk;
    assert op % 0x100 == kk;
  }

  /**
   * The instruction `run_opcode` executes for `op`; an opcode no arm matches
   * is kept whole as `Unknown(op)`. (`EncodeDecode` shows that every other
   * opcode is the encoding of its instruction.)
   */
  function Decode(op: Word): (ins: Instr)
    ensures ins.Unknown? ==> ins.op == op
  {
    DecodeNibbles(Split(op), op)
  }

  /** The nibbles of a byte operand. */
  function ByteNibbles(kk: U8): (Nibble, Nibble)
  {
    (kk as nat / 0x10, kk as nat % 0x10)
  }

  /** The nibbles of an address operand. */
  function AddrNibbles(nnn: Addr): (Nibble, Nibble, Nibble)
  {
    (nnn / 0x100, (nnn / 0x10) % 0x10, nnn % 0x10)
  }

  /** A byte operand is recovered from its nibbles. */
  lemma ByteOfNibbles(kk: U8)
    ensures ByteOf(ByteNibbles(kk).0, ByteNibbles(kk).1) == kk
  {
  }

  /** The nibbles of a byte are recovered from it. */
  lemma NibblesOfByte(h: Nibble, l: Nibble)
    ensures ByteNibbles(ByteOf(h, l)) == (h, l)
  {
  }

  /** An address operand is recovered from its nibbles. */
  lemma AddrOfNibbles(nnn: Addr)
    ensures AddrOf(AddrNibbles(nnn).0, AddrNibbles(nnn).1, AddrNibbles(nnn).2) == nnn
  {
  }

  /** The nibbles of an address are recovered from it. */
  lemma NibblesOfAddr(h: Nibble, m: Nibble, l: Nibble)
    ensures AddrNibbles(AddrOf(h, m, l)) == (h, m, l)
  {
    var w := AddrOf(h, m, l);
    assert w == (h * 0x10 + m) * 0x10 + l && l < 0x10;
    assert w / 0x10 == h * 0x10 + m;
    assert w / 0x100 == h;
  }

  /** The nibbles of an instruction's opcode; 8xy6 and 8xyE are given y = 0. */
  function EncodeNibbles(ins: Instr): Nibbles
  {
    match ins
    case Cls => (0x0, 0x0, 0xE, 0x0)
    case Ret => (0x0, 0x0, 0xE, 0xE)
    case Jp(nnn) => (0x1, AddrNibbles(nnn).0, AddrNibbles(nnn).1, AddrNibbles(nnn).2)
    case Call(nnn) => (0x2, AddrNibbles(nnn).0, AddrNibbles(nnn).1, AddrNibbles(nnn).2)
    case SeByte(x, kk) => (0x3, x, ByteNibbles(kk).0, ByteNibbles(kk).1)
    case SneByte(x, kk) => (0x4, x, ByteNibbles(kk).0, ByteNibbles(kk).1)
    case SeReg(x, y) => (0x5, x, y, 0x0)
    case LdByte(x, kk) => (0x6, x, ByteNibbles(kk).0, ByteNibbles(kk).1)
    case AddByte(x, kk) => (0x7, x, ByteNibbles(kk).0, ByteNibbles(kk).1)
    case LdReg(x, y) => (0x8, x, y, 0x0)
    case OrReg(x, y) => (0x8, x, y, 0x1)
    case AndReg(x, y) => (0x8, x, y, 0x2)
    case XorReg(x, y) => (0x8, x, y, 0x3)
    case AddReg(x, y) => (0x8, x, y, 0x4)
    case SubReg(x, y) => (0x8, x, y, 0x5)
    case Shr(x) => (0x8, x, 0x0, 0x6)
    case Subn(x, y) => (0x8, x, y, 0x7)
    case Shl(x) => (0x8, x, 0x0, 0xE)
    case SneReg(x, y) => (0x9, x, y, 0x0)
    case LdI(nnn) => (0xA, AddrNibbles(nnn).0, AddrNibbles(nnn).1, AddrNibbles(nnn).2)
    case JpV0(nnn) => (0xB, AddrNibbles(nnn).0, AddrNibbles(nnn).1, AddrNibbles(nnn).2)
    case Rnd(x, kk) => (0xC, x, ByteNibbles(kk).0, ByteNibbles(kk).1)
    case Drw(x, y, n) => (0xD, x, y, n)
    case Skp(x) => (0xE, x, 0x9, 0xE)
    case Sknp(x) => (0xE, x, 0xA, 0x1)
    case LdVxDt(x) => (0xF, x, 0x0, 0x7)
    case LdVxK(x) => (0xF, x, 0x0, 0xA)
    case LdDtVx(x) => (0xF, x, 0x1, 0x5)
    case LdStVx(x) => (0xF, x, 0x1, 0x8)
    case AddI(x) => (0xF, x, 0x1, 0xE)
    case LdF(x) => (0xF, x, 0x2, 0x9)
    case LdB(x) => (0xF, x, 0x3, 0x3)
    case LdIVx(x) => (0xF, x, 0x5, 0x5)
    case LdVxI(x) => (0xF, x, 0x6, 0x5)
    case Unknown(op) => Split(op)
  }

  /** The opcode of an instruction; an unknown one keeps its own opcode. */
  function Encode(ins: Instr): Word
  {
    if ins.Unknown? then ins.op else Join(EncodeNibbles(ins))
  }

  /** The decoder recovers jumps, calls and address loads from their nibbles. */
  lemma {:induction false} DecodeEncodeFlow(ins: Instr, op: Word)
    requires ins.Cls? || ins.Ret? || ins.Jp? || ins.Call? || ins.LdI? || ins.JpV0?
    ensures DecodeNibbles(EncodeNibbles(ins), op) == ins
  {
    match ins
    case Cls =>
    case Ret =>
    case Jp(nnn) => AddrOfNibbles(nnn);
    case Call(nnn) => AddrOfNibbles(nnn);
    case LdI(nnn) => AddrOfNibbles(nnn);
    case JpV0(nnn) => AddrOfNibbles(nnn);
  }

  /** The decoder recovers instructions with a byte operand from their nibbles. */
  lemma {:induction false} DecodeEncodeByte(ins: Instr, op: Word)
    requires ins.SeByte? || ins.SneByte? || ins.LdByte? || ins.AddByte? || ins.Rnd?
    ensures DecodeNibbles(EncodeNibbles(ins), op) == ins
  {
    match ins
    case SeByte(_, kk) => ByteOfNibbles(kk);
    case SneByte(_, kk) => ByteOfNibbles(kk);
    case LdByte(_, kk) => ByteOfNibbles(kk);
    case AddByte(_, kk) => ByteOfNibbles(kk);
    case Rnd(_, kk) => ByteOfNibbles(kk);
  }

  /** The decoder recovers register moves, comparisons and logic from their nibbles. */
  lemma {:induction false} DecodeEncodeLogic(ins: Instr, op: Word)
    requires ins.SeReg? || ins.SneReg? || ins.LdReg? || ins.OrReg? || ins.AndReg? || ins.XorReg?
    ensures DecodeNibbles(EncodeNibbles(ins), op) == ins
  {
    match ins
    case SeReg(_, _) =>
    case SneReg(_, _) =>
    case LdReg(_, _) =>
    case OrReg(_, _) =>
    case AndReg(_, _) =>
    case XorReg(_, _) =>
  }

  /** The decoder recovers register arithmetic and drawing from their nibbles. */
  lemma {:induction false} DecodeEncodeArith(ins: Instr, op: Word)
    requires ins.AddReg? || ins.SubReg? || ins.Shr? || ins.Subn? || ins.Shl? || ins.Drw?
    ensures DecodeNibbles(EncodeNibbles(ins), op) == ins
  {
    match ins
    case AddReg(_, _) =>
    case SubReg(_, _) =>
    case Shr(_) =>
    case Subn(_, _) =>
    case Shl(_) =>
    case Drw(_, _, _) =>
  }

  /** The decoder recovers keys and timers from their nibbles. */
  lemma {:induction false} DecodeEncodeKeys(ins: Instr, op: Word)
    requires ins.Skp? || ins.Sknp? || ins.LdVxDt? || ins.LdVxK? || ins.LdDtVx? || ins.LdStVx?
    ensures DecodeNibbles(EncodeNibbles(ins), op) == ins
  {
    match ins
    case Skp(_) =>
    case Sknp(_) =>
    case LdVxDt(_) =>
    case LdVxK(_) =>
    case LdDtVx(_) =>
    case LdStVx(_) =>
  }

  /** The decoder recovers index register and memory from their nibbles. */
  lemma {:induction false} DecodeEncodeIndex(ins: Instr, op: Word)
    requires ins.AddI? || ins.LdF? || ins.LdB? || ins.LdIVx? || ins.LdVxI?
    ensures DecodeNibbles(EncodeNibbles(ins), op) == ins
  {
    match ins
    case AddI(_) =>
    case LdF(_) =>
    case LdB(_) =>
    case LdIVx(_) =>
    case LdVxI(_) =>
  }

  /** The match of `run_opcode` recovers every known instruction from its nibbles. */
  lemma DecodeEncodeNibbles(ins: Instr, op: Word)
    requires !ins.Unknown?
    ensures DecodeNibbles(EncodeNibbles(ins), op) == ins
  {
    if ins.Cls? || ins.Ret? || ins.Jp? || ins.Call? || ins.LdI? || ins.JpV0? {
      DecodeEncodeFlow(ins, op);
    } else if ins.SeByte? || ins.SneByte? || ins.LdByte? || ins.AddByte? || ins.Rnd? {
      DecodeEncodeByte(ins, op);
    } else if ins.SeReg? || ins.SneReg? || ins.LdReg? || ins.OrReg? || ins.AndReg? || ins.XorReg? {
      DecodeEncodeLogic(ins, op);
    } else if ins.AddReg? || ins.SubReg? || ins.Shr? || ins.Subn? || ins.Shl? || ins.Drw? {
      DecodeEncodeArith(ins, op);
    } else if ins.Skp? || ins.Sknp? || ins.LdVxDt? || ins.LdVxK? || ins.LdDtVx? || ins.LdStVx? {
      DecodeEncodeKeys(ins, op);
    } else {
      DecodeEncodeIndex(ins, op);
    }
  }

  /** Decoding the opcode of a known instruction gives that instruction back. */
  lemma DecodeEncode(ins: Instr)
    requires !ins.Unknown?
    ensures Decode(Encode(ins)) == ins
  {
    SplitJoin(EncodeNibbles(ins));
    DecodeEncodeNibbles(ins, Encode(ins));
  }

  /** 8xy6 and 8xyE: the two patterns whose handler drops the y nibble. */
  predicate IgnoresY(op: Word)
  {
    var t := Split(op);
    t.0 == 0x8 && (t.3 == 0x6 || t.3 == 0xE)
  }

  /** Re-encoding the decoding of nibbles whose first nibble is 0 to 3. */
  lemma EncodeDecodeLow(t: Nibbles, op: Word)
    requires t.0 <= 0x3 && !DecodeNibbles(t, op).Unknown?
    ensures EncodeNibbles(DecodeNibbles(t, op)) == t
  {
    NibblesOfByte(t.2, t.3);
    NibblesOfAddr(t.1, t.2, t.3);
  }

  /** Re-encoding the decoding of nibbles whose first nibble is 4 to 7. */
  lemma EncodeDecodeMid(t: Nibbles, op: Word)
    requires 0x4 <= t.0 <= 0x7 && !DecodeNibbles(t, op).Unknown?
    ensures EncodeNibbles(DecodeNibbles(t, op)) == t
  {
    NibblesOfByte(t.2, t.3);
    NibblesOfAddr(t.1, t.2, t.3);
  }

  /** Re-encoding the decoding of nibbles whose first nibble is 8. */
  lemma EncodeDecodeEight(t: Nibbles, op: Word)
    requires t.0 == 0x8 && !DecodeNibbles(t, op).Unknown?
    ensures EncodeNibbles(DecodeNibbles(t, op)) == if t.3 == 0x6 || t.3 == 0xE then t.(2 := 0) else t
  {
    NibblesOfByte(t.2, t.3);
    NibblesOfAddr(t.1, t.2, t.3);
  }

  /** Re-encoding the decoding of nibbles whose first nibble is 9 to D. */
  lemma EncodeDecodeHigh(t: Nibbles, op: Word)
    requires 0x9 <= t.0 <= 0xD && !DecodeNibbles(t, op).Unknown?
    ensures EncodeNibbles(DecodeNibbles(t, op)) == t
  {
    NibblesOfByte(t.2, t.3);
    NibblesOfAddr(t.1, t.2, t.3);
  }

  /** Re-encoding the decoding of nibbles whose first nibble is E or F. */
  lemma EncodeDecodeTop(t: Nibbles, op: Word)
    requires 0xE <= t.0 && !DecodeNibbles(t, op).Unknown?
    ensures EncodeNibbles(DecodeNibbles(t, op)) == t
  {
    NibblesOfByte(t.2, t.3);
    NibblesOfAddr(t.1, t.2, t.3);
  }

  /**
   * Re-encoding the decoding of some nibbles gives them back, except that the
   * y nibble of 8xy6 and 8xyE comes back as 0.
   */
  lemma EncodeDecodeNibbles(t: Nibbles, op: Word)
    requires !DecodeNibbles(t, op).Unknown?
    ensures EncodeNibbles(DecodeNibbles(t, op)) ==
      if t.0 == 0x8 && (t.3 == 0x6 || t.3 == 0xE) then t.(2 := 0) else t
  {
    if t.0 <= 0x3 {
      EncodeDecodeLow(t, op);
    } else if t.0 <= 0x7 {
      EncodeDecodeMid(t, op);
    } else if t.0 == 0x8 {
      EncodeDecodeEight(t, op);
    } else if t.0 <= 0xD {
      EncodeDecodeHigh(t, op);
    } else {
      EncodeDecodeTop(t, op);
    }
  }

  /**
   * Encoding a decoded opcode gives it back, except that for 8xy6 and 8xyE,
   * whose handlers ignore y, the y nibble comes back as 0.
   */
  lemma EncodeDecode(op: Word)
    ensures Encode(Decode(op)) == if IgnoresY(op) then op - Split(op).2 * 0x10 else op
  {
    if !Decode(op).Unknown? {
      EncodeDecodeNibbles(Split(op), op);
    }
  }
}

/**
 * Unsigned 8-bit values as the engine stores them (Rust `u8`), and the bitwise
 * operators the instruction set uses on them. The operators are defined bit by
 * bit on integers (least significant bit first), so that the rest of the model
 * stays in integer arithmetic.
 */
module Bytes {

  /** A Rust `u8`. */
  newtype U8 = x: int | 0 <= x < 256

  function Pow2(n: nat): (p: nat)
    ensures p >= 1
  {
    if n == 0 then 1 else 2 * Pow2(n - 1)
  }

  datatype BitOp = OrOp | AndOp | XorOp

  /** The operator on one bit (0 or 1) of each operand. */
  function ApplyBit(op: BitOp, a: nat, b: nat): (r: nat)
    requires a <= 1 && b <= 1
    ensures r <= 1
  {
    match op
    case OrOp => if a == 1 || b == 1 then 1 else 0
    case AndOp => if a == 1 && b == 1 then 1 else 0
    case XorOp => if a != b then 1 else 0
  }

  /** The operator applied to the low `n` bits of `a` and `b`. */
  function Bitwise(op: BitOp, a: nat, b: nat, n: nat): (r: nat)
    ensures r < Pow2(n)
  {
    if n == 0 then 0
    else 2 * Bitwise(op, a / 2, b / 2, n - 1) + ApplyBit(op, a % 2, b % 2)
  }

  /** `a | b` */
  function Or(a: U8, b: U8): U8
  {
    Bitwise(OrOp, a as nat, b as nat, 8) as U8
  }

  /** `a & b` */
  function And(a: U8, b: U8): U8
  {
    Bitwise(AndOp, a as nat, b as nat, 8) as U8
  }

  /** `a ^ b` */
  function Xor(a: U8, b: U8): U8
  {
    Bitwise(XorOp, a as nat, b as nat, 8) as U8
  }

  /** `v >> s` */
  function ShiftRight(v: nat, s: nat): nat
  {
    if s == 0 then v else ShiftRight(v / 2, s - 1)
  }

  /** `(b >> (7 - k)) & 1`: bit `k` of `b`, counting from the most significant bit. */
  function Bit(b: U8, k: nat): (r: U8)
    requires k < 8
    ensures r <= 1
  {
    (ShiftRight(b as nat, 7 - k) % 2) as U8
  }

  lemma {:induction false} BitwiseOfZeros(op: BitOp, n: nat)
    ensures Bitwise(op, 0, 0, n) == 0
  {
    if n > 0 {
      BitwiseOfZeros(op, n - 1);
    }
  }

  /** On single bits each operator is its truth table. */
  lemma {:induction false} OnOneBit(op: BitOp, a: U8, b: U8)
    requires a <= 1 && b <= 1
    ensures Bitwise(op, a as nat, b as nat, 8) == ApplyBit(op, a as nat, b as nat)
  {
    assert (a as nat) / 2 == 0 && (b as nat) / 2 == 0;
    BitwiseOfZeros(op, 7);
  }

  /** On values 0 and 1 the three operators are the boolean ones. */
  lemma OnBits(a: U8, b: U8)
    requires a <= 1 && b <= 1
    ensures Xor(a, b) == if a == b then 0 else 1
    ensures And(a, b) == if a == 1 && b == 1 then 1 else 0
    ensures Or(a, b) == if a == 1 || b == 1 then 1 else 0
  {
    OnOneBit(XorOp, a, b);
    OnOneBit(AndOp, a, b);
    OnOneBit(OrOp, a, b);
  }

  lemma {:induction false} AndWithZero(a: nat, n: nat)
    ensures Bitwise(AndOp, a, 0, n) == 0
  {
    if n > 0 {
      AndWithZero(a / 2, n - 1);
    }
  }

  /** Masking with a single bit `2^k` keeps exactly bit `k`. */
  lemma {:induction false} AndPow2(a: nat, k: nat, n: nat)
    requires k < n
    ensures Bitwise(AndOp, a, Pow2(k), n) == if ShiftRight(a, k) % 2 == 1 then Pow2(k) else 0
  {
    if k == 0 {
      AndWithZero(a / 2, n - 1);
      assert Bitwise(AndOp, a, 1, n) == ApplyBit(AndOp, a % 2, 1);
    } else {
      assert Pow2(k) / 2 == Pow2(k - 1) && Pow2(k) % 2 == 0;
      AndPow2(a / 2, k - 1, n - 1);
      assert ShiftRight(a, k) == ShiftRight(a / 2, k - 1);
    }
  }

  /** Shifting right by seven is dividing by 128. */
  lemma ShiftRightSeven(w: nat)
    ensures ShiftRight(w, 7) == w / 128
  {
    var w1, w2, w3 := w / 2, w / 4, w / 8;
    assert w1 / 2 == w2 && w2 / 2 == w3;
    assert w3 / 2 == w / 16 && w / 16 / 2 == w / 32 && w / 32 / 2 == w / 64 && w / 64 / 2 == w / 128;
    assert ShiftRight(w, 7) == ShiftRight(w1, 6) == ShiftRight(w2, 5) == ShiftRight(w3, 4);
    assert ShiftRight(w3, 4) == ShiftRight(w / 16, 3) == ShiftRight(w / 32, 2) == ShiftRight(w / 64, 1);
  }

  /** `v & 1` is the least significant bit of `v`. */
  lemma AndOne(v: U8)
    ensures And(v, 1) as int == v as int % 2
  {
    assert Pow2(0) == 1;
    AndPow2(v as nat, 0, 8);
  }

  /** `(v & 0x80) >> 7` is the most significant bit of `v`. */
  lemma AndHighBit(v: U8)
    ensures ShiftRight(And(v, 0x80) as nat, 7) == v as int / 128
  {
    assert Pow2(7) == 0x80;
    AndPow2(v as nat, 7, 8);
    ShiftRightSeven(v as nat);
    ShiftRightSeven(And(v, 0x80) as nat);
  }
}

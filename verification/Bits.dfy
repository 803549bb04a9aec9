/** Bytes, and bitwise operations on natural numbers, bit by bit, with the facts the components need. */
module Bits {
  type byte = x: int | 0 <= x < 256

  type Bytes = seq<byte>

  function Pow2(n: nat): (r: nat)
    ensures r >= 1
  {
    if n == 0 then 1 else 2 * Pow2(n - 1)
  }

  lemma {:induction false} Pow2Sum(a: nat, b: nat)
    ensures Pow2(a + b) == Pow2(a) * Pow2(b)
  {
    if a > 0 {
      Pow2Sum(a - 1, b);
    }
  }

  /** The exclusive or of the low `n` bits of `a` and `b`. */
  function BitXor(a: nat, b: nat, n: nat): (r: nat)
    ensures r < Pow2(n)
  {
    if n == 0 then 0 else (if a % 2 == b % 2 then 0 else 1) + 2 * BitXor(a / 2, b / 2, n - 1)
  }

  lemma LowBitOfXor(a: nat, b: nat, n: nat)
    requires n > 0
    ensures BitXor(a, b, n) % 2 == (if a % 2 == b % 2 then 0 else 1)
    ensures BitXor(a, b, n) / 2 == BitXor(a / 2, b / 2, n - 1)
  {
  }

  lemma {:induction false} BitXorUndoes(a: nat, b: nat, n: nat)
    requires a < Pow2(n)
    ensures BitXor(BitXor(a, b, n), b, n) == a
  {
    if n > 0 {
      LowBitOfXor(a, b, n);
      LowBitOfXor(BitXor(a, b, n), b, n);
      BitXorUndoes(a / 2, b / 2, n - 1);
    }
  }

  function XorByte(a: byte, b: byte): byte {
    assert Pow2(8) == 256 by { Pow2Of8(); }
    BitXor(a, b, 8)
  }

  lemma Pow2Of8()
    ensures Pow2(8) == 256
  {
    assert Pow2(4) == 16;
  }

  lemma XorByteUndoes(a: byte, b: byte)
    ensures XorByte(XorByte(a, b), b) == a
  {
    Pow2Of8();
    BitXorUndoes(a, b, 8);
  }

  /** Bit `k` of `a`, counted from the lowest. */
  function Bit(a: nat, k: nat): nat {
    if k == 0 then a % 2 else Bit(a / 2, k - 1)
  }

  /** Bit by bit, the exclusive or is the sum modulo 2. */
  lemma {:induction false} BitOfXor(a: nat, b: nat, n: nat, k: nat)
    requires k < n
    ensures Bit(BitXor(a, b, n), k) == (Bit(a, k) + Bit(b, k)) % 2
  {
    LowBitOfXor(a, b, n);
    if k > 0 {
      BitOfXor(a / 2, b / 2, n - 1, k - 1);
    }
  }

  lemma BitOfXorByte(a: byte, b: byte, k: nat)
    requires k < 8
    ensures Bit(XorByte(a, b), k) == (Bit(a, k) + Bit(b, k)) % 2
  {
    BitOfXor(a, b, 8, k);
  }

  /** The inclusive or. */
  function BitOr(a: nat, b: nat): nat
    decreases a + b
  {
    if a == 0 then b else if b == 0 then a
    else (if a % 2 == 1 || b % 2 == 1 then 1 else 0) + 2 * BitOr(a / 2, b / 2)
  }

  function ShiftLeft(a: nat, k: nat): nat {
    a * Pow2(k)
  }

  /** Or-ing a shifted number with one below the shift adds the two. */
  lemma {:induction false} OrOfDisjointAdds(a: nat, b: nat, k: nat)
    requires b < Pow2(k)
    ensures BitOr(ShiftLeft(a, k), b) == ShiftLeft(a, k) + b
    ensures BitOr(b, ShiftLeft(a, k)) == ShiftLeft(a, k) + b
  {
    if k > 0 && a > 0 && b > 0 {
      var x := ShiftLeft(a, k);
      assert x == 2 * ShiftLeft(a, k - 1);
      OrOfDisjointAdds(a, b / 2, k - 1);
    }
  }
}

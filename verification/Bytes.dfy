/** Octets, byte strings and the few operations on them that the WebSocket code shares. */
module Bytes {
  type byte = x: int | 0 <= x < 256
  type bytes = seq<byte>

  function Pow2(n: nat): (r: nat)
    ensures r >= 1
  {
    if n == 0 then 1 else 2 * Pow2(n - 1)
  }

  lemma Pow2Values()
    ensures Pow2(4) == 16 && Pow2(6) == 64 && Pow2(7) == 128 && Pow2(8) == 256
  {
    assert Pow2(2) == 4;
    assert Pow2(4) == 16;
  }

  /** Bitwise exclusive or of the low `width` bits of two numbers. */
  function XorBits(width: nat, a: nat, b: nat): (r: nat)
    ensures r < Pow2(width)
  {
    if width == 0 then 0 else 2 * XorBits(width - 1, a / 2, b / 2) + (a + b) % 2
  }

  /** The `^` of two `uint8_t` values. */
  function Xor(a: byte, b: byte): (r: byte) {
    Pow2Values();
    XorBits(8, a, b)
  }

  // ------------------------------------------------------------------ the operator on bit vectors

  /** The number that eight bits stand for. */
  function Num(u: bv8): (n: byte) { u as int }

  function Half(u: bv8): (h: bv8) { u >> 1 }

  function Low(u: bv8): (b: nat)
    ensures b < 2
  {
    if u & 1 == 1 then 1 else 0
  }

  function BitXor(u: bv8, v: bv8): (w: bv8) { u ^ v }

  lemma NumOfBits(a: byte)
    ensures Num(a as bv8) == a
  {
  }

  lemma BitsOfNum(u: bv8)
    ensures Num(u) as bv8 == u
  {
  }

  lemma Halved(u: bv8)
    ensures Num(u) == 2 * Num(Half(u)) + Low(u)
  {
    assert (u & 1) as int == if u & 1 == 1 then 1 else 0;
  }

  lemma HalvesOfXor(u: bv8, v: bv8)
    ensures Low(BitXor(u, v)) == (Low(u) + Low(v)) % 2
    ensures Half(BitXor(u, v)) == BitXor(Half(u), Half(v))
  {
    assert (u & 1 == 0 || u & 1 == 1) && (v & 1 == 0 || v & 1 == 1);
    assert (u ^ v) & 1 == (u & 1) ^ (v & 1);
  }

  lemma XorSplits(u: bv8, v: bv8)
    ensures Num(BitXor(u, v)) == 2 * Num(BitXor(Half(u), Half(v))) + (Low(u) + Low(v)) % 2
  {
    hide Num, Half, Low, BitXor;
    Halved(BitXor(u, v));
    HalvesOfXor(u, v);
  }

  lemma NoBits(u: bv8, v: bv8)
    requires Num(u) < Pow2(0) && Num(v) < Pow2(0)
    ensures XorBits(0, Num(u), Num(v)) == Num(BitXor(u, v))
  {
    assert u == 0 && v == 0;
  }

  lemma LastBit(width: nat, a: nat, x: nat, i: nat, b: nat, y: nat, j: nat)
    requires width > 0 && a == 2 * x + i && b == 2 * y + j && i < 2 && j < 2
    requires a < Pow2(width) && b < Pow2(width)
    ensures x < Pow2(width - 1) && y < Pow2(width - 1)
    ensures XorBits(width, a, b) == 2 * XorBits(width - 1, x, y) + (i + j) % 2
  {
    assert a / 2 == x && b / 2 == y && (a + b) % 2 == (i + j) % 2;
  }

  lemma {:induction false} XorBitsIsXor(width: nat, u: bv8, v: bv8)
    requires Num(u) < Pow2(width) && Num(v) < Pow2(width)
    ensures XorBits(width, Num(u), Num(v)) == Num(BitXor(u, v))
    decreases width
  {
    hide Num, Half, Low, BitXor, XorBits, Pow2;
    if width == 0 {
      NoBits(u, v);
    } else {
      Halved(u);
      Halved(v);
      XorSplits(u, v);
      LastBit(width, Num(u), Num(Half(u)), Low(u), Num(v), Num(Half(v)), Low(v));
      XorBitsIsXor(width - 1, Half(u), Half(v));
    }
  }

  lemma XorOfBits(u: bv8, v: bv8)
    ensures Xor(Num(u), Num(v)) == Num(BitXor(u, v))
  {
    hide Num, XorBits, BitXor;
    Pow2Values();
    XorBitsIsXor(8, u, v);
  }

  /** The bit-by-bit definition is the operator `^` on eight bits. */
  lemma XorIsBitwise(a: byte, b: byte)
    ensures Xor(a, b) as bv8 == (a as bv8) ^ (b as bv8)
  {
    hide Num, Xor;
    NumOfBits(a);
    NumOfBits(b);
    XorOfBits(a as bv8, b as bv8);
    BitsOfNum(BitXor(a as bv8, b as bv8));
  }

  lemma BitXorTwice(u: bv8, v: bv8)
    ensures BitXor(BitXor(u, v), v) == u
  {
  }

  lemma XorTwice(a: byte, b: byte)
    ensures Xor(Xor(a, b), b) == a
  {
    hide Num, Xor, BitXor;
    NumOfBits(a);
    NumOfBits(b);
    XorOfBits(a as bv8, b as bv8);
    XorOfBits(BitXor(a as bv8, b as bv8), b as bv8);
    BitXorTwice(a as bv8, b as bv8);
  }

  /** The concatenation of a list of sequences. */
  function Flatten<T>(ss: seq<seq<T>>): (r: seq<T>) {
    if ss == [] then [] else ss[0] + Flatten(ss[1..])
  }

  lemma Regrouped<T>(a: seq<T>, b: seq<T>, c: seq<T>)
    ensures a + (b + c) == (a + b) + c
  {
  }
}

/** SHA-1 as section 6.1.2 of FIPS 180-4 states it: an 80-word schedule and 80 rounds over five registers. */
module Sha1Spec {
  type word = bv32
  type octet = bv8

  function Rol(x: word, n: nat): (r: word)
    requires 0 < n < 32
  {
    (x << n) | (x >> (32 - n))
  }

  function Add(x: word, y: word): (r: word) { x + y }

  function Ch(x: word, y: word, z: word): (r: word) { (x & y) ^ (!x & z) }
  function Parity(x: word, y: word, z: word): (r: word) { x ^ y ^ z }
  function Maj(x: word, y: word, z: word): (r: word) { (x & y) ^ (x & z) ^ (y & z) }

  /** The logical function of round `t`. */
  function F(t: nat, x: word, y: word, z: word): (r: word) {
    if t < 20 then Ch(x, y, z) else if t < 40 then Parity(x, y, z) else if t < 60 then Maj(x, y, z) else Parity(x, y, z)
  }

  /** The constant of round `t`. */
  function K(t: nat): (r: word) {
    if t < 20 then 0x5a827999 else if t < 40 then 0x6ed9eba1 else if t < 60 then 0x8f1bbcdc else 0xca62c1d6
  }

  function Mix(x: word, y: word, z: word, v: word): (w: word) { Rol(x ^ y ^ z ^ v, 1) }

  /** Word `t` of the message schedule of a block. */
  function Schedule(m: seq<word>, t: nat): (w: word)
    requires |m| == 16
  {
    if t < 16 then m[t]
    else Mix(Schedule(m, t - 3), Schedule(m, t - 8), Schedule(m, t - 14), Schedule(m, t - 16))
  }

  lemma TurnedBack(x: word)
    ensures (Rol(x, 1) >> 1) | (Rol(x, 1) << 31) == x
  {
  }

  lemma MixTurnsBack(w: word, x: word, y: word, z: word, v: word)
    requires w == Mix(x, y, z, v)
    ensures (w >> 1) | (w << 31) == x ^ y ^ z ^ v
  {
    hide Rol;
    TurnedBack(x ^ y ^ z ^ v);
  }

  lemma ScheduleMixes(m: seq<word>, t: nat)
    requires |m| == 16 && t >= 16
    ensures Schedule(m, t) == Mix(Schedule(m, t - 3), Schedule(m, t - 8), Schedule(m, t - 14), Schedule(m, t - 16))
  {
    hide Mix;
  }

  /** The recurrence of section 6.1.2: turned right by one bit, a word is the exclusive or of four earlier ones. */
  lemma ScheduleRecurs(m: seq<word>, t: nat)
    requires |m| == 16 && t >= 16
    ensures (Schedule(m, t) >> 1) | (Schedule(m, t) << 31)
         == Schedule(m, t - 3) ^ Schedule(m, t - 8) ^ Schedule(m, t - 14) ^ Schedule(m, t - 16)
  {
    hide Mix, Schedule;
    ScheduleMixes(m, t);
    MixTurnsBack(Schedule(m, t), Schedule(m, t - 3), Schedule(m, t - 8), Schedule(m, t - 14), Schedule(m, t - 16));
  }

  datatype Registers = Registers(a: word, b: word, c: word, d: word, e: word)

  function Total(s: word, f: word, e: word, k: word, w: word): (x: word) { s + f + e + k + w }

  function NewA(t: nat, w: word, r: Registers): (x: word) {
    Total(Rol(r.a, 5), F(t, r.b, r.c, r.d), r.e, K(t), w)
  }

  function Round(t: nat, w: word, r: Registers): (s: Registers) {
    Registers(NewA(t, w, r), r.a, Rol(r.b, 30), r.c, r.d)
  }

  /** The registers after the first `t` rounds. */
  function Rounds(h: Registers, m: seq<word>, t: nat): (r: Registers)
    requires |m| == 16
  {
    if t == 0 then h else Round(t - 1, Schedule(m, t - 1), Rounds(h, m, t - 1))
  }

  /** The hash value after one more block. */
  function Compress(h: Registers, m: seq<word>): (r: Registers)
    requires |m| == 16
  {
    var x := Rounds(h, m, 80);
    Registers(Add(h.a, x.a), Add(h.b, x.b), Add(h.c, x.c), Add(h.d, x.d), Add(h.e, x.e))
  }

  const Initial: Registers := Registers(0x67452301, 0xefcdab89, 0x98badcfe, 0x10325476, 0xc3d2e1f0)

  function Word(a: octet, b: octet, c: octet, d: octet): (w: word) {
    (d as bv32) | ((c as bv32) << 8) | ((b as bv32) << 16) | ((a as bv32) << 24)
  }

  function WordOctets(w: word): (r: seq<octet>)
    ensures |r| == 4
  {
    [((w >> 24) & 0xff) as bv8, ((w >> 16) & 0xff) as bv8, ((w >> 8) & 0xff) as bv8, (w & 0xff) as bv8]
  }

  function Zeros(n: nat): (r: seq<octet>)
    ensures |r| == n
  {
    seq(n, _ => 0)
  }

  /** The low `k` octets of a number, the most significant first. */
  function BigEndian(n: nat, k: nat): (r: seq<octet>)
    ensures |r| == k
  {
    if k == 0 then [] else BigEndian(n / 256, k - 1) + [(n % 256) as bv8]
  }

  lemma PadLength(n: nat)
    ensures (n + 1 + (55 - n) % 64 + 8) % 64 == 0
  {
    var q, r := n / 64, n % 64;
    assert n == 64 * q + r;
    var z := (55 - n) % 64;
    assert z == if r <= 55 then 55 - r else 119 - r;
    assert n + 1 + z + 8 == 64 * q + (if r <= 55 then 64 else 128);
  }

  /** A message, a one bit, zeros up to 56 octets past a block boundary, and the length in bits on 8 octets. */
  function Padded(s: seq<octet>): (r: seq<octet>)
    ensures |r| % 64 == 0
  {
    PadLength(|s|);
    s + [0x80] + Zeros((55 - |s|) % 64) + BigEndian(8 * |s|, 8)
  }

  /** The sixteen big-endian words of a 64-octet block. */
  function Block(s: seq<octet>): (m: seq<word>)
    requires |s| == 64
    ensures |m| == 16
  {
    seq(16, i requires 0 <= i < 16 => Word(s[4 * i], s[4 * i + 1], s[4 * i + 2], s[4 * i + 3]))
  }

  function HashBlocks(h: Registers, s: seq<octet>): (r: Registers)
    requires |s| % 64 == 0
    decreases |s|
  {
    if s == [] then h else HashBlocks(Compress(h, Block(s[..64])), s[64..])
  }

  function Digest(h: Registers): (r: seq<octet>)
    ensures |r| == 20
  {
    WordOctets(h.a) + WordOctets(h.b) + WordOctets(h.c) + WordOctets(h.d) + WordOctets(h.e)
  }

  function Sha1(s: seq<octet>): (r: seq<octet>)
    ensures |r| == 20
  {
    Digest(HashBlocks(Initial, Padded(s)))
  }
}

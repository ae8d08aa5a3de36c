/** The handshake key generator: SHA-1 over five rotating registers and a sixteen-word ring, updated in place. */
module HandshakeKey {
  import opened Sha1Spec
  import opened Base64Spec

  // The forms the generator gives the logical functions of the rounds.
  function Choose(x: word, y: word, z: word): (r: word) { (x & (y ^ z)) ^ z }
  function Majority(x: word, y: word, z: word): (r: word) { ((x | y) & z) | (x & y) }

  lemma ChooseBits(x: word, y: word, z: word)
    ensures (x & (y ^ z)) ^ z == (x & y) ^ (!x & z)
  {
  }

  lemma MajorityBits(x: word, y: word, z: word)
    ensures ((x | y) & z) | (x & y) == (x & y) ^ (x & z) ^ (y & z)
  {
  }

  lemma ChooseIsCh(x: word, y: word, z: word)
    ensures Choose(x, y, z) == Ch(x, y, z)
  {
    ChooseBits(x, y, z);
  }

  lemma MajorityIsMaj(x: word, y: word, z: word)
    ensures Majority(x, y, z) == Maj(x, y, z)
  {
    MajorityBits(x, y, z);
  }

  /** A register and what a round adds to it, in the order of the generator's `+=`. */
  function Increased(e: word, f: word, w: word, k: word, s: word): (x: word) { e + (f + w + k + s) }

  lemma SumInOrder(e: word, f: word, w: word, k: word, s: word)
    ensures e + (f + w + k + s) == s + f + e + k + w
  {
  }

  lemma IncreasedIsTotal(e: word, f: word, w: word, k: word, s: word)
    ensures Increased(e, f, w, k, s) == Total(s, f, e, k, w)
  {
    SumInOrder(e, f, w, k, s);
  }

  /** The place of a register, counted round the array. */
  function Reg(n: nat): (k: nat)
    ensures k < 5
  {
    n % 5
  }

  /** The place of a schedule word in the ring. */
  function Slot(n: nat): (k: nat)
    ensures k < 16
  {
    n % 16
  }

  /** The registers as they lie in the array at round `t`: `e` at `Reg(t)`, then `d`, `c`, `b`, `a`. */
  ghost predicate Holds(a: seq<word>, t: nat, r: Registers) {
    && |a| == 5
    && a[Reg(t)] == r.e && a[Reg(t + 1)] == r.d && a[Reg(t + 2)] == r.c && a[Reg(t + 3)] == r.b && a[Reg(t + 4)] == r.a
  }

  /** The last sixteen words of the schedule, word `j` at `Slot(j)`. */
  ghost predicate Ring(b: seq<word>, m: seq<word>, t: nat) {
    && |b| == 16 && |m| == 16 && t >= 16
    && forall j :: t - 16 <= j < t ==> b[Slot(j)] == Schedule(m, j)
  }

  lemma Apart(t: nat, i: nat, j: nat)
    requires i < j < i + 5
    ensures Reg(t + i) != Reg(t + j)
  {
    assert (t + j) - (t + i) < 5;
  }

  lemma FiveDistinct(t: nat)
    ensures Reg(t) != Reg(t + 1) && Reg(t) != Reg(t + 2) && Reg(t) != Reg(t + 3) && Reg(t) != Reg(t + 4)
    ensures Reg(t + 3) != Reg(t + 1) && Reg(t + 3) != Reg(t + 2) && Reg(t + 3) != Reg(t + 4)
    ensures Reg(t + 5) == Reg(t)
  {
    hide Reg;
    Apart(t, 0, 1);
    Apart(t, 0, 2);
    Apart(t, 0, 3);
    Apart(t, 0, 4);
    Apart(t, 1, 3);
    Apart(t, 2, 3);
    Apart(t, 3, 4);
    SamePlace(t, t + 5, 1);
  }

  /** One step of the rotation: the oldest register takes the new value, the second turns by 30 bits. */
  lemma Rotates(a: seq<word>, t: nat, w: word, r: Registers)
    requires Holds(a, t, r)
    ensures Holds(a[Reg(t) := NewA(t, w, r)][Reg(t + 3) := Rol(r.b, 30)], t + 1, Round(t, w, r))
  {
    hide Reg, Rol, NewA;
    FiveDistinct(t);
  }

  /** `blk`: the word that replaces word `i` of the ring. */
  function Blk(b: seq<word>, i: nat): (w: word)
    requires |b| == 16 && i < 16
  {
    Mix(b[Slot(i + 13)], b[Slot(i + 8)], b[Slot(i + 2)], b[i])
  }

  lemma RingPlace(t: nat, back: nat)
    requires back <= 16 <= t
    ensures Slot(t - back) == Slot(Slot(t) + (16 - back))
  {
  }

  lemma RingPlaces(t: nat)
    requires t >= 16
    ensures Slot(t - 3) == Slot(Slot(t) + 13)
    ensures Slot(t - 8) == Slot(Slot(t) + 8)
    ensures Slot(t - 14) == Slot(Slot(t) + 2)
    ensures Slot(t - 16) == Slot(t)
  {
    hide Slot;
    RingPlace(t, 3);
    RingPlace(t, 8);
    RingPlace(t, 14);
    SameSlot(t - 16, t, 1);
  }

  lemma RingPlacesDiffer(t: nat, j: nat)
    requires t - 15 <= j < t
    ensures Slot(j) != Slot(t)
  {
  }

  lemma RingTurns(b: seq<word>, m: seq<word>, t: nat)
    requires Ring(b, m, t)
    ensures Blk(b, Slot(t)) == Schedule(m, t)
    ensures Ring(b[Slot(t) := Schedule(m, t)], m, t + 1)
  {
    hide Mix, Slot;
    RingPlaces(t);
    forall j: nat | t - 15 <= j < t ensures Slot(j) != Slot(t) {
      RingPlacesDiffer(t, j);
    }
  }

  /** The logical function and constant of round `t`, given the registers in the array. */
  predicate RoundUses(s: seq<word>, t: nat, f: word, k: word)
    requires |s| == 5
  {
    f == F(t, s[Reg(t + 3)], s[Reg(t + 2)], s[Reg(t + 1)]) && k == K(t)
  }

  lemma FirstRounds(s: seq<word>, t: nat)
    requires |s| == 5 && t < 20
    ensures RoundUses(s, t, Choose(s[Reg(t + 3)], s[Reg(t + 2)], s[Reg(t + 1)]), 0x5a827999)
  {
    ChooseIsCh(s[Reg(t + 3)], s[Reg(t + 2)], s[Reg(t + 1)]);
  }

  lemma ParityRounds(s: seq<word>, t: nat)
    requires |s| == 5 && (20 <= t < 40 || 60 <= t < 80)
    ensures RoundUses(s, t, Parity(s[Reg(t + 3)], s[Reg(t + 2)], s[Reg(t + 1)]),
      if t < 40 then 0x6ed9eba1 else 0xca62c1d6)
  {
  }

  lemma MajorityRounds(s: seq<word>, t: nat)
    requires |s| == 5 && 40 <= t < 60
    ensures RoundUses(s, t, Majority(s[Reg(t + 3)], s[Reg(t + 2)], s[Reg(t + 1)]), 0x8f1bbcdc)
  {
    MajorityIsMaj(s[Reg(t + 3)], s[Reg(t + 2)], s[Reg(t + 1)]);
  }

  /** The two assignments of a round carry the registers from round `t` to round `t + 1`. */
  lemma RoundTurns(s: seq<word>, t: nat, w: word, r: Registers, f: word, k: word)
    requires Holds(s, t, r) && RoundUses(s, t, f, k)
    ensures Holds(
      s[Reg(t) := Increased(s[Reg(t)], f, w, k, Rol(s[Reg(t + 4)], 5))][Reg(t + 3) := Rol(s[Reg(t + 3)], 30)],
      t + 1, Round(t, w, r))
  {
    hide Reg, Rol, F, K, Increased, Total;
    IncreasedIsTotal(r.e, f, w, k, Rol(r.a, 5));
    FiveDistinct(t);
    Rotates(s, t, w, r);
  }

  /** Rounds 0 to 15 use the words of the block as they stand. */
  method Phase1(a: array<word>, b: array<word>, ghost h: Registers)
    requires a.Length == 5 && b.Length == 16 && a != b
    requires Holds(a[..], 0, h)
    modifies a
    ensures Holds(a[..], 16, Rounds(h, b[..], 16))
  {
    hide Reg, Slot, Rol, Choose, F, K, Round, Holds, Increased, RoundUses;
    for i := 0 to 16
      invariant Holds(a[..], i, Rounds(h, b[..], i))
    {
      ghost var s := a[..];
      a[Reg(i)] := Increased(a[Reg(i)], Choose(a[Reg(3 + i)], a[Reg(2 + i)], a[Reg(1 + i)]),
        b[i], 0x5a827999, Rol(a[Reg(4 + i)], 5));
      ghost var x := a[Reg(i)];
      FiveDistinct(i);
      a[Reg(3 + i)] := Rol(a[Reg(3 + i)], 30);
      FirstRounds(s, i);
      RoundTurns(s, i, b[i], Rounds(h, b[..], i), Choose(s[Reg(i + 3)], s[Reg(i + 2)], s[Reg(i + 1)]), 0x5a827999);
      assert a[..] == s[Reg(i) := x][Reg(i + 3) := Rol(s[Reg(i + 3)], 30)];
    }
  }

  lemma SamePlace(p: nat, t: nat, q: nat)
    requires t == p + 5 * q
    ensures Reg(t) == Reg(p)
  {
  }

  lemma SamePlaces(p: nat, t: nat, q: nat)
    requires t == p + 5 * q
    ensures Reg(t) == Reg(p) && Reg(t + 1) == Reg(p + 1) && Reg(t + 2) == Reg(p + 2)
    ensures Reg(t + 3) == Reg(p + 3) && Reg(t + 4) == Reg(p + 4)
  {
    hide Reg;
    SamePlace(p, t, q);
    SamePlace(p + 1, t + 1, q);
    SamePlace(p + 2, t + 2, q);
    SamePlace(p + 3, t + 3, q);
    SamePlace(p + 4, t + 4, q);
  }

  lemma SameSlot(p: nat, t: nat, q: nat)
    requires t == p + 16 * q
    ensures Slot(t) == Slot(p) && (p < 16 ==> Slot(p) == p)
  {
  }

  /** Round `t` on the array is round `t` of the standard, once its ring word is word `t` of the schedule. */
  lemma NextRound(s: seq<word>, a: seq<word>, t: nat, m: seq<word>, h: Registers, f: word, k: word)
    requires |m| == 16 && Holds(s, t, Rounds(h, m, t)) && RoundUses(s, t, f, k)
    requires |a| == 5
    requires a == s[Reg(t) := Increased(s[Reg(t)], f, Schedule(m, t), k, Rol(s[Reg(t + 4)], 5))]
      [Reg(t + 3) := Rol(s[Reg(t + 3)], 30)]
    ensures Holds(a, t + 1, Rounds(h, m, t + 1))
  {
    hide Reg, Rol, Round, RoundUses, Increased, Schedule;
    RoundTurns(s, t, Schedule(m, t), Rounds(h, m, t), f, k);
  }

  /** Rounds 16 to 19 start to replace the words of the ring. */
  method Phase2(a: array<word>, b: array<word>, ghost h: Registers, ghost m: seq<word>)
    requires a.Length == 5 && b.Length == 16 && a != b && |m| == 16
    requires Holds(a[..], 16, Rounds(h, m, 16)) && Ring(b[..], m, 16)
    modifies a, b
    ensures Holds(a[..], 20, Rounds(h, m, 20)) && Ring(b[..], m, 20)
  {
    hide Reg, Slot, Rol, Choose, F, K, Round, Rounds, Holds, Ring, Blk, Increased, RoundUses, Schedule;
    for i := 0 to 4
      invariant Holds(a[..], 16 + i, Rounds(h, m, 16 + i)) && Ring(b[..], m, 16 + i)
    {
      ghost var t, s, u := 16 + i, a[..], b[..];
      b[i] := Blk(b[..], i);
      SameSlot(i, t, 1);
      assert b[..] == u[Slot(t) := Blk(u, Slot(t))];
      RingTurns(u, m, t);
      FirstRounds(s, t);
      SamePlaces(1 + i, t, 3);
      FiveDistinct(t);
      a[Reg(1 + i)] := Increased(a[Reg(1 + i)], Choose(a[Reg(4 + i)], a[Reg(3 + i)], a[Reg(2 + i)]),
        b[i], 0x5a827999, Rol(a[Reg(5 + i)], 5));
      a[Reg(4 + i)] := Rol(a[Reg(4 + i)], 30);
      NextRound(s, a[..], t, m, h, Choose(s[Reg(t + 3)], s[Reg(t + 2)], s[Reg(t + 1)]), 0x5a827999);
    }
  }

  /** Rounds 20 to 39. */
  method Phase3(a: array<word>, b: array<word>, ghost h: Registers, ghost m: seq<word>)
    requires a.Length == 5 && b.Length == 16 && a != b && |m| == 16
    requires Holds(a[..], 20, Rounds(h, m, 20)) && Ring(b[..], m, 20)
    modifies a, b
    ensures Holds(a[..], 40, Rounds(h, m, 40)) && Ring(b[..], m, 40)
  {
    hide Reg, Slot, Rol, Parity, F, K, Round, Rounds, Holds, Ring, Blk, Increased, RoundUses, Schedule;
    for i := 0 to 20
      invariant Holds(a[..], 20 + i, Rounds(h, m, 20 + i)) && Ring(b[..], m, 20 + i)
    {
      ghost var t, s, u := 20 + i, a[..], b[..];
      b[Slot(i + 4)] := Blk(b[..], Slot(i + 4));
      SameSlot(i + 4, t, 1);
      assert b[..] == u[Slot(t) := Blk(u, Slot(t))];
      RingTurns(u, m, t);
      ParityRounds(s, t);
      SamePlaces(i, t, 4);
      FiveDistinct(t);
      a[Reg(i)] := Increased(a[Reg(i)], Parity(a[Reg(3 + i)], a[Reg(2 + i)], a[Reg(1 + i)]),
        b[Slot(i + 4)], 0x6ed9eba1, Rol(a[Reg(4 + i)], 5));
      a[Reg(3 + i)] := Rol(a[Reg(3 + i)], 30);
      NextRound(s, a[..], t, m, h, Parity(s[Reg(t + 3)], s[Reg(t + 2)], s[Reg(t + 1)]), 0x6ed9eba1);
    }
  }

  /** Rounds 40 to 59. */
  method Phase4(a: array<word>, b: array<word>, ghost h: Registers, ghost m: seq<word>)
    requires a.Length == 5 && b.Length == 16 && a != b && |m| == 16
    requires Holds(a[..], 40, Rounds(h, m, 40)) && Ring(b[..], m, 40)
    modifies a, b
    ensures Holds(a[..], 60, Rounds(h, m, 60)) && Ring(b[..], m, 60)
  {
    hide Reg, Slot, Rol, Majority, F, K, Round, Rounds, Holds, Ring, Blk, Increased, RoundUses, Schedule;
    for i := 0 to 20
      invariant Holds(a[..], 40 + i, Rounds(h, m, 40 + i)) && Ring(b[..], m, 40 + i)
    {
      ghost var t, s, u := 40 + i, a[..], b[..];
      b[Slot(i + 8)] := Blk(b[..], Slot(i + 8));
      SameSlot(i + 8, t, 2);
      assert b[..] == u[Slot(t) := Blk(u, Slot(t))];
      RingTurns(u, m, t);
      MajorityRounds(s, t);
      SamePlaces(i, t, 8);
      FiveDistinct(t);
      a[Reg(i)] := Increased(a[Reg(i)], Majority(a[Reg(3 + i)], a[Reg(2 + i)], a[Reg(1 + i)]),
        b[Slot(i + 8)], 0x8f1bbcdc, Rol(a[Reg(4 + i)], 5));
      a[Reg(3 + i)] := Rol(a[Reg(3 + i)], 30);
      NextRound(s, a[..], t, m, h, Majority(s[Reg(t + 3)], s[Reg(t + 2)], s[Reg(t + 1)]), 0x8f1bbcdc);
    }
  }

  /** Rounds 60 to 79. */
  method Phase5(a: array<word>, b: array<word>, ghost h: Registers, ghost m: seq<word>)
    requires a.Length == 5 && b.Length == 16 && a != b && |m| == 16
    requires Holds(a[..], 60, Rounds(h, m, 60)) && Ring(b[..], m, 60)
    modifies a, b
    ensures Holds(a[..], 80, Rounds(h, m, 80)) && Ring(b[..], m, 80)
  {
    hide Reg, Slot, Rol, Parity, F, K, Round, Rounds, Holds, Ring, Blk, Increased, RoundUses, Schedule;
    for i := 0 to 20
      invariant Holds(a[..], 60 + i, Rounds(h, m, 60 + i)) && Ring(b[..], m, 60 + i)
    {
      ghost var t, s, u := 60 + i, a[..], b[..];
      b[Slot(i + 12)] := Blk(b[..], Slot(i + 12));
      SameSlot(i + 12, t, 3);
      assert b[..] == u[Slot(t) := Blk(u, Slot(t))];
      RingTurns(u, m, t);
      ParityRounds(s, t);
      SamePlaces(i, t, 12);
      FiveDistinct(t);
      a[Reg(i)] := Increased(a[Reg(i)], Parity(a[Reg(3 + i)], a[Reg(2 + i)], a[Reg(1 + i)]),
        b[Slot(i + 12)], 0xca62c1d6, Rol(a[Reg(4 + i)], 5));
      a[Reg(3 + i)] := Rol(a[Reg(3 + i)], 30);
      NextRound(s, a[..], t, m, h, Parity(s[Reg(t + 3)], s[Reg(t + 2)], s[Reg(t + 1)]), 0xca62c1d6);
    }
  }

  /** The hash value held in an array. */
  function State(h: seq<word>): (r: Registers)
    requires |h| == 5
  {
    Registers(h[0], h[1], h[2], h[3], h[4])
  }

  lemma RingOfBlock(m: seq<word>)
    requires |m| == 16
    ensures Ring(m, m, 16)
  {
  }

  lemma Held(s: seq<word>, t: nat, r: Registers)
    requires Holds(s, t, r) && t % 5 == 0
    ensures s == [r.e, r.d, r.c, r.b, r.a]
  {
  }

  lemma Holding(s: seq<word>, r: Registers)
    requires s == [r.e, r.d, r.c, r.b, r.a]
    ensures Holds(s, 0, r)
  {
  }

  /** The last step: the registers, read backwards, are added to the hash value. */
  method AddBack(hash: array<word>, a: array<word>)
    requires hash.Length == 5 && a.Length == 5 && hash != a
    modifies hash
    ensures forall k :: 0 <= k < 5 ==> hash[k] == Add(old(hash[k]), a[4 - k])
  {
    hide Add;
    for i := 0 to 5
      invariant forall k :: 0 <= k < 5 ==> hash[k] == if k < i then Add(old(hash[k]), a[4 - k]) else old(hash[k])
    {
      hash[i] := Add(hash[i], a[4 - i]);
    }
  }

  /** The five groups of rounds: 80 rounds of the standard. */
  method AllRounds(a: array<word>, b: array<word>, ghost h: Registers)
    requires a.Length == 5 && b.Length == 16 && a != b
    requires Holds(a[..], 0, h)
    modifies a, b
    ensures Holds(a[..], 80, Rounds(h, old(b[..]), 80))
  {
    hide Holds, Ring, Rounds;
    ghost var m := b[..];
    RingOfBlock(m);
    Phase1(a, b, h);
    Phase2(a, b, h, m);
    Phase3(a, b, h, m);
    Phase4(a, b, h, m);
    Phase5(a, b, h, m);
  }

  /** `sha1`: the in-place rounds add up to one compression step of the standard. */
  method CompressInPlace(hash: array<word>, b: array<word>)
    requires hash.Length == 5 && b.Length == 16 && hash != b
    modifies hash, b
    ensures State(hash[..]) == Compress(State(old(hash[..])), old(b[..]))
  {
    hide Holds, Rounds, Add;
    ghost var h, m := State(hash[..]), b[..];
    var a := new word[5] [hash[4], hash[3], hash[2], hash[1], hash[0]];
    Holding(a[..], h);
    AllRounds(a, b, h);
    ghost var x := Rounds(h, m, 80);
    Held(a[..], 80, x);
    assert a[0] == a[..][0] && a[1] == a[..][1] && a[2] == a[..][2] && a[3] == a[..][3] && a[4] == a[..][4];
    AddBack(hash, a);
  }

  // The shifts of the unrolled encoder.
  function Shift0(a: octet): (d: bv8) ensures d < 64 { (a >> 2) & 63 }
  function Shift1(a: octet, b: octet): (d: bv8) ensures d < 64 { ((a & 3) << 4) | ((b & 240) >> 4) }
  function Shift2(b: octet, c: octet): (d: bv8) ensures d < 64 { ((b & 15) << 2) | ((c & 192) >> 6) }
  function Shift3(c: octet): (d: bv8) ensures d < 64 { c & 63 }
  function ShiftLast(b: octet): (d: bv8) ensures d < 64 { (b & 15) << 2 }

  lemma ShiftBits(a: octet, b: octet, c: octet)
    ensures Digit(Group(a, b, c), 0) == Shift0(a)
    ensures Digit(Group(a, b, c), 1) == Shift1(a, b)
    ensures Digit(Group(a, b, c), 2) == Shift2(b, c)
    ensures Digit(Group(a, b, c), 3) == Shift3(c)
    ensures Shift2(b, 0) == ShiftLast(b)
  {
  }

  lemma EncodeFrom(s: seq<octet>, i: nat)
    requires i + 3 <= |s|
    ensures Encode(s[i..]) ==
      [Letter(Shift0(s[i])), Letter(Shift1(s[i], s[i + 1])),
       Letter(Shift2(s[i + 1], s[i + 2])), Letter(Shift3(s[i + 2]))]
      + Encode(s[i + 3..])
  {
    hide Letter, Digit, Group, Shift0, Shift1, Shift2, Shift3, ShiftLast;
    ShiftBits(s[i], s[i + 1], s[i + 2]);
    assert s[i..][3..] == s[i + 3..];
  }

  lemma EncodeLastTwo(s: seq<octet>)
    requires |s| >= 2
    ensures Encode(s[|s| - 2..])
      == [Letter(Shift0(s[|s| - 2])), Letter(Shift1(s[|s| - 2], s[|s| - 1])), Letter(ShiftLast(s[|s| - 1])), '=']
  {
    hide Letter, Digit, Group, Shift0, Shift1, Shift2, Shift3, ShiftLast;
    ShiftBits(s[|s| - 2], s[|s| - 1], 0);
  }

  /** Writes four characters at `d`. */
  method Put(dst: array<char>, d: nat, p: char, q: char, r: char, s: char)
    requires d + 4 <= dst.Length
    modifies dst
    ensures dst[..d + 4] == old(dst[..d]) + [p, q, r, s]
  {
    dst[d] := p;
    dst[d + 1] := q;
    dst[d + 2] := r;
    dst[d + 3] := s;
  }

  /** The unrolled encoder of 20 octets agrees with the general one. */
  method EncodeTwenty(src: array<octet>, dst: array<char>)
    requires src.Length == 20 && dst.Length == 28
    modifies dst
    ensures dst[..] == Encode(src[..])
  {
    hide Encode, Letter, Shift0, Shift1, Shift2, Shift3, ShiftLast;
    ghost var s := src[..];
    var d, i := 0, 0;
    assert s[0..] == s;
    while i < 18
      invariant 0 <= i <= 18 && i % 3 == 0 && d == i / 3 * 4
      invariant dst[..d] + Encode(s[i..]) == Encode(s)
    {
      EncodeFrom(s, i);
      Put(dst, d, Letter(Shift0(src[i])), Letter(Shift1(src[i], src[i + 1])),
        Letter(Shift2(src[i + 1], src[i + 2])), Letter(Shift3(src[i + 2])));
      d, i := d + 4, i + 3;
    }
    EncodeLastTwo(s);
    Put(dst, d, Letter(Shift0(src[18])), Letter(Shift1(src[18], src[19])), Letter(ShiftLast(src[19])), '=');
    assert dst[..] == dst[..28];
  }

  const Guid: seq<octet> := [
    0x32, 0x35, 0x38, 0x45, 0x41, 0x46, 0x41, 0x35, 0x2d, 0x45, 0x39, 0x31, 0x34, 0x2d, 0x34, 0x37, 0x44, 0x41,
    0x2d, 0x39, 0x35, 0x43, 0x41, 0x2d, 0x43, 0x35, 0x41, 0x42, 0x30, 0x44, 0x43, 0x38, 0x35, 0x42, 0x31, 0x31]

  /** The characters of a string up to its first NUL. */
  function CString(s: seq<octet>): (r: seq<octet>)
    ensures r <= s
    ensures forall i :: 0 <= i < |r| ==> r[i] != 0
    ensures |r| < |s| ==> s[|r|] == 0
  {
    if s == [] || s[0] == 0 then [] else [s[0]] + CString(s[1..])
  }

  /** The 24 characters the generator reads from a key. */
  function KeyRead(s: seq<octet>): (r: seq<octet>)
    ensures |r| == 24
  {
    var c := CString(s);
    seq(24, i requires 0 <= i < 24 => if i < |c| then c[i] else 0)
  }

  /** The generator reads exactly the key given iff it has 24 characters and nothing follows a NUL. */
  lemma KeyKept(s: seq<octet>)
    ensures KeyRead(s) == s <==> |s| == 24 && forall i, j :: 0 <= i < j < |s| && s[i] == 0 ==> s[j] == 0
  {
    var c := CString(s);
    if |s| == 24 && forall i, j :: 0 <= i < j < |s| && s[i] == 0 ==> s[j] == 0 {
      assert forall i :: 0 <= i < |c| ==> c[i] == s[i];
      assert |KeyRead(s)| == |s| && forall i :: 0 <= i < |s| ==> KeyRead(s)[i] == s[i];
    }
    if KeyRead(s) == s {
      forall i, j | 0 <= i < j < |s| && s[i] == 0 ensures s[j] == 0 {
        assert forall k :: 0 <= k < |c| ==> c[k] == s[k];
        assert KeyRead(s)[j] == 0;
      }
    }
  }

  /** The words of the first block that do not come from the key. */
  const FixedWords: seq<word> :=
    [0x32353845, 0x41464135, 0x2d453931, 0x342d3437, 0x44412d39,
     0x3543412d, 0x43354142, 0x30444338, 0x35423131, 0x80000000]

  /** The first block of the generator: the key, the GUID and the padding bit. */
  function FirstBlock(key: seq<octet>): (m: seq<word>)
    requires |key| == 24
    ensures |m| == 16
  {
    seq(6, i requires 0 <= i < 6 => Word(key[4 * i], key[4 * i + 1], key[4 * i + 2], key[4 * i + 3]))
      + FixedWords
  }

  const LastBlock: seq<word> := [0, 0, 0, 0, 0, 0, 0, 0, 0, 0, 0, 0, 0, 0, 0, 480]

  lemma GuidWords()
    ensures Word(0x32, 0x35, 0x38, 0x45) == 0x32353845 && Word(0x41, 0x46, 0x41, 0x35) == 0x41464135
    ensures Word(0x2d, 0x45, 0x39, 0x31) == 0x2d453931 && Word(0x34, 0x2d, 0x34, 0x37) == 0x342d3437
    ensures Word(0x44, 0x41, 0x2d, 0x39) == 0x44412d39 && Word(0x35, 0x43, 0x41, 0x2d) == 0x3543412d
    ensures Word(0x43, 0x35, 0x41, 0x42) == 0x43354142 && Word(0x30, 0x44, 0x43, 0x38) == 0x30444338
    ensures Word(0x35, 0x42, 0x31, 0x31) == 0x35423131 && Word(0x80, 0, 0, 0) == 0x80000000
  {
  }

  lemma LengthWords()
    ensures Word(0, 0, 0, 0) == 0 && Word(0, 0, 0x01, 0xe0) == 480
  {
  }

  lemma OctetOf(n: nat, k: nat)
    requires k > 0
    ensures BigEndian(n, k) == BigEndian(n / 256, k - 1) + [(n % 256) as bv8]
  {
  }

  lemma SmallOctets()
    ensures (0 as bv8) == 0 && (1 as bv8) == 1 && (224 as bv8) == 0xe0
  {
  }

  lemma {:induction false} NoOctets(k: nat)
    ensures BigEndian(0, k) == Zeros(k)
  {
    SmallOctets();
    if k > 0 {
      OctetOf(0, k);
      NoOctets(k - 1);
    }
  }

  lemma LengthOctets()
    ensures BigEndian(480, 8) == [0, 0, 0, 0] + [0, 0, 0x01, 0xe0]
  {
    hide BigEndian;
    SmallOctets();
    NoOctets(6);
    OctetOf(1, 7);
    OctetOf(480, 8);
  }

  lemma PaddedSixty(s: seq<octet>)
    requires |s| == 60
    ensures Padded(s) == s + [0x80, 0, 0, 0] + Zeros(56) + [0, 0, 0, 0] + [0, 0, 0x01, 0xe0]
  {
    hide BigEndian, Zeros;
    LengthOctets();
    ZeroRun();
    assert Padded(s) == s + [0x80] + Zeros(59) + [0, 0, 0, 0] + [0, 0, 0x01, 0xe0];
    assert s + [0x80] + Zeros(59) == s + ([0x80] + Zeros(59));
  }

  lemma ZeroRun()
    ensures [0x80] + Zeros(59) == [0x80, 0, 0, 0] + Zeros(56)
  {
  }

  /** The padding of a 24-character key and the GUID comes out as the generator's two constant-filled blocks. */
  lemma TwoBlocks(key: seq<octet>)
    requires |key| == 24
    ensures |Padded(key + Guid)| == 128
    ensures Block(Padded(key + Guid)[..64]) == FirstBlock(key)
    ensures Block(Padded(key + Guid)[64..]) == LastBlock
  {
    hide Word;
    PaddedSixty(key + Guid);
    GuidWords();
    LengthWords();
    var first := key + Guid + [0x80, 0, 0, 0];
    assert Padded(key + Guid)[..64] == first;
    var last := Zeros(56) + [0, 0, 0, 0] + [0, 0, 0x01, 0xe0];
    assert Padded(key + Guid)[64..] == last;
    GuidBlock(first, key);
    LengthBlock(last);
  }

  lemma FixedWord(j: nat)
    requires j < 10
    ensures var tail := Guid + [0x80, 0, 0, 0];
      Word(tail[4 * j], tail[4 * j + 1], tail[4 * j + 2], tail[4 * j + 3]) == FixedWords[j]
  {
    hide Word;
    GuidWords();
    if j < 5 {
      if j == 0 {} else if j == 1 {} else if j == 2 {} else if j == 3 {} else {}
    } else {
      if j == 5 {} else if j == 6 {} else if j == 7 {} else if j == 8 {} else {}
    }
  }

  lemma BlockOfParts(key: seq<octet>, tail: seq<octet>, fixed: seq<word>)
    requires |key| == 24 && |tail| == 40 && |fixed| == 10
    requires forall j :: 0 <= j < 10 ==>
      Word(tail[4 * j], tail[4 * j + 1], tail[4 * j + 2], tail[4 * j + 3]) == fixed[j]
    ensures Block(key + tail)
      == seq(6, i requires 0 <= i < 6 => Word(key[4 * i], key[4 * i + 1], key[4 * i + 2], key[4 * i + 3])) + fixed
  {
    hide Word;
    var s := key + tail;
    forall i | 6 <= i < 16 ensures Block(s)[i] == fixed[i - 6] {
      var j := i - 6;
      assert s[4 * i] == tail[4 * j] && s[4 * i + 1] == tail[4 * j + 1]
        && s[4 * i + 2] == tail[4 * j + 2] && s[4 * i + 3] == tail[4 * j + 3];
    }
  }

  lemma GuidBlock(s: seq<octet>, key: seq<octet>)
    requires |key| == 24 && s == key + Guid + [0x80, 0, 0, 0]
    ensures Block(s) == FirstBlock(key)
  {
    hide Word, Block;
    var tail := Guid + [0x80, 0, 0, 0];
    assert s == key + tail;
    forall j | 0 <= j < 10
      ensures Word(tail[4 * j], tail[4 * j + 1], tail[4 * j + 2], tail[4 * j + 3]) == FixedWords[j] {
      FixedWord(j);
    }
    BlockOfParts(key, tail, FixedWords);
  }

  lemma LengthBlock(s: seq<octet>)
    requires s == Zeros(56) + [0, 0, 0, 0] + [0, 0, 0x01, 0xe0]
    ensures Block(s) == LastBlock
  {
    hide Word;
    LengthWords();
    forall i | 0 <= i < 16 ensures Block(s)[i] == LastBlock[i] {
    }
  }

  lemma HashTwo(h: Registers, s: seq<octet>)
    requires |s| == 128
    ensures HashBlocks(h, s) == Compress(Compress(h, Block(s[..64])), Block(s[64..]))
  {
    hide Compress, Block;
    var g := Compress(h, Block(s[..64]));
    assert s[64..][..64] == s[64..] && s[64..][64..] == [];
    assert HashBlocks(g, s[64..]) == HashBlocks(Compress(g, Block(s[64..])), []);
  }

  /** `strncpy` of at most 24 characters into a zeroed buffer. */
  method ReadKey(inputStr: seq<octet>) returns (input: array<octet>)
    ensures fresh(input) && input.Length == 25
    ensures input[..24] == KeyRead(inputStr) && input[24] == 0
  {
    input := new octet[25](_ => 0);
    var c := CString(inputStr);
    var i := 0;
    while i < 24 && i < |c|
      invariant 0 <= i <= 24 && i <= |c|
      invariant forall k :: 0 <= k < 25 ==> input[k] == if k < i then c[k] else 0
    {
      input[i] := c[i];
      i := i + 1;
    }
    input[24] := 0;
  }

  lemma FirstBlockIs(key: seq<octet>, b: seq<word>)
    requires |key| == 24 && |b| == 16
    requires forall k :: 6 <= k < 16 ==> b[k] == FixedWords[k - 6]
    requires forall k :: 0 <= k < 6 ==> b[k] == Word(key[4 * k], key[4 * k + 1], key[4 * k + 2], key[4 * k + 3])
    ensures b == FirstBlock(key)
  {
    hide Word;
  }

  /** The words of the first block, those of the key read big-endian. */
  method FillFirstBlock(input: array<octet>) returns (b: array<word>)
    requires input.Length == 25
    ensures fresh(b) && b[..] == FirstBlock(input[..24])
  {
    hide Word, FirstBlock;
    b := new word[16] [0, 0, 0, 0, 0, 0,
      0x32353845, 0x41464135, 0x2d453931, 0x342d3437, 0x44412d39,
      0x3543412d, 0x43354142, 0x30444338, 0x35423131, 0x80000000];
    assert forall k :: 6 <= k < 16 ==> b[k] == FixedWords[k - 6];
    for i := 0 to 6
      invariant forall k :: 6 <= k < 16 ==> b[k] == FixedWords[k - 6]
      invariant forall k :: 0 <= k < i ==>
        b[k] == Word(input[4 * k], input[4 * k + 1], input[4 * k + 2], input[4 * k + 3])
    {
      b[i] := Word(input[4 * i], input[4 * i + 1], input[4 * i + 2], input[4 * i + 3]);
    }
    FirstBlockIs(input[..24], b[..]);
  }

  /** Writes a word at `at`, the most significant octet first. */
  method PutWord(src: array<octet>, at: nat, w: word)
    requires at + 4 <= src.Length
    modifies src
    ensures src[..at + 4] == old(src[..at]) + WordOctets(w)
  {
    hide WordOctets;
    var bytes := WordOctets(w);
    src[at + 3] := bytes[3];
    src[at + 2] := bytes[2];
    src[at + 1] := bytes[1];
    src[at] := bytes[0];
  }

  function Laid(ws: seq<word>): (r: seq<octet>)
    ensures |r| == 4 * |ws|
  {
    if ws == [] then [] else Laid(ws[..|ws| - 1]) + WordOctets(ws[|ws| - 1])
  }

  lemma LaidIsDigest(h: seq<word>)
    requires |h| == 5
    ensures Laid(h) == Digest(State(h))
  {
    hide WordOctets;
    assert h[..4][..3] == h[..3] && h[..3][..2] == h[..2] && h[..2][..1] == h[..1] && h[..1][..0] == [];
    assert Laid(h[..1]) == WordOctets(h[0]);
    assert Laid(h[..2]) == Laid(h[..1]) + WordOctets(h[1]);
    assert Laid(h[..3]) == Laid(h[..2]) + WordOctets(h[2]);
    assert Laid(h[..4]) == Laid(h[..3]) + WordOctets(h[3]);
  }

  /** The hash words laid out as big-endian octets. */
  method LayOut(hash: array<word>) returns (src: array<octet>)
    requires hash.Length == 5
    ensures fresh(src) && src.Length == 20 && src[..] == Digest(State(hash[..]))
  {
    hide WordOctets;
    src := new octet[20](_ => 0);
    for i := 0 to 5
      invariant src[..4 * i] == Laid(hash[..i])
    {
      PutWord(src, 4 * i, hash[i]);
      assert hash[..i + 1][..i] == hash[..i];
    }
    assert hash[..] == hash[..5] && src[..] == src[..20];
    LaidIsDigest(hash[..]);
  }

  /** The accept value of section 4.2.2 of RFC 6455: base64 of the SHA-1 of the key read and the GUID. */
  method Generate(inputStr: seq<octet>, output: array<char>)
    requires output.Length == 28
    modifies output
    ensures output[..] == Encode(Sha1(KeyRead(inputStr) + Guid))
  {
    hide Encode, Compress, KeyRead, Digest, FirstBlock, HashBlocks, Padded, Block;
    var input := ReadKey(inputStr);
    var hash := new word[5] [0x67452301, 0xefcdab89, 0x98badcfe, 0x10325476, 0xc3d2e1f0];
    assert State(hash[..]) == Initial;
    var b := FillFirstBlock(input);
    CompressInPlace(hash, b);
    var last := new word[16] [0, 0, 0, 0, 0, 0, 0, 0, 0, 0, 0, 0, 0, 0, 0, 480];
    assert last[..] == LastBlock;
    CompressInPlace(hash, last);
    TwoBlocks(KeyRead(inputStr));
    HashTwo(Initial, Padded(KeyRead(inputStr) + Guid));
    var src := LayOut(hash);
    EncodeTwenty(src, output);
  }
}

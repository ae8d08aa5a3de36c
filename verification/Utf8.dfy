/** The grammar of section 4 of RFC 3629 and the scalar encoding of its section 3. */
module Utf8Grammar {
  import opened Bytes

  predicate Tail(b: byte) { 0x80 <= b <= 0xBF }

  /** UTF8-char: one of the alternatives UTF8-1 to UTF8-4. */
  predicate IsChar(s: bytes) {
    || (|s| == 1 && s[0] <= 0x7F)
    || (|s| == 2 && 0xC2 <= s[0] <= 0xDF && Tail(s[1]))
    || (|s| == 3 && s[0] == 0xE0 && 0xA0 <= s[1] <= 0xBF && Tail(s[2]))
    || (|s| == 3 && (0xE1 <= s[0] <= 0xEC || 0xEE <= s[0] <= 0xEF) && Tail(s[1]) && Tail(s[2]))
    || (|s| == 3 && s[0] == 0xED && 0x80 <= s[1] <= 0x9F && Tail(s[2]))
    || (|s| == 4 && s[0] == 0xF0 && 0x90 <= s[1] <= 0xBF && Tail(s[2]) && Tail(s[3]))
    || (|s| == 4 && 0xF1 <= s[0] <= 0xF3 && Tail(s[1]) && Tail(s[2]) && Tail(s[3]))
    || (|s| == 4 && s[0] == 0xF4 && 0x80 <= s[1] <= 0x8F && Tail(s[2]) && Tail(s[3]))
  }

  /** `cs` splits `s` into characters of the grammar. */
  ghost predicate IsParse(cs: seq<bytes>, s: bytes) {
    (forall i | 0 <= i < |cs| :: IsChar(cs[i])) && Flatten(cs) == s
  }

  /** UTF8-octets: any number of characters. */
  ghost predicate IsString(s: bytes) { exists cs :: IsParse(cs, s) }

  predicate IsScalar(v: nat) { v <= 0xD7FF || 0xE000 <= v <= 0x10FFFF }

  /** The octets that section 3 of RFC 3629 assigns to a Unicode scalar value. */
  function EncodeScalar(v: nat): (s: bytes)
    requires IsScalar(v)
    ensures IsChar(s)
  {
    if v <= 0x7F then [v]
    else if v <= 0x7FF then [0xC0 + v / 64, 0x80 + v % 64]
    else if v <= 0xFFFF then [0xE0 + v / 64 / 64, 0x80 + v / 64 % 64, 0x80 + v % 64]
    else [0xF0 + v / 64 / 64 / 64, 0x80 + v / 64 / 64 % 64, 0x80 + v / 64 % 64, 0x80 + v % 64]
  }

  /** Appends the six low bits of a tail octet. */
  function Shift6(v: nat, b: byte): (r: nat)
    requires Tail(b)
    ensures r / 64 == v && r % 64 == b - 0x80
  {
    64 * v + (b - 0x80)
  }

  /** The scalar value that a character stands for. */
  function Scalar(c: bytes): (v: nat)
    requires IsChar(c)
    ensures IsScalar(v)
  {
    if |c| == 1 then c[0]
    else if |c| == 2 then Shift6(c[0] - 0xC0, c[1])
    else if |c| == 3 then Shift6(Shift6(c[0] - 0xE0, c[1]), c[2])
    else Shift6(Shift6(Shift6(c[0] - 0xF0, c[1]), c[2]), c[3])
  }

  function ShiftAll(v: nat, t: bytes): nat
    requires forall i | 0 <= i < |t| :: Tail(t[i])
    decreases |t|
  {
    if t == [] then v else ShiftAll(Shift6(v, t[0]), t[1..])
  }

  lemma ScalarIsShift(c: bytes)
    requires IsChar(c) && |c| > 1
    ensures Scalar(c) == ShiftAll(c[0] - (if |c| == 2 then 0xC0 else if |c| == 3 then 0xE0 else 0xF0), c[1..])
  {
    var v := c[0] - if |c| == 2 then 0xC0 else if |c| == 3 then 0xE0 else 0xF0;
    var t := c[1..];
    assert ShiftAll(v, t) == ShiftAll(Shift6(v, t[0]), t[1..]);
    if |c| > 2 {
      assert t[1..][0] == c[2] && t[1..][1..] == c[3..];
      assert ShiftAll(v, t) == ShiftAll(Shift6(Shift6(v, c[1]), c[2]), c[3..]);
      if |c| > 3 {
        assert c[3..][1..] == [];
        assert ShiftAll(Shift6(Shift6(v, c[1]), c[2]), c[3..]) == Shift6(Shift6(Shift6(v, c[1]), c[2]), c[3]);
      }
    }
  }

  /** The characters of the grammar are exactly the encodings of the scalar values. */
  lemma CharsAreEncodedScalars(c: bytes)
    requires IsChar(c)
    ensures EncodeScalar(Scalar(c)) == c
  {
  }

  lemma ScalarOfEncoding(v: nat)
    requires IsScalar(v)
    ensures Scalar(EncodeScalar(v)) == v
  {
    assert v == 64 * (v / 64) + v % 64;
    assert v / 64 == 64 * (v / 64 / 64) + v / 64 % 64;
    assert v / 64 / 64 == 64 * (v / 64 / 64 / 64) + v / 64 / 64 % 64;
  }
}

/** The table-driven decoder of IXUtf8Validator.h. */
module Utf8Validator {
  import opened Bytes
  import opened Utf8Grammar

  const ACCEPT := 0
  const REJECT := 1

  type DfaState = n: int | 0 <= n < 9

  datatype Dfa = Dfa(state: DfaState, codepoint: nat)

  const START := Dfa(ACCEPT, 0)

  /** The first 256 entries of the lookup table, one range per run of equal entries. */
  function ByteClass(b: byte): (c: nat)
    ensures c < 12
  {
    if b < 0x80 then 0
    else if b < 0x90 then 1
    else if b < 0xA0 then 9
    else if b < 0xC0 then 7
    else if b < 0xC2 then 8
    else if b < 0xE0 then 2
    else if b == 0xE0 then 10
    else if b < 0xED then 3
    else if b == 0xED then 4
    else if b < 0xF0 then 3
    else if b == 0xF0 then 11
    else if b < 0xF4 then 6
    else if b == 0xF4 then 5
    else 8
  }

  /** The transition rows s0 to s8 of the lookup table. */
  function TransitionRow(state: DfaState): (row: seq<DfaState>)
    ensures |row| == 16
  {
    match state
    case 0 => [0, 1, 2, 3, 5, 8, 7, 1, 1, 1, 4, 6, 1, 1, 1, 1]
    case 1 => [1, 1, 1, 1, 1, 1, 1, 1, 1, 1, 1, 1, 1, 1, 1, 1]
    case 2 => [1, 0, 1, 1, 1, 1, 1, 0, 1, 0, 1, 1, 1, 1, 1, 1]
    case 3 => [1, 2, 1, 1, 1, 1, 1, 2, 1, 2, 1, 1, 1, 1, 1, 1]
    case 4 => [1, 1, 1, 1, 1, 1, 1, 2, 1, 1, 1, 1, 1, 1, 1, 1]
    case 5 => [1, 2, 1, 1, 1, 1, 1, 1, 1, 2, 1, 1, 1, 1, 1, 1]
    case 6 => [1, 1, 1, 1, 1, 1, 1, 3, 1, 3, 1, 1, 1, 1, 1, 1]
    case 7 => [1, 3, 1, 1, 1, 1, 1, 3, 1, 3, 1, 1, 1, 1, 1, 1]
    case 8 => [1, 3, 1, 1, 1, 1, 1, 1, 1, 1, 1, 1, 1, 1, 1, 1]
  }

  /** `(0xff >> type) & byte`. */
  function LeadBits(c: nat, b: byte): (r: nat) {
    if c <= 8 then b % Pow2(8 - c) else 0
  }

  /** decodeNextByte: the new codepoint is computed from the old state, in 32 bits. */
  function Step(d: Dfa, b: byte): (r: Dfa)
  {
    var c := ByteClass(b);
    var cp := if d.state != ACCEPT then b % 64 + d.codepoint * 64 % 0x1_0000_0000 else LeadBits(c, b);
    Dfa(TransitionRow(d.state)[c], cp)
  }

  /** decode: bytes are consumed until one of them rejects. */
  function Feed(d: Dfa, s: bytes): (r: Dfa)
    decreases |s|
  {
    if s == [] then d
    else
      var d' := Step(d, s[0]);
      if d'.state == REJECT then d' else Feed(d', s[1..])
  }

  predicate Valid(s: bytes) { Feed(START, s).state == ACCEPT }

  class Validator {
    var state: DfaState
    var codepoint: nat

    ghost function Value(): Dfa
      reads this
    {
      Dfa(state, codepoint)
    }

    constructor ()
      ensures Value() == START
    {
      state, codepoint := ACCEPT, 0;
    }

    method Consume(b: byte) returns (ok: bool)
      modifies this
      ensures Value() == Step(old(Value()), b)
      ensures ok <==> state != REJECT
    {
      var c := ByteClass(b);
      codepoint := if state != ACCEPT then b % 64 + codepoint * 64 % 0x1_0000_0000 else LeadBits(c, b);
      state := TransitionRow(state)[c];
      ok := state != REJECT;
    }

    method Decode(s: bytes) returns (ok: bool)
      modifies this
      ensures Value() == Feed(old(Value()), s)
      ensures s != [] ==> (ok <==> state != REJECT)
      ensures s == [] ==> ok
    {
      ok := true;
      for i := 0 to |s|
        invariant ok
        invariant Feed(Value(), s[i..]) == Feed(old(Value()), s)
        invariant i > 0 ==> state != REJECT
      {
        assert s[i..][1..] == s[i + 1..];
        ok := Consume(s[i]);
        if !ok {
          return;
        }
      }
    }

    method Complete() returns (r: bool)
      ensures r <==> state == ACCEPT
    {
      r := state == ACCEPT;
    }

    method Reset()
      modifies this
      ensures Value() == START
    {
      state, codepoint := ACCEPT, 0;
    }
  }

  /** validateUtf8. */
  method ValidateUtf8(s: bytes) returns (r: bool)
    ensures r <==> IsString(s)
  {
    var v := new Validator();
    var ok := v.Decode(s);
    ValidIffString(s);
    if !ok {
      return false;
    }
    r := v.Complete();
  }

  /** The rejecting state is never left. */
  lemma {:induction false} RejectAbsorbs(d: Dfa, s: bytes)
    requires d.state == REJECT
    ensures Feed(d, s).state == REJECT
  {
    if s != [] {
      assert Step(d, s[0]).state == REJECT;
    }
  }

  /** Decoding in two pieces agrees with decoding the whole. */
  lemma {:induction false} FeedAppend(d: Dfa, a: bytes, b: bytes)
    ensures Feed(Feed(d, a), b).state == Feed(d, a + b).state
    ensures Feed(d, a).state != REJECT ==> Feed(Feed(d, a), b) == Feed(d, a + b)
    decreases |a|
  {
    if a == [] {
      assert a + b == b;
    } else {
      assert (a + b)[1..] == a[1..] + b;
      var d' := Step(d, a[0]);
      if d'.state == REJECT {
        RejectAbsorbs(d', b);
      } else {
        FeedAppend(d', a[1..], b);
      }
    }
  }

  lemma FeedOne(d: Dfa, b: byte, rest: bytes)
    ensures Step(d, b).state != REJECT ==> Feed(d, [b] + rest) == Feed(Step(d, b), rest)
    ensures Step(d, b).state == REJECT ==> Feed(d, [b] + rest).state == REJECT
  {
    assert ([b] + rest)[1..] == rest;
  }

  /** The transition table, state by state. */
  lemma Transitions(d: Dfa, b: byte)
    ensures d.state == 2 ==> Step(d, b).state == if Tail(b) then 0 else 1
    ensures d.state == 3 ==> Step(d, b).state == if Tail(b) then 2 else 1
    ensures d.state == 4 ==> Step(d, b).state == if 0xA0 <= b <= 0xBF then 2 else 1
    ensures d.state == 5 ==> Step(d, b).state == if 0x80 <= b <= 0x9F then 2 else 1
    ensures d.state == 6 ==> Step(d, b).state == if 0x90 <= b <= 0xBF then 3 else 1
    ensures d.state == 7 ==> Step(d, b).state == if Tail(b) then 3 else 1
    ensures d.state == 8 ==> Step(d, b).state == if 0x80 <= b <= 0x8F then 3 else 1
  {
  }

  lemma LeadTransitions(d: Dfa, b: byte)
    requires d.state == ACCEPT
    ensures Step(d, b).state ==
            if b <= 0x7F then 0
            else if 0xC2 <= b <= 0xDF then 2
            else if b == 0xE0 then 4
            else if b == 0xED then 5
            else if 0xE1 <= b <= 0xEF then 3
            else if b == 0xF0 then 6
            else if 0xF1 <= b <= 0xF3 then 7
            else if b == 0xF4 then 8
            else 1
    ensures Step(d, b).state != REJECT ==>
            Step(d, b).codepoint ==
            if b <= 0x7F then b else if b <= 0xDF then b - 0xC0 else if b <= 0xEF then b - 0xE0 else b - 0xF0
  {
    Pow2Values();
    assert Pow2(5) == 32 && Pow2(3) == 8 && Pow2(2) == 4;
  }

  /** Off the accepting state a tail octet shifts six bits into the codepoint. */
  lemma TailShifts(d: Dfa, b: byte)
    requires d.state != ACCEPT && Tail(b) && d.codepoint < 0x400_0000
    ensures Step(d, b).codepoint == Shift6(d.codepoint, b)
  {
  }

  /** The first octet of a character leads to the state that expects the others. */
  lemma LeadsToTails(d: Dfa, c: bytes)
    requires d.state == ACCEPT && IsChar(c)
    ensures var d' := Step(d, c[0]);
            if |c| == 1 then d' == Dfa(ACCEPT, Scalar(c)) && c[1..] == []
            else IsTails(d'.state, c[1..]) && d'.state != REJECT && 2 <= |c| <= 4
                 && d'.codepoint == c[0] - (if |c| == 2 then 0xC0 else if |c| == 3 then 0xE0 else 0xF0)
                 && d'.codepoint < 0x40
  {
    hide Step;
    LeadTransitions(d, c[0]);
  }

  /** One character of the grammar takes the decoder from accept to accept, leaving its scalar value. */
  lemma CharAccepts(d: Dfa, c: bytes, rest: bytes)
    requires d.state == ACCEPT && IsChar(c)
    ensures Feed(d, c + rest) == Feed(Dfa(ACCEPT, Scalar(c)), rest)
  {
    hide Step, IsTails, Scalar;
    LeadsToTails(d, c);
    assert c + rest == [c[0]] + (c[1..] + rest);
    FeedOne(d, c[0], c[1..] + rest);
    if |c| == 1 {
      assert c[1..] + rest == rest;
    } else {
      ScalarIsShift(c);
      TailsAccept(Step(d, c[0]), c[1..], rest);
    }
  }

  /** What is left of a character after its first octet, from the state that octet led to. */
  predicate IsTails(state: DfaState, t: bytes) {
    || (state == 2 && |t| == 1 && Tail(t[0]))
    || (state == 3 && |t| == 2 && Tail(t[0]) && Tail(t[1]))
    || (state == 4 && |t| == 2 && 0xA0 <= t[0] <= 0xBF && Tail(t[1]))
    || (state == 5 && |t| == 2 && 0x80 <= t[0] <= 0x9F && Tail(t[1]))
    || (state == 6 && |t| == 3 && 0x90 <= t[0] <= 0xBF && Tail(t[1]) && Tail(t[2]))
    || (state == 7 && |t| == 3 && Tail(t[0]) && Tail(t[1]) && Tail(t[2]))
    || (state == 8 && |t| == 3 && 0x80 <= t[0] <= 0x8F && Tail(t[1]) && Tail(t[2]))
  }

  lemma {:induction false} TailsAccept(d: Dfa, t: bytes, rest: bytes)
    requires IsTails(d.state, t)
    requires d.codepoint < if |t| == 3 then 0x40 else if |t| == 2 then 0x1000 else 0x4_0000
    ensures Feed(d, t + rest) == Feed(Dfa(ACCEPT, ShiftAll(d.codepoint, t)), rest)
    decreases |t|
  {
    var d' := TailAccepts(d, t, rest);
    if |t| == 1 {
      assert t[1..] + rest == rest;
      assert ShiftAll(d.codepoint, t) == d'.codepoint;
    } else {
      TailsAccept(d', t[1..], rest);
    }
  }

  lemma TailAccepts(d: Dfa, t: bytes, rest: bytes) returns (d': Dfa)
    requires IsTails(d.state, t) && d.codepoint < 0x400_0000
    ensures d' == Dfa(d'.state, Shift6(d.codepoint, t[0]))
    ensures if |t| == 1 then d'.state == ACCEPT && t[1..] == [] else IsTails(d'.state, t[1..])
    ensures Feed(d, t + rest) == Feed(d', t[1..] + rest)
  {
    d' := Step(d, t[0]);
    Transitions(d, t[0]);
    TailShifts(d, t[0]);
    assert t + rest == [t[0]] + (t[1..] + rest);
    FeedOne(d, t[0], t[1..] + rest);
  }

  /** A nonempty accepted string begins with a character of the grammar. */
  lemma AcceptedStartsWithChar(d: Dfa, s: bytes) returns (k: nat)
    requires d.state == ACCEPT && s != [] && Feed(d, s).state == ACCEPT
    ensures 0 < k <= |s| && IsChar(s[..k])
  {
    LeadTransitions(d, s[0]);
    var d1 := Step(d, s[0]);
    if d1.state == ACCEPT { return 1; }
    var s1 := s[1..];
    assert Feed(d1, s1).state == ACCEPT;
    Transitions(d1, s1[0]);
    var d2 := Step(d1, s1[0]);
    if d2.state == ACCEPT { return 2; }
    var s2 := s1[1..];
    assert Feed(d2, s2).state == ACCEPT;
    Transitions(d2, s2[0]);
    var d3 := Step(d2, s2[0]);
    if d3.state == ACCEPT { return 3; }
    var s3 := s2[1..];
    assert Feed(d3, s3).state == ACCEPT;
    Transitions(d3, s3[0]);
    return 4;
  }

  lemma {:induction false} ParseAccepts(d: Dfa, cs: seq<bytes>)
    requires d.state == ACCEPT && forall i | 0 <= i < |cs| :: IsChar(cs[i])
    ensures Feed(d, Flatten(cs)).state == ACCEPT
    ensures cs != [] ==> Feed(d, Flatten(cs)).codepoint == Scalar(cs[|cs| - 1])
    decreases |cs|
  {
    if cs != [] {
      CharAccepts(d, cs[0], Flatten(cs[1..]));
      var d' := Dfa(ACCEPT, Scalar(cs[0]));
      ParseAccepts(d', cs[1..]);
      if |cs| == 1 {
        assert Flatten(cs[1..]) == [];
      }
    }
  }

  lemma {:induction false} AcceptedParses(d: Dfa, s: bytes)
    requires d.state == ACCEPT && Feed(d, s).state == ACCEPT
    ensures IsString(s)
    decreases |s|
  {
    if s == [] {
      assert IsParse([], s);
    } else {
      var k := AcceptedStartsWithChar(d, s);
      assert s == s[..k] + s[k..];
      CharAccepts(d, s[..k], s[k..]);
      AcceptedParses(Dfa(ACCEPT, Scalar(s[..k])), s[k..]);
      var cs :| IsParse(cs, s[k..]);
      var all := [s[..k]] + cs;
      assert all[1..] == cs;
      assert IsParse(all, s);
    }
  }

  /** The decoder accepts exactly the strings of the grammar. */
  lemma ValidIffString(s: bytes)
    ensures Valid(s) <==> IsString(s)
  {
    if Valid(s) {
      AcceptedParses(START, s);
    }
    if IsString(s) {
      var cs :| IsParse(cs, s);
      ParseAccepts(START, cs);
    }
  }

  /** Wherever the decoder accepts, it holds the scalar value of the character it has just read. */
  lemma AcceptHoldsScalar(s: bytes, v: nat)
    requires Valid(s) && IsScalar(v)
    ensures Feed(START, s + EncodeScalar(v)) == Dfa(ACCEPT, v)
  {
    var e := EncodeScalar(v);
    FeedAppend(START, s, e);
    CharAccepts(Feed(START, s), e, []);
    assert e + [] == e;
    ScalarOfEncoding(v);
  }
}

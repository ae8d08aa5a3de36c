/** The base64 of section 4 of RFC 4648: 24-bit groups read as four 6-bit digits. */
module Base64Spec {
  type octet = bv8

  const Upper: string := "ABCDEFGHIJKLMNOPQRSTUVWXYZ"
  const Lower: string := "abcdefghijklmnopqrstuvwxyz"
  const Digits: string := "0123456789"
  const Alphabet: string := Upper + Lower + Digits + "+/"

  lemma UpperAt(n: nat)
    requires n < 26
    ensures Upper[n] as int == n + 65
  {
  }

  lemma LowerAt(n: nat)
    requires n < 26
    ensures Lower[n] as int == n + 97
  {
  }

  lemma DigitAt(n: nat)
    requires n < 10
    ensures Digits[n] as int == n + 48
  {
  }

  lemma LetterByRange(n: nat)
    requires n < 64
    ensures Alphabet[n] as int
      == if n < 26 then n + 65 else if n < 52 then n + 71 else if n < 62 then n - 4 else if n == 62 then 43 else 47
  {
    if n < 26 {
      UpperAt(n);
    } else if n < 52 {
      LowerAt(n - 26);
    } else if n < 62 {
      DigitAt(n - 52);
    }
  }

  /** The character of a 6-bit digit. */
  function Letter(d: bv8): (c: char)
    requires d < 64
  {
    assert (d as int) < 64;
    Alphabet[d as int]
  }

  predicate IsLetter(c: char) {
    'A' <= c <= 'Z' || 'a' <= c <= 'z' || '0' <= c <= '9' || c == '+' || c == '/'
  }

  /** The 6-bit digit of a base64 letter. */
  function Value(c: char): (d: bv8)
    requires IsLetter(c)
    ensures d < 64
  {
    if 'A' <= c <= 'Z' then (c as int - 65) as bv8
    else if 'a' <= c <= 'z' then (c as int - 71) as bv8
    else if '0' <= c <= '9' then (c as int + 4) as bv8
    else if c == '+' then 62
    else 63
  }

  lemma ValueOfLetter(d: bv8)
    requires d < 64
    ensures IsLetter(Letter(d)) && Value(Letter(d)) == d
  {
    LetterByRange(d as int);
    assert (d as int) as bv8 == d;
  }

  lemma NumberOfDigit(x: int)
    requires 0 <= x < 64
    ensures (x as bv8) as int == x
  {
  }

  lemma LetterOfValue(c: char)
    requires IsLetter(c)
    ensures Letter(Value(c)) == c
  {
    var n :=
      if 'A' <= c <= 'Z' then c as int - 65
      else if 'a' <= c <= 'z' then c as int - 71
      else if '0' <= c <= '9' then c as int + 4
      else if c == '+' then 62
      else 63;
    NumberOfDigit(n);
    LetterByRange(n);
    assert Alphabet[n] == c;
  }

  function Group(a: octet, b: octet, c: octet): (g: bv24) {
    ((a as bv24) << 16) | ((b as bv24) << 8) | (c as bv24)
  }

  /** Digit `k` of a 24-bit group, the most significant first. */
  function Digit(g: bv24, k: nat): (d: bv8)
    requires k < 4
    ensures d < 64
  {
    ((if k == 0 then g >> 18 else if k == 1 then g >> 12 else if k == 2 then g >> 6 else g) & 63) as bv8
  }

  function Encode(s: seq<octet>): (r: string)
    ensures |r| == (|s| + 2) / 3 * 4
  {
    if |s| == 0 then []
    else if |s| == 1 then
      var g := Group(s[0], 0, 0);
      [Letter(Digit(g, 0)), Letter(Digit(g, 1)), '=', '=']
    else if |s| == 2 then
      var g := Group(s[0], s[1], 0);
      [Letter(Digit(g, 0)), Letter(Digit(g, 1)), Letter(Digit(g, 2)), '=']
    else
      var g := Group(s[0], s[1], s[2]);
      [Letter(Digit(g, 0)), Letter(Digit(g, 1)), Letter(Digit(g, 2)), Letter(Digit(g, 3))] + Encode(s[3..])
  }

  function Join(p: bv8, q: bv8, r: bv8, s: bv8): (g: bv24)
    requires p < 64 && q < 64 && r < 64 && s < 64
  {
    ((p as bv24) << 18) | ((q as bv24) << 12) | ((r as bv24) << 6) | (s as bv24)
  }

  /** Octet `k` of a 24-bit group, the most significant first. */
  function Octet(g: bv24, k: nat): (o: octet)
    requires k < 3
  {
    ((if k == 0 then g >> 16 else if k == 1 then g >> 8 else g) & 255) as bv8
  }

  /** The number of base64 letters at the front of a text. */
  function Letters(t: string): (n: nat)
    ensures n <= |t| && (forall i :: 0 <= i < n ==> IsLetter(t[i]))
    ensures n < |t| ==> !IsLetter(t[n])
  {
    if t == "" || !IsLetter(t[0]) then 0 else 1 + Letters(t[1..])
  }

  /** The octets of a run of letters; one to three letters over make up an incomplete last group. */
  function Octets(t: string): (r: seq<octet>)
    requires forall i :: 0 <= i < |t| ==> IsLetter(t[i])
  {
    if |t| < 2 then []
    else if |t| == 2 then
      [Octet(Join(Value(t[0]), Value(t[1]), 0, 0), 0)]
    else if |t| == 3 then
      var g := Join(Value(t[0]), Value(t[1]), Value(t[2]), 0);
      [Octet(g, 0), Octet(g, 1)]
    else
      var g := Join(Value(t[0]), Value(t[1]), Value(t[2]), Value(t[3]));
      [Octet(g, 0), Octet(g, 1), Octet(g, 2)] + Octets(t[4..])
  }

  /** What a text decodes to: its letters up to the first other character. */
  function Decode(t: string): (r: seq<octet>) {
    Octets(t[..Letters(t)])
  }

  lemma JoinOfDigits(g: bv24)
    ensures Join(Digit(g, 0), Digit(g, 1), Digit(g, 2), Digit(g, 3)) == g
  {
  }

  lemma OctetsOfGroup(a: octet, b: octet, c: octet)
    ensures Octet(Group(a, b, c), 0) == a && Octet(Group(a, b, c), 1) == b && Octet(Group(a, b, c), 2) == c
  {
  }

  lemma ShortGroups(a: octet, b: octet)
    ensures Digit(Group(a, 0, 0), 2) == 0 && Digit(Group(a, 0, 0), 3) == 0 && Digit(Group(a, b, 0), 3) == 0
  {
  }

  /** The letters of an encoding. */
  function Unpadded(s: seq<octet>): (r: string)
    ensures r <= Encode(s)
    ensures |r| == (|s| * 4 + 2) / 3
  {
    Encode(s)[..(|s| * 4 + 2) / 3]
  }

  /** The four letters of a group read back as its octets. */
  lemma GroupReadsBack(a: octet, b: octet, c: octet, four: string)
    requires var g := Group(a, b, c);
      four == [Letter(Digit(g, 0)), Letter(Digit(g, 1)), Letter(Digit(g, 2)), Letter(Digit(g, 3))]
    ensures forall i :: 0 <= i < 4 ==> IsLetter(four[i])
    ensures var g := Join(Value(four[0]), Value(four[1]), Value(four[2]), Value(four[3]));
      Octet(g, 0) == a && Octet(g, 1) == b && Octet(g, 2) == c
    ensures b == c == 0 ==> Value(four[2]) == 0 && Value(four[3]) == 0
    ensures c == 0 ==> Value(four[3]) == 0
  {
    hide Letter, Value, Digit, Group, Join, Octet, IsLetter;
    var g := Group(a, b, c);
    JoinOfDigits(g);
    OctetsOfGroup(a, b, c);
    ShortGroups(a, b);
    ValueOfLetter(Digit(g, 0));
    ValueOfLetter(Digit(g, 1));
    ValueOfLetter(Digit(g, 2));
    ValueOfLetter(Digit(g, 3));
  }

  /** The letters of an encoding, and what they decode to. */
  ghost predicate DecodesTo(t: string, s: seq<octet>) {
    (forall i :: 0 <= i < |t| ==> IsLetter(t[i])) && Octets(t) == s
  }

  lemma ShortReadsBack(s: seq<octet>)
    requires 0 < |s| < 3
    ensures DecodesTo(Unpadded(s), s) && Encode(s)[|Unpadded(s)|] == '='
  {
    hide Letter, Value, Digit, Group, Join, Octet, IsLetter;
    var b := if |s| > 1 then s[1] else 0;
    var g := Group(s[0], b, 0);
    var four := [Letter(Digit(g, 0)), Letter(Digit(g, 1)), Letter(Digit(g, 2)), Letter(Digit(g, 3))];
    GroupReadsBack(s[0], b, 0, four);
    assert Unpadded(s) == four[..|s| + 1];
  }

  lemma LongReadsBack(s: seq<octet>)
    requires |s| >= 3 && DecodesTo(Unpadded(s[3..]), s[3..])
    ensures DecodesTo(Unpadded(s), s)
    ensures |Unpadded(s)| == 4 + |Unpadded(s[3..])| && Encode(s)[4..] == Encode(s[3..])
  {
    hide Letter, Value, Digit, Group, Join, Octet, IsLetter;
    var g := Group(s[0], s[1], s[2]);
    var four := [Letter(Digit(g, 0)), Letter(Digit(g, 1)), Letter(Digit(g, 2)), Letter(Digit(g, 3))];
    GroupReadsBack(s[0], s[1], s[2], four);
    var t := Unpadded(s);
    assert t == four + Unpadded(s[3..]);
    assert t[4..] == Unpadded(s[3..]);
  }

  lemma {:induction false} OctetsOfEncoding(s: seq<octet>)
    ensures DecodesTo(Unpadded(s), s)
    ensures |Unpadded(s)| < |Encode(s)| ==> Encode(s)[|Unpadded(s)|] == '='
  {
    if |s| >= 3 {
      hide DecodesTo;
      OctetsOfEncoding(s[3..]);
      LongReadsBack(s);
    } else if |s| > 0 {
      ShortReadsBack(s);
    }
  }

  lemma {:induction false} LettersOf(t: string, n: nat)
    requires n <= |t| && forall i :: 0 <= i < n ==> IsLetter(t[i])
    requires n < |t| ==> !IsLetter(t[n])
    ensures Letters(t) == n
  {
    if n > 0 { LettersOf(t[1..], n - 1); }
  }

  /** Decoding undoes encoding, for every byte string. */
  lemma RoundTrip(s: seq<octet>)
    ensures Decode(Encode(s)) == s
  {
    OctetsOfEncoding(s);
    LettersOf(Encode(s), |Unpadded(s)|);
  }

  /** A text some byte string encodes to: full quads of letters, the last one perhaps padded and then zero-filled. */
  predicate Canonical(t: string) {
    if t == "" then true
    else if |t| < 4 || !IsLetter(t[0]) || !IsLetter(t[1]) then false
    else if IsLetter(t[2]) && IsLetter(t[3]) then Canonical(t[4..])
    else if IsLetter(t[2]) then |t| == 4 && t[3] == '=' && Value(t[2]) & 3 == 0
    else |t| == 4 && t[2] == '=' && t[3] == '=' && Value(t[1]) & 15 == 0
  }

  lemma DigitsOfJoin(p: bv8, q: bv8, r: bv8, s: bv8)
    requires p < 64 && q < 64 && r < 64 && s < 64
    ensures var g := Join(p, q, r, s); Digit(g, 0) == p && Digit(g, 1) == q && Digit(g, 2) == r && Digit(g, 3) == s
  {
  }

  lemma GroupOfOctets(g: bv24)
    ensures Group(Octet(g, 0), Octet(g, 1), Octet(g, 2)) == g
  {
  }

  /** One octet from two letters re-encodes to them exactly when the four bits left over are zero. */
  lemma TwoLetters(p: bv8, q: bv8)
    requires p < 64 && q < 64
    ensures var g := Group(Octet(Join(p, q, 0, 0), 0), 0, 0); Digit(g, 0) == p && (Digit(g, 1) == q <==> q & 15 == 0)
  {
  }

  lemma ThreeLetterDigits(p: bv8, q: bv8, r: bv8)
    requires p < 64 && q < 64 && r < 64
    ensures var j := Join(p, q, r, 0); Group(Octet(j, 0), Octet(j, 1), 0) == Join(p, q, r & 60, 0)
  {
  }

  lemma ThreeLetters(p: bv8, q: bv8, r: bv8)
    requires p < 64 && q < 64 && r < 64
    ensures var j := Join(p, q, r, 0); var g := Group(Octet(j, 0), Octet(j, 1), 0);
      Digit(g, 0) == p && Digit(g, 1) == q && (Digit(g, 2) == r <==> r & 3 == 0)
  {
    hide Join, Group, Octet, Digit;
    ThreeLetterDigits(p, q, r);
    LowBits(r);
    DigitsOfJoin(p, q, r & 60, 0);
  }

  lemma LowBits(r: bv8)
    requires r < 64
    ensures r & 60 < 64 && (r & 60 == r <==> r & 3 == 0)
  {
  }

  /** Four letters that make up a whole group. */
  lemma LettersOfGroup(t: string)
    requires |t| == 4 && forall i :: 0 <= i < 4 ==> IsLetter(t[i])
    ensures |Octets(t)| == 3 && Encode(Octets(t)) == t
  {
    hide Letter, Value, Digit, Group, Join, Octet, IsLetter;
    var g := Join(Value(t[0]), Value(t[1]), Value(t[2]), Value(t[3]));
    DigitsOfJoin(Value(t[0]), Value(t[1]), Value(t[2]), Value(t[3]));
    GroupOfOctets(g);
    LetterOfValue(t[0]);
    LetterOfValue(t[1]);
    LetterOfValue(t[2]);
    LetterOfValue(t[3]);
    assert Octets(t) == [Octet(g, 0), Octet(g, 1), Octet(g, 2)];
  }

  lemma PadIsNoLetter()
    ensures !IsLetter('=')
  {
  }

  lemma SameLetter(d: bv8, c: char)
    requires d < 64 && IsLetter(c)
    ensures Letter(d) == c <==> d == Value(c)
  {
    hide Letter, Value, IsLetter;
    ValueOfLetter(d);
    LetterOfValue(c);
  }

  /** A text that is not a whole quad of letters and more. */
  lemma LastQuad(t: string)
    requires Letters(t) < 4
    ensures Encode(Decode(t)) == t <==> Canonical(t)
  {
    hide Letter, Value, Digit, Group, Join, Octet, IsLetter;
    PadIsNoLetter();
    var n := Letters(t);
    if n == 2 {
      var g := Group(Octet(Join(Value(t[0]), Value(t[1]), 0, 0), 0), 0, 0);
      TwoLetters(Value(t[0]), Value(t[1]));
      SameLetter(Digit(g, 0), t[0]);
      SameLetter(Digit(g, 1), t[1]);
      assert Encode(Decode(t)) == [Letter(Digit(g, 0)), Letter(Digit(g, 1)), '=', '='];
      assert |t| == 4 ==> t == [t[0], t[1], t[2], t[3]];
    } else if n == 3 {
      var j := Join(Value(t[0]), Value(t[1]), Value(t[2]), 0);
      var g := Group(Octet(j, 0), Octet(j, 1), 0);
      ThreeLetters(Value(t[0]), Value(t[1]), Value(t[2]));
      SameLetter(Digit(g, 0), t[0]);
      SameLetter(Digit(g, 1), t[1]);
      SameLetter(Digit(g, 2), t[2]);
      assert Encode(Decode(t)) == [Letter(Digit(g, 0)), Letter(Digit(g, 1)), Letter(Digit(g, 2)), '='];
      assert |t| == 4 ==> t == [t[0], t[1], t[2], t[3]];
    }
  }

  /** The other order: encoding undoes decoding exactly on the canonical texts. */
  lemma {:induction false} CanonicalRoundTrip(t: string)
    ensures Encode(Decode(t)) == t <==> Canonical(t)
  {
    hide Letter, Value, Digit, Group, Join, Octet, IsLetter;
    var n := Letters(t);
    if n < 4 {
      LastQuad(t);
    } else {
      CanonicalRoundTrip(t[4..]);
      LettersFromFour(t);
      assert t[..n][4..] == t[4..][..n - 4];
      LettersOfGroup(t[..4]);
      QuadThenRest(t[..n]);
      assert t == t[..4] + t[4..];
    }
  }

  lemma LettersFromFour(t: string)
    requires Letters(t) >= 4
    ensures Letters(t) == 4 + Letters(t[4..])
  {
    LettersOf(t[4..], Letters(t) - 4);
  }

  lemma QuadThenRest(t: string)
    requires |t| >= 4 && forall i :: 0 <= i < |t| ==> IsLetter(t[i])
    ensures Octets(t) == Octets(t[..4]) + Octets(t[4..])
    ensures Encode(Octets(t)) == Encode(Octets(t[..4])) + Encode(Octets(t[4..]))
  {
    hide Letter, Value, Digit, Group, Join, Octet, IsLetter;
    assert Octets(t[..4][4..]) == [];
    var three := Octets(t[..4]);
    assert |three| == 3;
    assert Octets(t)[3..] == Octets(t[4..]);
    assert Encode(three[3..]) == [];
  }
}

/** The library's encoder and decoder, which shift bytes through a three-byte and a four-byte buffer. */
module Base64Codec {
  import opened Bytes
  import opened Base64Spec

  /** The letters of the first three octets. */
  function Quad(s: seq<octet>): (r: string)
    requires |s| >= 3
  {
    var g := Group(s[0], s[1], s[2]);
    [Letter(Digit(g, 0)), Letter(Digit(g, 1)), Letter(Digit(g, 2)), Letter(Digit(g, 3))]
  }

  lemma EncodeQuad(s: seq<octet>)
    requires |s| >= 3
    ensures Encode(s) == Quad(s) + Encode(s[3..])
  {
    hide Letter, Digit, Group;
  }

  lemma NoLetters()
    ensures Encode([]) == ""
  {
  }

  lemma {:induction false} EncodeAppend(a: seq<octet>, b: seq<octet>)
    requires |a| % 3 == 0
    ensures Encode(a + b) == Encode(a) + Encode(b)
  {
    hide Encode, Letter, Digit, Group;
    NoLetters();
    if a == [] {
      assert a + b == b;
    } else {
      assert |a| >= 3;
      EncodeAppend(a[3..], b);
      assert (a + b)[3..] == a[3..] + b;
      EncodeQuad(a);
      EncodeQuad(a + b);
      Regrouped(Quad(a), Encode(a[3..]), Encode(b));
    }
  }

  lemma {:induction false} OctetsAppend(a: string, b: string)
    requires |a| % 4 == 0
    requires forall i :: 0 <= i < |a| ==> IsLetter(a[i])
    requires forall i :: 0 <= i < |b| ==> IsLetter(b[i])
    ensures Octets(a + b) == Octets(a) + Octets(b)
  {
    hide Value, Join, Octet, IsLetter;
    if a == [] {
      assert a + b == b;
    } else {
      OctetsAppend(a[4..], b);
      assert (a + b)[4..] == a[4..] + b;
    }
  }

  // The shifts of the encoder: digit `k` of three bytes.
  function Digit0(a: octet): bv8 { (a & 0xfc) >> 2 }
  function Digit1(a: octet, b: octet): bv8 { ((a & 0x03) << 4) + ((b & 0xf0) >> 4) }
  function Digit2(b: octet, c: octet): bv8 { ((b & 0x0f) << 2) + ((c & 0xc0) >> 6) }
  function Digit3(c: octet): bv8 { c & 0x3f }

  // The shifts of the decoder: octet `k` of four digits.
  function Octet0(p: bv8, q: bv8): octet { (p << 2) + ((q & 0x30) >> 4) }
  function Octet1(q: bv8, r: bv8): octet { ((q & 0xf) << 4) + ((r & 0x3c) >> 2) }
  function Octet2(r: bv8, s: bv8): octet { ((r & 0x3) << 6) + s }

  lemma SplitBits(a: octet, b: octet, c: octet)
    ensures Digit(Group(a, b, c), 0) == Digit0(a)
    ensures Digit(Group(a, b, c), 1) == Digit1(a, b)
    ensures Digit(Group(a, b, c), 2) == Digit2(b, c)
    ensures Digit(Group(a, b, c), 3) == Digit3(c)
  {
  }

  /** Each octet depends only on the two digits it overlaps, so filler digits do not reach the others. */
  lemma MergeBits(p: bv8, q: bv8, r: bv8, s: bv8)
    requires p < 64 && q < 64 && r < 64 && s < 64
    ensures Octet(Join(p, q, r, s), 0) == Octet0(p, q)
    ensures Octet(Join(p, q, r, s), 1) == Octet1(q, r)
    ensures Octet(Join(p, q, r, s), 2) == Octet2(r, s)
  {
  }

  /** The four digits of a full three-byte buffer. */
  method Split(three: array<octet>, four: array<bv8>)
    requires three.Length == 3 && four.Length == 4 && three != four
    modifies four
    ensures forall k :: 0 <= k < 4 ==> four[k] == Digit(Group(three[0], three[1], three[2]), k)
  {
    hide Digit, Group, Digit0, Digit1, Digit2, Digit3;
    SplitBits(three[0], three[1], three[2]);
    four[0] := Digit0(three[0]);
    four[1] := Digit1(three[0], three[1]);
    four[2] := Digit2(three[1], three[2]);
    four[3] := Digit3(three[2]);
  }

  /** The letters of a group of `i` bytes, padded to four. */
  method EncodeGroup(three: array<octet>, four: array<bv8>, i: nat) returns (ret: string)
    requires three.Length == 3 && four.Length == 4 && three != four && 0 < i <= 3
    modifies three, four
    ensures ret == Encode(old(three[..i]))
  {
    hide Letter, Digit, Group;
    for j := i to 3
      invariant three[..i] == old(three[..i])
      invariant forall k :: i <= k < j ==> three[k] == 0
    {
      three[j] := 0;
    }
    assert forall k :: 0 <= k < i ==> three[k] == old(three[..i])[k];
    Split(three, four);
    ret := "";
    for j := 0 to i + 1
      invariant |ret| == j && forall k :: 0 <= k < j ==> ret[k] == Letter(four[k])
    {
      ret := ret + [Letter(four[j])];
    }
    var pads := i;
    while pads < 3
      invariant i <= pads <= 3 && |ret| == pads + 1
      invariant forall k :: 0 <= k < i + 1 ==> ret[k] == Letter(four[k])
      invariant forall k :: i < k < |ret| ==> ret[k] == '='
    {
      ret := ret + "=";
      pads := pads + 1;
    }
  }

  /** The encoding of the first `len` bytes of `data`. */
  method EncodeBytes(data: seq<octet>, len: nat) returns (ret: string)
    requires len <= |data|
    ensures ret == Encode(data[..len])
  {
    hide Encode;
    var three, four := new octet[3](_ => 0), new bv8[4](_ => 0);
    ret := "";
    NoLetters();
    var i, p := 0, 0;
    ghost var done := 0;
    while p < len
      invariant done % 3 == 0 && i < 3 && p == done + i && p <= len
      invariant three[..i] == data[done..p]
      invariant ret == Encode(data[..done])
    {
      three[i] := data[p];
      i, p := i + 1, p + 1;
      if i == 3 {
        assert three[..3] == data[done..p];
        ThreeMore(data, p);
        var quad := EncodeGroup(three, four, 3);
        ret := ret + quad;
        i, done := 0, p;
      }
    }
    LastFew(data, done, p);
    if i > 0 {
      var rest := EncodeGroup(three, four, i);
      ret := ret + rest;
    }
  }

  lemma LastFew(s: seq<octet>, done: nat, p: nat)
    requires done <= p <= |s| && done % 3 == 0
    ensures Encode(s[..p]) == Encode(s[..done]) + Encode(s[done..p])
    ensures done == p ==> Encode(s[done..p]) == ""
  {
    hide Letter, Digit, Group;
    EncodeAppend(s[..done], s[done..p]);
    assert s[..p] == s[..done] + s[done..p];
  }

  lemma ThreeMore(s: seq<octet>, p: nat)
    requires 3 <= p <= |s| && p % 3 == 0
    ensures Encode(s[..p]) == Encode(s[..p - 3]) + Encode(s[p - 3..p])
  {
    hide Encode;
    EncodeAppend(s[..p - 3], s[p - 3..p]);
    assert s[..p] == s[..p - 3] + s[p - 3..p];
  }

  /** `base64_chars.find(c)` cut to a byte; a character outside the alphabet gives the low byte of `npos`. */
  function Find(c: char): (d: bv8)
    ensures IsLetter(c) <==> d < 64
    ensures IsLetter(c) ==> d == Value(c) && Letter(d) == c
  {
    if IsLetter(c) then LetterOfValue(c); Value(c) else 0xff
  }

  /** The octets of a four-digit buffer; those of a partly filled one come out right as far as its digits reach. */
  method Merge(four: array<bv8>, three: array<octet>)
    requires three.Length == 3 && four.Length == 4 && three != four
    modifies three
    ensures four[0] < 64 && four[1] < 64 ==> three[0] == Octet(Join(four[0], four[1], 0, 0), 0)
    ensures four[0] < 64 && four[1] < 64 && four[2] < 64 ==>
      forall k :: 0 <= k < 2 ==> three[k] == Octet(Join(four[0], four[1], four[2], 0), k)
    ensures four[0] < 64 && four[1] < 64 && four[2] < 64 && four[3] < 64 ==>
      forall k :: 0 <= k < 3 ==> three[k] == Octet(Join(four[0], four[1], four[2], four[3]), k)
  {
    hide Octet, Join, Octet0, Octet1, Octet2;
    three[0] := Octet0(four[0], four[1]);
    three[1] := Octet1(four[1], four[2]);
    three[2] := Octet2(four[2], four[3]);
    if four[0] < 64 && four[1] < 64 {
      MergeBits(four[0], four[1], 0, 0);
      if four[2] < 64 {
        MergeBits(four[0], four[1], four[2], 0);
        if four[3] < 64 { MergeBits(four[0], four[1], four[2], four[3]); }
      }
    }
  }

  /** The octets of a group of `i` letters. */
  method DecodeGroup(letters: array<char>, i: nat) returns (ret: seq<octet>)
    requires letters.Length == 4 && 0 < i <= 4
    requires forall k :: 0 <= k < i ==> IsLetter(letters[k])
    modifies letters
    ensures ret == Octets(old(letters[..i]))
  {
    hide Value, Join, Octet, IsLetter;
    var four, three := new bv8[4](_ => 0), new octet[3](_ => 0);
    for j := i to 4
      invariant letters[..i] == old(letters[..i])
    {
      letters[j] := '\0';
    }
    ghost var s := letters[..i];
    for j := 0 to 4
      invariant letters[..i] == s
      invariant forall k :: 0 <= k < j && k < i ==> four[k] == Find(s[k])
    {
      assert j < i ==> s[j] == letters[j];
      four[j] := Find(letters[j]);
    }
    Merge(four, three);
    assert forall k :: 0 <= k < i ==> IsLetter(s[k]) && four[k] == Value(s[k]);
    ret := [];
    for j := 0 to i - 1
      invariant |ret| == j && forall k :: 0 <= k < j ==> ret[k] == three[k]
    {
      ret := ret + [three[j]];
    }
  }

  /** The letters of a text up to its first other character, decoded. */
  method DecodeText(t: string) returns (ret: seq<octet>)
    ensures ret == Decode(t)
  {
    hide Octets, IsLetter, Letters;
    NoOctets();
    var letters := new char[4](_ => '\0');
    ret := [];
    var i, p := 0, 0;
    ghost var done := 0;
    while p < |t| && t[p] != '=' && IsLetter(t[p])
      invariant done % 4 == 0 && i < 4 && p == done + i && p <= |t|
      invariant forall k :: 0 <= k < p ==> IsLetter(t[k])
      invariant forall k :: 0 <= k < i ==> letters[k] == t[done + k]
      invariant ret == Octets(t[..done])
    {
      letters[i] := t[p];
      i, p := i + 1, p + 1;
      if i == 4 {
        assert letters[..4] == t[done..p];
        FourMore(t, p);
        var group := DecodeGroup(letters, 4);
        ret := ret + group;
        i, done := 0, p;
      }
    }
    PadIsNoLetter();
    LettersOf(t, p);
    LastLetters(t, done, p);
    if i > 0 {
      assert letters[..i] == t[done..p];
      var rest := DecodeGroup(letters, i);
      ret := ret + rest;
    }
  }

  lemma LastLetters(t: string, done: nat, p: nat)
    requires done <= p <= |t| && done % 4 == 0
    requires forall i :: 0 <= i < p ==> IsLetter(t[i])
    ensures Octets(t[..p]) == Octets(t[..done]) + Octets(t[done..p])
    ensures done == p ==> Octets(t[done..p]) == []
  {
    hide Value, Join, Octet, IsLetter;
    OctetsAppend(t[..done], t[done..p]);
    assert t[..p] == t[..done] + t[done..p];
  }

  lemma NoOctets()
    ensures Octets("") == []
  {
  }

  lemma FourMore(t: string, p: nat)
    requires 4 <= p <= |t| && p % 4 == 0
    requires forall i :: 0 <= i < p ==> IsLetter(t[i])
    ensures Octets(t[..p]) == Octets(t[..p - 4]) + Octets(t[p - 4..p])
  {
    hide Octets, IsLetter;
    OctetsAppend(t[..p - 4], t[p - 4..p]);
    assert t[..p] == t[..p - 4] + t[p - 4..p];
  }
}

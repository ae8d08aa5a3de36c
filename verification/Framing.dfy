/** The base framing protocol of section 5.2 of RFC 6455: what sendFragment writes and dispatch reads. */
module Framing {
  import opened Bytes

  const CONTINUATION := 0
  const TEXT := 1
  const BINARY := 2
  const CLOSE := 8
  const PING := 9
  const PONG := 10

  /** No frame longer than this can be announced (section 5.2 of RFC 6455). */
  const LENGTH_LIMIT := 0x8000_0000_0000_0000

  type Opcode = n: int | 0 <= n < 16

  /** A frame as the protocol sees it: header bits and the payload before masking. */
  datatype Frame = Frame(fin: bool, rsv1: bool, opcode: Opcode, payload: bytes)

  predicate IsControl(f: Frame) { f.opcode == CLOSE || f.opcode == PING || f.opcode == PONG }

  predicate IsData(f: Frame) { f.opcode == CONTINUATION || f.opcode == TEXT || f.opcode == BINARY }

  // ------------------------------------------------------------------ masking

  type Key = k: bytes | |k| == 4 witness [0, 0, 0, 0]

  /** The payload with byte `i` combined with byte `i & 3` of the key (section 5.3 of RFC 6455). */
  function Masked(key: Key, payload: bytes): (r: bytes)
    ensures |r| == |payload|
    ensures forall i | 0 <= i < |r| :: r[i] == Xor(payload[i], key[i % 4])
  {
    seq(|payload|, i requires 0 <= i < |payload| => Xor(payload[i], key[i % 4]))
  }

  /** A buffer in which the first `n` bytes from `at` on have been masked in place. */
  function MaskedRange(key: Key, buf: bytes, at: nat, n: nat): (r: bytes)
    requires at + n <= |buf|
    ensures |r| == |buf|
    ensures forall k | 0 <= k < |buf| :: r[k] == if at <= k < at + n then Xor(buf[k], key[(k - at) % 4]) else buf[k]
  {
    buf[..at] + Masked(key, buf[at..at + n]) + buf[at + n..]
  }

  lemma MaskOneMore(key: Key, buf: bytes, at: nat, n: nat)
    requires at + n < |buf|
    ensures var r := MaskedRange(key, buf, at, n);
            r[at + n := Xor(r[at + n], key[n % 4])] == MaskedRange(key, buf, at, n + 1)
  {
    hide Xor, MaskedRange;
  }

  lemma MaskNone(key: Key, buf: bytes, at: nat)
    requires at <= |buf|
    ensures MaskedRange(key, buf, at, 0) == buf
  {
    hide Xor, MaskedRange;
  }

  lemma MaskTwice(key: Key, payload: bytes)
    ensures Masked(key, Masked(key, payload)) == payload
  {
    var once := Masked(key, payload);
    forall i | 0 <= i < |payload|
      ensures Masked(key, once)[i] == payload[i]
    {
      XorTwice(payload[i], key[i % 4]);
    }
  }

  /** The four bytes that sendFragment takes from a 32-bit random number. */
  function KeyOf(x: nat): (k: Key) {
    [x / 0x100_0000 % 256, x / 0x1_0000 % 256, x / 0x100 % 256, x % 256]
  }

  // ------------------------------------------------------------------ writing

  function FirstByte(f: Frame): (b: byte) {
    f.opcode + (if f.fin then 0x80 else 0) + (if f.rsv1 then 0x40 else 0)
  }

  /** The two or eight length bytes, most significant first. */
  function LengthField(n: nat): (r: bytes) {
    if n < 126 then []
    else if n < 65536 then [n / 256 % 256, n % 256]
    else
      var q1 := n / 256;
      var q2 := q1 / 256;
      var q3 := q2 / 256;
      var q4 := q3 / 256;
      var q5 := q4 / 256;
      var q6 := q5 / 256;
      [q6 / 256 % 256, q6 % 256, q5 % 256, q4 % 256, q3 % 256, q2 % 256, q1 % 256, n % 256]
  }

  function LengthCode(n: nat): (r: byte)
    ensures r < 128
  {
    if n < 126 then n else if n < 65536 then 126 else 127
  }

  /** The header vector of sendFragment. */
  function EncodeHeader(f: Frame, useMask: bool, key: Key): (r: bytes) {
    [FirstByte(f), LengthCode(|f.payload|) + (if useMask then 0x80 else 0)]
    + LengthField(|f.payload|)
    + (if useMask then key else [])
  }

  function EncodeFrame(f: Frame, useMask: bool, key: Key): (r: bytes) {
    EncodeHeader(f, useMask, key) + (if useMask then Masked(key, f.payload) else f.payload)
  }

  // ------------------------------------------------------------------ reading

  datatype Header = Header(fin: bool, rsv1: bool, rsv2: bool, rsv3: bool, opcode: Opcode,
                           mask: bool, headerSize: nat, length: nat, key: Key)

  function HeaderSize(second: byte): (r: nat)
    ensures r >= 2
  {
    2 + (if second % 128 == 126 then 2 else 0) + (if second % 128 == 127 then 8 else 0)
      + (if second >= 0x80 then 4 else 0)
  }

  predicate HasHeader(rx: bytes) { |rx| >= 2 && |rx| >= HeaderSize(rx[1]) }

  function Length2(hi: byte, lo: byte): (n: nat) { 0x100 * (hi as int) + lo }

  /** The eight `|=` shifts of the long length form. */
  function Length8(b: bytes): (n: nat)
    requires |b| == 8
  {
    0x100_0000_0000_0000 * (b[0] as int) + 0x1_0000_0000_0000 * (b[1] as int)
    + 0x100_0000_0000 * (b[2] as int) + 0x1_0000_0000 * (b[3] as int)
    + 0x100_0000 * (b[4] as int) + 0x1_0000 * (b[5] as int) + 0x100 * (b[6] as int) + b[7]
  }

  function ParseHeader(rx: bytes): (h: Header)
    requires HasHeader(rx)
    ensures h.headerSize == HeaderSize(rx[1]) && h.headerSize >= 2
  {
    var code := rx[1] % 128;
    var mask := rx[1] >= 0x80;
    var at := if code == 126 then 4 else if code == 127 then 10 else 2;
    var length :=
      if code < 126 then code else if code == 126 then Length2(rx[2], rx[3]) else Length8(rx[2..10]);
    var key: Key := if mask then rx[at..at + 4] else [0, 0, 0, 0];
    Header(rx[0] >= 0x80, rx[0] / 0x40 % 2 == 1, rx[0] / 0x20 % 2 == 1, rx[0] / 0x10 % 2 == 1,
           rx[0] % 16, mask, HeaderSize(rx[1]), length, key)
  }

  /** What the head of the receive buffer holds, in the order in which dispatch tests it. */
  datatype Scan =
    | NeedHeader
    | ReservedBits
    | NeedPayload
    | FragmentedControl
    | Complete(header: Header, payload: bytes)

  predicate ReservedBitsUsed(h: Header, deflate: bool) {
    (h.rsv1 && !deflate) || h.rsv2 || h.rsv3
  }

  function Unmasked(h: Header, payload: bytes): (r: bytes)
    ensures |r| == |payload|
  {
    if h.mask then Masked(h.key, payload) else payload
  }

  function FrameOf(h: Header, payload: bytes): (f: Frame) {
    Frame(h.fin, h.rsv1, h.opcode, payload)
  }

  function NextFrame(rx: bytes, deflate: bool): (r: Scan)
    ensures r.Complete? ==> HasHeader(rx) && r.header == ParseHeader(rx)
                            && |rx| >= r.header.headerSize + r.header.length && |r.payload| == r.header.length
  {
    if !HasHeader(rx) then NeedHeader
    else
      var h := ParseHeader(rx);
      if ReservedBitsUsed(h, deflate) then ReservedBits
      else if |rx| < h.headerSize + h.length then NeedPayload
      else if !h.fin && IsControl(FrameOf(h, [])) then FragmentedControl
      else Complete(h, Unmasked(h, rx[h.headerSize..h.headerSize + h.length]))
  }

  /** The buffer after unmaskReceiveBuffer has worked on it in place. */
  function UnmaskedBuffer(h: Header, rx: bytes): (r: bytes)
    requires |rx| >= h.headerSize + h.length
    ensures |r| == |rx|
  {
    rx[..h.headerSize] + Unmasked(h, rx[h.headerSize..h.headerSize + h.length]) + rx[h.headerSize + h.length..]
  }

  // ------------------------------------------------------------------ round trip

  /** Frames that the reader takes without closing the connection on sight. */
  predicate Acceptable(f: Frame, deflate: bool) {
    && |f.payload| < LENGTH_LIMIT
    && (f.rsv1 ==> deflate)
    && (IsControl(f) ==> f.fin)
    && (f.opcode == PING ==> |f.payload| <= 125)
  }

  lemma LengthFieldInverts(n: nat)
    requires 65536 <= n < LENGTH_LIMIT
    ensures |LengthField(n)| == 8 && Length8(LengthField(n)) == n
  {
    var q1 := n / 256;
    var q2 := q1 / 256;
    var q3 := q2 / 256;
    var q4 := q3 / 256;
    var q5 := q4 / 256;
    var q6 := q5 / 256;
    var q7 := q6 / 256;
    assert q7 < 128;
    assert LengthField(n) == [q7 % 256, q6 % 256, q5 % 256, q4 % 256, q3 % 256, q2 % 256, q1 % 256, n % 256];
  }

  lemma HeaderInverts(f: Frame, useMask: bool, key: Key, tail: bytes)
    requires |f.payload| < LENGTH_LIMIT
    ensures var e := EncodeHeader(f, useMask, key);
            var rx := e + tail;
            && HasHeader(rx)
            && ParseHeader(rx) == Header(f.fin, f.rsv1, false, false, f.opcode, useMask, |e|, |f.payload|,
                                         if useMask then key else [0, 0, 0, 0])
  {
    var n := |f.payload|;
    var e := EncodeHeader(f, useMask, key);
    var rx := e + tail;
    var l := LengthField(n);
    assert rx[0] == FirstByte(f) && rx[1] == LengthCode(n) + (if useMask then 0x80 else 0);
    assert rx[2..2 + |l|] == l;
    assert useMask ==> rx[2 + |l|..2 + |l| + 4] == key;
    FirstByteInverts(f);
    LengthInverts(rx, n, useMask);
  }

  lemma FirstByteInverts(f: Frame)
    ensures var b := FirstByte(f);
            && (b >= 0x80) == f.fin && (b / 0x40 % 2 == 1) == f.rsv1
            && b / 0x20 % 2 == 0 && b / 0x10 % 2 == 0 && b % 16 == f.opcode
  {
  }

  lemma LengthInverts(rx: bytes, n: nat, useMask: bool)
    requires n < LENGTH_LIMIT
    requires |rx| >= 2 + |LengthField(n)| + (if useMask then 4 else 0)
    requires rx[1] == LengthCode(n) + (if useMask then 0x80 else 0)
    requires rx[2..2 + |LengthField(n)|] == LengthField(n)
    ensures HasHeader(rx) && HeaderSize(rx[1]) == 2 + |LengthField(n)| + (if useMask then 4 else 0)
    ensures ParseHeader(rx).length == n && ParseHeader(rx).mask == useMask
    ensures ParseHeader(rx).key ==
            if useMask then rx[2 + |LengthField(n)|..2 + |LengthField(n)| + 4] else [0, 0, 0, 0]
  {
    var l := LengthField(n);
    if n >= 65536 {
      LengthFieldInverts(n);
    } else if n >= 126 {
      assert rx[2] == l[0] && rx[3] == l[1];
      assert n == 0x100 * (n / 0x100 % 256) + n % 256;
    }
  }

  /** dispatch recovers exactly the frame that sendFragment wrote, whatever follows it. */
  lemma FrameRoundTrip(f: Frame, useMask: bool, key: Key, tail: bytes, deflate: bool)
    requires Acceptable(f, deflate)
    ensures var e := EncodeFrame(f, useMask, key);
            var s := NextFrame(e + tail, deflate);
            && s.Complete?
            && FrameOf(s.header, s.payload) == f
            && s.header.headerSize + s.header.length == |e|
            && (e + tail)[|e|..] == tail
  {
    var hd := EncodeHeader(f, useMask, key);
    var body := if useMask then Masked(key, f.payload) else f.payload;
    var rx := EncodeFrame(f, useMask, key) + tail;
    assert rx == hd + (body + tail);
    HeaderInverts(f, useMask, key, body + tail);
    assert rx[|hd|..|hd| + |f.payload|] == body;
    MaskTwice(key, f.payload);
  }

  // ------------------------------------------------------------------ more input never changes a verdict

  lemma ParseHeaderStable(a: bytes, b: bytes)
    requires HasHeader(a)
    ensures HasHeader(a + b) && ParseHeader(a + b) == ParseHeader(a)
  {
    var at := if a[1] % 128 == 126 then 4 else if a[1] % 128 == 127 then 10 else 2;
    if a[1] >= 0x80 {
      assert (a + b)[at..at + 4] == a[at..at + 4];
    }
  }

  lemma NextFrameStable(a: bytes, b: bytes, deflate: bool)
    ensures var s := NextFrame(a, deflate);
            s.ReservedBits? || s.FragmentedControl? || s.Complete? ==> NextFrame(a + b, deflate) == s
  {
    if HasHeader(a) {
      ParseHeaderStable(a, b);
      var h := ParseHeader(a);
      if |a| >= h.headerSize + h.length {
        assert (a + b)[h.headerSize..h.headerSize + h.length] == a[h.headerSize..h.headerSize + h.length];
      }
    }
  }
}

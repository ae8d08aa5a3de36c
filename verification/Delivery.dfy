/** Fragmentation by sendData, and what the reader makes of the fragments. */
module Delivery {
  import opened Wrappers
  import opened Bytes
  import opened Framing
  import opened Reassembly
  import Utf8Validator

  /** kChunkSize. */
  const CHUNK := 32768

  // ------------------------------------------------------------------ fragmentation

  /** The number of passes of the loop in sendData; a short message takes one. */
  function FragmentCount(n: nat): (k: nat)
    ensures k >= 1
  {
    if n < CHUNK then 1 else n / CHUNK
  }

  function Fragment(opcode: Opcode, compress: bool, wire: bytes, i: nat): (f: Frame)
    requires i < FragmentCount(|wire|)
    ensures f.fin <==> i + 1 == FragmentCount(|wire|)
    ensures f.opcode == if i == 0 then opcode else CONTINUATION
  {
    var last := i + 1 == FragmentCount(|wire|);
    var op := if i == 0 then opcode else CONTINUATION;
    Frame(last, compress && op != CONTINUATION, op,
          wire[i * CHUNK..if last then |wire| else (i + 1) * CHUNK])
  }

  function Fragments(opcode: Opcode, compress: bool, wire: bytes): (fs: seq<Frame>)
    ensures |fs| == FragmentCount(|wire|)
    ensures forall i | 0 <= i < |fs| :: fs[i] == Fragment(opcode, compress, wire, i)
  {
    seq(FragmentCount(|wire|), i requires 0 <= i < FragmentCount(|wire|) => Fragment(opcode, compress, wire, i))
  }

  function Payloads(fs: seq<Frame>): (ps: seq<bytes>)
    ensures |ps| == |fs| && forall i | 0 <= i < |fs| :: ps[i] == fs[i].payload
  {
    seq(|fs|, i requires 0 <= i < |fs| => fs[i].payload)
  }

  /** Every fragment is short enough for the two-byte length form. */
  lemma FragmentsAreShort(opcode: Opcode, compress: bool, wire: bytes, i: nat)
    requires i < FragmentCount(|wire|)
    ensures |Fragment(opcode, compress, wire, i).payload| < 65536
    ensures |LengthField(|Fragment(opcode, compress, wire, i).payload|)| <= 2
  {
  }

  lemma {:induction false} FragmentsFrom(opcode: Opcode, compress: bool, wire: bytes, i: nat)
    requires i < FragmentCount(|wire|)
    ensures Flatten(Payloads(Fragments(opcode, compress, wire))[i..]) == wire[i * CHUNK..]
    decreases FragmentCount(|wire|) - i
  {
    var ps := Payloads(Fragments(opcode, compress, wire));
    if i + 1 == |ps| {
      assert ps[i..] == [ps[i]];
      assert Flatten([ps[i]]) == ps[i];
    } else {
      FragmentsFrom(opcode, compress, wire, i + 1);
      assert ps[i..][1..] == ps[i + 1..];
      assert wire[i * CHUNK..] == ps[i] + wire[(i + 1) * CHUNK..];
    }
  }

  /** The fragments partition the message. */
  lemma FragmentsPartition(opcode: Opcode, compress: bool, wire: bytes)
    ensures Flatten(Payloads(Fragments(opcode, compress, wire))) == wire
  {
    FragmentsFrom(opcode, compress, wire, 0);
    var ps := Payloads(Fragments(opcode, compress, wire));
    assert ps[0..] == ps;
  }

  // ------------------------------------------------------------------ one message

  function KindOf(opcode: Opcode): (k: MessageKind) { if opcode == TEXT then MsgText else MsgBinary }

  predicate Idle(r: Reader) { r.chunks == [] }

  /** The reader after the first `i` fragments of a message. */
  function Collecting(r: Reader, opcode: Opcode, compress: bool, wire: bytes, i: nat): (r': Reader)
    requires i <= FragmentCount(|wire|)
  {
    if i == 0 then r
    else if i < FragmentCount(|wire|)
    then Reader(Payloads(Fragments(opcode, compress, wire))[..i], KindOf(opcode), compress)
    else Reader([], KindOf(opcode), false)
  }

  lemma OnFragment(codec: Codec, deflate: bool, r: Reader, opcode: Opcode, compress: bool, wire: bytes, i: nat)
    requires opcode == TEXT || opcode == BINARY
    requires Idle(r) && (compress ==> deflate) && i < FragmentCount(|wire|)
    ensures OnFrame(codec, deflate, Collecting(r, opcode, compress, wire, i), Fragment(opcode, compress, wire, i))
            == (Collecting(r, opcode, compress, wire, i + 1),
                if i + 1 < FragmentCount(|wire|) then [Callback(MsgFragment, [], 0, false)]
                else Emitted(Delivered(codec, KindOf(opcode), wire, compress)))
  {
    var ps := Payloads(Fragments(opcode, compress, wire));
    var f := Fragment(opcode, compress, wire, i);
    assert ps[..i + 1] == ps[..i] + [f.payload];
    if i + 1 == FragmentCount(|wire|) {
      FragmentsPartition(opcode, compress, wire);
      assert ps[..i + 1] == ps;
      if i == 0 {
        assert wire[0..|wire|] == wire;
      }
    }
  }

  /** Reading the fragments of a message in order delivers the message, once, at its last fragment. */
  lemma {:induction false} FragmentsDeliver(codec: Codec, deflate: bool, r: Reader, opcode: Opcode, compress: bool,
                                            wire: bytes, i: nat)
    requires opcode == TEXT || opcode == BINARY
    requires Idle(r) && (compress ==> deflate) && i <= FragmentCount(|wire|)
    ensures var (r', cbs) := OnFrames(codec, deflate, r, Fragments(opcode, compress, wire)[..i]);
            && r' == Collecting(r, opcode, compress, wire, i)
            && Messages(cbs) ==
               if i < FragmentCount(|wire|) then []
               else Messages(Emitted(Delivered(codec, KindOf(opcode), wire, compress)))
    decreases i
  {
    hide OnFrame, Fragment;
    var fs := Fragments(opcode, compress, wire);
    if i > 0 {
      FragmentsDeliver(codec, deflate, r, opcode, compress, wire, i - 1);
      assert fs[..i] == fs[..i - 1] + [fs[i - 1]];
      OnFramesAppend(codec, deflate, r, fs[..i - 1], [fs[i - 1]]);
      OnFragment(codec, deflate, r, opcode, compress, wire, i - 1);
      var (r1, cb1) := OnFrames(codec, deflate, r, fs[..i - 1]);
      OnSingle(codec, deflate, r1, fs[i - 1]);
      MessagesAppend(cb1, OnFrame(codec, deflate, r1, fs[i - 1]).1);
    }
  }

  lemma OnSingle(codec: Codec, deflate: bool, r: Reader, f: Frame)
    ensures OnFrames(codec, deflate, r, [f]) == OnFrame(codec, deflate, r, f)
  {
    var (r1, cb) := OnFrame(codec, deflate, r, f);
    assert [f][1..] == [];
    assert cb + [] == cb;
  }

  // ------------------------------------------------------------------ interleaved control frames

  function DataOnly(fs: seq<Frame>): (r: seq<Frame>) {
    if fs == [] then [] else (if IsControl(fs[0]) then [] else [fs[0]]) + DataOnly(fs[1..])
  }

  lemma {:induction false} DataOnlyAppend(a: seq<Frame>, b: seq<Frame>)
    ensures DataOnly(a + b) == DataOnly(a) + DataOnly(b)
  {
    if a == [] {
      assert a + b == b;
    } else {
      assert (a + b)[1..] == a[1..] + b;
      DataOnlyAppend(a[1..], b);
    }
  }

  lemma ControlKeepsReader(codec: Codec, deflate: bool, r: Reader, f: Frame)
    requires IsControl(f)
    ensures OnFrame(codec, deflate, r, f).0 == r && Messages(OnFrame(codec, deflate, r, f).1) == []
  {
  }

  /** Control frames neither disturb reassembly nor add messages, wherever they stand. */
  lemma {:induction false} ControlIsTransparent(codec: Codec, deflate: bool, r: Reader, fs: seq<Frame>)
    ensures OnFrames(codec, deflate, r, fs).0 == OnFrames(codec, deflate, r, DataOnly(fs)).0
    ensures Messages(OnFrames(codec, deflate, r, fs).1) == Messages(OnFrames(codec, deflate, r, DataOnly(fs)).1)
    decreases |fs|
  {
    hide OnFrame, IsControl;
    if fs != [] {
      var f := fs[0];
      var (r1, cb1) := OnFrame(codec, deflate, r, f);
      MessagesAppend(cb1, OnFrames(codec, deflate, r1, fs[1..]).1);
      ControlIsTransparent(codec, deflate, r1, fs[1..]);
      if IsControl(f) {
        ControlKeepsReader(codec, deflate, r, f);
        assert [] + DataOnly(fs[1..]) == DataOnly(fs[1..]);
      } else {
        assert DataOnly(fs) == [f] + DataOnly(fs[1..]);
        assert DataOnly(fs)[1..] == DataOnly(fs[1..]);
        MessagesAppend(cb1, OnFrames(codec, deflate, r1, DataOnly(fs[1..])).1);
      }
    }
  }

  // ------------------------------------------------------------------ many messages

  /** A message accepted by sendText or sendBinary, with the bytes it takes on the wire. */
  datatype Sent = Sent(opcode: Opcode, payload: bytes, wire: bytes, compress: bool)

  predicate WellSent(codec: Codec, deflate: bool, m: Sent) {
    && (m.opcode == TEXT || m.opcode == BINARY)
    && (m.opcode == TEXT ==> Utf8Validator.Valid(m.payload))
    && m.compress == deflate
    && (if m.compress then codec.compress(m.payload) == Some(m.wire) else m.wire == m.payload)
  }

  function Expected(m: Sent): (cb: Callback) { Callback(KindOf(m.opcode), m.payload, |m.wire|, false) }

  function ExpectedAll(ms: seq<Sent>): (cbs: seq<Callback>)
    ensures |cbs| == |ms| && forall i | 0 <= i < |ms| :: cbs[i] == Expected(ms[i])
  {
    seq(|ms|, i requires 0 <= i < |ms| => Expected(ms[i]))
  }

  function FramesOf(m: Sent): (fs: seq<Frame>)
    ensures |fs| >= 1
  {
    Fragments(m.opcode, m.compress, m.wire)
  }

  function AllFrames(ms: seq<Sent>): (fs: seq<Frame>) {
    if ms == [] then [] else FramesOf(ms[0]) + AllFrames(ms[1..])
  }

  lemma {:induction false} AllFramesSnoc(ms: seq<Sent>, m: Sent)
    ensures AllFrames(ms + [m]) == AllFrames(ms) + FramesOf(m)
  {
    if ms == [] {
      assert AllFrames([m]) == FramesOf(m) + AllFrames([]);
    } else {
      assert (ms + [m])[1..] == ms[1..] + [m];
      AllFramesSnoc(ms[1..], m);
    }
  }

  lemma MessageDelivers(codec: Codec, deflate: bool, r: Reader, m: Sent)
    requires Lossless(codec) && Idle(r) && WellSent(codec, deflate, m)
    ensures var (r', cbs) := OnFrames(codec, deflate, r, FramesOf(m));
            Idle(r') && Messages(cbs) == [Expected(m)]
  {
    var fs := FramesOf(m);
    FragmentsDeliver(codec, deflate, r, m.opcode, m.compress, m.wire, |fs|);
    assert fs[..|fs|] == fs;
    assert Delivered(codec, KindOf(m.opcode), m.wire, m.compress) == Expected(m);
  }

  lemma {:induction false} MessagesDeliver(codec: Codec, deflate: bool, r: Reader, ms: seq<Sent>)
    requires Lossless(codec) && Idle(r) && forall i | 0 <= i < |ms| :: WellSent(codec, deflate, ms[i])
    ensures var (r', cbs) := OnFrames(codec, deflate, r, AllFrames(ms));
            Idle(r') && Messages(cbs) == ExpectedAll(ms)
    decreases |ms|
  {
    hide OnFrame, WellSent, FramesOf;
    if ms != [] {
      MessageDelivers(codec, deflate, r, ms[0]);
      var (r1, cb1) := OnFrames(codec, deflate, r, FramesOf(ms[0]));
      OnFramesAppend(codec, deflate, r, FramesOf(ms[0]), AllFrames(ms[1..]));
      MessagesDeliver(codec, deflate, r1, ms[1..]);
      MessagesAppend(cb1, OnFrames(codec, deflate, r1, AllFrames(ms[1..])).1);
      assert ExpectedAll(ms) == [Expected(ms[0])] + ExpectedAll(ms[1..]);
    }
  }

  /** Messages sent whole, then the first `i` fragments of one more, nothing between. */
  lemma SentDelivers(codec: Codec, deflate: bool, r: Reader, ms: seq<Sent>, m: Sent, i: nat)
    requires Lossless(codec) && Idle(r) && forall k | 0 <= k < |ms| :: WellSent(codec, deflate, ms[k])
    requires WellSent(codec, deflate, m) && i < |FramesOf(m)|
    ensures var (r', cbs) := OnFrames(codec, deflate, r, AllFrames(ms) + FramesOf(m)[..i]);
            && Messages(cbs) == ExpectedAll(ms)
            && r'.chunks == Payloads(FramesOf(m)[..i])
  {
    hide OnFrame;
    MessagesDeliver(codec, deflate, r, ms);
    var (r1, cb1) := OnFrames(codec, deflate, r, AllFrames(ms));
    OnFramesAppend(codec, deflate, r, AllFrames(ms), FramesOf(m)[..i]);
    FragmentsDeliver(codec, deflate, r1, m.opcode, m.compress, m.wire, i);
    MessagesAppend(cb1, OnFrames(codec, deflate, r1, FramesOf(m)[..i]).1);
    assert Payloads(FramesOf(m)[..i]) == Payloads(FramesOf(m))[..i];
  }

  /**
    * Messages sent whole, then the first `i` fragments of one more, with control frames anywhere between:
    * the reader delivers the whole messages, in order, each once, and holds the fragments of the last.
    */
  lemma StreamDelivers(codec: Codec, deflate: bool, r: Reader, fs: seq<Frame>, ms: seq<Sent>, m: Sent, i: nat)
    requires Lossless(codec) && Idle(r) && forall k | 0 <= k < |ms| :: WellSent(codec, deflate, ms[k])
    requires WellSent(codec, deflate, m) && i < |FramesOf(m)|
    requires DataOnly(fs) == AllFrames(ms) + FramesOf(m)[..i]
    ensures var (r', cbs) := OnFrames(codec, deflate, r, fs);
            && Messages(cbs) == ExpectedAll(ms)
            && r'.chunks == Payloads(FramesOf(m)[..i])
  {
    hide OnFrames, FramesOf;
    ControlIsTransparent(codec, deflate, r, fs);
    SentDelivers(codec, deflate, r, ms, m, i);
  }

  // ------------------------------------------------------------------ any stream, in or out of sequence

  /** The data frames since the last one with the fin bit. */
  function Open(fs: seq<Frame>): (r: seq<Frame>)
    decreases |fs|
  {
    if fs == [] then []
    else
      var f := fs[|fs| - 1];
      var before := Open(fs[..|fs| - 1]);
      if !IsData(f) then before else if f.fin then [] else before + [f]
  }

  /** MSG_TEXT or MSG_BINARY after the last data frame that is not a continuation. */
  function LastKind(kind: MessageKind, fs: seq<Frame>): (k: MessageKind)
    decreases |fs|
  {
    if fs == [] then kind
    else
      var f := fs[|fs| - 1];
      if IsData(f) && f.opcode != CONTINUATION then KindOf(f.opcode) else LastKind(kind, fs[..|fs| - 1])
  }

  /** Whether the last frame of a group that is not a continuation announced compression. */
  function GroupCompressed(deflate: bool, group: seq<Frame>): (b: bool)
    decreases |group|
  {
    if group == [] then false
    else
      var f := group[|group| - 1];
      if f.opcode != CONTINUATION then deflate && f.rsv1 else GroupCompressed(deflate, group[..|group| - 1])
  }

  /** What a stream of frames hands to emitMessage: one entry per data frame with the fin bit. */
  function Handed(codec: Codec, deflate: bool, kind: MessageKind, fs: seq<Frame>): (cbs: seq<Callback>)
    decreases |fs|
  {
    if fs == [] then []
    else
      var f := fs[|fs| - 1];
      var before := fs[..|fs| - 1];
      Handed(codec, deflate, kind, before)
      + if IsData(f) && f.fin
        then
          var group := Open(before) + [f];
          [Delivered(codec, LastKind(kind, fs), Flatten(Payloads(group)), GroupCompressed(deflate, group))]
        else []
  }

  function EmittedAll(cbs: seq<Callback>): (r: seq<Callback>) {
    if cbs == [] then [] else EmittedAll(cbs[..|cbs| - 1]) + Emitted(cbs[|cbs| - 1])
  }

  /** The reader that the reassembly invariant predicts after a stream. */
  function Predicted(deflate: bool, kind: MessageKind, fs: seq<Frame>): (r: Reader) {
    Reader(Payloads(Open(fs)), LastKind(kind, fs), GroupCompressed(deflate, Open(fs)))
  }

  lemma HandedStep(codec: Codec, deflate: bool, kind: MessageKind, before: seq<Frame>, f: Frame)
    ensures var group := Open(before) + [f];
            var cb := Delivered(codec, LastKind(kind, before + [f]), Flatten(Payloads(group)),
                                GroupCompressed(deflate, group));
            Handed(codec, deflate, kind, before + [f])
            == Handed(codec, deflate, kind, before) + (if IsData(f) && f.fin then [cb] else [])
  {
    var fs := before + [f];
    assert fs[|fs| - 1] == f && fs[..|fs| - 1] == before;
  }

  lemma PredictedStep(codec: Codec, deflate: bool, kind: MessageKind, before: seq<Frame>, f: Frame)
    requires IsData(f)
    ensures var fs := before + [f];
            var group := Open(before) + [f];
            OnDataFrame(codec, deflate, Predicted(deflate, kind, before), f)
            == (Predicted(deflate, kind, fs),
                if f.fin
                then Delivered(codec, LastKind(kind, fs), Flatten(Payloads(group)), GroupCompressed(deflate, group))
                else Delivered(codec, MsgFragment, [], false))
  {
    hide Delivered, Open, LastKind, GroupCompressed, Flatten;
    StepFacts(deflate, kind, before, f);
  }

  lemma StepFacts(deflate: bool, kind: MessageKind, before: seq<Frame>, f: Frame)
    requires IsData(f)
    ensures var fs := before + [f];
            var group := Open(before) + [f];
            && Open(fs) == (if f.fin then [] else group)
            && LastKind(kind, fs) == (if f.opcode == CONTINUATION then LastKind(kind, before) else KindOf(f.opcode))
            && GroupCompressed(deflate, group)
               == (if f.opcode == CONTINUATION then GroupCompressed(deflate, Open(before)) else deflate && f.rsv1)
            && !GroupCompressed(deflate, [])
            && Payloads(group) == Payloads(Open(before)) + [f.payload]
            && (Open(before) == [] ==> Flatten(Payloads(group)) == f.payload)
  {
    var fs := before + [f];
    assert fs[|fs| - 1] == f && fs[..|fs| - 1] == before;
    GroupFacts(deflate, Open(before), f);
    hide GroupCompressed, Flatten;
  }

  lemma GroupFacts(deflate: bool, open: seq<Frame>, f: Frame)
    requires IsData(f)
    ensures var group := open + [f];
            && GroupCompressed(deflate, group)
               == (if f.opcode == CONTINUATION then GroupCompressed(deflate, open) else deflate && f.rsv1)
            && !GroupCompressed(deflate, [])
            && Payloads(group) == Payloads(open) + [f.payload]
            && (open == [] ==> Flatten(Payloads(group)) == f.payload)
  {
    var group := open + [f];
    assert group[|group| - 1] == f && group[..|group| - 1] == open;
    if open == [] {
      assert Payloads(group) == [f.payload];
      assert Flatten([f.payload]) == f.payload + Flatten([]);
    }
  }

  lemma OpenStep(codec: Codec, deflate: bool, kind: MessageKind, before: seq<Frame>, f: Frame)
    requires kind == MsgText || kind == MsgBinary
    ensures var fs := before + [f];
            var h := Handed(codec, deflate, kind, before);
            var (r', cbs) := OnFrame(codec, deflate, Predicted(deflate, kind, before), f);
            && r' == Predicted(deflate, kind, fs)
            && h <= Handed(codec, deflate, kind, fs)
            && Messages(cbs) == Messages(EmittedAll(Handed(codec, deflate, kind, fs)[|h|..]))
  {
    hide OnDataFrame, Handed, GroupCompressed, Delivered, Emittable, LastKind, Flatten, Predicted;
    var fs := before + [f];
    var h := Handed(codec, deflate, kind, before);
    HandedStep(codec, deflate, kind, before, f);
    if IsData(f) {
      PredictedStep(codec, deflate, kind, before, f);
      var cb := OnDataFrame(codec, deflate, Predicted(deflate, kind, before), f).1;
      if f.fin {
        assert Handed(codec, deflate, kind, fs)[|h|..] == [cb];
        assert [cb][..0] == [];
      } else {
        FragmentIsNoMessage(codec);
      }
    } else {
      ControlKeepsPredicted(deflate, kind, before, f);
    }
  }

  lemma ControlKeepsPredicted(deflate: bool, kind: MessageKind, before: seq<Frame>, f: Frame)
    requires !IsData(f)
    ensures Predicted(deflate, kind, before + [f]) == Predicted(deflate, kind, before)
  {
    var fs := before + [f];
    assert fs[|fs| - 1] == f && fs[..|fs| - 1] == before;
  }

  lemma FragmentIsNoMessage(codec: Codec)
    ensures Messages(Emitted(Delivered(codec, MsgFragment, [], false))) == []
  {
  }

  lemma {:induction false} EmittedAllAppend(a: seq<Callback>, b: seq<Callback>)
    ensures EmittedAll(a + b) == EmittedAll(a) + EmittedAll(b)
    decreases |b|
  {
    if b == [] {
      assert a + b == a;
    } else {
      assert (a + b)[..|a + b| - 1] == a + b[..|b| - 1];
      EmittedAllAppend(a, b[..|b| - 1]);
    }
  }

  /**
    * On every stream of frames, even an out-of-sequence one: the reader holds exactly the payloads since the
    * last fin, and the messages delivered are exactly the concatenated groups that emitMessage lets through.
    */
  lemma {:induction false} ReassemblyInvariant(codec: Codec, deflate: bool, kind: MessageKind, fs: seq<Frame>)
    requires kind == MsgText || kind == MsgBinary
    ensures var (r, cbs) := OnFrames(codec, deflate, Reader([], kind, false), fs);
            && r == Predicted(deflate, kind, fs)
            && Messages(cbs) == Messages(EmittedAll(Handed(codec, deflate, kind, fs)))
            && forall cb | cb in Messages(cbs) && cb.kind == MsgText :: Utf8Validator.Valid(cb.payload)
    decreases |fs|
  {
    hide OnFrame, Handed, GroupCompressed, Utf8Validator.Valid;
    var r0 := Reader([], kind, false);
    if fs == [] {
      EmptyStream(codec, deflate, kind);
    } else {
      var before, f := fs[..|fs| - 1], fs[|fs| - 1];
      assert fs == before + [f];
      ReassemblyInvariant(codec, deflate, kind, before);
      OnFramesAppend(codec, deflate, r0, before, [f]);
      var (r1, cb1) := OnFrames(codec, deflate, r0, before);
      var (r2, cb2) := OnFrame(codec, deflate, r1, f);
      OnSingle(codec, deflate, r1, f);
      MessagesAppend(cb1, cb2);
      OpenStep(codec, deflate, kind, before, f);
      var h := Handed(codec, deflate, kind, before);
      var more := Handed(codec, deflate, kind, fs)[|h|..];
      assert Handed(codec, deflate, kind, fs) == h + more;
      EmittedAllAppend(h, more);
      MessagesAppend(EmittedAll(h), EmittedAll(more));
    }
    EmittedText(Handed(codec, deflate, kind, fs));
  }

  lemma EmptyStream(codec: Codec, deflate: bool, kind: MessageKind)
    ensures Handed(codec, deflate, kind, []) == [] && !GroupCompressed(deflate, [])
  {
  }

  lemma {:induction false} MessagesAreMembers(cbs: seq<Callback>)
    ensures forall cb | cb in Messages(cbs) :: cb in cbs
  {
    if cbs != [] {
      MessagesAreMembers(cbs[1..]);
    }
  }

  /** Only valid UTF-8 passes as text. */
  lemma EmittedText(cbs: seq<Callback>)
    ensures forall cb | cb in Messages(EmittedAll(cbs)) && cb.kind == MsgText :: Utf8Validator.Valid(cb.payload)
  {
    MessagesAreMembers(EmittedAll(cbs));
    EmittedAllValid(cbs);
  }

  lemma {:induction false} EmittedAllValid(cbs: seq<Callback>)
    ensures forall cb | cb in EmittedAll(cbs) :: Emittable(cb)
  {
    if cbs != [] {
      EmittedAllValid(cbs[..|cbs| - 1]);
    }
  }
}

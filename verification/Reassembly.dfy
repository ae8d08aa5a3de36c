/** How dispatch turns a stream of frames into message callbacks. */
module Reassembly {
  import opened Wrappers
  import opened Bytes
  import opened Framing
  import Utf8Validator

  datatype MessageKind = MsgText | MsgBinary | MsgPing | MsgPong | MsgFragment

  /** One call of the message callback. */
  datatype Callback = Callback(kind: MessageKind, payload: bytes, wireSize: nat, decompressionError: bool)

  /** The permessage-deflate engine, seen from outside and without context takeover between messages. */
  datatype Codec = Codec(compress: bytes -> Option<bytes>, decompress: bytes -> (bool, bytes))

  ghost predicate Lossless(codec: Codec) {
    forall m: bytes ::
      codec.compress(m).Some? ==> codec.decompress(codec.compress(m).value) == (true, m)
  }

  /** _chunks, _fragmentedMessageKind and _compressedMessage. */
  datatype Reader = Reader(chunks: seq<bytes>, kind: MessageKind, compressed: bool)

  predicate IsMessage(cb: Callback) { cb.kind == MsgText || cb.kind == MsgBinary }

  function Messages(cbs: seq<Callback>): (r: seq<Callback>)
    ensures forall cb | cb in r :: IsMessage(cb)
  {
    if cbs == [] then [] else (if IsMessage(cbs[0]) then [cbs[0]] else []) + Messages(cbs[1..])
  }

  // ------------------------------------------------------------------ one frame

  /** What emitMessage would hand to the callback. */
  function Delivered(codec: Codec, kind: MessageKind, message: bytes, compressed: bool): (cb: Callback) {
    if compressed && kind != MsgFragment
    then Callback(kind, codec.decompress(message).1, |message|, !codec.decompress(message).0)
    else Callback(kind, message, |message|, false)
  }

  /** emitMessage drops a text message that is not UTF-8 (and closes the connection). */
  predicate Emittable(cb: Callback) { cb.kind == MsgText ==> Utf8Validator.Valid(cb.payload) }

  function Emitted(cb: Callback): (r: seq<Callback>)
    ensures forall x | x in r :: x == cb && Emittable(x)
  {
    if Emittable(cb) then [cb] else []
  }

  /** The kind and compression flag after the test on the opcode of a data frame. */
  function Opened(r: Reader, f: Frame, deflate: bool): (r': Reader) {
    if f.opcode == CONTINUATION then r
    else r.(kind := if f.opcode == TEXT then MsgText else MsgBinary, compressed := deflate && f.rsv1)
  }

  function OnDataFrame(codec: Codec, deflate: bool, r0: Reader, f: Frame): (res: (Reader, Callback))
    requires IsData(f)
  {
    var r := Opened(r0, f, deflate);
    if f.fin && r.chunks == [] then
      (r.(compressed := false), Delivered(codec, r.kind, f.payload, r.compressed))
    else if f.fin then
      (r.(chunks := [], compressed := false),
       Delivered(codec, r.kind, Flatten(r.chunks + [f.payload]), r.compressed))
    else
      (r.(chunks := r.chunks + [f.payload]), Delivered(codec, MsgFragment, [], false))
  }

  function OnFrame(codec: Codec, deflate: bool, r: Reader, f: Frame): (res: (Reader, seq<Callback>)) {
    if IsData(f) then
      var (r', cb) := OnDataFrame(codec, deflate, r, f);
      (r', Emitted(cb))
    else if f.opcode == PING then (r, [Callback(MsgPing, f.payload, |f.payload|, false)])
    else if f.opcode == PONG then (r, [Callback(MsgPong, f.payload, |f.payload|, false)])
    else (r, [])
  }

  function OnFrames(codec: Codec, deflate: bool, r: Reader, fs: seq<Frame>): (res: (Reader, seq<Callback>))
    decreases |fs|
  {
    if fs == [] then (r, [])
    else
      var (r1, cb1) := OnFrame(codec, deflate, r, fs[0]);
      var (r2, cb2) := OnFrames(codec, deflate, r1, fs[1..]);
      (r2, cb1 + cb2)
  }

  lemma {:induction false} OnFramesAppend(codec: Codec, deflate: bool, r: Reader, a: seq<Frame>, b: seq<Frame>)
    ensures var (r1, cb1) := OnFrames(codec, deflate, r, a);
            var (r2, cb2) := OnFrames(codec, deflate, r1, b);
            OnFrames(codec, deflate, r, a + b) == (r2, cb1 + cb2)
    decreases |a|
  {
    hide OnFrame;
    if a == [] {
      assert a + b == b;
      assert [] + OnFrames(codec, deflate, r, b).1 == OnFrames(codec, deflate, r, b).1;
    } else {
      assert (a + b)[0] == a[0] && (a + b)[1..] == a[1..] + b;
      var (r1, cb1) := OnFrame(codec, deflate, r, a[0]);
      var (r2, cb2) := OnFrames(codec, deflate, r1, a[1..]);
      var (r3, cb3) := OnFrames(codec, deflate, r2, b);
      OnFramesAppend(codec, deflate, r1, a[1..], b);
      assert cb1 + (cb2 + cb3) == (cb1 + cb2) + cb3;
    }
  }

  lemma {:induction false} MessagesAppend(a: seq<Callback>, b: seq<Callback>)
    ensures Messages(a + b) == Messages(a) + Messages(b)
  {
    if a == [] {
      assert a + b == b;
    } else {
      assert (a + b)[1..] == a[1..] + b;
      MessagesAppend(a[1..], b);
    }
  }

  // ------------------------------------------------------------------ the byte stream

  predicate Oversized(s: Scan) { s.Complete? && s.header.opcode == PING && |s.payload| > 125 }

  /** The head of the buffer is a frame that makes dispatch close and return without consuming it. */
  predicate Stuck(rx: bytes, deflate: bool) {
    var s := NextFrame(rx, deflate);
    s.ReservedBits? || s.FragmentedControl? || Oversized(s)
  }

  /** The buffer after unmaskReceiveBuffer, which works in place on the first frame once it is whole. */
  function UnmaskHead(rx: bytes, deflate: bool): (r: bytes)
    ensures |r| == |rx|
  {
    var s := NextFrame(rx, deflate);
    if s.Complete? then UnmaskedBuffer(s.header, rx) else rx
  }

  /** The frame that the loop body processes and the buffer it leaves, if there is one. */
  function TakeFrame(rx: bytes, deflate: bool): (r: Option<(Frame, bytes)>)
    ensures r.Some? ==> |r.value.1| + 2 <= |rx|
  {
    var s := NextFrame(rx, deflate);
    if s.Complete? && !Oversized(s)
    then Some((FrameOf(s.header, s.payload), rx[s.header.headerSize + s.header.length..]))
    else None
  }

  datatype ReadResult = ReadResult(reader: Reader, callbacks: seq<Callback>, rest: bytes)

  /** Everything one dispatch loop does to the reader, the callback and the receive buffer. */
  function ReadAll(codec: Codec, deflate: bool, r: Reader, rx: bytes): (res: ReadResult)
    decreases |rx|
  {
    match TakeFrame(rx, deflate)
    case None => ReadResult(r, [], UnmaskHead(rx, deflate))
    case Some((f, rest)) =>
      var (r', cb) := OnFrame(codec, deflate, r, f);
      var t := ReadAll(codec, deflate, r', rest);
      t.(callbacks := cb + t.callbacks)
  }

  lemma StuckTakesNothing(rx: bytes, deflate: bool)
    requires Stuck(rx, deflate)
    ensures TakeFrame(rx, deflate).None?
  {
  }

  lemma StuckAppend(rx: bytes, b: bytes, deflate: bool)
    requires Stuck(rx, deflate)
    ensures Stuck(rx + b, deflate)
  {
    NextFrameStable(rx, b, deflate);
  }

  lemma StuckStays(rx: bytes, deflate: bool)
    requires Stuck(rx, deflate)
    ensures Stuck(UnmaskHead(rx, deflate), deflate)
  {
    var s := NextFrame(rx, deflate);
    if Oversized(s) {
      SameHeader(rx, UnmaskHead(rx, deflate));
    }
  }

  lemma SameHeader(rx: bytes, rx': bytes)
    requires HasHeader(rx) && |rx'| == |rx| && rx'[..HeaderSize(rx[1])] == rx[..HeaderSize(rx[1])]
    ensures HasHeader(rx') && ParseHeader(rx') == ParseHeader(rx)
  {
    var hd := rx[..HeaderSize(rx[1])];
    assert HasHeader(hd);
    assert rx == hd + rx[|hd|..];
    assert rx' == hd + rx'[|hd|..];
    ParseHeaderStable(hd, rx[|hd|..]);
    ParseHeaderStable(hd, rx'[|hd|..]);
  }

  /** Reading `a` and then `b` delivers what reading `a + b` at once delivers. */
  lemma {:induction false} ReadAppend(codec: Codec, deflate: bool, r: Reader, a: bytes, b: bytes)
    ensures var whole := ReadAll(codec, deflate, r, a + b);
            var first := ReadAll(codec, deflate, r, a);
            var second := ReadAll(codec, deflate, first.reader, first.rest + b);
            && whole.reader == second.reader
            && whole.callbacks == first.callbacks + second.callbacks
            && (if Stuck(first.rest, deflate)
                then Stuck(whole.rest, deflate) && Stuck(second.rest, deflate)
                else whole.rest == second.rest)
    decreases |a|
  {
    hide TakeFrame, OnFrame, Stuck, UnmaskHead;
    match TakeFrame(a, deflate)
    case None =>
      NothingTaken(a, deflate);
      if Stuck(a, deflate) {
        StuckAppend(a, b, deflate);
        StuckStays(a, deflate);
        StuckStays(a + b, deflate);
        StuckAppend(UnmaskHead(a, deflate), b, deflate);
        StuckStays(UnmaskHead(a, deflate) + b, deflate);
        StuckTakesNothing(a + b, deflate);
        StuckTakesNothing(UnmaskHead(a, deflate) + b, deflate);
      } else {
        assert [] + ReadAll(codec, deflate, r, a + b).callbacks == ReadAll(codec, deflate, r, a + b).callbacks;
      }
    case Some((f, rest)) =>
      TakeAppend(a, b, deflate);
      var (r', cb) := OnFrame(codec, deflate, r, f);
      ReadAppend(codec, deflate, r', rest, b);
      var first := ReadAll(codec, deflate, r', rest);
      var second := ReadAll(codec, deflate, first.reader, first.rest + b);
      assert cb + (first.callbacks + second.callbacks) == (cb + first.callbacks) + second.callbacks;
  }

  lemma TakeAppend(a: bytes, b: bytes, deflate: bool)
    requires TakeFrame(a, deflate).Some?
    ensures var (f, rest) := TakeFrame(a, deflate).value;
            TakeFrame(a + b, deflate) == Some((f, rest + b))
  {
    NextFrameStable(a, b, deflate);
    var h := NextFrame(a, deflate).header;
    assert (a + b)[h.headerSize + h.length..] == a[h.headerSize + h.length..] + b;
  }

  lemma NothingTaken(rx: bytes, deflate: bool)
    requires TakeFrame(rx, deflate).None?
    ensures Stuck(rx, deflate) || UnmaskHead(rx, deflate) == rx
  {
  }

  /** Appending each piece to what is left and dispatching again. */
  function ReadPieces(codec: Codec, deflate: bool, r: Reader, rx: bytes, pieces: seq<bytes>): (res: ReadResult)
    decreases |pieces|
  {
    if pieces == [] then ReadResult(r, [], rx)
    else
      var first := ReadAll(codec, deflate, r, rx + pieces[0]);
      var more := ReadPieces(codec, deflate, first.reader, first.rest, pieces[1..]);
      more.(callbacks := first.callbacks + more.callbacks)
  }

  /** A buffer on which dispatch has already done all it can. */
  predicate Exhausted(rx: bytes, deflate: bool) { TakeFrame(rx, deflate).None? }

  lemma {:induction false} ReadExhausts(codec: Codec, deflate: bool, r: Reader, rx: bytes)
    ensures Exhausted(ReadAll(codec, deflate, r, rx).rest, deflate)
    decreases |rx|
  {
    hide OnFrame, Stuck, UnmaskHead, TakeFrame;
    match TakeFrame(rx, deflate)
    case None =>
      NothingTaken(rx, deflate);
      if Stuck(rx, deflate) {
        StuckStays(rx, deflate);
        StuckTakesNothing(UnmaskHead(rx, deflate), deflate);
      }
    case Some((f, rest)) =>
      ReadExhausts(codec, deflate, OnFrame(codec, deflate, r, f).0, rest);
  }

  /** However a stream is cut into pieces, the callbacks and the reader are those of one dispatch on the whole. */
  lemma {:induction false} SplitInvariance(codec: Codec, deflate: bool, r: Reader, rx: bytes, pieces: seq<bytes>)
    requires Exhausted(rx, deflate)
    ensures var whole := ReadAll(codec, deflate, r, rx + Flatten(pieces));
            var cut := ReadPieces(codec, deflate, r, rx, pieces);
            && whole.reader == cut.reader
            && whole.callbacks == cut.callbacks
            && (whole.rest == cut.rest || (Stuck(whole.rest, deflate) && Stuck(cut.rest, deflate)))
    decreases |pieces|
  {
    hide OnFrame, Stuck, UnmaskHead, TakeFrame;
    if pieces == [] {
      assert rx + Flatten(pieces) == rx;
      NothingTaken(rx, deflate);
      if Stuck(rx, deflate) {
        StuckStays(rx, deflate);
      }
    } else {
      var first := ReadAll(codec, deflate, r, rx + pieces[0]);
      assert rx + Flatten(pieces) == (rx + pieces[0]) + Flatten(pieces[1..]);
      ReadAppend(codec, deflate, r, rx + pieces[0], Flatten(pieces[1..]));
      ReadExhausts(codec, deflate, r, rx + pieces[0]);
      SplitInvariance(codec, deflate, first.reader, first.rest, pieces[1..]);
      var second := ReadAll(codec, deflate, first.reader, first.rest + Flatten(pieces[1..]));
      if Stuck(first.rest, deflate) {
        PiecesStayStuck(codec, deflate, first.reader, first.rest, pieces[1..]);
      }
    }
  }

  lemma {:induction false} PiecesStayStuck(codec: Codec, deflate: bool, r: Reader, rx: bytes, pieces: seq<bytes>)
    requires Stuck(rx, deflate)
    ensures Stuck(ReadPieces(codec, deflate, r, rx, pieces).rest, deflate)
    decreases |pieces|
  {
    hide OnFrame, Stuck, UnmaskHead, TakeFrame;
    if pieces != [] {
      StuckAppend(rx, pieces[0], deflate);
      StuckTakesNothing(rx + pieces[0], deflate);
      StuckStays(rx + pieces[0], deflate);
      PiecesStayStuck(codec, deflate, r, UnmaskHead(rx + pieces[0], deflate), pieces[1..]);
    }
  }

  // ------------------------------------------------------------------ streams written by a peer

  /** A frame on the wire, with the masking choice of the writer. */
  datatype WireFrame = WireFrame(frame: Frame, masked: bool, key: Key)

  function Encode(w: WireFrame): (r: bytes) { EncodeFrame(w.frame, w.masked, w.key) }

  function EncodeAll(ws: seq<WireFrame>): (r: bytes) {
    if ws == [] then [] else Encode(ws[0]) + EncodeAll(ws[1..])
  }

  function Frames(ws: seq<WireFrame>): (fs: seq<Frame>)
    ensures |fs| == |ws| && forall i | 0 <= i < |ws| :: fs[i] == ws[i].frame
  {
    seq(|ws|, i requires 0 <= i < |ws| => ws[i].frame)
  }

  lemma {:induction false} EncodeAllAppend(a: seq<WireFrame>, b: seq<WireFrame>)
    ensures EncodeAll(a + b) == EncodeAll(a) + EncodeAll(b)
  {
    if a == [] {
      assert a + b == b;
    } else {
      assert (a + b)[1..] == a[1..] + b;
      EncodeAllAppend(a[1..], b);
    }
  }

  lemma TakeEncoded(w: WireFrame, tail: bytes, deflate: bool)
    requires Acceptable(w.frame, deflate)
    ensures TakeFrame(Encode(w) + tail, deflate) == Some((w.frame, tail))
  {
    FrameRoundTrip(w.frame, w.masked, w.key, tail, deflate);
  }

  /** Reading a stream of encoded frames is reading the frames themselves. */
  lemma {:induction false} ReadEncoded(codec: Codec, deflate: bool, r: Reader, ws: seq<WireFrame>, tail: bytes)
    requires forall i | 0 <= i < |ws| :: Acceptable(ws[i].frame, deflate)
    ensures var (r', cbs) := OnFrames(codec, deflate, r, Frames(ws));
            var t := ReadAll(codec, deflate, r', tail);
            ReadAll(codec, deflate, r, EncodeAll(ws) + tail) == t.(callbacks := cbs + t.callbacks)
    decreases |ws|
  {
    hide TakeFrame, OnFrame, Encode, UnmaskHead, Acceptable;
    if ws == [] {
      assert EncodeAll(ws) + tail == tail;
      var t := ReadAll(codec, deflate, r, tail);
      assert [] + t.callbacks == t.callbacks;
    } else {
      var f := ws[0].frame;
      var rest := EncodeAll(ws[1..]) + tail;
      assert EncodeAll(ws) + tail == Encode(ws[0]) + rest;
      TakeEncoded(ws[0], rest, deflate);
      assert Frames(ws)[1..] == Frames(ws[1..]);
      var (r1, cb1) := OnFrame(codec, deflate, r, f);
      var (r2, cb2) := OnFrames(codec, deflate, r1, Frames(ws[1..]));
      ReadEncoded(codec, deflate, r1, ws[1..], tail);
      var t := ReadAll(codec, deflate, r2, tail);
      assert cb1 + (cb2 + t.callbacks) == (cb1 + cb2) + t.callbacks;
    }
  }
}

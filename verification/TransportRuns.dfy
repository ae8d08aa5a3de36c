/** What every operation of the transport keeps, and what follows for whole runs. */
module TransportRuns {
  import opened Bytes
  import opened Framing
  import opened Reassembly
  import opened Delivery
  import opened TransportSpec
  import opened Numbers
  import Utf8Validator

  // ------------------------------------------------------------------ invariants and step relations

  /** The bytes the socket took, followed by the send buffer, are the frames appended so far. */
  predicate Conserves(c: Conn) { c.socket.accepted + c.tx == EncodeAll(c.log) }

  /** One connection is open, or none is, and every other one has been reported closed. */
  predicate Balanced(c: Conn) {
    c.trace.opens == |c.trace.reports| + (if c.state == OPEN || c.state == CLOSING then 1 else 0)
  }

  /** A closing handshake is always a local one, and poll knows that it must not wait long. */
  predicate Guarded(c: Conn) { c.state == CLOSING ==> c.cancel && !c.close.remote }

  /** A closed connection has no open socket. */
  predicate Shut(c: Conn) { c.state == CLOSED ==> !c.socket.open }

  /** An open connection has an open socket. */
  predicate Sound(c: Conn) { c.state == OPEN ==> c.socket.open }

  predicate SameReason(a: CloseData, b: CloseData) {
    a.code == b.code && a.reason == b.reason && a.remote == b.remote
  }

  /** How the ready state may move while no new connection is made, and what is reported on the way. */
  predicate Lifecycle(c: Conn, c': Conn) {
    var n := |c.trace.reports|;
    match c.state
    case CLOSED => c'.state == CLOSED && c'.trace.reports == c.trace.reports
    case CLOSING =>
      || (c'.state == CLOSING && c'.trace.reports == c.trace.reports && SameReason(c.close, c'.close)
          && c'.clock.closingAt == c.clock.closingAt)
      || (c'.state == CLOSED && |c'.trace.reports| == n + 1 && c.trace.reports <= c'.trace.reports
          && SameReason(c.close, c'.trace.reports[n]))
    case OPEN =>
      || ((c'.state == OPEN || c'.state == CLOSING) && c'.trace.reports == c.trace.reports)
      || (c'.state == CLOSED && |c'.trace.reports| == n + 1 && c.trace.reports <= c'.trace.reports)
    case CONNECTING => true
  }

  predicate Core(c: Conn, c': Conn) {
    && c'.cfg == c.cfg && c'.trace.opens == c.trace.opens
    && c.socket.accepted <= c'.socket.accepted
    && c.trace.delivered <= c'.trace.delivered
    && c.log <= c'.log
    && Lifecycle(c, c')
    && (Conserves(c) ==> Conserves(c'))
    && (Guarded(c) ==> Guarded(c'))
    && (Shut(c) ==> Shut(c'))
    && (c'.socket.open ==> c.socket.open)
    && (c.state != CONNECTING && c'.state == OPEN ==> c'.cancel == c.cancel)
  }

  /** Operations that write: nothing is read or delivered, and a socket is closed only with the connection. */
  predicate Writes(c: Conn, c': Conn) {
    && Core(c, c') && (Sound(c) ==> Sound(c'))
    && c'.rx == c.rx && c'.reader == c.reader && c'.trace.delivered == c.trace.delivered
  }

  /** No control frame in the log is fragmented. */
  predicate SingleControls(log: seq<WireFrame>) {
    forall i | 0 <= i < |log| :: IsControl(log[i].frame) ==> log[i].frame.fin
  }

  /** No control frame up to the one at `i` is fragmented. */
  predicate SingleUpTo(log: seq<WireFrame>, i: nat) {
    forall k | 0 <= k <= i && k < |log| :: IsControl(log[k].frame) ==> log[k].frame.fin
  }

  /** A control frame that any peer accepts. */
  predicate PlainControl(f: Frame) {
    IsControl(f) && f.fin && !f.rsv1 && |f.payload| < 65536 && (f.opcode == PING ==> |f.payload| <= 125)
  }

  /**
    * The log has grown by plain control frames: by nothing else if all were `short` enough to go out whole, and
    * otherwise up to the first one that had to be fragmented.
    */
  predicate ControlExtends(c: Conn, c': Conn, short: bool) {
    && c.log <= c'.log
    && forall i | |c.log| <= i < |c'.log| ::
         && |c'.log[i].frame.payload| < 65536
         && (short || SingleUpTo(c'.log, i) ==> PlainControl(c'.log[i].frame))
  }

  /** The ping interval is an `int` in the source. */
  predicate ConfigOk(cfg: Config) { cfg.pingInterval < 0x8000_0000 }

  lemma CoreTransitive(a: Conn, b: Conn, c: Conn)
    requires Core(a, b) && Core(b, c)
    ensures Core(a, c)
  {
  }

  lemma WritesTransitive(a: Conn, b: Conn, c: Conn)
    requires Writes(a, b) && Writes(b, c)
    ensures Writes(a, c)
  {
  }

  lemma ControlTransitive(a: Conn, b: Conn, c: Conn, short: bool)
    requires ControlExtends(a, b, short) && ControlExtends(b, c, short)
    ensures ControlExtends(a, c, short)
  {
    hide PlainControl;
    assert forall k | 0 <= k < |b.log| :: b.log[k] == c.log[k];
    forall i | |a.log| <= i < |c.log|
      ensures |c.log[i].frame.payload| < 65536
      ensures short || SingleUpTo(c.log, i) ==> PlainControl(c.log[i].frame)
    {
      if i < |b.log| {
        assert SingleUpTo(c.log, i) ==> SingleUpTo(b.log, i);
      }
    }
  }

  lemma ControlWeakens(c: Conn, c': Conn, short: bool)
    requires ControlExtends(c, c', true)
    ensures ControlExtends(c, c', short)
  {
  }

  // ------------------------------------------------------------------ writing

  lemma ToClosedWrites(c: Conn)
    ensures Writes(c, ToClosed(CloseSocket(c))) && ToClosed(CloseSocket(c)).log == c.log
  {
  }

  lemma TakeBytesWrites(c: Conn, n: nat)
    requires n <= |c.tx|
    ensures Writes(c, TakeBytes(c, n)) && TakeBytes(c, n).log == c.log
  {
    var c' := TakeBytes(c, n);
    assert c.tx == c.tx[..n] + c.tx[n..];
    assert c'.socket.accepted + c'.tx == c.socket.accepted + c.tx;
  }

  /** sendOnSocket moves bytes from the buffer to the socket and changes nothing else but, on an error, the state. */
  lemma {:induction false} DrainWrites(env: Env, c: Conn)
    ensures Writes(c, Drain(env, c)) && Drain(env, c).log == c.log
    decreases |c.tx|
  {
    hide Writes, ToClosed, CloseSocket, TakeBytes;
    if c.tx == [] {
      WritesReflexive(c);
    } else {
      var r := NextWrite(env, c);
      var n := Taken(r, |c.tx|);
      TakeBytesWrites(c, n);
      TakeShrinks(c, n);
      if n > 0 {
        DrainWrites(env, TakeBytes(c, n));
        WritesTransitive(c, TakeBytes(c, n), Drain(env, c));
      } else if !r.WouldBlock? {
        ToClosedWrites(TakeBytes(c, 0));
        WritesTransitive(c, TakeBytes(c, 0), Drain(env, c));
      }
    }
  }

  lemma TakeShrinks(c: Conn, n: nat)
    requires n <= |c.tx|
    ensures |TakeBytes(c, n).tx| == |c.tx| - n
  {
  }

  lemma WritesReflexive(c: Conn)
    ensures Writes(c, c)
  {
  }

  lemma AppendWrites(c: Conn, w: WireFrame, drawn: nat)
    ensures Writes(c, Append(c, w).(drawn := drawn))
  {
    EncodeAllAppend(c.log, [w]);
    assert EncodeAll([w]) == Encode(w) + EncodeAll([]);
    assert c.socket.accepted + (c.tx + Encode(w)) == (c.socket.accepted + c.tx) + Encode(w);
  }

  lemma SendFragmentWrites(env: Env, c: Conn, f: Frame)
    ensures Writes(c, SendFragment(env, c, f))
    ensures SendFragment(env, c, f).log == c.log + [OnWire(env, c, f)]
  {
    hide Writes, Drain;
    var c1 := Append(c, OnWire(env, c, f)).(drawn := c.drawn + 1);
    AppendWrites(c, OnWire(env, c, f), c.drawn + 1);
    DrainWrites(env, c1);
    WritesTransitive(c, c1, Drain(env, c1));
  }

  lemma {:induction false} SendFragmentsWrites(env: Env, c: Conn, fs: seq<Frame>) returns (ws: seq<WireFrame>)
    ensures Writes(c, SendFragments(env, c, fs))
    ensures SendFragments(env, c, fs).log == c.log + ws && Frames(ws) == fs
    decreases |fs|
  {
    hide Writes, SendFragment;
    if fs == [] {
      WritesReflexive(c);
      ws := [];
    } else {
      var c1 := SendFragment(env, c, fs[0]);
      SendFragmentWrites(env, c, fs[0]);
      var more := SendFragmentsWrites(env, c1, fs[1..]);
      WritesTransitive(c, c1, SendFragments(env, c1, fs[1..]));
      ws := [OnWire(env, c, fs[0])] + more;
    }
  }

  /** The fragments of a control message: one plain frame, or a cut one and more. */
  lemma FragmentsExtend(c: Conn, c': Conn, ws: seq<WireFrame>, opcode: Opcode, payload: bytes)
    requires opcode == Framing.CLOSE || opcode == PING || opcode == PONG
    requires opcode == PING ==> |payload| <= 125
    requires c'.log == c.log + ws && Frames(ws) == Fragments(opcode, false, payload)
    ensures ControlExtends(c, c', |payload| < 65536)
  {
    hide Fragment;
    var fs, n := Fragments(opcode, false, payload), |c.log|;
    forall i | n <= i < |c'.log|
      ensures |c'.log[i].frame.payload| < 65536
      ensures |payload| < 65536 ==> PlainControl(c'.log[i].frame)
      ensures |payload| >= 65536 ==> !SingleUpTo(c'.log, i)
    {
      assert c'.log[i] == ws[i - n] && c'.log[n] == ws[0];
      assert ws[i - n].frame == fs[i - n] && ws[0].frame == fs[0];
      FragmentsAreShort(opcode, false, payload, i - n);
      FirstIsControl(opcode, payload);
    }
  }

  lemma FirstIsControl(opcode: Opcode, payload: bytes)
    requires opcode == Framing.CLOSE || opcode == PING || opcode == PONG
    requires opcode == PING ==> |payload| <= 125
    ensures var f := Fragment(opcode, false, payload, 0);
            && IsControl(f) && (f.fin <==> |payload| < 65536)
            && (|payload| < 65536 ==> PlainControl(f) && |Fragments(opcode, false, payload)| == 1)
  {
  }

  lemma SendControl(env: Env, c: Conn, opcode: Opcode, payload: bytes)
    requires opcode == Framing.CLOSE || opcode == PING || opcode == PONG
    requires opcode == PING ==> |payload| <= 125
    ensures Writes(c, SendData(env, c, opcode, payload, false))
    ensures ControlExtends(c, SendData(env, c, opcode, payload, false), |payload| < 65536)
  {
    hide Writes, SendFragments, Fragments, ControlExtends;
    if !MaySend(c) {
      WritesReflexive(c);
      ControlReflexive(c, c);
    } else {
      var fs := Fragments(opcode, false, payload);
      var ws := SendFragmentsWrites(env, c, fs);
      FragmentsExtend(c, SendFragments(env, c, fs), ws, opcode, payload);
    }
  }

  lemma SendPingWrites(env: Env, c: Conn, message: bytes, now: int)
    requires |message| <= 125
    ensures Writes(c, SendPing(env, c, message, now)) && ControlExtends(c, SendPing(env, c, message, now), true)
  {
    SendControl(env, c, PING, message);
  }

  lemma CloseWrites(env: Env, c: Conn, code: nat, reason: bytes, wireSize: nat, now: int)
    requires c.state != CONNECTING
    ensures Writes(c, Close(env, c, code, reason, wireSize, now))
    ensures ControlExtends(c, Close(env, c, code, reason, wireSize, now), |reason| + 2 < 65536)
    ensures Close(env, c, code, reason, wireSize, now).state != OPEN
  {
    if c.state == OPEN {
      var size := if wireSize == 0 then |reason| else wireSize;
      var c1 := c.(cancel := true).(close := CloseData(code, reason, size, false),
                                    clock := c.clock.(closingAt := now), state := CLOSING);
      var short := |reason| + 2 < 65536;
      assert Writes(c, c1) && ControlExtends(c, c1, short);
      CloseFrameWrites(env, c1, code, reason);
      WritesTransitive(c, c1, SendCloseFrame(env, c1, code, reason));
      ControlTransitive(c, c1, SendCloseFrame(env, c1, code, reason), short);
    }
  }

  lemma CloseFrameWrites(env: Env, c: Conn, code: nat, reason: bytes)
    ensures Writes(c, SendCloseFrame(env, c, code, reason))
    ensures ControlExtends(c, SendCloseFrame(env, c, code, reason), |reason| + 2 < 65536)
  {
    hide Writes, SendData, ControlExtends;
    SendControl(env, c, Framing.CLOSE, ClosePayload(code, reason));
    if code == NO_STATUS {
      ControlWeakens(c, SendCloseFrame(env, c, code, reason), |reason| + 2 < 65536);
    }
  }

  // ------------------------------------------------------------------ reading

  /** An operation on one frame: the reader and the callbacks do exactly what Reassembly says. */
  predicate Handles(env: Env, c: Conn, f: Frame, c': Conn) {
    && Core(c, c') && (Sound(c) ==> Sound(c'))
    && ControlExtends(c, c', |f.payload| < 65536) && c'.rx == c.rx
    && c'.reader == OnFrame(env.codec, c.cfg.deflate, c.reader, f).0
    && c'.trace.delivered == c.trace.delivered + OnFrame(env.codec, c.cfg.deflate, c.reader, f).1
  }

  lemma EmitHandles(env: Env, c: Conn, cb: Callback, now: int)
    requires c.state != CONNECTING
    ensures var c' := Emit(env, c, cb, now);
            && Core(c, c') && (Sound(c) ==> Sound(c'))
            && ControlExtends(c, c', true) && c'.rx == c.rx && c'.reader == c.reader
            && c'.trace.delivered == c.trace.delivered + Emitted(cb)
  {
    hide Close, Emittable, ControlExtends;
    if Emittable(cb) {
      ControlReflexive(c, Emit(env, c, cb, now));
    } else {
      CloseWrites(env, c, INVALID_PAYLOAD, INVALID_PAYLOAD_MESSAGE, 0, now);
    }
  }

  lemma ControlReflexive(c: Conn, c': Conn)
    requires c'.log == c.log
    ensures ControlExtends(c, c', true) && ControlExtends(c, c', false)
  {
  }

  lemma CheckSequenceWrites(env: Env, c: Conn, f: Frame, now: int)
    requires c.state != CONNECTING
    ensures var c' := CheckSequence(env, c, f, now);
            Writes(c, c') && ControlExtends(c, c', true) && c'.state != CONNECTING
  {
    hide Close, Writes, ControlExtends;
    WritesReflexive(c);
    ControlReflexive(c, c);
    CloseWrites(env, c, PROTOCOL_ERROR, DATA_SEQUENCE_MESSAGE, 0, now);
    CloseWrites(env, c, PROTOCOL_ERROR, CONTINUATION_SEQUENCE_MESSAGE, 0, now);
    NeverConnecting(c, CheckSequence(env, c, f, now));
  }

  lemma NeverConnecting(c: Conn, c': Conn)
    ensures c.state != CONNECTING && Core(c, c') ==> c'.state != CONNECTING
    ensures c.state != CONNECTING && Writes(c, c') ==> c'.state != CONNECTING
  {
  }

  lemma HandleDataHandles(env: Env, c: Conn, f: Frame, now: int)
    requires c.state != CONNECTING && IsData(f)
    ensures Handles(env, c, f, HandleData(env, c, f, now))
  {
    hide CheckSequence, Emit, OnDataFrame, ControlExtends, Lifecycle, Conserves;
    var (r, cb) := OnDataFrame(env.codec, c.cfg.deflate, c.reader, f);
    var c1 := CheckSequence(env, c, f, now);
    CheckSequenceWrites(env, c, f, now);
    var c2 := c1.(reader := r);
    ReaderIsOutside(c1, r);
    CoreTransitive(c, c1, c2);
    ControlReflexive(c1, c2);
    ControlTransitive(c, c1, c2, true);
    EmitHandles(env, c2, cb, now);
    CoreTransitive(c, c2, Emit(env, c2, cb, now));
    ControlTransitive(c, c2, Emit(env, c2, cb, now), true);
    ControlWeakens(c, Emit(env, c2, cb, now), |f.payload| < 65536);
  }

  lemma ReaderIsOutside(c: Conn, r: Reader)
    ensures Core(c, c.(reader := r))
  {
  }

  lemma FinishCore(c: Conn, data: CloseData)
    requires c.state == CLOSING ==> SameReason(c.close, data)
    ensures Writes(c, Finish(c, data)) && Finish(c, data).log == c.log
  {
  }

  lemma HandleCloseHandles(env: Env, c: Conn, f: Frame)
    requires c.state != CONNECTING && f.opcode == Framing.CLOSE && Guarded(c)
    ensures Handles(env, c, f, HandleClose(env, c, f))
  {
    hide CloseStatus, SendCloseFrame, Writes, ControlExtends;
    var (code, reason) := CloseStatus(f.payload);
    var short := |f.payload| < 65536;
    if c.state != CLOSING {
      var c1 := SendCloseFrame(env, c, code, reason);
      CloseFrameWrites(env, c, code, reason);
      EchoIsShort(f.payload);
      if |reason| + 2 < 65536 { ControlWeakens(c, c1, short); }
      NeverClosing(env, c, code, reason);
      FinishCore(c1, CloseData(code, reason, |c.rx|, true));
      WritesTransitive(c, c1, HandleClose(env, c, f));
      ControlReflexive(c1, HandleClose(env, c, f));
      ControlTransitive(c, c1, HandleClose(env, c, f), short);
      WritesMeansHandles(env, c, f, HandleClose(env, c, f));
    } else if c.close.code == code && c.close.reason == reason {
      FinishCore(c, CloseData(code, reason, |c.rx|, false));
      ControlReflexive(c, HandleClose(env, c, f));
      WritesMeansHandles(env, c, f, HandleClose(env, c, f));
    } else {
      WritesReflexive(c);
      ControlReflexive(c, c);
      WritesMeansHandles(env, c, f, c);
    }
  }

  /** The answer to a CLOSE frame that came whole goes out whole. */
  lemma EchoIsShort(payload: bytes)
    ensures |payload| < 65536 ==> |CloseStatus(payload).1| + 2 < 65536
  {
    hide Utf8Validator.Valid;
    if |payload| >= 2 {
      var code := Length2(payload[0], payload[1]);
      assert Power10(5) == 100000;
      DecimalLength(code, 5, 100000);
      DecimalLength(INVALID_PAYLOAD, 5, 100000);
    }
  }

  /** Sending a close frame never starts a closing handshake. */
  lemma NeverClosing(env: Env, c: Conn, code: nat, reason: bytes)
    requires c.state == OPEN || c.state == CLOSED
    ensures SendCloseFrame(env, c, code, reason).state != CLOSING
  {
    if MaySend(c) {
      SendKeepsState(env, c, Fragments(Framing.CLOSE, false, ClosePayload(code, reason)));
    }
  }

  lemma {:induction false} DrainKeepsState(env: Env, c: Conn)
    ensures Drain(env, c).state == c.state || Drain(env, c).state == CLOSED
    decreases |c.tx|
  {
    if c.tx != [] {
      var n := Taken(NextWrite(env, c), |c.tx|);
      if n > 0 {
        DrainKeepsState(env, TakeBytes(c, n));
      }
    }
  }

  lemma {:induction false} SendKeepsState(env: Env, c: Conn, fs: seq<Frame>)
    ensures SendFragments(env, c, fs).state == c.state || SendFragments(env, c, fs).state == CLOSED
    decreases |fs|
  {
    if fs != [] {
      DrainKeepsState(env, Append(c, OnWire(env, c, fs[0])).(drawn := c.drawn + 1));
      SendKeepsState(env, SendFragment(env, c, fs[0]), fs[1..]);
    }
  }

  lemma WritesMeansHandles(env: Env, c: Conn, f: Frame, c': Conn)
    requires Writes(c, c') && ControlExtends(c, c', |f.payload| < 65536)
    requires OnFrame(env.codec, c.cfg.deflate, c.reader, f) == (c.reader, [])
    ensures Handles(env, c, f, c')
  {
  }

  lemma HandlePingHandles(env: Env, c: Conn, f: Frame)
    requires f.opcode == PING
    ensures Handles(env, c, f, HandlePing(env, c, f))
  {
    hide SendData, ControlExtends, Lifecycle, Conserves;
    var c1 := if c.cfg.enablePong then SendData(env, c, PONG, f.payload, false) else c;
    if c.cfg.enablePong {
      SendControl(env, c, PONG, f.payload);
    } else {
      WritesReflexive(c);
      ControlReflexive(c, c);
    }
    var cb := Callback(MsgPing, f.payload, |f.payload|, false);
    DeliverCore(c1, cb);
    CoreTransitive(c, c1, Deliver(c1, cb));
    ControlReflexive(c1, Deliver(c1, cb));
    ControlTransitive(c, c1, Deliver(c1, cb), |f.payload| < 65536);
  }

  lemma DeliverCore(c: Conn, cb: Callback)
    ensures Core(c, Deliver(c, cb))
  {
  }

  lemma HandleFrameHandles(env: Env, c: Conn, f: Frame, now: int)
    requires c.state != CONNECTING && Guarded(c)
    ensures Handles(env, c, f, HandleFrame(env, c, f, now))
  {
    hide HandleData, HandlePing, HandleClose, Close, Handles;
    if IsData(f) {
      HandleDataHandles(env, c, f, now);
    } else if f.opcode == PING {
      HandlePingHandles(env, c, f);
    } else if f.opcode == PONG {
      HandlePongHandles(env, c, f, now);
    } else if f.opcode == Framing.CLOSE {
      HandleCloseHandles(env, c, f);
    } else {
      CloseWrites(env, c, PROTOCOL_ERROR, PROTOCOL_ERROR_MESSAGE, |c.rx|, now);
      ControlWeakens(c, HandleFrame(env, c, f, now), |f.payload| < 65536);
      WritesMeansHandles(env, c, f, HandleFrame(env, c, f, now));
    }
  }

  lemma HandlePongHandles(env: Env, c: Conn, f: Frame, now: int)
    requires f.opcode == PONG
    ensures Handles(env, c, f, HandlePong(c, f, now))
  {
  }

  /** dispatch reads its buffer exactly as Reassembly.ReadAll does, whatever happens to the ready state meanwhile. */
  predicate Reads(env: Env, c: Conn, c': Conn) {
    var read := ReadAll(env.codec, c.cfg.deflate, c.reader, c.rx);
    && Core(c, c') && (Sound(c) ==> Sound(c')) && ControlExtends(c, c', false)
    && c'.reader == read.reader && c'.rx == read.rest
    && c'.trace.delivered == c.trace.delivered + read.callbacks
  }

  lemma LeaveLoopReads(env: Env, c: Conn, now: int)
    requires c.state != CONNECTING && TakeFrame(c.rx, c.cfg.deflate).None?
    ensures Reads(env, c, LeaveLoop(env, c, now).0) && ControlExtends(c, LeaveLoop(env, c, now).0, true)
  {
    hide Close, NextFrame, Writes, ControlExtends, UnmaskHead;
    var rx := UnmaskHead(c.rx, c.cfg.deflate);
    NothingTaken(c.rx, c.cfg.deflate);
    var c1 := c.(rx := rx);
    BufferIsOutside(c, rx);
    var c' := LeaveLoop(env, c, now).0;
    HeadOf(c.rx, c.cfg.deflate);
    WritesReflexive(c1);
    ControlReflexive(c1, c1);
    CloseWrites(env, c1, PROTOCOL_ERROR, RESERVED_BIT_MESSAGE, |c.rx|, now);
    CloseWrites(env, c1, PROTOCOL_ERROR, CONTROL_FRAGMENTED_MESSAGE, 0, now);
    CloseWrites(env, c1, PROTOCOL_ERROR, PING_OVERSIZED_MESSAGE, 0, now);
    assert Writes(c1, c') && ControlExtends(c1, c', true);
    ControlReflexive(c, c1);
    ControlTransitive(c, c1, c', true);
    ControlWeakens(c, c', false);
    WritesAreCore(c1, c');
    CoreTransitive(c, c1, c');
  }

  lemma WritesAreCore(c: Conn, c': Conn)
    requires Writes(c, c')
    ensures Core(c, c') && (Sound(c) ==> Sound(c'))
    ensures c'.rx == c.rx && c'.reader == c.reader && c'.trace.delivered == c.trace.delivered
  {
  }

  lemma HeadOf(rx: bytes, deflate: bool)
    ensures !NextFrame(rx, deflate).Complete? ==> UnmaskHead(rx, deflate) == rx
  {
  }

  lemma BufferIsOutside(c: Conn, rx: bytes)
    ensures Core(c, c.(rx := rx))
  {
  }

  lemma {:induction false} DispatchLoopReads(env: Env, c: Conn, now: int)
    requires c.state != CONNECTING && Guarded(c)
    ensures Reads(env, c, DispatchLoop(env, c, now).0)
    decreases |c.rx|
  {
    hide TakeFrame, LeaveLoop, HandleFrame, OnFrame, ControlExtends, Lifecycle, Conserves, UnmaskHead;
    match TakeFrame(c.rx, c.cfg.deflate)
    case None => LeaveLoopReads(env, c, now);
    case Some((f, rest)) =>
      var c0 := c.(rx := UnmaskHead(c.rx, c.cfg.deflate));
      var c1 := HandleFrame(env, c0, f, now);
      var c2 := c1.(rx := rest);
      BufferIsOutside(c, c0.rx);
      GuardedBuffer(c, c0.rx);
      HandleFrameHandles(env, c0, f, now);
      BufferIsOutside(c1, rest);
      CoreTransitive(c, c0, c1);
      CoreTransitive(c, c1, c2);
      ControlReflexive(c, c0);
      if |f.payload| < 65536 { ControlWeakens(c0, c1, false); }
      ControlTransitive(c, c0, c1, false);
      ControlReflexive(c1, c2);
      ControlTransitive(c, c1, c2, false);
      NeverConnecting(c, c2);
      DispatchLoopReads(env, c2, now);
      CoreTransitive(c, c2, DispatchLoop(env, c2, now).0);
      ControlTransitive(c, c2, DispatchLoop(env, c2, now).0, false);
  }

  lemma GuardedBuffer(c: Conn, rx: bytes)
    requires Guarded(c)
    ensures Guarded(c.(rx := rx))
  {
  }

  lemma AfterAbnormalCore(c: Conn)
    requires c.state != CONNECTING
    ensures Core(c, AfterAbnormal(c)) && AfterAbnormal(c).log == c.log && AfterAbnormal(c).state == CLOSED
    ensures AfterAbnormal(c).trace.delivered == c.trace.delivered
  {
  }

  lemma DispatchCore(env: Env, c: Conn, result: PollResult, now: int)
    requires c.state != CONNECTING && Guarded(c)
    ensures var c' := Dispatch(env, c, result, now);
            && Core(c, c') && (Sound(c) ==> Sound(c')) && ControlExtends(c, c', false)
            && c'.trace.delivered == c.trace.delivered + ReadAll(env.codec, c.cfg.deflate, c.reader, c.rx).callbacks
            && (result == Succeeded ==> Reads(env, c, c'))
  {
    hide DispatchLoop, AfterAbnormal, ReadAll, Core, ControlExtends;
    DispatchLoopReads(env, c, now);
    var (c1, broke) := DispatchLoop(env, c, now);
    if broke && result == AbnormalClose {
      NeverConnecting(c, c1);
      AfterAbnormalCore(c1);
      CoreTransitive(c, c1, AfterAbnormal(c1));
      ControlReflexive(c1, AfterAbnormal(c1));
      ControlTransitive(c, c1, AfterAbnormal(c1), false);
    }
  }

  // ------------------------------------------------------------------ polling

  /** poll may fill or clear the receive buffer, delivers nothing and writes nothing but whole control frames. */
  predicate Polls(c: Conn, c': Conn) {
    Core(c, c') && ControlExtends(c, c', true) && c'.reader == c.reader && c'.trace.delivered == c.trace.delivered
  }

  lemma PollsTransitive(a: Conn, b: Conn, c: Conn)
    requires Polls(a, b) && Polls(b, c)
    ensures Polls(a, c)
  {
    hide ControlExtends;
    CoreTransitive(a, b, c);
    ControlTransitive(a, b, c, true);
  }

  lemma WritesArePolls(c: Conn, c': Conn)
    requires Writes(c, c') && (c'.log == c.log || ControlExtends(c, c', true))
    ensures Polls(c, c')
  {
  }

  lemma {:induction false} DecimalLength(n: nat, k: nat, limit: nat)
    requires k >= 1 && n < limit && limit == Power10(k)
    ensures |Decimal(n)| <= k
    decreases k
  {
    if n >= 10 {
      DecimalLength(n / 10, k - 1, Power10(k - 1));
    }
  }

  function Power10(k: nat): nat { if k == 0 then 1 else 10 * Power10(k - 1) }

  /** The heartbeat of poll fits into a control frame. */
  lemma HeartbeatIsShort(c: Conn)
    requires ConfigOk(c.cfg) && c.cfg.pingInterval > 0
    ensures |HeartbeatMessage(c)| <= 125
  {
    assert Power10(5) == 100000;
    assert Power10(10) == 10_000_000_000;
    DecimalLength(c.cfg.pingInterval, 10, 10_000_000_000);
  }

  lemma PollTimersPolls(env: Env, c: Conn, now: int)
    requires c.state != CONNECTING && ConfigOk(c.cfg)
    ensures Polls(c, PollTimers(env, c, now))
  {
    hide Close, SendPing, Writes, ControlExtends, Polls, HeartbeatMessage;
    WritesReflexive(c);
    WritesArePolls(c, c);
    CloseWrites(env, c, INTERNAL_ERROR, PING_TIMEOUT_MESSAGE, 0, now);
    WritesArePolls(c, Close(env, c, INTERNAL_ERROR, PING_TIMEOUT_MESSAGE, 0, now));
    if c.cfg.pingInterval > 0 {
      HeartbeatIsShort(c);
      SendPingWrites(env, c, HeartbeatMessage(c), now);
      WritesArePolls(c, SendPing(env, c, HeartbeatMessage(c), now));
    }
  }

  lemma {:induction false} DrainRequestWrites(env: Env, c: Conn, rs: seq<Readiness>)
    ensures Writes(c, DrainRequest(env, c, rs)) && DrainRequest(env, c, rs).log == c.log
    decreases |rs|
  {
    hide Writes, Drain, ToClosed, CloseSocket;
    WritesReflexive(c);
    if rs != [] {
      ToClosedWrites(c);
      DrainWrites(env, c);
      DrainRequestWrites(env, c, rs[1..]);
      DrainRequestWrites(env, Drain(env, c), rs[1..]);
      WritesTransitive(c, Drain(env, c), DrainRequest(env, Drain(env, c), rs[1..]));
    }
  }

  lemma ApplyInputPolls(env: Env, c: Conn, input: PollInput)
    ensures Polls(c, ApplyInput(env, c, input))
  {
    match input
    case SendRequest(rs) =>
      hide DrainRequest;
      DrainRequestWrites(env, c, rs);
    case _ =>
  }

  lemma CheckClosingDelayPolls(c: Conn, later: int)
    ensures Polls(c, CheckClosingDelay(c, later))
  {
  }

  lemma GcdPolls(c: Conn, next: int)
    ensures Polls(c, c.(clock := c.clock.(nextGcd := next)))
  {
  }

  lemma PollPolls(env: Env, c: Conn, now: int, input: PollInput, later: int)
    requires c.state != CONNECTING && ConfigOk(c.cfg)
    ensures Polls(c, Poll(env, c, now, input, later).0)
  {
    hide Polls, PollTimers, PollWait, ApplyInput, CheckClosingDelay;
    var c1 := PollTimers(env, c, now);
    var c2 := c1.(clock := c1.clock.(nextGcd := PollWait(c1, now).1));
    var actual := ActualInput(c2, input);
    var c3 := ApplyInput(env, c2, actual);
    PollTimersPolls(env, c, now);
    GcdPolls(c1, PollWait(c1, now).1);
    PollsTransitive(c, c1, c2);
    ApplyInputPolls(env, c2, actual);
    PollsTransitive(c, c2, c3);
    CheckClosingDelayPolls(c3, later);
    PollsTransitive(c, c3, CheckClosingDelay(c3, later));
  }

  // ------------------------------------------------------------------ runs

  /** One atomic step. A fragment step is one pass of a sendData loop running on another thread. */
  datatype Step =
    | Connected(now: int)
    | ConnectionFailed(reached: bool)
    | TextCall(text: bytes, now: int)
    | BinaryCall(data: bytes)
    | PingCall(text: bytes, now: int)
    | OneFragment(frame: Frame)
    | CloseCall(code: nat, reason: bytes, now: int)
    | PollCall(now: int, input: PollInput, later: int)
    | DispatchCall(result: PollResult, now: int)

  function Do(env: Env, c: Conn, s: Step): (c': Conn) {
    match s
    case Connected(now) => if c.state == CLOSED then Connect(c, now) else c
    case ConnectionFailed(reached) => if c.state == CLOSED then ConnectFails(c, reached) else c
    case TextCall(text, now) => SendText(env, c, text, now)
    case BinaryCall(data) => SendBinary(env, c, data)
    case PingCall(text, now) => UserPing(env, c, text, now)
    case OneFragment(f) => SendFragment(env, c, f)
    case CloseCall(code, reason, now) => Close(env, c, code, reason, 0, now)
    case PollCall(now, input, later) => Poll(env, c, now, input, later).0
    case DispatchCall(result, now) => Dispatch(env, c, result, now)
  }

  function Run(env: Env, c: Conn, steps: seq<Step>): (c': Conn)
    decreases |steps|
  {
    if steps == [] then c else Run(env, Do(env, c, steps[0]), steps[1..])
  }

  predicate Invariant(c: Conn) {
    c.state != CONNECTING && ConfigOk(c.cfg) && Conserves(c) && Balanced(c) && Guarded(c) && Shut(c)
  }

  lemma CoreKeepsInvariant(c: Conn, c': Conn)
    requires Invariant(c) && Core(c, c')
    ensures Invariant(c')
  {
  }

  lemma SendDataWrites(env: Env, c: Conn, opcode: Opcode, message: bytes, compress: bool)
    ensures Writes(c, SendData(env, c, opcode, message, compress))
  {
    hide Writes, SendFragments, Fragments;
    WritesReflexive(c);
    if MaySend(c) && WireBytes(env, message, compress).Some? {
      var ws := SendFragmentsWrites(env, c, Fragments(opcode, compress, WireBytes(env, message, compress).value));
    }
  }

  lemma StepCore(env: Env, c: Conn, s: Step)
    requires c.state != CONNECTING && ConfigOk(c.cfg) && Guarded(c) && !s.Connected?
    ensures Core(c, Do(env, c, s))
    ensures !s.PollCall? && Sound(c) ==> Sound(Do(env, c, s))
  {
    hide Writes, Core, Sound, SendText, SendBinary, UserPing, SendFragment, Close, Poll, Dispatch;
    WritesReflexive(c);
    match s
    case ConnectionFailed(reached) => assert Writes(c, Do(env, c, s)) by { FailWrites(c, reached); }
      WritesAreCore(c, Do(env, c, s));
    case TextCall(text, now) => FrontEndWrites(env, c, text, now);
      WritesAreCore(c, Do(env, c, s));
    case BinaryCall(data) => FrontEndWrites(env, c, data, 0);
      WritesAreCore(c, Do(env, c, s));
    case PingCall(text, now) => FrontEndWrites(env, c, text, now);
      WritesAreCore(c, Do(env, c, s));
    case OneFragment(f) => SendFragmentWrites(env, c, f);
      WritesAreCore(c, Do(env, c, s));
    case CloseCall(code, reason, now) => CloseWrites(env, c, code, reason, 0, now);
      WritesAreCore(c, Do(env, c, s));
    case PollCall(now, input, later) => PollPolls(env, c, now, input, later);
    case DispatchCall(result, now) => DispatchCore(env, c, result, now);
  }

  lemma FailWrites(c: Conn, reached: bool)
    ensures c.state == CLOSED ==> Writes(c, ConnectFails(c, reached))
  {
  }

  lemma FrontEndWrites(env: Env, c: Conn, text: bytes, now: int)
    requires c.state != CONNECTING
    ensures Writes(c, SendText(env, c, text, now)) && Writes(c, SendBinary(env, c, text))
    ensures Writes(c, UserPing(env, c, text, now))
  {
    hide Writes, SendData, SendPing, Close, Utf8Validator.Valid;
    WritesReflexive(c);
    SendDataWrites(env, c, TEXT, text, c.cfg.deflate);
    SendDataWrites(env, c, BINARY, text, c.cfg.deflate);
    if |text| <= 125 {
      SendPingWrites(env, c, text, now);
    }
    CloseWrites(env, c, INVALID_PAYLOAD, INVALID_PAYLOAD_MESSAGE, 0, now);
  }

  lemma ConnectKeepsInvariant(c: Conn, now: int)
    requires Invariant(c) && c.state == CLOSED
    ensures Invariant(Connect(c, now)) && Connect(c, now).state == OPEN
    ensures Connect(c, now).trace.reports == c.trace.reports
  {
  }

  /**
    * In every run: the socket and the send buffer together hold the frames appended so far, the number of
    * entries into OPEN exceeds the number of close reports by one exactly when a connection is open or closing,
    * and a closing handshake is always local.
    */
  lemma {:induction false} RunKeepsInvariant(env: Env, c: Conn, steps: seq<Step>)
    requires Invariant(c)
    ensures Invariant(Run(env, c, steps))
    decreases |steps|
  {
    hide Invariant, Core, Do;
    if steps != [] {
      StepKeepsInvariant(env, c, steps[0]);
      RunKeepsInvariant(env, Do(env, c, steps[0]), steps[1..]);
    }
  }

  lemma StepKeepsInvariant(env: Env, c: Conn, s: Step)
    requires Invariant(c)
    ensures Invariant(Do(env, c, s))
    ensures c.trace.reports <= Do(env, c, s).trace.reports
  {
    hide Core;
    if s.Connected? {
      if c.state == CLOSED {
        ConnectKeepsInvariant(c, s.now);
      }
    } else {
      hide Do, Conserves, Balanced;
      StepCore(env, c, s);
      CoreKeepsInvariant(c, Do(env, c, s));
      ReportsGrow(c, Do(env, c, s));
    }
  }

  lemma ReportsGrow(c: Conn, c': Conn)
    requires c.state != CONNECTING && Core(c, c')
    ensures c.trace.reports <= c'.trace.reports
  {
  }

  /** A closing handshake under way when `n` closes had been reported, or the report that ended it. */
  predicate ClosingAs(c: Conn, n: nat, data: CloseData) {
    || (c.state == CLOSING && |c.trace.reports| == n && SameReason(data, c.close))
    || (|c.trace.reports| > n && SameReason(data, c.trace.reports[n]))
  }

  lemma StepKeepsClosing(env: Env, c: Conn, s: Step, n: nat, data: CloseData)
    requires Invariant(c) && ClosingAs(c, n, data)
    ensures ClosingAs(Do(env, c, s), n, data)
  {
    hide Do, Core, Conserves, Balanced;
    StepKeepsInvariant(env, c, s);
    if c.state == CLOSING && |c.trace.reports| == n {
      if s.Connected? {
        ClosingIgnoresConnect(env, c, s);
      } else {
        StepCore(env, c, s);
        ClosingMoves(c, Do(env, c, s));
      }
    }
  }

  lemma ClosingIgnoresConnect(env: Env, c: Conn, s: Step)
    requires c.state == CLOSING && s.Connected?
    ensures Do(env, c, s) == c
  {
  }

  lemma ClosingMoves(c: Conn, c': Conn)
    requires c.state == CLOSING && Core(c, c')
    ensures ClosingAs(c', |c.trace.reports|, c.close)
  {
  }

  lemma {:induction false} RunKeepsClosing(env: Env, c: Conn, steps: seq<Step>, n: nat, data: CloseData)
    requires Invariant(c) && ClosingAs(c, n, data)
    ensures ClosingAs(Run(env, c, steps), n, data)
    decreases |steps|
  {
    hide Invariant, Do, ClosingAs;
    if steps != [] {
      StepKeepsClosing(env, c, steps[0], n, data);
      StepKeepsInvariant(env, c, steps[0]);
      RunKeepsClosing(env, Do(env, c, steps[0]), steps[1..], n, data);
    }
  }

  /**
    * From entering CLOSING with a code and a reason until CLOSED, however it ends, the stored data stay the
    * same, and the next close report, if there is one, carries exactly them and is not remote.
    */
  lemma CloseDataStable(env: Env, c: Conn, steps: seq<Step>)
    requires Invariant(c) && c.state == CLOSING
    ensures var c' := Run(env, c, steps);
            var n := |c.trace.reports|;
            || (c'.state == CLOSING && c'.trace.reports == c.trace.reports
                && c'.close.code == c.close.code && c'.close.reason == c.close.reason && !c'.close.remote)
            || (|c'.trace.reports| > n && c'.trace.reports[n].code == c.close.code
                && c'.trace.reports[n].reason == c.close.reason && !c'.trace.reports[n].remote)
  {
    hide Conserves, Balanced, Run;
    RunKeepsClosing(env, c, steps, |c.trace.reports|, c.close);
    RunGrowsReports(env, c, steps);
  }

  lemma {:induction false} RunGrowsReports(env: Env, c: Conn, steps: seq<Step>)
    requires Invariant(c)
    ensures c.trace.reports <= Run(env, c, steps).trace.reports
    decreases |steps|
  {
    hide Invariant, Do;
    if steps != [] {
      StepKeepsInvariant(env, c, steps[0]);
      RunGrowsReports(env, Do(env, c, steps[0]), steps[1..]);
    }
  }
}

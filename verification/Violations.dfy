/** How this end closes: the code, the reason and the frame for each thing a peer or an application may do wrong. */
module Violations {
  import opened Wrappers
  import opened Bytes
  import opened Framing
  import opened Reassembly
  import opened Delivery
  import opened Numbers
  import opened TransportSpec
  import opened TransportRuns
  import opened Session
  import opened CloseHandshake
  import opened Timers
  import opened Keepalive
  import Utf8Validator

  /** The next frame that an end has written carries this code and reason in a whole CLOSE frame. */
  predicate WritesClose(c: Conn, c': Conn, code: nat, reason: bytes) {
    && c.log <= c'.log && |c.log| < |c'.log|
    && c'.log[|c.log|].frame == Frame(true, false, 8, [code / 256 % 256, code % 256] + reason)
  }

  /** An open end has closed on its own: it waits for the answer, or has reported already that it could not write. */
  predicate ClosedWith(c: Conn, c': Conn, code: nat, reason: bytes) {
    var n := |c.trace.reports|;
    && WritesClose(c, c', code, reason)
    && ((c'.state == CLOSING && c'.trace.reports == c.trace.reports
         && c'.close.code == code && c'.close.reason == reason && !c'.close.remote)
        || (c'.state == CLOSED && |c'.trace.reports| == n + 1 && c.trace.reports <= c'.trace.reports
            && c'.trace.reports[n].code == code && c'.trace.reports[n].reason == reason
            && !c'.trace.reports[n].remote))
  }

  lemma CloseCloses(env: Env, c: Conn, code: nat, reason: bytes, wireSize: nat, now: int)
    requires c.state == OPEN && code != 1005 && |reason| + 2 < 65536
    ensures var c' := Close(env, c, code, reason, wireSize, now);
            && ClosedWith(c, c', code, reason) && c'.cancel
            && (c'.state == CLOSING ==> c'.clock.closingAt == now)
  {
    hide SendFragment, OnWire, Core;
    var size := if wireSize == 0 then |reason| else wireSize;
    var c1 := c.(cancel := true).(close := CloseData(code, reason, size, false),
                                  clock := c.clock.(closingAt := now), state := CLOSING);
    var f := Frame(true, false, Framing.CLOSE, ClosePayload(code, reason));
    SendsOne(env, c1, Framing.CLOSE, ClosePayload(code, reason));
    SendFragmentWrites(env, c1, f);
    OnWireFrame(env, c1, f);
    CancelKept(env, c1, f);
    EndsAs(c1, SendFragment(env, c1, f));
  }

  lemma EndsAs(c: Conn, c': Conn)
    requires Writes(c, c') && c.state == CLOSING
    ensures || (c'.state == CLOSING && c'.trace.reports == c.trace.reports && SameReason(c.close, c'.close)
                && c'.clock.closingAt == c.clock.closingAt)
            || (c'.state == CLOSED && |c'.trace.reports| == |c.trace.reports| + 1
                && c.trace.reports <= c'.trace.reports && SameReason(c.close, c'.trace.reports[|c.trace.reports|]))
  {
  }

  lemma {:induction false} DrainKeepsCancel(env: Env, c: Conn)
    ensures Drain(env, c).cancel == c.cancel
    decreases |c.tx|
  {
    if c.tx != [] {
      var n := Taken(NextWrite(env, c), |c.tx|);
      if n > 0 { DrainKeepsCancel(env, TakeBytes(c, n)); }
    }
  }

  lemma CancelKept(env: Env, c: Conn, f: Frame)
    ensures SendFragment(env, c, f).cancel == c.cancel
  {
    hide Drain, Encode;
    DrainKeepsCancel(env, Append(c, OnWire(env, c, f)).(drawn := c.drawn + 1));
  }

  /** A close call leaves the peer 300 ms to answer: no poll ends the handshake before that. */
  lemma CloseIsGivenTime(env: Env, c: Conn, code: nat, reason: bytes, start: int, now: int, input: PollInput,
                         later: int)
    requires c.state == OPEN && code != 1005 && |reason| + 2 < 65536
    requires Close(env, c, code, reason, 0, start).state == CLOSING && later - start <= 300_000_000
    ensures Poll(env, Close(env, c, code, reason, 0, start), now, input, later).0.state == CLOSING
  {
    hide Close, Poll, ClosedWith, Core, ControlExtends;
    CloseCloses(env, c, code, reason, 0, start);
    CloseWrites(env, c, code, reason, 0, start);
    WritesAreCore(c, Close(env, c, code, reason, 0, start));
    NotReopened(c, Close(env, c, code, reason, 0, start));
    OpenIsGuarded(c, Close(env, c, code, reason, 0, start));
    PollEndsClosingIff(env, Close(env, c, code, reason, 0, start), now, input, later);
  }

  lemma OpenIsGuarded(c: Conn, c': Conn)
    requires Core(c, c') && c.state == OPEN
    ensures Guarded(c')
  {
  }

  /** What emitMessage does afterwards changes nothing of that. */
  lemma EmitAfterClose(env: Env, a: Conn, c: Conn, r: Reader, cb: Callback, code: nat, reason: bytes, now: int)
    requires ClosedWith(a, c, code, reason)
    ensures ClosedWith(a, Emit(env, c.(reader := r), cb, now), code, reason)
  {
    hide Emittable, Text;
  }

  /** A data frame out of sequence: a new message inside another, or a continuation of nothing. */
  lemma OutOfSequence(env: Env, c: Conn, f: Frame, now: int)
    requires c.state == OPEN && IsData(f)
    ensures f.opcode != CONTINUATION && c.reader.chunks != [] ==>
              ClosedWith(c, HandleFrame(env, c, f, now), 1002, Text("Fragmentation: data message out of sequence"))
    ensures f.opcode == CONTINUATION && c.reader.chunks == [] ==>
              ClosedWith(c, HandleFrame(env, c, f, now), 1002,
                         Text("Fragmentation: continuation opcode out of sequence"))
  {
    hide Close, ClosedWith, OnDataFrame, Emit, Text;
    var (r, cb) := OnDataFrame(env.codec, c.cfg.deflate, c.reader, f);
    if f.opcode != CONTINUATION && c.reader.chunks != [] {
      CloseCloses(env, c, 1002, DATA_SEQUENCE_MESSAGE, 0, now);
      EmitAfterClose(env, c, CheckSequence(env, c, f, now), r, cb, 1002, DATA_SEQUENCE_MESSAGE, now);
    } else if f.opcode == CONTINUATION && c.reader.chunks == [] {
      CloseCloses(env, c, 1002, CONTINUATION_SEQUENCE_MESSAGE, 0, now);
      EmitAfterClose(env, c, CheckSequence(env, c, f, now), r, cb, 1002, CONTINUATION_SEQUENCE_MESSAGE, now);
    }
  }

  /** A message that is announced as text and is not UTF-8 is not delivered. */
  lemma InvalidText(env: Env, c: Conn, f: Frame, now: int)
    requires c.state == OPEN && IsData(f) && (f.opcode == CONTINUATION <==> c.reader.chunks != [])
    requires !Emittable(OnDataFrame(env.codec, c.cfg.deflate, c.reader, f).1)
    ensures var c' := HandleFrame(env, c, f, now);
            && ClosedWith(c, c', 1007, Text("Invalid frame payload data"))
            && c'.trace.delivered == c.trace.delivered
  {
    hide Close, ClosedWith, OnDataFrame, Emittable, Text, Writes, ControlExtends;
    var r := OnDataFrame(env.codec, c.cfg.deflate, c.reader, f).0;
    var c1 := c.(reader := r);
    CloseCloses(env, c1, 1007, INVALID_PAYLOAD_MESSAGE, 0, now);
    CloseWrites(env, c1, 1007, INVALID_PAYLOAD_MESSAGE, 0, now);
    WritesAreCore(c1, Close(env, c1, 1007, INVALID_PAYLOAD_MESSAGE, 0, now));
    SameStart(c1, c, Close(env, c1, 1007, INVALID_PAYLOAD_MESSAGE, 0, now), 1007, INVALID_PAYLOAD_MESSAGE);
  }

  lemma SameStart(a: Conn, b: Conn, c': Conn, code: nat, reason: bytes)
    requires ClosedWith(a, c', code, reason) && a.log == b.log && a.trace.reports == b.trace.reports
    ensures ClosedWith(b, c', code, reason)
  {
  }

  /** An opcode that is neither data nor control. */
  lemma UnknownOpcode(env: Env, c: Conn, f: Frame, now: int)
    requires c.state == OPEN && f.opcode !in {0, 1, 2, 8, 9, 10}
    ensures ClosedWith(c, HandleFrame(env, c, f, now), 1002, Text("Protocol error"))
  {
    hide Close, ClosedWith, Text;
    CloseCloses(env, c, 1002, PROTOCOL_ERROR_MESSAGE, |c.rx|, now);
  }

  /** Heads of the receive buffer at which dispatch closes and returns without consuming anything. */
  lemma BadHead(env: Env, c: Conn, now: int)
    requires c.state == OPEN
    ensures var s := NextFrame(c.rx, c.cfg.deflate);
            var c' := DispatchLoop(env, c, now).0;
            && (s.ReservedBits? ==> ClosedWith(c, c', 1002, Text("Reserved bit used")))
            && (s.FragmentedControl? ==> ClosedWith(c, c', 1002, Text("Control message fragmented")))
            && (s.Complete? && s.header.opcode == 9 && |s.payload| > 125 ==>
                  ClosedWith(c, c', 1002, Text("Ping reason control frame with payload length > 125 octets")))
  {
    hide Close, ClosedWith, Text, NextFrame, HandleFrame, UnmaskHead;
    CloseCloses(env, c, 1002, RESERVED_BIT_MESSAGE, |c.rx|, now);
    CloseCloses(env, c, 1002, CONTROL_FRAGMENTED_MESSAGE, 0, now);
    var c1 := c.(rx := UnmaskHead(c.rx, c.cfg.deflate));
    CloseCloses(env, c1, 1002, PING_OVERSIZED_MESSAGE, 0, now);
    SameStart(c1, c, Close(env, c1, 1002, PING_OVERSIZED_MESSAGE, 0, now), 1002, PING_OVERSIZED_MESSAGE);
  }

  /** Which heads these are, on the bytes; a compressed message is announced only where compression was agreed. */
  lemma BadHeadBytes(rx: bytes, deflate: bool)
    requires |rx| >= 14
    ensures NextFrame(rx, deflate).ReservedBits?
            <==> (rx[0] / 0x40 % 2 == 1 && !deflate) || rx[0] / 0x20 % 2 == 1 || rx[0] / 0x10 % 2 == 1
    ensures NextFrame(rx, deflate).FragmentedControl? ==> rx[0] < 0x80 && rx[0] % 16 in {8, 9, 10}
  {
  }

  /** An application that sends text which is not UTF-8. */
  lemma InvalidTextSent(env: Env, c: Conn, text: bytes, now: int)
    requires c.state == OPEN && !Utf8Validator.Valid(text)
    ensures ClosedWith(c, SendText(env, c, text, now), 1007, Text("Invalid frame payload data"))
  {
    hide Close, ClosedWith, Text, Utf8Validator.Valid;
    CloseCloses(env, c, 1007, INVALID_PAYLOAD_MESSAGE, 0, now);
  }

  /** A pong that is overdue. */
  lemma PongOverdue(env: Env, c: Conn, now: int)
    requires c.state == OPEN
    requires c.cfg.pingTimeout > 0 && now - c.clock.lastPong > c.cfg.pingTimeout * 1_000_000_000
    ensures ClosedWith(c, PollTimers(env, c, now), 1011, Text("Ping timeout"))
  {
    hide Close, ClosedWith, Text;
    CloseCloses(env, c, 1011, PING_TIMEOUT_MESSAGE, 0, now);
  }

  /** A peer that vanishes without a CLOSE frame. */
  lemma PeerGone(env: Env, c: Conn, now: int)
    requires c.state == OPEN && |c.rx| < 2
    ensures var c' := Dispatch(env, c, AbnormalClose, now);
            && c'.state == CLOSED && !c'.socket.open && c'.rx == [] && c'.log == c.log && !c'.cancel
            && c'.trace.reports == c.trace.reports + [CloseData(1006, Text("Abnormal closure"), 0, false)]
  {
    hide Text;
  }

  /** A cancellation request survives a connect that fails if and only if that happens before the handshake. */
  lemma RequestSurvivesIff(env: Env, c: Conn, reached: bool)
    requires c.state == CLOSED && c.cancel
    ensures var c' := Do(env, c, ConnectionFailed(reached));
            (c'.cancel <==> !reached) && c'.(cancel := true) == c
  {
  }

  // ------------------------------------------------------------------ pings

  lemma PingFrameAnswered(env: Env, c: Conn, f: Frame, now: int)
    requires (c.state == OPEN || c.state == CLOSING) && f.opcode == PING && |f.payload| <= 125
    ensures var c' := HandleFrame(env, c, f, now);
            && c'.log == c.log + (if c.cfg.enablePong
                                  then [OnWire(env, c, Frame(true, false, 10, f.payload))] else [])
            && c'.trace.delivered == c.trace.delivered + [Callback(MsgPing, f.payload, |f.payload|, false)]
  {
    hide SendFragment, OnWire, Writes;
    var pong := Frame(true, false, PONG, f.payload);
    SendsOne(env, c, PONG, f.payload);
    SendFragmentWrites(env, c, pong);
    WritesAreCore(c, SendFragment(env, c, pong));
    assert c.log + [] == c.log;
  }

  /** A PING frame that dispatch meets is answered first, with its own payload, before anything behind it is read. */
  lemma PingAnswered(env: Env, c: Conn, w: WireFrame, tail: bytes, now: int)
    requires c.rx == Encode(w) + tail && w.frame.opcode == PING && Acceptable(w.frame, c.cfg.deflate)
    requires (c.state == OPEN || c.state == CLOSING) && Guarded(c) && c.cfg.enablePong
    ensures var c' := DispatchLoop(env, c, now).0;
            && |c.log| < |c'.log| && c.log <= c'.log
            && c'.log[|c.log|].frame == Frame(true, false, 10, w.frame.payload)
            && c'.log[|c.log|].masked == c.cfg.useMask
  {
    hide HandleFrame, TakeFrame, UnmaskHead, Encode, Core, ControlExtends, OnWire, Lifecycle;
    TakeEncoded(w, tail, c.cfg.deflate);
    var c0 := c.(rx := UnmaskHead(c.rx, c.cfg.deflate));
    var c1 := HandleFrame(env, c0, w.frame, now);
    var pong := Frame(true, false, 10, w.frame.payload);
    PingFrameAnswered(env, c0, w.frame, now);
    WireIs(env, c0, pong);
    HandleFrameHandles(env, c0, w.frame, now);
    TurnParts(c0, c1);
    DispatchLoopReads(env, c1.(rx := tail), now);
    CoreGrowsLog(c1.(rx := tail), DispatchLoop(env, c1.(rx := tail), now).0);
    assert c1.log[|c.log|] == OnWire(env, c0, pong);
  }

  lemma WireIs(env: Env, c: Conn, f: Frame)
    ensures OnWire(env, c, f).frame == f && OnWire(env, c, f).masked == c.cfg.useMask
  {
  }

  lemma CoreGrowsLog(c: Conn, c': Conn)
    requires Core(c, c')
    ensures c.log <= c'.log
  {
  }

  /** The heartbeat: sent once the interval has run out, and the interval starts again. */
  lemma Heartbeat(env: Env, c: Conn, now: int)
    requires c.state == OPEN && ConfigOk(c.cfg)
    requires c.cfg.pingTimeout <= 0 || now - c.clock.lastPong <= c.cfg.pingTimeout * 1_000_000_000
    ensures var c' := PollTimers(env, c, now);
            if c.cfg.pingInterval > 0 && now - c.clock.lastPing > c.cfg.pingInterval * 1_000_000_000
            then
              && c'.log == c.log + [OnWire(env, c, Frame(true, false, 9,
                   Text("ixwebsocket::heartbeat::") + Text(Decimal(c.cfg.pingInterval)) + Text("s")))]
              && c'.clock == c.clock.(lastPing := now)
            else c' == c
  {
    hide SendFragment, OnWire, Writes, Decimal;
    if PingIntervalExceeded(c, now) {
      var m := HeartbeatMessage(c);
      var ping := Frame(true, false, PING, m);
      assert m == Text("ixwebsocket::heartbeat::") + Text(Decimal(c.cfg.pingInterval)) + Text("s") by {
        assert Text("ixwebsocket::heartbeat") + Text("::") == Text("ixwebsocket::heartbeat::");
      }
      HeartbeatIsShort(c);
      SendsOne(env, c, PING, m);
      SendFragmentWrites(env, c, ping);
      ClockKept(env, c, ping);
    }
  }

  /** A new connection is left alone by its timers until one of them has run out since its opening. */
  lemma NewConnectionQuietIff(env: Env, c: Conn, start: int, now: int)
    requires c.state == CLOSED && ConfigOk(c.cfg)
    ensures var o := Connect(c, start);
            PollTimers(env, o, now) == o
            <==> !(c.cfg.pingTimeout > 0 && now - start > c.cfg.pingTimeout * 1_000_000_000)
                 && !(c.cfg.pingInterval > 0 && now - start > c.cfg.pingInterval * 1_000_000_000)
  {
    hide PollTimers, Text, ClosedWith, OnWire;
    var o := Connect(c, start);
    if c.cfg.pingTimeout > 0 && now - start > c.cfg.pingTimeout * 1_000_000_000 {
      PongOverdue(env, o, now);
      ClosedDiffers(o, PollTimers(env, o, now), 1011, Text("Ping timeout"));
    } else {
      Heartbeat(env, o, now);
    }
  }

  lemma ClosedDiffers(c: Conn, c': Conn, code: nat, reason: bytes)
    requires ClosedWith(c, c', code, reason)
    ensures c' != c
  {
  }

  lemma {:induction false} DrainKeepsClock(env: Env, c: Conn)
    ensures Drain(env, c).clock == c.clock
    decreases |c.tx|
  {
    if c.tx != [] {
      var n := Taken(NextWrite(env, c), |c.tx|);
      if n > 0 { DrainKeepsClock(env, TakeBytes(c, n)); }
    }
  }

  lemma ClockKept(env: Env, c: Conn, f: Frame)
    ensures SendFragment(env, c, f).clock == c.clock
  {
    hide Drain, Encode;
    DrainKeepsClock(env, Append(c, OnWire(env, c, f)).(drawn := c.drawn + 1));
  }

  /** The octets of an ASCII text are its character codes. */
  lemma TextIsAscii(s: string)
    requires forall i | 0 <= i < |s| :: s[i] as int < 128
    ensures forall i | 0 <= i < |s| :: Text(s)[i] == s[i] as int
  {
  }
}

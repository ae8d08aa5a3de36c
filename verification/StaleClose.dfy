/** Close data left behind by one connection and reported by the next: when that happens, exactly. */
module StaleClose {
  import opened Bytes
  import opened Framing
  import opened Reassembly
  import opened Delivery
  import opened TransportSpec
  import opened TransportRuns
  import Utf8Validator

  /** No close data are stored but those of a closing handshake under way. */
  predicate Clear(c: Conn) { c.state == OPEN || c.state == CLOSED ==> c.close == DEFAULT_CLOSE }

  predicate Stale(c: Conn) { c.state == CLOSED && c.close != DEFAULT_CLOSE }

  /** A CLOSE frame that is read once the connection is closed, or whose echo closes it because the write fails. */
  predicate LateClose(env: Env, c: Conn, f: Frame) {
    && f.opcode == Framing.CLOSE && c.state != CLOSING
    && var (code, reason) := CloseStatus(f.payload); SendCloseFrame(env, c, code, reason).state == CLOSED
  }

  // ------------------------------------------------------------------ writing

  lemma {:induction false} DrainClear(env: Env, c: Conn)
    requires Clear(c)
    ensures Clear(Drain(env, c))
    decreases |c.tx|
  {
    if c.tx != [] {
      var n := Taken(NextWrite(env, c), |c.tx|);
      if n > 0 { DrainClear(env, TakeBytes(c, n)); }
    }
  }

  lemma {:induction false} FragmentsClear(env: Env, c: Conn, fs: seq<Frame>)
    requires Clear(c)
    ensures Clear(SendFragments(env, c, fs))
    decreases |fs|
  {
    hide Drain, Encode;
    if fs != [] {
      DrainClear(env, Append(c, OnWire(env, c, fs[0])).(drawn := c.drawn + 1));
      FragmentsClear(env, SendFragment(env, c, fs[0]), fs[1..]);
    }
  }

  lemma SendClear(env: Env, c: Conn, opcode: Opcode, message: bytes, compress: bool)
    requires Clear(c)
    ensures Clear(SendData(env, c, opcode, message, compress))
  {
    hide SendFragments, Fragments;
    match WireBytes(env, message, compress)
    case None =>
    case Some(wire) => FragmentsClear(env, c, Fragments(opcode, compress, wire));
  }

  lemma CloseClear(env: Env, c: Conn, code: nat, reason: bytes, wireSize: nat, now: int)
    requires Clear(c)
    ensures Clear(Close(env, c, code, reason, wireSize, now))
  {
    hide SendData;
    var size := if wireSize == 0 then |reason| else wireSize;
    var c1 := c.(cancel := true).(close := CloseData(code, reason, size, false),
                                  clock := c.clock.(closingAt := now), state := CLOSING);
    SendClear(env, c1, Framing.CLOSE, ClosePayload(code, reason), false);
  }

  // ------------------------------------------------------------------ reading

  lemma CloseFrameClear(env: Env, c: Conn, f: Frame)
    requires Clear(c) && c.state != CONNECTING && f.opcode == Framing.CLOSE
    ensures Clear(HandleClose(env, c, f)) <==> !LateClose(env, c, f)
    ensures LateClose(env, c, f) ==> Stale(HandleClose(env, c, f))
  {
    hide SendCloseFrame, CloseStatus;
    var (code, reason) := CloseStatus(f.payload);
    if c.state != CLOSING { NeverClosing(env, c, code, reason); }
    KeepsOpenOrCloses(env, c, code, reason);
  }

  lemma KeepsOpenOrCloses(env: Env, c: Conn, code: nat, reason: bytes)
    ensures var c' := SendCloseFrame(env, c, code, reason); c'.state == c.state || c'.state == CLOSED
  {
    if MaySend(c) { SendKeepsState(env, c, Fragments(Framing.CLOSE, false, ClosePayload(code, reason))); }
  }

  lemma DataClear(env: Env, c: Conn, f: Frame, now: int)
    requires Clear(c) && IsData(f)
    ensures Clear(HandleData(env, c, f, now))
  {
    hide Close, OnDataFrame, Emittable;
    var (r, cb) := OnDataFrame(env.codec, c.cfg.deflate, c.reader, f);
    CloseClear(env, c, PROTOCOL_ERROR, DATA_SEQUENCE_MESSAGE, 0, now);
    CloseClear(env, c, PROTOCOL_ERROR, CONTINUATION_SEQUENCE_MESSAGE, 0, now);
    CloseClear(env, CheckSequence(env, c, f, now).(reader := r), INVALID_PAYLOAD, INVALID_PAYLOAD_MESSAGE, 0, now);
  }

  lemma FrameClear(env: Env, c: Conn, f: Frame, now: int)
    requires Clear(c) && c.state != CONNECTING
    ensures Clear(HandleFrame(env, c, f, now)) <==> !LateClose(env, c, f)
    ensures LateClose(env, c, f) ==> Stale(HandleFrame(env, c, f, now))
  {
    hide HandleData, HandleClose, Close, SendData, CloseStatus;
    if IsData(f) {
      DataClear(env, c, f, now);
    } else if f.opcode == PING {
      SendClear(env, c, PONG, f.payload, false);
    } else if f.opcode == Framing.CLOSE {
      CloseFrameClear(env, c, f);
    } else {
      CloseClear(env, c, PROTOCOL_ERROR, PROTOCOL_ERROR_MESSAGE, |c.rx|, now);
    }
  }

  lemma FrameStale(env: Env, c: Conn, f: Frame, now: int)
    requires Stale(c)
    ensures Stale(HandleFrame(env, c, f, now))
  {
    hide OnDataFrame, CloseStatus, Emittable;
  }

  /** Some frame that this dispatch processes is a late CLOSE frame. */
  predicate MeetsLateClose(env: Env, c: Conn, now: int)
    decreases |c.rx|
  {
    match TakeFrame(c.rx, c.cfg.deflate)
    case None => false
    case Some((f, rest)) =>
      var c0 := c.(rx := UnmaskHead(c.rx, c.cfg.deflate));
      LateClose(env, c0, f) || MeetsLateClose(env, HandleFrame(env, c0, f, now).(rx := rest), now)
  }

  lemma LeaveClear(env: Env, c: Conn, now: int)
    ensures Clear(c) ==> Clear(LeaveLoop(env, c, now).0)
    ensures Stale(c) ==> Stale(LeaveLoop(env, c, now).0)
  {
    hide NextFrame, UnmaskHead, SendCloseFrame;
    if Clear(c) {
      hide Close;
      CloseClear(env, c, PROTOCOL_ERROR, RESERVED_BIT_MESSAGE, |c.rx|, now);
      CloseClear(env, c, PROTOCOL_ERROR, CONTROL_FRAGMENTED_MESSAGE, 0, now);
      CloseClear(env, c.(rx := UnmaskHead(c.rx, c.cfg.deflate)), PROTOCOL_ERROR, PING_OVERSIZED_MESSAGE, 0, now);
    }
  }

  lemma {:induction false} LoopStale(env: Env, c: Conn, now: int)
    requires Stale(c)
    ensures Stale(DispatchLoop(env, c, now).0)
    decreases |c.rx|
  {
    hide TakeFrame, UnmaskHead, HandleFrame, LeaveLoop;
    match TakeFrame(c.rx, c.cfg.deflate)
    case None => LeaveClear(env, c, now);
    case Some((f, rest)) =>
      var c0 := c.(rx := UnmaskHead(c.rx, c.cfg.deflate));
      FrameStale(env, c0, f, now);
      LoopStale(env, HandleFrame(env, c0, f, now).(rx := rest), now);
  }

  lemma {:induction false} LoopClear(env: Env, c: Conn, now: int)
    requires Clear(c) && c.state != CONNECTING && Guarded(c)
    ensures var c' := DispatchLoop(env, c, now).0;
            (Clear(c') <==> !MeetsLateClose(env, c, now)) && (MeetsLateClose(env, c, now) ==> Stale(c'))
    decreases |c.rx|
  {
    hide TakeFrame, UnmaskHead, HandleFrame, LeaveLoop, LateClose, Core, ControlExtends, OnFrame;
    match TakeFrame(c.rx, c.cfg.deflate)
    case None => LeaveClear(env, c, now);
    case Some((f, rest)) =>
      var c0 := c.(rx := UnmaskHead(c.rx, c.cfg.deflate));
      var c1 := HandleFrame(env, c0, f, now);
      FrameClear(env, c0, f, now);
      GuardedBuffer(c, c0.rx);
      HandleFrameHandles(env, c0, f, now);
      NeverConnecting(c0, c1);
      CoreGuarded(c0, c1);
      if LateClose(env, c0, f) {
        LoopStale(env, c1.(rx := rest), now);
      } else {
        LoopClear(env, c1.(rx := rest), now);
      }
  }

  lemma CoreGuarded(c: Conn, c': Conn)
    ensures Core(c, c') && Guarded(c) ==> Guarded(c')
  {
  }

  lemma DispatchClear(env: Env, c: Conn, result: PollResult, now: int)
    requires Clear(c) && c.state != CONNECTING && Guarded(c)
    ensures Clear(Dispatch(env, c, result, now)) <==> !MeetsLateClose(env, c, now)
  {
    hide DispatchLoop, MeetsLateClose;
    LoopClear(env, c, now);
  }

  // ------------------------------------------------------------------ polling

  lemma {:induction false} DrainRequestClear(env: Env, c: Conn, rs: seq<Readiness>)
    requires Clear(c)
    ensures Clear(DrainRequest(env, c, rs))
    decreases |rs|
  {
    hide Drain;
    if rs != [] {
      DrainClear(env, c);
      DrainRequestClear(env, c, rs[1..]);
      DrainRequestClear(env, Drain(env, c), rs[1..]);
    }
  }

  lemma PollClear(env: Env, c: Conn, now: int, input: PollInput, later: int)
    requires Clear(c)
    ensures Clear(Poll(env, c, now, input, later).0)
  {
    hide PollTimers, PollWait, DrainRequest;
    TimersClear(env, c, now);
    var c1 := PollTimers(env, c, now);
    var c2 := c1.(clock := c1.clock.(nextGcd := PollWait(c1, now).1));
    var actual := ActualInput(c2, input);
    if actual.SendRequest? { DrainRequestClear(env, c2, actual.readiness); }
  }

  lemma TimersClear(env: Env, c: Conn, now: int)
    requires Clear(c)
    ensures Clear(PollTimers(env, c, now))
  {
    hide Close, SendData, HeartbeatMessage;
    CloseClear(env, c, INTERNAL_ERROR, PING_TIMEOUT_MESSAGE, 0, now);
    SendClear(env, c, PING, HeartbeatMessage(c), false);
  }

  // ------------------------------------------------------------------ runs

  predicate LateStep(env: Env, c: Conn, s: Step) { s.DispatchCall? && MeetsLateClose(env, c, s.now) }

  /** One call leaves no close data behind exactly when it is not a dispatch that meets a late CLOSE frame. */
  lemma StepClear(env: Env, c: Conn, s: Step)
    requires Invariant(c) && Clear(c)
    ensures Clear(Do(env, c, s)) <==> !LateStep(env, c, s)
  {
    hide SendData, SendFragment, Close, Poll, Dispatch, Conserves, Balanced, Utf8Validator.Valid, MeetsLateClose;
    match s
    case Connected(now) =>
    case ConnectionFailed(reached) =>
    case TextCall(text, now) =>
      SendClear(env, c, TEXT, text, c.cfg.deflate);
      CloseClear(env, c, INVALID_PAYLOAD, INVALID_PAYLOAD_MESSAGE, 0, now);
    case BinaryCall(data) => SendClear(env, c, BINARY, data, c.cfg.deflate);
    case PingCall(text, now) => SendClear(env, c, PING, text, false);
    case OneFragment(f) => OneFragmentClear(env, c, f);
    case CloseCall(code, reason, now) => CloseClear(env, c, code, reason, 0, now);
    case PollCall(now, input, later) => PollClear(env, c, now, input, later);
    case DispatchCall(result, now) => DispatchClear(env, c, result, now);
  }

  lemma OneFragmentClear(env: Env, c: Conn, f: Frame)
    requires Clear(c)
    ensures Clear(SendFragment(env, c, f))
  {
    hide Drain, Encode;
    DrainClear(env, Append(c, OnWire(env, c, f)).(drawn := c.drawn + 1));
  }

  predicate ClearThroughout(env: Env, c: Conn, steps: seq<Step>)
    decreases |steps|
  {
    Clear(c) && (steps == [] || ClearThroughout(env, Do(env, c, steps[0]), steps[1..]))
  }

  predicate NeverLate(env: Env, c: Conn, steps: seq<Step>)
    decreases |steps|
  {
    steps == [] || (!LateStep(env, c, steps[0]) && NeverLate(env, Do(env, c, steps[0]), steps[1..]))
  }

  /** Over every run: no connection starts with close data of an earlier one exactly when no CLOSE frame is late. */
  lemma {:induction false} RunClear(env: Env, c: Conn, steps: seq<Step>)
    requires Invariant(c) && Clear(c)
    ensures ClearThroughout(env, c, steps) <==> NeverLate(env, c, steps)
    decreases |steps|
  {
    hide Invariant, Do, Clear, LateStep;
    if steps != [] {
      StepClear(env, c, steps[0]);
      StepKeepsInvariant(env, c, steps[0]);
      if !LateStep(env, c, steps[0]) {
        RunClear(env, Do(env, c, steps[0]), steps[1..]);
      } else {
        NotClearNow(env, Do(env, c, steps[0]), steps[1..]);
      }
    }
  }

  lemma NotClearNow(env: Env, c: Conn, steps: seq<Step>)
    requires !Clear(c)
    ensures !ClearThroughout(env, c, steps)
  {
  }

  // ------------------------------------------------------------------ what the next connection reports

  /** A connection whose first write fails reports what was stored before it was opened. */
  lemma FailedPingReports(env: Env, c: Conn, now: int, text: bytes, later: int)
    requires c.state == CLOSED && |text| <= 125 && env.writes(c.socket.attempts) == WriteError
    ensures UserPing(env, Connect(c, now), text, later).trace.reports == c.trace.reports + [c.close]
  {
    hide Encode;
    var c1 := Connect(c, now);
    assert text[0..|text|] == text;
    var fs := Fragments(PING, false, text);
    assert |fs| == 1 && fs[1..] == [];
    var w := OnWire(env, c1, fs[0]);
    var c2 := Append(c1, w).(drawn := c1.drawn + 1);
    EncodedIsSomething(w);
    assert Drain(env, c2) == ToClosed(CloseSocket(TakeBytes(c2, 0)));
    assert SendFragments(env, c1, fs) == SendFragments(env, SendFragment(env, c1, fs[0]), []);
  }

  lemma EncodedIsSomething(w: WireFrame)
    ensures Encode(w) != []
  {
  }

  /** Its report is its own exactly when nothing was left behind. */
  lemma OwnReportIff(env: Env, c: Conn, now: int, text: bytes, later: int)
    requires c.state == CLOSED && |text| <= 125 && env.writes(c.socket.attempts) == WriteError
    ensures var own := CloseData(1011, Text("Internal error"), 0, false);
            UserPing(env, Connect(c, now), text, later).trace.reports == c.trace.reports + [own] <==> Clear(c)
  {
    hide UserPing, Connect, Text;
    FailedPingReports(env, c, now, text, later);
    assert (c.trace.reports + [c.close])[|c.trace.reports|] == c.close;
    assert (c.trace.reports + [DEFAULT_CLOSE])[|c.trace.reports|] == DEFAULT_CLOSE;
  }

  /** The input: a CLOSE frame read after the connection was closed is reported by the next one, as remote. */
  lemma StaleReport(env: Env, c: Conn, f: Frame, now: int, text: bytes, later: int)
    requires c.state == CLOSED && f.opcode == Framing.CLOSE
    requires |text| <= 125 && env.writes(c.socket.attempts) == WriteError
    ensures var (code, reason) := CloseStatus(f.payload);
            var next := Connect(HandleFrame(env, c, f, now), now);
            UserPing(env, next, text, later).trace.reports == c.trace.reports + [CloseData(code, reason, |c.rx|, true)]
  {
    hide UserPing, Connect, CloseStatus;
    FailedPingReports(env, HandleFrame(env, c, f, now), now, text, later);
  }

  /** A CLOSE frame at the head of the buffer ends an open connection; read later, it leaves its code behind. */
  lemma HeadCloses(env: Env, c: Conn, w: WireFrame, rest: bytes, now: int)
    requires c.state == OPEN || c.state == CLOSED
    requires c.rx == Encode(w) + rest && w.frame.opcode == Framing.CLOSE && Acceptable(w.frame, c.cfg.deflate)
    ensures var c' := HandleFrame(env, c.(rx := UnmaskHead(c.rx, c.cfg.deflate)), w.frame, now).(rx := rest);
            var (code, reason) := CloseStatus(w.frame.payload);
            && DispatchLoop(env, c, now) == DispatchLoop(env, c', now)
            && c'.state == CLOSED && c'.cfg == c.cfg
            && (c.state == CLOSED ==> c'.close == CloseData(code, reason, |c.rx|, true))
  {
    hide Encode, Acceptable, CloseStatus, SendCloseFrame, NextFrame, UnmaskHead, ControlExtends, Writes;
    TakeEncoded(w, rest, c.cfg.deflate);
    var c0 := c.(rx := UnmaskHead(c.rx, c.cfg.deflate));
    var (code, reason) := CloseStatus(w.frame.payload);
    KeepsOpenOrCloses(env, c0, code, reason);
    CloseFrameWrites(env, c0, code, reason);
    KeepsDeflate(c0, SendCloseFrame(env, c0, code, reason));
  }

  /** One dispatch on two CLOSE frames: the first ends the connection, the second leaves its code behind. */
  lemma TwoCloses(env: Env, c: Conn, w: WireFrame, late: WireFrame, now: int)
    requires c.state == OPEN && c.rx == Encode(w) + Encode(late)
    requires w.frame.opcode == Framing.CLOSE && Acceptable(w.frame, c.cfg.deflate)
    requires late.frame.opcode == Framing.CLOSE && Acceptable(late.frame, c.cfg.deflate)
    ensures var c' := Dispatch(env, c, Succeeded, now);
            var (code, reason) := CloseStatus(late.frame.payload);
            c'.state == CLOSED && c'.close == CloseData(code, reason, |Encode(late)|, true)
  {
    hide Encode, Acceptable, CloseStatus, HandleFrame, UnmaskHead, DispatchLoop;
    var deflate := c.cfg.deflate;
    HeadCloses(env, c, w, Encode(late), now);
    var c1 := HandleFrame(env, c.(rx := UnmaskHead(c.rx, deflate)), w.frame, now).(rx := Encode(late));
    assert Encode(late) + [] == Encode(late);
    HeadCloses(env, c1, late, [], now);
    NothingLeft(env, HandleFrame(env, c1.(rx := UnmaskHead(c1.rx, deflate)), late.frame, now).(rx := []), now);
  }

  lemma KeepsDeflate(c: Conn, c': Conn)
    requires Writes(c, c')
    ensures c'.cfg == c.cfg
  {
  }

  lemma NothingLeft(env: Env, c: Conn, now: int)
    requires c.rx == []
    ensures DispatchLoop(env, c, now) == (c, true)
  {
  }

  /**
    * The run: a peer sends two CLOSE frames which one poll reads. The connection is closed by the first; the next one,
    * whose first write fails, reports the code of the second as remote.
    */
  lemma StaleRun(env: Env, c: Conn, w: WireFrame, late: WireFrame, now: int, text: bytes)
    requires c.state == OPEN && c.rx == Encode(w) + Encode(late)
    requires w.frame.opcode == Framing.CLOSE && Acceptable(w.frame, c.cfg.deflate)
    requires late.frame.opcode == Framing.CLOSE && Acceptable(late.frame, c.cfg.deflate)
    requires |text| <= 125
    requires env.writes(Dispatch(env, c, Succeeded, now).socket.attempts) == WriteError
    ensures var closed := Run(env, c, [DispatchCall(Succeeded, now)]);
            var next := Run(env, closed, [Connected(now), PingCall(text, now)]);
            var (code, reason) := CloseStatus(late.frame.payload);
            && closed.state == CLOSED
            && next.trace.reports == closed.trace.reports + [CloseData(code, reason, |Encode(late)|, true)]
  {
    hide Encode, Acceptable, CloseStatus, Dispatch, UserPing, Connect;
    TwoCloses(env, c, w, late, now);
    var closed := Dispatch(env, c, Succeeded, now);
    OneCall(env, c, DispatchCall(Succeeded, now));
    TwoCalls(env, closed, Connected(now), PingCall(text, now));
    FailedPingReports(env, closed, now, text, now);
  }

  lemma OneCall(env: Env, c: Conn, s: Step)
    ensures Run(env, c, [s]) == Do(env, c, s)
  {
    hide Do;
    assert [s][1..] == [];
  }

  lemma TwoCalls(env: Env, c: Conn, s: Step, t: Step)
    ensures Run(env, c, [s, t]) == Do(env, Do(env, c, s), t)
  {
    hide Do;
    assert [s, t][1..] == [t];
    OneCall(env, Do(env, c, s), t);
  }
}

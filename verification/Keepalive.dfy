/** What keeps a connection open: pongs in time, and the time that a closing handshake is given. */
module Keepalive {
  import opened Wrappers
  import opened Bytes
  import opened Framing
  import opened Reassembly
  import opened Delivery
  import opened TransportSpec
  import opened TransportRuns
  import opened Session
  import opened CloseHandshake
  import opened Timers

  // ------------------------------------------------------------------ what moves the pong time point

  /** The application has been told of a pong between two states. */
  predicate Ponged(c: Conn, c': Conn) {
    exists i :: |c.trace.delivered| <= i < |c'.trace.delivered| && c'.trace.delivered[i].kind == MsgPong
  }

  /** The callbacks have grown, and the pong time point is `now` if one of the new ones is a pong. */
  predicate PongTimed(c: Conn, c': Conn, now: int) {
    && c.trace.delivered <= c'.trace.delivered
    && c'.clock.lastPong == if Ponged(c, c') then now else c.clock.lastPong
  }

  predicate Unponged(c: Conn, c': Conn) {
    c'.trace.delivered == c.trace.delivered && c'.clock.lastPong == c.clock.lastPong && c'.reader == c.reader
  }

  lemma UnpongedTimed(c: Conn, c': Conn, now: int)
    requires Unponged(c, c')
    ensures PongTimed(c, c', now)
  {
  }

  lemma TimedTransitive(a: Conn, b: Conn, c: Conn, now: int)
    requires PongTimed(a, b, now) && PongTimed(b, c, now)
    ensures PongTimed(a, c, now)
  {
    assert forall i | 0 <= i < |b.trace.delivered| :: c.trace.delivered[i] == b.trace.delivered[i];
  }

  lemma {:induction false} DrainUnponged(env: Env, c: Conn)
    ensures Unponged(c, Drain(env, c))
    decreases |c.tx|
  {
    if c.tx != [] {
      var n := Taken(NextWrite(env, c), |c.tx|);
      if n > 0 { DrainUnponged(env, TakeBytes(c, n)); }
    }
  }

  lemma {:induction false} SendUnponged(env: Env, c: Conn, fs: seq<Frame>)
    ensures Unponged(c, SendFragments(env, c, fs))
    decreases |fs|
  {
    hide Drain, Encode;
    if fs != [] {
      DrainUnponged(env, Append(c, OnWire(env, c, fs[0])).(drawn := c.drawn + 1));
      SendUnponged(env, SendFragment(env, c, fs[0]), fs[1..]);
    }
  }

  lemma SendDataUnponged(env: Env, c: Conn, opcode: Opcode, message: bytes)
    ensures Unponged(c, SendData(env, c, opcode, message, false))
  {
    hide SendFragments, Fragments;
    SendUnponged(env, c, Fragments(opcode, false, message));
  }

  lemma CloseUnponged(env: Env, c: Conn, code: nat, reason: bytes, wireSize: nat, now: int)
    ensures Unponged(c, Close(env, c, code, reason, wireSize, now))
  {
    hide SendData;
    var size := if wireSize == 0 then |reason| else wireSize;
    var c1 := c.(cancel := true).(close := CloseData(code, reason, size, false),
                                  clock := c.clock.(closingAt := now), state := CLOSING);
    SendDataUnponged(env, c1, Framing.CLOSE, ClosePayload(code, reason));
  }

  lemma DeliverTimed(c: Conn, cb: Callback, now: int)
    requires cb.kind != MsgPong
    ensures PongTimed(c, Deliver(c, cb), now)
  {
  }

  lemma DataKind(env: Env, c: Conn, f: Frame)
    requires IsData(f) && c.reader.kind != MsgPong
    ensures var (r, cb) := OnDataFrame(env.codec, c.cfg.deflate, c.reader, f); r.kind != MsgPong && cb.kind != MsgPong
  {
  }

  /** One frame: the pong time point becomes `now` if the frame is a pong, and stays as it is otherwise. */
  lemma HandleTimed(env: Env, c: Conn, f: Frame, now: int)
    requires c.reader.kind != MsgPong
    ensures PongTimed(c, HandleFrame(env, c, f, now), now)
    ensures HandleFrame(env, c, f, now).reader.kind != MsgPong
    ensures f.opcode == PONG ==> Ponged(c, HandleFrame(env, c, f, now))
  {
    hide SendData, Close, CloseStatus, OnDataFrame, Emittable;
    if IsData(f) {
      CloseUnponged(env, c, PROTOCOL_ERROR, DATA_SEQUENCE_MESSAGE, 0, now);
      CloseUnponged(env, c, PROTOCOL_ERROR, CONTINUATION_SEQUENCE_MESSAGE, 0, now);
      var (r, cb) := OnDataFrame(env.codec, c.cfg.deflate, c.reader, f);
      DataKind(env, c, f);
      assert cb.kind != MsgPong && r.kind != MsgPong;
      var c1 := CheckSequence(env, c, f, now).(reader := r);
      CloseUnponged(env, c1, INVALID_PAYLOAD, INVALID_PAYLOAD_MESSAGE, 0, now);
      DeliverTimed(c1, cb, now);
    } else if f.opcode == PING {
      SendDataUnponged(env, c, PONG, f.payload);
    } else if f.opcode == PONG {
      var c' := HandleFrame(env, c, f, now);
      assert c'.trace.delivered[|c.trace.delivered|].kind == MsgPong;
    } else if f.opcode == Framing.CLOSE {
      var (code, reason) := CloseStatus(f.payload);
      SendDataUnponged(env, c, Framing.CLOSE, ClosePayload(code, reason));
    } else {
      CloseUnponged(env, c, PROTOCOL_ERROR, PROTOCOL_ERROR_MESSAGE, |c.rx|, now);
    }
  }

  lemma LeaveTimed(env: Env, c: Conn, now: int)
    ensures Unponged(c, LeaveLoop(env, c, now).0)
  {
    hide Close, NextFrame, UnmaskHead;
    CloseUnponged(env, c, PROTOCOL_ERROR, RESERVED_BIT_MESSAGE, |c.rx|, now);
    CloseUnponged(env, c, PROTOCOL_ERROR, CONTROL_FRAGMENTED_MESSAGE, 0, now);
    CloseUnponged(env, c.(rx := UnmaskHead(c.rx, c.cfg.deflate)), PROTOCOL_ERROR, PING_OVERSIZED_MESSAGE, 0, now);
  }

  lemma {:induction false} LoopTimed(env: Env, c: Conn, now: int)
    requires c.reader.kind != MsgPong
    ensures PongTimed(c, DispatchLoop(env, c, now).0, now) && DispatchLoop(env, c, now).0.reader.kind != MsgPong
    decreases |c.rx|
  {
    hide HandleFrame, TakeFrame, UnmaskHead, LeaveLoop, PongTimed;
    match TakeFrame(c.rx, c.cfg.deflate)
    case None =>
      LeaveTimed(env, c, now);
      UnpongedTimed(c, LeaveLoop(env, c, now).0, now);
    case Some((f, rest)) =>
      var c0 := c.(rx := UnmaskHead(c.rx, c.cfg.deflate));
      var c1 := HandleFrame(env, c0, f, now);
      HandleTimed(env, c0, f, now);
      LoopTimed(env, c1.(rx := rest), now);
      BuffersAside(c, c0, c1, c1.(rx := rest), now);
      TimedTransitive(c, c1.(rx := rest), DispatchLoop(env, c1.(rx := rest), now).0, now);
  }

  lemma BuffersAside(c: Conn, c0: Conn, c1: Conn, c2: Conn, now: int)
    requires PongTimed(c0, c1, now) && c0 == c.(rx := c0.rx) && c2 == c1.(rx := c2.rx)
    ensures PongTimed(c, c2, now)
  {
    assert Ponged(c0, c1) <==> Ponged(c, c2);
  }

  /** dispatch moves the pong time point to `now` exactly when it hands a pong to the application. */
  lemma DispatchTimed(env: Env, c: Conn, result: PollResult, now: int)
    requires c.reader.kind != MsgPong
    ensures PongTimed(c, Dispatch(env, c, result, now), now) && Dispatch(env, c, result, now).reader.kind != MsgPong
  {
    hide DispatchLoop, PongTimed;
    var (c1, broke) := DispatchLoop(env, c, now);
    LoopTimed(env, c, now);
    if broke && result == AbnormalClose {
      AbnormalUnponged(c1);
      UnpongedTimed(c1, AfterAbnormal(c1), now);
      TimedTransitive(c, c1, AfterAbnormal(c1), now);
    }
  }

  lemma AbnormalUnponged(c: Conn)
    ensures Unponged(c, AfterAbnormal(c))
  {
  }

  lemma PongedFirst(a: Conn, b: Conn, c: Conn)
    requires Ponged(a, b) && a.trace.delivered <= b.trace.delivered <= c.trace.delivered
    ensures Ponged(a, c)
  {
    var i :| |a.trace.delivered| <= i < |b.trace.delivered| && b.trace.delivered[i].kind == MsgPong;
    assert c.trace.delivered[i] == b.trace.delivered[i];
  }

  /** A PONG frame that dispatch finds at `now` sets the pong time point, whatever follows it in the buffer. */
  lemma PongArrives(env: Env, c: Conn, w: WireFrame, tail: bytes, result: PollResult, now: int)
    requires c.rx == Encode(w) + tail && w.frame.opcode == PONG && Acceptable(w.frame, c.cfg.deflate)
    requires c.reader.kind != MsgPong
    ensures Dispatch(env, c, result, now).clock.lastPong == now
  {
    hide HandleFrame, TakeFrame, UnmaskHead, Encode, Ponged, AfterAbnormal;
    TakeEncoded(w, tail, c.cfg.deflate);
    var c0 := c.(rx := UnmaskHead(c.rx, c.cfg.deflate));
    var c1 := HandleFrame(env, c0, w.frame, now).(rx := tail);
    var c2 := DispatchLoop(env, c1, now).0;
    HandleTimed(env, c0, w.frame, now);
    SamePonged(c0, c, HandleFrame(env, c0, w.frame, now), c1);
    LoopTimed(env, c1, now);
    assert c2 == DispatchLoop(env, c, now).0;
    AbnormalUnponged(c2);
    PongedFirst(c, c1, c2);
    var c' := Dispatch(env, c, result, now);
    SamePonged(c, c, c2, c');
    DispatchTimed(env, c, result, now);
  }

  lemma SamePonged(a: Conn, a': Conn, b: Conn, b': Conn)
    requires a'.trace == a.trace && b'.trace.delivered == b.trace.delivered
    ensures Ponged(a', b') == Ponged(a, b)
  {
  }

  // ------------------------------------------------------------------ what the timers close

  /** More than the ping timeout has passed since the last pong. */
  predicate Due(c: Conn, now: int) {
    c.cfg.pingTimeout > 0 && now - c.clock.lastPong > c.cfg.pingTimeout * 1_000_000_000
  }

  lemma {:induction false} FragmentsStayOpen(env: Env, c: Conn, fs: seq<Frame>)
    requires NoErrors(env) && c.socket.open
    ensures var c' := SendFragments(env, c, fs); c'.state == c.state && c'.socket.open
    decreases |fs|
  {
    hide SendFragment, NoErrors;
    if fs != [] {
      FragmentCalm(env, c, fs[0]);
      FragmentsStayOpen(env, SendFragment(env, c, fs[0]), fs[1..]);
    }
  }

  /** Without write errors the timers close an open connection exactly when its pong is overdue. */
  lemma TimersCloseIff(env: Env, c: Conn, now: int)
    requires c.state == OPEN && c.socket.open && NoErrors(env)
    ensures PollTimers(env, c, now).state == OPEN <==> !Due(c, now)
  {
    hide SendFragments, HeartbeatMessage, Fragments, Close, NoErrors;
    FragmentsStayOpen(env, c, Fragments(PING, false, HeartbeatMessage(c)));
    CloseWrites(env, c, INTERNAL_ERROR, PING_TIMEOUT_MESSAGE, 0, now);
  }

  /** The wait brings no failure of the socket that closes the connection in poll itself. */
  predicate Undisturbed(input: PollInput) {
    input.SendRequest? ==> forall i | 0 <= i < |input.readiness| :: !input.readiness[i].WritePollError?
  }

  lemma {:induction false} RequestStaysOpen(env: Env, c: Conn, rs: seq<Readiness>)
    requires NoErrors(env) && c.socket.open && forall i | 0 <= i < |rs| :: !rs[i].WritePollError?
    ensures DrainRequest(env, c, rs).state == c.state
    decreases |rs|
  {
    hide Drain, NoErrors;
    if rs != [] {
      DrainCalm(env, c);
      RequestStaysOpen(env, c, rs[1..]);
      RequestStaysOpen(env, Drain(env, c), rs[1..]);
    }
  }

  /** What poll does behind its timers closes no open connection. */
  lemma InputStaysOpen(env: Env, c: Conn, input: PollInput)
    requires NoErrors(env) && c.state == OPEN && Undisturbed(input)
    ensures ApplyInput(env, c, ActualInput(c, input)).state == OPEN
  {
    hide DrainRequest;
    if c.socket.open && input.SendRequest? { RequestStaysOpen(env, c, input.readiness); }
  }

  /** One poll closes an open connection exactly when its pong is overdue. */
  lemma PollClosesIff(env: Env, c: Conn, now: int, input: PollInput, later: int)
    requires c.state == OPEN && c.socket.open && NoErrors(env) && Undisturbed(input) && ConfigOk(c.cfg)
    ensures Poll(env, c, now, input, later).0.state == OPEN <==> !Due(c, now)
  {
    hide PollTimers, ApplyInput, PollWait, NoErrors, Undisturbed, ActualInput, Core, ControlExtends;
    TimersCloseIff(env, c, now);
    PollTimersPolls(env, c, now);
    var c1 := PollTimers(env, c, now);
    var c2 := c1.(clock := c1.clock.(nextGcd := PollWait(c1, now).1));
    var c3 := ApplyInput(env, c2, ActualInput(c2, input));
    if c1.state == OPEN {
      InputStaysOpen(env, c2, input);
    } else {
      OpenOrEnding(c, c1);
      ApplyInputPolls(env, c2, ActualInput(c2, input));
      NotReopened(c2, c3);
    }
  }

  lemma OpenOrEnding(c: Conn, c': Conn)
    requires Core(c, c') && c.state == OPEN
    ensures c'.state != CONNECTING
  {
  }

  /**
    * After dispatch has met a PONG frame at `now`, no poll up to the ping timeout later closes the connection by its
    * timer.
    */
  lemma PongKeepsOpen(env: Env, c: Conn, w: WireFrame, tail: bytes, result: PollResult, now: int,
                      at: int, input: PollInput, later: int)
    requires c.rx == Encode(w) + tail && w.frame.opcode == PONG && Acceptable(w.frame, c.cfg.deflate)
    requires c.reader.kind != MsgPong && c.state != CONNECTING && Guarded(c) && ConfigOk(c.cfg)
    requires NoErrors(env) && Undisturbed(input)
    requires var c' := Dispatch(env, c, result, now); c'.state == OPEN && c'.socket.open
    requires at <= now + c.cfg.pingTimeout * 1_000_000_000
    ensures Poll(env, Dispatch(env, c, result, now), at, input, later).0.state == OPEN
  {
    hide Dispatch, Poll, Core, ControlExtends, Encode, NoErrors, Undisturbed, Acceptable;
    PongArrives(env, c, w, tail, result, now);
    DispatchCore(env, c, result, now);
    CoreKeepsConfig(c, Dispatch(env, c, result, now));
    PollClosesIff(env, Dispatch(env, c, result, now), at, input, later);
  }

  // ------------------------------------------------------------------ a run with pongs in time

  /** The frames read in a turn close nothing, and neither does its socket. */
  predicate Spared(env: Env, c: Conn, t: Turn) {
    && c.socket.open && Undisturbed(t.input)
    && (Poll(env, c, t.now, t.input, t.later).0.state == OPEN ==> DoTurn(env, c, t).state == OPEN)
  }

  /** In each turn poll begins at most the ping timeout after `last` or after the last turn that brought a pong. */
  predicate PongsInTime(env: Env, c: Conn, ts: seq<Turn>, last: int)
    decreases |ts|
  {
    ts == []
    || (&& ts[0].now <= last + c.cfg.pingTimeout * 1_000_000_000
        && Spared(env, c, ts[0])
        && var c1 := DoTurn(env, c, ts[0]);
           PongsInTime(env, c1, ts[1..], if Ponged(c, c1) then ts[0].later else last))
  }

  lemma {:induction false} RequestUnponged(env: Env, c: Conn, rs: seq<Readiness>)
    ensures Unponged(c, DrainRequest(env, c, rs))
    decreases |rs|
  {
    hide Drain;
    if rs != [] {
      DrainUnponged(env, c);
      RequestUnponged(env, c, rs[1..]);
      RequestUnponged(env, Drain(env, c), rs[1..]);
    }
  }

  lemma TimersUnponged(env: Env, c: Conn, now: int)
    ensures Unponged(c, PollTimers(env, c, now))
  {
    hide SendData, Close, HeartbeatMessage;
    CloseUnponged(env, c, INTERNAL_ERROR, PING_TIMEOUT_MESSAGE, 0, now);
    SendDataUnponged(env, c, PING, HeartbeatMessage(c));
  }

  lemma InputUnponged(env: Env, c: Conn, input: PollInput)
    ensures Unponged(c, ApplyInput(env, c, input))
  {
    hide DrainRequest;
    if input.SendRequest? { RequestUnponged(env, c, input.readiness); }
  }

  lemma PollUnponged(env: Env, c: Conn, now: int, input: PollInput, later: int)
    ensures Unponged(c, Poll(env, c, now, input, later).0)
  {
    hide PollTimers, ApplyInput, PollWait;
    var c1 := PollTimers(env, c, now);
    var c2 := c1.(clock := c1.clock.(nextGcd := PollWait(c1, now).1));
    TimersUnponged(env, c, now);
    InputUnponged(env, c2, ActualInput(c2, input));
  }

  /** A turn moves the pong time point to its end exactly when it brings a pong. */
  lemma TurnTimed(env: Env, c: Conn, t: Turn)
    requires c.reader.kind != MsgPong
    ensures PongTimed(c, DoTurn(env, c, t), t.later) && DoTurn(env, c, t).reader.kind != MsgPong
  {
    hide Poll, Dispatch, PongTimed;
    var (c1, result) := Poll(env, c, t.now, t.input, t.later);
    PollUnponged(env, c, t.now, t.input, t.later);
    UnpongedTimed(c, c1, t.later);
    DispatchTimed(env, c1, result, t.later);
    TimedTransitive(c, c1, DoTurn(env, c, t), t.later);
  }

  /** A connection that meets no other close and gets its pongs in time stays open. */
  lemma {:induction false} PongsKeepOpen(env: Env, c: Conn, ts: seq<Turn>)
    requires c.state == OPEN && c.reader.kind != MsgPong && Guarded(c) && ConfigOk(c.cfg) && NoErrors(env)
    requires PongsInTime(env, c, ts, c.clock.lastPong)
    ensures DoTurns(env, c, ts).state == OPEN
    decreases |ts|
  {
    hide DoTurn, Poll, Core, Undisturbed, NoErrors, Ponged;
    if ts != [] {
      var t := ts[0];
      PollClosesIff(env, c, t.now, t.input, t.later);
      TurnTimed(env, c, t);
      TurnCore(env, c, t);
      TurnParts(c, DoTurn(env, c, t));
      PongsKeepOpen(env, DoTurn(env, c, t), ts[1..]);
    }
  }

  /** From the moment a connection is opened. */
  lemma NewConnectionStaysOpen(env: Env, c: Conn, start: int, ts: seq<Turn>)
    requires c.state == CLOSED && c.reader.kind != MsgPong && ConfigOk(c.cfg) && NoErrors(env)
    requires PongsInTime(env, Connect(c, start), ts, start)
    ensures DoTurns(env, Connect(c, start), ts).state == OPEN
  {
    hide DoTurns, PongsInTime, NoErrors;
    PongsKeepOpen(env, Connect(c, start), ts);
  }

  // ------------------------------------------------------------------ the time given to a closing handshake

  /**
    * A poll ends a closing handshake exactly when 300 ms have passed since it began, unless the poll has just found the
    * peer gone, which it leaves to dispatch.
    */
  lemma PollEndsClosingIff(env: Env, c: Conn, now: int, input: PollInput, later: int)
    requires c.state == CLOSING && Guarded(c)
    ensures var c' := Poll(env, c, now, input, later).0;
            && (c'.state == CLOSING || c'.state == CLOSED)
            && (c'.state == CLOSED <==>
                  later - c.clock.closingAt > 300 * 1_000_000 && !(c.socket.open && Gone(input)))
  {
    hide PollWait;
  }
}

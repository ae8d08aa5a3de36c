/** How long a connection can outlive its timers when poll and dispatch run back to back. */
module Timers {
  import opened Bytes
  import opened Framing
  import opened Reassembly
  import opened Delivery
  import opened TransportSpec
  import opened TransportRuns

  /** One turn of the loop in WebSocket::run: a poll from `now` to `later`, then dispatch. */
  datatype Turn = Turn(now: int, input: PollInput, later: int)

  function DoTurn(env: Env, c: Conn, t: Turn): (c': Conn) {
    var (c1, result) := Poll(env, c, t.now, t.input, t.later);
    Dispatch(env, c1, result, t.later)
  }

  function DoTurns(env: Env, c: Conn, ts: seq<Turn>): (c': Conn)
    decreases |ts|
  {
    if ts == [] then c else DoTurns(env, DoTurn(env, c, ts[0]), ts[1..])
  }

  /** The socket waits no longer than poll tells it to, and not at all once it is closed. */
  predicate OnTime(env: Env, c: Conn, t: Turn) {
    var c1 := PollTimers(env, c, t.now);
    && t.now <= t.later
    && (if c1.socket.open then t.later - t.now <= PollWait(c1, t.now).0 * MILLISECOND else t.later == t.now)
  }

  /** Turns that follow each other without a pause, from `start` to `end`. */
  predicate BackToBack(env: Env, c: Conn, ts: seq<Turn>, start: int, end: int)
    decreases |ts|
  {
    if ts == [] then start == end
    else ts[0].now == start && OnTime(env, c, ts[0])
         && BackToBack(env, DoTurn(env, c, ts[0]), ts[1..], ts[0].later, end)
  }

  // ------------------------------------------------------------------ the gcd period

  predicate PeriodOk(c: Conn, now: int) { c.cfg.gcd > 0 && c.clock.nextGcd <= now + c.cfg.gcd * SECOND }

  /** The delay that poll passes on never exceeds the gcd period. */
  lemma WaitIsBounded(c: Conn, now: int)
    requires PeriodOk(c, now)
    ensures var (wait, next) := PollWait(c, now);
            && 0 <= wait <= c.cfg.gcd * 1000
            && next <= now + c.cfg.gcd * SECOND
            && (c.cancel ==> wait == 100)
  {
    if now < c.clock.nextGcd {
      var left := c.clock.nextGcd - now;
      assert left <= c.cfg.gcd * 1000 * MILLISECOND;
      assert left / MILLISECOND <= c.cfg.gcd * 1000;
    }
  }

  /** Entering OPEN starts the period. */
  lemma OpeningStartsPeriod(c: Conn, now: int)
    requires c.cfg.gcd > 0 && c.state == CLOSED
    ensures PeriodOk(Connect(c, now), now)
  {
  }

  /** Until the first period after the opening is over poll waits for its end, to the millisecond. */
  lemma FirstWait(c: Conn, start: int, now: int)
    requires c.state == CLOSED && c.cfg.gcd > 0 && start <= now < start + c.cfg.gcd * 1_000_000_000
    ensures var (wait, next) := PollWait(Connect(c, start), now);
            && next == start + c.cfg.gcd * 1_000_000_000
            && wait * 1_000_000 <= next - now < (wait + 1) * 1_000_000
  {
  }

  /** A poll that finds the period over waits for a whole one, which begins with it. */
  lemma NextWait(c: Conn, now: int)
    requires c.cfg.gcd > 0 && now >= c.clock.nextGcd && !c.cancel
    ensures PollWait(c, now) == (c.cfg.gcd * 1000, now + c.cfg.gcd * 1_000_000_000)
  {
  }

  /** Without a period an open connection waits as configured, -1 for no limit, and any other not at all. */
  lemma WaitWithoutTimers(c: Conn, now: int)
    requires c.cfg.gcd <= 0 && !c.cancel
    ensures PollWait(c, now) == (if c.state == OPEN then c.cfg.gcd else 0, c.clock.nextGcd)
  {
  }

  // ------------------------------------------------------------------ fields that operations leave alone

  /** Neither the period nor the socket, once closed, nor the start of a closing handshake is touched. */
  predicate KeepsTime(c: Conn, c': Conn) {
    && c'.clock.nextGcd == c.clock.nextGcd
    && (!c.socket.open ==> !c'.socket.open)
  }

  lemma {:induction false} DrainKeepsTime(env: Env, c: Conn)
    ensures KeepsTime(c, Drain(env, c))
    decreases |c.tx|
  {
    if c.tx != [] {
      var n := Taken(NextWrite(env, c), |c.tx|);
      if n > 0 {
        DrainKeepsTime(env, TakeBytes(c, n));
      }
    }
  }

  lemma {:induction false} SendKeepsTime(env: Env, c: Conn, fs: seq<Frame>)
    ensures KeepsTime(c, SendFragments(env, c, fs))
    decreases |fs|
  {
    hide Drain, Encode;
    if fs != [] {
      DrainKeepsTime(env, Append(c, OnWire(env, c, fs[0])).(drawn := c.drawn + 1));
      SendKeepsTime(env, SendFragment(env, c, fs[0]), fs[1..]);
    }
  }

  lemma SendDataKeepsTime(env: Env, c: Conn, opcode: Opcode, message: bytes)
    ensures KeepsTime(c, SendData(env, c, opcode, message, false))
  {
    hide SendFragments, Fragments;
    SendKeepsTime(env, c, Fragments(opcode, false, message));
  }

  lemma CloseKeepsTime(env: Env, c: Conn, code: nat, reason: bytes, wireSize: nat, now: int)
    ensures KeepsTime(c, Close(env, c, code, reason, wireSize, now))
  {
    hide SendData;
    var size := if wireSize == 0 then |reason| else wireSize;
    var c1 := c.(cancel := true).(close := CloseData(code, reason, size, false),
                                  clock := c.clock.(closingAt := now), state := CLOSING);
    SendDataKeepsTime(env, c1, Framing.CLOSE, ClosePayload(code, reason));
  }

  lemma HandleKeepsTime(env: Env, c: Conn, f: Frame, now: int)
    ensures KeepsTime(c, HandleFrame(env, c, f, now))
  {
    hide SendData, Close, CloseStatus, OnDataFrame, Emittable;
    if IsData(f) {
      CloseKeepsTime(env, c, PROTOCOL_ERROR, DATA_SEQUENCE_MESSAGE, 0, now);
      CloseKeepsTime(env, c, PROTOCOL_ERROR, CONTINUATION_SEQUENCE_MESSAGE, 0, now);
      var (r, cb) := OnDataFrame(env.codec, c.cfg.deflate, c.reader, f);
      CloseKeepsTime(env, CheckSequence(env, c, f, now).(reader := r),
        INVALID_PAYLOAD, INVALID_PAYLOAD_MESSAGE, 0, now);
    } else if f.opcode == PING {
      SendDataKeepsTime(env, c, PONG, f.payload);
    } else if f.opcode == Framing.CLOSE {
      var (code, reason) := CloseStatus(f.payload);
      SendDataKeepsTime(env, c, Framing.CLOSE, ClosePayload(code, reason));
    } else {
      CloseKeepsTime(env, c, PROTOCOL_ERROR, PROTOCOL_ERROR_MESSAGE, |c.rx|, now);
    }
  }

  lemma LeaveKeepsTime(env: Env, c: Conn, now: int)
    ensures KeepsTime(c, LeaveLoop(env, c, now).0)
  {
    hide Close, NextFrame, UnmaskHead;
    CloseKeepsTime(env, c, PROTOCOL_ERROR, RESERVED_BIT_MESSAGE, |c.rx|, now);
    CloseKeepsTime(env, c, PROTOCOL_ERROR, CONTROL_FRAGMENTED_MESSAGE, 0, now);
    CloseKeepsTime(env, c.(rx := UnmaskHead(c.rx, c.cfg.deflate)), PROTOCOL_ERROR, PING_OVERSIZED_MESSAGE, 0, now);
  }

  lemma {:induction false} DispatchKeepsTime(env: Env, c: Conn, now: int)
    ensures KeepsTime(c, DispatchLoop(env, c, now).0)
    decreases |c.rx|
  {
    hide HandleFrame, TakeFrame, UnmaskHead, LeaveLoop;
    match TakeFrame(c.rx, c.cfg.deflate)
    case None => LeaveKeepsTime(env, c, now);
    case Some((f, rest)) =>
      var c0 := c.(rx := UnmaskHead(c.rx, c.cfg.deflate));
      HandleKeepsTime(env, c0, f, now);
      DispatchKeepsTime(env, HandleFrame(env, c0, f, now).(rx := rest), now);
  }

  lemma TimersKeepTime(env: Env, c: Conn, now: int)
    ensures KeepsTime(c, PollTimers(env, c, now))
  {
    hide SendData, Close, HeartbeatMessage;
    CloseKeepsTime(env, c, INTERNAL_ERROR, PING_TIMEOUT_MESSAGE, 0, now);
    SendDataKeepsTime(env, c, PING, HeartbeatMessage(c));
  }

  lemma {:induction false} DrainRequestKeepsTime(env: Env, c: Conn, rs: seq<Readiness>)
    ensures KeepsTime(c, DrainRequest(env, c, rs))
    decreases |rs|
  {
    hide Drain;
    if rs != [] {
      DrainKeepsTime(env, c);
      DrainRequestKeepsTime(env, c, rs[1..]);
      DrainRequestKeepsTime(env, Drain(env, c), rs[1..]);
    }
  }

  /** What poll does with its input keeps the period and, once it is closed, the socket. */
  lemma InputKeepsTime(env: Env, c: Conn, input: PollInput)
    ensures KeepsTime(c, ApplyInput(env, c, input))
  {
    hide DrainRequest;
    if input.SendRequest? { DrainRequestKeepsTime(env, c, input.readiness); }
  }

  /** One poll leaves the period as `PollWait` sets it. */
  lemma PollKeepsTime(env: Env, c: Conn, t: Turn)
    ensures var c1 := PollTimers(env, c, t.now);
            var c' := Poll(env, c, t.now, t.input, t.later).0;
            c'.clock.nextGcd == PollWait(c1, t.now).1
  {
    hide PollTimers, DrainRequest, PollWait, ApplyInput;
    var c1 := PollTimers(env, c, t.now);
    var c2 := c1.(clock := c1.clock.(nextGcd := PollWait(c1, t.now).1));
    InputKeepsTime(env, c2, ActualInput(c2, t.input));
  }

  lemma TurnCore(env: Env, c: Conn, t: Turn)
    requires c.state != CONNECTING && Guarded(c) && ConfigOk(c.cfg)
    ensures Core(c, DoTurn(env, c, t))
    ensures var c' := Poll(env, c, t.now, t.input, t.later).0; KeepsTime(c', DoTurn(env, c, t))
  {
    hide Poll, Core, Dispatch;
    var (c3, result) := Poll(env, c, t.now, t.input, t.later);
    PollPolls(env, c, t.now, t.input, t.later);
    TurnParts(c, c3);
    DispatchCore(env, c3, result, t.later);
    DispatchKeepsClock(env, c3, result, t.later);
    CoreTransitive(c, c3, Dispatch(env, c3, result, t.later));
  }

  lemma TurnKeepsPeriod(env: Env, c: Conn, t: Turn)
    requires PeriodOk(c, t.now) && t.now <= t.later && c.state != CONNECTING && Guarded(c) && ConfigOk(c.cfg)
    ensures PeriodOk(DoTurn(env, c, t), t.later)
    ensures Core(c, DoTurn(env, c, t))
  {
    hide PollTimers, Poll, Core, PollWait, DoTurn;
    var c1 := PollTimers(env, c, t.now);
    TimersKeepTime(env, c, t.now);
    TimersKeepConfig(env, c, t.now);
    WaitIsBounded(c1, t.now);
    PollKeepsTime(env, c, t);
    TurnCore(env, c, t);
    TurnParts(c, DoTurn(env, c, t));
  }

  lemma TurnParts(c: Conn, c': Conn)
    ensures Core(c, c') && c.state != CONNECTING && Guarded(c) ==>
      c'.state != CONNECTING && Guarded(c') && c'.cfg == c.cfg
  {
  }

  lemma TimersKeepConfig(env: Env, c: Conn, now: int)
    requires c.state != CONNECTING && ConfigOk(c.cfg)
    ensures PollTimers(env, c, now).cfg == c.cfg
  {
    hide PollTimers;
    PollTimersPolls(env, c, now);
  }

  lemma DispatchKeepsClock(env: Env, c: Conn, result: PollResult, now: int)
    ensures KeepsTime(c, Dispatch(env, c, result, now))
  {
    hide DispatchLoop;
    DispatchKeepsTime(env, c, now);
  }

  // ------------------------------------------------------------------ the pong timeout

  /** No pong is processed during the turns. */
  predicate NoPong(env: Env, c: Conn, ts: seq<Turn>)
    decreases |ts|
  {
    ts == [] || (DoTurn(env, c, ts[0]).clock.lastPong == c.clock.lastPong
        && NoPong(env, DoTurn(env, c, ts[0]), ts[1..]))
  }

  /** A turn that finds the timeout exceeded does not leave the connection open, and says why. */
  lemma TimeoutCloses(env: Env, c: Conn, now: int)
    requires c.state == OPEN && PingTimeoutExceeded(c, now) && Guarded(c)
    ensures var c' := PollTimers(env, c, now);
            && c'.state != OPEN
            && (c'.state == CLOSING ==> c'.close.code == INTERNAL_ERROR && c'.close.reason == PING_TIMEOUT_MESSAGE)
            && (c'.state == CLOSED ==> |c'.trace.reports| == |c.trace.reports| + 1
                                       && c'.trace.reports[|c.trace.reports|].code == INTERNAL_ERROR
                                       && c'.trace.reports[|c.trace.reports|].reason == PING_TIMEOUT_MESSAGE)
  {
    hide SendCloseFrame, ControlExtends;
    var c1 := c.(cancel := true).(close := CloseData(INTERNAL_ERROR, PING_TIMEOUT_MESSAGE,
                   |PING_TIMEOUT_MESSAGE|, false),
                                  clock := c.clock.(closingAt := now), state := CLOSING);
    CloseFrameWrites(env, c1, INTERNAL_ERROR, PING_TIMEOUT_MESSAGE);
  }

  lemma OpenTurnIsEarly(env: Env, c: Conn, t: Turn)
    requires PeriodOk(c, t.now) && OnTime(env, c, t) && c.state == OPEN && Guarded(c) && ConfigOk(c.cfg)
    requires c.cfg.pingTimeout > 0 && DoTurn(env, c, t).state == OPEN
    ensures t.later <= c.clock.lastPong + (c.cfg.pingTimeout + c.cfg.gcd) * SECOND
  {
    hide PollTimers, Poll, Dispatch, Core, ControlExtends, Lifecycle, PollWait;
    var c1 := PollTimers(env, c, t.now);
    TimersKeepTime(env, c, t.now);
    TimersKeepConfig(env, c, t.now);
    WaitIsBounded(c1, t.now);
    if PingTimeoutExceeded(c, t.now) {
      TimeoutCloses(env, c, t.now);
      ClosedTurn(env, c, t);
    }
    assert t.later - t.now <= c.cfg.gcd * 1000 * MILLISECOND;
  }

  /** A connection that its timers have closed is not open at the end of the turn. */
  lemma ClosedTurn(env: Env, c: Conn, t: Turn)
    requires c.state == OPEN && Guarded(c) && ConfigOk(c.cfg) && PollTimers(env, c, t.now).state != OPEN
    ensures DoTurn(env, c, t).state != OPEN
  {
    hide PollTimers, DrainRequest, Dispatch, Core, ControlExtends, PollWait, Conserves;
    var c1 := PollTimers(env, c, t.now);
    PollTimersPolls(env, c, t.now);
    NotReopened(c, c1);
    var c2 := c1.(clock := c1.clock.(nextGcd := PollWait(c1, t.now).1));
    var actual := ActualInput(c2, t.input);
    if actual.SendRequest? {
      DrainRequestWrites(env, c2, actual.readiness);
      NotReopened(c2, DrainRequest(env, c2, actual.readiness));
    }
    var (c3, result) := Poll(env, c, t.now, t.input, t.later);
    assert c3.state != OPEN;
    PollPolls(env, c, t.now, t.input, t.later);
    NotReopened(c, c3);
    DispatchCore(env, c3, result, t.later);
    NotReopened(c3, Dispatch(env, c3, result, t.later));
  }

  lemma NotReopened(c: Conn, c': Conn)
    ensures (Core(c, c') || Writes(c, c')) && (c.state == CLOSING || c.state == CLOSED) ==>
      c'.state != OPEN && c'.state != CONNECTING
    ensures Core(c, c') && c.state != CONNECTING && Guarded(c) ==> c'.state != CONNECTING && Guarded(c')
  {
  }

  /**
    * Back-to-back turns without a pong: if the connection is still open at the end, the end is at most
    * timeout + gcd seconds after the last pong.
    */
  lemma {:induction false} PongTimeoutBound(env: Env, c: Conn, ts: seq<Turn>, start: int, end: int)
    requires BackToBack(env, c, ts, start, end) && NoPong(env, c, ts) && PeriodOk(c, start)
    requires c.state != CONNECTING && Guarded(c) && ConfigOk(c.cfg) && c.cfg.pingTimeout > 0
    requires start <= c.clock.lastPong + (c.cfg.pingTimeout + c.cfg.gcd) * SECOND
    ensures DoTurns(env, c, ts).state == OPEN ==> end <= c.clock.lastPong + (c.cfg.pingTimeout + c.cfg.gcd) * SECOND
    decreases |ts|
  {
    hide DoTurn, Core, OnTime, PollWait;
    if ts != [] {
      var t := ts[0];
      var c1 := DoTurn(env, c, t);
      OnTimeForward(env, c, t);
      TurnKeepsPeriod(env, c, t);
      TurnParts(c, c1);
      if c1.state == OPEN {
        OpenBefore(c, c1);
        OpenTurnIsEarly(env, c, t);
        PongTimeoutBound(env, c1, ts[1..], t.later, end);
      } else {
        NeverOpens(env, c1, ts[1..], t.later, end);
      }
    }
  }

  /**
    * From the moment a connection is opened: polled back to back and without a pong, it is not OPEN later than
    * timeout + gcd seconds after that.
    */
  lemma NewConnectionTimesOut(env: Env, c: Conn, now: int, ts: seq<Turn>, end: int)
    requires c.state == CLOSED && ConfigOk(c.cfg) && c.cfg.gcd > 0 && c.cfg.pingTimeout > 0
    requires BackToBack(env, Connect(c, now), ts, now, end) && NoPong(env, Connect(c, now), ts)
    ensures DoTurns(env, Connect(c, now), ts).state == OPEN ==> end <= now + (c.cfg.pingTimeout + c.cfg.gcd) * SECOND
  {
    hide BackToBack, NoPong, DoTurns;
    OpeningStartsPeriod(c, now);
    PongTimeoutBound(env, Connect(c, now), ts, now, end);
  }

  lemma OnTimeForward(env: Env, c: Conn, t: Turn)
    requires OnTime(env, c, t)
    ensures t.now <= t.later
  {
  }

  lemma OpenBefore(c: Conn, c': Conn)
    requires Core(c, c') && c.state != CONNECTING && c'.state == OPEN
    ensures c.state == OPEN
  {
  }

  lemma {:induction false} NeverOpens(env: Env, c: Conn, ts: seq<Turn>, start: int, end: int)
    requires BackToBack(env, c, ts, start, end) && PeriodOk(c, start)
    requires (c.state == CLOSING || c.state == CLOSED) && Guarded(c) && ConfigOk(c.cfg)
    ensures DoTurns(env, c, ts).state != OPEN
    decreases |ts|
  {
    hide DoTurn, Core, OnTime;
    if ts != [] {
      var c1 := DoTurn(env, c, ts[0]);
      OnTimeForward(env, c, ts[0]);
      TurnKeepsPeriod(env, c, ts[0]);
      TurnParts(c, c1);
      NotReopened(c, c1);
      NeverOpens(env, c1, ts[1..], ts[0].later, end);
    }
  }

  // ------------------------------------------------------------------ the closing delay

  /** Still closing: within the delay, or just beyond it on a socket found closed by the peer. */
  predicate StillClosing(c: Conn, at: int) {
    var delay := CLOSING_DELAY_MS * MILLISECOND;
    || at <= c.clock.closingAt + delay
    || (at <= c.clock.closingAt + delay + 100 * MILLISECOND && !c.socket.open)
  }

  lemma ClosingTurn(env: Env, c: Conn, t: Turn)
    requires OnTime(env, c, t) && c.state == CLOSING && Guarded(c) && ConfigOk(c.cfg)
    requires StillClosing(c, t.now)
    ensures var c' := DoTurn(env, c, t);
            c'.state == CLOSED
            || (c'.state == CLOSING && c'.clock.closingAt == c.clock.closingAt && StillClosing(c', t.later))
  {
    hide DrainRequest, Dispatch, Core, ControlExtends, PollWait, Conserves;
    var (c3, result) := Poll(env, c, t.now, t.input, t.later);
    var c' := DoTurn(env, c, t);
    TurnCore(env, c, t);
    ClosingStays(c, c');
    CancelWaitsShortly(c, t.now);
    var c2 := c.(clock := c.clock.(nextGcd := PollWait(c, t.now).1));
    var actual := ActualInput(c2, t.input);
    PollPolls(env, c, t.now, t.input, t.later);
    ClosingStays(c, c3);
    if c3.state == CLOSED {
      DispatchCore(env, c3, result, t.later);
      ClosedForGood(c3, c');
    } else if Gone(actual) {
      assert !c3.socket.open;
    } else {
      if actual.SendRequest? {
        DrainRequestWrites(env, c2, actual.readiness);
        ClosingStays(c2, DrainRequest(env, c2, actual.readiness));
      }
      assert !ClosingDelayExceeded(c3, t.later);
    }
  }

  lemma CancelWaitsShortly(c: Conn, now: int)
    requires c.cancel
    ensures PollWait(c, now).0 == 100
  {
  }

  lemma ClosedForGood(c: Conn, c': Conn)
    requires c.state == CLOSED && Core(c, c')
    ensures c'.state == CLOSED
  {
  }

  lemma ClosingStays(c: Conn, c': Conn)
    ensures (Core(c, c') || Writes(c, c')) && c.state == CLOSING ==>
              c'.state == CLOSED || (c'.state == CLOSING && c'.clock.closingAt == c.clock.closingAt)
  {
  }

  /** Back-to-back turns from the start of a closing handshake: 400 ms later the connection is closed. */
  lemma {:induction false} ClosingDelayBound(env: Env, c: Conn, ts: seq<Turn>, start: int, end: int)
    requires BackToBack(env, c, ts, start, end)
    requires c.state == CLOSING && Guarded(c) && ConfigOk(c.cfg) && StillClosing(c, start)
    ensures DoTurns(env, c, ts).state == CLOSED || end <= c.clock.closingAt + 400 * MILLISECOND
    decreases |ts|
  {
    hide DoTurn, Core, OnTime, StillClosing;
    if ts == [] {
      StillClosingIsEarly(c, start);
    } else {
      var c1 := DoTurn(env, c, ts[0]);
      ClosingTurn(env, c, ts[0]);
      TurnCore(env, c, ts[0]);
      TurnParts(c, c1);
      if c1.state == CLOSED {
        NeverReopens(env, c1, ts[1..]);
      } else {
        ClosingDelayBound(env, c1, ts[1..], ts[0].later, end);
      }
    }
  }

  lemma StillClosingIsEarly(c: Conn, at: int)
    requires StillClosing(c, at)
    ensures at <= c.clock.closingAt + 400 * MILLISECOND
  {
  }

  lemma {:induction false} NeverReopens(env: Env, c: Conn, ts: seq<Turn>)
    requires c.state == CLOSED && Guarded(c) && ConfigOk(c.cfg)
    ensures DoTurns(env, c, ts).state == CLOSED
    decreases |ts|
  {
    hide DoTurn, Core;
    if ts != [] {
      var c1 := DoTurn(env, c, ts[0]);
      TurnCore(env, c, ts[0]);
      TurnParts(c, c1);
      ClosedForGood(c, c1);
      NeverReopens(env, c1, ts[1..]);
    }
  }
}

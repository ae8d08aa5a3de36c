/** One end closes with a code and a reason: what both ends report, in every run without write errors. */
module TwoPartyClose {
  import opened Bytes
  import opened Framing
  import opened Reassembly
  import opened Delivery
  import opened TransportSpec
  import opened TransportRuns
  import opened Session
  import opened EndToEnd
  import opened CloseHandshake

  // ------------------------------------------------------------------ the runs considered

  predicate InTime(c: Conn, now: int) { c.state == OPEN ==> !PingTimeoutExceeded(c, now) }

  /**
    * Pings, dispatches, and polls that see neither errors nor input and do not find the peer's pong overdue. dispatch
    * is told of an abnormal closure only once a read has found the peer gone, which closes the socket.
    */
  predicate QuietStep(c: Conn, s: Step) {
    || s.PingCall?
    || (s.DispatchCall? && (s.result == Succeeded || !c.socket.open))
    || (s.PollCall? && InTime(c, s.now) && QuietInput(s.input))
  }

  predicate QuietInput(input: PollInput) {
    || input.Timeout?
    || (input.SendRequest? && WritePollError !in input.readiness)
    || input.ReadyForRead?
  }

  predicate QuietLocal(c: Conn, l: Local) { l.Begin? || l.Push? || (l.Other? && QuietStep(c, l.step)) }

  /** A read that finds the peer gone only if the peer has closed its socket. */
  predicate QuietRead(c: Conn, peer: Conn, gone: bool, now: int) { InTime(c, now) && (gone ==> !peer.socket.open) }

  /**
    * Steps of a run in which only A closes, with one code and reason, and no end meets an error while it is open. An
    * end that is no longer open may do anything: meet poll errors, write to a socket it has closed, call close again.
    * Either end may find the other gone in any read, whatever bytes come with it, once the other has closed its socket.
    */
  predicate QuietNetStep(s: Net, step: NetStep, code: nat, reason: bytes) {
    match step
    case AtA(l) =>
      || s.a.conn.state != OPEN
      || QuietLocal(s.a.conn, l)
      || (l.Other? && l.step.CloseCall? && l.step.code == code && l.step.reason == reason)
    case AtB(l) => s.b.conn.state != OPEN || QuietLocal(s.b.conn, l)
    case ReadAtA(_, gone, now, _) => s.a.conn.state != OPEN || QuietRead(s.a.conn, s.b.conn, gone, now)
    case ReadAtB(_, gone, now, _) => s.b.conn.state != OPEN || QuietRead(s.b.conn, s.a.conn, gone, now)
  }

  predicate QuietRun(envA: Env, envB: Env, s: Net, steps: seq<NetStep>, code: nat, reason: bytes)
    decreases |steps|
  {
    steps == []
    || (QuietNetStep(s, steps[0], code, reason)
        && QuietRun(envA, envB, NetDo(envA, envB, s, steps[0]), steps[1..], code, reason))
  }

  // ------------------------------------------------------------------ steps of an open end

  /** Only the buffers, the log and perhaps the socket change. */
  predicate Steady(c: Conn, c': Conn, open: bool) {
    && c'.state == c.state && c'.close == c.close && c'.trace.reports == c.trace.reports && c'.cfg == c.cfg
    && c'.socket.open == open && LogCalm(c, c')
  }

  /** A write found the socket closed: the data stored are reported. */
  predicate ClosedAsStored(c: Conn, c': Conn) {
    c'.state == CLOSED && c'.trace.reports == c.trace.reports + [c.close] && LogCalm(c, c')
  }

  /** What a step of an open end other than dispatch comes to. */
  predicate StaysOrFails(c: Conn, c': Conn, open: bool) {
    Steady(c, c', open) || (!c.socket.open && ClosedAsStored(c, c'))
  }

  lemma CalmIsSteady(c: Conn, c': Conn)
    ensures Calm(c, c') <==> Steady(c, c', c.socket.open)
    ensures Calm(c, c') ==> LogCalm(c, c')
  {
  }

  lemma {:induction false} DrainRequestCalm(env: Env, c: Conn, rs: seq<Readiness>)
    requires NoErrors(env) && c.socket.open && WritePollError !in rs
    ensures Calm(c, DrainRequest(env, c, rs)) && DrainRequest(env, c, rs).log == c.log
    decreases |rs|
  {
    hide Drain, Calm;
    CalmReflexive(c);
    if rs != [] && c.tx != [] && !c.cancel {
      assert rs[0] in rs;
      DrainCalm(env, c);
      CalmFacts(c, Drain(env, c));
      forall r | r in rs[1..]
        ensures r in rs
      {
      }
      DrainRequestCalm(env, c, rs[1..]);
      DrainRequestCalm(env, Drain(env, c), rs[1..]);
      CalmTransitive(c, Drain(env, c), DrainRequest(env, Drain(env, c), rs[1..]));
    }
  }

  lemma SendPingQuiet(env: Env, c: Conn, message: bytes, now: int)
    requires NoErrors(env) && c.state == OPEN && |message| <= 125
    ensures StaysOrFails(c, SendPing(env, c, message, now), c.socket.open)
  {
    hide SendFragment, SendFragments, Fragments;
    if c.socket.open {
      SendPingCalm(env, c, message, now);
    } else {
      var f := Frame(true, false, PING, message);
      SendsOne(env, c, PING, message);
      FragmentOnClosed(env, c, f);
      OnWireFrame(env, c, f);
    }
  }

  lemma TimersQuiet(env: Env, c: Conn, now: int)
    requires NoErrors(env) && c.state == OPEN && ConfigOk(c.cfg) && InTime(c, now)
    ensures StaysOrFails(c, PollTimers(env, c, now), c.socket.open)
  {
    hide SendPing, Close, HeartbeatMessage, Calm;
    CalmReflexive(c);
    CalmIsSteady(c, c);
    if c.cfg.pingInterval > 0 {
      HeartbeatIsShort(c);
      SendPingQuiet(env, c, HeartbeatMessage(c), now);
    }
  }

  lemma SteadyTransitive(a: Conn, b: Conn, c: Conn, mid: bool, open: bool)
    requires Steady(a, b, mid) && Steady(b, c, open)
    ensures Steady(a, c, open)
  {
    hide Harmless;
    assert forall i | 0 <= i < |b.log| :: c.log[i] == b.log[i];
  }

  /** A quiet poll leaves an open end as it is, but for a socket found closed by the peer. */
  lemma OpenPoll(env: Env, c: Conn, now: int, input: PollInput, later: int)
    requires NoErrors(env) && c.state == OPEN && Invariant(c) && InTime(c, now) && QuietInput(input)
    ensures var (c', result) := Poll(env, c, now, input, later);
            && StaysOrFails(c, c', c.socket.open && !Gone(input))
            && (result == AbnormalClose <==> c.socket.open && Gone(input))
  {
    hide PollTimers, PollWait, DrainRequest, ClosingDelayExceeded, Conserves, Balanced, LogCalm, Calm;
    var c1 := PollTimers(env, c, now);
    TimersQuiet(env, c, now);
    TimersKeepBuffer(env, c, now);
    ClosedIsBare(c, c1);
    var c2 := c1.(clock := c1.clock.(nextGcd := PollWait(c1, now).1));
    var c3 := ApplyInput(env, c2, ActualInput(c2, input));
    SameLogCalm(c1, c2);
    if c.socket.open {
      if input.SendRequest? {
        DrainRequestCalm(env, c2, input.readiness);
        CalmIsSteady(c2, c3);
      } else {
        SameLogCalm(c2, c3);
      }
      SteadyTransitive(c, c1, c2, c.socket.open, c.socket.open);
      SteadyTransitive(c, c2, c3, c.socket.open, !Gone(input));
    } else {
      LogCalmSame(c, c1, c3);
    }
  }

  lemma SameLogCalm(c: Conn, c': Conn)
    ensures c'.log == c.log ==> LogCalm(c, c')
  {
  }

  lemma LogCalmSame(c: Conn, c1: Conn, c': Conn)
    ensures LogCalm(c, c1) && c'.log == c1.log ==> LogCalm(c, c')
  {
  }

  lemma ClosedIsBare(c: Conn, c': Conn)
    requires Invariant(c) && Writes(c, c')
    ensures c'.state == CLOSED || !c.socket.open ==> !c'.socket.open
  {
  }

  lemma UserPingQuiet(env: Env, c: Conn, text: bytes, now: int)
    requires NoErrors(env) && c.state == OPEN
    ensures StaysOrFails(c, UserPing(env, c, text, now), c.socket.open)
  {
    hide SendPing, Calm;
    CalmReflexive(c);
    CalmIsSteady(c, c);
    if |text| <= 125 {
      SendPingQuiet(env, c, text, now);
    }
  }

  lemma FragmentHarmless(env: Env, e: End)
    requires MessagesOk(env, e) && e.current.Some?
    ensures Harmless(FramesOf(e.current.value)[e.next])
  {
    FragmentIsData(env, e);
  }

  lemma PushQuiet(env: Env, e: End)
    requires EndOk(env, e) && NoErrors(env) && e.conn.state == OPEN
    ensures StaysOrFails(e.conn, PushFragment(env, e).conn, e.conn.socket.open)
  {
    hide SendFragment, FramesOf, Conserves, Balanced, WellWritten, Calm;
    CalmReflexive(e.conn);
    CalmIsSteady(e.conn, e.conn);
    if e.current.Some? {
      var f := FramesOf(e.current.value)[e.next];
      FragmentHarmless(env, e);
      OnWireFrame(env, e.conn, f);
      if e.conn.socket.open {
        FragmentCalm(env, e.conn, f);
        CalmIsSteady(e.conn, SendFragment(env, e.conn, f));
      } else {
        FragmentOnClosed(env, e.conn, f);
      }
    }
  }

  /** What an open end does on its own, dispatch excepted. */
  lemma LocalQuiet(env: Env, e: End, l: Local)
    requires EndOk(env, e) && NoErrors(env) && e.conn.state == OPEN && QuietLocal(e.conn, l)
    requires !(l.Other? && l.step.DispatchCall?)
    ensures StaysOrFails(e.conn, DoLocal(env, e, l).conn, e.conn.socket.open)
  {
    hide SendFragment, Calm, LogCalm, UserPing, Poll, PushFragment, Conserves, Balanced, WellWritten, ConfigOk, Steady,
         ClosedAsStored;
    CalmReflexive(e.conn);
    CalmIsSteady(e.conn, e.conn);
    match l
    case Begin(opcode, payload) =>
    case Push => PushQuiet(env, e);
    case Other(s) =>
      if s.PingCall? {
        UserPingQuiet(env, e.conn, s.text, s.now);
      } else if Allowed(s) {
        OpenPoll(env, e.conn, s.now, s.input, s.later);
      }
  }

  // ------------------------------------------------------------------ steps of an end that is no longer open

  /** Such an end writes nothing more but the fragments of a message under way and answers to pings. */
  lemma LateLocal(env: Env, e: End, l: Local)
    requires EndOk(env, e) && e.conn.state != OPEN
    requires l.Other? && l.step.DispatchCall? ==> e.conn.state == CLOSED
    ensures LogCalm(e.conn, DoLocal(env, e, l).conn)
  {
    hide FramesOf, Conserves, Balanced, WellWritten, SendFragment, OnWire, Poll, Dispatch;
    match l
    case Begin(opcode, payload) =>
    case Push =>
      if e.current.Some? {
        var f := FramesOf(e.current.value)[e.next];
        SendFragmentWrites(env, e.conn, f);
        OnWireFrame(env, e.conn, f);
        FragmentHarmless(env, e);
      }
    case Other(s) =>
      if s.PollCall? {
        LatePoll(env, e.conn, s.now, s.input, s.later);
      } else if s.DispatchCall? {
        LateDispatch(env, e.conn, s.result, s.now);
      }
  }

  lemma LatePoll(env: Env, c: Conn, now: int, input: PollInput, later: int)
    requires c.state != OPEN
    ensures Poll(env, c, now, input, later).0.log == c.log
  {
    hide DrainRequest, PollWait;
    var c2 := c.(clock := c.clock.(nextGcd := PollWait(c, now).1));
    assert c2 == PollTimers(env, c, now).(clock := c2.clock);
    var actual := ActualInput(c2, input);
    if actual.SendRequest? {
      DrainRequestWrites(env, c2, actual.readiness);
    }
  }

  lemma LateDispatch(env: Env, c: Conn, result: PollResult, now: int)
    requires c.state == CLOSED
    ensures var c' := Dispatch(env, c, result, now);
            c'.log == c.log && c'.state == CLOSED && c'.trace.reports == c.trace.reports
  {
    hide DispatchLoop;
    ClosedIsSilent(env, c, now);
  }

  // ------------------------------------------------------------------ the invariant

  /** A connection that is not closed, following its peer's log: no CLOSE frame has been processed yet. */
  predicate Listening(env: Env, c: Conn, start: Reader, peer: Conn, got: nat, j: nat) {
    && c.trace.reports == []
    && Follows(env, c, start, peer.log, j)
    && !HasClose(peer.log[..j])
    && HoldsFrom(c, peer, got, j)
  }

  predicate LogOk(c: Conn, code: nat, reason: bytes) { SingleControls(c.log) && OnlyClose(c.log, code, reason) }

  predicate Initiator(c: Conn, code: nat, reason: bytes) {
    && LogOk(c, code, reason)
    && (c.state == OPEN || c.state == CLOSING || c.state == CLOSED)
    && (c.state == OPEN ==> !HasClose(c.log) && c.socket.open)
    && (c.state != OPEN ==> HasClose(c.log))
    && (c.state == CLOSING ==> Listens(c, code, reason))
    && (c.state == CLOSED ==> Reports(c.trace.reports, code, reason, false))
  }

  const ABNORMAL := CloseData(ABNORMAL_CLOSE, ABNORMAL_CLOSE_MESSAGE, 0, false)

  /** The report of an end that has found its peer gone before it could answer. */
  predicate Unanswered(reports: seq<CloseData>, stored: CloseData, log: seq<WireFrame>, got: nat) {
    reports == [stored] || (reports == [ABNORMAL] && !CloseArrived(log, got))
  }

  /** `log` and `inbox` are what the peer has written and how much of it has been read. */
  predicate Responder(c: Conn, stored: CloseData, log: seq<WireFrame>, inbox: Inbox, code: nat, reason: bytes) {
    && LogOk(c, code, reason)
    && (c.state == OPEN || c.state == CLOSED)
    && (c.state == OPEN ==> !HasClose(c.log) && c.close == stored && c.socket.open == !inbox.gone)
    && (c.state == CLOSED && !inbox.gone ==>
          HasClose(c.log) && Reports(c.trace.reports, code, reason, true) && CloseArrived(log, inbox.got))
    && (c.state == CLOSED && inbox.gone ==> Unanswered(c.trace.reports, stored, log, inbox.got))
  }

  predicate Closing(envA: Env, envB: Env, s: Net, startA: Reader, startB: Reader, jA: nat, jB: nat,
                    stored: CloseData, code: nat, reason: bytes) {
    && NetOk(envA, envB, s, startA, startB)
    && s.a.conn.cfg.deflate == s.b.conn.cfg.deflate
    && Initiator(s.a.conn, code, reason)
    && Responder(s.b.conn, stored, s.a.conn.log, s.inB, code, reason)
    && (s.a.conn.state != CLOSED ==> Listening(envA, s.a.conn, startA, s.b.conn, s.inA.got, jA))
    && (s.b.conn.state != CLOSED ==> Listening(envB, s.b.conn, startB, s.a.conn, s.inB.got, jB))
    && (s.b.conn.state == CLOSED || s.inB.gone ==> s.a.conn.state != OPEN)
  }

  lemma InitialClosing(envA: Env, envB: Env, s: Net, code: nat, reason: bytes)
    requires Initial(s)
    ensures Closing(envA, envB, s, s.a.conn.reader, s.b.conn.reader, 0, 0, s.b.conn.close, code, reason)
  {
    hide EndOk, Direction;
    InitialOk(envA, envB, s);
    FreshListening(envA, s.a.conn, s.b.conn);
    FreshListening(envB, s.b.conn, s.a.conn);
  }

  lemma FreshListening(env: Env, c: Conn, peer: Conn)
    requires JustConnected(c) && JustConnected(peer)
    ensures Listening(env, c, c.reader, peer, 0, 0)
  {
    assert peer.log[..0] == [] && peer.log[0..] == [] && Frames(peer.log[..0]) == [];
    assert peer.socket.accepted[..0] == [];
  }

  /** More frames in the writer's log leave its follower where it is. */
  lemma FollowerKeeps(env: Env, c: Conn, start: Reader, peer: Conn, peer': Conn, got: nat, j: nat)
    requires Listening(env, c, start, peer, got, j)
    requires peer.log <= peer'.log && peer.socket.accepted <= peer'.socket.accepted
    ensures Listening(env, c, start, peer', got, j)
  {
    hide EncodeAll, OnFrames;
    var more := peer'.log[|peer.log|..];
    assert peer'.log == peer.log + more;
    assert peer'.log[..j] == peer.log[..j];
    assert peer'.log[j..] == peer.log[j..] + more;
    EncodeAllAppend(peer.log[j..], more);
    HoldsSame(c, peer, c, peer', got, j);
  }

  /** Growing a log by harmless frames. */
  lemma LogGrows(c: Conn, c': Conn, code: nat, reason: bytes)
    requires LogOk(c, code, reason) && LogCalm(c, c')
    ensures LogOk(c', code, reason) && (HasClose(c'.log) <==> HasClose(c.log)) && c.log <= c'.log
  {
    assert forall i | 0 <= i < |c.log| :: c'.log[i] == c.log[i];
    assert forall i | |c.log| <= i < |c'.log| :: Harmless(c'.log[i].frame);
  }

  lemma LogGrowsByClose(c: Conn, c': Conn, code: nat, reason: bytes)
    requires LogOk(c, code, reason) && c.log <= c'.log
    requires forall i | |c.log| <= i < |c'.log| ::
               Harmless(c'.log[i].frame) || c'.log[i].frame == CloseFrame(code, reason)
    ensures LogOk(c', code, reason) && (HasClose(c.log) ==> HasClose(c'.log))
  {
    assert forall i | 0 <= i < |c.log| :: c'.log[i] == c.log[i];
  }

  /** A CLOSE frame that has arrived has arrived for good. */
  lemma StillArrived(log: seq<WireFrame>, log': seq<WireFrame>, got: nat, got': nat)
    requires CloseArrived(log, got) && log <= log' && got <= got'
    ensures CloseArrived(log', got')
  {
    var i :| 0 <= i < |log| && log[i].frame.opcode == Framing.CLOSE && EncodedTo(log, i) <= got;
    assert log'[..i + 1] == log[..i + 1] && log'[i] == log[i];
    assert EncodedTo(log', i) == EncodedTo(log, i);
  }

  /** What is written later does not lie within the bytes that have been read. */
  lemma NotYetWritten(log: seq<WireFrame>, log': seq<WireFrame>, got: nat)
    requires log <= log' && got <= |EncodeAll(log)| && CloseArrived(log', got)
    ensures CloseArrived(log, got)
  {
    hide EncodeAll, Encode;
    var i :| 0 <= i < |log'| && log'[i].frame.opcode == Framing.CLOSE && EncodedTo(log', i) <= got;
    if i < |log| {
      assert log'[..i + 1] == log[..i + 1] && log'[i] == log[i];
      assert EncodedTo(log, i) <= got;
    } else {
      var before := log'[|log|..i];
      assert log'[..i] == log + before;
      EncodeAllAppend(log, before);
      EncodeStep(log', i);
      EncodedIsLong(log'[i]);
      assert false;
    }
  }

  lemma UnansweredStays(reports: seq<CloseData>, stored: CloseData, log: seq<WireFrame>, log': seq<WireFrame>, got: nat)
    requires Unanswered(reports, stored, log, got) && log <= log' && got <= |EncodeAll(log)|
    ensures Unanswered(reports, stored, log', got)
  {
    hide CloseArrived;
    if CloseArrived(log', got) { NotYetWritten(log, log', got); }
  }

  /** The peer of a responder writes more. */
  lemma ResponderKeeps(c: Conn, stored: CloseData, peer: Conn, peer': Conn, inbox: Inbox, code: nat, reason: bytes)
    requires Responder(c, stored, peer.log, inbox, code, reason) && peer.log <= peer'.log
    requires Conserves(peer) && inbox.got <= |peer.socket.accepted|
    ensures Responder(c, stored, peer'.log, inbox, code, reason)
  {
    hide CloseArrived, EncodeAll, HasClose, LogOk, Reports, Unanswered;
    if c.state == CLOSED {
      if inbox.gone {
        UnansweredStays(c.trace.reports, stored, peer.log, peer'.log, inbox.got);
      } else {
        StillArrived(peer.log, peer'.log, inbox.got, inbox.got);
      }
    }
  }

  // ------------------------------------------------------------------ dispatch

  /** dispatch was told of an abnormal closure and has read no CLOSE frame. */
  predicate AbnormallyEnded(c: Conn, c': Conn) {
    && c'.state == CLOSED && LogCalm(c, c')
    && c'.trace.reports == c.trace.reports + [if c.state == OPEN then ABNORMAL else c.close]
  }

  /** A dispatch of an end that listens: it goes on listening, with nothing left to read, or the connection ends. */
  lemma DispatchListening(env: Env, c: Conn, result: PollResult, now: int, start: Reader, peerEnv: Env, peer: End,
                          got: nat, j: nat, code: nat, reason: bytes) returns (j': nat)
    requires Invariant(c) && NoErrors(env) && GoodClose(code, reason) && Listens(c, code, reason)
    requires Listening(env, c, start, peer.conn, got, j)
    requires EndOk(peerEnv, peer) && LogOk(peer.conn, code, reason) && peer.conn.cfg.deflate == c.cfg.deflate
    requires peerEnv.codec == env.codec && Lossless(env.codec) && Idle(start)
    ensures var c' := Dispatch(env, c, result, now);
            || (Calm(c, c') && Listening(env, c', start, peer.conn, got, j'))
            || (EndedBy(c, c', code, reason) && (c.socket.open ==> CloseArrived(peer.conn.log, got)))
            || (result == AbnormalClose && AbnormallyEnded(c, c') && !CloseArrived(peer.conn.log, got))
  {
    hide EncodeAll, OnFrames, DispatchLoop, GoodClose, FitsAll, Calm, EndedBy, EndOk, Conserves, Balanced, OnlyClose,
         SingleControls, HasClose, Acceptables, CloseArrived, AfterAbnormal, Core, ControlExtends, ReadAll;
    LogFits(peerEnv, peer, start);
    LogReadable(peerEnv, peer);
    j' := LoopFollows(env, c, now, start, peer.conn.log, j, code, reason);
    var (c1, broke) := DispatchLoop(env, c, now);
    if Waited(env, c, c1, start, peer.conn.log, j, j') {
      NoCloseSplit(peer.conn.log, j, j');
      CalmFacts(c, c1);
      assert HoldsFrom(c1, peer.conn, got, j');
      DispatchLoopReads(env, c, now);
      ReadExhausts(env.codec, c.cfg.deflate, c.reader, c.rx);
      NotYetArrived(env, c1, start, peerEnv, peer, got, j');
      AfterAbnormalReports(c1);
      CalmIsSteady(c, c1);
      LogCalmSame(c, c1, AfterAbnormal(c1));
    } else {
      EndedFacts(c, c1, code, reason);
      EndedAbnormal(c, c1, code, reason);
    }
  }

  lemma EndedFacts(c: Conn, c': Conn, code: nat, reason: bytes)
    requires EndedBy(c, c', code, reason)
    ensures c'.state == CLOSED
  {
  }

  lemma EndedAbnormal(c: Conn, c': Conn, code: nat, reason: bytes)
    requires EndedBy(c, c', code, reason)
    ensures EndedBy(c, AfterAbnormal(c'), code, reason)
  {
  }

  lemma AfterAbnormalReports(c: Conn)
    requires c.state == OPEN || c.state == CLOSING
    ensures var c' := AfterAbnormal(c);
            && c'.state == CLOSED && c'.log == c.log
            && c'.trace.reports == c.trace.reports + [if c.state == OPEN then ABNORMAL else c.close]
  {
  }

  lemma NoCloseSplit(log: seq<WireFrame>, j: nat, j': nat)
    requires j <= j' <= |log| && !HasClose(log[..j]) && !HasClose(log[j..j'])
    ensures !HasClose(log[..j'])
  {
    forall i | 0 <= i < j'
      ensures log[i].frame.opcode != Framing.CLOSE
    {
      if i < j {
        assert log[i] == log[..j][i];
      } else {
        assert log[i] == log[j..j'][i - j];
      }
    }
  }

  /** An end that still listens and has nothing left to read has not been sent a whole CLOSE frame. */
  lemma NotYetArrived(env: Env, c: Conn, start: Reader, peerEnv: Env, peer: End, got: nat, j: nat)
    requires Listening(env, c, start, peer.conn, got, j) && Exhausted(c.rx, c.cfg.deflate)
    requires EndOk(peerEnv, peer) && SingleControls(peer.conn.log) && peer.conn.cfg.deflate == c.cfg.deflate
    ensures !CloseArrived(peer.conn.log, got)
  {
    hide EncodeAll, OnFrames, Stuck, EndOk, SingleControls, Acceptables, TakeFrame, Encode, Acceptable;
    var log := peer.conn.log;
    LogReadable(peerEnv, peer);
    if CloseArrived(log, got) {
      var i :| 0 <= i < |log| && log[i].frame.opcode == Framing.CLOSE && EncodedTo(log, i) <= got;
      NoCloseBefore(log, j, i);
      HoldsNext(c.rx, peer.conn, got, j, i);
      AcceptableAt(log, j, c.cfg.deflate);
      TakeEncoded(log[j], c.rx[|Encode(log[j])|..], c.cfg.deflate);
    }
  }

  lemma NoCloseBefore(log: seq<WireFrame>, j: nat, i: nat)
    requires j <= |log| && i < |log| && !HasClose(log[..j]) && log[i].frame.opcode == Framing.CLOSE
    ensures j <= i
  {
    assert forall k | 0 <= k < j :: log[..j][k] == log[k];
  }

  /** Bytes that reach past the frame at `i` hold every frame from `j` up to it. */
  lemma HoldsNext(rx: bytes, peer: Conn, got: nat, j: nat, i: nat)
    requires Conserves(peer) && j <= i < |peer.log| && got <= |peer.socket.accepted| && EncodedTo(peer.log, i) <= got
    requires EncodeAll(peer.log[..j]) + rx == peer.socket.accepted[..got]
    ensures Encode(peer.log[j]) <= rx && rx == Encode(peer.log[j]) + rx[|Encode(peer.log[j])|..]
  {
    hide EncodeAll, Encode;
    var log := peer.log;
    var all := EncodeAll(log);
    var before, first := EncodeAll(log[..j]), Encode(log[j]);
    EncodeStep(log, j);
    var more := EncodeAll(log[j + 1..]);
    assert log == log[..j + 1] + log[j + 1..];
    EncodeAllAppend(log[..j + 1], log[j + 1..]);
    assert log[..i + 1] == log[..j + 1] + log[j + 1..i + 1];
    EncodeAllAppend(log[..j + 1], log[j + 1..i + 1]);
    assert |before + first| <= got;
    assert all == (before + first) + more;
    assert all[..got] == before + rx;
    assert rx[..|first|] == (before + rx)[|before|..][..|first|];
    assert first == all[|before|..][..|first|];
  }

  // ------------------------------------------------------------------ steps of either end

  predicate Dispatches(l: Local) { l.Other? && l.step.DispatchCall? }

  /** What an end does on its own, dispatch excepted, leaves its buffer alone or ends the connection. */
  lemma LocalParts(env: Env, e: End, l: Local)
    requires EndOk(env, e) && !Dispatches(l)
    ensures var c' := DoLocal(env, e, l).conn;
            Core(e.conn, c') && ((c'.rx == e.conn.rx && c'.reader == e.conn.reader) || c'.state == CLOSED)
  {
    hide UserPing, Close, Poll, SendFragment, Conserves, Balanced, WellWritten, FramesOf, Core, Writes, Readable;
    WritesReflexive(e.conn);
    WritesAreCore(e.conn, e.conn);
    match l
    case Begin(opcode, payload) =>
    case Push =>
      if e.current.Some? {
        SendFragmentWrites(env, e.conn, FramesOf(e.current.value)[e.next]);
        WritesAreCore(e.conn, PushFragment(env, e).conn);
      }
    case Other(s) =>
      if s.PingCall? {
        UserPingKeepsBuffer(env, e.conn, s.text, s.now);
        WritesAreCore(e.conn, Do(env, e.conn, s));
      } else if s.CloseCall? {
        CloseWrites(env, e.conn, s.code, s.reason, 0, s.now);
        WritesAreCore(e.conn, Do(env, e.conn, s));
      } else if Allowed(s) {
        NothingReadable(env, e.conn, s.now);
        PollBuffer(env, e.conn, [], s.now, s.input, s.later);
        assert e.conn.rx + [] == e.conn.rx;
      }
  }

  lemma EndInvariant(env: Env, e: End)
    requires EndOk(env, e)
    ensures Invariant(e.conn) && Conserves(e.conn)
  {
  }

  /** How the state and the reports move in any step. */
  lemma CoreMoves(c: Conn, c': Conn)
    requires Core(c, c') && c.state != CONNECTING && Guarded(c)
    ensures c'.cfg == c.cfg && c.log <= c'.log
    ensures c.state == CLOSED ==> c'.state == CLOSED && c'.trace.reports == c.trace.reports
    ensures c.state == CLOSING ==> c'.state == CLOSED || (c'.state == CLOSING && !c'.close.remote)
    ensures c'.state != CLOSED ==> c'.trace.reports == c.trace.reports
    ensures c.state == CLOSING && c'.state == CLOSING ==> SameReason(c.close, c'.close)
    ensures c.state == CLOSING && c'.state == CLOSED && c.trace.reports == [] ==>
              Reports(c'.trace.reports, c.close.code, c.close.reason, false)
  {
  }

  lemma ListensOn(env: Env, c: Conn, c': Conn, start: Reader, peer: Conn, got: nat, j: nat)
    requires Listening(env, c, start, peer, got, j) && Core(c, c') && c.state != CONNECTING && Guarded(c)
    requires c'.rx == c.rx && c'.reader == c.reader && c'.state != CLOSED
    ensures Listening(env, c', start, peer, got, j)
  {
    hide EncodeAll, OnFrames, Core, HasClose;
    CoreMoves(c, c');
    HoldsSame(c, peer, c', peer, got, j);
  }

  lemma ListensWithMore(env: Env, c: Conn, start: Reader, peer: Conn, got: nat, j: nat, p: bytes)
    requires Listening(env, c, start, peer, got, j) && Conserves(peer) && p <= peer.socket.accepted[got..]
    ensures Listening(env, c.(rx := c.rx + p), start, peer, got + |p|, j)
  {
    hide EncodeAll, OnFrames, HasClose;
    HoldsMore(c, peer, got, j, p);
    HoldsPart(c.(rx := c.rx + p), peer, got + |p|, j);
  }

  /** A read brings an end that listens more of its peer's bytes; a closed end reads nothing. */
  lemma ReadParts(env: Env, e: End, start: Reader, peer: Conn, inbox: Inbox, j: nat,
                  n: nat, gone: bool, now: int, later: int)
    requires EndOk(env, e) && Conserves(peer) && inbox.got <= |peer.socket.accepted|
    requires e.conn.state != CLOSED ==> Listening(env, e.conn, start, peer, inbox.got, j)
    ensures var (e', inbox') := ReadStep(env, e, inbox, peer.socket.accepted, n, gone, now, later);
            && Core(e.conn, e'.conn)
            && (e'.conn.state != CLOSED ==> Listening(env, e'.conn, start, peer, inbox'.got, j))
            && (e.conn.state == CLOSED ==> inbox'.got == inbox.got && inbox'.gone == inbox.gone)
            && (inbox'.gone == (inbox.gone || ReadPoll(env, e.conn, Piece(peer.socket.accepted, inbox.got, n), gone,
                                                       now, later).1 == AbnormalClose))
            && inbox.got <= inbox'.got
  {
    hide Poll, Conserves, Balanced, WellWritten, ControlExtends, Core, Listening, PollTimers, MessagesOk;
    var stream := peer.socket.accepted;
    var piece := Piece(stream, inbox.got, n);
    var p := Readable(env, e.conn, piece, now);
    var c, c' := e.conn, ReadPoll(env, e.conn, piece, gone, now, later).0;
    OnePiece(piece);
    PollBuffer(env, c, piece, now, ReadyForRead([piece], gone), later);
    StaysClosed(c, c');
    if c.state == CLOSED {
      ClosedFindsNothing(env, c, now, ReadyForRead([piece], gone), later);
    } else if c'.state != CLOSED {
      ListensWithMore(env, c, start, peer, inbox.got, j, p);
      var c1 := c.(rx := c.rx + p);
      BufferReplaced(c, c', c1.rx);
      GuardedBuffer(c, c1.rx);
      ListensOn(env, c1, c', start, peer, inbox.got + |p|, j);
    }
  }

  lemma ClosedFindsNothing(env: Env, c: Conn, now: int, input: PollInput, later: int)
    requires Invariant(c) && c.state == CLOSED
    ensures Poll(env, c, now, input, later).1 == Succeeded
  {
  }

  // ------------------------------------------------------------------ the initiator

  /** Anything A does but dispatch and start to close. */
  lemma StepAtA(env: Env, e: End, l: Local, start: Reader, peer: Conn, got: nat, j: nat, code: nat, reason: bytes)
    requires EndOk(env, e) && NoErrors(env) && (e.conn.state == OPEN ==> QuietLocal(e.conn, l))
    requires Initiator(e.conn, code, reason) && !Dispatches(l)
    requires e.conn.state != CLOSED ==> Listening(env, e.conn, start, peer, got, j)
    ensures var c' := DoLocal(env, e, l).conn;
            && Initiator(c', code, reason) && (c'.state == OPEN <==> e.conn.state == OPEN)
            && (c'.state != CLOSED ==> e.conn.state != CLOSED && Listening(env, c', start, peer, got, j))
  {
    hide DoLocal, Follows, EncodeAll, HasClose, SingleControls, OnlyClose, MessagesOk, WellWritten, Conserves,
         Balanced, QuietLocal, Harmless, Core, HoldsFrom, LogCalm;
    var c, c' := e.conn, DoLocal(env, e, l).conn;
    LocalParts(env, e, l);
    CoreMoves(c, c');
    if c.state == OPEN {
      LocalQuiet(env, e, l);
    } else {
      LateLocal(env, e, l);
    }
    if c'.state != CLOSED {
      ListensOn(env, c, c', start, peer, got, j);
    }
    LogGrows(c, c', code, reason);
  }

  /** A calls close. */
  lemma CloseAtA(env: Env, c: Conn, start: Reader, peer: Conn, got: nat, j: nat, code: nat, reason: bytes, now: int)
    requires Invariant(c) && NoErrors(env) && GoodClose(code, reason)
    requires Initiator(c, code, reason) && c.state == OPEN && Listening(env, c, start, peer, got, j)
    ensures var c' := Close(env, c, code, reason, 0, now);
            && Initiator(c', code, reason) && c'.state == CLOSING && Listening(env, c', start, peer, got, j)
  {
    hide Follows, EncodeAll, SendCloseFrame, GoodClose, Conserves, Balanced, ControlExtends, ConfigOk, HoldsFrom;
    var c1 := c.(cancel := true).(close := CloseData(code, reason, |reason|, false),
                                  clock := c.clock.(closingAt := now), state := CLOSING);
    SendCloseCalm(env, c1, code, reason);
    var c' := SendCloseFrame(env, c1, code, reason);
    CloseWrites(env, c, code, reason, 0, now);
    assert c' == Close(env, c, code, reason, 0, now);
    CloseFrameWrites(env, c1, code, reason);
    ListensOn(env, c, c', start, peer, got, j);
    LogGrowsByClose(c, c', code, reason);
    assert c'.log[|c.log|].frame.opcode == Framing.CLOSE;
  }

  lemma CloseLocal(env: Env, e: End, l: Local)
    requires l.Other? && l.step.CloseCall?
    ensures DoLocal(env, e, l).conn == Close(env, e.conn, l.step.code, l.step.reason, 0, l.step.now)
  {
    hide Close;
  }

  ghost predicate Matched(envA: Env, envB: Env, startA: Reader, startB: Reader) {
    envA.codec == envB.codec && Lossless(envA.codec) && Idle(startA) && Idle(startB) && NoErrors(envA) && NoErrors(envB)
  }

  /** A dispatches. */
  lemma DispatchAtA(env: Env, c: Conn, result: PollResult, now: int, start: Reader, peerEnv: Env, peer: End,
                    got: nat, j: nat, code: nat, reason: bytes) returns (j': nat)
    requires Invariant(c) && NoErrors(env) && GoodClose(code, reason)
    requires Initiator(c, code, reason) && c.state != CLOSED && Listening(env, c, start, peer.conn, got, j)
    requires c.state == OPEN ==> result == Succeeded && !HasClose(peer.conn.log)
    requires EndOk(peerEnv, peer) && LogOk(peer.conn, code, reason) && peer.conn.cfg.deflate == c.cfg.deflate
    requires peerEnv.codec == env.codec && Lossless(env.codec) && Idle(start)
    ensures var c' := Dispatch(env, c, result, now);
            && Initiator(c', code, reason) && (c'.state == OPEN <==> c.state == OPEN)
            && (c'.state != CLOSED ==> Listening(env, c', start, peer.conn, got, j'))
  {
    hide Dispatch, GoodClose, EndOk, HasClose, SingleControls, OnlyClose, CloseArrived, Follows, HoldsFrom, LogCalm,
         Conserves, Balanced, Harmless;
    var c' := Dispatch(env, c, result, now);
    j' := DispatchListening(env, c, result, now, start, peerEnv, peer, got, j, code, reason);
    if Calm(c, c') && Listening(env, c', start, peer.conn, got, j') {
      CalmIsSteady(c, c');
      LogGrows(c, c', code, reason);
    } else if EndedBy(c, c', code, reason) && (c.socket.open ==> CloseArrived(peer.conn.log, got)) {
      if c.state == OPEN { ArrivedHasClose(peer.conn.log, got); }
      EndedParts(c, c', code, reason);
    } else {
      LogGrows(c, c', code, reason);
    }
  }

  lemma ArrivedHasClose(log: seq<WireFrame>, got: nat)
    requires CloseArrived(log, got)
    ensures HasClose(log)
  {
  }

  lemma EndedParts(c: Conn, c': Conn, code: nat, reason: bytes)
    requires EndedBy(c, c', code, reason) && c.trace.reports == [] && LogOk(c, code, reason)
    ensures c'.state == CLOSED && LogOk(c', code, reason) && (HasClose(c.log) ==> HasClose(c'.log))
    ensures c.state == OPEN && c.socket.open ==> HasClose(c'.log)
    ensures if c.state == OPEN && !c.socket.open then c'.trace.reports == [c.close]
            else Reports(c'.trace.reports, code, reason, c.state == OPEN)
  {
    LogGrowsByClose(c, c', code, reason);
  }

  /** A reads. */
  lemma ReadAtAStep(env: Env, e: End, start: Reader, peer: Conn, inbox: Inbox, j: nat,
                    n: nat, gone: bool, now: int, later: int, code: nat, reason: bytes)
    requires EndOk(env, e) && NoErrors(env) && Conserves(peer) && inbox.got <= |peer.socket.accepted|
    requires Initiator(e.conn, code, reason)
    requires e.conn.state == OPEN ==> !gone && InTime(e.conn, now)
    requires e.conn.state != CLOSED ==> Listening(env, e.conn, start, peer, inbox.got, j)
    ensures var (e', inbox') := ReadStep(env, e, inbox, peer.socket.accepted, n, gone, now, later);
            && Initiator(e'.conn, code, reason) && (e'.conn.state == OPEN <==> e.conn.state == OPEN)
            && (e'.conn.state != CLOSED ==> Listening(env, e'.conn, start, peer, inbox'.got, j))
  {
    hide Poll, Follows, EncodeAll, HasClose, SingleControls, OnlyClose, MessagesOk, WellWritten, Conserves,
         Balanced, Harmless, Core, HoldsFrom, LogCalm, Readable, ConfigOk;
    var c := e.conn;
    var piece := Piece(peer.socket.accepted, inbox.got, n);
    var c' := ReadPoll(env, c, piece, gone, now, later).0;
    ReadParts(env, e, start, peer, inbox, j, n, gone, now, later);
    CoreMoves(c, c');
    if c.state == OPEN {
      OpenPoll(env, c, now, ReadyForRead([piece], gone), later);
    } else {
      LatePoll(env, c, now, ReadyForRead([piece], gone), later);
      SameLogCalm(c, c');
    }
    LogGrows(c, c', code, reason);
  }

  // ------------------------------------------------------------------ the responder

  /** Anything B does but dispatch. */
  lemma StepAtB(env: Env, e: End, l: Local, start: Reader, peer: Conn, inbox: Inbox, j: nat, stored: CloseData,
                code: nat, reason: bytes)
    requires EndOk(env, e) && NoErrors(env) && (e.conn.state == OPEN ==> QuietLocal(e.conn, l))
    requires Responder(e.conn, stored, peer.log, inbox, code, reason) && !Dispatches(l)
    requires e.conn.state != CLOSED ==> Listening(env, e.conn, start, peer, inbox.got, j)
    ensures var c' := DoLocal(env, e, l).conn;
            && Responder(c', stored, peer.log, inbox, code, reason)
            && (c'.state == CLOSED ==> e.conn.state == CLOSED || inbox.gone)
            && (c'.state != CLOSED ==> Listening(env, c', start, peer, inbox.got, j))
  {
    hide DoLocal, Follows, EncodeAll, HasClose, SingleControls, OnlyClose, MessagesOk, WellWritten, Conserves,
         Balanced, QuietLocal, Harmless, Core, HoldsFrom, LogCalm, CloseArrived;
    var c, c' := e.conn, DoLocal(env, e, l).conn;
    LocalParts(env, e, l);
    CoreMoves(c, c');
    if c.state == OPEN {
      LocalQuiet(env, e, l);
    } else {
      LateLocal(env, e, l);
    }
    if c'.state != CLOSED {
      ListensOn(env, c, c', start, peer, inbox.got, j);
    }
    LogGrows(c, c', code, reason);
    assert [] + [stored] == [stored];
  }

  /** B dispatches. */
  lemma DispatchAtB(env: Env, c: Conn, result: PollResult, now: int, start: Reader, peerEnv: Env, peer: End,
                    inbox: Inbox, j: nat, stored: CloseData, code: nat, reason: bytes) returns (j': nat)
    requires Invariant(c) && NoErrors(env) && GoodClose(code, reason)
    requires Responder(c, stored, peer.conn.log, inbox, code, reason) && c.state == OPEN
    requires Listening(env, c, start, peer.conn, inbox.got, j)
    requires result == Succeeded || !c.socket.open
    requires EndOk(peerEnv, peer) && LogOk(peer.conn, code, reason) && peer.conn.cfg.deflate == c.cfg.deflate
    requires peerEnv.codec == env.codec && Lossless(env.codec) && Idle(start)
    ensures var c' := Dispatch(env, c, result, now);
            && Responder(c', stored, peer.conn.log, inbox, code, reason)
            && (c'.state == CLOSED ==> HasClose(peer.conn.log) || inbox.gone)
            && (c'.state != CLOSED ==> Listening(env, c', start, peer.conn, inbox.got, j'))
  {
    hide Dispatch, GoodClose, EndOk, HasClose, SingleControls, OnlyClose, CloseArrived, Follows, HoldsFrom, LogCalm,
         Conserves, Balanced, Harmless;
    var c' := Dispatch(env, c, result, now);
    j' := DispatchListening(env, c, result, now, start, peerEnv, peer, inbox.got, j, code, reason);
    if Calm(c, c') && Listening(env, c', start, peer.conn, inbox.got, j') {
      CalmIsSteady(c, c');
      LogGrows(c, c', code, reason);
    } else if EndedBy(c, c', code, reason) && (c.socket.open ==> CloseArrived(peer.conn.log, inbox.got)) {
      EndedParts(c, c', code, reason);
      if c.socket.open { ArrivedHasClose(peer.conn.log, inbox.got); }
    } else {
      LogGrows(c, c', code, reason);
      assert [] + [ABNORMAL] == [ABNORMAL];
    }
  }

  /** B reads. */
  lemma ReadAtBStep(env: Env, e: End, start: Reader, peer: Conn, inbox: Inbox, j: nat, stored: CloseData,
                    n: nat, gone: bool, now: int, later: int, code: nat, reason: bytes)
    requires EndOk(env, e) && NoErrors(env) && Conserves(peer) && inbox.got <= |peer.socket.accepted|
    requires Responder(e.conn, stored, peer.log, inbox, code, reason)
    requires e.conn.state == OPEN ==> InTime(e.conn, now)
    requires e.conn.state != CLOSED ==> Listening(env, e.conn, start, peer, inbox.got, j)
    ensures var (e', inbox') := ReadStep(env, e, inbox, peer.socket.accepted, n, gone, now, later);
            && Responder(e'.conn, stored, peer.log, inbox', code, reason)
            && (e'.conn.state == CLOSED ==> e.conn.state == CLOSED || inbox.gone)
            && (inbox'.gone ==> inbox.gone || (gone && e.conn.state == OPEN))
            && (e'.conn.state != CLOSED ==> Listening(env, e'.conn, start, peer, inbox'.got, j))
  {
    hide Poll, Follows, EncodeAll, HasClose, SingleControls, OnlyClose, MessagesOk, WellWritten, Conserves,
         Balanced, Harmless, Core, HoldsFrom, LogCalm, ConfigOk, CloseArrived, PollTimers;
    var c := e.conn;
    var piece := Piece(peer.socket.accepted, inbox.got, n);
    var c' := ReadPoll(env, c, piece, gone, now, later).0;
    ReadParts(env, e, start, peer, inbox, j, n, gone, now, later);
    CoreMoves(c, c');
    if c.state == OPEN {
      OpenPoll(env, c, now, ReadyForRead([piece], gone), later);
      if !c.socket.open {
        ClosedReadsNothing(env, c, piece, now);
      }
    } else {
      LatePoll(env, c, now, ReadyForRead([piece], gone), later);
      SameLogCalm(c, c');
    }
    LogGrows(c, c', code, reason);
    assert [] + [stored] == [stored];
  }

  lemma ClosedReadsNothing(env: Env, c: Conn, piece: bytes, now: int)
    requires Invariant(c) && !c.socket.open
    ensures Readable(env, c, piece, now) == []
  {
    hide PollTimers, Conserves, Balanced;
    TimersKeepBuffer(env, c, now);
  }

  // ------------------------------------------------------------------ the run

  lemma InitiatorParts(c: Conn, code: nat, reason: bytes)
    requires Initiator(c, code, reason)
    ensures LogOk(c, code, reason) && (c.state == OPEN ==> c.socket.open)
  {
  }

  lemma ResponderParts(c: Conn, stored: CloseData, log: seq<WireFrame>, inbox: Inbox, code: nat, reason: bytes)
    requires Responder(c, stored, log, inbox, code, reason)
    ensures LogOk(c, code, reason) && (c.state == OPEN || c.state == CLOSED)
    ensures HasClose(c.log) ==> c.state == CLOSED
    ensures !c.socket.open && c.state != CLOSED ==> inbox.gone
  {
  }

  /** What A does changes, on B's side, only how much B has still to read. */
  lemma AfterA(envA: Env, envB: Env, s: Net, t: Net, startA: Reader, startB: Reader, jA: nat, jB: nat,
               stored: CloseData, code: nat, reason: bytes)
    requires NetOk(envA, envB, s, startA, startB) && NetOk(envA, envB, t, startA, startB)
    requires t == s.(a := t.a, inA := t.inA) && s.a.conn.cfg.deflate == s.b.conn.cfg.deflate
    requires Responder(s.b.conn, stored, s.a.conn.log, s.inB, code, reason)
    requires s.b.conn.state != CLOSED ==> Listening(envB, s.b.conn, startB, s.a.conn, s.inB.got, jB)
    requires Core(s.a.conn, t.a.conn) && Initiator(t.a.conn, code, reason)
    requires t.a.conn.state != CLOSED ==> Listening(envA, t.a.conn, startA, t.b.conn, t.inA.got, jA)
    requires s.b.conn.state == CLOSED || s.inB.gone ==> t.a.conn.state != OPEN
    ensures Closing(envA, envB, t, startA, startB, jA, jB, stored, code, reason)
  {
    hide EndOk, HasRead, Initiator, Responder, Listening, Lifecycle, Conserves;
    if s.b.conn.state != CLOSED {
      FollowerKeeps(envB, s.b.conn, startB, s.a.conn, t.a.conn, s.inB.got, jB);
    }
    EndInvariant(envA, s.a);
    ResponderKeeps(s.b.conn, stored, s.a.conn, t.a.conn, s.inB, code, reason);
  }

  lemma AfterB(envA: Env, envB: Env, s: Net, t: Net, startA: Reader, startB: Reader, jA: nat, jB: nat,
               stored: CloseData, code: nat, reason: bytes)
    requires NetOk(envA, envB, t, startA, startB) && t == s.(b := t.b, inB := t.inB)
    requires s.a.conn.cfg.deflate == s.b.conn.cfg.deflate && Initiator(s.a.conn, code, reason)
    requires s.a.conn.state != CLOSED ==> Listening(envA, s.a.conn, startA, s.b.conn, s.inA.got, jA)
    requires Core(s.b.conn, t.b.conn) && Responder(t.b.conn, stored, t.a.conn.log, t.inB, code, reason)
    requires t.b.conn.state != CLOSED ==> Listening(envB, t.b.conn, startB, t.a.conn, t.inB.got, jB)
    requires t.b.conn.state == CLOSED || t.inB.gone ==> s.a.conn.state != OPEN
    ensures Closing(envA, envB, t, startA, startB, jA, jB, stored, code, reason)
  {
    hide EndOk, HasRead, Initiator, Responder, Listening, Lifecycle, Conserves;
    if s.a.conn.state != CLOSED {
      FollowerKeeps(envA, s.a.conn, startA, s.b.conn, t.b.conn, s.inA.got, jA);
    }
  }

  lemma LocalCore(env: Env, e: End, l: Local)
    requires EndOk(env, e)
    ensures Core(e.conn, DoLocal(env, e, l).conn)
  {
    hide Core, ControlExtends, Do, Conserves, Balanced, WellWritten, MessagesOk;
    if Dispatches(l) {
      AllowedExtends(env, e.conn, l.step);
    } else {
      LocalParts(env, e, l);
    }
  }

  /** Nothing a closed end does changes what it has reported. */
  lemma ClosedLocal(env: Env, e: End, l: Local, stored: CloseData, log: seq<WireFrame>, inbox: Inbox,
                    code: nat, reason: bytes)
    requires EndOk(env, e) && e.conn.state == CLOSED
    ensures var c' := DoLocal(env, e, l).conn;
            && c'.state == CLOSED
            && (Initiator(e.conn, code, reason) ==> Initiator(c', code, reason))
            && (Responder(e.conn, stored, log, inbox, code, reason) ==>
                  Responder(c', stored, log, inbox, code, reason))
  {
    hide DoLocal, Core, HasClose, SingleControls, OnlyClose, Harmless, Conserves, Balanced, WellWritten, MessagesOk,
         LogCalm, CloseArrived;
    var c' := DoLocal(env, e, l).conn;
    LocalCore(env, e, l);
    CoreMoves(e.conn, c');
    LateLocal(env, e, l);
    if LogOk(e.conn, code, reason) { LogGrows(e.conn, c', code, reason); }
  }

  lemma LocalAStep(envA: Env, envB: Env, s: Net, l: Local, startA: Reader, startB: Reader, jA: nat, jB: nat,
                   stored: CloseData, code: nat, reason: bytes) returns (jA': nat)
    requires Closing(envA, envB, s, startA, startB, jA, jB, stored, code, reason)
    requires Matched(envA, envB, startA, startB) && GoodClose(code, reason) && QuietNetStep(s, AtA(l), code, reason)
    ensures Closing(envA, envB, NetDo(envA, envB, s, AtA(l)), startA, startB, jA', jB, stored, code, reason)
  {
    hide EndOk, HasRead, Initiator, Responder, Listening, DoLocal, GoodClose, DropsLocally, NoErrors, Core, Lossless,
         LogOk;
    StepKeepsNet(envA, envB, s, AtA(l), startA, startB);
    var t := NetDo(envA, envB, s, AtA(l));
    var c := s.a.conn;
    jA' := jA;
    EndInvariant(envA, s.a);
    LocalCore(envA, s.a, l);
    InitiatorParts(c, code, reason);
    ResponderParts(s.b.conn, stored, c.log, s.inB, code, reason);
    if c.state == CLOSED {
      ClosedLocal(envA, s.a, l, stored, c.log, s.inB, code, reason);
    } else if Dispatches(l) {
      DispatchLocal(envA, s.a, l);
      jA' := DispatchAtA(envA, c, l.step.result, l.step.now, startA, envB, s.b, s.inA.got, jA, code, reason);
    } else if c.state != OPEN || QuietLocal(c, l) {
      StepAtA(envA, s.a, l, startA, s.b.conn, s.inA.got, jA, code, reason);
    } else {
      CloseAtA(envA, c, startA, s.b.conn, s.inA.got, jA, code, reason, l.step.now);
      CloseLocal(envA, s.a, l);
    }
    AfterA(envA, envB, s, t, startA, startB, jA', jB, stored, code, reason);
  }

  lemma DispatchLocal(env: Env, e: End, l: Local)
    requires Dispatches(l)
    ensures DoLocal(env, e, l).conn == Dispatch(env, e.conn, l.step.result, l.step.now)
  {
    hide Dispatch;
  }

  lemma LocalBStep(envA: Env, envB: Env, s: Net, l: Local, startA: Reader, startB: Reader, jA: nat, jB: nat,
                   stored: CloseData, code: nat, reason: bytes) returns (jB': nat)
    requires Closing(envA, envB, s, startA, startB, jA, jB, stored, code, reason)
    requires Matched(envA, envB, startA, startB) && GoodClose(code, reason) && QuietNetStep(s, AtB(l), code, reason)
    ensures Closing(envA, envB, NetDo(envA, envB, s, AtB(l)), startA, startB, jA, jB', stored, code, reason)
  {
    hide EndOk, HasRead, Initiator, Responder, Listening, DoLocal, GoodClose, DropsLocally, NoErrors, Core, Lossless,
         LogOk, HasClose;
    StepKeepsNet(envA, envB, s, AtB(l), startA, startB);
    var t := NetDo(envA, envB, s, AtB(l));
    var c := s.b.conn;
    jB' := jB;
    EndInvariant(envB, s.b);
    LocalCore(envB, s.b, l);
    InitiatorParts(s.a.conn, code, reason);
    InitiatorHasClose(s.a.conn, code, reason);
    ResponderParts(c, stored, s.a.conn.log, s.inB, code, reason);
    if c.state == CLOSED {
      ClosedLocal(envB, s.b, l, stored, s.a.conn.log, s.inB, code, reason);
    } else if Dispatches(l) {
      DispatchLocal(envB, s.b, l);
      jB' := DispatchAtB(envB, c, l.step.result, l.step.now, startB, envA, s.a, s.inB, jB, stored, code, reason);
    } else {
      StepAtB(envB, s.b, l, startB, s.a.conn, s.inB, jB, stored, code, reason);
    }
    LostIsAside(t.b.conn, stored, t.a.conn.log, s.inB, t.inB, code, reason);
    AfterB(envA, envB, s, t, startA, startB, jA, jB', stored, code, reason);
  }

  lemma InitiatorHasClose(c: Conn, code: nat, reason: bytes)
    requires Initiator(c, code, reason)
    ensures HasClose(c.log) ==> c.state != OPEN
  {
  }

  lemma LostIsAside(c: Conn, stored: CloseData, log: seq<WireFrame>, inbox: Inbox, inbox': Inbox,
                    code: nat, reason: bytes)
    requires Responder(c, stored, log, inbox, code, reason) && inbox' == inbox.(lost := inbox'.lost)
    ensures Responder(c, stored, log, inbox', code, reason)
  {
  }

  lemma ReadAStep(envA: Env, envB: Env, s: Net, step: NetStep, startA: Reader, startB: Reader, jA: nat, jB: nat,
                  stored: CloseData, code: nat, reason: bytes)
    requires Closing(envA, envB, s, startA, startB, jA, jB, stored, code, reason) && step.ReadAtA?
    requires Matched(envA, envB, startA, startB) && QuietNetStep(s, step, code, reason)
    ensures Closing(envA, envB, NetDo(envA, envB, s, step), startA, startB, jA, jB, stored, code, reason)
  {
    hide EndOk, HasRead, Initiator, Responder, Listening, ReadStep, NoErrors, Core, Lossless, LogOk,
         PingTimeoutExceeded;
    StepKeepsNet(envA, envB, s, step, startA, startB);
    EndInvariant(envA, s.a);
    EndInvariant(envB, s.b);
    ResponderParts(s.b.conn, stored, s.a.conn.log, s.inB, code, reason);
    ReadParts(envA, s.a, startA, s.b.conn, s.inA, jA, step.n, step.gone, step.now, step.later);
    ReadAtAStep(envA, s.a, startA, s.b.conn, s.inA, jA, step.n, step.gone, step.now, step.later, code, reason);
    AfterA(envA, envB, s, NetDo(envA, envB, s, step), startA, startB, jA, jB, stored, code, reason);
  }

  lemma ReadBStep(envA: Env, envB: Env, s: Net, step: NetStep, startA: Reader, startB: Reader, jA: nat, jB: nat,
                  stored: CloseData, code: nat, reason: bytes)
    requires Closing(envA, envB, s, startA, startB, jA, jB, stored, code, reason) && step.ReadAtB?
    requires Matched(envA, envB, startA, startB) && QuietNetStep(s, step, code, reason)
    ensures Closing(envA, envB, NetDo(envA, envB, s, step), startA, startB, jA, jB, stored, code, reason)
  {
    hide EndOk, HasRead, Initiator, Responder, Listening, ReadStep, NoErrors, Core, Lossless, LogOk,
         PingTimeoutExceeded;
    StepKeepsNet(envA, envB, s, step, startA, startB);
    EndInvariant(envA, s.a);
    EndInvariant(envB, s.b);
    InitiatorParts(s.a.conn, code, reason);
    ReadParts(envB, s.b, startB, s.a.conn, s.inB, jB, step.n, step.gone, step.now, step.later);
    ReadAtBStep(envB, s.b, startB, s.a.conn, s.inB, jB, stored, step.n, step.gone, step.now, step.later, code, reason);
    AfterB(envA, envB, s, NetDo(envA, envB, s, step), startA, startB, jA, jB, stored, code, reason);
  }

  lemma {:induction false} RunCloses(envA: Env, envB: Env, s: Net, steps: seq<NetStep>, startA: Reader, startB: Reader,
                                     jA: nat, jB: nat, stored: CloseData, code: nat, reason: bytes)
    returns (jA': nat, jB': nat)
    requires Closing(envA, envB, s, startA, startB, jA, jB, stored, code, reason)
    requires Matched(envA, envB, startA, startB) && GoodClose(code, reason)
    requires QuietRun(envA, envB, s, steps, code, reason)
    ensures Closing(envA, envB, NetRun(envA, envB, s, steps), startA, startB, jA', jB', stored, code, reason)
    decreases |steps|
  {
    hide Closing, NetDo, GoodClose, QuietNetStep, Matched;
    jA', jB' := jA, jB;
    if steps != [] {
      var step := steps[0];
      match step {
        case AtA(l) => jA' := LocalAStep(envA, envB, s, l, startA, startB, jA, jB, stored, code, reason);
        case AtB(l) => jB' := LocalBStep(envA, envB, s, l, startA, startB, jA, jB, stored, code, reason);
        case ReadAtA(_, _, _, _) => ReadAStep(envA, envB, s, step, startA, startB, jA, jB, stored, code, reason);
        case ReadAtB(_, _, _, _) => ReadBStep(envA, envB, s, step, startA, startB, jA, jB, stored, code, reason);
      }
      var s1 := NetDo(envA, envB, s, step);
      jA', jB' := RunCloses(envA, envB, s1, steps[1..], startA, startB, jA', jB', stored, code, reason);
    }
  }

  /** dispatch has seen all that an end has read. */
  predicate Settled(c: Conn) { Exhausted(c.rx, c.cfg.deflate) }

  /** What B has reported, by whether it has found A gone and whether A's CLOSE frame has reached it. */
  predicate Outcome(reports: seq<CloseData>, stored: CloseData, gone: bool, arrived: bool, settled: bool,
                    code: nat, reason: bytes) {
    && (arrived && settled ==> reports != [])
    && (reports != [] ==>
          if gone then reports == [stored] || (reports == [ABNORMAL] && !arrived)
          else arrived && Reports(reports, code, reason, true))
  }

  lemma ClosingEnds(envA: Env, envB: Env, t: Net, startA: Reader, startB: Reader, jA: nat, jB: nat,
                    stored: CloseData, code: nat, reason: bytes)
    requires Closing(envA, envB, t, startA, startB, jA, jB, stored, code, reason)
    ensures Outcome(t.b.conn.trace.reports, stored, t.inB.gone, CloseArrived(t.a.conn.log, t.inB.got),
                    Settled(t.b.conn), code, reason)
    ensures var reportsA := t.a.conn.trace.reports;
            && (reportsA == [] || Reports(reportsA, code, reason, false))
            && (CloseArrived(t.b.conn.log, t.inA.got) && Settled(t.a.conn) ==> reportsA != [])
    ensures t.a.conn.state != OPEN ==> HasClose(t.a.conn.log)
    ensures !t.inB.gone && t.b.conn.trace.reports != [] ==> HasClose(t.b.conn.log)
  {
    hide EncodeAll, EndOk, SingleControls, OnlyClose, HasClose, Follows, HasRead, CloseArrived, HoldsFrom, TakeFrame;
    if t.b.conn.state != CLOSED && Settled(t.b.conn) {
      NotYetArrived(envB, t.b.conn, startB, envA, t.a, t.inB.got, jB);
    }
    if t.a.conn.state != CLOSED && Settled(t.a.conn) {
      NotYetArrived(envA, t.a.conn, startA, envB, t.b, t.inA.got, jA);
    }
  }

  /**
    * In every run in which only A closes, with an accepted code and a valid reason, no write to an open socket fails,
    * and no open end meets a socket error or finds the other's pong overdue:
    * A reports nothing or exactly that code and reason, once, as local, at the latest when it has dispatched B's
    * answer. B reports nothing until A's CLOSE frame has reached it or it has found A gone. If no read of B has found A
    * gone, B reports exactly that code and reason, once, as remote, and it does so as soon as it has dispatched the
    * frame. But if a read finds A gone, with the CLOSE frame or before it, B can no longer answer and reports once what
    * was stored before, or an abnormal closure if the frame has not arrived.
    */
  lemma TwoPartyClose(envA: Env, envB: Env, s: Net, steps: seq<NetStep>, code: nat, reason: bytes)
    requires Initial(s)
    requires envA.codec == envB.codec && Lossless(envA.codec) && NoErrors(envA) && NoErrors(envB)
    requires GoodClose(code, reason) && QuietRun(envA, envB, s, steps, code, reason)
    ensures var t := NetRun(envA, envB, s, steps);
            var reportsA, reportsB := t.a.conn.trace.reports, t.b.conn.trace.reports;
            && Outcome(reportsB, s.b.conn.close, t.inB.gone, CloseArrived(t.a.conn.log, t.inB.got),
                       Settled(t.b.conn), code, reason)
            && (t.a.conn.state != OPEN && t.inB.got == |EncodeAll(t.a.conn.log)| ==>
                  CloseArrived(t.a.conn.log, t.inB.got))
            && (reportsA == [] || Reports(reportsA, code, reason, false))
            && (CloseArrived(t.b.conn.log, t.inA.got) && Settled(t.a.conn) ==> reportsA != [])
            && (reportsB != [] && !t.inB.gone && t.inA.got == |EncodeAll(t.b.conn.log)| && Settled(t.a.conn) ==>
                  reportsA != [])
  {
    hide NetRun, GoodClose, EncodeAll, Closing, HasClose, Lossless, NoErrors, Reports, CloseArrived, QuietRun, Outcome,
         Settled;
    var startA, startB := s.a.conn.reader, s.b.conn.reader;
    InitialClosing(envA, envB, s, code, reason);
    var jA, jB := RunCloses(envA, envB, s, steps, startA, startB, 0, 0, s.b.conn.close, code, reason);
    var t := NetRun(envA, envB, s, steps);
    ClosingEnds(envA, envB, t, startA, startB, jA, jB, s.b.conn.close, code, reason);
    WholeLogArrived(t.a.conn.log);
    WholeLogArrived(t.b.conn.log);
  }

  lemma WholeLogArrived(log: seq<WireFrame>)
    ensures HasClose(log) ==> CloseArrived(log, |EncodeAll(log)|)
  {
    hide EncodeAll;
    if HasClose(log) {
      var i :| 0 <= i < |log| && log[i].frame.opcode == Framing.CLOSE;
      assert log == log[..i + 1] + log[i + 1..];
      EncodeAllAppend(log[..i + 1], log[i + 1..]);
      assert EncodedTo(log, i) <= |EncodeAll(log)|;
    }
  }

  /**
    * The exact condition under which B reports the code and reason as remote, once it has dispatched what it has read:
    * the CLOSE frame has arrived and no read has found A gone.
    */
  lemma RemoteReportIff(envA: Env, envB: Env, s: Net, steps: seq<NetStep>, code: nat, reason: bytes)
    requires Initial(s) && !s.b.conn.close.remote
    requires envA.codec == envB.codec && Lossless(envA.codec) && NoErrors(envA) && NoErrors(envB)
    requires GoodClose(code, reason) && QuietRun(envA, envB, s, steps, code, reason)
    requires Settled(NetRun(envA, envB, s, steps).b.conn)
    ensures var t := NetRun(envA, envB, s, steps);
            Reports(t.b.conn.trace.reports, code, reason, true)
            <==> CloseArrived(t.a.conn.log, t.inB.got) && !t.inB.gone
  {
    hide NetRun, GoodClose, EncodeAll, HasClose, Lossless, NoErrors, CloseArrived, QuietRun, Settled;
    TwoPartyClose(envA, envB, s, steps, code, reason);
  }

  // ------------------------------------------------------------------ the run in which the code is lost

  lemma RunCons(envA: Env, envB: Env, s: Net, step: NetStep, rest: seq<NetStep>, code: nat, reason: bytes)
    ensures NetRun(envA, envB, s, [step] + rest) == NetRun(envA, envB, NetDo(envA, envB, s, step), rest)
    ensures QuietRun(envA, envB, s, [step] + rest, code, reason)
            <==> QuietNetStep(s, step, code, reason)
                 && QuietRun(envA, envB, NetDo(envA, envB, s, step), rest, code, reason)
  {
    hide NetDo, QuietNetStep;
    assert ([step] + rest)[1..] == rest;
  }

  /** A close whose frame the socket takes at once, and a poll that finds the closing delay over. */
  lemma ClosesAndLeaves(env: Env, e: End, code: nat, reason: bytes, now: int)
    requires JustConnected(e.conn) && NoErrors(env) && GoodClose(code, reason)
    requires var first := env.writes(e.conn.socket.attempts);
             first.Wrote? && first.n >= |Encode(OnWire(env, e.conn, CloseFrame(code, reason)))|
    ensures var c1 := Close(env, e.conn, code, reason, 0, now);
            var c2 := Poll(env, c1, now, Timeout, now + 301 * MILLISECOND).0;
            && c1.state == CLOSING && c1.tx == [] && c2.state == CLOSED && !c2.socket.open && c2.tx == []
            && c2.log == c1.log && c2.socket.accepted == c1.socket.accepted
  {
    hide GoodClose, Encode, OnWire, ClosePayload;
    var c := e.conn.(cancel := true).(close := CloseData(code, reason, |reason|, false),
                                      clock := e.conn.clock.(closingAt := now), state := CLOSING);
    AnswerIsShort(code, reason);
    SendCloseCalm(env, c, code, reason);
    SendsOne(env, c, Framing.CLOSE, ClosePayload(code, reason));
    WireIsSame(env, e.conn, c, CloseFrame(code, reason));
    EncodedIsLong(OnWire(env, c, CloseFrame(code, reason)));
    TakesAll(env, Append(c, OnWire(env, c, CloseFrame(code, reason))).(drawn := c.drawn + 1));
  }

  lemma WireIsSame(env: Env, c: Conn, c': Conn, f: Frame)
    requires c'.cfg == c.cfg && c'.drawn == c.drawn
    ensures OnWire(env, c', f) == OnWire(env, c, f)
  {
  }

  lemma TakesAll(env: Env, c: Conn)
    requires c.socket.open && c.tx != []
    requires env.writes(c.socket.attempts).Wrote? && env.writes(c.socket.attempts).n >= |c.tx|
    ensures Drain(env, c) == TakeBytes(c, |c.tx|)
  {
  }

  lemma CallAtA(envA: Env, envB: Env, s: Net, step: Step)
    requires Allowed(step)
    ensures var t := NetDo(envA, envB, s, AtA(Other(step)));
            t.a == s.a.(conn := Do(envA, s.a.conn, step)) && t.b == s.b && t.inB == s.inB
  {
    hide Do, DropsLocally;
  }

  lemma CallsOfA(env: Env, c: Conn, code: nat, reason: bytes, now: int, later: int)
    ensures Do(env, c, CloseCall(code, reason, now)) == Close(env, c, code, reason, 0, now)
    ensures Do(env, c, PollCall(now, Timeout, later)) == Poll(env, c, now, Timeout, later).0
  {
    hide Close, Poll;
  }

  /** What A has done by then, in the network. */
  lemma LeavingRun(envA: Env, envB: Env, s: Net, x1: NetStep, x2: NetStep, code: nat, reason: bytes, now: int)
    requires Initial(s) && NoErrors(envA) && GoodClose(code, reason)
    requires var first := envA.writes(s.a.conn.socket.attempts);
             first.Wrote? && first.n >= |Encode(OnWire(envA, s.a.conn, CloseFrame(code, reason)))|
    requires x1 == AtA(Other(CloseCall(code, reason, now)))
    requires x2 == AtA(Other(PollCall(now, Timeout, now + 301 * MILLISECOND)))
    ensures var s1 := NetDo(envA, envB, s, x1);
            var s2 := NetDo(envA, envB, s1, x2);
            && s1.a.conn.state == CLOSING && s2.a.conn.state == CLOSED
            && s2.a.conn.tx == [] && !s2.a.conn.socket.open && |s2.a.conn.trace.reports| == 1
            && s2.b == s.b && s2.inB == s.inB
  {
    hide GoodClose, NoErrors, Encode, OnWire, Close, Poll, Core, NetDo, Do, EndOk, ConfigOk, CloseFrame, DoLocal,
         Direction;
    ClosesAndLeaves(envA, s.a, code, reason, now);
    InitialOk(envA, envB, s);
    var s1 := NetDo(envA, envB, s, x1);
    CallAtA(envA, envB, s, x1.l.step);
    CallAtA(envA, envB, s1, x2.l.step);
    CallsOfA(envA, s.a.conn, code, reason, now, now + 301 * MILLISECOND);
    CallsOfA(envA, s1.a.conn, code, reason, now, now + 301 * MILLISECOND);
    OtherCore(envA, s.a, x1.l.step);
    StepKeepsNet(envA, envB, s, x1, s.a.conn.reader, s.b.conn.reader);
    OtherCore(envA, s1.a, x2.l.step);
    CoreTransitive(s.a.conn, s1.a.conn, NetDo(envA, envB, s1, x2).a.conn);
    OneReport(s.a.conn, NetDo(envA, envB, s1, x2).a.conn);
  }

  lemma OtherCore(env: Env, e: End, step: Step)
    requires EndOk(env, e) && Allowed(step)
    ensures Core(e.conn, Do(env, e.conn, step))
  {
    hide Core, ControlExtends, Do;
    AllowedExtends(env, e.conn, step);
  }

  lemma OneReport(c: Conn, c': Conn)
    requires Core(c, c') && c.state == OPEN && c'.state == CLOSED
    ensures |c'.trace.reports| == |c.trace.reports| + 1
  {
  }

  /** B's one read and its dispatch. */
  lemma LastRead(envA: Env, envB: Env, s: Net, x3: NetStep, x4: NetStep, startA: Reader, now: int, later: int)
    requires NetOk(envA, envB, s, startA, s.b.conn.reader) && s.inB == Inbox(0, false, false)
    requires s.b.conn.state == OPEN && s.b.conn.socket.open
    requires !PingTimeoutExceeded(s.b.conn, now) && !PingIntervalExceeded(s.b.conn, now)
    requires x3 == ReadAtB(|s.a.conn.socket.accepted|, true, now, later)
    requires x4 == AtB(Other(DispatchCall(AbnormalClose, later)))
    ensures var s3 := NetDo(envA, envB, s, x3);
            var s4 := NetDo(envA, envB, s3, x4);
            && s3.b.conn.state == OPEN && !s3.b.conn.socket.open
            && s4.inB.got == |s.a.conn.socket.accepted| && s4.inB.gone && Settled(s4.b.conn)
            && s4.a == s.a
  {
    hide EndOk, HasRead, Dispatch, PollWait, Exhausted, PingTimeoutExceeded, PingIntervalExceeded;
    var s3 := NetDo(envA, envB, s, x3);
    StepKeepsNet(envA, envB, s, x3, startA, s.b.conn.reader);
    assert PollTimers(envB, s.b.conn, now) == s.b.conn;
    EndInvariant(envB, s3.b);
    DispatchKeepsRead(envB, s3.b.conn, AbnormalClose, later, s.b.conn.reader,
      s3.a.conn.socket.accepted[..s3.inB.got], s3.inB.lost);
    DispatchLocal(envB, s3.b, x4.l);
    LocalKeepsConfig(envB, s3.b, x4.l);
  }

  /**
    * The input: A calls close and the whole frame is taken, but B is busy until A has given up waiting. B then reads
    * the frame and the end of the stream in one poll, and reports not the code but what it had stored.
    */
  lemma BusyPeer(envA: Env, envB: Env, s: Net, code: nat, reason: bytes, now: int) returns (steps: seq<NetStep>)
    requires Initial(s) && GoodClose(code, reason)
    requires envA.codec == envB.codec && Lossless(envA.codec) && NoErrors(envA) && NoErrors(envB)
    requires var first := envA.writes(s.a.conn.socket.attempts);
             first.Wrote? && first.n >= |Encode(OnWire(envA, s.a.conn, CloseFrame(code, reason)))|
    requires !PingTimeoutExceeded(s.b.conn, now) && !PingIntervalExceeded(s.b.conn, now)
    ensures QuietRun(envA, envB, s, steps, code, reason)
    ensures var t := NetRun(envA, envB, s, steps);
            && Reports(t.a.conn.trace.reports, code, reason, false)
            && CloseArrived(t.a.conn.log, t.inB.got)
            && t.b.conn.trace.reports == [s.b.conn.close]
  {
    hide GoodClose, NoErrors, Lossless, Encode, OnWire, EncodeAll, CloseArrived, NetDo, EndOk, Direction,
         PingTimeoutExceeded, PingIntervalExceeded, NetRun, QuietRun, ConfigOk, Settled;
    var later := now + 301 * MILLISECOND;
    var x1, x2 := AtA(Other(CloseCall(code, reason, now))), AtA(Other(PollCall(now, Timeout, later)));
    LeavingRun(envA, envB, s, x1, x2, code, reason, now);
    var s1 := NetDo(envA, envB, s, x1);
    var s2 := NetDo(envA, envB, s1, x2);
    InitialOk(envA, envB, s);
    StepKeepsNet(envA, envB, s, x1, s.a.conn.reader, s.b.conn.reader);
    StepKeepsNet(envA, envB, s1, x2, s.a.conn.reader, s.b.conn.reader);
    var x3 := ReadAtB(|s2.a.conn.socket.accepted|, true, now, later);
    var x4 := AtB(Other(DispatchCall(AbnormalClose, later)));
    var s3 := NetDo(envA, envB, s2, x3);
    LastRead(envA, envB, s2, x3, x4, s.a.conn.reader, now, later);
    steps := [x1] + ([x2] + ([x3] + ([x4] + [])));
    RunCons(envA, envB, s, x1, [x2] + ([x3] + ([x4] + [])), code, reason);
    RunCons(envA, envB, s1, x2, [x3] + ([x4] + []), code, reason);
    RunCons(envA, envB, s2, x3, [x4] + [], code, reason);
    RunCons(envA, envB, s3, x4, [], code, reason);
    NoMoreSteps(envA, envB, NetDo(envA, envB, s3, x4), code, reason);
    EndInvariant(envA, s2.a);
    assert s2.a.conn.socket.accepted + [] == s2.a.conn.socket.accepted;
    TwoPartyClose(envA, envB, s, steps, code, reason);
  }

  lemma NoMoreSteps(envA: Env, envB: Env, s: Net, code: nat, reason: bytes)
    ensures NetRun(envA, envB, s, []) == s && QuietRun(envA, envB, s, [], code, reason)
  {
  }
}

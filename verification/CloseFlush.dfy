/** What becomes of the bytes that a close call leaves in the send buffer. */
module CloseFlush {
  import opened Bytes
  import opened Framing
  import opened Reassembly
  import opened Delivery
  import opened TransportSpec
  import opened TransportRuns
  import opened Session
  import Utf8Validator

  /** Nothing has been written, to the buffer or to the socket. */
  predicate Unwritten(c: Conn, c': Conn) {
    c'.log == c.log && c'.tx == c.tx && c'.socket.accepted == c.socket.accepted
  }

  predicate Late(c: Conn) { c.state == CLOSING || c.state == CLOSED }

  /** What a step of a connection that is no longer open comes to: frames appended exactly if `appends`. */
  predicate LateStep(c: Conn, c': Conn, appends: bool) {
    Late(c') && (if appends then c.log < c'.log else Unwritten(c, c'))
  }

  /** A frame that a closing end answers. */
  predicate Answered(c: Conn, f: Frame) { f.opcode == PING && c.cfg.enablePong && c.state == CLOSING }

  /** Some ping that this dispatch processes is answered. */
  predicate AnswersPing(env: Env, c: Conn, now: int)
    decreases |c.rx|
  {
    match TakeFrame(c.rx, c.cfg.deflate)
    case None => false
    case Some((f, rest)) =>
      var c0 := c.(rx := UnmaskHead(c.rx, c.cfg.deflate));
      Answered(c, f) || AnswersPing(env, HandleFrame(env, c0, f, now).(rx := rest), now)
  }

  /** The steps of a connection that is no longer open which append a frame to the send buffer. */
  predicate Appends(env: Env, c: Conn, s: Step) {
    s.OneFragment? || (s.DispatchCall? && AnswersPing(env, c, s.now))
  }

  lemma LateClose(env: Env, c: Conn, code: nat, reason: bytes, wireSize: nat, now: int)
    requires Late(c)
    ensures Close(env, c, code, reason, wireSize, now) == c.(cancel := true)
  {
  }

  lemma FragmentAppends(env: Env, c: Conn, f: Frame)
    requires Late(c)
    ensures LateStep(c, SendFragment(env, c, f), true)
  {
    hide Drain, Encode;
    SendFragmentWrites(env, c, f);
    DrainKeepsState(env, Append(c, OnWire(env, c, f)).(drawn := c.drawn + 1));
  }

  lemma PongAppends(env: Env, c: Conn, payload: bytes)
    requires c.state == CLOSING
    ensures LateStep(c, SendData(env, c, PONG, payload, false), true)
  {
    hide SendFragments;
    var fs := Fragments(PONG, false, payload);
    assert |fs| >= 1;
    var ws := SendFragmentsWrites(env, c, fs);
    SendKeepsState(env, c, fs);
  }

  lemma LateFrame(env: Env, c: Conn, f: Frame, now: int)
    requires Late(c)
    ensures LateStep(c, HandleFrame(env, c, f, now), Answered(c, f))
  {
    hide SendData, Close, CloseStatus, OnDataFrame, Emittable;
    if IsData(f) {
      var (r, cb) := OnDataFrame(env.codec, c.cfg.deflate, c.reader, f);
      LateClose(env, c, PROTOCOL_ERROR, DATA_SEQUENCE_MESSAGE, 0, now);
      LateClose(env, c, PROTOCOL_ERROR, CONTINUATION_SEQUENCE_MESSAGE, 0, now);
      LateClose(env, c.(reader := r), INVALID_PAYLOAD, INVALID_PAYLOAD_MESSAGE, 0, now);
      LateClose(env, c.(cancel := true, reader := r), INVALID_PAYLOAD, INVALID_PAYLOAD_MESSAGE, 0, now);
    } else if f.opcode == PING {
      if c.state == CLOSED {
        ClosedSendsNothing(env, c, PONG, f.payload);
      } else {
        PongAppends(env, c, f.payload);
      }
    } else if f.opcode == Framing.CLOSE {
      var (code, reason) := CloseStatus(f.payload);
      if c.state == CLOSED { ClosedSendsNothing(env, c, Framing.CLOSE, ClosePayload(code, reason)); }
    } else {
      LateClose(env, c, PROTOCOL_ERROR, PROTOCOL_ERROR_MESSAGE, |c.rx|, now);
    }
  }

  lemma LateLeave(env: Env, c: Conn, now: int)
    requires Late(c)
    ensures LateStep(c, LeaveLoop(env, c, now).0, false)
  {
    hide NextFrame, UnmaskHead, SendCloseFrame;
  }

  lemma LateThenLate(a: Conn, b: Conn, c: Conn, first: bool, second: bool)
    requires LateStep(a, b, first) && LateStep(b, c, second)
    ensures LateStep(a, c, first || second)
  {
  }

  lemma {:induction false} LateLoop(env: Env, c: Conn, now: int)
    requires Late(c)
    ensures LateStep(c, DispatchLoop(env, c, now).0, AnswersPing(env, c, now))
    decreases |c.rx|
  {
    hide TakeFrame, UnmaskHead, HandleFrame, LeaveLoop, LateStep, Answered;
    match TakeFrame(c.rx, c.cfg.deflate)
    case None => LateLeave(env, c, now);
    case Some((f, rest)) =>
      var c0 := c.(rx := UnmaskHead(c.rx, c.cfg.deflate));
      var c2 := HandleFrame(env, c0, f, now).(rx := rest);
      LateFrame(env, c0, f, now);
      OtherBuffer(c, c0, HandleFrame(env, c0, f, now), f, rest);
      LateLoop(env, c2, now);
      LateThenLate(c, c2, DispatchLoop(env, c2, now).0, Answered(c, f), AnswersPing(env, c2, now));
  }

  lemma OtherBuffer(c: Conn, c0: Conn, c1: Conn, f: Frame, rest: bytes)
    requires c0 == c.(rx := c0.rx) && LateStep(c0, c1, Answered(c0, f))
    ensures LateStep(c, c1.(rx := rest), Answered(c, f)) && Late(c1.(rx := rest))
  {
  }

  /** Once close has been called, poll sends nothing more. */
  lemma LatePoll(env: Env, c: Conn, now: int, input: PollInput, later: int)
    requires Late(c) && Guarded(c) && Shut(c)
    ensures LateStep(c, Poll(env, c, now, input, later).0, false)
  {
    hide Drain, PollWait, ClosingDelayExceeded;
  }

  /** Each step of a connection that is no longer open, exactly. */
  lemma LateDo(env: Env, c: Conn, s: Step)
    requires Invariant(c) && Late(c) && !s.Connected?
    ensures LateStep(c, Do(env, c, s), Appends(env, c, s))
  {
    hide SendData, SendFragment, Close, Poll, DispatchLoop, Conserves, Balanced, Utf8Validator.Valid, AnswersPing;
    match s
    case Connected(now) =>
    case ConnectionFailed(reached) =>
    case TextCall(text, now) => LateClose(env, c, INVALID_PAYLOAD, INVALID_PAYLOAD_MESSAGE, 0, now);
    case BinaryCall(data) =>
    case PingCall(text, now) =>
    case OneFragment(f) => FragmentAppends(env, c, f);
    case CloseCall(code, reason, now) => LateClose(env, c, code, reason, 0, now);
    case PollCall(now, input, later) => LatePoll(env, c, now, input, later);
    case DispatchCall(result, now) => LateLoop(env, c, now);
  }

  // ------------------------------------------------------------------ runs

  /** The socket has taken the first `size` bytes written on the connection. */
  predicate Took(c: Conn, size: nat) { size <= |c.socket.accepted| }

  /** Some step appends a frame, and the write after it takes the first `size` bytes. */
  predicate Flushed(env: Env, c: Conn, steps: seq<Step>, size: nat)
    decreases |steps|
  {
    steps != []
    && ((Appends(env, c, steps[0]) && Took(Do(env, c, steps[0]), size))
        || Flushed(env, Do(env, c, steps[0]), steps[1..], size))
  }

  predicate NoConnect(steps: seq<Step>) { forall i | 0 <= i < |steps| :: !steps[i].Connected? }

  lemma AcceptedGrows(env: Env, c: Conn, s: Step)
    requires Invariant(c) && !s.Connected?
    ensures c.socket.accepted <= Do(env, c, s).socket.accepted
  {
    hide Do, Conserves, Balanced, Lifecycle;
    StepCore(env, c, s);
  }

  lemma {:induction false} RunTakes(env: Env, c: Conn, steps: seq<Step>, size: nat)
    requires Invariant(c) && Late(c) && NoConnect(steps)
    ensures Took(Run(env, c, steps), size) <==> Took(c, size) || Flushed(env, c, steps, size)
    decreases |steps|
  {
    hide Invariant, Do, Appends;
    if steps != [] {
      LateDo(env, c, steps[0]);
      AcceptedGrows(env, c, steps[0]);
      StepKeepsInvariant(env, c, steps[0]);
      RunTakes(env, Do(env, c, steps[0]), steps[1..], size);
    }
  }

  /**
    * The bytes that a close call leaves in the send buffer, those of its CLOSE frame among them, in every run of the
    * connection that follows: the socket has taken them all exactly if it took them during the call, or a later step
    * appends a frame, a fragment under way or the answer to a ping, and the write after it takes them. poll never
    * sends them.
    */
  lemma CloseLeavesIff(env: Env, c: Conn, code: nat, reason: bytes, now: int, steps: seq<Step>)
    requires Invariant(c) && c.state == OPEN && NoConnect(steps)
    ensures var c1 := Close(env, c, code, reason, 0, now);
            var size := |EncodeAll(c1.log)|;
            Took(Run(env, c1, steps), size) <==> c1.tx == [] || Flushed(env, c1, steps, size)
  {
    hide Close, Run, Flushed, EncodeAll, ControlExtends, Core, Balanced;
    CloseWrites(env, c, code, reason, 0, now);
    var c1 := Close(env, c, code, reason, 0, now);
    CoreKeepsInvariant(c, c1);
    StillLate(c, c1);
    RunTakes(env, c1, steps, |EncodeAll(c1.log)|);
    assert |c1.socket.accepted| + |c1.tx| == |EncodeAll(c1.log)|;
  }

  lemma StillLate(c: Conn, c': Conn)
    requires Core(c, c') && c.state == OPEN && c'.state != OPEN
    ensures Late(c')
  {
  }

  /** No step of the run appends a frame. */
  predicate NeverAppends(env: Env, c: Conn, steps: seq<Step>)
    decreases |steps|
  {
    steps == [] || (!Appends(env, c, steps[0]) && NeverAppends(env, Do(env, c, steps[0]), steps[1..]))
  }

  /** Until a frame is appended, whatever poll sees, the buffer stays as the close call left it. */
  lemma {:induction false} RunUnwritten(env: Env, c: Conn, steps: seq<Step>)
    requires Invariant(c) && Late(c) && NoConnect(steps)
    ensures Run(env, c, steps).log == c.log <==> NeverAppends(env, c, steps)
    ensures NeverAppends(env, c, steps) ==> Unwritten(c, Run(env, c, steps))
    ensures c.log <= Run(env, c, steps).log
    decreases |steps|
  {
    hide Invariant, Do, Appends;
    if steps != [] {
      LateDo(env, c, steps[0]);
      StepKeepsInvariant(env, c, steps[0]);
      RunUnwritten(env, Do(env, c, steps[0]), steps[1..]);
    }
  }
}

/** Connections that stay OPEN on a socket that poll has closed: when they come about, and what ends them. */
module Stranded {
  import opened Bytes
  import opened Framing
  import opened Reassembly
  import opened TransportSpec
  import opened TransportRuns
  import opened Session
  import opened CloseHandshake
  import opened Timers

  // ------------------------------------------------------------------ how a connection is stranded

  predicate ClosesSocket(input: PollInput) { input.PollError? || input.CloseRequest? || Gone(input) }

  /** A poll that leaves the connection OPEN and meets an error, a close request or the end of the stream. */
  predicate Strands(env: Env, c: Conn, s: Step) {
    s.PollCall? && ClosesSocket(s.input) && PollTimers(env, c, s.now).state == OPEN
  }

  lemma PollStrandsIff(env: Env, c: Conn, s: Step)
    requires Invariant(c) && Sound(c) && s.PollCall?
    ensures Sound(Do(env, c, s)) <==> !Strands(env, c, s)
  {
    hide PollTimers, PollWait, DrainRequest, Conserves, Balanced, ClosingDelayExceeded, Core;
    var c1 := PollTimers(env, c, s.now);
    TimersKeepBuffer(env, c, s.now);
    TimersStaySound(c, c1);
    var c2 := c1.(clock := c1.clock.(nextGcd := PollWait(c1, s.now).1));
    if s.input.SendRequest? {
      DrainRequestWrites(env, c2, s.input.readiness);
      TimersStaySound(c2, DrainRequest(env, c2, s.input.readiness));
    }
  }

  lemma TimersStaySound(c: Conn, c': Conn)
    requires Writes(c, c') && Sound(c)
    ensures Sound(c')
  {
  }

  /** Which step takes a connection out of the states in which OPEN means an open socket. */
  lemma StepStrandsIff(env: Env, c: Conn, s: Step)
    requires Invariant(c) && Sound(c)
    ensures Sound(Do(env, c, s)) <==> !Strands(env, c, s)
  {
    hide Do, Invariant, Sound;
    if s.PollCall? {
      PollStrandsIff(env, c, s);
    } else if s.Connected? {
      ConnectIsSound(env, c, s);
    } else {
      StepStaysSound(env, c, s);
    }
  }

  lemma ConnectIsSound(env: Env, c: Conn, s: Step)
    requires Sound(c) && s.Connected?
    ensures Sound(Do(env, c, s))
  {
  }

  lemma StepStaysSound(env: Env, c: Conn, s: Step)
    requires Invariant(c) && Sound(c) && !s.PollCall? && !s.Connected?
    ensures Sound(Do(env, c, s))
  {
    hide Do, Core, Conserves, Balanced, Sound;
    StepCore(env, c, s);
  }

  predicate SoundThroughout(env: Env, c: Conn, steps: seq<Step>)
    decreases |steps|
  {
    Sound(c) && (steps == [] || SoundThroughout(env, Do(env, c, steps[0]), steps[1..]))
  }

  predicate NeverStrands(env: Env, c: Conn, steps: seq<Step>)
    decreases |steps|
  {
    steps == [] || (!Strands(env, c, steps[0]) && NeverStrands(env, Do(env, c, steps[0]), steps[1..]))
  }

  /**
    * Over every run: OPEN means an open socket throughout exactly when no poll that leaves a connection OPEN meets an
    * error, a close request or the end of the stream.
    */
  lemma {:induction false} RunSound(env: Env, c: Conn, steps: seq<Step>)
    requires Invariant(c) && Sound(c)
    ensures SoundThroughout(env, c, steps) <==> NeverStrands(env, c, steps)
    decreases |steps|
  {
    hide Invariant, Do, Sound, Strands;
    if steps != [] {
      StepStrandsIff(env, c, steps[0]);
      StepKeepsInvariant(env, c, steps[0]);
      if Sound(Do(env, c, steps[0])) {
        RunSound(env, Do(env, c, steps[0]), steps[1..]);
      } else {
        NotSoundNow(env, Do(env, c, steps[0]), steps[1..]);
      }
    }
  }

  lemma NotSoundNow(env: Env, c: Conn, steps: seq<Step>)
    requires !Sound(c)
    ensures !SoundThroughout(env, c, steps)
  {
  }

  // ------------------------------------------------------------------ what ends it

  /** OPEN on a closed socket, with nothing left in the buffer that dispatch would act on. */
  predicate Beached(c: Conn) {
    && c.state == OPEN && !c.socket.open
    && Exhausted(c.rx, c.cfg.deflate) && !Stuck(c.rx, c.cfg.deflate)
  }

  predicate TimerDue(c: Conn, now: int) { PingTimeoutExceeded(c, now) || PingIntervalExceeded(c, now) }

  /** The same but for the time at which the period ends. */
  predicate SameButPeriod(c: Conn, c': Conn) { c' == c.(clock := c.clock.(nextGcd := c'.clock.nextGcd)) }

  /** The timers of a stranded connection end it, if one is due: there is no socket for a ping or a CLOSE frame. */
  lemma TimersEndIt(env: Env, c: Conn, now: int)
    requires Invariant(c) && Beached(c)
    ensures PollTimers(env, c, now) == c || TimerDue(c, now)
    ensures TimerDue(c, now) ==> PollTimers(env, c, now).state == CLOSED
  {
    hide HeartbeatMessage, SendCloseFrame, SendPing, Conserves, Balanced, Stuck, TakeFrame;
    if PingTimeoutExceeded(c, now) {
      CloseOnClosed(env, c, now);
    } else if PingIntervalExceeded(c, now) {
      HeartbeatIsShort(c);
      PingOnClosed(env, c, HeartbeatMessage(c), now);
    }
  }

  lemma PingOnClosed(env: Env, c: Conn, message: bytes, now: int)
    requires c.state == OPEN && !c.socket.open && |message| <= 125
    ensures SendPing(env, c, message, now).state == CLOSED
  {
    hide SendFragment;
    SendsOne(env, c, PING, message);
    FragmentOnClosed(env, c, Frame(true, false, PING, message));
  }

  lemma CloseOnClosed(env: Env, c: Conn, now: int)
    requires c.state == OPEN && !c.socket.open
    ensures Close(env, c, INTERNAL_ERROR, PING_TIMEOUT_MESSAGE, 0, now).state == CLOSED
  {
    hide SendFragment;
    var c1 := c.(cancel := true).(close := CloseData(INTERNAL_ERROR, PING_TIMEOUT_MESSAGE,
                   |PING_TIMEOUT_MESSAGE|, false),
                                  clock := c.clock.(closingAt := now), state := CLOSING);
    SendsOne(env, c1, Framing.CLOSE, ClosePayload(INTERNAL_ERROR, PING_TIMEOUT_MESSAGE));
    FragmentOnClosed(env, c1, Frame(true, false, Framing.CLOSE, ClosePayload(INTERNAL_ERROR, PING_TIMEOUT_MESSAGE)));
  }

  /** One turn of the loop on a stranded connection: nothing happens unless a timer is due, whatever the socket says. */
  lemma StrandedTurn(env: Env, c: Conn, t: Turn)
    requires Invariant(c) && Beached(c)
    ensures var c' := DoTurn(env, c, t);
            if TimerDue(c, t.now) then c'.state == CLOSED else SameButPeriod(c, c')
  {
    hide PollTimers, PollWait, Dispatch, TimerDue, Stuck, TakeFrame, Conserves, Balanced, Core, Invariant,
         ClosingDelayExceeded;
    var c1 := PollTimers(env, c, t.now);
    TimersEndIt(env, c, t.now);
    TimersKeepBuffer(env, c, t.now);
    StaysUnsocketed(c, c1);
    var (c3, result) := Poll(env, c, t.now, t.input, t.later);
    assert result == Succeeded;
    if TimerDue(c, t.now) {
      StaysClosedInDispatch(env, c3, t.later);
    } else {
      assert c3 == c.(clock := c3.clock);
      NothingToDo(env, c3, t.later);
    }
  }

  lemma StaysUnsocketed(c: Conn, c': Conn)
    requires Writes(c, c') && !c.socket.open
    ensures !c'.socket.open
  {
  }

  lemma StaysClosedInDispatch(env: Env, c: Conn, now: int)
    requires c.state == CLOSED
    ensures Dispatch(env, c, Succeeded, now).state == CLOSED
  {
    hide DispatchLoop;
    ClosedIsSilent(env, c, now);
  }

  lemma NothingToDo(env: Env, c: Conn, now: int)
    requires Beached(c)
    ensures Dispatch(env, c, Succeeded, now) == c
  {
    hide NextFrame, Close;
  }

  /**
    * A stranded connection stays OPEN over any number of turns of the loop, with no report and nothing delivered,
    * exactly as long as no timer is due: without ping timers it stays so for good.
    */
  lemma {:induction false} StrandedIff(env: Env, c: Conn, ts: seq<Turn>)
    requires Invariant(c) && Beached(c)
    ensures var c' := DoTurns(env, c, ts);
            && (c'.state == OPEN <==> forall i | 0 <= i < |ts| :: !TimerDue(c, ts[i].now))
            && (c'.state == OPEN ==> c'.trace == c.trace && !c'.socket.open)
    decreases |ts|
  {
    hide DoTurn, Invariant, TimerDue, Beached, Conserves;
    if ts == [] {
      BeachedParts(c);
    } else {
      var c1 := DoTurn(env, c, ts[0]);
      StrandedTurn(env, c, ts[0]);
      if TimerDue(c, ts[0].now) {
        ClosedTurns(env, c, c1, ts);
      } else {
        SamePeriodBeached(c, c1);
        forall i | 0 <= i < |ts|
          ensures TimerDue(c1, ts[i].now) <==> TimerDue(c, ts[i].now)
        {
          SameTimers(c, c1, ts[i].now);
        }
        StrandedIff(env, c1, ts[1..]);
        assert forall i | 1 <= i < |ts| :: ts[i] == ts[1..][i - 1];
      }
    }
  }

  lemma BeachedParts(c: Conn)
    requires Beached(c)
    ensures c.state == OPEN && !c.socket.open
  {
  }

  lemma SamePeriodBeached(c: Conn, c': Conn)
    requires SameButPeriod(c, c') && Beached(c) && Invariant(c)
    ensures Beached(c') && Invariant(c')
  {
  }

  lemma SameTimers(c: Conn, c': Conn, now: int)
    requires SameButPeriod(c, c')
    ensures TimerDue(c', now) <==> TimerDue(c, now)
  {
  }

  lemma ClosedTurns(env: Env, c: Conn, c1: Conn, ts: seq<Turn>)
    requires Invariant(c) && ts != [] && c1 == DoTurn(env, c, ts[0]) && c1.state == CLOSED
    ensures DoTurns(env, c, ts).state == CLOSED
  {
    hide DoTurn, Core, Conserves, Balanced;
    TurnCore(env, c, ts[0]);
    TurnParts(c, c1);
    NeverReopens(env, c1, ts[1..]);
  }

  /** The input: a poll that meets a socket error leaves a connection OPEN without its socket and reports success. */
  lemma ErrorStrands(env: Env, c: Conn, now: int, later: int)
    requires c.state == OPEN && c.socket.open && !TimerDue(c, now)
    ensures var (c', result) := Poll(env, c, now, PollError, later);
            c'.state == OPEN && !c'.socket.open && result == Succeeded && c'.trace == c.trace
  {
    hide PollWait;
  }
}

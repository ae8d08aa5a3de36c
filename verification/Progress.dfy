/** Buffered bytes are written: what a poll sends, stated on the results of the socket writes. */
module Progress {
  import opened Wrappers
  import opened Bytes
  import opened Framing
  import opened Reassembly
  import opened Delivery
  import opened TransportSpec
  import opened TransportRuns
  import opened Session
  import opened CloseHandshake
  import opened EndToEnd

  // ------------------------------------------------------------------ the results of a run of writes

  /** The bytes that `m` writes from the one numbered `k` on take together. */
  function Sum(env: Env, k: nat, m: nat): (n: nat)
    decreases m
  {
    if m == 0 then 0 else (match env.writes(k) case Wrote(n) => n case _ => 0) + Sum(env, k + 1, m - 1)
  }

  /** How many of them block. */
  function Blocks(env: Env, k: nat, m: nat): (n: nat)
    decreases m
  {
    if m == 0 then 0 else (if env.writes(k).WouldBlock? then 1 else 0) + Blocks(env, k + 1, m - 1)
  }

  lemma {:induction false} RunsAdd(env: Env, k: nat, m: nat, m': nat)
    ensures Sum(env, k, m + m') == Sum(env, k, m) + Sum(env, k + m, m')
    ensures Blocks(env, k, m + m') == Blocks(env, k, m) + Blocks(env, k + m, m')
    decreases m
  {
    if m > 0 { RunsAdd(env, k + 1, m - 1, m'); }
  }

  /** From the write numbered `k` on every one takes something or blocks. */
  ghost predicate Writable(env: Env, k: nat) {
    forall i: nat | i >= k :: env.writes(i).WouldBlock? || (env.writes(i).Wrote? && env.writes(i).n > 0)
  }

  function Min(a: nat, b: nat): (m: nat) { if a < b then a else b }

  /**
    * From `c` to `c'` the writes made have taken as many of the buffered bytes as their results add up to, and no write
    * was made after the one that took the last byte.
    */
  predicate Moved(env: Env, c: Conn, c': Conn, m: nat) {
    var k := c.socket.attempts;
    var n := Min(|c.tx|, Sum(env, k, m));
    && c' == c.(tx := c.tx[n..], socket := Socket(c.socket.open, k + m, c.socket.accepted + c.tx[..n]))
    && (m > 0 ==> Sum(env, k, m - 1) < |c.tx|)
  }

  lemma OneMove(env: Env, c: Conn, m: nat, c': Conn)
    requires c.tx != [] && env.writes(c.socket.attempts).Wrote? && c.socket.open
    requires Moved(env, TakeBytes(c, Taken(env.writes(c.socket.attempts), |c.tx|)), c', m)
    ensures Moved(env, c, c', m + 1)
  {
  }

  /** sendOnSocket writes up to the first result that blocks, or until nothing is left. */
  lemma {:induction false} DrainMoves(env: Env, c: Conn) returns (m: nat)
    requires c.socket.open && Writable(env, c.socket.attempts)
    ensures var c', k := Drain(env, c), c.socket.attempts;
            && Moved(env, c, c', m)
            && Blocks(env, k, m) == (if c'.tx == [] then 0 else 1)
            && (c'.tx != [] ==> env.writes(k + m - 1).WouldBlock?)
    decreases |c.tx|
  {
    var k := c.socket.attempts;
    if c.tx == [] {
      m := 0;
    } else {
      var n := Taken(env.writes(k), |c.tx|);
      if n > 0 {
        var more := DrainMoves(env, TakeBytes(c, n));
        OneMove(env, c, more, Drain(env, c));
        m := more + 1;
      } else {
        m := 1;
        assert Sum(env, k, 1) == 0 && Blocks(env, k, 1) == 1;
      }
    }
  }

  lemma TakenTwice(c: Conn, n: nat, n': nat)
    requires n + n' <= |c.tx|
    ensures c.tx[n..][n'..] == c.tx[n + n'..]
    ensures c.socket.accepted + c.tx[..n] + c.tx[n..][..n'] == c.socket.accepted + c.tx[..n + n']
  {
    assert c.tx[..n] + c.tx[n..][..n'] == c.tx[..n + n'];
  }

  lemma MovesAdd(env: Env, a: Conn, b: Conn, c: Conn, m: nat, m': nat)
    requires Moved(env, a, b, m) && Moved(env, b, c, m')
    ensures Moved(env, a, c, m + m')
  {
    hide Sum;
    var k := a.socket.attempts;
    RunsAdd(env, k, m, m');
    if m' > 0 { RunsAdd(env, k, m, m' - 1); }
    TakenTwice(a, Min(|a.tx|, Sum(env, k, m)), Min(|b.tx|, Sum(env, k + m, m')));
  }

  /** How often the socket is found ready for a write. */
  function Ready(rs: seq<Readiness>): (n: nat) {
    if rs == [] then 0 else (if rs[0].WriteReady? then 1 else 0) + Ready(rs[1..])
  }

  /** The loop of poll makes writes until nothing is left, or until one has blocked each time the socket was ready. */
  lemma {:induction false} RequestMoves(env: Env, c: Conn, rs: seq<Readiness>) returns (m: nat)
    requires c.socket.open && !c.cancel && Writable(env, c.socket.attempts)
    requires forall i | 0 <= i < |rs| :: !rs[i].WritePollError?
    ensures var c', k := DrainRequest(env, c, rs), c.socket.attempts;
            && Moved(env, c, c', m)
            && Blocks(env, k, m) <= Ready(rs)
            && (c'.tx != [] ==> Blocks(env, k, m) == Ready(rs))
    decreases |rs|
  {
    hide Drain, Moved;
    var k := c.socket.attempts;
    if rs == [] || c.tx == [] {
      m := 0;
      NoMove(env, c);
    } else if rs[0].NotReady? {
      m := RequestMoves(env, c, rs[1..]);
    } else {
      var c1 := Drain(env, c);
      var m1 := DrainMoves(env, c);
      MovedParts(env, c, c1, m1);
      var m2 := RequestMoves(env, c1, rs[1..]);
      if c1.tx == [] { NothingMoves(env, c1, DrainRequest(env, c1, rs[1..]), m2); }
      MovesAdd(env, c, c1, DrainRequest(env, c1, rs[1..]), m1, m2);
      RunsAdd(env, k, m1, m2);
      m := m1 + m2;
    }
  }

  lemma NoMove(env: Env, c: Conn)
    ensures Moved(env, c, c, 0)
  {
  }

  lemma NothingMoves(env: Env, c: Conn, c': Conn, m: nat)
    requires Moved(env, c, c', m) && c.tx == []
    ensures m == 0 && c' == c
  {
  }

  lemma MovedParts(env: Env, c: Conn, c': Conn, m: nat)
    requires Moved(env, c, c', m)
    ensures c'.socket.open == c.socket.open && c'.socket.attempts == c.socket.attempts + m && c'.cancel == c.cancel
    ensures c'.socket.accepted + c'.tx == c.socket.accepted + c.tx && |c'.tx| <= |c.tx|
  {
    assert c.tx == c.tx[..|c.tx| - |c'.tx|] + c'.tx;
  }

  /** A socket that fails while poll waits for it closes the connection as stored, unless nothing is left. */
  lemma RequestFails(env: Env, c: Conn, rs: seq<Readiness>)
    requires c.socket.open && !c.cancel && c.state != CLOSED && rs != [] && rs[0].WritePollError?
    ensures var c' := DrainRequest(env, c, rs);
            if c.tx == [] then c' == c
            else c'.state == CLOSED && !c'.socket.open && c'.tx == c.tx
                 && c'.trace.reports == c.trace.reports + [c.close]
  {
  }

  // ------------------------------------------------------------------ one poll

  /** Neither the ping timeout nor the ping interval has run out. */
  predicate Quiet(c: Conn, now: int) {
    && (c.cfg.pingTimeout <= 0 || now - c.clock.lastPong <= c.cfg.pingTimeout * 1_000_000_000)
    && (c.cfg.pingInterval <= 0 || now - c.clock.lastPing <= c.cfg.pingInterval * 1_000_000_000)
  }

  /** An open connection on an open socket that has not been asked to stop. */
  predicate Live(c: Conn) { c.state == OPEN && c.socket.open && !c.cancel }

  lemma QuietPoll(env: Env, c: Conn, now: int, input: PollInput, later: int) returns (next: int)
    requires Live(c) && Quiet(c, now)
    ensures PollTimers(env, c, now) == c
    ensures var c2 := c.(clock := c.clock.(nextGcd := next));
            var c3 := ApplyInput(env, c2, input);
            Poll(env, c, now, input, later)
            == if Gone(input) then (c3, AbnormalClose) else (CheckClosingDelay(c3, later), Succeeded)
  {
    hide ApplyInput, CheckClosingDelay, PollWait;
    next := PollWait(c, now).1;
  }

  /**
    * What a poll writes while no timer is due: it goes on until the buffer is empty or until a write has blocked each
    * time the socket was ready, and what it moves is the sum of the results of those writes.
    */
  lemma PollMoves(env: Env, c: Conn, now: int, rs: seq<Readiness>, later: int) returns (m: nat)
    requires Live(c) && Quiet(c, now) && Writable(env, c.socket.attempts)
    requires forall i | 0 <= i < |rs| :: !rs[i].WritePollError?
    ensures var c', k := Poll(env, c, now, SendRequest(rs), later).0, c.socket.attempts;
            var n := Min(|c.tx|, Sum(env, k, m));
            && c'.state == OPEN && c'.log == c.log && c'.rx == c.rx
            && c'.tx == c.tx[n..] && c'.socket == Socket(true, k + m, c.socket.accepted + c.tx[..n])
            && (m > 0 ==> Sum(env, k, m - 1) < |c.tx|)
            && Blocks(env, k, m) <= Ready(rs)
            && (c'.tx != [] ==> Blocks(env, k, m) == Ready(rs))
  {
    hide DrainRequest, Poll;
    var next := QuietPoll(env, c, now, SendRequest(rs), later);
    m := RequestMoves(env, c.(clock := c.clock.(nextGcd := next)), rs);
  }

  /** From the write numbered `k` on every one takes something. */
  ghost predicate Taking(env: Env, k: nat) { forall i: nat | i >= k :: env.writes(i).Wrote? && env.writes(i).n > 0 }

  /** A socket that takes something every time takes everything. */
  lemma {:induction false} DrainEmpties(env: Env, c: Conn)
    requires c.socket.open && Taking(env, c.socket.attempts)
    ensures var c' := Drain(env, c);
            && c'.tx == [] && c'.socket.accepted == c.socket.accepted + c.tx && c'.socket.open
            && c'.socket.attempts >= c.socket.attempts && c'.log == c.log && c'.state == c.state
            && c'.cancel == c.cancel
    decreases |c.tx|
  {
    if c.tx != [] {
      var n := Taken(env.writes(c.socket.attempts), |c.tx|);
      DrainEmpties(env, TakeBytes(c, n));
      assert c.tx == c.tx[..n] + c.tx[n..];
    }
  }

  lemma {:induction false} SendEmpties(env: Env, c: Conn, fs: seq<Frame>)
    requires c.socket.open && Taking(env, c.socket.attempts)
    ensures var c' := SendFragments(env, c, fs);
            && (fs != [] ==> c'.tx == []) && c.socket.accepted <= c'.socket.accepted && c'.socket.open
            && (fs != [] ==> c.socket.accepted + c.tx <= c'.socket.accepted)
            && c'.socket.attempts >= c.socket.attempts && c'.state == c.state && c'.cancel == c.cancel
    decreases |fs|
  {
    hide Drain, Encode;
    if fs != [] {
      var c1 := Append(c, OnWire(env, c, fs[0])).(drawn := c.drawn + 1);
      DrainEmpties(env, c1);
      assert c.socket.accepted + c1.tx == (c.socket.accepted + c.tx) + Encode(OnWire(env, c, fs[0]));
      SendEmpties(env, SendFragment(env, c, fs[0]), fs[1..]);
    }
  }

  /**
    * One poll that finds the socket ready once, with every write taking something, leaves nothing in the send buffer,
    * whether a ping is due or not.
    */
  lemma PollEmpties(env: Env, c: Conn, now: int, later: int)
    requires Live(c) && Taking(env, c.socket.attempts)
    requires c.cfg.pingTimeout <= 0 || now - c.clock.lastPong <= c.cfg.pingTimeout * 1_000_000_000
    ensures var c' := Poll(env, c, now, SendRequest([WriteReady]), later).0;
            && c'.state == OPEN && c'.tx == [] && c.socket.accepted + c.tx <= c'.socket.accepted
            && (Quiet(c, now) ==> c'.socket.accepted == c.socket.accepted + c.tx)
  {
    hide Drain, SendFragments, HeartbeatMessage, Fragments;
    var c1 := PollTimers(env, c, now);
    if PingIntervalExceeded(c, now) {
      SendEmpties(env, c, Fragments(PING, false, HeartbeatMessage(c)));
    }
    var c2 := c1.(clock := c1.clock.(nextGcd := PollWait(c1, now).1));
    DrainEmpties(env, c2);
    assert [WriteReady][1..] == [];
    assert DrainRequest(env, c2, [WriteReady]) == if c2.tx == [] then c2 else DrainRequest(env, Drain(env, c2), []);
  }

  // ------------------------------------------------------------------ enough waits

  ghost predicate TakesAfter(env: Env, k: nat) { exists i: nat :: i >= k && env.writes(i).Wrote? }

  /** Again and again the socket takes something. */
  ghost predicate Flowing(env: Env) { NoErrors(env) && forall k: nat :: TakesAfter(env, k) }

  lemma DrainShrinks(env: Env, c: Conn)
    requires c.socket.open && NoErrors(env) && c.tx != []
    ensures var c', k := Drain(env, c), c.socket.attempts;
            && c'.socket.open && c'.cancel == c.cancel && c'.socket.attempts > k && |c'.tx| <= |c.tx|
            && (if env.writes(k).Wrote? then |c'.tx| < |c.tx| else c' == TakeBytes(c, 0))
  {
    var k := c.socket.attempts;
    assert env.writes(k).WouldBlock? || (env.writes(k).Wrote? && env.writes(k).n > 0);
    if env.writes(k).Wrote? {
      var c1 := TakeBytes(c, Taken(env.writes(k), |c.tx|));
      var m := DrainMoves(env, c1);
      MovedParts(env, c1, Drain(env, c1), m);
    }
  }

  /** On such a socket some number of waits empties the buffer; the next write that takes something is number `i`. */
  lemma {:induction false} EnoughWaits(env: Env, c: Conn, i: nat) returns (rs: seq<Readiness>)
    requires c.socket.open && !c.cancel && Flowing(env)
    requires i >= c.socket.attempts && env.writes(i).Wrote?
    ensures DrainRequest(env, c, rs).tx == [] && forall j | 0 <= j < |rs| :: rs[j].WriteReady?
    decreases |c.tx|, i - c.socket.attempts
  {
    hide Drain;
    if c.tx == [] {
      rs := [];
    } else {
      var c1, k := Drain(env, c), c.socket.attempts;
      DrainShrinks(env, c);
      var j: nat := i;
      if env.writes(k).Wrote? {
        assert TakesAfter(env, c1.socket.attempts);
        j :| j >= c1.socket.attempts && env.writes(j).Wrote?;
      } else {
        assert k != i;
      }
      var more := EnoughWaits(env, c1, j);
      rs := [WriteReady] + more;
      assert rs[1..] == more;
    }
  }

  /** Draining an open socket without errors changes nothing but the buffer and the socket. */
  lemma {:induction false} RequestKeeps(env: Env, c: Conn, rs: seq<Readiness>)
    requires c.socket.open && NoErrors(env) && (forall i | 0 <= i < |rs| :: rs[i].WriteReady?)
    ensures var c' := DrainRequest(env, c, rs);
            c' == c.(tx := c'.tx, socket := c'.socket) && c'.socket.open
    decreases |rs|
  {
    hide Drain;
    if rs != [] {
      var m := DrainMoves(env, c);
      RequestKeeps(env, Drain(env, c), rs[1..]);
    }
  }

  // ------------------------------------------------------------------ ends that are still open

  lemma CoreReflexive(c: Conn)
    ensures Core(c, c)
  {
  }

  lemma LocalCore(env: Env, e: End, l: Local)
    requires EndOk(env, e)
    ensures Core(e.conn, DoLocal(env, e, l).conn)
  {
    hide Core, Do, SendFragment, Conserves, Balanced, WellWritten, FramesOf, Writes;
    CoreReflexive(e.conn);
    match l
    case Begin(opcode, payload) =>
    case Push =>
      if e.current.Some? {
        SendFragmentWrites(env, e.conn, FramesOf(e.current.value)[e.next]);
        WritesAreCore(e.conn, PushFragment(env, e).conn);
      }
    case Other(step) =>
      if Allowed(step) {
        AllowedExtends(env, e.conn, step);
      }
  }

  lemma StepCores(envA: Env, envB: Env, s: Net, step: NetStep, startA: Reader, startB: Reader)
    requires NetOk(envA, envB, s, startA, startB)
    ensures var t := NetDo(envA, envB, s, step); Core(s.a.conn, t.a.conn) && Core(s.b.conn, t.b.conn)
  {
    hide Core, EndOk, Direction, DoLocal, ReadPoll, DropsLocally, Readable, Drops;
    CoreReflexive(s.a.conn);
    CoreReflexive(s.b.conn);
    match step
    case AtA(l) => LocalCore(envA, s.a, l);
    case AtB(l) => LocalCore(envB, s.b, l);
    case ReadAtA(n, gone, now, later) =>
      ReadPolls(envA, s.a, Piece(s.b.conn.socket.accepted, s.inA.got, n), gone, now, later);
    case ReadAtB(n, gone, now, later) =>
      ReadPolls(envB, s.b, Piece(s.a.conn.socket.accepted, s.inB.got, n), gone, now, later);
  }

  lemma {:induction false} RunCores(envA: Env, envB: Env, s: Net, steps: seq<NetStep>, startA: Reader, startB: Reader)
    requires NetOk(envA, envB, s, startA, startB)
    ensures var t := NetRun(envA, envB, s, steps); Core(s.a.conn, t.a.conn) && Core(s.b.conn, t.b.conn)
    decreases |steps|
  {
    hide Core, NetOk, NetDo;
    CoreReflexive(s.a.conn);
    CoreReflexive(s.b.conn);
    if steps != [] {
      var s1 := NetDo(envA, envB, s, steps[0]);
      StepCores(envA, envB, s, steps[0], startA, startB);
      StepKeepsNet(envA, envB, s, steps[0], startA, startB);
      RunCores(envA, envB, s1, steps[1..], startA, startB);
      var t := NetRun(envA, envB, s1, steps[1..]);
      CoreTransitive(s.a.conn, s1.a.conn, t.a.conn);
      CoreTransitive(s.b.conn, s1.b.conn, t.b.conn);
    }
  }

  /** What `Core` says of a connection that is open in the end. */
  lemma OpenThroughout(c: Conn, c': Conn)
    requires Core(c, c') && c.state != CONNECTING && c'.state == OPEN
    ensures c.state == OPEN && c'.cancel == c.cancel && (c'.socket.open ==> c.socket.open)
  {
  }

  lemma OpenCallsNoClose(env: Env, e: End, l: Local)
    requires EndOk(env, e) && DoLocal(env, e, l).conn.state == OPEN
    ensures ShortLocal(l)
  {
    hide Conserves, Balanced, WellWritten, MessagesOk, Close;
    if l.Other? && l.step.CloseCall? {
      CloseWrites(env, e.conn, l.step.code, l.step.reason, 0, l.step.now);
    }
  }

  /** In a run after which both ends are open no end has called close. */
  lemma {:induction false} OpenNeverClosed(envA: Env, envB: Env, s: Net, steps: seq<NetStep>,
                                           startA: Reader, startB: Reader)
    requires NetOk(envA, envB, s, startA, startB)
    requires var t := NetRun(envA, envB, s, steps); t.a.conn.state == OPEN && t.b.conn.state == OPEN
    ensures ShortCloses(steps)
    decreases |steps|
  {
    hide Core, Direction, EndOk, DoLocal, ReadStep, ShortLocal;
    if steps != [] {
      var s1 := NetDo(envA, envB, s, steps[0]);
      StepKeepsNet(envA, envB, s, steps[0], startA, startB);
      OpenNeverClosed(envA, envB, s1, steps[1..], startA, startB);
      RunCores(envA, envB, s1, steps[1..], startA, startB);
      var t := NetRun(envA, envB, s1, steps[1..]);
      EndIsInvariant(envA, s1.a);
      EndIsInvariant(envB, s1.b);
      OpenThroughout(s1.a.conn, t.a.conn);
      OpenThroughout(s1.b.conn, t.b.conn);
      if steps[0].AtA? { OpenCallsNoClose(envA, s.a, steps[0].l); }
      if steps[0].AtB? { OpenCallsNoClose(envB, s.b, steps[0].l); }
      assert forall i | 1 <= i < |steps| :: steps[i] == steps[1..][i - 1];
    }
  }

  // ------------------------------------------------------------------ a schedule that delivers

  /** The messages that an end has begun to send. */
  function Begun(e: End): (ms: seq<Sent>) { e.done + if e.current.Some? then [e.current.value] else [] }

  /** A step of one end on its own. */
  function At(left: bool, l: Local): (step: NetStep) { if left then AtA(l) else AtB(l) }

  function WithEnd(s: Net, left: bool, e: End): (t: Net) { if left then s.(a := e) else s.(b := e) }

  function EndOf(s: Net, left: bool): (e: End) { if left then s.a else s.b }

  lemma {:induction false} RunAppends(envA: Env, envB: Env, s: Net, x: seq<NetStep>, y: seq<NetStep>)
    ensures NetRun(envA, envB, s, x + y) == NetRun(envA, envB, NetRun(envA, envB, s, x), y)
    decreases |x|
  {
    hide NetDo;
    if x == [] {
      assert x + y == y;
    } else {
      assert (x + y)[0] == x[0] && (x + y)[1..] == x[1..] + y;
      RunAppends(envA, envB, NetDo(envA, envB, s, x[0]), x[1..], y);
    }
  }

  lemma RunOne(envA: Env, envB: Env, s: Net, step: NetStep)
    ensures NetRun(envA, envB, s, [step]) == NetDo(envA, envB, s, step)
  {
    hide NetDo;
    assert [step][1..] == [];
  }

  lemma {:induction false} RunPushes(envA: Env, envB: Env, s: Net, left: bool, k: nat)
    ensures NetRun(envA, envB, s, seq(k, _ => At(left, Push)))
         == WithEnd(s, left, PushAll(if left then envA else envB, EndOf(s, left), k))
    decreases k
  {
    hide PushFragment;
    var steps := seq(k, _ => At(left, Push));
    if k > 0 {
      assert steps[1..] == seq(k - 1, _ => At(left, Push));
      RunPushes(envA, envB, NetDo(envA, envB, s, steps[0]), left, k - 1);
    }
  }

  lemma CalmKeepsSocket(c: Conn, c': Conn)
    requires Calm(c, c')
    ensures c'.state == c.state && c'.socket.open == c.socket.open
  {
  }

  /** Pushing the fragments that are left completes the message and leaves the connection open. */
  lemma PushesComplete(env: Env, e: End) returns (k: nat)
    requires EndOk(env, e) && NoErrors(env) && Live(e.conn)
    ensures var e' := PushAll(env, e, k);
            e'.conn.state == OPEN && e'.conn.socket.open && e'.current.None? && e'.done == Begun(e)
  {
    hide Invariant, WellWritten, Calm, SendFragments, FramesOf, NoErrors, WellSent;
    if e.current.None? {
      k := 0;
      assert e.done + [] == e.done;
    } else {
      var m := e.current.value;
      var fs := FramesOf(m);
      k := |fs| - e.next;
      PushAllIsSendFragments(env, e, m);
      forall i | 0 <= i < |fs|
        ensures Harmless(fs[i])
      {
        FragmentHarmless(env.codec, e.conn.cfg.deflate, m, i);
      }
      FragmentsCalm(env, e.conn, fs[e.next..]);
      CalmKeepsSocket(e.conn, SendFragments(env, e.conn, fs[e.next..]));
    }
  }

  lemma FragmentHarmless(codec: Codec, deflate: bool, m: Sent, i: nat)
    requires WellSent(codec, deflate, m) && i < |FramesOf(m)|
    ensures Harmless(FramesOf(m)[i])
  {
    assert FramesOf(m)[i] == Fragment(m.opcode, m.compress, m.wire, i);
  }

  /** A time at which no timer is due. */
  function Early(c: Conn): (now: int)
    ensures Quiet(c, now)
  {
    if c.clock.lastPing < c.clock.lastPong then c.clock.lastPing else c.clock.lastPong
  }

  /** One poll, with enough waits, empties the send buffer and changes nothing else but the socket and the clock. */
  lemma FlushStep(env: Env, e: End, inbox: Inbox) returns (l: Local)
    requires Live(e.conn) && Flowing(env)
    ensures var (e', inbox') := LocalStep(env, e, inbox, l);
            && inbox' == inbox && Live(e'.conn) && e'.conn.tx == []
            && e' == e.(conn := e.conn.(tx := [], socket := e'.conn.socket, clock := e'.conn.clock))
  {
    hide DrainRequest, Poll, Drops, Exhausted;
    var c := e.conn;
    var k := c.socket.attempts;
    assert TakesAfter(env, k);
    var i: nat :| i >= k && env.writes(i).Wrote?;
    var rs := EnoughWaits(env, c, i);
    var next := QuietPoll(env, c, Early(c), SendRequest(rs), 0);
    var c2 := c.(clock := c.clock.(nextGcd := next));
    SameRequest(env, c, c2, rs);
    RequestKeeps(env, c2, rs);
    l := Other(PollCall(Early(c), SendRequest(rs), 0));
    assert c.rx + [] == c.rx;
    KeptIsNotDropped(c, Poll(env, c, Early(c), SendRequest(rs), 0).0, []);
  }

  lemma {:induction false} SameDrain(env: Env, c: Conn, clock: Clock)
    ensures Drain(env, c.(clock := clock)) == Drain(env, c).(clock := clock)
    decreases |c.tx|
  {
    if c.tx != [] {
      var n := Taken(NextWrite(env, c), |c.tx|);
      if n > 0 {
        SameDrain(env, TakeBytes(c, n), clock);
        assert TakeBytes(c.(clock := clock), n) == TakeBytes(c, n).(clock := clock);
      }
    }
  }

  lemma {:induction false} SameRequest(env: Env, c: Conn, c2: Conn, rs: seq<Readiness>)
    requires c2 == c.(clock := c2.clock)
    ensures DrainRequest(env, c2, rs) == DrainRequest(env, c, rs).(clock := c2.clock)
    decreases |rs|
  {
    hide Drain;
    if rs != [] {
      SameDrain(env, c, c2.clock);
      SameRequest(env, c, c2, rs[1..]);
      SameRequest(env, Drain(env, c), Drain(env, c).(clock := c2.clock), rs[1..]);
    }
  }

  /** One poll reads everything that has been sent and not yet read. */
  lemma FetchStep(env: Env, e: End, inbox: Inbox, stream: bytes)
    requires Live(e.conn) && inbox.got <= |stream|
    ensures var (e', inbox') := ReadStep(env, e, inbox, stream, |stream| - inbox.got, false, Early(e.conn), 0);
            && inbox' == inbox.(got := |stream|) && Live(e'.conn)
            && e' == e.(conn := e.conn.(rx := e'.conn.rx, clock := e'.conn.clock))
  {
    hide Poll, PollTimers, Drops, Exhausted;
    var c := e.conn;
    var piece := Piece(stream, inbox.got, |stream| - inbox.got);
    var next := QuietPoll(env, c, Early(c), ReadyForRead([piece], false), 0);
    OnePiece(piece);
    KeptIsNotDropped(c, Poll(env, c, Early(c), ReadyForRead([piece], false), 0).0, piece);
  }

  lemma LiveAfter(c: Conn, c': Conn)
    requires Live(c) && Core(c, c') && c'.state == OPEN && c'.socket.open
    ensures Live(c')
  {
  }

  lemma FinishSending(envA: Env, envB: Env, s: Net, startA: Reader, startB: Reader) returns (x: seq<NetStep>)
    requires NetOk(envA, envB, s, startA, startB) && NoErrors(envA) && NoErrors(envB)
    requires Live(s.a.conn) && Live(s.b.conn)
    ensures var u := NetRun(envA, envB, s, x);
            && Live(u.a.conn) && Live(u.b.conn) && u.a.current.None? && u.b.current.None?
            && u.a.done == Begun(s.a) && u.b.done == Begun(s.b)
  {
    hide EndOk, Direction, NetRun, PushAll, NoErrors, Core;
    var i := PushesComplete(envA, s.a);
    var j := PushesComplete(envB, s.b);
    var y, z := seq(i, _ => At(true, Push)), seq(j, _ => At(false, Push));
    RunPushes(envA, envB, s, true, i);
    RunPushes(envA, envB, NetRun(envA, envB, s, y), false, j);
    RunAppends(envA, envB, s, y, z);
    x := y + z;
    var u := NetRun(envA, envB, s, x);
    RunCores(envA, envB, s, x, startA, startB);
    LiveAfter(s.a.conn, u.a.conn);
    LiveAfter(s.b.conn, u.b.conn);
  }

  lemma RunFour(envA: Env, envB: Env, s: Net, w: NetStep, x: NetStep, y: NetStep, z: NetStep)
    ensures NetRun(envA, envB, s, [w, x, y, z])
         == NetDo(envA, envB, NetDo(envA, envB, NetDo(envA, envB, NetDo(envA, envB, s, w), x), y), z)
  {
    hide NetDo, NetRun;
    var s1 := NetDo(envA, envB, s, w);
    var s2 := NetDo(envA, envB, s1, x);
    RunAppends(envA, envB, s, [w] + [x] + [y], [z]);
    RunAppends(envA, envB, s, [w] + [x], [y]);
    RunAppends(envA, envB, s, [w], [x]);
    RunOne(envA, envB, s, w);
    RunOne(envA, envB, s1, x);
    RunOne(envA, envB, s2, y);
    RunOne(envA, envB, NetDo(envA, envB, s2, y), z);
    assert [w] + [x] + [y] + [z] == [w, x, y, z];
  }

  /** Each end flushes its buffer, then each reads all that the other has sent. */
  lemma Exchange(envA: Env, envB: Env, s: Net, startA: Reader, startB: Reader) returns (x: seq<NetStep>)
    requires NetOk(envA, envB, s, startA, startB) && Flowing(envA) && Flowing(envB)
    requires Live(s.a.conn) && Live(s.b.conn)
    ensures var u := NetRun(envA, envB, s, x);
            && Live(u.a.conn) && Live(u.b.conn) && u.a.conn.tx == [] && u.b.conn.tx == []
            && u.a.done == s.a.done && u.b.done == s.b.done && u.a.current == s.a.current && u.b.current == s.b.current
            && u.inB.got == |u.a.conn.socket.accepted| && u.inA.got == |u.b.conn.socket.accepted|
  {
    hide EndOk, HasRead, LocalStep, ReadStep, NetRun, Flowing;
    var p := FlushStep(envA, s.a, s.inA);
    var s1 := NetDo(envA, envB, s, AtA(p));
    var q := FlushStep(envB, s.b, s.inB);
    var s2 := NetDo(envA, envB, s1, AtB(q));
    StepKeepsNet(envA, envB, s, AtA(p), startA, startB);
    StepKeepsNet(envA, envB, s1, AtB(q), startA, startB);
    var toA, toB := s2.b.conn.socket.accepted, s2.a.conn.socket.accepted;
    var y := ReadAtA(|toA| - s2.inA.got, false, Early(s2.a.conn), 0);
    var z := ReadAtB(|toB| - s2.inB.got, false, Early(s2.b.conn), 0);
    FetchStep(envA, s2.a, s2.inA, toA);
    FetchStep(envB, s2.b, s2.inB, toB);
    RunFour(envA, envB, s, AtA(p), AtB(q), y, z);
    x := [AtA(p), AtB(q), y, z];
  }

  lemma DispatchReads(env: Env, e: End, inbox: Inbox, start: Reader, stream: bytes)
    requires EndOk(env, e) && HasRead(env, e.conn, start, stream, inbox.lost) && e.conn.state == OPEN
    ensures var (e', inbox') := LocalStep(env, e, inbox, Other(DispatchCall(Succeeded, 0)));
            inbox' == inbox && !inbox.lost && Exhausted(e'.conn.rx, e'.conn.cfg.deflate)
            && e' == e.(conn := e'.conn)
  {
    hide Dispatch, HasRead, Conserves, Balanced, WellWritten, MessagesOk, Exhausted, Core, ControlExtends;
    DispatchKeepsRead(env, e.conn, Succeeded, 0, start, stream, inbox.lost);
    OpenLosesNothing(env, e.conn, start, stream, inbox.lost);
    DispatchCore(env, e.conn, Succeeded, 0);
    CoreKeepsConfig(e.conn, Dispatch(env, e.conn, Succeeded, 0));
  }

  lemma AllSent(c: Conn)
    requires Conserves(c) && c.tx == []
    ensures c.socket.accepted == EncodeAll(c.log)
  {
    assert c.socket.accepted + [] == c.socket.accepted;
  }

  /** A dispatch of everything that the other end has sent delivers every message that it has completed. */
  lemma DispatchDelivers(writerEnv: Env, writer: End, env: Env, e: End, inbox: Inbox, start: Reader)
    requires EndOk(writerEnv, writer) && EndOk(env, e) && Direction(env, e.conn, start, writer.conn, inbox)
    requires env.codec == writerEnv.codec && Lossless(env.codec) && Idle(start)
    requires e.conn.cfg.deflate == writer.conn.cfg.deflate && SingleControls(writer.conn.log) && e.conn.state == OPEN
    requires writer.conn.tx == [] && inbox.got == |writer.conn.socket.accepted|
    ensures var e' := LocalStep(env, e, inbox, Other(DispatchCall(Succeeded, 0))).0;
            Messages(e'.conn.trace.delivered) == ExpectedAll(writer.done) && e' == e.(conn := e'.conn)
  {
    hide HasRead, LocalStep, EncodeAll, Exhausted, SingleControls, ExpectedAll, Balanced, WellWritten, MessagesOk;
    var l := Other(DispatchCall(Succeeded, 0));
    var e' := LocalStep(env, e, inbox, l).0;
    DispatchReads(env, e, inbox, start, writer.conn.socket.accepted[..inbox.got]);
    AllSent(writer.conn);
    LocalKeepsRead(env, e, inbox, l, start, writer.conn.socket.accepted[..inbox.got]);
    LocalKeepsConfig(env, e, l);
    LocalIs(env, e, inbox, l);
    DirectionDelivers(writerEnv, writer, env, e'.conn, start, inbox);
  }

  lemma LocalIs(env: Env, e: End, inbox: Inbox, l: Local)
    ensures LocalStep(env, e, inbox, l).0 == DoLocal(env, e, l)
  {
  }

  /** Both ends have sent, flushed and read everything: the state before the two dispatches of `EverythingArrives`. */
  lemma Prepare(envA: Env, envB: Env, s: Net, startA: Reader, startB: Reader) returns (x: seq<NetStep>)
    requires NetOk(envA, envB, s, startA, startB) && Flowing(envA) && Flowing(envB)
    requires Live(s.a.conn) && Live(s.b.conn)
    ensures var u := NetRun(envA, envB, s, x);
            && Live(u.a.conn) && Live(u.b.conn) && u.a.conn.tx == [] && u.b.conn.tx == []
            && u.a.current.None? && u.b.current.None? && u.a.done == Begun(s.a) && u.b.done == Begun(s.b)
            && u.inB.got == |u.a.conn.socket.accepted| && u.inA.got == |u.b.conn.socket.accepted|
  {
    hide NetOk, NetRun, Live;
    var y := FinishSending(envA, envB, s, startA, startB);
    RunKeepsNet(envA, envB, s, y, startA, startB);
    var z := Exchange(envA, envB, NetRun(envA, envB, s, y), startA, startB);
    RunAppends(envA, envB, s, y, z);
    x := y + z;
  }

  /** With everything read, one dispatch at each end delivers all that the other has completed. */
  lemma DispatchBoth(envA: Env, envB: Env, s: Net, startA: Reader, startB: Reader)
    requires NetOk(envA, envB, s, startA, startB) && Singles(s) && Idle(startA) && Idle(startB)
    requires envA.codec == envB.codec && Lossless(envA.codec)
    requires s.a.conn.state == OPEN && s.b.conn.state == OPEN && s.a.conn.tx == [] && s.b.conn.tx == []
    requires s.inB.got == |s.a.conn.socket.accepted| && s.inA.got == |s.b.conn.socket.accepted|
    ensures var l := Other(DispatchCall(Succeeded, 0));
            var u := NetRun(envA, envB, s, [AtA(l), AtB(l)]);
            && Messages(u.b.conn.trace.delivered) == ExpectedAll(s.a.done)
            && Messages(u.a.conn.trace.delivered) == ExpectedAll(s.b.done)
            && u.a == s.a.(conn := u.a.conn) && u.b == s.b.(conn := u.b.conn)
  {
    hide EndOk, Direction, LocalStep, NetRun, SingleControls, AtBoundary, ExpectedAll;
    var l := Other(DispatchCall(Succeeded, 0));
    DispatchDelivers(envA, s.a, envB, s.b, s.inB, startB);
    DispatchDelivers(envB, s.b, envA, s.a, s.inA, startA);
    RunAppends(envA, envB, s, [AtA(l)], [AtB(l)]);
    RunOne(envA, envB, s, AtA(l));
    RunOne(envA, envB, NetDo(envA, envB, s, AtA(l)), AtB(l));
    assert [AtA(l)] + [AtB(l)] == [AtA(l), AtB(l)];
  }

  /**
    * Nothing gets stuck: after every run of two connected transports that leaves both ends open, on sockets without
    * write errors that take something again and again, some further steps deliver to each end every message that the
    * other has begun to send, whatever is buffered, blocked or half read at that point.
    */
  lemma EverythingArrives(envA: Env, envB: Env, s: Net, steps: seq<NetStep>) returns (more: seq<NetStep>)
    requires Initial(s) && envA.codec == envB.codec && Lossless(envA.codec) && Flowing(envA) && Flowing(envB)
    requires !s.a.conn.cancel && !s.b.conn.cancel
    requires var t := NetRun(envA, envB, s, steps);
             && t.a.conn.state == OPEN && t.a.conn.socket.open && t.b.conn.state == OPEN && t.b.conn.socket.open
    ensures var t, u := NetRun(envA, envB, s, steps), NetRun(envA, envB, s, steps + more);
            && u.a.done == Begun(t.a) && u.b.done == Begun(t.b)
            && Messages(u.b.conn.trace.delivered) == ExpectedAll(Begun(t.a))
            && Messages(u.a.conn.trace.delivered) == ExpectedAll(Begun(t.b))
  {
    hide EndOk, Direction, NetRun, Singles, ExpectedAll, ShortCloses, AtBoundary, SingleControls, Flowing, Core;
    var startA, startB := s.a.conn.reader, s.b.conn.reader;
    InitialOk(envA, envB, s);
    RunKeepsNet(envA, envB, s, steps, startA, startB);
    RunCores(envA, envB, s, steps, startA, startB);
    var t := NetRun(envA, envB, s, steps);
    OpenThroughout(s.a.conn, t.a.conn);
    OpenThroughout(s.b.conn, t.b.conn);
    var x := Prepare(envA, envB, t, startA, startB);
    RunAppends(envA, envB, s, steps, x);
    RunKeepsNet(envA, envB, s, steps + x, startA, startB);
    OpenNeverClosed(envA, envB, s, steps + x, startA, startB);
    NewIsSingle(s);
    RunStaysSingle(envA, envB, s, steps + x, startA, startB);
    var l := Other(DispatchCall(Succeeded, 0));
    DispatchBoth(envA, envB, NetRun(envA, envB, s, steps + x), startA, startB);
    RunAppends(envA, envB, s, steps + x, [AtA(l), AtB(l)]);
    more := x + [AtA(l), AtB(l)];
    assert steps + more == (steps + x) + [AtA(l), AtB(l)];
  }

  lemma NewIsSingle(s: Net)
    requires Initial(s)
    ensures Singles(s)
  {
    hide SingleControls, AtBoundary;
    NothingIsSingle(s.a.conn, s.b.conn);
    NothingIsSingle(s.b.conn, s.a.conn);
  }
}

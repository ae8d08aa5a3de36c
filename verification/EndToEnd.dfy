/** End-to-end delivery between two transports. */
module EndToEnd {
  import opened Bytes
  import opened Framing
  import opened Reassembly
  import opened Delivery
  import opened TransportSpec
  import opened TransportRuns
  import opened Session

  /**
    * What has reached an end: how many of the bytes accepted by the peer's socket it has read, whether a read has found
    * the peer gone, and whether a poll has thrown away frames that it had read.
    */
  datatype Inbox = Inbox(got: nat, gone: bool, lost: bool)

  /** Two ends and their inboxes. */
  datatype Net = Net(a: End, b: End, inA: Inbox, inB: Inbox)

  /**
    * What an end does on its own, dispatch included, or a poll that reads some of the bytes that its peer has sent. In
    * the source a poll and the dispatch after it are two calls, between which other threads may write.
    */
  datatype NetStep =
    | AtA(l: Local)
    | AtB(l: Local)
    | ReadAtA(n: nat, gone: bool, now: int, later: int)
    | ReadAtB(n: nat, gone: bool, now: int, later: int)

  /** The next bytes of a stream of which `got` have been delivered: at most `n` of them. */
  function Piece(stream: bytes, got: nat, n: nat): (r: bytes) {
    if got > |stream| then []
    else if got + n <= |stream| then stream[got..got + n]
    else stream[got..]
  }

  function LocalStep(env: Env, e: End, inbox: Inbox, l: Local): (r: (End, Inbox)) {
    var e' := DoLocal(env, e, l);
    (e', if l.Other? && DropsLocally(e.conn, e'.conn, l.step) then inbox.(lost := true) else inbox)
  }

  /** One poll that reads at most `n` of the bytes under way. */
  function ReadStep(env: Env, e: End, inbox: Inbox, stream: bytes, n: nat, gone: bool, now: int, later: int)
    : (r: (End, Inbox))
  {
    var piece := Piece(stream, inbox.got, n);
    var p := Readable(env, e.conn, piece, now);
    var (c', result) := ReadPoll(env, e.conn, piece, gone, now, later);
    (e.(conn := c'),
     Inbox(inbox.got + |p|, inbox.gone || result == AbnormalClose, inbox.lost || Drops(e.conn, c', p)))
  }

  function NetDo(envA: Env, envB: Env, s: Net, step: NetStep): (s': Net) {
    match step
    case AtA(l) =>
      var (e, inbox) := LocalStep(envA, s.a, s.inA, l);
      s.(a := e, inA := inbox)
    case AtB(l) =>
      var (e, inbox) := LocalStep(envB, s.b, s.inB, l);
      s.(b := e, inB := inbox)
    case ReadAtA(n, gone, now, later) =>
      var (e, inbox) := ReadStep(envA, s.a, s.inA, s.b.conn.socket.accepted, n, gone, now, later);
      s.(a := e, inA := inbox)
    case ReadAtB(n, gone, now, later) =>
      var (e, inbox) := ReadStep(envB, s.b, s.inB, s.a.conn.socket.accepted, n, gone, now, later);
      s.(b := e, inB := inbox)
  }

  function NetRun(envA: Env, envB: Env, s: Net, steps: seq<NetStep>): (s': Net)
    decreases |steps|
  {
    if steps == [] then s else NetRun(envA, envB, NetDo(envA, envB, s, steps[0]), steps[1..])
  }

  /** Two transports just connected to each other. */
  predicate JustConnected(c: Conn) {
    && c.state == OPEN && c.socket.open && ConfigOk(c.cfg)
    && c.rx == [] && c.tx == [] && c.log == [] && c.socket.accepted == [] && Idle(c.reader)
    && c.trace == Trace([], [], 1)
  }

  predicate Initial(s: Net) {
    && JustConnected(s.a.conn) && JustConnected(s.b.conn)
    && s.a.conn.cfg.deflate == s.b.conn.cfg.deflate
    && s.a.done == [] && s.a.current.None? && s.b.done == [] && s.b.current.None?
    && s.inA == Inbox(0, false, false) && s.inB == Inbox(0, false, false)
  }

  /** One direction: what `reader` has read is what has reached it of the bytes that `writer`'s socket accepted. */
  predicate Direction(env: Env, reader: Conn, start: Reader, writer: Conn, inbox: Inbox) {
    && inbox.got <= |writer.socket.accepted|
    && HasRead(env, reader, start, writer.socket.accepted[..inbox.got], inbox.lost)
  }

  predicate NetOk(envA: Env, envB: Env, s: Net, startA: Reader, startB: Reader) {
    && EndOk(envA, s.a) && EndOk(envB, s.b)
    && Direction(envA, s.a.conn, startA, s.b.conn, s.inA)
    && Direction(envB, s.b.conn, startB, s.a.conn, s.inB)
  }

  lemma InitialOk(envA: Env, envB: Env, s: Net)
    requires Initial(s)
    ensures NetOk(envA, envB, s, s.a.conn.reader, s.b.conn.reader)
  {
    hide EndOk, Direction;
    FreshEnd(envA, s.a);
    FreshEnd(envB, s.b);
    FreshDirection(envA, s.a.conn, s.b.conn);
    FreshDirection(envB, s.b.conn, s.a.conn);
  }

  lemma FreshEnd(env: Env, e: End)
    requires JustConnected(e.conn) && e.done == [] && e.current.None?
    ensures EndOk(env, e)
  {
    var none: seq<WireFrame> := [];
    assert e.conn.log == none && none[..0] == none && Frames(none) == [];
  }

  lemma FreshDirection(env: Env, reader: Conn, writer: Conn)
    requires JustConnected(reader) && JustConnected(writer)
    ensures Direction(env, reader, reader.reader, writer, Inbox(0, false, false))
  {
    hide ReadAll, Stuck;
    assert writer.socket.accepted[..0] == [];
    NoBytesNoRest(env, reader.cfg.deflate, reader.reader);
  }

  lemma NoBytesNoRest(env: Env, deflate: bool, r: Reader)
    ensures ReadAll(env.codec, deflate, r, []) == ReadResult(r, [], [])
  {
  }

  /** More output from the writer does not change what has been delivered. */
  lemma WriterMoves(env: Env, reader: Conn, start: Reader, w: Conn, w': Conn, inbox: Inbox)
    requires Direction(env, reader, start, w, inbox) && w.socket.accepted <= w'.socket.accepted
    ensures Direction(env, reader, start, w', inbox)
  {
    assert w'.socket.accepted[..inbox.got] == w.socket.accepted[..inbox.got];
  }

  lemma LocalGrows(env: Env, e: End, l: Local)
    requires EndOk(env, e)
    ensures e.conn.socket.accepted <= DoLocal(env, e, l).conn.socket.accepted
  {
    hide Core, Do, SendFragment, Conserves, Balanced, WellWritten, FramesOf;
    match l
    case Begin(opcode, payload) =>
    case Push =>
      if e.current.Some? {
        SendFragmentWrites(env, e.conn, FramesOf(e.current.value)[e.next]);
        CoreGrows(e.conn, PushFragment(env, e).conn);
      }
    case Other(s) =>
      if Allowed(s) {
        AllowedExtends(env, e.conn, s);
        CoreGrows(e.conn, Do(env, e.conn, s));
      }
  }

  lemma CoreGrows(c: Conn, c': Conn)
    ensures Core(c, c') ==> c.socket.accepted <= c'.socket.accepted
    ensures Writes(c, c') ==> c.socket.accepted <= c'.socket.accepted
  {
  }

  lemma LocalKeepsRead(env: Env, e: End, inbox: Inbox, l: Local, start: Reader, stream: bytes)
    requires EndOk(env, e) && HasRead(env, e.conn, start, stream, inbox.lost)
    ensures var (e', inbox') := LocalStep(env, e, inbox, l);
            HasRead(env, e'.conn, start, stream, inbox'.lost)
  {
    hide Core, Do, SendFragment, Conserves, Balanced, WellWritten, FramesOf, HasRead, Drops;
    match l
    case Begin(opcode, payload) =>
    case Push =>
      if e.current.Some? {
        SendFragmentWrites(env, e.conn, FramesOf(e.current.value)[e.next]);
        WritesAreCore(e.conn, PushFragment(env, e).conn);
        SameKeepsRead(env, e.conn, PushFragment(env, e).conn, start, stream, inbox.lost);
      }
    case Other(s) =>
      if Allowed(s) {
        AllowedKeepsRead(env, e.conn, start, stream, inbox.lost, s);
      } else {
        KeptIsNotDropped(e.conn, e.conn, []);
      }
  }

  lemma LocalKeepsDirections(env: Env, peerEnv: Env, e: End, peer: End, l: Local, start: Reader, peerStart: Reader,
                             inbox: Inbox, peerInbox: Inbox)
    requires EndOk(env, e)
    requires Direction(env, e.conn, start, peer.conn, inbox)
    requires Direction(peerEnv, peer.conn, peerStart, e.conn, peerInbox)
    ensures var (e', inbox') := LocalStep(env, e, inbox, l);
            && EndOk(env, e')
            && Direction(env, e'.conn, start, peer.conn, inbox')
            && Direction(peerEnv, peer.conn, peerStart, e'.conn, peerInbox)
  {
    hide HasRead, EndOk, DoLocal, DropsLocally;
    LocalKeepsEnd(env, e, l);
    LocalGrows(env, e, l);
    LocalKeepsRead(env, e, inbox, l, start, peer.conn.socket.accepted[..inbox.got]);
    WriterMoves(peerEnv, peer.conn, peerStart, e.conn, DoLocal(env, e, l).conn, peerInbox);
  }

  /** A read is a poll, with all that poll does. */
  lemma ReadPolls(env: Env, e: End, piece: bytes, gone: bool, now: int, later: int)
    requires EndOk(env, e)
    ensures var c' := ReadPoll(env, e.conn, piece, gone, now, later).0;
            EndOk(env, e.(conn := c')) && Polls(e.conn, c')
  {
    hide Core, ControlExtends, Poll, Conserves, Balanced, WellWritten, Started;
    var c' := ReadPoll(env, e.conn, piece, gone, now, later).0;
    PollPolls(env, e.conn, now, ReadyForRead([piece], gone), later);
    ControlWeakens(e.conn, c', false);
    EndAbsorbs(env, e, c');
  }

  lemma OnePiece(piece: bytes)
    ensures Flatten([piece]) == piece
  {
    assert [piece][1..] == [];
    assert piece + [] == piece;
  }

  lemma ReadKeepsDirections(env: Env, peerEnv: Env, e: End, peer: End, n: nat, gone: bool, now: int, later: int,
                            start: Reader, peerStart: Reader, inbox: Inbox, peerInbox: Inbox)
    requires EndOk(env, e)
    requires Direction(env, e.conn, start, peer.conn, inbox)
    requires Direction(peerEnv, peer.conn, peerStart, e.conn, peerInbox)
    ensures var (e', inbox') := ReadStep(env, e, inbox, peer.conn.socket.accepted, n, gone, now, later);
            && EndOk(env, e')
            && Direction(env, e'.conn, start, peer.conn, inbox')
            && Direction(peerEnv, peer.conn, peerStart, e'.conn, peerInbox)
  {
    hide HasRead, Poll, Polls, Conserves, Balanced, WellWritten, Started, Drops, PollTimers;
    var stream := peer.conn.socket.accepted;
    var piece := Piece(stream, inbox.got, n);
    var p := Readable(env, e.conn, piece, now);
    ReadPolls(env, e, piece, gone, now, later);
    OnePiece(piece);
    PollKeepsRead(env, e.conn, piece, now, ReadyForRead([piece], gone), later, start, stream[..inbox.got], inbox.lost);
    assert stream[..inbox.got] + p == stream[..inbox.got + |p|];
    PollGrows(e.conn, ReadPoll(env, e.conn, piece, gone, now, later).0);
    WriterMoves(peerEnv, peer.conn, peerStart, e.conn, ReadPoll(env, e.conn, piece, gone, now, later).0, peerInbox);
  }

  lemma PollGrows(c: Conn, c': Conn)
    requires Polls(c, c')
    ensures c.socket.accepted <= c'.socket.accepted && c'.cfg == c.cfg
  {
  }

  lemma StepKeepsNet(envA: Env, envB: Env, s: Net, step: NetStep, startA: Reader, startB: Reader)
    requires NetOk(envA, envB, s, startA, startB)
    ensures NetOk(envA, envB, NetDo(envA, envB, s, step), startA, startB)
  {
    hide EndOk, Direction, LocalStep, ReadStep;
    match step
    case AtA(l) => LocalKeepsDirections(envA, envB, s.a, s.b, l, startA, startB, s.inA, s.inB);
    case AtB(l) => LocalKeepsDirections(envB, envA, s.b, s.a, l, startB, startA, s.inB, s.inA);
    case ReadAtA(n, gone, now, later) =>
      ReadKeepsDirections(envA, envB, s.a, s.b, n, gone, now, later, startA, startB, s.inA, s.inB);
    case ReadAtB(n, gone, now, later) =>
      ReadKeepsDirections(envB, envA, s.b, s.a, n, gone, now, later, startB, startA, s.inB, s.inA);
  }

  lemma {:induction false} RunKeepsNet(envA: Env, envB: Env, s: Net, steps: seq<NetStep>,
                                       startA: Reader, startB: Reader)
    requires NetOk(envA, envB, s, startA, startB)
    ensures NetOk(envA, envB, NetRun(envA, envB, s, steps), startA, startB)
    decreases |steps|
  {
    hide NetOk, NetDo;
    if steps != [] {
      StepKeepsNet(envA, envB, s, steps[0], startA, startB);
      RunKeepsNet(envA, envB, NetDo(envA, envB, s, steps[0]), steps[1..], startA, startB);
    }
  }

  lemma {:induction false} MessagesPrefix(a: seq<Callback>, b: seq<Callback>)
    requires a <= b
    ensures Messages(a) <= Messages(b)
  {
    assert b == a + b[|a|..];
    MessagesAppend(a, b[|a|..]);
  }

  /** A cut control frame at the head of the buffer stops the reader for good. */
  lemma CutStops(env: Env, deflate: bool, r: Reader, w: WireFrame, tail: bytes)
    requires Cut(w.frame) && |w.frame.payload| < 65536
    ensures ReadAll(env.codec, deflate, r, Encode(w) + tail).callbacks == []
  {
    hide Encode, NextFrame, UnmaskHead;
    CutControlSeen(w, tail, deflate);
    StuckReadsNothing(env, deflate, r, Encode(w) + tail);
  }

  /** What a log with a cut delivers is what it delivers up to the cut. */
  lemma ReadsUpToCut(env: Env, deflate: bool, start: Reader, log: seq<WireFrame>)
    requires Acceptables(log[..Clean(log)], deflate) && Shorts(log)
    ensures ReadAll(env.codec, deflate, start, EncodeAll(log)).callbacks
            == OnFrames(env.codec, deflate, start, Frames(log[..Clean(log)])).1
  {
    hide OnFrames, ReadAll, EncodeAll, Acceptable, Clean;
    var k := Clean(log);
    var tail := EncodeAll(log[k..]);
    assert log == log[..k] + log[k..];
    EncodeAllAppend(log[..k], log[k..]);
    ReadEncoded(env.codec, deflate, start, log[..k], tail);
    var (r, cbs) := OnFrames(env.codec, deflate, start, Frames(log[..k]));
    if k == |log| {
      NoFrames(log[k..]);
      NoBytesNoRest(env, deflate, r);
    } else {
      FirstOfAll(log, k);
      CutStops(env, deflate, r, log[k], EncodeAll(log[k + 1..]));
    }
    assert cbs + [] == cbs;
  }

  lemma NoFrames(log: seq<WireFrame>)
    requires log == []
    ensures EncodeAll(log) == []
  {
  }

  lemma FirstOfAll(log: seq<WireFrame>, k: nat)
    requires k < |log|
    ensures EncodeAll(log[k..]) == Encode(log[k]) + EncodeAll(log[k + 1..])
  {
    hide Encode;
    assert log[k..][0] == log[k] && log[k..][1..] == log[k + 1..];
  }

  /** Data frames that begin what an end has sent, with control frames between, deliver a beginning of its messages. */
  lemma PartDelivers(env: Env, e: End, start: Reader, fs: seq<Frame>)
    requires MessagesOk(env, e) && Lossless(env.codec) && Idle(start)
    requires DataOnly(fs) <= AllFrames(e.done) + Started(e)
    ensures var messages := Messages(OnFrames(env.codec, e.conn.cfg.deflate, start, fs).1);
            && messages <= ExpectedAll(e.done)
            && (DataOnly(fs) == AllFrames(e.done) + Started(e) ==> messages == ExpectedAll(e.done))
  {
    hide OnFrames, Fragments, DataOnly, WellSent;
    var deflate := e.conn.cfg.deflate;
    var data, all := DataOnly(fs), AllFrames(e.done) + Started(e);
    ControlIsTransparent(env.codec, deflate, start, fs);
    AllDelivers(env, e, start);
    var rest := all[|data|..];
    assert all == data + rest;
    OnFramesAppend(env.codec, deflate, start, data, rest);
    var (r, cbs) := OnFrames(env.codec, deflate, start, data);
    MessagesAppend(cbs, OnFrames(env.codec, deflate, r, rest).1);
  }

  lemma AllDelivers(env: Env, e: End, start: Reader)
    requires MessagesOk(env, e) && Lossless(env.codec) && Idle(start)
    ensures Messages(OnFrames(env.codec, e.conn.cfg.deflate, start, AllFrames(e.done) + Started(e)).1)
            == ExpectedAll(e.done)
  {
    hide OnFrames, Fragments, WellSent;
    var deflate := e.conn.cfg.deflate;
    if e.current.Some? {
      SentDelivers(env.codec, deflate, start, e.done, e.current.value, e.next);
    } else {
      assert AllFrames(e.done) + [] == AllFrames(e.done);
      MessagesDeliver(env.codec, deflate, start, e.done);
    }
  }

  /** The whole log of a writer, read at once, delivers a beginning of the messages sent, and all if none was cut. */
  lemma LogDelivers(env: Env, e: End, start: Reader)
    requires EndOk(env, e) && Lossless(env.codec) && Idle(start)
    ensures var log := e.conn.log;
            var messages := Messages(ReadAll(env.codec, e.conn.cfg.deflate, start, EncodeAll(log)).callbacks);
            && messages <= ExpectedAll(e.done)
            && (SingleControls(log) ==> messages == ExpectedAll(e.done))
  {
    hide OnFrames, ReadAll, EncodeAll, Conserves, Balanced, MessagesOk, Acceptables, Shorts, DataOnly, Clean, Frames,
         SingleControls;
    var log, deflate := e.conn.log, e.conn.cfg.deflate;
    var k := Clean(log);
    ReadsUpToCut(env, deflate, start, log);
    PartDelivers(env, e, start, Frames(log[..k]));
    SingleIsClean(log);
    assert k == |log| ==> log[..k] == log;
  }

  /** Everything has been read that the writer wrote, none of it was thrown away, and dispatch has seen all of it. */
  predicate AllDispatched(reader: Conn, writer: Conn, inbox: Inbox) {
    inbox.got == |EncodeAll(writer.log)| && !inbox.lost && Exhausted(reader.rx, reader.cfg.deflate)
  }

  /**
    * One direction of a run: the messages delivered are always a prefix of the messages sent, and they are all
    * of them once every byte written has been dispatched, if no control frame had to be cut.
    */
  lemma DirectionDelivers(writerEnv: Env, writer: End, env: Env, reader: Conn, start: Reader, inbox: Inbox)
    requires EndOk(writerEnv, writer) && Direction(env, reader, start, writer.conn, inbox)
    requires env.codec == writerEnv.codec && Lossless(env.codec) && Idle(start)
    requires reader.cfg.deflate == writer.conn.cfg.deflate
    ensures Messages(reader.trace.delivered) <= ExpectedAll(writer.done)
    ensures SingleControls(writer.conn.log) && AllDispatched(reader, writer.conn, inbox) ==>
              Messages(reader.trace.delivered) == ExpectedAll(writer.done)
  {
    hide ReadAll, EncodeAll, Stuck, WellWritten, Exhausted, Started, SingleControls;
    var deflate, got := reader.cfg.deflate, inbox.got;
    var all := EncodeAll(writer.conn.log);
    var accepted := writer.conn.socket.accepted;
    var seen := accepted[..got];
    assert accepted + writer.conn.tx == all;
    assert all == seen + all[got..];
    LogDelivers(writerEnv, writer, start);
    ReadAppend(env.codec, deflate, start, seen, all[got..]);
    MessagesPrefix(reader.trace.delivered, ReadAll(env.codec, deflate, start, all).callbacks);
    if AllDispatched(reader, writer.conn, inbox) {
      assert seen == all;
      ExhaustedReadsNothing(env, deflate, reader.reader, reader.rx);
      assert reader.trace.delivered + [] == reader.trace.delivered;
    }
  }

  // ------------------------------------------------------------------ runs without long close reasons

  /** A local step that does not close with a reason too long for one frame. */
  predicate ShortLocal(l: Local) {
    l.Other? && l.step.CloseCall? ==> |l.step.reason| <= 65533
  }

  predicate ShortCloses(steps: seq<NetStep>) {
    forall i | 0 <= i < |steps| ::
      (steps[i].AtA? ==> ShortLocal(steps[i].l)) && (steps[i].AtB? ==> ShortLocal(steps[i].l))
  }

  lemma PlainStaysSingle(c: Conn, c': Conn)
    requires ControlExtends(c, c', true) && SingleControls(c.log)
    ensures SingleControls(c'.log)
  {
    assert forall i | 0 <= i < |c.log| :: c'.log[i] == c.log[i];
  }

  /** The bytes read so far are the first `j` frames of the peer's log and the contents of the receive buffer. */
  predicate HoldsFrom(c: Conn, peer: Conn, got: nat, j: nat) {
    && j <= |peer.log| && got <= |peer.socket.accepted|
    && EncodeAll(peer.log[..j]) + c.rx == peer.socket.accepted[..got]
  }

  /** A reader that is not closed holds bytes of its peer's log from a frame boundary on. */
  ghost predicate AtBoundary(c: Conn, peer: Conn, got: nat) {
    c.state != CLOSED ==> exists j: nat :: HoldsFrom(c, peer, got, j)
  }

  lemma HoldsPart(c: Conn, peer: Conn, got: nat, j: nat)
    requires HoldsFrom(c, peer, got, j) && Conserves(peer)
    ensures c.rx <= EncodeAll(peer.log[j..])
  {
    hide EncodeAll;
    var before, after := EncodeAll(peer.log[..j]), EncodeAll(peer.log[j..]);
    assert peer.log == peer.log[..j] + peer.log[j..];
    EncodeAllAppend(peer.log[..j], peer.log[j..]);
    var all := before + after;
    assert all == peer.socket.accepted + peer.tx;
    assert before + c.rx == all[..got];
    assert c.rx == all[|before|..got];
    assert after == all[|before|..];
  }

  lemma HoldsMore(c: Conn, peer: Conn, got: nat, j: nat, p: bytes)
    requires HoldsFrom(c, peer, got, j) && p <= peer.socket.accepted[got..]
    ensures HoldsFrom(c.(rx := c.rx + p), peer, got + |p|, j)
  {
    var accepted := peer.socket.accepted;
    assert accepted[..got] + p == accepted[..got + |p|];
    assert EncodeAll(peer.log[..j]) + (c.rx + p) == (EncodeAll(peer.log[..j]) + c.rx) + p;
  }

  lemma HoldsSame(c: Conn, peer: Conn, c': Conn, peer': Conn, got: nat, j: nat)
    requires HoldsFrom(c, peer, got, j) && c'.rx == c.rx
    requires peer.log <= peer'.log && peer.socket.accepted <= peer'.socket.accepted
    ensures HoldsFrom(c', peer', got, j)
  {
    assert peer'.log[..j] == peer.log[..j];
    assert peer'.socket.accepted[..got] == peer.socket.accepted[..got];
  }

  /** The log of an end without fragmented control frames can be read by its peer. */
  lemma LogReadable(env: Env, e: End)
    requires EndOk(env, e) && SingleControls(e.conn.log)
    ensures Acceptables(e.conn.log, e.conn.cfg.deflate) && Shorts(e.conn.log) && Conserves(e.conn)
  {
    SingleIsClean(e.conn.log);
    assert e.conn.log[..|e.conn.log|] == e.conn.log;
  }

  /** dispatch leaves a reader at a frame boundary, and writes whole control frames only. */
  lemma DispatchStaysSingle(env: Env, c: Conn, result: PollResult, now: int, peerEnv: Env, peer: End, got: nat)
    requires Invariant(c) && AtBoundary(c, peer.conn, got)
    requires EndOk(peerEnv, peer) && SingleControls(peer.conn.log) && c.cfg.deflate == peer.conn.cfg.deflate
    ensures var c' := Dispatch(env, c, result, now);
            ControlExtends(c, c', true) && AtBoundary(c', peer.conn, got)
  {
    hide EncodeAll, EndOk, SingleControls, DispatchLoop, Conserves, Balanced, ControlExtends, Acceptables, Shorts, Core,
         ReadAll, AfterAbnormal;
    var (c1, broke) := DispatchLoop(env, c, now);
    DispatchLoopReads(env, c, now);
    NeverConnecting(c, c1);
    if c.state == CLOSED {
      ClosedIsSilent(env, c, now);
      ControlReflexive(c, c1);
    } else {
      var j: nat :| HoldsFrom(c, peer.conn, got, j);
      LogReadable(peerEnv, peer);
      HoldsPart(c, peer.conn, got, j);
      LoopPlain(env, c, now, peer.conn.log, j);
      var j' := ReadFollows(env.codec, c.cfg.deflate, c.reader, c.rx, peer.conn.log, j);
      assert HoldsFrom(c1, peer.conn, got, j');
    }
    if broke && result == AbnormalClose {
      AfterAbnormalParts(c1);
      ControlReflexive(c1, AfterAbnormal(c1));
      ControlTransitive(c, c1, AfterAbnormal(c1), true);
    }
  }

  /** An end whose log has grown by a frame other than a fragmented control frame. */
  lemma PushStaysSingle(env: Env, e: End)
    requires EndOk(env, e) && SingleControls(e.conn.log)
    ensures SingleControls(PushFragment(env, e).conn.log)
  {
    hide SendFragment, Conserves, Balanced, WellWritten, FramesOf, Core;
    if e.current.Some? {
      var f := FramesOf(e.current.value)[e.next];
      SendFragmentWrites(env, e.conn, f);
      FragmentIsData(env, e);
      OnWireFrame(env, e.conn, f);
    }
  }

  lemma BufferKept(c: Conn, c': Conn, peer: Conn, got: nat)
    requires AtBoundary(c, peer, got) && Core(c, c') && (c'.rx == c.rx || c'.state == CLOSED)
    ensures AtBoundary(c', peer, got)
  {
    StaysClosed(c, c');
    if c'.state != CLOSED {
      var j: nat :| HoldsFrom(c, peer, got, j);
      HoldsSame(c, peer, c', peer, got, j);
    }
  }

  lemma LocalStaysSingle(env: Env, e: End, l: Local, peerEnv: Env, peer: End, got: nat)
    requires EndOk(env, e) && ShortLocal(l) && SingleControls(e.conn.log) && AtBoundary(e.conn, peer.conn, got)
    requires EndOk(peerEnv, peer) && SingleControls(peer.conn.log) && e.conn.cfg.deflate == peer.conn.cfg.deflate
    ensures var c' := DoLocal(env, e, l).conn;
            SingleControls(c'.log) && AtBoundary(c', peer.conn, got)
  {
    hide SendFragment, Conserves, Balanced, WellWritten, FramesOf, ReadAll, Stuck, UserPing, Close, Poll, Dispatch,
         ControlExtends, Core, SingleControls, AtBoundary, Readable;
    var c := e.conn;
    match l
    case Begin(opcode, payload) =>
    case Push =>
      PushStaysSingle(env, e);
      if e.current.Some? {
        SendFragmentWrites(env, c, FramesOf(e.current.value)[e.next]);
        WritesAreCore(c, PushFragment(env, e).conn);
        BufferKept(c, PushFragment(env, e).conn, peer.conn, got);
      }
    case Other(s) =>
      if Allowed(s) {
        var c' := Do(env, c, s);
        match s {
          case PingCall(text, now) =>
            UserPingExtends(env, c, text, now);
            UserPingKeepsBuffer(env, c, text, now);
            BufferKept(c, c', peer.conn, got);
          case CloseCall(code, reason, now) =>
            CloseWrites(env, c, code, reason, 0, now);
            BufferKept(c, c', peer.conn, got);
          case PollCall(now, input, later) =>
            NothingReadable(env, c, now);
            PollBuffer(env, c, [], now, input, later);
            assert c.rx + [] == c.rx;
            BufferKept(c, c', peer.conn, got);
          case DispatchCall(result, now) =>
            DispatchStaysSingle(env, c, result, now, peerEnv, peer, got);
        }
        PlainStaysSingle(c, c');
      }
  }

  lemma LocalKeepsConfig(env: Env, e: End, l: Local)
    requires EndOk(env, e)
    ensures DoLocal(env, e, l).conn.cfg == e.conn.cfg && e.conn.log <= DoLocal(env, e, l).conn.log
  {
    hide Core, Do, SendFragment, Conserves, Balanced, WellWritten, FramesOf, Writes;
    match l
    case Begin(opcode, payload) =>
    case Push =>
      if e.current.Some? {
        SendFragmentWrites(env, e.conn, FramesOf(e.current.value)[e.next]);
        WritesAreCore(e.conn, PushFragment(env, e).conn);
        CoreGrowsLog(e.conn, PushFragment(env, e).conn);
      }
    case Other(s) =>
      if Allowed(s) {
        AllowedExtends(env, e.conn, s);
        CoreGrowsLog(e.conn, Do(env, e.conn, s));
      }
  }

  lemma CoreGrowsLog(c: Conn, c': Conn)
    requires Core(c, c')
    ensures c'.cfg == c.cfg && c.log <= c'.log
  {
  }

  lemma {:induction false} RunKeepsConfigs(envA: Env, envB: Env, s: Net, steps: seq<NetStep>,
                                           startA: Reader, startB: Reader)
    requires NetOk(envA, envB, s, startA, startB)
    ensures var t := NetRun(envA, envB, s, steps);
            t.a.conn.cfg == s.a.conn.cfg && t.b.conn.cfg == s.b.conn.cfg
    decreases |steps|
  {
    hide EndOk, Direction, DoLocal, ReadPoll, Polls, Readable;
    if steps != [] {
      var s1 := NetDo(envA, envB, s, steps[0]);
      StepKeepsNet(envA, envB, s, steps[0], startA, startB);
      match steps[0] {
        case AtA(l) => LocalKeepsConfig(envA, s.a, l);
        case AtB(l) => LocalKeepsConfig(envB, s.b, l);
        case ReadAtA(n, gone, now, later) =>
          var piece := Piece(s.b.conn.socket.accepted, s.inA.got, n);
          ReadPolls(envA, s.a, piece, gone, now, later);
          PollGrows(s.a.conn, ReadPoll(envA, s.a.conn, piece, gone, now, later).0);
        case ReadAtB(n, gone, now, later) =>
          var piece := Piece(s.a.conn.socket.accepted, s.inB.got, n);
          ReadPolls(envB, s.b, piece, gone, now, later);
          PollGrows(s.b.conn, ReadPoll(envB, s.b.conn, piece, gone, now, later).0);
      }
      RunKeepsConfigs(envA, envB, s1, steps[1..], startA, startB);
    }
  }

  lemma ReadStaysSingle(env: Env, e: End, peer: Conn, inbox: Inbox, n: nat, gone: bool, now: int, later: int)
    requires EndOk(env, e) && SingleControls(e.conn.log) && AtBoundary(e.conn, peer, inbox.got)
    requires inbox.got <= |peer.socket.accepted|
    ensures var (e', inbox') := ReadStep(env, e, inbox, peer.socket.accepted, n, gone, now, later);
            && SingleControls(e'.conn.log) && AtBoundary(e'.conn, peer, inbox'.got)
            && e.conn.log <= e'.conn.log && e'.conn.cfg == e.conn.cfg
  {
    hide Poll, Conserves, Balanced, WellWritten, ControlExtends, Core, SingleControls, PollTimers, EncodeAll;
    var stream := peer.socket.accepted;
    var piece := Piece(stream, inbox.got, n);
    var p := Readable(env, e.conn, piece, now);
    var c, c' := e.conn, ReadPoll(env, e.conn, piece, gone, now, later).0;
    OnePiece(piece);
    PollBuffer(env, c, piece, now, ReadyForRead([piece], gone), later);
    PlainStaysSingle(c, c');
    CoreGrowsLog(c, c');
    StaysClosed(c, c');
    if c'.state != CLOSED {
      var j: nat :| HoldsFrom(c, peer, inbox.got, j);
      HoldsMore(c, peer, inbox.got, j, p);
      HoldsSame(c.(rx := c.rx + p), peer, c', peer, inbox.got + |p|, j);
    }
  }

  ghost predicate Singles(s: Net) {
    && SingleControls(s.a.conn.log) && SingleControls(s.b.conn.log) && s.a.conn.cfg.deflate == s.b.conn.cfg.deflate
    && AtBoundary(s.a.conn, s.b.conn, s.inA.got) && AtBoundary(s.b.conn, s.a.conn, s.inB.got)
  }

  lemma PeerMoves(c: Conn, peer: Conn, peer': Conn, got: nat)
    requires AtBoundary(c, peer, got) && peer.log <= peer'.log && peer.socket.accepted <= peer'.socket.accepted
    ensures AtBoundary(c, peer', got)
  {
    if c.state != CLOSED {
      var j: nat :| HoldsFrom(c, peer, got, j);
      HoldsSame(c, peer, c, peer', got, j);
    }
  }

  lemma StepStaysSingle(envA: Env, envB: Env, s: Net, step: NetStep, startA: Reader, startB: Reader)
    requires NetOk(envA, envB, s, startA, startB) && Singles(s)
    requires (step.AtA? ==> ShortLocal(step.l)) && (step.AtB? ==> ShortLocal(step.l))
    ensures Singles(NetDo(envA, envB, s, step))
  {
    hide EndOk, HasRead, DoLocal, ReadStep, SingleControls, ShortLocal, AtBoundary;
    StepKeepsNet(envA, envB, s, step, startA, startB);
    var t := NetDo(envA, envB, s, step);
    match step
    case AtA(l) =>
      LocalStaysSingle(envA, s.a, l, envB, s.b, s.inA.got);
      LocalKeepsConfig(envA, s.a, l);
      LocalGrows(envA, s.a, l);
      PeerMoves(s.b.conn, s.a.conn, t.a.conn, s.inB.got);
    case AtB(l) =>
      LocalStaysSingle(envB, s.b, l, envA, s.a, s.inB.got);
      LocalKeepsConfig(envB, s.b, l);
      LocalGrows(envB, s.b, l);
      PeerMoves(s.a.conn, s.b.conn, t.b.conn, s.inA.got);
    case ReadAtA(n, gone, now, later) =>
      ReadStaysSingle(envA, s.a, s.b.conn, s.inA, n, gone, now, later);
      ReadGrows(envA, s.a, s.b.conn, s.inA, n, gone, now, later);
      PeerMoves(s.b.conn, s.a.conn, t.a.conn, s.inB.got);
    case ReadAtB(n, gone, now, later) =>
      ReadStaysSingle(envB, s.b, s.a.conn, s.inB, n, gone, now, later);
      ReadGrows(envB, s.b, s.a.conn, s.inB, n, gone, now, later);
      PeerMoves(s.a.conn, s.b.conn, t.b.conn, s.inA.got);
  }

  lemma ReadGrows(env: Env, e: End, peer: Conn, inbox: Inbox, n: nat, gone: bool, now: int, later: int)
    requires EndOk(env, e)
    ensures var e' := ReadStep(env, e, inbox, peer.socket.accepted, n, gone, now, later).0;
            e.conn.socket.accepted <= e'.conn.socket.accepted
  {
    hide ReadPoll, Polls, EndOk;
    var piece := Piece(peer.socket.accepted, inbox.got, n);
    ReadPolls(env, e, piece, gone, now, later);
    PollGrows(e.conn, ReadPoll(env, e.conn, piece, gone, now, later).0);
  }

  lemma EndIsInvariant(env: Env, e: End)
    requires EndOk(env, e)
    ensures Invariant(e.conn)
  {
  }

  lemma {:induction false} RunStaysSingle(envA: Env, envB: Env, s: Net, steps: seq<NetStep>,
                                          startA: Reader, startB: Reader)
    requires NetOk(envA, envB, s, startA, startB) && Singles(s) && ShortCloses(steps)
    ensures Singles(NetRun(envA, envB, s, steps))
    decreases |steps|
  {
    hide NetOk, NetDo, Singles, ShortLocal;
    if steps != [] {
      StepKeepsNet(envA, envB, s, steps[0], startA, startB);
      StepStaysSingle(envA, envB, s, steps[0], startA, startB);
      RunStaysSingle(envA, envB, NetDo(envA, envB, s, steps[0]), steps[1..], startA, startB);
    }
  }

  // ------------------------------------------------------------------ the theorem

  /**
    * In every run of two connected transports - any messages of any length, masked or not, compressed or not,
    * control frames between fragments, partial and blocked writes, failed writes, reads cut anywhere that may find the
    * peer gone, other threads writing between a poll and its dispatch, either end closing at any time - each end
    * delivers a prefix of the messages sent to it, in order, each once, with the same kind and bytes; and exactly those
    * messages once all bytes have been read and dispatched, if no close call gave a reason of more than 65533 bytes.
    * Frames that a poll has read are lost before dispatch only when that poll finds the closing delay over.
    */
  lemma EndToEndDelivery(envA: Env, envB: Env, s: Net, steps: seq<NetStep>)
    requires Initial(s) && envA.codec == envB.codec && Lossless(envA.codec)
    ensures var t := NetRun(envA, envB, s, steps);
            && Messages(t.b.conn.trace.delivered) <= ExpectedAll(t.a.done)
            && Messages(t.a.conn.trace.delivered) <= ExpectedAll(t.b.done)
            && (ShortCloses(steps) && AllDispatched(t.b.conn, t.a.conn, t.inB) ==>
                  Messages(t.b.conn.trace.delivered) == ExpectedAll(t.a.done))
            && (ShortCloses(steps) && AllDispatched(t.a.conn, t.b.conn, t.inA) ==>
                  Messages(t.a.conn.trace.delivered) == ExpectedAll(t.b.done))
  {
    hide EndOk, Direction, NetRun, SingleControls, ExpectedAll, ShortCloses, AllDispatched, HoldsFrom;
    var startA, startB := s.a.conn.reader, s.b.conn.reader;
    InitialOk(envA, envB, s);
    RunKeepsNet(envA, envB, s, steps, startA, startB);
    var t := NetRun(envA, envB, s, steps);
    RunKeepsConfigs(envA, envB, s, steps, startA, startB);
    DirectionDelivers(envA, t.a, envB, t.b.conn, startB, t.inB);
    DirectionDelivers(envB, t.b, envA, t.a.conn, startA, t.inA);
    if ShortCloses(steps) {
      NothingIsSingle(s.a.conn, s.b.conn);
      NothingIsSingle(s.b.conn, s.a.conn);
      RunStaysSingle(envA, envB, s, steps, startA, startB);
    }
  }

  lemma NothingIsSingle(c: Conn, peer: Conn)
    requires JustConnected(c) && JustConnected(peer)
    ensures SingleControls(c.log) && AtBoundary(c, peer, 0)
  {
    assert peer.log[..0] == [] && peer.socket.accepted[..0] == [];
    assert HoldsFrom(c, peer, 0, 0);
  }
}

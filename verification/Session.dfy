/** Two transports joined by a network that delivers any prefix of what each has sent, in any pieces. */
module Session {
  import opened Wrappers
  import opened Bytes
  import opened Framing
  import opened Reassembly
  import opened Delivery
  import opened TransportSpec
  import opened TransportRuns
  import Utf8Validator

  // ------------------------------------------------------------------ one end

  /**
    * A transport with the thread that holds its write mutex: the messages sent so far and the one whose
    * fragments are being sent, with the index of the next fragment. Other threads may write between fragments.
    */
  datatype End = End(conn: Conn, done: seq<Sent>, current: Option<Sent>, next: nat)

  /** The steps an end takes on its own. */
  datatype Local =
    | Begin(opcode: Opcode, payload: bytes)
    | Push
    | Other(step: Step)

  /** Steps other than sending messages, receiving bytes and connecting. */
  predicate Allowed(s: Step) {
    s.PingCall? || s.CloseCall? || s.DispatchCall? || (s.PollCall? && !s.input.ReadyForRead?)
  }

  /** sendText or sendBinary takes the write mutex and prepares the bytes for the wire. */
  function BeginMessage(env: Env, e: End, opcode: Opcode, payload: bytes): (e': End) {
    var deflate := e.conn.cfg.deflate;
    var wire := WireBytes(env, payload, deflate);
    if e.current.None? && e.conn.state == OPEN && wire.Some?
       && (opcode == BINARY || (opcode == TEXT && Utf8Validator.Valid(payload)))
    then e.(current := Some(Sent(opcode, payload, wire.value, deflate)), next := 0)
    else e
  }

  /** One pass of the loop of sendData. */
  function PushFragment(env: Env, e: End): (e': End) {
    if e.current.None? then e
    else
      var m := e.current.value;
      var fs := FramesOf(m);
      if e.next >= |fs| then e
      else
        var c' := SendFragment(env, e.conn, fs[e.next]);
        if e.next + 1 == |fs| then End(c', e.done + [m], None, 0) else e.(conn := c', next := e.next + 1)
  }

  function DoLocal(env: Env, e: End, l: Local): (e': End) {
    match l
    case Begin(opcode, payload) => BeginMessage(env, e, opcode, payload)
    case Push => PushFragment(env, e)
    case Other(s) => if Allowed(s) then e.(conn := Do(env, e.conn, s)) else e
  }

  /** sendData without interruption is one Begin followed by one Push per fragment. */
  function PushAll(env: Env, e: End, k: nat): (e': End)
    decreases k
  {
    if k == 0 then e else PushAll(env, PushFragment(env, e), k - 1)
  }

  lemma {:induction false} PushAllIsSendFragments(env: Env, e: End, m: Sent)
    requires e.current == Some(m) && e.next < |FramesOf(m)|
    ensures var fs := FramesOf(m);
            var e' := PushAll(env, e, |fs| - e.next);
            && e'.conn == SendFragments(env, e.conn, fs[e.next..])
            && e'.done == e.done + [m] && e'.current.None?
    decreases |FramesOf(m)| - e.next
  {
    hide SendFragment, FramesOf;
    var fs := FramesOf(m);
    var e1 := PushFragment(env, e);
    assert fs[e.next..][0] == fs[e.next] && fs[e.next..][1..] == fs[e.next + 1..];
    if e.next + 1 < |fs| {
      PushAllIsSendFragments(env, e1, m);
    }
  }

  /** A message sent in one go by SendBinary leaves the transport as the step model does. */
  lemma SendBinaryIsPushes(env: Env, e: End, data: bytes)
    requires e.current.None? && e.conn.state == OPEN && WireBytes(env, data, e.conn.cfg.deflate).Some?
    ensures var e1 := BeginMessage(env, e, BINARY, data);
            e1.current.Some? && PushAll(env, e1, |FramesOf(e1.current.value)|).conn == SendBinary(env, e.conn, data)
  {
    hide SendFragments, Fragments;
    var e1 := BeginMessage(env, e, BINARY, data);
    var fs := FramesOf(e1.current.value);
    PushAllIsSendFragments(env, e1, e1.current.value);
    assert fs[0..] == fs;
  }

  lemma SendTextIsPushes(env: Env, e: End, text: bytes, now: int)
    requires e.current.None? && e.conn.state == OPEN && WireBytes(env, text, e.conn.cfg.deflate).Some?
    requires Utf8Validator.Valid(text)
    ensures var e1 := BeginMessage(env, e, TEXT, text);
            e1.current.Some? && PushAll(env, e1, |FramesOf(e1.current.value)|).conn == SendText(env, e.conn, text, now)
  {
    hide SendFragments, Fragments, Utf8Validator.Valid;
    var e1 := BeginMessage(env, e, TEXT, text);
    var fs := FramesOf(e1.current.value);
    PushAllIsSendFragments(env, e1, e1.current.value);
    assert fs[0..] == fs;
  }

  // ------------------------------------------------------------------ what an end has written

  function Started(e: End): (fs: seq<Frame>) {
    if e.current.Some? && e.next < |FramesOf(e.current.value)| then FramesOf(e.current.value)[..e.next] else []
  }

  predicate Acceptables(log: seq<WireFrame>, deflate: bool) {
    forall i | 0 <= i < |log| :: Acceptable(log[i].frame, deflate)
  }

  /** Every frame fits the two-byte length form, as sendData cuts them. */
  predicate Shorts(log: seq<WireFrame>) {
    forall i | 0 <= i < |log| :: |log[i].frame.payload| < 65536
  }

  /** A control frame that is not the last fragment of its message. */
  predicate Cut(f: Frame) { IsControl(f) && !f.fin }

  /** The length of a log up to its first cut control frame. */
  function Clean(log: seq<WireFrame>): (k: nat)
    ensures k <= |log| && forall i | 0 <= i < k :: !Cut(log[i].frame)
    ensures k < |log| ==> Cut(log[k].frame)
  {
    if log == [] || Cut(log[0].frame) then 0 else 1 + Clean(log[1..])
  }

  lemma {:induction false} CleanIs(log: seq<WireFrame>, k: nat)
    requires k <= |log| && (forall i | 0 <= i < k :: !Cut(log[i].frame)) && (k < |log| ==> Cut(log[k].frame))
    ensures Clean(log) == k
  {
  }

  lemma SingleIsClean(log: seq<WireFrame>)
    ensures SingleControls(log) <==> Clean(log) == |log|
  {
    if SingleControls(log) { CleanIs(log, |log|); }
  }

  lemma CleanGrows(log: seq<WireFrame>, log': seq<WireFrame>)
    requires log <= log'
    ensures Clean(log) < |log| ==> Clean(log') == Clean(log)
    ensures Clean(log) == |log| ==> Clean(log') >= |log|
  {
    assert forall i | 0 <= i < |log| :: log'[i] == log[i];
  }

  /**
    * Up to the first cut control frame the log is the messages sent, then the fragments started, with plain control
    * frames anywhere between; without such a frame it holds all of them.
    */
  predicate WellWritten(log: seq<WireFrame>, deflate: bool, done: seq<Sent>, started: seq<Frame>) {
    var k := Clean(log);
    && DataOnly(Frames(log[..k])) <= AllFrames(done) + started
    && Acceptables(log[..k], deflate)
    && Shorts(log)
    && (k == |log| ==> DataOnly(Frames(log)) == AllFrames(done) + started)
  }

  predicate MessagesOk(env: Env, e: End) {
    && (forall i | 0 <= i < |e.done| :: WellSent(env.codec, e.conn.cfg.deflate, e.done[i]))
    && (e.current.Some? ==>
          WellSent(env.codec, e.conn.cfg.deflate, e.current.value) && e.next < |FramesOf(e.current.value)|)
  }

  predicate EndOk(env: Env, e: End) {
    && Invariant(e.conn)
    && MessagesOk(env, e)
    && WellWritten(e.conn.log, e.conn.cfg.deflate, e.done, Started(e))
  }

  lemma FramesAppend(a: seq<WireFrame>, b: seq<WireFrame>)
    ensures Frames(a + b) == Frames(a) + Frames(b)
  {
  }

  lemma {:induction false} ControlsAreNotData(fs: seq<Frame>)
    requires forall i | 0 <= i < |fs| :: PlainControl(fs[i])
    ensures DataOnly(fs) == []
  {
    if fs != [] {
      ControlsAreNotData(fs[1..]);
    }
  }

  /** A log that has been cut only has to keep up with what is sent after the cut. */
  lemma CutKeepsWritten(log: seq<WireFrame>, log': seq<WireFrame>, deflate: bool, done: seq<Sent>, started: seq<Frame>,
                        done': seq<Sent>, started': seq<Frame>)
    requires WellWritten(log, deflate, done, started) && log <= log' && Clean(log) < |log|
    requires AllFrames(done) + started <= AllFrames(done') + started' && Shorts(log')
    ensures WellWritten(log', deflate, done', started')
  {
    CleanGrows(log, log');
    var k := Clean(log);
    assert log'[..k] == log[..k];
  }

  /** What a step appends to a clean log is plain up to its first cut. */
  lemma PlainPart(c: Conn, c': Conn)
    requires ControlExtends(c, c', false)
    ensures forall i | |c.log| <= i < Clean(c'.log) :: PlainControl(c'.log[i].frame)
    ensures Shorts(c.log) ==> Shorts(c'.log)
  {
    hide PlainControl;
    assert forall i | 0 <= i < |c.log| :: c'.log[i] == c.log[i];
    forall i | |c.log| <= i < Clean(c'.log)
      ensures PlainControl(c'.log[i].frame)
    {
      assert SingleUpTo(c'.log, i);
    }
  }

  lemma PlainTail(log: seq<WireFrame>, log': seq<WireFrame>, k: nat, deflate: bool)
    requires log <= log' && |log| <= k <= |log'| && Acceptables(log, deflate)
    requires forall i | |log| <= i < k :: PlainControl(log'[i].frame)
    ensures Acceptables(log'[..k], deflate) && DataOnly(Frames(log'[..k])) == DataOnly(Frames(log))
  {
    hide PlainControl, DataOnly, Acceptables, Frames;
    var more := log'[|log|..k];
    forall i | 0 <= i < |more|
      ensures PlainControl(more[i].frame)
    {
      assert more[i] == log'[|log| + i];
    }
    MoreControls(log, more, deflate);
    assert log'[..k] == log + more;
  }

  lemma PlainKeepsWritten(log: seq<WireFrame>, log': seq<WireFrame>, deflate: bool,
                          done: seq<Sent>, started: seq<Frame>)
    requires WellWritten(log, deflate, done, started) && log <= log' && Clean(log) == |log|
    requires forall i | |log| <= i < Clean(log') :: PlainControl(log'[i].frame)
    requires Shorts(log')
    ensures WellWritten(log', deflate, done, started)
  {
    hide PlainControl, AllFrames, DataOnly, Acceptables, Shorts, Clean, Frames;
    assert log[..|log|] == log && log'[..|log'|] == log';
    CleanGrows(log, log');
    PlainTail(log, log', Clean(log'), deflate);
  }

  lemma ControlsKeepWritten(c: Conn, c': Conn, done: seq<Sent>, started: seq<Frame>)
    requires ControlExtends(c, c', false) && WellWritten(c.log, c.cfg.deflate, done, started)
    ensures WellWritten(c'.log, c.cfg.deflate, done, started)
  {
    PlainPart(c, c');
    hide WellWritten;
    if Clean(c.log) < |c.log| {
      CutKeepsWritten(c.log, c'.log, c.cfg.deflate, done, started, done, started);
    } else {
      PlainKeepsWritten(c.log, c'.log, c.cfg.deflate, done, started);
    }
  }

  lemma MoreControls(log: seq<WireFrame>, more: seq<WireFrame>, deflate: bool)
    requires Acceptables(log, deflate) && forall i | 0 <= i < |more| :: PlainControl(more[i].frame)
    ensures Acceptables(log + more, deflate) && DataOnly(Frames(log + more)) == DataOnly(Frames(log))
  {
    FramesAppend(log, more);
    assert forall i | 0 <= i < |more| :: Frames(more)[i] == more[i].frame;
    ControlsAreNotData(Frames(more));
    DataOnlyAppend(Frames(log), Frames(more));
  }

  lemma AllowedExtends(env: Env, c: Conn, s: Step)
    requires Invariant(c) && Allowed(s)
    ensures Core(c, Do(env, c, s)) && ControlExtends(c, Do(env, c, s), false)
  {
    hide Core, ControlExtends, Writes, UserPing, Close, Poll, Dispatch, SendPing, Conserves, Balanced;
    match s
    case PingCall(text, now) => UserPingExtends(env, c, text, now);
    case CloseCall(code, reason, now) =>
      CloseWrites(env, c, code, reason, 0, now);
      WritesAreCore(c, Do(env, c, s));
      if |reason| + 2 < 65536 { ControlWeakens(c, Do(env, c, s), false); }
    case PollCall(now, input, later) =>
      PollPolls(env, c, now, input, later);
      ControlWeakens(c, Do(env, c, s), false);
    case DispatchCall(result, now) => DispatchCore(env, c, result, now);
  }

  lemma UserPingExtends(env: Env, c: Conn, text: bytes, now: int)
    ensures Core(c, UserPing(env, c, text, now))
    ensures ControlExtends(c, UserPing(env, c, text, now), true)
    ensures ControlExtends(c, UserPing(env, c, text, now), false)
  {
    hide Core, ControlExtends, Writes, SendPing;
    WritesReflexive(c);
    ControlReflexive(c, c);
    if |text| <= 125 {
      SendPingWrites(env, c, text, now);
      WritesAreCore(c, SendPing(env, c, text, now));
      ControlWeakens(c, SendPing(env, c, text, now), false);
    }
    WritesAreCore(c, c);
  }

  /** One more data frame of the message under way. */
  lemma FragmentKeepsWritten(log: seq<WireFrame>, w: WireFrame, deflate: bool, done: seq<Sent>,
                             fs: seq<Frame>, next: nat)
    requires next < |fs| && w.frame == fs[next] && !IsControl(w.frame) && Acceptable(w.frame, deflate)
    requires |w.frame.payload| < 65536
    requires WellWritten(log, deflate, done, fs[..next])
    ensures WellWritten(log + [w], deflate, done, fs[..next + 1])
  {
    hide Acceptable;
    var log', f := log + [w], fs[next];
    assert fs[..next + 1] == fs[..next] + [f];
    var written := AllFrames(done) + fs[..next];
    assert AllFrames(done) + fs[..next + 1] == written + [f];
    if Clean(log) < |log| {
      CutKeepsWritten(log, log', deflate, done, fs[..next], done, fs[..next + 1]);
    } else {
      CleanIs(log', |log'|);
      assert log'[..|log'|] == log' && log[..|log|] == log;
      FramesAppend(log, [w]);
      assert Frames([w]) == [f];
      DataOnlyAppend(Frames(log), [f]);
      assert DataOnly([f]) == [f];
    }
  }

  lemma LastFragmentWritten(log: seq<WireFrame>, deflate: bool, done: seq<Sent>, m: Sent)
    requires WellWritten(log, deflate, done, FramesOf(m))
    ensures WellWritten(log, deflate, done + [m], [])
  {
    AllFramesSnoc(done, m);
    assert AllFrames(done) + FramesOf(m) == AllFrames(done + [m]) + [];
  }

  lemma PushKeepsEnd(env: Env, e: End)
    requires EndOk(env, e) && e.current.Some?
    ensures EndOk(env, PushFragment(env, e))
  {
    hide Core, Writes, SendFragment, Acceptable, WellSent, FramesOf, OnWire, WellWritten;
    var m := e.current.value;
    var fs := FramesOf(m);
    var f := fs[e.next];
    var e' := PushFragment(env, e);
    var c, c' := e.conn, e'.conn;
    SendFragmentWrites(env, c, f);
    WritesAreCore(c, c');
    CoreKeepsInvariant(c, c');
    CoreKeepsConfig(c, c');
    var w := OnWire(env, c, f);
    OnWireFrame(env, c, f);
    FragmentIsData(env, e);
    FragmentKeepsWritten(c.log, w, c.cfg.deflate, e.done, fs, e.next);
    if e.next + 1 == |fs| {
      assert fs[..e.next + 1] == fs;
      LastFragmentWritten(c'.log, c.cfg.deflate, e.done, m);
    }
  }

  lemma OnWireFrame(env: Env, c: Conn, f: Frame)
    ensures OnWire(env, c, f).frame == f
  {
  }

  lemma CoreKeepsConfig(c: Conn, c': Conn)
    requires Core(c, c')
    ensures c'.cfg == c.cfg
  {
  }

  lemma FragmentIsData(env: Env, e: End)
    requires MessagesOk(env, e) && e.current.Some?
    ensures var f := FramesOf(e.current.value)[e.next];
            !IsControl(f) && Acceptable(f, e.conn.cfg.deflate) && |f.payload| < 65536
  {
    var m := e.current.value;
    FragmentsAreShort(m.opcode, m.compress, m.wire, e.next);
  }

  lemma LocalKeepsEnd(env: Env, e: End, l: Local)
    requires EndOk(env, e)
    ensures EndOk(env, DoLocal(env, e, l))
  {
    hide Invariant, Core, Do, PushFragment, Fragments, WellWritten, SingleControls;
    match l
    case Begin(opcode, payload) => BeginKeepsEnd(env, e, opcode, payload);
    case Push =>
      if e.current.Some? {
        PushKeepsEnd(env, e);
      } else {
        PushNothing(env, e);
      }
    case Other(s) =>
      if Allowed(s) {
        OtherKeepsEnd(env, e, Do(env, e.conn, s), s);
      }
  }

  lemma PushNothing(env: Env, e: End)
    requires e.current.None?
    ensures PushFragment(env, e) == e
  {
  }

  lemma BeginKeepsEnd(env: Env, e: End, opcode: Opcode, payload: bytes)
    requires EndOk(env, e)
    ensures EndOk(env, BeginMessage(env, e, opcode, payload))
  {
    hide Invariant, Fragments, WellWritten, SingleControls;
    var e' := BeginMessage(env, e, opcode, payload);
    if e'.current.Some? && e.current.None? {
      assert FramesOf(e'.current.value)[..0] == [];
    }
  }

  lemma OtherKeepsEnd(env: Env, e: End, c': Conn, s: Step)
    requires EndOk(env, e) && Allowed(s) && c' == Do(env, e.conn, s)
    ensures EndOk(env, e.(conn := c'))
  {
    hide Core, Do, Fragments, ControlExtends, WellWritten, Conserves, Balanced, SingleControls;
    AllowedExtends(env, e.conn, s);
    EndAbsorbs(env, e, c');
  }

  /** Anything that only adds control frames keeps an end in order. */
  lemma EndAbsorbs(env: Env, e: End, c': Conn)
    requires EndOk(env, e) && Core(e.conn, c') && ControlExtends(e.conn, c', false)
    ensures EndOk(env, e.(conn := c'))
  {
    hide Core, Fragments, ControlExtends, WellWritten, Conserves, Balanced, SingleControls;
    CoreKeepsInvariant(e.conn, c');
    CoreKeepsConfig(e.conn, c');
    ControlsKeepWritten(e.conn, c', e.done, Started(e));
  }

  // ------------------------------------------------------------------ reading a peer's log

  /** The reader recognises a control frame that is not a last fragment. */
  lemma CutControlSeen(w: WireFrame, tail: bytes, deflate: bool)
    requires Cut(w.frame) && |w.frame.payload| < 65536
    ensures Stuck(Encode(w) + tail, deflate)
    ensures !w.frame.rsv1 ==> NextFrame(Encode(w) + tail, deflate) == FragmentedControl
  {
    hide Masked, EncodeHeader, ParseHeader, HasHeader;
    var f := w.frame;
    var hd := EncodeHeader(f, w.masked, w.key);
    var body := if w.masked then Masked(w.key, f.payload) else f.payload;
    assert Encode(w) + tail == hd + (body + tail);
    HeaderInverts(f, w.masked, w.key, body + tail);
  }

  /** The next frame in the buffer of a follower is the next frame of the log. */
  lemma NextOfLog(rx: bytes, log: seq<WireFrame>, j: nat, deflate: bool)
    requires j <= |log| && rx <= EncodeAll(log[j..]) && Acceptables(log, deflate)
    ensures !Stuck(rx, deflate)
    ensures TakeFrame(rx, deflate).Some? ==>
              var (f, rest) := TakeFrame(rx, deflate).value;
              j < |log| && f == log[j].frame && rest <= EncodeAll(log[j + 1..]) && rx == Encode(log[j]) + rest
  {
    hide TakeFrame, Stuck, Encode, Acceptable;
    var all := EncodeAll(log[j..]);
    var tail := all[|rx|..];
    assert all == rx + tail;
    if j < |log| {
      assert log[j..][0] == log[j] && log[j..][1..] == log[j + 1..];
      TakeEncoded(log[j], EncodeAll(log[j + 1..]), deflate);
      if Stuck(rx, deflate) {
        StuckAppend(rx, tail, deflate);
        StuckTakesNothing(all, deflate);
        assert false;
      }
      if TakeFrame(rx, deflate).Some? {
        TakeAppend(rx, tail, deflate);
        var (f, rest) := TakeFrame(rx, deflate).value;
        assert rest + tail == EncodeAll(log[j + 1..]);
        assert rx + tail == (Encode(log[j]) + rest) + tail;
        assert |rx| == |Encode(log[j]) + rest|;
        assert (rx + tail)[..|rx|] == rx;
      }
    } else {
      assert rx == [];
      NothingIsStuck(deflate);
    }
  }

  lemma NothingIsStuck(deflate: bool)
    ensures !Stuck([], deflate) && TakeFrame([], deflate).None?
  {
  }

  lemma EncodeStep(log: seq<WireFrame>, j: nat)
    requires j < |log|
    ensures EncodeAll(log[..j + 1]) == EncodeAll(log[..j]) + Encode(log[j])
  {
    hide Encode;
    assert log[..j + 1] == log[..j] + [log[j]];
    EncodeAllAppend(log[..j], [log[j]]);
    assert [log[j]][1..] == [];
    assert EncodeAll([log[j]]) == Encode(log[j]) + EncodeAll([]);
  }

  /** Reading a part of a log leaves the reader at a frame boundary of it. */
  lemma {:induction false} ReadFollows(codec: Codec, deflate: bool, r: Reader, rx: bytes, log: seq<WireFrame>, j: nat)
    returns (j': nat)
    requires j <= |log| && rx <= EncodeAll(log[j..]) && Acceptables(log, deflate)
    ensures var rest := ReadAll(codec, deflate, r, rx).rest;
            && j <= j' <= |log| && rest <= EncodeAll(log[j'..]) && !Stuck(rest, deflate)
            && EncodeAll(log[..j']) + rest == EncodeAll(log[..j]) + rx
    decreases |rx|
  {
    hide TakeFrame, Stuck, Encode, Acceptables, EncodeAll, OnFrame, UnmaskHead;
    NextOfLog(rx, log, j, deflate);
    match TakeFrame(rx, deflate)
    case None =>
      NothingTaken(rx, deflate);
      j' := j;
    case Some((f, rest)) =>
      EncodeStep(log, j);
      j' := ReadFollows(codec, deflate, OnFrame(codec, deflate, r, f).0, rest, log, j + 1);
      assert EncodeAll(log[..j]) + (Encode(log[j]) + rest) == (EncodeAll(log[..j]) + Encode(log[j])) + rest;
  }

  /** dispatch on a part of a log whose frames came whole answers with whole control frames only. */
  lemma {:induction false} LoopPlain(env: Env, c: Conn, now: int, log: seq<WireFrame>, j: nat)
    requires c.state != CONNECTING && Guarded(c)
    requires j <= |log| && c.rx <= EncodeAll(log[j..]) && Acceptables(log, c.cfg.deflate) && Shorts(log)
    ensures ControlExtends(c, DispatchLoop(env, c, now).0, true)
    decreases |c.rx|
  {
    hide TakeFrame, LeaveLoop, HandleFrame, OnFrame, ControlExtends, Lifecycle, Conserves, UnmaskHead, Acceptables,
         EncodeAll,
         Stuck;
    NextOfLog(c.rx, log, j, c.cfg.deflate);
    match TakeFrame(c.rx, c.cfg.deflate)
    case None => LeaveLoopReads(env, c, now);
    case Some((f, rest)) =>
      var c0 := c.(rx := UnmaskHead(c.rx, c.cfg.deflate));
      var c1 := HandleFrame(env, c0, f, now);
      var c2 := c1.(rx := rest);
      GuardedBuffer(c, c0.rx);
      HandleFrameHandles(env, c0, f, now);
      ControlReflexive(c, c0);
      ControlTransitive(c, c0, c1, true);
      ControlReflexive(c1, c2);
      ControlTransitive(c, c1, c2, true);
      NeverConnecting(c0, c1);
      GuardedBuffer(c1, rest);
      LoopPlain(env, c2, now, log, j + 1);
      ControlTransitive(c, c2, DispatchLoop(env, c2, now).0, true);
  }

  // ------------------------------------------------------------------ a closed connection

  /** An end whose connection is closed writes nothing more. */
  lemma {:induction false} ClosedIsSilent(env: Env, c: Conn, now: int)
    requires c.state == CLOSED
    ensures var c' := DispatchLoop(env, c, now).0;
            c'.state == CLOSED && c'.log == c.log && c'.trace.reports == c.trace.reports
    decreases |c.rx|
  {
    hide TakeFrame, UnmaskHead, OnDataFrame, NextFrame, CloseStatus, Emittable;
    match TakeFrame(c.rx, c.cfg.deflate)
    case None =>
    case Some((f, rest)) =>
      var c1 := HandleFrame(env, c.(rx := UnmaskHead(c.rx, c.cfg.deflate)), f, now);
      ClosedHandles(env, c.(rx := UnmaskHead(c.rx, c.cfg.deflate)), f, now);
      ClosedIsSilent(env, c1.(rx := rest), now);
  }

  lemma ClosedHandles(env: Env, c: Conn, f: Frame, now: int)
    requires c.state == CLOSED
    ensures var c' := HandleFrame(env, c, f, now);
            c'.state == CLOSED && c'.log == c.log && c'.trace.reports == c.trace.reports
  {
    hide OnDataFrame, CloseStatus, Emittable, Close, SendData;
    forall code: nat, reason: bytes, size: nat ensures Close(env, c, code, reason, size, now) == c.(cancel := true) {
      ClosedStays(env, c, code, reason, size, now);
    }
    if IsData(f) {
      var (r, cb) := OnDataFrame(env.codec, c.cfg.deflate, c.reader, f);
      ClosedStays(env, c.(reader := r), INVALID_PAYLOAD, INVALID_PAYLOAD_MESSAGE, 0, now);
      ClosedStays(env, c.(cancel := true, reader := r), INVALID_PAYLOAD, INVALID_PAYLOAD_MESSAGE, 0, now);
    } else if f.opcode == PING {
      ClosedSendsNothing(env, c, PONG, f.payload);
    } else if f.opcode == Framing.CLOSE {
      var (code, reason) := CloseStatus(f.payload);
      ClosedSendsNothing(env, c, Framing.CLOSE, ClosePayload(code, reason));
    }
  }

  lemma ClosedStays(env: Env, c: Conn, code: nat, reason: bytes, size: nat, now: int)
    requires c.state == CLOSED
    ensures Close(env, c, code, reason, size, now) == c.(cancel := true)
  {
  }

  lemma ClosedSendsNothing(env: Env, c: Conn, opcode: Opcode, payload: bytes)
    requires c.state == CLOSED
    ensures SendData(env, c, opcode, payload, false) == c
  {
  }

  // ------------------------------------------------------------------ receiving

  /** What a poll finds to read of the bytes that the network holds: nothing, if its timers close the socket. */
  function Readable(env: Env, c: Conn, piece: bytes, now: int): (p: bytes) {
    if PollTimers(env, c, now).socket.open then piece else []
  }

  /** A poll that reads those bytes, and may find the peer gone behind them. */
  function ReadPoll(env: Env, c: Conn, piece: bytes, gone: bool, now: int, later: int): (r: (Conn, PollResult)) {
    Poll(env, c, now, ReadyForRead([piece], gone), later)
  }

  /** A poll whose closing delay has run out empties the receive buffer before dispatch has seen all of it. */
  predicate Drops(c: Conn, c': Conn, piece: bytes) { c'.rx == [] && !Exhausted(c.rx + piece, c.cfg.deflate) }

  predicate DropsLocally(c: Conn, c': Conn, s: Step) { s.PollCall? && Drops(c, c', []) }

  /** Two buffers from which the same is read, whatever follows. */
  predicate Alike(a: bytes, b: bytes, deflate: bool) { a == b || (Stuck(a, deflate) && Stuck(b, deflate)) }

  /**
    * A reader that has been given exactly the bytes of `stream`, starting from `start`: what it has delivered and what
    * dispatch will make of its buffer are together what the stream yields, unless bytes were `lost`.
    */
  predicate HasRead(env: Env, c: Conn, start: Reader, stream: bytes, lost: bool) {
    var whole := ReadAll(env.codec, c.cfg.deflate, start, stream);
    var ahead := ReadAll(env.codec, c.cfg.deflate, c.reader, c.rx);
    && c.trace.delivered + ahead.callbacks <= whole.callbacks
    && (!lost ==> c.trace.delivered + ahead.callbacks == whole.callbacks)
    && (c.state != CLOSED ==> !lost && ahead.reader == whole.reader && Alike(ahead.rest, whole.rest, c.cfg.deflate))
  }

  lemma StuckReadsNothing(env: Env, deflate: bool, r: Reader, rx: bytes)
    requires Stuck(rx, deflate)
    ensures var read := ReadAll(env.codec, deflate, r, rx);
            read.reader == r && read.callbacks == [] && Stuck(read.rest, deflate)
  {
    StuckTakesNothing(rx, deflate);
    StuckStays(rx, deflate);
  }

  lemma AlikeReads(env: Env, deflate: bool, r: Reader, a: bytes, b: bytes, more: bytes)
    requires Alike(a, b, deflate)
    ensures var (x, y) := (ReadAll(env.codec, deflate, r, a + more), ReadAll(env.codec, deflate, r, b + more));
            x.reader == y.reader && x.callbacks == y.callbacks && Alike(x.rest, y.rest, deflate)
  {
    hide ReadAll, Stuck;
    if a != b {
      StuckAppend(a, more, deflate);
      StuckAppend(b, more, deflate);
      StuckReadsNothing(env, deflate, r, a + more);
      StuckReadsNothing(env, deflate, r, b + more);
    }
  }

  /** The bytes that a poll reads are added to the stream. */
  lemma ReadingExtends(env: Env, c: Conn, start: Reader, stream: bytes, piece: bytes)
    requires c.state != CLOSED && HasRead(env, c, start, stream, false)
    ensures HasRead(env, c.(rx := c.rx + piece), start, stream + piece, false)
  {
    hide ReadAll, Stuck;
    var codec, deflate := env.codec, c.cfg.deflate;
    var whole := ReadAll(codec, deflate, start, stream);
    var ahead := ReadAll(codec, deflate, c.reader, c.rx);
    ReadAppend(codec, deflate, start, stream, piece);
    ReadAppend(codec, deflate, c.reader, c.rx, piece);
    AlikeReads(env, deflate, whole.reader, ahead.rest, whole.rest, piece);
  }

  /** Emptying the buffer of a reader that is closed loses what it held, if that was a whole frame. */
  lemma EmptyingKeepsRead(env: Env, c: Conn, c': Conn, start: Reader, stream: bytes, lost: bool)
    requires HasRead(env, c, start, stream, lost) && c'.state == CLOSED && c'.rx == [] && c'.cfg == c.cfg
    requires c'.reader == c.reader && c'.trace.delivered == c.trace.delivered
    ensures HasRead(env, c', start, stream, lost || Drops(c, c', []))
  {
    hide Stuck, TakeFrame, UnmaskHead;
    NothingInEmpty(c.cfg.deflate);
    assert c.rx + [] == c.rx;
    assert c.trace.delivered + [] == c.trace.delivered;
  }

  lemma NothingInEmpty(deflate: bool)
    ensures Exhausted([], deflate)
  {
  }

  lemma StaysClosed(c: Conn, c': Conn)
    requires Core(c, c')
    ensures c.state == CLOSED ==> c'.state == CLOSED
  {
  }

  lemma SameKeepsRead(env: Env, c: Conn, c': Conn, start: Reader, stream: bytes, lost: bool)
    requires HasRead(env, c, start, stream, lost) && Core(c, c')
    requires c'.rx == c.rx && c'.reader == c.reader && c'.trace.delivered == c.trace.delivered
    ensures HasRead(env, c', start, stream, lost)
  {
    hide ReadAll, Stuck, Conserves;
    StaysClosed(c, c');
  }

  /** Nothing is lost when a buffer is kept or holds no whole frame. */
  lemma KeptIsNotDropped(c: Conn, c': Conn, piece: bytes)
    requires c'.rx == c.rx + piece
    ensures !Drops(c, c', piece)
  {
    hide TakeFrame;
    NothingInEmpty(c.cfg.deflate);
  }

  lemma UserPingKeepsBuffer(env: Env, c: Conn, text: bytes, now: int)
    ensures Writes(c, UserPing(env, c, text, now))
  {
    hide Writes, SendPing;
    WritesReflexive(c);
    if |text| <= 125 {
      SendPingWrites(env, c, text, now);
    }
  }

  lemma DrainRequestKeepsBuffer(env: Env, c: Conn, rs: seq<Readiness>)
    ensures DrainRequest(env, c, rs).rx == c.rx
  {
    hide DrainRequest;
    DrainRequestWrites(env, c, rs);
  }

  lemma TimersKeepBuffer(env: Env, c: Conn, now: int)
    requires Invariant(c)
    ensures Writes(c, PollTimers(env, c, now))
  {
    hide Close, SendPing, HeartbeatMessage, Conserves, Balanced, Core;
    WritesReflexive(c);
    CloseWrites(env, c, INTERNAL_ERROR, PING_TIMEOUT_MESSAGE, 0, now);
    if c.cfg.pingInterval > 0 {
      HeartbeatIsShort(c);
      SendPingWrites(env, c, HeartbeatMessage(c), now);
    }
  }

  lemma ShutStays(c: Conn, c': Conn)
    requires Invariant(c) && Core(c, c') && c.state == CLOSED
    ensures !c'.socket.open
  {
  }

  /** poll adds what it reads to the buffer, or ends a closing handshake and empties it. */
  lemma PollBuffer(env: Env, c: Conn, piece: bytes, now: int, input: PollInput, later: int)
    requires Invariant(c)
    requires input.ReadyForRead? ==> Flatten(input.data) == piece
    requires !input.ReadyForRead? ==> piece == []
    ensures var c' := Poll(env, c, now, input, later).0;
            var p := Readable(env, c, piece, now);
            && Polls(c, c')
            && (c'.rx == c.rx + p || (c'.state == CLOSED && c'.rx == []))
            && (c.state == CLOSED ==> p == [])
  {
    hide PollTimers, DrainRequest, PollWait, Conserves, Balanced, ClosingDelayExceeded, Core, ControlExtends;
    PollPolls(env, c, now, input, later);
    var c1 := PollTimers(env, c, now);
    TimersKeepBuffer(env, c, now);
    assert c1.rx == c.rx;
    if c.state == CLOSED { ShutStays(c, c1); }
    var c2 := c1.(clock := c1.clock.(nextGcd := PollWait(c1, now).1));
    var actual := ActualInput(c2, input);
    if actual.SendRequest? {
      DrainRequestKeepsBuffer(env, c2, actual.readiness);
    }
    assert c.rx + [] == c.rx;
  }

  /** When poll throws away frames that dispatch has not seen: when it finds a closing handshake over its delay. */
  lemma DropsIff(env: Env, c: Conn, piece: bytes, now: int, input: PollInput, later: int)
    requires Invariant(c)
    requires input.ReadyForRead? ==> Flatten(input.data) == piece
    requires !input.ReadyForRead? ==> piece == []
    ensures var p := Readable(env, c, piece, now);
            var c1 := PollTimers(env, c, now);
            Drops(c, Poll(env, c, now, input, later).0, p)
            <==> c1.state == CLOSING && ClosingDelayExceeded(c1, later) && !(c1.socket.open && Gone(input))
                 && !Exhausted(c.rx + p, c.cfg.deflate)
  {
    hide PollTimers, PollWait, Conserves, Balanced, Core, TakeFrame;
    var c1 := PollTimers(env, c, now);
    TimersKeepBuffer(env, c, now);
    TimersGuard(c, c1);
    NothingInEmpty(c.cfg.deflate);
    assert c.rx + [] == c.rx;
    var c2 := c1.(clock := c1.clock.(nextGcd := PollWait(c1, now).1));
    var actual := ActualInput(c2, input);
    if actual.SendRequest? && c2.state != CLOSING {
      DrainRequestKeepsBuffer(env, c2, actual.readiness);
      NeverStartsClosing(env, c2, actual.readiness);
    }
  }

  lemma TimersGuard(c: Conn, c': Conn)
    requires Writes(c, c') && Guarded(c)
    ensures Guarded(c') && c'.rx == c.rx
  {
  }

  lemma {:induction false} NeverStartsClosing(env: Env, c: Conn, rs: seq<Readiness>)
    requires c.state != CLOSING
    ensures DrainRequest(env, c, rs).state != CLOSING
    decreases |rs|
  {
    hide Drain;
    if rs != [] {
      DrainKeepsState(env, c);
      NeverStartsClosing(env, c, rs[1..]);
      NeverStartsClosing(env, Drain(env, c), rs[1..]);
    }
  }

  lemma PollKeepsRead(env: Env, c: Conn, piece: bytes, now: int, input: PollInput, later: int,
                      start: Reader, stream: bytes, lost: bool)
    requires Invariant(c) && HasRead(env, c, start, stream, lost)
    requires input.ReadyForRead? ==> Flatten(input.data) == piece
    requires !input.ReadyForRead? ==> piece == []
    ensures var c' := Poll(env, c, now, input, later).0;
            var p := Readable(env, c, piece, now);
            HasRead(env, c', start, stream + p, lost || Drops(c, c', p))
  {
    hide Poll, Readable, Conserves, Balanced, Lifecycle, HasRead, Exhausted, ControlExtends;
    PollBuffer(env, c, piece, now, input, later);
    var c', p := Poll(env, c, now, input, later).0, Readable(env, c, piece, now);
    var c1 := c.(rx := c.rx + p);
    if p == [] {
      assert c1 == c && stream + p == stream;
    } else {
      OpenLosesNothing(env, c, start, stream, lost);
      ReadingExtends(env, c, start, stream, p);
    }
    if c'.rx == c1.rx {
      KeptIsNotDropped(c, c', p);
      BufferReplaced(c, c', c1.rx);
      SameKeepsRead(env, c1, c', start, stream + p, lost);
    } else {
      assert c1.rx + [] == c1.rx;
      EmptyingKeepsRead(env, c1, c', start, stream + p, lost);
    }
  }

  lemma OpenLosesNothing(env: Env, c: Conn, start: Reader, stream: bytes, lost: bool)
    requires HasRead(env, c, start, stream, lost) && c.state != CLOSED
    ensures !lost
  {
  }

  lemma BufferReplaced(c: Conn, c': Conn, rx: bytes)
    requires Core(c, c')
    ensures Core(c.(rx := rx), c')
  {
  }

  /** dispatch delivers what the buffer holds; what is left of it holds nothing more. */
  lemma DispatchKeepsRead(env: Env, c: Conn, result: PollResult, now: int, start: Reader, stream: bytes, lost: bool)
    requires Invariant(c) && HasRead(env, c, start, stream, lost)
    ensures HasRead(env, Dispatch(env, c, result, now), start, stream, lost)
    ensures Exhausted(Dispatch(env, c, result, now).rx, c.cfg.deflate)
  {
    hide Core, ControlExtends, DispatchLoop, Conserves, Balanced, Stuck, Exhausted, ReadAll, AfterAbnormal;
    var deflate := c.cfg.deflate;
    var (c1, broke) := DispatchLoop(env, c, now);
    DispatchLoopReads(env, c, now);
    CoreKeepsConfig(c, c1);
    StaysClosed(c, c1);
    NeverConnecting(c, c1);
    var ahead := ReadAll(env.codec, deflate, c.reader, c.rx);
    ReadExhausts(env.codec, deflate, c.reader, c.rx);
    ExhaustedReadsNothing(env, deflate, ahead.reader, ahead.rest);
    assert c.trace.delivered + ahead.callbacks + [] == c.trace.delivered + ahead.callbacks;
    assert HasRead(env, c1, start, stream, lost);
    if broke && result == AbnormalClose {
      AfterAbnormalParts(c1);
      assert c1.rx + [] == c1.rx;
      EmptyingKeepsRead(env, c1, AfterAbnormal(c1), start, stream, lost);
      NothingInEmpty(deflate);
    }
  }

  lemma AfterAbnormalParts(c: Conn)
    requires c.state != CONNECTING
    ensures var c' := AfterAbnormal(c);
            c'.state == CLOSED && c'.rx == [] && c'.cfg == c.cfg && c'.reader == c.reader
            && c'.trace.delivered == c.trace.delivered && c'.log == c.log
  {
  }

  lemma ExhaustedReadsNothing(env: Env, deflate: bool, r: Reader, rx: bytes)
    requires Exhausted(rx, deflate)
    ensures var read := ReadAll(env.codec, deflate, r, rx);
            read.reader == r && read.callbacks == [] && Exhausted(read.rest, deflate) && Alike(read.rest, rx, deflate)
  {
    hide Stuck, TakeFrame, UnmaskHead;
    NothingTaken(rx, deflate);
    if Stuck(rx, deflate) {
      StuckReadsNothing(env, deflate, r, rx);
      StuckTakesNothing(ReadAll(env.codec, deflate, r, rx).rest, deflate);
    }
  }

  /** What an end does on its own delivers nothing but what its buffer holds. */
  lemma AllowedKeepsRead(env: Env, c: Conn, start: Reader, stream: bytes, lost: bool, s: Step)
    requires Invariant(c) && HasRead(env, c, start, stream, lost) && Allowed(s)
    ensures HasRead(env, Do(env, c, s), start, stream, lost || DropsLocally(c, Do(env, c, s), s))
  {
    hide Core, ControlExtends, UserPing, Close, Poll, Dispatch, Conserves, Balanced, HasRead, Readable, Exhausted;
    var c' := Do(env, c, s);
    match s
    case PingCall(text, now) =>
      UserPingKeepsBuffer(env, c, text, now);
      SameKeepsRead(env, c, c', start, stream, lost);
    case CloseCall(code, reason, now) =>
      CloseWrites(env, c, code, reason, 0, now);
      SameKeepsRead(env, c, c', start, stream, lost);
    case PollCall(now, input, later) =>
      NothingReadable(env, c, now);
      PollKeepsRead(env, c, [], now, input, later, start, stream, lost);
      assert stream + [] == stream;
    case DispatchCall(result, now) =>
      DispatchKeepsRead(env, c, result, now, start, stream, lost);
  }

  lemma NothingReadable(env: Env, c: Conn, now: int)
    ensures Readable(env, c, [], now) == []
  {
  }
}

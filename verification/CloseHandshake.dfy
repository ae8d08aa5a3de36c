/** The closing handshake between two transports (section 7.1 of RFC 6455), in runs without write errors. */
module CloseHandshake {
  import opened Bytes
  import opened Framing
  import opened Reassembly
  import opened Delivery
  import opened Numbers
  import opened TransportSpec
  import opened TransportRuns
  import opened Session
  import Utf8Validator

  // ------------------------------------------------------------------ codes

  /** The codes that dispatch takes from a CLOSE frame as they are. */
  predicate TakenCode(code: nat) {
    1000 <= code <= 1003 || code == 1005 || 1007 <= code <= 1013 || 3000 <= code <= 65535
  }

  /** A close that the peer takes literally; 1005 stands for a payload without a code. */
  predicate GoodClose(code: nat, reason: bytes) {
    && (1000 <= code <= 1003 || 1007 <= code <= 1013 || 3000 <= code <= 65535)
    && Utf8Validator.Valid(reason)
    && |reason| + 2 < 65536
  }

  /** What dispatch makes of every CLOSE payload. */
  lemma CloseStatusIff(payload: bytes)
    ensures |payload| < 2 ==> CloseStatus(payload) == (1005, Text("No status code"))
    ensures |payload| >= 2 ==>
              var code, reason := 256 * (payload[0] as int) + payload[1], payload[2..];
              && (!Utf8Validator.Valid(reason) ==> CloseStatus(payload) == (1007, Text("Invalid frame payload data")))
              && (Utf8Validator.Valid(reason) ==>
                    && (CloseStatus(payload) == (code, reason) <==> TakenCode(code))
                    && (!TakenCode(code) ==>
                          CloseStatus(payload) == (1002, Text("Invalid close code: ") + Text(Decimal(code)))))
  {
    hide Utf8Validator.Valid, Decimal;
    assert Text("Invalid close code") + Text(": ") == Text("Invalid close code: ");
  }

  function CloseFrame(code: nat, reason: bytes): (f: Frame) {
    Frame(true, false, Framing.CLOSE, ClosePayload(code, reason))
  }

  /** What sendCloseFrame writes, dispatch reads back. */
  lemma CloseStatusInverts(code: nat, reason: bytes)
    requires GoodClose(code, reason)
    ensures CloseStatus(ClosePayload(code, reason)) == (code, reason)
  {
    var p := ClosePayload(code, reason);
    assert p[2..] == reason;
    assert Length2(p[0], p[1]) == code;
  }

  /** A CLOSE frame goes out whole exactly up to 65533 bytes of reason; a longer one is cut into fragments. */
  lemma CloseIsWhole(code: nat, reason: bytes)
    requires code != NO_STATUS
    ensures Fragments(Framing.CLOSE, false, ClosePayload(code, reason)) == [CloseFrame(code, reason)]
            <==> |reason| + 2 < 65536
  {
    var p := ClosePayload(code, reason);
    if |p| < 65536 {
      assert p[0..|p|] == p;
      assert Fragment(Framing.CLOSE, false, p, 0) == CloseFrame(code, reason);
    }
  }

  /** A peer that finds such a fragment does not read the code: it calls a protocol error. */
  lemma LongReasonRefused(env: Env, c: Conn, now: int, code: nat, reason: bytes, w: WireFrame, tail: bytes)
    requires code != NO_STATUS && |reason| + 2 >= 65536
    requires w.frame == Fragments(Framing.CLOSE, false, ClosePayload(code, reason))[0]
    requires c.rx == Encode(w) + tail
    ensures DispatchLoop(env, c, now) == (Close(env, c, PROTOCOL_ERROR, CONTROL_FRAGMENTED_MESSAGE, 0, now), false)
  {
    hide Close, Encode, NextFrame, HandleFrame;
    FragmentsAreShort(Framing.CLOSE, false, ClosePayload(code, reason), 0);
    CutControlSeen(w, tail, c.cfg.deflate);
  }

  // ------------------------------------------------------------------ calm operations

  ghost predicate NoErrors(env: Env) {
    forall k: nat :: env.writes(k).WouldBlock? || (env.writes(k).Wrote? && env.writes(k).n > 0)
  }

  /** The log has grown by frames other than CLOSE, and none of them is a fragmented control frame. */
  predicate LogCalm(c: Conn, c': Conn) {
    && c.log <= c'.log
    && forall i | |c.log| <= i < |c'.log| :: Harmless(c'.log[i].frame)
  }

  predicate Harmless(f: Frame) { f.opcode != Framing.CLOSE && (IsControl(f) ==> f.fin) }

  /** Everything stays as it was but the buffers and the log. */
  predicate Calm(c: Conn, c': Conn) {
    && c'.state == c.state && c'.close == c.close && c'.trace.reports == c.trace.reports && c'.cfg == c.cfg
    && c'.socket.open == c.socket.open
    && LogCalm(c, c')
  }

  lemma CalmTransitive(a: Conn, b: Conn, c: Conn)
    requires Calm(a, b) && Calm(b, c)
    ensures Calm(a, c)
  {
    forall i | |a.log| <= i < |c.log|
      ensures Harmless(c.log[i].frame)
    {
      if i < |b.log| {
        assert c.log[i] == b.log[i];
      }
    }
  }

  lemma {:induction false} DrainCalm(env: Env, c: Conn)
    requires NoErrors(env) && c.socket.open
    ensures Calm(c, Drain(env, c)) && Drain(env, c).log == c.log
    decreases |c.tx|
  {
    if c.tx != [] {
      var r := NextWrite(env, c);
      var n := Taken(r, |c.tx|);
      assert r.WouldBlock? || (r.Wrote? && r.n > 0);
      if n > 0 {
        DrainCalm(env, TakeBytes(c, n));
      }
    }
  }

  lemma FragmentCalm(env: Env, c: Conn, f: Frame)
    requires NoErrors(env) && c.socket.open
    ensures SendFragment(env, c, f).log == c.log + [OnWire(env, c, f)]
    ensures var c' := SendFragment(env, c, f);
            c'.state == c.state && c'.close == c.close && c'.trace.reports == c.trace.reports && c'.cfg == c.cfg
            && c'.socket.open
    ensures Harmless(f) ==> Calm(c, SendFragment(env, c, f))
  {
    hide Drain, Encode;
    DrainCalm(env, Append(c, OnWire(env, c, f)).(drawn := c.drawn + 1));
  }

  lemma {:induction false} FragmentsCalm(env: Env, c: Conn, fs: seq<Frame>)
    requires NoErrors(env) && c.socket.open
    requires forall i | 0 <= i < |fs| :: Harmless(fs[i])
    ensures Calm(c, SendFragments(env, c, fs))
    decreases |fs|
  {
    hide SendFragment;
    if fs != [] {
      FragmentCalm(env, c, fs[0]);
      FragmentsCalm(env, SendFragment(env, c, fs[0]), fs[1..]);
      CalmTransitive(c, SendFragment(env, c, fs[0]), SendFragments(env, c, fs));
    }
  }

  lemma SendControlCalm(env: Env, c: Conn, opcode: Opcode, message: bytes)
    requires NoErrors(env) && c.socket.open && (opcode == PING || opcode == PONG) && |message| <= 125
    ensures Calm(c, SendData(env, c, opcode, message, false))
  {
    hide SendFragments;
    if MaySend(c) {
      FragmentsCalm(env, c, Fragments(opcode, false, message));
    }
  }

  lemma SendPingCalm(env: Env, c: Conn, message: bytes, now: int)
    requires NoErrors(env) && c.socket.open && |message| <= 125
    ensures Calm(c, SendPing(env, c, message, now))
  {
    hide SendData;
    SendControlCalm(env, c, PING, message);
  }

  /** A CLOSE frame goes out as one frame and changes nothing but the buffers and the log. */
  lemma SendCloseCalm(env: Env, c: Conn, code: nat, reason: bytes)
    requires NoErrors(env) && c.socket.open && MaySend(c) && GoodClose(code, reason)
    ensures var c' := SendCloseFrame(env, c, code, reason);
            && c'.state == c.state && c'.close == c.close && c'.trace.reports == c.trace.reports && c'.cfg == c.cfg
            && c'.socket.open
            && |c'.log| == |c.log| + 1 && c.log <= c'.log && c'.log[|c.log|].frame == CloseFrame(code, reason)
  {
    hide SendFragment, OnWire;
    var p := ClosePayload(code, reason);
    var fs := Fragments(Framing.CLOSE, false, p);
    assert |fs| == 1 && fs[0] == Fragment(Framing.CLOSE, false, p, 0);
    assert p[0..|p|] == p;
    assert fs[0] == CloseFrame(code, reason);
    FragmentCalm(env, c, fs[0]);
    OnWireFrame(env, c, fs[0]);
    assert fs[1..] == [];
    assert SendFragments(env, c, fs) == SendFragment(env, c, fs[0]);
  }

  // ------------------------------------------------------------------ writes that fail

  /** Of `size` bytes to be written some are refused: the socket is closed, or an error comes before a blocked write. */
  predicate Refused(env: Env, open: bool, attempts: nat, size: nat)
    decreases size
  {
    && size > 0
    && var r := if open then env.writes(attempts) else WriteError;
       var n := Taken(r, size);
       if n > 0 then Refused(env, open, attempts + 1, size - n) else !r.WouldBlock?
  }

  /** The state after a write that may have failed: a failure closes the connection with the data stored. */
  predicate AfterWrite(c: Conn, c': Conn, refused: bool) {
    if refused && c.state != CLOSED
    then c'.state == CLOSED && !c'.socket.open && c'.trace.reports == c.trace.reports + [c.close]
         && c'.close == DEFAULT_CLOSE
    else c'.state == c.state && c'.trace.reports == c.trace.reports && c'.close == c.close
         && c'.socket.open == (c.socket.open && !refused)
  }

  lemma {:induction false} DrainFails(env: Env, c: Conn)
    ensures AfterWrite(c, Drain(env, c), Refused(env, c.socket.open, c.socket.attempts, |c.tx|))
    decreases |c.tx|
  {
    if c.tx != [] {
      var n := Taken(NextWrite(env, c), |c.tx|);
      if n > 0 { DrainFails(env, TakeBytes(c, n)); }
    }
  }

  lemma FragmentFails(env: Env, c: Conn, f: Frame)
    ensures var refused := Refused(env, c.socket.open, c.socket.attempts, |c.tx| + |Encode(OnWire(env, c, f))|);
            AfterWrite(c, SendFragment(env, c, f), refused)
  {
    hide Drain, Encode, Refused;
    DrainFails(env, Append(c, OnWire(env, c, f)).(drawn := c.drawn + 1));
  }

  lemma ClosedRefuses(env: Env, attempts: nat, size: nat)
    requires size > 0
    ensures Refused(env, false, attempts, size)
  {
  }

  lemma {:induction false} NothingRefused(env: Env, attempts: nat, size: nat)
    requires NoErrors(env)
    ensures !Refused(env, true, attempts, size)
    decreases size
  {
    if size > 0 {
      var r := env.writes(attempts);
      assert r.WouldBlock? || (r.Wrote? && r.n > 0);
      var n := Taken(r, size);
      if n > 0 { NothingRefused(env, attempts + 1, size - n); }
    }
  }

  lemma EncodedIsLong(w: WireFrame)
    ensures |Encode(w)| >= 2
  {
  }

  /** A message that fits one fragment is that fragment. */
  lemma SendsOne(env: Env, c: Conn, opcode: Opcode, payload: bytes)
    requires MaySend(c) && |payload| < 65536
    ensures SendData(env, c, opcode, payload, false) == SendFragment(env, c, Frame(true, false, opcode, payload))
  {
    hide SendFragment;
    assert payload[0..|payload|] == payload;
    var fs := Fragments(opcode, false, payload);
    assert fs == [Frame(true, false, opcode, payload)] && fs[1..] == [];
    assert SendFragments(env, c, fs) == SendFragments(env, SendFragment(env, c, fs[0]), []);
  }

  /** Anything sent on a closed socket closes the connection with the data stored. */
  lemma FragmentOnClosed(env: Env, c: Conn, f: Frame)
    requires !c.socket.open && c.state != CLOSED
    ensures var c' := SendFragment(env, c, f);
            c'.state == CLOSED && c'.trace.reports == c.trace.reports + [c.close]
            && c'.log == c.log + [OnWire(env, c, f)]
  {
    hide SendFragment, Refused, Encode, OnWire;
    EncodedIsLong(OnWire(env, c, f));
    ClosedRefuses(env, c.socket.attempts, |c.tx| + |Encode(OnWire(env, c, f))|);
    FragmentFails(env, c, f);
    SendFragmentWrites(env, c, f);
  }

  // ------------------------------------------------------------------ frames in sequence

  /** A frame that the reader takes without complaint. */
  predicate Fits(codec: Codec, deflate: bool, r: Reader, f: Frame) {
    && (IsData(f) || IsControl(f))
    && (IsData(f) ==>
          && (f.opcode == CONTINUATION <==> r.chunks != [])
          && Emittable(OnDataFrame(codec, deflate, r, f).1))
  }

  predicate FitsAll(codec: Codec, deflate: bool, r: Reader, fs: seq<Frame>)
    decreases |fs|
  {
    fs == [] || (Fits(codec, deflate, r, fs[0])
        && FitsAll(codec, deflate, OnFrame(codec, deflate, r, fs[0]).0, fs[1..]))
  }

  lemma {:induction false} FitsAppend(codec: Codec, deflate: bool, r: Reader, a: seq<Frame>, b: seq<Frame>)
    ensures FitsAll(codec, deflate, r, a + b)
            <==> FitsAll(codec, deflate, r, a) && FitsAll(codec, deflate, OnFrames(codec, deflate, r, a).0, b)
    decreases |a|
  {
    hide Fits, OnFrame;
    if a == [] {
      assert a + b == b;
    } else {
      assert (a + b)[0] == a[0] && (a + b)[1..] == a[1..] + b;
      FitsAppend(codec, deflate, OnFrame(codec, deflate, r, a[0]).0, a[1..], b);
    }
  }

  lemma FragmentFits(codec: Codec, deflate: bool, r: Reader, m: Sent, i: nat)
    requires Lossless(codec) && Idle(r) && WellSent(codec, deflate, m) && i < |FramesOf(m)|
    ensures Fits(codec, deflate, Collecting(r, m.opcode, m.compress, m.wire, i), FramesOf(m)[i])
  {
    hide Utf8Validator.Valid;
    var r1 := Collecting(r, m.opcode, m.compress, m.wire, i);
    var f := FramesOf(m)[i];
    assert f == Fragment(m.opcode, m.compress, m.wire, i);
    if f.fin {
      var ps := Payloads(FramesOf(m));
      assert ps[..i + 1] == ps[..i] + [f.payload];
      FragmentsPartition(m.opcode, m.compress, m.wire);
      assert ps[..i + 1] == ps;
      if i == 0 {
        assert m.wire[0..|m.wire|] == m.wire;
      }
      assert OnDataFrame(codec, deflate, r1, f).1 == Delivered(codec, KindOf(m.opcode), m.wire, m.compress);
      assert OnDataFrame(codec, deflate, r1, f).1 == Expected(m);
    }
  }

  lemma {:induction false} MessageFits(codec: Codec, deflate: bool, r: Reader, m: Sent, i: nat)
    requires Lossless(codec) && Idle(r) && WellSent(codec, deflate, m) && i <= |FramesOf(m)|
    ensures FitsAll(codec, deflate, r, FramesOf(m)[..i])
    decreases i
  {
    hide Fits, OnFrame, WellSent, Fragments;
    if i > 0 {
      var fs := FramesOf(m);
      MessageFits(codec, deflate, r, m, i - 1);
      assert fs[..i] == fs[..i - 1] + [fs[i - 1]];
      FitsAppend(codec, deflate, r, fs[..i - 1], [fs[i - 1]]);
      SentOpcode(codec, deflate, m);
      FragmentsDeliver(codec, deflate, r, m.opcode, m.compress, m.wire, i - 1);
      FragmentFits(codec, deflate, r, m, i - 1);
      FitsOne(codec, deflate, OnFrames(codec, deflate, r, fs[..i - 1]).0, fs[i - 1]);
    }
  }

  lemma SentOpcode(codec: Codec, deflate: bool, m: Sent)
    requires WellSent(codec, deflate, m)
    ensures (m.opcode == TEXT || m.opcode == BINARY) && m.compress == deflate
  {
  }

  lemma FitsOne(codec: Codec, deflate: bool, r: Reader, f: Frame)
    requires Fits(codec, deflate, r, f)
    ensures FitsAll(codec, deflate, r, [f])
  {
    hide Fits, OnFrame;
    assert [f][1..] == [];
  }

  lemma {:induction false} MessagesFit(codec: Codec, deflate: bool, r: Reader, ms: seq<Sent>)
    requires Lossless(codec) && Idle(r) && forall i | 0 <= i < |ms| :: WellSent(codec, deflate, ms[i])
    ensures FitsAll(codec, deflate, r, AllFrames(ms))
    decreases |ms|
  {
    hide Fits, OnFrame, WellSent, FramesOf;
    if ms != [] {
      var fs := FramesOf(ms[0]);
      MessageFits(codec, deflate, r, ms[0], |fs|);
      assert fs[..|fs|] == fs;
      MessageDelivers(codec, deflate, r, ms[0]);
      MessagesFit(codec, deflate, OnFrames(codec, deflate, r, fs).0, ms[1..]);
      FitsAppend(codec, deflate, r, fs, AllFrames(ms[1..]));
    }
  }

  lemma ControlFits(codec: Codec, deflate: bool, r: Reader, f: Frame)
    requires IsControl(f)
    ensures Fits(codec, deflate, r, f) && OnFrame(codec, deflate, r, f).0 == r
  {
  }

  lemma {:induction false} InterleavedFits(codec: Codec, deflate: bool, r: Reader, fs: seq<Frame>)
    requires FitsAll(codec, deflate, r, DataOnly(fs))
    ensures FitsAll(codec, deflate, r, fs)
    decreases |fs|
  {
    hide Fits, OnFrame, IsControl;
    if fs != [] {
      if IsControl(fs[0]) {
        ControlFits(codec, deflate, r, fs[0]);
        assert [] + DataOnly(fs[1..]) == DataOnly(fs[1..]);
        InterleavedFits(codec, deflate, r, fs[1..]);
      } else {
        assert DataOnly(fs) == [fs[0]] + DataOnly(fs[1..]);
        assert DataOnly(fs)[0] == fs[0] && DataOnly(fs)[1..] == DataOnly(fs[1..]);
        InterleavedFits(codec, deflate, OnFrame(codec, deflate, r, fs[0]).0, fs[1..]);
      }
    }
  }

  /** Everything an end writes is in sequence for its peer. */
  lemma LogFits(env: Env, e: End, start: Reader)
    requires EndOk(env, e) && SingleControls(e.conn.log) && Lossless(env.codec) && Idle(start)
    ensures FitsAll(env.codec, e.conn.cfg.deflate, start, Frames(e.conn.log))
  {
    hide OnFrames, Conserves, Balanced, Fits, Acceptables, SingleControls, WellSent, Fragments, FitsAll;
    var deflate := e.conn.cfg.deflate;
    MessagesFit(env.codec, deflate, start, e.done);
    MessagesDeliver(env.codec, deflate, start, e.done);
    var r1 := OnFrames(env.codec, deflate, start, AllFrames(e.done)).0;
    NothingFits(env.codec, deflate, r1);
    if e.current.Some? {
      MessageFits(env.codec, deflate, r1, e.current.value, e.next);
    }
    FitsAppend(env.codec, deflate, start, AllFrames(e.done), Started(e));
    SingleIsClean(e.conn.log);
    InterleavedFits(env.codec, deflate, start, Frames(e.conn.log));
  }

  lemma NothingFits(codec: Codec, deflate: bool, r: Reader)
    ensures FitsAll(codec, deflate, r, [])
  {
  }

  // ------------------------------------------------------------------ following a peer's log

  /** The reader has processed the first `j` frames of the log and holds a part of what follows them. */
  predicate Follows(env: Env, c: Conn, start: Reader, log: seq<WireFrame>, j: nat) {
    && j <= |log|
    && c.rx <= EncodeAll(log[j..])
    && c.reader == OnFrames(env.codec, c.cfg.deflate, start, Frames(log[..j])).0
  }

  lemma FramesTake(log: seq<WireFrame>, j: nat)
    requires j <= |log|
    ensures Frames(log[..j]) == Frames(log)[..j] && Frames(log[j..]) == Frames(log)[j..]
  {
  }

  lemma FollowNext(codec: Codec, deflate: bool, start: Reader, log: seq<WireFrame>, j: nat)
    requires j < |log| && FitsAll(codec, deflate, start, Frames(log))
    ensures var r := OnFrames(codec, deflate, start, Frames(log[..j])).0;
            && Fits(codec, deflate, r, log[j].frame)
            && OnFrames(codec, deflate, start, Frames(log[..j + 1])).0 == OnFrame(codec, deflate, r, log[j].frame).0
  {
    hide Fits, OnFrame, OnFrames;
    var fs := Frames(log);
    FramesTake(log, j);
    FramesTake(log, j + 1);
    assert fs == fs[..j] + fs[j..];
    FitsAppend(codec, deflate, start, fs[..j], fs[j..]);
    assert fs[..j + 1] == fs[..j] + [fs[j]];
    OnFramesAppend(codec, deflate, start, fs[..j], [fs[j]]);
    OnSingle(codec, deflate, OnFrames(codec, deflate, start, fs[..j]).0, fs[j]);
  }

  /** A frame in sequence other than CLOSE disturbs nothing, unless it is a ping that a closed socket cannot answer. */
  lemma HandleCalm(env: Env, c: Conn, f: Frame, now: int, code: nat, reason: bytes)
    requires NoErrors(env) && Listens(c, code, reason)
    requires Fits(env.codec, c.cfg.deflate, c.reader, f) && f.opcode != Framing.CLOSE
    requires Acceptable(f, c.cfg.deflate)
    ensures var c' := HandleFrame(env, c, f, now);
            Calm(c, c') || (!c.socket.open && EndedBy(c, c', code, reason))
  {
    hide SendData, OnDataFrame, Emittable;
    if f.opcode == PING {
      if c.socket.open {
        SendControlCalm(env, c, PONG, f.payload);
      } else {
        PongOnClosed(env, c, f.payload, code, reason);
      }
    }
  }

  lemma PongOnClosed(env: Env, c: Conn, payload: bytes, code: nat, reason: bytes)
    requires Listens(c, code, reason) && !c.socket.open && |payload| <= 125
    ensures EndedBy(c, SendData(env, c, PONG, payload, false), code, reason)
  {
    hide SendFragment;
    var f := Frame(true, false, PONG, payload);
    SendsOne(env, c, PONG, payload);
    FragmentOnClosed(env, c, f);
    OnWireFrame(env, c, f);
  }

  // ------------------------------------------------------------------ a dispatch loop that meets a CLOSE frame

  predicate HasClose(log: seq<WireFrame>) {
    exists i :: 0 <= i < |log| && log[i].frame.opcode == Framing.CLOSE
  }

  /** Some CLOSE frame of the log lies wholly within its first `got` bytes. */
  predicate CloseArrived(log: seq<WireFrame>, got: nat) {
    exists i :: 0 <= i < |log| && log[i].frame.opcode == Framing.CLOSE && EncodedTo(log, i) <= got
  }

  /** The number of bytes up to the end of the frame at `i`. */
  function EncodedTo(log: seq<WireFrame>, i: nat): (n: nat)
    requires i < |log|
  {
    |EncodeAll(log[..i + 1])|
  }

  /** Every CLOSE frame in the log carries this code and reason. */
  predicate OnlyClose(log: seq<WireFrame>, code: nat, reason: bytes) {
    forall i | 0 <= i < |log| :: log[i].frame.opcode == Framing.CLOSE ==> log[i].frame == CloseFrame(code, reason)
  }

  predicate Reports(reports: seq<CloseData>, code: nat, reason: bytes, remote: bool) {
    |reports| == 1 && reports[0].code == code && reports[0].reason == reason && reports[0].remote == remote
  }

  /** How a follower comes out of dispatch: still waiting for a CLOSE frame, or closed by one. */
  predicate Waited(env: Env, c: Conn, c': Conn, start: Reader, log: seq<WireFrame>, j: nat, j': nat) {
    && j <= j' <= |log|
    && Calm(c, c') && Follows(env, c', start, log, j')
    && EncodeAll(log[..j']) + c'.rx == EncodeAll(log[..j]) + c.rx
    && !HasClose(log[j..j'])
  }

  /** An open end, or one that waits for the answer to its own CLOSE frame. */
  predicate Listens(c: Conn, code: nat, reason: bytes) {
    c.state == OPEN || (c.state == CLOSING && c.close.code == code && c.close.reason == reason && !c.close.remote)
  }

  /** What is reported when the connection ends: the data stored, if an open end can no longer write its answer. */
  predicate EndReport(c: Conn, data: CloseData, code: nat, reason: bytes) {
    if c.state == OPEN && !c.socket.open then data == c.close
    else data.code == code && data.reason == reason && data.remote == (c.state == OPEN)
  }

  /** A connection ended by the peer's CLOSE frame, or by an answer that a closed socket does not take. */
  predicate EndedBy(c: Conn, c': Conn, code: nat, reason: bytes) {
    && c'.state == CLOSED
    && |c'.trace.reports| == |c.trace.reports| + 1 && c.trace.reports <= c'.trace.reports
    && EndReport(c, c'.trace.reports[|c.trace.reports|], code, reason)
    && (c.state == OPEN && c.socket.open ==> HasClose(c'.log))
    && c.log <= c'.log
    && (forall i | |c.log| <= i < |c'.log| ::
          Harmless(c'.log[i].frame) || c'.log[i].frame == CloseFrame(code, reason))
  }

  /**
    * A good CLOSE frame is answered by an open end with the same frame. If the socket takes the answer or blocks, the
    * end reports the code and reason as remote; if it refuses the answer, the end reports what was stored instead and
    * keeps the code and reason for the next connection. A closing end reports them as local.
    */
  lemma AnswerToClose(env: Env, c: Conn, now: int, code: nat, reason: bytes)
    requires GoodClose(code, reason)
    requires c.state == OPEN || (c.state == CLOSING && c.close.code == code && c.close.reason == reason)
    ensures var c' := HandleFrame(env, c, CloseFrame(code, reason), now);
            var answer := OnWire(env, c, CloseFrame(code, reason));
            var refused := Refused(env, c.socket.open, c.socket.attempts, |c.tx| + |Encode(answer)|);
            var data := CloseData(code, reason, |c.rx|, c.state == OPEN);
            && c'.state == CLOSED && !c'.socket.open && !c'.cancel
            && c'.log == (if c.state == OPEN then c.log + [answer] else c.log)
            && c'.trace.reports == c.trace.reports + [if c.state == OPEN && refused then c.close else data]
            && c'.close == (if c.state == OPEN && refused then data else DEFAULT_CLOSE)
  {
    hide CloseStatus, GoodClose, SendFragment, Encode, Refused, OnWire;
    CloseStatusInverts(code, reason);
    if c.state == OPEN {
      AnswerIsShort(code, reason);
      SendsOne(env, c, Framing.CLOSE, ClosePayload(code, reason));
      FragmentFails(env, c, CloseFrame(code, reason));
      SendFragmentWrites(env, c, CloseFrame(code, reason));
    }
  }

  lemma AnswerIsShort(code: nat, reason: bytes)
    requires GoodClose(code, reason)
    ensures |ClosePayload(code, reason)| < 65536
  {
  }

  lemma HandleCloseFrame(env: Env, c: Conn, now: int, code: nat, reason: bytes)
    requires NoErrors(env) && GoodClose(code, reason) && Listens(c, code, reason)
    ensures EndedBy(c, HandleFrame(env, c, CloseFrame(code, reason), now), code, reason)
  {
    hide HandleFrame, CloseStatus, GoodClose, Encode, Refused, OnWire, ClosePayload;
    AnswerToClose(env, c, now, code, reason);
    var answer := OnWire(env, c, CloseFrame(code, reason));
    EncodedIsLong(answer);
    OnWireFrame(env, c, CloseFrame(code, reason));
    ClosedRefuses(env, c.socket.attempts, |c.tx| + |Encode(answer)|);
    NothingRefused(env, c.socket.attempts, |c.tx| + |Encode(answer)|);
    var c' := HandleFrame(env, c, CloseFrame(code, reason), now);
    if c.state == OPEN { assert c'.log[|c.log|] == answer; }
  }

  lemma CalmThenEnded(a: Conn, b: Conn, c: Conn, code: nat, reason: bytes)
    requires Calm(a, b) && EndedBy(b, c, code, reason)
    ensures EndedBy(a, c, code, reason)
  {
    assert forall i | 0 <= i < |b.log| :: c.log[i] == b.log[i];
  }

  lemma EndedThenSilent(a: Conn, b: Conn, c: Conn, code: nat, reason: bytes)
    requires EndedBy(a, b, code, reason)
    requires c.state == CLOSED && c.log == b.log && c.trace.reports == b.trace.reports
    ensures EndedBy(a, c, code, reason)
  {
  }

  lemma CalmListens(c: Conn, c': Conn, code: nat, reason: bytes)
    requires Calm(c, c') && Listens(c, code, reason)
    ensures Listens(c', code, reason)
  {
  }

  lemma ListensIsLive(c: Conn, code: nat, reason: bytes)
    requires Listens(c, code, reason)
    ensures c.state == OPEN || c.state == CLOSING
  {
  }

  /** A follower's next frame, when it is not a CLOSE frame: the follower moves on by one frame, or cannot answer. */
  lemma PassesFrame(env: Env, c: Conn, now: int, start: Reader, log: seq<WireFrame>, j: nat, rest: bytes,
                    code: nat, reason: bytes)
    requires NoErrors(env) && Guarded(c) && Listens(c, code, reason)
    requires Follows(env, c, start, log, j) && Acceptables(log, c.cfg.deflate)
    requires FitsAll(env.codec, c.cfg.deflate, start, Frames(log))
    requires j < |log| && log[j].frame.opcode != Framing.CLOSE && rest <= EncodeAll(log[j + 1..])
    ensures var c2 := HandleFrame(env, c.(rx := UnmaskHead(c.rx, c.cfg.deflate)), log[j].frame, now).(rx := rest);
            || (Calm(c, c2) && Follows(env, c2, start, log, j + 1) && Guarded(c2))
            || (!c.socket.open && EndedBy(c, c2, code, reason))
  {
    hide HandleFrame, UnmaskHead, OnFrame, OnFrames, FitsAll, Fits, Acceptables, Acceptable, ControlExtends, Calm,
         EncodeAll, Core, EndedBy, Listens;
    var deflate, f := c.cfg.deflate, log[j].frame;
    var c0 := c.(rx := UnmaskHead(c.rx, deflate));
    var c1 := HandleFrame(env, c0, f, now);
    var c2 := c1.(rx := rest);
    ListensIsLive(c, code, reason);
    CalmBuffer(c, c0.rx);
    FollowNext(env.codec, deflate, start, log, j);
    GuardedBuffer(c, c0.rx);
    HandleFrameHandles(env, c0, f, now);
    AcceptableAt(log, j, deflate);
    CalmListens(c, c0, code, reason);
    HandleCalm(env, c0, f, now, code, reason);
    if Calm(c0, c1) {
      CalmFacts(c0, c1);
      CalmBuffer(c1, rest);
      CalmTransitive(c, c0, c1);
      CalmTransitive(c, c1, c2);
      CoreGuards(c0, c1);
      GuardedBuffer(c1, rest);
    } else {
      CalmThenEnded(c, c0, c1, code, reason);
      EndedAnyBuffer(c, c1, rest, code, reason);
    }
  }

  lemma EndedAnyBuffer(c: Conn, c': Conn, rx: bytes, code: nat, reason: bytes)
    requires EndedBy(c, c', code, reason)
    ensures EndedBy(c, c'.(rx := rx), code, reason)
  {
  }

  lemma WaitedOn(env: Env, c: Conn, c2: Conn, c': Conn, start: Reader, log: seq<WireFrame>, j: nat, j': nat)
    requires Calm(c, c2) && j < |log| && log[j].frame.opcode != Framing.CLOSE && c.rx == Encode(log[j]) + c2.rx
    requires Waited(env, c2, c', start, log, j + 1, j')
    ensures Waited(env, c, c', start, log, j, j')
  {
    hide Calm, Follows, EncodeAll, Encode;
    CalmTransitive(c, c2, c');
    assert log[j..j'] == [log[j]] + log[j + 1..j'];
    NoCloseCons(log[j], log[j + 1..j']);
    EncodeStep(log, j);
    assert EncodeAll(log[..j + 1]) + c2.rx == EncodeAll(log[..j]) + (Encode(log[j]) + c2.rx);
  }

  /** A follower's next frame, when it is the CLOSE frame. */
  lemma MeetsClose(env: Env, c: Conn, now: int, f: Frame, rest: bytes, code: nat, reason: bytes)
    requires NoErrors(env) && Listens(c, code, reason) && GoodClose(code, reason) && f == CloseFrame(code, reason)
    ensures var c2 := HandleFrame(env, c.(rx := UnmaskHead(c.rx, c.cfg.deflate)), f, now).(rx := rest);
            EndedBy(c, c2, code, reason)
  {
    hide HandleFrame, UnmaskHead, GoodClose, Calm, EndedBy, CloseFrame, Listens;
    var c0 := c.(rx := UnmaskHead(c.rx, c.cfg.deflate));
    var c1 := HandleFrame(env, c0, f, now);
    CalmBuffer(c, c0.rx);
    CalmListens(c, c0, code, reason);
    HandleCloseFrame(env, c0, now, code, reason);
    CalmThenEnded(c, c0, c1, code, reason);
    EndedAnyBuffer(c, c1, rest, code, reason);
  }

  /** What is left of the loop when the connection has ended changes neither the log nor the reports. */
  lemma EndedLoop(env: Env, c: Conn, c2: Conn, now: int, code: nat, reason: bytes)
    requires EndedBy(c, c2, code, reason)
    ensures EndedBy(c, DispatchLoop(env, c2, now).0, code, reason)
  {
    hide DispatchLoop;
    ClosedIsSilent(env, c2, now);
    EndedThenSilent(c, c2, DispatchLoop(env, c2, now).0, code, reason);
  }

  /** dispatch on a part of a well-written log whose CLOSE frames all carry one code and reason. */
  lemma {:induction false} LoopFollows(env: Env, c: Conn, now: int, start: Reader, log: seq<WireFrame>, j: nat,
                                       code: nat, reason: bytes) returns (j': nat)
    requires NoErrors(env) && GoodClose(code, reason) && Guarded(c) && Listens(c, code, reason)
    requires Follows(env, c, start, log, j) && Acceptables(log, c.cfg.deflate) && OnlyClose(log, code, reason)
    requires FitsAll(env.codec, c.cfg.deflate, start, Frames(log))
    ensures var c' := DispatchLoop(env, c, now).0;
            || Waited(env, c, c', start, log, j, j')
            || (EndedBy(c, c', code, reason)
                && (c.socket.open ==> CloseArrived(log, |EncodeAll(log[..j])| + |c.rx|)))
    decreases |c.rx|
  {
    hide HandleFrame, TakeFrame, UnmaskHead, OnFrames, FitsAll, Acceptables, GoodClose, Stuck, Calm, EndedBy,
         EncodeAll, Encode, Guarded, Waited, Listens;
    var deflate := c.cfg.deflate;
    NextOfLog(c.rx, log, j, deflate);
    match TakeFrame(c.rx, deflate)
    case None =>
      j' := j;
      LeavesQuietly(env, c, now);
      WaitsHere(env, c, start, log, j);
    case Some((f, rest)) =>
      var c2 := HandleFrame(env, c.(rx := UnmaskHead(c.rx, deflate)), f, now).(rx := rest);
      EncodeStep(log, j);
      j' := j;
      if f.opcode == Framing.CLOSE {
        assert EncodedTo(log, j) <= |EncodeAll(log[..j])| + |c.rx|;
        MeetsClose(env, c, now, f, rest, code, reason);
        EndedLoop(env, c, c2, now, code, reason);
      } else {
        PassesFrame(env, c, now, start, log, j, rest, code, reason);
        if EndedBy(c, c2, code, reason) && !c.socket.open {
          EndedLoop(env, c, c2, now, code, reason);
        } else {
          CalmFacts(c, c2);
          CalmListens(c, c2, code, reason);
          j' := LoopFollows(env, c2, now, start, log, j + 1, code, reason);
          var c' := DispatchLoop(env, c2, now).0;
          if Waited(env, c2, c', start, log, j + 1, j') {
            WaitedOn(env, c, c2, c', start, log, j, j');
          } else {
            CalmThenEnded(c, c2, c', code, reason);
          }
        }
      }
  }

  lemma WaitsHere(env: Env, c: Conn, start: Reader, log: seq<WireFrame>, j: nat)
    requires Follows(env, c, start, log, j)
    ensures Waited(env, c, c, start, log, j, j)
  {
    hide EncodeAll, OnFrames;
    CalmReflexive(c);
    assert log[j..j] == [];
  }

  lemma AcceptableAt(log: seq<WireFrame>, j: nat, deflate: bool)
    requires j < |log| && Acceptables(log, deflate)
    ensures Acceptable(log[j].frame, deflate)
  {
  }

  lemma NoCloseCons(w: WireFrame, log: seq<WireFrame>)
    requires w.frame.opcode != Framing.CLOSE && !HasClose(log)
    ensures !HasClose([w] + log)
  {
    forall i | 0 <= i < |[w] + log|
      ensures ([w] + log)[i].frame.opcode != Framing.CLOSE
    {
      if i > 0 {
        assert ([w] + log)[i] == log[i - 1];
      }
    }
  }

  lemma CoreGuards(c: Conn, c': Conn)
    ensures Core(c, c') && Guarded(c) ==> Guarded(c')
  {
  }

  lemma CalmReflexive(c: Conn)
    ensures Calm(c, c)
  {
  }

  lemma CalmBuffer(c: Conn, rx: bytes)
    ensures Calm(c, c.(rx := rx))
  {
  }

  lemma CalmFacts(c: Conn, c': Conn)
    requires Calm(c, c')
    ensures c'.state == c.state && c'.close == c.close && c'.cfg == c.cfg && c'.socket.open == c.socket.open
    ensures c'.trace.reports == c.trace.reports
  {
  }

  lemma LeavesQuietly(env: Env, c: Conn, now: int)
    requires TakeFrame(c.rx, c.cfg.deflate).None? && !Stuck(c.rx, c.cfg.deflate)
    ensures LeaveLoop(env, c, now).0 == c
  {
    hide Close;
  }
}

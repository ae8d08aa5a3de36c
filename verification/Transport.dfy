/** The WebSocketTransport object: its fields, and its methods step by step. */
module Transport {
  import opened Bytes
  import opened Framing
  import opened Reassembly
  import opened Delivery
  import opened TransportSpec
  import Utf8Grammar
  import Utf8Validator

  /** `d` divides `n`. */
  ghost predicate Divides(d: int, n: int) { d > 0 && exists k: int :: n == d * k }

  ghost predicate CommonDivisor(d: int, a: int, b: int) { Divides(d, a) && Divides(d, b) }

  lemma DividesCombination(d: int, a: int, b: int, q: int)
    requires Divides(d, a) && Divides(d, b)
    ensures Divides(d, a + b * q)
  {
    var k: int :| a == d * k;
    var l: int :| b == d * l;
    Regroup(d, k, l, q);
  }

  lemma Regroup(d: int, k: int, l: int, q: int)
    ensures d * k + (d * l) * q == d * (k + l * q)
  {
  }

  lemma CommonDivisorStep(d: int, a: int, b: int)
    requires b > 0 && a >= 0
    ensures CommonDivisor(d, a, b) <==> CommonDivisor(d, b, a % b)
  {
    hide Divides;
    var q := a / b;
    assert a + b * -q == a % b && a % b + b * q == a;
    if CommonDivisor(d, a, b) { DividesCombination(d, a, b, -q); }
    if CommonDivisor(d, b, a % b) { DividesCombination(d, a % b, b, q); }
  }

  /** greatestCommonDivisor, for the positive arguments it is called with. */
  method GreatestCommonDivisor(x: int, y: int) returns (r: int)
    requires x > 0 && y > 0
    ensures CommonDivisor(r, x, y)
    ensures forall d | CommonDivisor(d, x, y) :: d <= r
  {
    var a, b := x, y;
    while b != 0
      invariant a > 0 && b >= 0
      invariant forall d :: CommonDivisor(d, x, y) <==> CommonDivisor(d, a, b)
      decreases b
    {
      forall d
        ensures CommonDivisor(d, a, b) <==> CommonDivisor(d, b, a % b)
      {
        CommonDivisorStep(d, a, b);
      }
      var t := b;
      b := a % b;
      a := t;
    }
    r := a;
    assert a == a * 1 && 0 == a * 0;
    assert CommonDivisor(a, a, 0);
    forall d | CommonDivisor(d, x, y)
      ensures d <= r
    {
      assert CommonDivisor(d, a, 0);
      var k: int :| a == d * k;
      assert k >= 1;
      assert d * k >= d;
    }
  }

  datatype Pass = Continue | Break | Return

  /** The state after one pass that has processed a frame. */
  ghost function AfterFrame(env: Env, c: Conn, now: int): (c': Conn)
    requires TakeFrame(c.rx, c.cfg.deflate).Some?
    ensures |c'.rx| < |c.rx|
  {
    var (f, rest) := TakeFrame(c.rx, c.cfg.deflate).value;
    HandleFrame(env, c.(rx := UnmaskHead(c.rx, c.cfg.deflate)), f, now).(rx := rest)
  }

  lemma LoopStep(env: Env, c: Conn, now: int)
    ensures DispatchLoop(env, c, now) ==
            if TakeFrame(c.rx, c.cfg.deflate).Some? then DispatchLoop(env, AfterFrame(env, c, now), now)
            else LeaveLoop(env, c, now)
  {
    hide HandleFrame, LeaveLoop;
  }

  class WebSocketTransport {
    const env: Env

    var cfg: Config
    var readyState: ReadyState
    var closeData: CloseData
    var requestInitCancellation: bool
    var clock: Clock

    var rxbuf: bytes
    var reader: Reader  // _chunks, _fragmentedMessageKind and _compressedMessage

    var txbuf: bytes
    var socket: Socket
    var drawn: nat

    ghost var log: seq<WireFrame>
    ghost var trace: Trace

    ghost function Value(): Conn
      reads this
    {
      Conn(cfg, readyState, closeData, requestInitCancellation, clock, rxbuf, reader, txbuf, socket, drawn, log, trace)
    }

    /** A transport that has never been connected; the source leaves `kind` uninitialised. */
    constructor (env: Env, kind: MessageKind, now: int)
      ensures this.env == env
      ensures Value() == Conn(Config(true, false, true, -1, -1, -1), CLOSED, DEFAULT_CLOSE, false,
                              Clock(now, now, now, now), [], Reader([], kind, false),
                              [], Socket(false, 0, []), 0, [], Trace([], [], 0))
    {
      this.env := env;
      cfg := Config(true, false, true, -1, -1, -1);
      readyState, closeData, requestInitCancellation := CLOSED, DEFAULT_CLOSE, false;
      clock := Clock(now, now, now, now);
      rxbuf, reader := [], Reader([], kind, false);
      txbuf, socket, drawn := [], Socket(false, 0, []), 0;
      log, trace := [], Trace([], [], 0);
    }

    method Configure(deflate: bool, pong: bool, interval: int, timeout: int)
      modifies this`cfg
      ensures cfg == Config(old(cfg).useMask, deflate, pong, interval, timeout, cfg.gcd)
      ensures interval > 0 && timeout > 0 ==>
                CommonDivisor(cfg.gcd, interval, timeout)
                && forall d | CommonDivisor(d, interval, timeout) :: d <= cfg.gcd
      ensures interval <= 0 < timeout ==> cfg.gcd == timeout
      ensures timeout <= 0 ==> cfg.gcd == interval
    {
      var gcd;
      if interval > 0 && timeout > 0 {
        gcd := GreatestCommonDivisor(interval, timeout);
      } else if timeout > 0 {
        gcd := timeout;
      } else {
        gcd := interval;
      }
      cfg := Config(cfg.useMask, deflate, pong, interval, timeout, gcd);
    }

    method SwitchToClosed()
      modifies this
      ensures Value() == ToClosed(old(Value()))
    {
      if readyState == CLOSED {
        return;
      }
      trace := trace.(reports := trace.reports + [closeData]);
      closeData := DEFAULT_CLOSE;
      readyState := CLOSED;
    }

    method SwitchToOpen(now: int)
      modifies this
      ensures Value() == ToOpen(old(Value()), now)
    {
      if readyState == OPEN {
        return;
      }
      clock := clock.(lastPing := now);
      clock := clock.(lastPong := now);
      if cfg.gcd > 0 {
        clock := clock.(nextGcd := now + cfg.gcd * SECOND);
      }
      trace := trace.(opens := trace.opens + 1);
      readyState := OPEN;
    }

    /** connectToUrl and connectToSocket: a connect may fail before it has reached the handshake, or in it. */
    method FinishConnect(reached: bool, success: bool, now: int)
      requires success ==> reached
      modifies this
      ensures Value() == if success then Connect(old(Value()), now) else ConnectFails(old(Value()), reached)
    {
      if !reached {
        return;
      }
      requestInitCancellation := false;
      if success {
        socket := socket.(open := true);
        SwitchToOpen(now);
      }
    }

    method CloseSocket()
      modifies this`socket
      ensures Value() == TransportSpec.CloseSocket(old(Value()))
    {
      socket := socket.(open := false);
    }

    method CloseSocketAndSwitchToClosedState(code: nat, reason: bytes, wireSize: nat, remote: bool)
      modifies this
      ensures Value() == Finish(old(Value()), CloseData(code, reason, wireSize, remote))
    {
      CloseSocket();
      closeData := CloseData(code, reason, wireSize, remote);
      SwitchToClosed();
      requestInitCancellation := false;
    }

    // ---------------------------------------------------------------- sending

    method SendOnSocket()
      modifies this
      ensures Value() == Drain(env, old(Value()))
    {
      while |txbuf| > 0
        invariant Drain(env, Value()) == Drain(env, old(Value()))
        decreases |txbuf|
      {
        var result := if socket.open then env.writes(socket.attempts) else WriteError;
        var n := Taken(result, |txbuf|);
        socket := socket.(attempts := socket.attempts + 1, accepted := socket.accepted + txbuf[..n]);
        if n > 0 {
          txbuf := txbuf[n..];
        } else if result.WouldBlock? {
          assert txbuf[0..] == txbuf;
          return;
        } else {
          assert txbuf[0..] == txbuf;
          CloseSocket();
          SwitchToClosed();
          return;
        }
      }
    }

    /** The masking loop works in place on the bytes just appended and on no others. */
    method AppendToSendBuffer(header: bytes, payload: bytes, key: Key)
      modifies this`txbuf
      ensures txbuf == old(txbuf) + header + if cfg.useMask then Masked(key, payload) else payload
    {
      hide Xor, MaskedRange, Masked;
      ghost var at := |txbuf + header|;
      txbuf := txbuf + header + payload;
      ghost var before := txbuf;
      if cfg.useMask {
        var n := |payload|;
        var i := 0;
        MaskNone(key, before, at);
        while i != n
          invariant 0 <= i <= n && txbuf == MaskedRange(key, before, at, i)
        {
          MaskOneMore(key, before, at, i);
          txbuf := txbuf[|txbuf| - n + i := Xor(txbuf[|txbuf| - n + i], key[i % 4])];
          i := i + 1;
        }
        MaskedEnd(key, old(txbuf) + header, payload);
      }
    }

    /** The header vector of sendFragment, filled in branch by branch. */
    method BuildHeader(f: Frame, key: Key) returns (header: bytes)
      ensures header == EncodeHeader(f, cfg.useMask, key)
    {
      var n := |f.payload|;
      var first: byte := f.opcode;
      if f.fin {
        first := first + 0x80;
      }
      if f.rsv1 {
        first := first + 0x40;
      }
      var maskBit := if cfg.useMask then 0x80 else 0;
      if n < 126 {
        header := [first, n + maskBit];
      } else if n < 65536 {
        header := [first, 126 + maskBit, n / 256 % 256, n % 256];
      } else {
        header := [first, 127 + maskBit] + LengthField(n);
      }
      if cfg.useMask {
        header := header + key;
      }
    }

    method SendFragment(opcode: Opcode, fin: bool, payload: bytes, compress: bool)
      modifies this
      ensures Value() == TransportSpec.SendFragment(env, old(Value()),
                                                    Frame(fin, compress && opcode != CONTINUATION, opcode, payload))
    {
      hide EncodeHeader, Masked, Drain, KeyOf;
      ghost var c := Value();
      var f := Frame(fin, compress && opcode != CONTINUATION, opcode, payload);
      var key := KeyOf(env.entropy(drawn));
      var header := BuildHeader(f, key);
      AppendToSendBuffer(header, payload, key);
      assert txbuf == c.tx + EncodeFrame(f, cfg.useMask, key);
      log := log + [OnWire(env, c, f)];
      drawn := drawn + 1;
      SendOnSocket();
    }

    /** sendData: one fragment per pass, the last one taking the remainder. */
    method SendData(opcode: Opcode, message: bytes, compress: bool) returns (success: bool)
      modifies this
      ensures Value() == TransportSpec.SendData(env, old(Value()), opcode, message, compress)
      ensures success <==> old(MaySend(Value())) && WireBytes(env, message, compress).Some?
    {
      hide TransportSpec.SendFragment;
      if readyState != OPEN && readyState != CLOSING {
        return false;
      }
      var wire := message;
      if compress {
        match env.codec.compress(message)
        case None => return false;
        case Some(w) => wire := w;
      }
      ghost var fs := Fragments(opcode, compress, wire);
      if |wire| < CHUNK {
        assert wire[0..|wire|] == wire;
        assert fs[0] == Fragment(opcode, compress, wire, 0) && fs[1..] == [];
        SendFragment(opcode, true, wire, compress);
        assert Value() == SendFragments(env, Value(), fs[1..]);
      } else {
        var steps := |wire| / CHUNK;
        var begin := 0;
        var i := 0;
        while i < steps
          invariant 0 <= i <= steps && begin == i * CHUNK
          invariant SendFragments(env, Value(), fs[i..]) == SendFragments(env, old(Value()), fs)
        {
          var lastStep := i + 1 == steps;
          var end := if lastStep then |wire| else begin + CHUNK;
          var opcodeType: Opcode := if i == 0 then opcode else CONTINUATION;
          assert fs[i..][1..] == fs[i + 1..];
          assert fs[i] == Fragment(opcode, compress, wire, i);
          SendFragment(opcodeType, lastStep, wire[begin..end], compress);
          begin := begin + CHUNK;
          i := i + 1;
        }
        assert fs[i..] == [];
      }
      success := true;
    }

    method SendPing(message: bytes, now: int)
      modifies this
      ensures Value() == TransportSpec.SendPing(env, old(Value()), message, now)
    {
      var success := SendData(PING, message, false);
      if success {
        clock := clock.(lastPing := now);
      }
    }

    method SendCloseFrame(code: nat, reason: bytes)
      modifies this
      ensures Value() == TransportSpec.SendCloseFrame(env, old(Value()), code, reason)
    {
      if code != NO_STATUS {
        var closure := [code / 256 % 256, code % 256] + reason;
        var _ := SendData(Framing.CLOSE, closure, false);
      } else {
        var _ := SendData(Framing.CLOSE, [], false);
      }
    }

    method Close(code: nat, reason: bytes, wireSize: nat, now: int)
      modifies this
      ensures Value() == TransportSpec.Close(env, old(Value()), code, reason, wireSize, now)
    {
      requestInitCancellation := true;
      if readyState == CLOSING || readyState == CLOSED {
        return;
      }
      closeData := CloseData(code, reason, if wireSize == 0 then |reason| else wireSize, false);
      clock := clock.(closingAt := now);
      readyState := CLOSING;
      SendCloseFrame(code, reason);
    }

    // ---------------------------------------------------------------- receiving

    method UnmaskReceiveBuffer(ws: Header)
      requires |rxbuf| >= ws.headerSize + ws.length
      modifies this`rxbuf
      ensures rxbuf == UnmaskedBuffer(ws, old(rxbuf))
    {
      hide Xor, MaskedRange, Masked;
      ghost var before := rxbuf;
      if ws.mask {
        var j := 0;
        MaskNone(ws.key, before, ws.headerSize);
        while j != ws.length
          invariant 0 <= j <= ws.length && rxbuf == MaskedRange(ws.key, before, ws.headerSize, j)
        {
          MaskOneMore(ws.key, before, ws.headerSize, j);
          rxbuf := rxbuf[j + ws.headerSize := Xor(rxbuf[j + ws.headerSize], ws.key[j % 4])];
          j := j + 1;
        }
      }
      UnmaskedIsRange(ws, before);
    }

    method GetMergedChunks() returns (msg: bytes)
      ensures msg == Flatten(reader.chunks)
    {
      var chunks := reader.chunks;
      msg := [];
      for i := 0 to |chunks|
        invariant msg + Flatten(chunks[i..]) == Flatten(chunks)
      {
        assert chunks[i..][1..] == chunks[i + 1..];
        msg := msg + chunks[i];
      }
    }

    method EmitMessage(kind: MessageKind, message: bytes, compressed: bool, now: int)
      modifies this
      ensures Value() == Emit(env, old(Value()), Delivered(env.codec, kind, message, compressed), now)
    {
      var text, failed := message, false;
      if compressed && kind != MsgFragment {
        var (success, out) := env.codec.decompress(message);
        text, failed := out, !success;
      }
      var invalid := false;
      if kind == MsgText {
        Utf8Validator.ValidIffString(text);
        var valid := Utf8Validator.ValidateUtf8(text);
        invalid := !valid;
      }
      if invalid {
        Close(INVALID_PAYLOAD, INVALID_PAYLOAD_MESSAGE, 0, now);
      } else {
        trace := trace.(delivered := trace.delivered + [Callback(kind, text, |message|, failed)]);
      }
    }

    method OnData(f: Frame, now: int)
      requires IsData(f)
      modifies this
      ensures Value() == HandleData(env, old(Value()), f, now)
    {
      ghost var c := Value();
      if f.opcode != CONTINUATION {
        reader := reader.(kind := if f.opcode == TEXT then MsgText else MsgBinary);
        reader := reader.(compressed := cfg.deflate && f.rsv1);
        if reader.chunks != [] {
          CloseIgnoresReader(env, c, reader, PROTOCOL_ERROR, DATA_SEQUENCE_MESSAGE, 0, now);
          Close(PROTOCOL_ERROR, DATA_SEQUENCE_MESSAGE, 0, now);
        }
      } else if reader.chunks == [] {
        CloseIgnoresReader(env, c, reader, PROTOCOL_ERROR, CONTINUATION_SEQUENCE_MESSAGE, 0, now);
        Close(PROTOCOL_ERROR, CONTINUATION_SEQUENCE_MESSAGE, 0, now);
      }
      ghost var checked := CheckSequence(env, c, f, now);
      assert Value() == checked.(reader := Opened(c.reader, f, c.cfg.deflate));
      Accumulate(f, now, c, checked);
    }

    /** The second half of the data branch: emit, or add to the chunks. */
    method Accumulate(f: Frame, now: int, ghost c: Conn, ghost checked: Conn)
      requires IsData(f)
      requires Value() == checked.(reader := Opened(c.reader, f, c.cfg.deflate))
      modifies this
      ensures var (r, cb) := OnDataFrame(env.codec, c.cfg.deflate, c.reader, f);
              Value() == Emit(env, checked.(reader := r), cb, now)
    {
      ghost var started := reader;
      if f.fin && reader.chunks == [] {
        ghost var cb := Delivered(env.codec, reader.kind, f.payload, reader.compressed);
        EmitIgnoresReader(env, checked.(reader := started), started.(compressed := false), cb, now);
        EmitMessage(reader.kind, f.payload, reader.compressed, now);
        EmitKeepsReader(env, checked.(reader := started), cb, now);
        reader := reader.(compressed := false);
      } else {
        reader := reader.(chunks := reader.chunks + [f.payload]);
        if f.fin {
          var msg := GetMergedChunks();
          ghost var cb := Delivered(env.codec, reader.kind, msg, reader.compressed);
          EmitIgnoresReader(env, Value(), started.(chunks := [], compressed := false), cb, now);
          EmitKeepsReader(env, Value(), cb, now);
          EmitMessage(reader.kind, msg, reader.compressed, now);
          reader := reader.(chunks := []);
          reader := reader.(compressed := false);
        } else {
          EmitMessage(MsgFragment, [], false, now);
        }
      }
    }

    method OnClose(payload: bytes)
      modifies this
      ensures Value() == HandleClose(env, old(Value()), Frame(true, false, Framing.CLOSE, payload))
    {
      var code, reason := 0, [];
      if |payload| >= 2 {
        code := Length2(payload[0], payload[1]);
        if |payload| > 2 {
          reason := payload[2..];
        }
        assert reason == payload[2..];
        Utf8Validator.ValidIffString(reason);
        var valid := Utf8Validator.ValidateUtf8(reason);
        if !valid {
          code, reason := INVALID_PAYLOAD, INVALID_PAYLOAD_MESSAGE;
        }
        if code < 1000 || code == 1004 || code == 1006 || (code > 1013 && code < 3000) {
          reason := INVALID_CLOSE_CODE_MESSAGE + Text(": ") + Digits(code);
          code := PROTOCOL_ERROR;
        }
      } else {
        code, reason := NO_STATUS, NO_STATUS_MESSAGE;
      }
      assert (code, reason) == CloseStatus(payload);
      if readyState != CLOSING {
        SendKeepsRx(env, Value(), Framing.CLOSE, ClosePayload(code, reason), false);
        SendCloseFrame(code, reason);
        CloseSocketAndSwitchToClosedState(code, reason, |rxbuf|, true);
      } else if closeData.code == code && closeData.reason == reason {
        CloseSocketAndSwitchToClosedState(code, reason, |rxbuf|, false);
      }
    }

    method OnFrame(f: Frame, now: int)
      modifies this
      ensures Value() == HandleFrame(env, old(Value()), f, now)
    {
      if IsData(f) {
        OnData(f, now);
      } else if f.opcode == PING {
        if cfg.enablePong {
          var _ := SendData(PONG, f.payload, false);
        }
        EmitMessage(MsgPing, f.payload, false, now);
      } else if f.opcode == PONG {
        clock := clock.(lastPong := now);
        EmitMessage(MsgPong, f.payload, false, now);
      } else if f.opcode == Framing.CLOSE {
        OnClose(f.payload);
      } else {
        Close(PROTOCOL_ERROR, PROTOCOL_ERROR_MESSAGE, |rxbuf|, now);
      }
    }

    /** One pass of the dispatch loop: go on, leave the loop by `break`, or return. */
    method DispatchOnce(now: int) returns (pass: Pass)
      modifies this
      ensures pass == Continue ==>
                TakeFrame(old(rxbuf), old(cfg.deflate)).Some?
                && Value() == AfterFrame(env, old(Value()), now)
      ensures pass != Continue ==>
                TakeFrame(old(rxbuf), old(cfg.deflate)).None?
                && (Value(), pass == Break) == LeaveLoop(env, old(Value()), now)
    {
      hide HandleFrame, TransportSpec.Close, NextFrame, ParseHeader, UnmaskedBuffer, HeaderSize, Unmasked,
           TakeFrame, UnmaskHead, LeaveLoop, AfterFrame;
      ghost var rx, c := rxbuf, Value();
      Classify(rx, cfg.deflate);
      NoFrame(env, c, now);
      if |rxbuf| < 2 || |rxbuf| < HeaderSize(rxbuf[1]) {
        return Break;
      }
      var ws := ParseHeader(rxbuf);
      if (ws.rsv1 && !cfg.deflate) || ws.rsv2 || ws.rsv3 {
        Close(PROTOCOL_ERROR, RESERVED_BIT_MESSAGE, |rxbuf|, now);
        return Return;
      }
      if |rxbuf| < ws.headerSize + ws.length {
        return Return;
      }
      if !ws.fin && (ws.opcode == PING || ws.opcode == PONG || ws.opcode == Framing.CLOSE) {
        Close(PROTOCOL_ERROR, CONTROL_FRAGMENTED_MESSAGE, 0, now);
        return Return;
      }
      UnmaskReceiveBuffer(ws);
      var n := ws.headerSize + ws.length;
      var frameData := rxbuf[ws.headerSize..n];
      UnmaskedHead(rx, ws);
      WholeFrame(env, c, ws, frameData, now);
      if ws.opcode == PING && |frameData| > 125 {
        Close(PROTOCOL_ERROR, PING_OVERSIZED_MESSAGE, 0, now);
        return Return;
      }
      FinishFrame(FrameOf(ws, frameData), n, now);
      pass := Continue;
    }

    /** The rest of a pass: the frame is processed and its bytes leave the buffer. */
    method FinishFrame(f: Frame, n: nat, now: int)
      requires n <= |rxbuf|
      modifies this
      ensures Value() == HandleFrame(env, old(Value()), f, now).(rx := old(rxbuf)[n..])
    {
      hide HandleFrame;
      HandleKeepsRx(env, Value(), f, now);
      OnFrame(f, now);
      rxbuf := rxbuf[n..];
    }

    method Dispatch(result: PollResult, now: int)
      modifies this
      ensures Value() == TransportSpec.Dispatch(env, old(Value()), result, now)
    {
      hide AfterFrame, LeaveLoop, TakeFrame, ToClosed, Finish;
      ghost var whole := DispatchLoop(env, Value(), now);
      while true
        invariant DispatchLoop(env, Value(), now) == whole
        decreases |rxbuf|
      {
        LoopStep(env, Value(), now);
        var pass := DispatchOnce(now);
        if pass == Break {
          break;
        } else if pass == Return {
          return;
        }
      }
      DropConnection(result);
    }

    method DropConnection(result: PollResult)
      modifies this
      ensures Value() == if result == AbnormalClose then AfterAbnormal(old(Value())) else old(Value())
    {
      if result == AbnormalClose {
        rxbuf := [];
        if readyState == CLOSING {
          CloseSocket();
          SwitchToClosed();
        } else if readyState != CLOSED {
          CloseSocketAndSwitchToClosedState(ABNORMAL_CLOSE, ABNORMAL_CLOSE_MESSAGE, 0, false);
        }
      }
    }

    // ---------------------------------------------------------------- polling

    method Poll(now: int, input: PollInput, later: int) returns (r: PollResult)
      modifies this
      ensures (Value(), r) == TransportSpec.Poll(env, old(Value()), now, input, later)
    {
      hide TransportSpec.PollTimers, PollWait, ApplyInput, CheckClosingDelay;
      PollTimers(now);
      AdvancePeriod(now);
      r := AwaitSocket(input);
      if r == Succeeded {
        CheckDelay(later);
      }
    }

    method AdvancePeriod(now: int)
      modifies this`clock
      ensures clock == old(clock).(nextGcd := PollWait(old(Value()), now).1)
    {
      if cfg.gcd > 0 && now >= clock.nextGcd {
        clock := clock.(nextGcd := now + cfg.gcd * SECOND);
      }
    }

    method AwaitSocket(input: PollInput) returns (r: PollResult)
      modifies this
      ensures Value() == ApplyInput(env, old(Value()), ActualInput(old(Value()), input))
      ensures r == if Gone(ActualInput(old(Value()), input)) then AbnormalClose else Succeeded
    {
      hide DrainRequest;
      var actual := if socket.open then input else PollError;
      r := Succeeded;
      match actual {
        case Timeout =>
        case SendRequest(rs) => SendBuffered(rs);
        case ReadyForRead(data, gone) =>
          ReadAvailable(data);
          if gone {
            CloseSocket();
            r := AbnormalClose;
          }
        case PollError => CloseSocket();
        case CloseRequest => CloseSocket();
      }
    }

    method CheckDelay(later: int)
      modifies this
      ensures Value() == CheckClosingDelay(old(Value()), later)
    {
      if readyState == CLOSING && later - clock.closingAt > CLOSING_DELAY_MS * MILLISECOND {
        rxbuf := [];
        CloseSocket();
        SwitchToClosed();
      }
    }

    method PollTimers(now: int)
      modifies this
      ensures Value() == TransportSpec.PollTimers(env, old(Value()), now)
    {
      if readyState == OPEN {
        if cfg.pingTimeout > 0 && now - clock.lastPong > cfg.pingTimeout * SECOND {
          Close(INTERNAL_ERROR, PING_TIMEOUT_MESSAGE, 0, now);
        } else if cfg.pingInterval > 0 && now - clock.lastPing > cfg.pingInterval * SECOND {
          SendPing(PING_MESSAGE + Text("::") + PrintInt(cfg.pingInterval) + Text("s"), now);
        }
      }
    }

    method SendBuffered(rs: seq<Readiness>)
      modifies this
      ensures Value() == DrainRequest(env, old(Value()), rs)
    {
      var k := 0;
      while k < |rs| && |txbuf| > 0 && !requestInitCancellation
        invariant 0 <= k <= |rs|
        invariant DrainRequest(env, Value(), rs[k..]) == DrainRequest(env, old(Value()), rs)
      {
        assert rs[k..][1..] == rs[k + 1..];
        if rs[k] == WritePollError {
          CloseSocket();
          SwitchToClosed();
          return;
        } else if rs[k] == WriteReady {
          SendOnSocket();
        }
        k := k + 1;
      }
      DrainStops(env, Value(), rs[k..]);
    }

    method ReadAvailable(data: seq<bytes>)
      modifies this`rxbuf
      ensures rxbuf == old(rxbuf) + Flatten(data)
    {
      for k := 0 to |data|
        invariant rxbuf + Flatten(data[k..]) == old(rxbuf) + Flatten(data)
      {
        assert data[k..][1..] == data[k + 1..];
        rxbuf := rxbuf + data[k];
      }
    }
  }

  /** The front end applications hold. */
  class WebSocket {
    const transport: WebSocketTransport

    constructor (transport: WebSocketTransport)
      ensures this.transport == transport
    {
      this.transport := transport;
    }

    /** Under the write mutex: a whole message is sent before another writer's. */
    method SendMessage(opcode: Opcode, text: bytes) returns (success: bool)
      requires opcode == TEXT || opcode == BINARY
      modifies transport
      ensures var c := old(transport.Value());
              transport.Value() ==
              if c.state != OPEN then c else TransportSpec.SendData(transport.env, c, opcode, text, c.cfg.deflate)
      ensures success <==> old(transport.readyState) == OPEN
                           && WireBytes(transport.env, text, old(transport.cfg.deflate)).Some?
    {
      hide TransportSpec.SendData;
      if transport.readyState != OPEN {
        return false;
      }
      success := transport.SendData(opcode, text, transport.cfg.deflate);
    }

    /** Text that is not UTF-8 is not sent: the connection is closed with 1007 instead. */
    method SendText(text: bytes, now: int) returns (success: bool)
      modifies transport
      ensures transport.Value() == TransportSpec.SendText(transport.env, old(transport.Value()), text, now)
      ensures success ==> Utf8Grammar.IsString(text)
    {
      hide TransportSpec.SendData, TransportSpec.Close, Utf8Grammar.IsString, Utf8Validator.Valid;
      var valid := Utf8Validator.ValidateUtf8(text);
      Utf8Validator.ValidIffString(text);
      if !valid {
        transport.Close(INVALID_PAYLOAD, INVALID_PAYLOAD_MESSAGE, 0, now);
        return false;
      }
      success := SendMessage(TEXT, text);
    }

    method SendBinary(data: bytes) returns (success: bool)
      modifies transport
      ensures transport.Value() == TransportSpec.SendBinary(transport.env, old(transport.Value()), data)
    {
      hide TransportSpec.SendData;
      success := SendMessage(BINARY, data);
    }

    method Ping(text: bytes, now: int)
      modifies transport
      ensures transport.Value() == UserPing(transport.env, old(transport.Value()), text, now)
    {
      hide TransportSpec.SendPing;
      if |text| > 125 || transport.readyState != OPEN {
        return;
      }
      transport.SendPing(text, now);
    }
  }

  lemma DrainStops(env: Env, c: Conn, rs: seq<Readiness>)
    requires rs == [] || c.tx == [] || c.cancel
    ensures DrainRequest(env, c, rs) == c
  {
  }

  // ------------------------------------------------------------------ operations and the fields they do not touch

  lemma {:induction false} DrainIgnoresReader(env: Env, c: Conn, r: Reader)
    ensures Drain(env, c.(reader := r)) == Drain(env, c).(reader := r)
    decreases |c.tx|
  {
    if c.tx != [] {
      var n := Taken(NextWrite(env, c), |c.tx|);
      if n > 0 {
        DrainIgnoresReader(env, TakeBytes(c, n), r);
      }
    }
  }

  lemma {:induction false} SendIgnoresReader(env: Env, c: Conn, r: Reader, fs: seq<Frame>)
    ensures SendFragments(env, c.(reader := r), fs) == SendFragments(env, c, fs).(reader := r)
    decreases |fs|
  {
    if fs != [] {
      var c1 := Append(c, OnWire(env, c, fs[0])).(drawn := c.drawn + 1);
      DrainIgnoresReader(env, c1, r);
      assert TransportSpec.SendFragment(env, c.(reader := r), fs[0])
          == TransportSpec.SendFragment(env, c, fs[0]).(reader := r);
      SendIgnoresReader(env, TransportSpec.SendFragment(env, c, fs[0]), r, fs[1..]);
    }
  }

  lemma CloseIgnoresReader(env: Env, c: Conn, r: Reader, code: nat, reason: bytes, wireSize: nat, now: int)
    ensures TransportSpec.Close(env, c.(reader := r), code, reason, wireSize, now)
            == TransportSpec.Close(env, c, code, reason, wireSize, now).(reader := r)
  {
    hide SendFragments, Fragments;
    if c.state != CLOSING && c.state != CLOSED {
      var size := if wireSize == 0 then |reason| else wireSize;
      var c1 := c.(cancel := true).(close := CloseData(code, reason, size, false),
                                    clock := c.clock.(closingAt := now), state := CLOSING);
      SendIgnoresReader(env, c1, r, Fragments(Framing.CLOSE, false, ClosePayload(code, reason)));
    }
  }

  lemma EmitIgnoresReader(env: Env, c: Conn, r: Reader, cb: Callback, now: int)
    ensures Emit(env, c.(reader := r), cb, now) == Emit(env, c, cb, now).(reader := r)
  {
    hide TransportSpec.Close, Emittable;
    CloseIgnoresReader(env, c, r, INVALID_PAYLOAD, INVALID_PAYLOAD_MESSAGE, 0, now);
  }

  lemma EmitKeepsReader(env: Env, c: Conn, cb: Callback, now: int)
    ensures Emit(env, c, cb, now).reader == c.reader
  {
    hide TransportSpec.Close, Emittable;
    CloseIgnoresReader(env, c, c.reader, INVALID_PAYLOAD, INVALID_PAYLOAD_MESSAGE, 0, now);
    assert c.(reader := c.reader) == c;
  }

  lemma {:induction false} DrainKeepsRx(env: Env, c: Conn)
    ensures Drain(env, c).rx == c.rx
    decreases |c.tx|
  {
    if c.tx != [] {
      var n := Taken(NextWrite(env, c), |c.tx|);
      if n > 0 {
        DrainKeepsRx(env, TakeBytes(c, n));
      }
    }
  }

  lemma {:induction false} FragmentsKeepRx(env: Env, c: Conn, fs: seq<Frame>)
    ensures SendFragments(env, c, fs).rx == c.rx
    decreases |fs|
  {
    if fs != [] {
      DrainKeepsRx(env, Append(c, OnWire(env, c, fs[0])).(drawn := c.drawn + 1));
      FragmentsKeepRx(env, TransportSpec.SendFragment(env, c, fs[0]), fs[1..]);
    }
  }

  lemma SendKeepsRx(env: Env, c: Conn, opcode: Opcode, message: bytes, compress: bool)
    ensures TransportSpec.SendData(env, c, opcode, message, compress).rx == c.rx
  {
    hide SendFragments, Fragments;
    if MaySend(c) && WireBytes(env, message, compress).Some? {
      FragmentsKeepRx(env, c, Fragments(opcode, compress, WireBytes(env, message, compress).value));
    }
  }

  lemma CloseKeepsRx(env: Env, c: Conn, code: nat, reason: bytes, wireSize: nat, now: int)
    ensures TransportSpec.Close(env, c, code, reason, wireSize, now).rx == c.rx
  {
    hide TransportSpec.SendData;
    var size := if wireSize == 0 then |reason| else wireSize;
    var c1 := c.(cancel := true).(close := CloseData(code, reason, size, false),
                                  clock := c.clock.(closingAt := now), state := CLOSING);
    SendKeepsRx(env, c1, Framing.CLOSE, ClosePayload(code, reason), false);
  }

  lemma HandleKeepsRx(env: Env, c: Conn, f: Frame, now: int)
    ensures HandleFrame(env, c, f, now).rx == c.rx
  {
    hide TransportSpec.SendData, TransportSpec.Close, CloseStatus, OnDataFrame, Emittable;
    if IsData(f) {
      CloseKeepsRx(env, c, PROTOCOL_ERROR, DATA_SEQUENCE_MESSAGE, 0, now);
      CloseKeepsRx(env, c, PROTOCOL_ERROR, CONTINUATION_SEQUENCE_MESSAGE, 0, now);
      var (r, cb) := OnDataFrame(env.codec, c.cfg.deflate, c.reader, f);
      CloseKeepsRx(env, CheckSequence(env, c, f, now).(reader := r), INVALID_PAYLOAD, INVALID_PAYLOAD_MESSAGE, 0, now);
    } else if f.opcode == PING {
      SendKeepsRx(env, c, PONG, f.payload, false);
    } else if f.opcode == Framing.CLOSE {
      var (code, reason) := CloseStatus(f.payload);
      SendKeepsRx(env, c, Framing.CLOSE, ClosePayload(code, reason), false);
    } else {
      CloseKeepsRx(env, c, PROTOCOL_ERROR, PROTOCOL_ERROR_MESSAGE, |c.rx|, now);
    }
  }

  /** The tests of the dispatch loop, in its order, decide what the head of the buffer holds. */
  lemma Classify(rx: bytes, deflate: bool)
    ensures var s := NextFrame(rx, deflate);
            if |rx| < 2 || |rx| < HeaderSize(rx[1]) then s == NeedHeader
            else
              var ws := ParseHeader(rx);
              if (ws.rsv1 && !deflate) || ws.rsv2 || ws.rsv3 then s == ReservedBits
              else if |rx| < ws.headerSize + ws.length then s == NeedPayload
              else if !ws.fin && (ws.opcode == PING || ws.opcode == PONG || ws.opcode == Framing.CLOSE)
              then s == FragmentedControl
              else s == Complete(ws, Unmasked(ws, rx[ws.headerSize..ws.headerSize + ws.length]))
  {
  }

  lemma MaskedEnd(key: Key, front: bytes, payload: bytes)
    ensures MaskedRange(key, front + payload, |front|, |payload|) == front + Masked(key, payload)
  {
    hide Xor, Masked;
    var buf := front + payload;
    assert buf[|front|..|front| + |payload|] == payload && buf[..|front|] == front && buf[|buf|..] == [];
  }

  lemma UnmaskedIsRange(ws: Header, buf: bytes)
    requires |buf| >= ws.headerSize + ws.length
    ensures UnmaskedBuffer(ws, buf) == if ws.mask then MaskedRange(ws.key, buf, ws.headerSize, ws.length) else buf
  {
    hide Xor, Masked;
  }

  /** The ways out of the loop that do not touch the buffer. */
  lemma NoFrame(env: Env, c: Conn, now: int)
    ensures var s := NextFrame(c.rx, c.cfg.deflate);
            && (!s.Complete? ==> TakeFrame(c.rx, c.cfg.deflate).None?)
            && (s.NeedHeader? ==> LeaveLoop(env, c, now) == (c, true))
            && (s.NeedPayload? ==> LeaveLoop(env, c, now) == (c, false))
            && (s.ReservedBits? ==>
                  LeaveLoop(env, c, now) ==
                  (TransportSpec.Close(env, c, PROTOCOL_ERROR, RESERVED_BIT_MESSAGE, |c.rx|, now), false))
            && (s.FragmentedControl? ==>
                  LeaveLoop(env, c, now) ==
                  (TransportSpec.Close(env, c, PROTOCOL_ERROR, CONTROL_FRAGMENTED_MESSAGE, 0, now), false))
  {
    hide NextFrame, TransportSpec.Close;
  }

  /** A whole frame is processed unless it is an oversized ping. */
  lemma WholeFrame(env: Env, c: Conn, ws: Header, data: bytes, now: int)
    requires NextFrame(c.rx, c.cfg.deflate) == Complete(ws, data)
    requires |c.rx| >= ws.headerSize + ws.length
    ensures var c1 := c.(rx := UnmaskedBuffer(ws, c.rx));
            if ws.opcode == PING && |data| > 125
            then
              && TakeFrame(c.rx, c.cfg.deflate).None?
              && LeaveLoop(env, c, now) ==
                 (TransportSpec.Close(env, c1, PROTOCOL_ERROR, PING_OVERSIZED_MESSAGE, 0, now), false)
            else
              && TakeFrame(c.rx, c.cfg.deflate).Some?
              && AfterFrame(env, c, now) ==
                 HandleFrame(env, c1, FrameOf(ws, data), now).(rx := c.rx[ws.headerSize + ws.length..])
  {
    hide NextFrame, TransportSpec.Close, HandleFrame, UnmaskedBuffer;
  }

  lemma UnmaskedHead(rx: bytes, ws: Header)
    requires |rx| >= ws.headerSize + ws.length
    ensures var n := ws.headerSize + ws.length;
            && UnmaskedBuffer(ws, rx)[ws.headerSize..n] == Unmasked(ws, rx[ws.headerSize..n])
            && UnmaskedBuffer(ws, rx)[n..] == rx[n..]
  {
  }
}

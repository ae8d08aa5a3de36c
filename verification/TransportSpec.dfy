/**
  * The state of a WebSocketTransport and the effect of each of its operations on that state.
  * The class in Transport.dfy implements these operations step by step.
  */
module TransportSpec {
  import opened Wrappers
  import opened Bytes
  import opened Framing
  import opened Reassembly
  import opened Delivery
  import opened Numbers
  import Utf8Validator

  datatype ReadyState = CLOSING | CLOSED | CONNECTING | OPEN

  // ------------------------------------------------------------------ constants

  const PROTOCOL_ERROR := 1002
  const NO_STATUS := 1005
  const ABNORMAL_CLOSE := 1006
  const INVALID_PAYLOAD := 1007
  const INTERNAL_ERROR := 1011

  /** The octets of an ASCII literal. */
  function Text(s: string): (r: bytes)
    ensures |r| == |s|
  {
    seq(|s|, i requires 0 <= i < |s| => s[i] as int % 256)
  }

  const INTERNAL_ERROR_MESSAGE := Text("Internal error")
  const ABNORMAL_CLOSE_MESSAGE := Text("Abnormal closure")
  const PING_TIMEOUT_MESSAGE := Text("Ping timeout")
  const PROTOCOL_ERROR_MESSAGE := Text("Protocol error")
  const NO_STATUS_MESSAGE := Text("No status code")
  const RESERVED_BIT_MESSAGE := Text("Reserved bit used")
  const PING_OVERSIZED_MESSAGE := Text("Ping reason control frame with payload length > 125 octets")
  const CONTROL_FRAGMENTED_MESSAGE := Text("Control message fragmented")
  const DATA_SEQUENCE_MESSAGE := Text("Fragmentation: data message out of sequence")
  const CONTINUATION_SEQUENCE_MESSAGE := Text("Fragmentation: continuation opcode out of sequence")
  const INVALID_PAYLOAD_MESSAGE := Text("Invalid frame payload data")
  const INVALID_CLOSE_CODE_MESSAGE := Text("Invalid close code")
  const PING_MESSAGE := Text("ixwebsocket::heartbeat")

  const SECOND := 1_000_000_000
  const MILLISECOND := 1_000_000
  const CLOSING_DELAY_MS := 300

  /** Decimal digits, as an output stream prints a number. */
  function Digits(n: nat): (r: bytes)
    ensures |r| == |Decimal(n)|
  {
    Text(Decimal(n))
  }

  function PrintInt(n: int): (r: bytes) {
    if n < 0 then [45] + Digits(-n) else Digits(n)
  }

  // ------------------------------------------------------------------ state

  datatype CloseData = CloseData(code: nat, reason: bytes, wireSize: nat, remote: bool)

  const DEFAULT_CLOSE := CloseData(INTERNAL_ERROR, INTERNAL_ERROR_MESSAGE, 0, false)

  datatype Config = Config(useMask: bool, deflate: bool, enablePong: bool,
                           pingInterval: int, pingTimeout: int, gcd: int)

  /** Time points in nanoseconds. */
  datatype Clock = Clock(closingAt: int, lastPing: int, lastPong: int, nextGcd: int)

  /** The socket: whether it is open, how often it was written to, and all the bytes it has taken. */
  datatype Socket = Socket(open: bool, attempts: nat, accepted: bytes)

  /** What the callbacks have been told: messages delivered, close reports and entries into OPEN. */
  datatype Trace = Trace(delivered: seq<Callback>, reports: seq<CloseData>, opens: nat)

  datatype Conn = Conn(
    cfg: Config, state: ReadyState, close: CloseData, cancel: bool, clock: Clock,
    rx: bytes, reader: Reader,
    tx: bytes, socket: Socket, drawn: nat,
    log: seq<WireFrame>,  // every frame appended to tx so far
    trace: Trace)

  /** One result of a socket write. */
  datatype WriteResult = Wrote(n: nat) | WouldBlock | WriteError

  /** Everything the transport does not decide itself: random numbers, socket writes, the deflate engine. */
  datatype Env = Env(entropy: nat -> nat, writes: nat -> WriteResult, codec: Codec)

  // ------------------------------------------------------------------ ready state

  function Reported(c: Conn): (c': Conn) {
    c.(trace := c.trace.(reports := c.trace.reports + [c.close]), close := DEFAULT_CLOSE, state := CLOSED)
  }

  /** setReadyState(CLOSED). */
  function ToClosed(c: Conn): (c': Conn) { if c.state == CLOSED then c else Reported(c) }

  /** setReadyState(OPEN) with initTimePointsAndGCDAfterConnect. */
  function ToOpen(c: Conn, now: int): (c': Conn) {
    if c.state == OPEN then c
    else c.(state := OPEN,
            trace := c.trace.(opens := c.trace.opens + 1),
            clock := c.clock.(lastPing := now, lastPong := now,
                              nextGcd := if c.cfg.gcd > 0 then now + c.cfg.gcd * SECOND else c.clock.nextGcd))
  }

  function CloseSocket(c: Conn): (c': Conn) { c.(socket := c.socket.(open := false)) }

  /** closeSocketAndSwitchToClosedState. */
  function Finish(c: Conn, data: CloseData): (c': Conn) {
    ToClosed(CloseSocket(c).(close := data)).(cancel := false)
  }

  // ------------------------------------------------------------------ sending

  function NextWrite(env: Env, c: Conn): (r: WriteResult) {
    if c.socket.open then env.writes(c.socket.attempts) else WriteError
  }

  /** The bytes that a write takes; a result that is not positive takes none. */
  function Taken(r: WriteResult, available: nat): (n: nat)
    ensures n <= available
  {
    if r.Wrote? then if r.n < available then r.n else available else 0
  }

  function TakeBytes(c: Conn, n: nat): (c': Conn)
    requires n <= |c.tx|
  {
    c.(tx := c.tx[n..],
       socket := c.socket.(attempts := c.socket.attempts + 1, accepted := c.socket.accepted + c.tx[..n]))
  }

  /** sendOnSocket. */
  function Drain(env: Env, c: Conn): (c': Conn)
    decreases |c.tx|
  {
    if c.tx == [] then c
    else
      var r := NextWrite(env, c);
      var n := Taken(r, |c.tx|);
      if n > 0 then Drain(env, TakeBytes(c, n))
      else if r.WouldBlock? then TakeBytes(c, 0)
      else ToClosed(CloseSocket(TakeBytes(c, 0)))
  }

  /** appendToSendBuffer. */
  function Append(c: Conn, w: WireFrame): (c': Conn) { c.(tx := c.tx + Encode(w), log := c.log + [w]) }

  function OnWire(env: Env, c: Conn, f: Frame): (w: WireFrame) {
    WireFrame(f, c.cfg.useMask, KeyOf(env.entropy(c.drawn)))
  }

  function SendFragment(env: Env, c: Conn, f: Frame): (c': Conn) {
    Drain(env, Append(c, OnWire(env, c, f)).(drawn := c.drawn + 1))
  }

  function SendFragments(env: Env, c: Conn, fs: seq<Frame>): (c': Conn)
    decreases |fs|
  {
    if fs == [] then c else SendFragments(env, SendFragment(env, c, fs[0]), fs[1..])
  }

  predicate MaySend(c: Conn) { c.state == OPEN || c.state == CLOSING }

  /** The bytes that sendData puts on the wire, unless compression fails. */
  function WireBytes(env: Env, message: bytes, compress: bool): (w: Option<bytes>) {
    if compress then env.codec.compress(message) else Some(message)
  }

  function SendData(env: Env, c: Conn, opcode: Opcode, message: bytes, compress: bool): (c': Conn) {
    if !MaySend(c) then c
    else
      match WireBytes(env, message, compress)
      case None => c
      case Some(wire) => SendFragments(env, c, Fragments(opcode, compress, wire))
  }

  function SendPing(env: Env, c: Conn, message: bytes, now: int): (c': Conn) {
    var c1 := SendData(env, c, PING, message, false);
    if MaySend(c) then c1.(clock := c1.clock.(lastPing := now)) else c1
  }

  // ------------------------------------------------------------------ closing

  function ClosePayload(code: nat, reason: bytes): (r: bytes) {
    if code == NO_STATUS then [] else [code / 256 % 256, code % 256] + reason
  }

  function SendCloseFrame(env: Env, c: Conn, code: nat, reason: bytes): (c': Conn) {
    SendData(env, c, Framing.CLOSE, ClosePayload(code, reason), false)
  }

  /** close; the wire size defaults to the size of the reason. */
  function Close(env: Env, c: Conn, code: nat, reason: bytes, wireSize: nat, now: int): (c': Conn) {
    var c0 := c.(cancel := true);
    if c.state == CLOSING || c.state == CLOSED then c0
    else
      var size := if wireSize == 0 then |reason| else wireSize;
      var c1 := c0.(close := CloseData(code, reason, size, false),
              clock := c.clock.(closingAt := now), state := CLOSING);
      SendCloseFrame(env, c1, code, reason)
  }

  // ------------------------------------------------------------------ receiving

  function Deliver(c: Conn, cb: Callback): (c': Conn) {
    c.(trace := c.trace.(delivered := c.trace.delivered + [cb]))
  }

  /** emitMessage. */
  function Emit(env: Env, c: Conn, cb: Callback, now: int): (c': Conn) {
    if Emittable(cb) then Deliver(c, cb) else Close(env, c, INVALID_PAYLOAD, INVALID_PAYLOAD_MESSAGE, 0, now)
  }

  /** The close call that an out-of-sequence data frame provokes. */
  function CheckSequence(env: Env, c: Conn, f: Frame, now: int): (c': Conn) {
    if f.opcode != CONTINUATION && c.reader.chunks != []
    then Close(env, c, PROTOCOL_ERROR, DATA_SEQUENCE_MESSAGE, 0, now)
    else if f.opcode == CONTINUATION && c.reader.chunks == []
    then Close(env, c, PROTOCOL_ERROR, CONTINUATION_SEQUENCE_MESSAGE, 0, now)
    else c
  }

  function HandleData(env: Env, c: Conn, f: Frame, now: int): (c': Conn)
    requires IsData(f)
  {
    var (r, cb) := OnDataFrame(env.codec, c.cfg.deflate, c.reader, f);
    Emit(env, CheckSequence(env, c, f, now).(reader := r), cb, now)
  }

  function HandlePing(env: Env, c: Conn, f: Frame): (c': Conn) {
    var c1 := if c.cfg.enablePong then SendData(env, c, PONG, f.payload, false) else c;
    Deliver(c1, Callback(MsgPing, f.payload, |f.payload|, false))
  }

  function HandlePong(c: Conn, f: Frame, now: int): (c': Conn) {
    Deliver(c.(clock := c.clock.(lastPong := now)), Callback(MsgPong, f.payload, |f.payload|, false))
  }

  /** Close codes that a peer may not send, as dispatch tests them. */
  predicate ForbiddenCode(code: nat) {
    code < 1000 || code == 1004 || code == ABNORMAL_CLOSE || (1013 < code < 3000)
  }

  /** The code and reason that dispatch makes of the payload of a CLOSE frame. */
  function CloseStatus(payload: bytes): (r: (nat, bytes)) {
    if |payload| < 2 then (NO_STATUS, NO_STATUS_MESSAGE)
    else
      var code := Length2(payload[0], payload[1]);
      var reason := payload[2..];
      var (code1, reason1) :=
        if Utf8Validator.Valid(reason) then (code, reason) else (INVALID_PAYLOAD, INVALID_PAYLOAD_MESSAGE);
      if ForbiddenCode(code1)
      then (PROTOCOL_ERROR, INVALID_CLOSE_CODE_MESSAGE + Text(": ") + Digits(code1))
      else (code1, reason1)
  }

  function HandleClose(env: Env, c: Conn, f: Frame): (c': Conn) {
    var (code, reason) := CloseStatus(f.payload);
    if c.state != CLOSING then
      Finish(SendCloseFrame(env, c, code, reason), CloseData(code, reason, |c.rx|, true))
    else if c.close.code == code && c.close.reason == reason then
      Finish(c, CloseData(code, reason, |c.rx|, false))
    else c
  }

  /** The body of the dispatch loop on one frame that is not an oversized ping. */
  function HandleFrame(env: Env, c: Conn, f: Frame, now: int): (c': Conn) {
    if IsData(f) then HandleData(env, c, f, now)
    else if f.opcode == PING then HandlePing(env, c, f)
    else if f.opcode == PONG then HandlePong(c, f, now)
    else if f.opcode == Framing.CLOSE then HandleClose(env, c, f)
    else Close(env, c, PROTOCOL_ERROR, PROTOCOL_ERROR_MESSAGE, |c.rx|, now)
  }

  /** How dispatch leaves its loop when no whole frame can be processed, and whether by `break`. */
  function LeaveLoop(env: Env, c: Conn, now: int): (r: (Conn, bool)) {
    match NextFrame(c.rx, c.cfg.deflate)
    case NeedHeader => (c, true)
    case ReservedBits => (Close(env, c, PROTOCOL_ERROR, RESERVED_BIT_MESSAGE, |c.rx|, now), false)
    case NeedPayload => (c, false)
    case FragmentedControl => (Close(env, c, PROTOCOL_ERROR, CONTROL_FRAGMENTED_MESSAGE, 0, now), false)
    case Complete(_, _) =>
      (Close(env, c.(rx := UnmaskHead(c.rx, c.cfg.deflate)), PROTOCOL_ERROR, PING_OVERSIZED_MESSAGE, 0, now), false)
  }

  /** The loop of dispatch. */
  function DispatchLoop(env: Env, c: Conn, now: int): (r: (Conn, bool))
    decreases |c.rx|
  {
    match TakeFrame(c.rx, c.cfg.deflate)
    case None => LeaveLoop(env, c, now)
    case Some((f, rest)) =>
      var c1 := HandleFrame(env, c.(rx := UnmaskHead(c.rx, c.cfg.deflate)), f, now);
      DispatchLoop(env, c1.(rx := rest), now)
  }

  datatype PollResult = Succeeded | AbnormalClose

  /** What follows the loop when poll saw the connection drop. */
  function AfterAbnormal(c: Conn): (c': Conn) {
    var c1 := c.(rx := []);
    if c.state == CLOSING then ToClosed(CloseSocket(c1))
    else if c.state != CLOSED then Finish(c1, CloseData(ABNORMAL_CLOSE, ABNORMAL_CLOSE_MESSAGE, 0, false))
    else c1
  }

  function Dispatch(env: Env, c: Conn, result: PollResult, now: int): (c': Conn) {
    var (c1, broke) := DispatchLoop(env, c, now);
    if broke && result == AbnormalClose then AfterAbnormal(c1) else c1
  }

  // ------------------------------------------------------------------ connecting

  /** A handshake that succeeds; it starts from a fresh socket and clears the cancellation request. */
  function Connect(c: Conn, now: int): (c': Conn) {
    ToOpen(c.(cancel := false, socket := c.socket.(open := true)), now)
  }

  /** A connect that fails: before the handshake nothing happens, in it the cancellation request is cleared. */
  function ConnectFails(c: Conn, reached: bool): (c': Conn) { if reached then c.(cancel := false) else c }

  // ------------------------------------------------------------------ polling

  predicate PingTimeoutExceeded(c: Conn, now: int) {
    c.cfg.pingTimeout > 0 && now - c.clock.lastPong > c.cfg.pingTimeout * SECOND
  }

  predicate PingIntervalExceeded(c: Conn, now: int) {
    c.cfg.pingInterval > 0 && now - c.clock.lastPing > c.cfg.pingInterval * SECOND
  }

  predicate ClosingDelayExceeded(c: Conn, now: int) {
    now - c.clock.closingAt > CLOSING_DELAY_MS * MILLISECOND
  }

  function HeartbeatMessage(c: Conn): (r: bytes) {
    PING_MESSAGE + Text("::") + PrintInt(c.cfg.pingInterval) + Text("s")
  }

  /** The timer checks at the top of poll. */
  function PollTimers(env: Env, c: Conn, now: int): (c': Conn) {
    if c.state != OPEN then c
    else if PingTimeoutExceeded(c, now) then Close(env, c, INTERNAL_ERROR, PING_TIMEOUT_MESSAGE, 0, now)
    else if PingIntervalExceeded(c, now) then SendPing(env, c, HeartbeatMessage(c), now)
    else c
  }

  /** The delay passed to the socket, and the next time point of the gcd period; negative means no limit. */
  function PollWait(c: Conn, now: int): (r: (int, int)) {
    var idle := if c.state != OPEN then 0 else c.cfg.gcd;
    var (wait, next) :=
      if c.cfg.gcd <= 0 then (idle, c.clock.nextGcd)
      else if now >= c.clock.nextGcd then (c.cfg.gcd * 1000, now + c.cfg.gcd * SECOND)
      else ((c.clock.nextGcd - now) / MILLISECOND, c.clock.nextGcd);
    (if c.cancel then 100 else wait, next)
  }

  datatype Readiness = WriteReady | WritePollError | NotReady

  /** What waiting on the socket brings: for a read, the pieces received and whether the peer is gone. */
  datatype PollInput =
    | Timeout
    | SendRequest(readiness: seq<Readiness>)
    | ReadyForRead(data: seq<bytes>, gone: bool)
    | PollError
    | CloseRequest

  /** The loop that empties the send buffer, one entry per wait for the socket. */
  function DrainRequest(env: Env, c: Conn, rs: seq<Readiness>): (c': Conn)
    decreases |rs|
  {
    if rs == [] || c.tx == [] || c.cancel then c
    else match rs[0]
      case WritePollError => ToClosed(CloseSocket(c))
      case WriteReady => DrainRequest(env, Drain(env, c), rs[1..])
      case NotReady => DrainRequest(env, c, rs[1..])
  }

  function ApplyInput(env: Env, c: Conn, input: PollInput): (c': Conn) {
    match input
    case Timeout => c
    case SendRequest(rs) => DrainRequest(env, c, rs)
    case ReadyForRead(data, gone) =>
      var c1 := c.(rx := c.rx + Flatten(data));
      if gone then CloseSocket(c1) else c1
    case PollError => CloseSocket(c)
    case CloseRequest => CloseSocket(c)
  }

  function CheckClosingDelay(c: Conn, later: int): (c': Conn) {
    if c.state == CLOSING && ClosingDelayExceeded(c, later) then ToClosed(CloseSocket(c.(rx := []))) else c
  }

  /** A socket that is already closed reports an error at once. */
  function ActualInput(c: Conn, input: PollInput): (r: PollInput) {
    if c.socket.open then input else PollError
  }

  predicate Gone(input: PollInput) { input.ReadyForRead? && input.gone }

  /** poll: it starts at `now`, waits for `input`, and goes on at `later`. */
  function Poll(env: Env, c: Conn, now: int, input: PollInput, later: int): (r: (Conn, PollResult)) {
    var c1 := PollTimers(env, c, now);
    var c2 := c1.(clock := c1.clock.(nextGcd := PollWait(c1, now).1));
    var actual := ActualInput(c2, input);
    var c3 := ApplyInput(env, c2, actual);
    if Gone(actual) then (c3, AbnormalClose) else (CheckClosingDelay(c3, later), Succeeded)
  }

  // ------------------------------------------------------------------ the WebSocket front end

  /** WebSocket::sendText. */
  function SendText(env: Env, c: Conn, text: bytes, now: int): (c': Conn) {
    if !Utf8Validator.Valid(text) then Close(env, c, INVALID_PAYLOAD, INVALID_PAYLOAD_MESSAGE, 0, now)
    else if c.state != OPEN then c
    else SendData(env, c, TEXT, text, c.cfg.deflate)
  }

  /** WebSocket::sendBinary. */
  function SendBinary(env: Env, c: Conn, data: bytes): (c': Conn) {
    if c.state != OPEN then c else SendData(env, c, BINARY, data, c.cfg.deflate)
  }

  /** WebSocket::ping. */
  function UserPing(env: Env, c: Conn, text: bytes, now: int): (c': Conn) {
    if |text| > 125 || c.state != OPEN then c else SendPing(env, c, text, now)
  }
}

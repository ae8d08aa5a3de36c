# A verified model of IXWebSocket

IXWebSocket is a WebSocket client and server library. This project models its logic in Dafny 4.11 and proves what
its parts promise, separately and together. `dafny verify dfyconfig.toml` checks everything.

## What is modelled

- **The transport** (`Framing`, `Reassembly`, `Delivery`, `TransportSpec`, `Transport`): framing and masking, the
  fragment loop, the send and receive buffers, the dispatch loop, the ready-state machine, the close handshake, ping
  timers and polling, after sections 5.2 to 5.5, 5.5.1 and 7.4 of RFC 6455. `Transport.WebSocketTransport` is the
  object with its fields and its loops; each method is proved equal to a function of `TransportSpec` on the value of
  the object. `Transport.WebSocket` is the front end.
- **Whole runs of it**: `TransportRuns` (one transport, any calls), `Session` and `EndToEnd` (two transports and the
  bytes between them), `CloseHandshake` and `TwoPartyClose` (the closing handshake), `CloseFlush` (what close leaves in
  the send buffer), `StaleClose` (close data from one connection to the next), `Stranded` (OPEN on a closed socket),
  `Timers` (back-to-back polling), `Keepalive` (pongs and the closing delay), `Violations` (what this end does about each
  offence of its peer), `Progress` (buffered bytes are written, and everything begun can be delivered).
- **UTF-8** (`Utf8`): the table machine against the grammar of section 4 of RFC 3629.
- **The handshake key** (`Sha1`, `HandshakeKey`, `HandshakeExample`): SHA-1 on rotating registers against section 6.1.2
  of FIPS 180-4, and the worked example of section 1.3 of RFC 6455.
- **Base64** (`Base64`): both encoders and the decoder against section 4 of RFC 4648.
- **The server's threads** (`Server`, `ServerRequests`, `ServerLimit`): accept thread, collector thread, connection threads with the
  phases of their handshakes, and the caller of `stop`.
- **URLs** (`Numbers`, `Url`), **deflate options** (`DeflateOptions`), the **metrics limiter** (`Metrics`) and the
  **Cobra publish queue** (`CobraQueue`).

## How it is modelled

What the program does not decide is a parameter over which every theorem quantifies. `Env` gives the random masking
keys, the outcome of every socket write and the compression codec; poll takes what the socket reports; time points are
arguments in nanoseconds. A transport method, or one pass of the loop in `sendData`, is one atomic step, so writers
interleave with each other and with the reader between any two fragments; a poll that reads and the dispatch after it are
two steps, between which other threads may write. In the server a step is one access to a
shared flag or one block under a mutex, and the list mutex that the collector holds while it joins is modelled.

Bytes are integers from 0 to 255 in the transport and `bv8` values where the source works on bits; 32-bit words wrap.

## What the definitions are held against

Most theorems relate functions of the model to each other. What those functions mean is fixed from outside, without
using them: `Bytes.Xor` is the operator `^` (`XorIsBitwise`), frames are the bytes of section 5.7 of RFC 6455
(`WireExamples`), the accept value is the one of section 1.3 (`SampleAccept`) and the schedule of SHA-1 satisfies its
recurrence (`ScheduleRecurs`), UTF-8 is its grammar (`ValidIffString`), close codes, texts and delays are literal numbers
and strings (`CloseStatusIff`, `Violations`, `Keepalive`), what a poll writes is a sum of socket results (`PollMoves`),
and so are the port of a scheme (`SchemePicksPort`) and the deflate header (`HeaderText`).

## Where the code does less than one may expect

Each of these is stated as a lemma, with the exact condition under which the expected property holds.

- A close reason longer than 65533 bytes is cut into fragments, which the peer refuses (`CloseIsWhole`,
  `LongReasonRefused`); what is delivered is then still a prefix of what was sent (`EndToEndDelivery`).
- A peer that reads the CLOSE frame in the poll that also finds the initiator gone cannot answer it and reports 1011 as
  local (`BusyPeer`); it reports the code as remote exactly when no read has found the initiator gone
  (`RemoteReportIff`).
- After `close` poll sends nothing more: what the socket did not take during the call leaves the buffer only behind a
  fragment under way or the answer to a ping (`CloseLeavesIff`, `RunUnwritten`).
- A CLOSE frame read once the connection is closed leaves its code behind, and the next connection may report it
  (`StaleReport`, `StaleRun`, `RunClear`, `OwnReportIff`).
- A poll error leaves an open connection OPEN without its socket, for good if there are no ping timers (`ErrorStrands`,
  `StrandedIff`, and `RunSound` for exactly when).
- The limit on connections can be exceeded: a connection that has been accepted is counted only once its handler has
  run (`LimitExceeded`, and `LimitKeptIff` for exactly when it is kept).
- The key generator reads 24 characters whatever it is given (`KeyKept`).
- `stop` on a server that is not started leaves `_stop` set, and the next `start` then serves nobody (`StopFlagLeft`,
  `DeafUntilJoined`); a connection accepted while `stop` runs may be waited for without being closed (`LateClient`,
  and `StopMissesIff` for exactly when); one told to close at the wrong moment of its handshake does not hear it
  (`LostRequestIff`, `WaitsInVainIff`).
- A path that starts with two slashes loses one, and an empty query is dropped (`PathKept`).
- Deflate window sizes out of range are printed but not read back (`RoundTripIff`).
- A flush that fails on a full Cobra queue takes it past its bound, which is never enforced again while it is over
  (`RunSize`, `BoundLost`, `GrowsPastBound`); in immediate mode messages can overtake each other (`RunOrder`).
- The documentation in `IXCobraConnection.cpp` says that a message that failed is put back; the code puts in a second
  copy (`FlushEffect`). The model follows the code.

## Model

| member | source | states |
|---|---|---|
| `EndToEnd.EndToEndDelivery` | IXWebSocket/ixwebsocket/IXWebSocketTransport.cpp:837-1022 | in every run of two connected transports (any messages of any length, masked or not, compressed or not, control frames between fragments, partial, blocked and failing writes, reads cut anywhere that may find the peer gone behind the bytes, other threads writing between a poll and its dispatch, closes with any reason) each end delivers a prefix of the messages sent to it, in order, once each, with their kind and bytes; and exactly those messages once all bytes have been read and dispatched, if none was thrown away by a closing delay and no close call gives a reason of more than 65533 bytes |
| `Progress.EverythingArrives` | IXWebSocket/ixwebsocket/IXWebSocketTransport.cpp:279-406 | nothing gets stuck: after every run of two connected transports that leaves both ends open on open sockets, if no write fails and the sockets take something again and again, some further steps deliver to each end every message that the other has begun to send, whatever is buffered, blocked or half read |
| `EndToEnd.DirectionDelivers` | IXWebSocket/ixwebsocket/IXWebSocketTransport.cpp:467-748 | the same for one direction: whatever part of the writer's bytes has been read, the messages delivered are a prefix of those written, and all of them when everything written has been dispatched and the writer's log holds no fragmented control frame |
| `EndToEnd.RunStaysSingle` | IXWebSocket/ixwebsocket/IXWebSocketTransport.cpp:660-719 | no control frame is fragmented in a run whose close calls give reasons of at most 65533 bytes: answers to pings and closes are never longer than what they answer |
| `Session.DropsIff` | IXWebSocket/ixwebsocket/IXWebSocketTransport.cpp:396-405 | poll throws away whole frames that it has read and dispatch has not seen exactly when it finds the closing delay of a CLOSING connection over |
| `Session.LoopPlain` | IXWebSocket/ixwebsocket/IXWebSocketTransport.cpp:467-748 | dispatch on a part of a log whose frames came whole writes whole control frames only |
| `Session.SendTextIsPushes` | IXWebSocket/ixwebsocket/IXWebSocket.cpp:404-464 | a text send is the sequence of its fragments pushed one by one, so the interleavings of the runs include every call of the front end |
| `Session.SendBinaryIsPushes` | IXWebSocket/ixwebsocket/IXWebSocket.cpp:398-464 | the same for a binary send |
| `Progress.DrainMoves` | IXWebSocket/ixwebsocket/IXWebSocketTransport.cpp:1062-1085 | one sendOnSocket moves as many bytes as the positive results of its writes add up to; it makes writes up to the first that blocks, or until nothing is left |
| `Progress.RequestMoves` | IXWebSocket/ixwebsocket/IXWebSocketTransport.cpp:343-359 | the loop of poll moves the sum of the results of its writes, which go on until the buffer is empty or one has blocked each time the socket was ready |
| `Progress.PollMoves` | IXWebSocket/ixwebsocket/IXWebSocketTransport.cpp:341-361 | the same for a whole poll of an open connection while no timer is due, stated on the results of the socket writes alone |
| `Progress.PollEmpties` | IXWebSocket/ixwebsocket/IXWebSocketTransport.cpp:341-361 | if every write takes something, one poll that finds the socket ready once leaves the send buffer empty, and the socket has taken what was in it |
| `Progress.RequestFails` | IXWebSocket/ixwebsocket/IXWebSocketTransport.cpp:349-354 | a socket error during that loop closes the connection as stored, unless nothing is left to send |
| `TwoPartyClose.TwoPartyClose` | IXWebSocket/ixwebsocket/IXWebSocketTransport.cpp:660-768 | in every run where only one end closes, with a code in 1000-1003, 1007-1013 or 3000-65535 and a valid reason, no write to an open socket fails, and no open end meets a socket error or an overdue pong: the initiator reports nothing or exactly that code and reason, once, as local, at the latest when it has dispatched the answer; the peer reports nothing before the CLOSE frame has reached it or a read has found the initiator gone; if no read has, it reports exactly that code and reason, once, as remote, as soon as it has dispatched the frame; if one has, with the frame or before it, it reports once what it had stored before, or an abnormal closure if the frame has not arrived |
| `TwoPartyClose.RemoteReportIff` | IXWebSocket/ixwebsocket/IXWebSocketTransport.cpp:362-388 | in those runs the peer, having dispatched what it has read, has reported the code and reason as remote if and only if the CLOSE frame has arrived and no read has found the initiator gone |
| `TwoPartyClose.BusyPeer` | IXWebSocket/ixwebsocket/IXWebSocketTransport.cpp:362-381 | the failing run, for every code and reason: the socket takes the whole CLOSE frame, the closing delay of the initiator ends, and the peer then reads the frame and the end of the stream in one poll; the initiator reports the code as local, the peer what it had stored (by default 1011, local) |
| `CloseHandshake.CloseStatusInverts` | IXWebSocket/ixwebsocket/IXWebSocketTransport.cpp:669-706 | dispatch reads back from a CLOSE payload the code and reason that sendCloseFrame put in |
| `CloseHandshake.CloseStatusIff` | IXWebSocket/ixwebsocket/IXWebSocketTransport.cpp:660-706 | for every CLOSE payload: with a valid reason the code and reason are taken as sent exactly if the code is in 1000-1003, 1005, 1007-1013 or 3000-65535, and 1002 with a message naming the code otherwise; 1007 with an invalid reason; 1005 without a code |
| `CloseHandshake.CloseIsWhole` | IXWebSocket/ixwebsocket/IXWebSocketTransport.cpp:875-923 | a CLOSE payload goes out as one frame exactly when the reason has at most 65533 bytes |
| `CloseHandshake.LongReasonRefused` | IXWebSocket/ixwebsocket/IXWebSocketTransport.cpp:551-560 | for any longer reason the peer sees a fragmented control frame and calls a protocol error instead of reading the code |
| `CloseHandshake.AnswerToClose` | IXWebSocket/ixwebsocket/IXWebSocketTransport.cpp:709-736 | a good CLOSE frame is answered by an open end with the same frame, and the code and reason are reported as remote if the socket does not refuse the answer; if it does, exactly when the socket is closed or an error comes before a blocked write, the data stored before are reported and the code is left behind; a closing end reports them as local |
| `TransportRuns.RunKeepsInvariant` | IXWebSocket/ixwebsocket/IXWebSocketTransport.cpp:207-227 | over every run: bytes taken by the socket followed by the send buffer are all frames appended so far; entries into OPEN minus close reports is 1 exactly in OPEN and CLOSING; a closing handshake is always local |
| `TransportRuns.StepKeepsInvariant` | IXWebSocket/ixwebsocket/IXWebSocketTransport.cpp:1062-1085 | each atomic step keeps those three invariants and never takes back a report |
| `TransportRuns.CloseDataStable` | IXWebSocket/ixwebsocket/IXWebSocketTransport.cpp:1133-1161 | from entering CLOSING until CLOSED, however it ends, the stored code and reason stay the same and the report carries exactly them with remote=false |
| `TransportRuns.RunGrowsReports` | IXWebSocket/ixwebsocket/IXWebSocketTransport.cpp:207-227 | close reports are only ever added |
| `StaleClose.RunClear` | IXWebSocket/ixwebsocket/IXWebSocketTransport.cpp:709-719 | over every run from cleared close data: no connection starts with close data of an earlier one exactly when no dispatch reads a CLOSE frame on a closed connection or one whose echo fails to be written |
| `StaleClose.StaleReport` | IXWebSocket/ixwebsocket/IXWebSocketTransport.cpp:1116-1131 | a CLOSE frame read once the connection is closed is reported, as remote, by the next connection if its first write fails |
| `StaleClose.StaleRun` | IXWebSocket/ixwebsocket/IXWebSocketTransport.cpp:709-719 | the same as a run: two CLOSE frames read by one dispatch of an open connection, then a new connection whose first write fails and which reports the second code |
| `StaleClose.OwnReportIff` | IXWebSocket/ixwebsocket/IXWebSocketTransport.cpp:207-227 | a connection whose first write fails reports the default close data exactly when nothing was left behind |
| `TransportRuns.DispatchCore` | IXWebSocket/ixwebsocket/IXWebSocketTransport.cpp:467-770 | dispatch moves the ready state only along the allowed transitions, one report per connection, and keeps the send-buffer conservation |
| `TransportRuns.PollPolls` | IXWebSocket/ixwebsocket/IXWebSocketTransport.cpp:279-406 | poll does the same, and writes nothing but whole control frames |
| `Stranded.RunSound` | IXWebSocket/ixwebsocket/IXWebSocketTransport.cpp:362-394 | over every run: OPEN means an open socket throughout exactly when no poll that leaves the connection OPEN meets a socket error, a close request or the end of the stream |
| `Stranded.StrandedIff` | IXWebSocket/ixwebsocket/IXWebSocketTransport.cpp:279-406 | such a connection with nothing left to read stays OPEN, unreported, over any turns of the loop and whatever the socket says, exactly as long as no ping timer is due |
| `Stranded.ErrorStrands` | IXWebSocket/ixwebsocket/IXWebSocketTransport.cpp:389-392 | the input: a poll error on an open connection closes the socket, leaves OPEN and is reported as success |
| `CloseFlush.CloseLeavesIff` | IXWebSocket/ixwebsocket/IXWebSocketTransport.cpp:341-361 | over every run of a connection after close: the socket has taken the bytes left in the send buffer, the CLOSE frame among them, exactly if it took them during the call or a later step appends a frame and the write after it takes them |
| `CloseFlush.LateDo` | IXWebSocket/ixwebsocket/IXWebSocketTransport.cpp:1133-1161 | the steps after close that append a frame are exactly a fragment of a message under way and a dispatch that answers a ping; every other one, poll included, leaves the buffer and the socket as they are |
| `CloseFlush.RunUnwritten` | IXWebSocket/ixwebsocket/IXWebSocketTransport.cpp:341-361 | over every run after close in which no frame is appended nothing more is sent, whatever poll sees |
| `Timers.WaitIsBounded` | IXWebSocket/ixwebsocket/IXWebSocketTransport.cpp:300-335 | the wait poll passes to the socket never exceeds the gcd period, and is 100 ms once cancellation is requested |
| `Timers.FirstWait` | IXWebSocket/ixwebsocket/IXWebSocketTransport.cpp:300-318 | during the first period after the opening poll waits for its end, to the millisecond |
| `Timers.NextWait` | IXWebSocket/ixwebsocket/IXWebSocketTransport.cpp:308-313 | a poll that finds the period over waits for a whole one, which begins with that poll |
| `Timers.WaitWithoutTimers` | IXWebSocket/ixwebsocket/IXWebSocketTransport.cpp:300-302 | without ping timers an open connection waits without a limit and any other not at all, unless cancellation is requested |
| `Timers.TimeoutCloses` | IXWebSocket/ixwebsocket/IXWebSocketTransport.cpp:262-288 | a poll that finds the pong overdue leaves OPEN with the ping timeout code and message |
| `Timers.PongTimeoutBound` | IXWebSocket/ixwebsocket/IXWebSocketTransport.cpp:234-335 | under back-to-back polling a connection without a pong is not OPEN later than timeout + gcd seconds after the last one |
| `Timers.NewConnectionTimesOut` | IXWebSocket/ixwebsocket/IXWebSocketTransport.cpp:234-335 | from its opening a connection polled back to back and without a pong is not OPEN later than timeout + gcd seconds |
| `Keepalive.DispatchTimed` | IXWebSocket/ixwebsocket/IXWebSocketTransport.cpp:653-659 | dispatch moves the pong time point, and moves it to now, exactly when it hands a pong to the application |
| `Keepalive.PongArrives` | IXWebSocket/ixwebsocket/IXWebSocketTransport.cpp:653-659 | an encoded PONG frame at the head of the buffer does so, whatever follows it |
| `Keepalive.PollClosesIff` | IXWebSocket/ixwebsocket/IXWebSocketTransport.cpp:262-298 | without socket errors one poll closes an open connection exactly when more than the ping timeout has passed since the last pong |
| `Keepalive.PongKeepsOpen` | IXWebSocket/ixwebsocket/IXWebSocketTransport.cpp:262-288 | after dispatch has met a PONG frame no poll up to the ping timeout later closes the connection by its timer |
| `Keepalive.PongsKeepOpen` | IXWebSocket/ixwebsocket/IXWebSocketTransport.cpp:262-288 | over any turns of the loop: a connection that meets no other close and whose polls come at most the ping timeout after its last pong is still OPEN at the end |
| `Keepalive.NewConnectionStaysOpen` | IXWebSocket/ixwebsocket/IXWebSocketTransport.cpp:234-288 | the same from its opening |
| `Keepalive.PollEndsClosingIff` | IXWebSocket/ixwebsocket/IXWebSocketTransport.cpp:396-403 | a poll ends a closing handshake exactly when more than 300 ms have passed since it began, unless it has just found the peer gone |
| `Timers.ClosingDelayBound` | IXWebSocket/ixwebsocket/IXWebSocketTransport.cpp:272-405 | under back-to-back polling every CLOSING connection is CLOSED within 300 + 100 ms |
| `Violations.CloseIsGivenTime` | IXWebSocket/ixwebsocket/IXWebSocketTransport.cpp:1133-1161 | after a close call no poll ends the handshake within 300 ms |
| `Violations.OutOfSequence` | IXWebSocket/ixwebsocket/IXWebSocketTransport.cpp:573-595 | a data frame inside another message, or a continuation of nothing, closes with 1002 and the message that says which |
| `Violations.InvalidText` | IXWebSocket/ixwebsocket/IXWebSocketTransport.cpp:791-826 | a text message that is not UTF-8 closes with 1007 and is not delivered |
| `Violations.UnknownOpcode` | IXWebSocket/ixwebsocket/IXWebSocketTransport.cpp:737-743 | any other opcode closes with 1002 |
| `Violations.BadHead` | IXWebSocket/ixwebsocket/IXWebSocketTransport.cpp:485-560 | reserved bits, fragmented control frames and pings of more than 125 bytes close with 1002 and their messages |
| `Violations.BadHeadBytes` | IXWebSocket/ixwebsocket/IXWebSocketTransport.cpp:474-491 | which bytes are reserved bits: 0x20, 0x10, and 0x40 where no compression was agreed |
| `Violations.InvalidTextSent` | IXWebSocket/ixwebsocket/IXWebSocket.cpp:404-414 | an application that sends text which is not UTF-8 closes with 1007 |
| `Violations.PongOverdue` | IXWebSocket/ixwebsocket/IXWebSocketTransport.cpp:281-288 | an overdue pong closes with 1011 and "Ping timeout", in a CLOSE frame and in what is stored or reported |
| `Violations.PeerGone` | IXWebSocket/ixwebsocket/IXWebSocketTransport.cpp:750-769 | a peer that vanishes is reported once as 1006, local, and nothing more is sent |
| `Violations.RequestSurvivesIff` | IXWebSocket/ixwebsocket/IXWebSocketTransport.cpp:132-199 | a cancellation request survives a connect that fails exactly if it fails before the handshake |
| `Violations.PingAnswered` | IXWebSocket/ixwebsocket/IXWebSocketTransport.cpp:633-651 | a PING frame is answered by a PONG frame with the same payload before anything behind it is read |
| `Violations.Heartbeat` | IXWebSocket/ixwebsocket/IXWebSocketTransport.cpp:290-297 | once the ping interval has run out, and not before, a ping with the heartbeat text goes out and the interval starts again |
| `Violations.NewConnectionQuietIff` | IXWebSocket/ixwebsocket/IXWebSocketTransport.cpp:234-298 | the timers leave a new connection as it is exactly until the interval or the timeout has run out since its opening |
| `Delivery.FragmentsPartition` | IXWebSocket/ixwebsocket/IXWebSocketTransport.cpp:875-923 | for every wire size the fragments concatenate to the message |
| `Delivery.FragmentsAreShort` | IXWebSocket/ixwebsocket/IXWebSocketTransport.cpp:890-914 | every fragment is shorter than 65536 bytes, so sendData never uses the 8-byte length form |
| `Delivery.FragmentsDeliver` | IXWebSocket/ixwebsocket/IXWebSocketTransport.cpp:567-632 | reading the fragments of a message from any position delivers the whole message once |
| `Delivery.ControlIsTransparent` | IXWebSocket/ixwebsocket/IXWebSocketTransport.cpp:567-748 | control frames anywhere between data frames change neither the reader nor the messages delivered |
| `Delivery.MessagesDeliver` | IXWebSocket/ixwebsocket/IXWebSocketTransport.cpp:567-632 | the frames of any list of messages deliver exactly that list |
| `Delivery.StreamDelivers` | IXWebSocket/ixwebsocket/IXWebSocketTransport.cpp:567-632 | the same with control frames interleaved and a last message cut short |
| `Delivery.ReassemblyInvariant` | IXWebSocket/ixwebsocket/IXWebSocketTransport.cpp:567-632 | on every frame stream, even out of sequence: the chunks held are the data payloads since the last fin, each fin hands over their concatenation, and every text delivered is valid UTF-8 |
| `Reassembly.TakeFrame` | IXWebSocket/ixwebsocket/IXWebSocketTransport.cpp:743-746 | a completed pass of the loop consumes at least 2 bytes |
| `Reassembly.ReadAppend` | IXWebSocket/ixwebsocket/IXWebSocketTransport.cpp:470-748 | dispatch on a, then on the rest and b, delivers what dispatch on a + b delivers |
| `Reassembly.SplitInvariance` | IXWebSocket/ixwebsocket/IXWebSocketTransport.cpp:470-748 | for every byte stream and every way to cut it, the callbacks and the chunks are those of one call on the whole |
| `Reassembly.ReadEncoded` | IXWebSocket/ixwebsocket/IXWebSocketTransport.cpp:470-748 | on any concatenation of acceptable encoded frames dispatch processes exactly those frames and is left with the rest |
| `Framing.MaskTwice` | IXWebSocket/ixwebsocket/IXWebSocketTransport.cpp:414-444 | masking twice with one key is the identity |
| `Bytes.XorIsBitwise` | IXWebSocket/ixwebsocket/IXWebSocketTransport.cpp:425-444 | the masking operation on bytes is the exclusive or of eight bits, for all pairs of bytes |
| `WireExamples.ExampleFrames` | IXWebSocket/ixwebsocket/IXWebSocketTransport.cpp:934-1022 | the frames of section 5.7 of RFC 6455, masked and not, fragmented, ping and pong, are encoded byte for byte |
| `WireExamples.LongHeaders` | IXWebSocket/ixwebsocket/IXWebSocketTransport.cpp:951-996 | the headers of that section for 256 bytes and 64 KiB |
| `WireExamples.HelloRead` | IXWebSocket/ixwebsocket/IXWebSocketTransport.cpp:472-565 | dispatch reads the masked example as the text "Hello", whatever follows it |
| `Framing.HeaderInverts` | IXWebSocket/ixwebsocket/IXWebSocketTransport.cpp:940-1014 | the header sendFragment writes parses to the same fields, for every length below 2^63 |
| `Framing.FrameRoundTrip` | IXWebSocket/ixwebsocket/IXWebSocketTransport.cpp:472-565 | dispatch recovers the frame that sendFragment wrote, whatever follows it |
| `Framing.NextFrameStable` | IXWebSocket/ixwebsocket/IXWebSocketTransport.cpp:470-560 | more bytes never change a verdict on the frame at the head of the buffer |
| `Transport.GreatestCommonDivisor` | IXWebSocket/ixwebsocket/IXWebSocketTransport.cpp:56-66 | the result divides both arguments, and every common divisor is at most it |
| `Transport.WebSocketTransport.Configure` | IXWebSocket/ixwebsocket/IXWebSocketTransport.cpp:105-129 | the period is the greatest common divisor of interval and timeout, or the one of them that is set |
| `Transport.WebSocketTransport.FinishConnect` | IXWebSocket/ixwebsocket/IXWebSocketTransport.cpp:132-199 | a handshake that succeeds clears the cancellation request and enters OPEN once; one that fails only clears it; a connect that fails earlier changes nothing |
| `Transport.WebSocketTransport.SwitchToClosed` | IXWebSocket/ixwebsocket/IXWebSocketTransport.cpp:207-227 | entering CLOSED reports the close data once and resets them; CLOSED stays silent |
| `Transport.WebSocketTransport.SwitchToOpen` | IXWebSocket/ixwebsocket/IXWebSocketTransport.cpp:234-250 | entering OPEN starts the ping and gcd time points |
| `Transport.WebSocketTransport.Poll` | IXWebSocket/ixwebsocket/IXWebSocketTransport.cpp:279-406 | one poll is timers, wait, input and closing delay in that order; what it writes is stated by `PollMoves`, when it closes by `PollClosesIff` and `PollEndsClosingIff` |
| `Transport.WebSocketTransport.PollTimers` | IXWebSocket/ixwebsocket/IXWebSocketTransport.cpp:281-298 | the timer checks of an open connection |
| `Transport.WebSocketTransport.SendBuffered` | IXWebSocket/ixwebsocket/IXWebSocketTransport.cpp:341-361 | the loop that drains the send buffer until it is empty, cancelled or in error; how many bytes that writes is stated by `RequestMoves` |
| `Transport.WebSocketTransport.ReadAvailable` | IXWebSocket/ixwebsocket/IXWebSocketTransport.cpp:362-388 | the receive buffer grows by exactly the bytes read |
| `Transport.WebSocketTransport.AppendToSendBuffer` | IXWebSocket/ixwebsocket/IXWebSocketTransport.cpp:414-432 | the in-place masking loop changes only the payload just appended, each byte by the exclusive or with its key byte (`XorIsBitwise`, `ExampleFrames`) |
| `Transport.WebSocketTransport.UnmaskReceiveBuffer` | IXWebSocket/ixwebsocket/IXWebSocketTransport.cpp:434-444 | the in-place loop unmasks the first payload and nothing else, by the same operation (`HelloRead`) |
| `Transport.WebSocketTransport.DispatchOnce` | IXWebSocket/ixwebsocket/IXWebSocketTransport.cpp:470-746 | one pass either processes the first whole frame and removes it, or leaves by break or return as the tests of the loop say |
| `Transport.WebSocketTransport.Dispatch` | IXWebSocket/ixwebsocket/IXWebSocketTransport.cpp:467-770 | the loop and what follows an abnormal close, which the early returns skip; what it does with each frame is stated by `Violations`, `PongArrives` and `CloseStatusIff` |
| `Transport.WebSocketTransport.OnData` | IXWebSocket/ixwebsocket/IXWebSocketTransport.cpp:567-632 | an out-of-sequence data frame closes the connection and is still accumulated |
| `Transport.WebSocketTransport.OnClose` | IXWebSocket/ixwebsocket/IXWebSocketTransport.cpp:660-736 | what a CLOSE frame leads to, by its payload (`CloseStatusIff`) and the ready state |
| `Transport.WebSocketTransport.GetMergedChunks` | IXWebSocket/ixwebsocket/IXWebSocketTransport.cpp:772-789 | the concatenation of the chunks |
| `Transport.WebSocketTransport.EmitMessage` | IXWebSocket/ixwebsocket/IXWebSocketTransport.cpp:791-826 | decompression, the UTF-8 check on text and the callback, or the close on a bad text |
| `Transport.WebSocketTransport.SendData` | IXWebSocket/ixwebsocket/IXWebSocketTransport.cpp:837-932 | the fragment loop sends the fragments of the message and no others |
| `Transport.WebSocketTransport.SendFragment` | IXWebSocket/ixwebsocket/IXWebSocketTransport.cpp:934-1022 | one frame is encoded, appended and drained |
| `Transport.WebSocketTransport.BuildHeader` | IXWebSocket/ixwebsocket/IXWebSocketTransport.cpp:940-1014 | the header filled in branch by branch is the header of RFC 6455 section 5.2 for that frame |
| `Transport.WebSocketTransport.SendPing` | IXWebSocket/ixwebsocket/IXWebSocketTransport.cpp:1024-1036 | a ping that was sent moves the ping time point |
| `Transport.WebSocketTransport.SendOnSocket` | IXWebSocket/ixwebsocket/IXWebSocketTransport.cpp:1062-1085 | writes until the socket blocks, fails or the buffer is empty; a failure closes |
| `Transport.WebSocketTransport.SendCloseFrame` | IXWebSocket/ixwebsocket/IXWebSocketTransport.cpp:1087-1108 | the CLOSE payload carries code and reason, or nothing for 1005 |
| `Transport.WebSocketTransport.CloseSocketAndSwitchToClosedState` | IXWebSocket/ixwebsocket/IXWebSocketTransport.cpp:1116-1131 | the data given are the data reported |
| `Transport.WebSocketTransport.Close` | IXWebSocket/ixwebsocket/IXWebSocketTransport.cpp:1133-1161 | close sets the data once, enters CLOSING and sends the frame; in CLOSING and CLOSED it only requests cancellation |
| `Transport.WebSocket.SendText` | IXWebSocket/ixwebsocket/IXWebSocket.cpp:404-414 | text that is not UTF-8 closes with 1007 and is not sent; success implies valid text |
| `Transport.WebSocket.SendMessage` | IXWebSocket/ixwebsocket/IXWebSocket.cpp:425-464 | a message is sent only while OPEN, with the connection's compression setting |
| `Transport.WebSocket.Ping` | IXWebSocket/ixwebsocket/IXWebSocket.cpp:416-423 | a ping of at most 125 bytes is sent while OPEN, a longer one is ignored |
| `Utf8Validator.ValidateUtf8` | IXWebSocket/ixwebsocket/IXUtf8Validator.h:157-165 | true exactly on the concatenations of character sequences of section 4 of RFC 3629 |
| `Utf8Validator.ValidIffString` | IXWebSocket/ixwebsocket/IXUtf8Validator.h:50-84 | the table machine accepts exactly the grammar, both directions |
| `Utf8Validator.AcceptHoldsScalar` | IXWebSocket/ixwebsocket/IXUtf8Validator.h:74-84 | after any valid text and the encoding of a Unicode scalar value the machine accepts and holds that value |
| `Utf8Validator.RejectAbsorbs` | IXWebSocket/ixwebsocket/IXUtf8Validator.h:60-65 | the reject state is never left |
| `Utf8Validator.FeedAppend` | IXWebSocket/ixwebsocket/IXUtf8Validator.h:113-130 | decoding a and then b ends in the state of decoding a + b, with the same code point when a was not rejected |
| `Utf8Grammar.ScalarOfEncoding` | IXWebSocket/ixwebsocket/IXUtf8Validator.h:74-84 | decoding the bit fields of an encoded scalar value gives the value back |
| `Utf8Grammar.CharsAreEncodedScalars` | IXWebSocket/ixwebsocket/IXUtf8Validator.h:50-59 | the character sequences of the grammar are exactly the encodings of scalar values |
| `Utf8Validator.Validator.Consume` | IXWebSocket/ixwebsocket/IXUtf8Validator.h:98-105 | one byte is one step of the machine; false exactly on reject |
| `Utf8Validator.Validator.Decode` | IXWebSocket/ixwebsocket/IXUtf8Validator.h:114-130 | the loop feeds the bytes up to the first reject |
| `HandshakeKey.Generate` | IXWebSocket/ixwebsocket/libwshandshake.hpp:105-133 | the output is base64 of the SHA-1 of the 24 characters read and the GUID, the accept value of section 4.2.2 of RFC 6455 (`SampleAccept`) |
| `HandshakeExample.SampleAccept` | IXWebSocket/ixwebsocket/libwshandshake.hpp:105-133 | the key of section 1.3 of RFC 6455 gives the accept value stated there, all 160 rounds worked through |
| `Sha1Spec.ScheduleRecurs` | IXWebSocket/ixwebsocket/libwshandshake.hpp:43-45 | for every block, each schedule word from the 17th on, turned right by one bit, is the exclusive or of the words 3, 8, 14 and 16 places before |
| `HandshakeKey.KeyKept` | IXWebSocket/ixwebsocket/libwshandshake.hpp:107-109 | the characters read are the key itself exactly when it has 24 characters and nothing but NULs after a NUL |
| `HandshakeKey.CompressInPlace` | IXWebSocket/ixwebsocket/libwshandshake.hpp:80-88 | the rotating registers and the 16-word ring compute one compression of section 6.1.2 of FIPS 180-4, for every state and block (`ScheduleRecurs`, `SampleAccept`) |
| `HandshakeKey.Phase1` | IXWebSocket/ixwebsocket/libwshandshake.hpp:50-53 | rounds 0 to 15 on the array are rounds 0 to 15 of the standard |
| `HandshakeKey.Phase2` | IXWebSocket/ixwebsocket/libwshandshake.hpp:54-58 | rounds 16 to 19, with the ring holding the last sixteen schedule words |
| `HandshakeKey.Phase3` | IXWebSocket/ixwebsocket/libwshandshake.hpp:59-63 | rounds 20 to 39 |
| `HandshakeKey.Phase4` | IXWebSocket/ixwebsocket/libwshandshake.hpp:64-68 | rounds 40 to 59 |
| `HandshakeKey.Phase5` | IXWebSocket/ixwebsocket/libwshandshake.hpp:69-73 | rounds 60 to 79 |
| `HandshakeKey.RingTurns` | IXWebSocket/ixwebsocket/libwshandshake.hpp:43-45 | blk on the ring is the next word of the 80-word schedule, which `ScheduleRecurs` defines on bits, and storing it keeps the ring |
| `HandshakeKey.Rotates` | IXWebSocket/ixwebsocket/libwshandshake.hpp:50-53 | the two assignments of a round move the five registers by one place |
| `HandshakeKey.TwoBlocks` | IXWebSocket/ixwebsocket/libwshandshake.hpp:114-123 | the padding of a 24-character key and the GUID is the two blocks built from constants |
| `HandshakeKey.HashTwo` | IXWebSocket/ixwebsocket/libwshandshake.hpp:122-124 | the hash of a two-block message is two compressions, one after the other |
| `HandshakeKey.EncodeTwenty` | IXWebSocket/ixwebsocket/libwshandshake.hpp:90-102 | the unrolled 20-byte encoder agrees with general base64 |
| `Base64Codec.EncodeBytes` | IXWebSocket/ixcrypto/ixcrypto/IXBase64.cpp:37-84 | the loop over a three-byte buffer produces the base64 of section 4 of RFC 4648 |
| `Base64Codec.DecodeText` | IXWebSocket/ixcrypto/ixcrypto/IXBase64.cpp:91-134 | the loop over a four-byte buffer decodes the letters up to the first other character; filler never reaches the output |
| `Base64Spec.RoundTrip` | IXWebSocket/ixcrypto/ixcrypto/IXBase64.cpp:37-134 | decoding an encoding gives the bytes back, for every byte string |
| `Base64Spec.Encode` | IXWebSocket/ixcrypto/ixcrypto/IXBase64.cpp:37-84 | the encoded length is 4 * ceil(n / 3) |
| `Base64Spec.CanonicalRoundTrip` | IXWebSocket/ixcrypto/ixcrypto/IXBase64.cpp:91-134 | encoding a decoding gives the text back exactly on canonical texts: whole quads, padding only at the end, no stray bits |
| `Server.ShutdownIsClean` | IXWebSocket/ixwebsocket/IXSocketServer.cpp:150-170 | in every interleaving, when stop returns the thread list and the client set are empty, every connection ever launched has finished and been joined exactly once, and both background threads are gone |
| `Server.JoinsOnlyFinished` | IXWebSocket/ixwebsocket/IXSocketServer.cpp:185-205 | only threads of terminated connections whose function has returned are joined, each once and in the step that removes them |
| `Server.RunKeepsInv` | IXWebSocket/ixwebsocket/IXSocketServer.cpp:207-310 | every step keeps the accounting of connections, client set and phases of stop |
| `Server.EraseFindsClient` | IXWebSocket/ixwebsocket/IXWebSocketServer.cpp:103-110 | a handler about to remove its client from the set always finds it there |
| `Server.IdleIsEmpty` | IXWebSocket/ixwebsocket/IXSocketServer.cpp:126-137 | a server that is not started has no listed thread and no client |
| `Server.StopCanReturn` | IXWebSocket/ixwebsocket/IXSocketServer.cpp:150-170 | from every reachable state inside stop there is a schedule by which it returns: the threads and the list mutex cannot deadlock |
| `Server.StopAsksItsSnapshot` | IXWebSocket/ixwebsocket/IXWebSocketServer.cpp:38-49 | every client in the set at the snapshot is asked to close before stop waits for a thread |
| `Server.LateClient` | IXWebSocket/ixwebsocket/IXWebSocketServer.cpp:38-49 | a connection launched after the snapshot can be waited for without having been asked |
| `Server.StopMissesIff` | IXWebSocket/ixwebsocket/IXWebSocketServer.cpp:38-49 | the exact condition, at the snapshot: stop can come to wait for a connection it never asked to close if and only if one is about to be launched or about to enter the client set |
| `ServerRequests.LostRequestIff` | IXWebSocket/ixwebsocket/IXWebSocketHandshake.cpp:248-256 | a close request of stop can be lost, the connection being served on, if and only if at that moment the connection is in the client set but its handshake has not begun, which takes the request back, or has looked at it for the last time |
| `ServerRequests.WaitsInVainIff` | IXWebSocket/ixwebsocket/IXWebSocketServer.cpp:38-49 | the exact condition at the snapshot: stop can come to wait for an OPEN connection that is not closing, told or not, if and only if one is about to be launched or has not become OPEN |
| `ServerLimit.CountAdmitsIff` | IXWebSocket/ixwebsocket/IXSocketServer.cpp:255-266 | a connection is taken exactly when fewer clients are counted than the limit |
| `ServerLimit.LimitKeptIff` | IXWebSocket/ixwebsocket/IXSocketServer.cpp:255-283 | over every schedule: clients and connections on their way to become clients stay within the limit throughout exactly when no count admits one while those on their way fill the last places |
| `ServerLimit.LimitExceeded` | IXWebSocket/ixwebsocket/IXSocketServer.cpp:255-283 | the failing schedule: a limit of one and two clients |
| `Server.StopFlagLeft` | IXWebSocket/ixwebsocket/IXSocketServer.cpp:150-158 | over a whole call of stop, along any schedule: it leaves the stop flag set exactly when the server was not started at the call |
| `Server.DeafUntilJoined` | IXWebSocket/ixwebsocket/IXSocketServer.cpp:207-285 | with the flag left set, a restarted server launches no connection until its accept thread has been joined |
| `UrlSpec.ParsePrint` | IXWebSocket/ixwebsocket/LUrlParser.cpp:59-263 | every well-formed URL prints to a text that parses back to it, part by part |
| `UrlSpec.PrintParse` | IXWebSocket/ixwebsocket/LUrlParser.cpp:59-263 | every text that parses is the print of the well-formed URL it parses to |
| `UrlSpec.LoginPrints` | IXWebSocket/ixwebsocket/LUrlParser.cpp:104-162 | reading a login never fails: an at sign seen ahead is always found again |
| `UrlSpec.PlaceRefused` | IXWebSocket/ixwebsocket/LUrlParser.cpp:164-219 | the rest of a URL is refused exactly when text follows a closing bracket directly |
| `UrlParser.ParseURL` | IXWebSocket/ixwebsocket/LUrlParser.cpp:59-263 | the pointer loops fill in exactly the fields of the parse, scheme in lower case, or give its error |
| `UrlParser.IsSchemeValid` | IXWebSocket/ixwebsocket/LUrlParser.cpp:35-43 | true exactly on letters, plus, minus and dot |
| `UrlParser.SchemeCharacters` | IXWebSocket/ixwebsocket/LUrlParser.cpp:35-43 | the characters of a scheme by their codes |
| `UrlParser.GetPort` | IXWebSocket/ixwebsocket/LUrlParser.cpp:45-56 | a port is between 1 and 65535 or absent |
| `UrlParser.ParseTarget` | IXWebSocket/ixwebsocket/IXUrlParser.cpp:12-65 | success exactly when the URL parses and has a usable port or a known scheme; then the port is in 1-65535 and the path starts with a slash |
| `UrlParser.PrintedPortIsUsed` | IXWebSocket/ixwebsocket/IXUrlParser.cpp:31-47 | a port printed in decimal is the port used, for every port number |
| `UrlParser.SchemePicksPort` | IXWebSocket/ixwebsocket/IXUrlParser.cpp:31-47 | a URL without a port means 80 or 443 by its scheme in letters of either case, and no port for any other scheme |
| `UrlParser.SecureExample` | IXWebSocket/ixwebsocket/IXUrlParser.cpp:12-65 | "WSS://host" is port 443 of the host and the path "/" |
| `UrlParser.PathKept` | IXWebSocket/ixwebsocket/IXUrlParser.cpp:49-62 | the path requested is the one in the URL exactly when that does not start with two slashes and has no empty query |
| `DeflateOptions.RoundTripIff` | IXWebSocket/ixwebsocket/IXWebSocketPerMessageDeflateOptions.cpp:53-142 | a printed header reads back as the same options exactly when the client size is 9-15 and the server size 8-15 |
| `DeflateOptions.ReadInRange` | IXWebSocket/ixwebsocket/IXWebSocketPerMessageDeflateOptions.cpp:84-126 | whatever a peer sends, an empty value that leaves the number uninitialised included, the client size is in 9-15 and the server size in 8-15 |
| `DeflateOptions.AppliedFlags` | IXWebSocket/ixwebsocket/IXWebSocketPerMessageDeflateOptions.cpp:67-82 | each flag is set exactly by the token that names it, in any order and number |
| `DeflateOptions.FlagsRead` | IXWebSocket/ixwebsocket/IXWebSocketPerMessageDeflateOptions.cpp:53-82 | the flags read from an extension are exactly those that one of its tokens names in full |
| `DeflateOptions.TokenEffect` | IXWebSocket/ixwebsocket/IXWebSocketPerMessageDeflateOptions.cpp:67-114 | what each token does to flags and sizes, a size brought into 8-15 and a client size of 8 into 9 |
| `DeflateOptions.WebSocketPerMessageDeflateOptions.FromExtension` | IXWebSocket/ixwebsocket/IXWebSocketPerMessageDeflateOptions.cpp:53-116 | the token loop reads the options of the text without its white space |
| `DeflateOptions.WebSocketPerMessageDeflateOptions.GenerateHeader` | IXWebSocket/ixwebsocket/IXWebSocketPerMessageDeflateOptions.cpp:128-142 | the header is the options joined in order |
| `DeflateOptions.HeaderText` | IXWebSocket/ixwebsocket/IXWebSocketPerMessageDeflateOptions.cpp:128-142 | the header value for every setting, spelt out |
| `Metrics.AcceptedIff` | IXWebSocket/ixcobra/ixcobra/IXCobraMetricsPublisher.cpp:165-181 | a tested push is accepted exactly when the publisher is enabled, the id is not black-listed and no earlier push of a limited id lies within its rate window |
| `Metrics.RunKeepsDistance` | IXWebSocket/ixcobra/ixcobra/IXCobraMetricsPublisher.cpp:165-209 | over every run of pushes: the n-th push of an id carries counter n - 1, and accepted tested pushes of a limited id come at least the rate after every earlier one |
| `Metrics.FreshRun` | IXWebSocket/ixcobra/ixcobra/IXCobraMetricsPublisher.cpp:165-209 | the whole promise from a fresh publisher: after any run, counters number the pushes of each id, tested pushes of a limited id are its rate apart, and the next tested push is accepted exactly when enabled, not black-listed and outside its window |
| `Metrics.BinarySearch` | IXWebSocket/ixcobra/ixcobra/IXCobraMetricsPublisher.cpp:78-81 | bisection of a sorted list is membership |
| `Metrics.Sort` | IXWebSocket/ixcobra/ixcobra/IXCobraMetricsPublisher.cpp:62-66 | the same strings, in order |
| `Metrics.MetricsPublisher.SetBlacklist` | IXWebSocket/ixcobra/ixcobra/IXCobraMetricsPublisher.cpp:62-76 | the ids refused are those of the list given; the list is pushed |
| `Metrics.MetricsPublisher.SetRateControl` | IXWebSocket/ixcobra/ixcobra/IXCobraMetricsPublisher.cpp:83-103 | the rates that are not negative replace those set before; the table is pushed |
| `Metrics.MergedRatesAre` | IXWebSocket/ixcobra/ixcobra/IXCobraMetricsPublisher.cpp:83-93 | the rate of an id is that of its last entry in the table that is not negative, or what it was |
| `Metrics.MetricsPublisher.ShouldPush` | IXWebSocket/ixcobra/ixcobra/IXCobraMetricsPublisher.cpp:165-172 | enabled, not black-listed, not above its rate |
| `Metrics.MetricsPublisher.Push` | IXWebSocket/ixcobra/ixcobra/IXCobraMetricsPublisher.cpp:174-209 | a push let through sets the time of its id, takes the next counter and is handed on; one refused changes nothing |
| `CobraQueue.BatchOrder` | IXWebSocket/ixcobra/ixcobra/IXCobraConnection.cpp:462-584 | in every batch-mode run messages leave in publication order, whatever sends fail |
| `CobraQueue.RunOrder` | IXWebSocket/ixcobra/ixcobra/IXCobraConnection.cpp:462-584 | in every run, in any mode, the order is kept throughout exactly when no publish goes straight out while older messages wait |
| `CobraQueue.Overtaken` | IXWebSocket/ixcobra/ixcobra/IXCobraConnection.cpp:485-489 | a message that failed is overtaken by the next one in immediate mode |
| `CobraQueue.FlushEffect` | IXWebSocket/ixcobra/ixcobra/IXCobraConnection.cpp:568-584 | a flush sends the oldest messages in order up to the first failure, and then only the oldest left is doubled |
| `CobraQueue.RunSize` | IXWebSocket/ixcobra/ixcobra/IXCobraConnection.cpp:552-584 | the queue stays within 256 throughout a run exactly when no flush fails at once on a full queue |
| `CobraQueue.BoundLost` | IXWebSocket/ixcobra/ixcobra/IXCobraConnection.cpp:552-584 | a full queue and one failed flush leave 257 messages |
| `CobraQueue.GrowsPastBound` | IXWebSocket/ixcobra/ixcobra/IXCobraConnection.cpp:552-584 | in every run during which the queue stays over its bound, its length falls by what is sent and by nothing else, and each message published adds one |
| `CobraQueue.RunConserves` | IXWebSocket/ixcobra/ixcobra/IXCobraConnection.cpp:462-584 | conservation over every run: messages waiting and sent are those there were, one for each publish that drops nothing and one for each failed flush |
| `CobraQueue.RunKeepsNewest` | IXWebSocket/ixcobra/ixcobra/IXCobraConnection.cpp:552-584 | in batch mode without a failed flush the queue is the newest 256 at most of the messages published since it was last emptied |
| `CobraQueue.CobraConnection.Publish` | IXWebSocket/ixcobra/ixcobra/IXCobraConnection.cpp:462-492 | ids are consecutive; the message goes straight out or into the queue |
| `CobraQueue.CobraConnection.Enqueue` | IXWebSocket/ixcobra/ixcobra/IXCobraConnection.cpp:552-561 | at exactly 256 messages the oldest is dropped for the new one |
| `CobraQueue.CobraConnection.FlushQueue` | IXWebSocket/ixcobra/ixcobra/IXCobraConnection.cpp:568-584 | the loop is the flush from the oldest on; true exactly when every send succeeded |

## Left out

- Sockets, TLS, DNS, select interrupts and wake-ups: a socket is a byte stream whose write results and reads are arbitrary. Interrupts only shorten waits.
- The HTTP part of the handshake, extra headers and cookies: only the key, the URL and the deflate options are modelled; a handshake succeeds or fails.
- zlib: compression is an arbitrary function per message, with a decompressor that undoes it where a theorem needs that. Window contents kept from message to message and the agreement of window sizes are not modelled.
- `header_size + N` is computed without the 64-bit wrap-around of the source, and payload lengths are below 2^63 as section 5.2 of RFC 6455 requires.
- Progress callbacks that stop a message half way; callbacks that call back into the transport.
- Buffers and chunks left over from an earlier connection: the two-party theorems start from empty buffers, the run invariants do not need that.
- `_fragmentedMessageKind` is uninitialised in the source; the constructor takes it as a parameter.
- Socket errors at an end that is still open, overdue pongs and failed writes to an open socket are in the runs of `EndToEndDelivery` but not in those of `TwoPartyClose`: such an end need not stay OPEN until it reads the frame.
- The clock is read once per atomic step; a poll has two readings, before and after its wait. `SendBuffered` waits for the socket as often as it is given results.
- The reconnection loop and the retry delay in `IXWebSocket.cpp`: the theorems treat one connection at a time and any number in a row.
- The UTF-8 lookup table is given by byte ranges and rows instead of 400 numbers.
- Base64 input longer than the `int` that counts it; `atoi` on numbers beyond `int`, which the C library leaves undefined; per-id counters beyond their integer type.
- `generate` swaps the bytes of the hash words in place; the model lays them out in a second array.
- Fairness: that the threads of a server are all scheduled is not assumed, so `StopCanReturn` says that stop can return, not that it must.
- `Metrics.Sort` and `Metrics.BinarySearch` stand for the standard library's algorithms; concurrent pushes of one metric are not modelled.
- JSON, the subscription calls and the authentication of a Cobra connection.
- HTTP client and server, Redis, Sentry, the snake server, the command-line tools and the sample client and server: plumbing around library types that would add easy members.

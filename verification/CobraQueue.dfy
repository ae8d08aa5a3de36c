/**
 * The publish queue of a Cobra connection. Whether the socket takes a message is up to the environment:
 * `accepts(i)` is the outcome of attempt number `i`.
 */
module CobraQueue {
  const QUEUE_MAX: nat := 256

  datatype Pdu = Pdu(id: nat, body: string)

  /**
   * `waiting` is the queue, the newest message first. `sent` lists what the socket took, in order; `since` lists what
   * was published since the queue was last flushed to the end.
   */
  datatype Queue = Queue(waiting: seq<Pdu>, next: nat, tries: nat, sent: seq<Pdu>, since: seq<Pdu>)

  const Empty: Queue := Queue([], 0, 0, [], [])

  /** A publish call either may go straight to the socket (immediate mode, authenticated) or is queued. */
  datatype Event = Publish(direct: bool, body: string) | Flush

  function DoEnqueue(q: Queue, m: Pdu): (r: Queue) {
    var kept := if |q.waiting| == QUEUE_MAX then q.waiting[..QUEUE_MAX - 1] else q.waiting;
    q.(waiting := [m] + kept)
  }

  function DoPublish(accepts: nat -> bool, q: Queue, direct: bool, body: string): (r: Queue) {
    var m := Pdu(q.next, body);
    var q1 := q.(next := q.next + 1, since := q.since + [m]);
    if !direct then DoEnqueue(q1, m)
    else if accepts(q.tries) then q1.(tries := q.tries + 1, sent := q.sent + [m])
    else DoEnqueue(q1.(tries := q.tries + 1), m)
  }

  /** The oldest message sent. */
  function Moved(q: Queue): (r: Queue)
    requires q.waiting != []
  {
    var n := |q.waiting| - 1;
    q.(waiting := q.waiting[..n], tries := q.tries + 1, sent := q.sent + [q.waiting[n]])
  }

  /** The oldest message not sent. */
  function PutBack(q: Queue): (r: Queue)
    requires q.waiting != []
  {
    q.(waiting := q.waiting + [q.waiting[|q.waiting| - 1]], tries := q.tries + 1)
  }

  /** Oldest first until the queue is empty or a send fails; a message that failed is put in again behind itself. */
  function DoFlush(accepts: nat -> bool, q: Queue): (r: Queue)
    decreases |q.waiting|
  {
    if q.waiting == [] then q.(since := [])
    else if !accepts(q.tries) then PutBack(q)
    else DoFlush(accepts, Moved(q))
  }

  function Do(accepts: nat -> bool, q: Queue, e: Event): (r: Queue) {
    match e
    case Publish(direct, body) => DoPublish(accepts, q, direct, body)
    case Flush => DoFlush(accepts, q)
  }

  function Run(accepts: nat -> bool, q: Queue, events: seq<Event>): (r: Queue)
    decreases |events|
  {
    if events == [] then q else Run(accepts, Do(accepts, q, events[0]), events[1..])
  }

  // ---------------------------------------------------------------- order

  /** What was sent, then what waits from the oldest on, is in the order of publication. */
  ghost predicate Ordered(q: Queue) {
    && (forall i, j :: 0 <= i < j < |q.sent| ==> q.sent[i].id <= q.sent[j].id)
    && (forall i, j :: 0 <= i < j < |q.waiting| ==> q.waiting[i].id >= q.waiting[j].id)
    && (forall i, j :: 0 <= i < |q.sent| && 0 <= j < |q.waiting| ==> q.sent[i].id <= q.waiting[j].id)
    && (forall i :: 0 <= i < |q.sent| ==> q.sent[i].id < q.next)
    && (forall i :: 0 <= i < |q.waiting| ==> q.waiting[i].id < q.next)
  }

  /** A publish that goes straight to the socket while older messages wait. */
  predicate Overtakes(accepts: nat -> bool, q: Queue, e: Event) {
    e.Publish? && e.direct && accepts(q.tries) && q.waiting != []
  }

  lemma MovedKeepsOrder(q: Queue)
    requires Ordered(q) && q.waiting != []
    ensures Ordered(Moved(q))
  {
  }

  lemma PutBackKeepsOrder(q: Queue)
    requires Ordered(q) && q.waiting != []
    ensures Ordered(PutBack(q))
  {
  }

  lemma {:induction false} FlushKeepsOrder(accepts: nat -> bool, q: Queue)
    requires Ordered(q)
    ensures Ordered(DoFlush(accepts, q))
    decreases |q.waiting|
  {
    if q.waiting != [] {
      MovedKeepsOrder(q);
      PutBackKeepsOrder(q);
      if accepts(q.tries) { FlushKeepsOrder(accepts, Moved(q)); }
    }
  }

  /** One call keeps the order exactly when it does not overtake. */
  lemma StepOrder(accepts: nat -> bool, q: Queue, e: Event)
    requires Ordered(q)
    ensures Ordered(Do(accepts, q, e)) <==> !Overtakes(accepts, q, e)
  {
    match e
    case Flush => FlushKeepsOrder(accepts, q);
    case Publish(direct, body) =>
      var r := DoPublish(accepts, q, direct, body);
      if Overtakes(accepts, q, e) {
        assert r.sent[|r.sent| - 1].id == q.next && r.waiting[0].id < q.next;
      }
  }

  ghost predicate OrderedThroughout(accepts: nat -> bool, q: Queue, events: seq<Event>)
    decreases |events|
  {
    Ordered(q) && (events == [] || OrderedThroughout(accepts, Do(accepts, q, events[0]), events[1..]))
  }

  ghost predicate NeverOvertakes(accepts: nat -> bool, q: Queue, events: seq<Event>)
    decreases |events|
  {
    events == [] || (!Overtakes(accepts, q, events[0])
        && NeverOvertakes(accepts, Do(accepts, q, events[0]), events[1..]))
  }

  /** Messages leave in publication order, duplicates of a failed flush included, exactly when no publish overtakes. */
  lemma {:induction false} RunOrder(accepts: nat -> bool, q: Queue, events: seq<Event>)
    requires Ordered(q)
    ensures OrderedThroughout(accepts, q, events) <==> NeverOvertakes(accepts, q, events)
    decreases |events|
  {
    if events != [] {
      StepOrder(accepts, q, events[0]);
      if !Overtakes(accepts, q, events[0]) {
        RunOrder(accepts, Do(accepts, q, events[0]), events[1..]);
      }
    }
  }

  predicate Batch(events: seq<Event>) {
    forall i :: 0 <= i < |events| ==> events[i].Publish? ==> !events[i].direct
  }

  /** In batch mode nothing overtakes, whatever sends fail. */
  lemma {:induction false} BatchOrder(accepts: nat -> bool, q: Queue, events: seq<Event>)
    requires Batch(events) && Ordered(q)
    ensures Ordered(Run(accepts, q, events))
    decreases |events|
  {
    if events != [] {
      StepOrder(accepts, q, events[0]);
      BatchOrder(accepts, Do(accepts, q, events[0]), events[1..]);
    }
  }

  // ---------------------------------------------------------------- what a flush does

  function Reversed(s: seq<Pdu>): (r: seq<Pdu>)
    ensures |r| == |s| && forall i :: 0 <= i < |s| ==> r[i] == s[|s| - 1 - i]
  {
    if s == [] then [] else [s[|s| - 1]] + Reversed(s[..|s| - 1])
  }

  /** How many sends in a row succeed, of `limit` at most. */
  function Successes(accepts: nat -> bool, tries: nat, limit: nat): (k: nat)
    ensures k <= limit && (forall i :: tries <= i < tries + k ==> accepts(i))
    ensures k < limit ==> !accepts(tries + k)
    decreases limit
  {
    if limit == 0 || !accepts(tries) then 0
    else 1 + Successes(accepts, tries + 1, limit - 1)
  }

  /** The `k` oldest go out in order; if the next one fails it stands twice at the old end of what is left. */
  function FlushResult(accepts: nat -> bool, q: Queue): (r: Queue) {
    Flushed(q, Successes(accepts, q.tries, |q.waiting|))
  }

  function Flushed(q: Queue, k: nat): (r: Queue)
    requires k <= |q.waiting|
  {
    var left := q.waiting[..|q.waiting| - k];
    var sent := q.sent + Reversed(q.waiting[|q.waiting| - k..]);
    if left == [] then Queue([], q.next, q.tries + k, sent, [])
    else Queue(left + [left[|left| - 1]], q.next, q.tries + k + 1, sent, q.since)
  }

  lemma NothingSent(s: seq<Pdu>)
    ensures s + Reversed([]) == s
  {
  }

  lemma {:induction false} FlushEffect(accepts: nat -> bool, q: Queue)
    ensures DoFlush(accepts, q) == FlushResult(accepts, q)
    decreases |q.waiting|
  {
    var n := |q.waiting|;
    NothingSent(q.sent);
    if n == 0 {
      assert q.waiting[n..] == [];
    } else if !accepts(q.tries) {
      assert q.waiting[n..] == [] && q.waiting[..n] == q.waiting;
    } else {
      FlushEffect(accepts, Moved(q));
      MovedResult(accepts, q);
    }
  }

  lemma SuccessesStep(accepts: nat -> bool, tries: nat, limit: nat)
    requires limit > 0 && accepts(tries)
    ensures Successes(accepts, tries, limit) == 1 + Successes(accepts, tries + 1, limit - 1)
  {
  }

  lemma SentStep(w: seq<Pdu>, sent: seq<Pdu>, k: nat)
    requires w != [] && k < |w|
    ensures var n := |w| - 1;
      && sent + Reversed(w[n - k..]) == (sent + [w[n]]) + Reversed(w[..n][n - k..])
      && w[..n][..n - k] == w[..n - k]
  {
    var n := |w| - 1;
    var tail := w[n - k..];
    assert tail[..|tail| - 1] == w[..n][n - k..];
    var r := Reversed(w[..n][n - k..]);
    assert Reversed(tail) == [w[n]] + r;
    assert sent + ([w[n]] + r) == (sent + [w[n]]) + r;
  }

  lemma MovedResult(accepts: nat -> bool, q: Queue)
    requires q.waiting != [] && accepts(q.tries)
    ensures FlushResult(accepts, Moved(q)) == FlushResult(accepts, q)
  {
    hide Successes, Reversed;
    var w, n := q.waiting, |q.waiting| - 1;
    var k := Successes(accepts, q.tries + 1, n);
    SuccessesStep(accepts, q.tries, n + 1);
    SentStep(w, q.sent, k);
    var p := Moved(q);
    assert p.waiting == w[..n] && p.sent == q.sent + [w[n]] && p.tries == q.tries + 1;
    assert |w| - (k + 1) == |p.waiting| - k == n - k;
  }

  // ---------------------------------------------------------------- size

  /** A flush whose first send fails while the queue is full. */
  predicate FailsFull(accepts: nat -> bool, q: Queue, e: Event) {
    e.Flush? && |q.waiting| == 256 && !accepts(q.tries)
  }

  /** One call keeps the queue within its bound exactly when it is not a flush that fails at once on a full queue. */
  lemma StepSize(accepts: nat -> bool, q: Queue, e: Event)
    requires |q.waiting| <= 256
    ensures |Do(accepts, q, e).waiting| <= 256 <==> !FailsFull(accepts, q, e)
  {
    if e.Flush? { FlushEffect(accepts, q); }
  }

  ghost predicate Within(accepts: nat -> bool, q: Queue, events: seq<Event>)
    decreases |events|
  {
    |q.waiting| <= 256 && (events == [] || Within(accepts, Do(accepts, q, events[0]), events[1..]))
  }

  ghost predicate NeverFailsFull(accepts: nat -> bool, q: Queue, events: seq<Event>)
    decreases |events|
  {
    events == [] || (!FailsFull(accepts, q, events[0])
        && NeverFailsFull(accepts, Do(accepts, q, events[0]), events[1..]))
  }

  lemma {:induction false} RunSize(accepts: nat -> bool, q: Queue, events: seq<Event>)
    requires |q.waiting| <= 256
    ensures Within(accepts, q, events) <==> NeverFailsFull(accepts, q, events)
    decreases |events|
  {
    if events != [] {
      StepSize(accepts, q, events[0]);
      if !FailsFull(accepts, q, events[0]) {
        RunSize(accepts, Do(accepts, q, events[0]), events[1..]);
      }
    }
  }

  /** What one call adds to the messages waiting or sent: one published, one doubled, one dropped for one published. */
  function Gain(accepts: nat -> bool, q: Queue, e: Event): (n: int) {
    match e
    case Publish(direct, _) => if |q.waiting| == 256 && !(direct && accepts(q.tries)) then 0 else 1
    case Flush => if Successes(accepts, q.tries, |q.waiting|) == |q.waiting| then 0 else 1
  }

  function Gains(accepts: nat -> bool, q: Queue, events: seq<Event>): (n: int)
    decreases |events|
  {
    if events == [] then 0
    else Gain(accepts, q, events[0]) + Gains(accepts, Do(accepts, q, events[0]), events[1..])
  }

  lemma StepConserves(accepts: nat -> bool, q: Queue, e: Event)
    ensures var r := Do(accepts, q, e); |r.waiting| + |r.sent| == |q.waiting| + |q.sent| + Gain(accepts, q, e)
  {
    if e.Flush? { FlushEffect(accepts, q); }
  }

  /** Conservation over every run: messages waiting and sent are those there were, and the gains of the calls. */
  lemma {:induction false} RunConserves(accepts: nat -> bool, q: Queue, events: seq<Event>)
    ensures var t := Run(accepts, q, events);
      |t.waiting| + |t.sent| == |q.waiting| + |q.sent| + Gains(accepts, q, events)
    decreases |events|
  {
    if events != [] {
      StepConserves(accepts, q, events[0]);
      RunConserves(accepts, Do(accepts, q, events[0]), events[1..]);
    }
  }

  /** The queue is over its bound at every call of the run. */
  ghost predicate Over(accepts: nat -> bool, q: Queue, events: seq<Event>)
    decreases |events|
  {
    events == [] || (|q.waiting| > 256 && Over(accepts, Do(accepts, q, events[0]), events[1..]))
  }

  function Published(events: seq<Event>): (n: nat) {
    if events == [] then 0 else (if events[0].Publish? then 1 else 0) + Published(events[1..])
  }

  lemma {:induction false} OverGains(accepts: nat -> bool, q: Queue, events: seq<Event>)
    requires Over(accepts, q, events)
    ensures Gains(accepts, q, events) >= Published(events)
    decreases |events|
  {
    if events != [] { OverGains(accepts, Do(accepts, q, events[0]), events[1..]); }
  }

  /** While it is over its bound the queue drops nothing: its length falls by what is sent and by nothing else. */
  lemma GrowsPastBound(accepts: nat -> bool, q: Queue, events: seq<Event>)
    requires Over(accepts, q, events)
    ensures var t := Run(accepts, q, events);
      |t.waiting| >= |q.waiting| + Published(events) - (|t.sent| - |q.sent|)
  {
    RunConserves(accepts, q, events);
    OverGains(accepts, q, events);
  }

  /** In a run of calls without a failed flush, in batch mode, what waits is the newest part of what was published. */
  ghost predicate Newest(q: Queue) {
    && |q.waiting| == (if |q.since| < 256 then |q.since| else 256)
    && forall i :: 0 <= i < |q.waiting| ==> q.waiting[i] == q.since[|q.since| - 1 - i]
  }

  ghost predicate NoFailedFlush(accepts: nat -> bool, q: Queue, events: seq<Event>)
    decreases |events|
  {
    events == []
    || ((events[0].Flush? ==> Successes(accepts, q.tries, |q.waiting|) == |q.waiting|)
        && NoFailedFlush(accepts, Do(accepts, q, events[0]), events[1..]))
  }

  lemma PublishKeepsNewest(q: Queue, m: Pdu)
    requires Newest(q)
    ensures Newest(DoEnqueue(q.(next := q.next + 1, since := q.since + [m]), m))
  {
  }

  lemma {:induction false} RunKeepsNewest(accepts: nat -> bool, q: Queue, events: seq<Event>)
    requires Newest(q) && Batch(events) && NoFailedFlush(accepts, q, events)
    ensures Newest(Run(accepts, q, events))
    decreases |events|
  {
    if events != [] {
      match events[0] {
        case Flush => FlushEffect(accepts, q);
        case Publish(direct, body) => PublishKeepsNewest(q, Pdu(q.next, body));
      }
      RunKeepsNewest(accepts, Do(accepts, q, events[0]), events[1..]);
    }
  }

  // ---------------------------------------------------------------- the bound can be lost

  function Publishes(n: nat): (r: seq<Event>)
    ensures |r| == n && Batch(r)
  {
    if n == 0 then [] else [Publish(false, "")] + Publishes(n - 1)
  }

  lemma {:induction false} Fill(accepts: nat -> bool, q: Queue, n: nat)
    requires |q.waiting| + n <= 256
    ensures |Run(accepts, q, Publishes(n)).waiting| == |q.waiting| + n
    ensures Run(accepts, q, Publishes(n)).tries == q.tries
    decreases n
  {
    if n > 0 {
      assert Publishes(n)[1..] == Publishes(n - 1);
      Fill(accepts, DoPublish(accepts, q, false, ""), n - 1);
    }
  }

  lemma {:induction false} RunThen(accepts: nat -> bool, q: Queue, events: seq<Event>, e: Event)
    ensures Run(accepts, q, events + [e]) == Do(accepts, Run(accepts, q, events), e)
    decreases |events|
  {
    if events == [] {
      assert events + [e] == [e] && [e][1..] == [];
      assert Run(accepts, Do(accepts, q, e), []) == Do(accepts, q, e);
    } else {
      assert (events + [e])[1..] == events[1..] + [e];
      RunThen(accepts, Do(accepts, q, events[0]), events[1..], e);
    }
  }

  /** A full queue and one failed flush: 257 messages wait, one of them twice. */
  lemma BoundLost(accepts: nat -> bool)
    requires !accepts(0)
    ensures |Run(accepts, Empty, Publishes(256) + [Flush]).waiting| == 257
  {
    Fill(accepts, Empty, 256);
    RunThen(accepts, Empty, Publishes(256), Flush);
  }

  /** Out of batch mode a message that failed can be overtaken by the next one. */
  lemma Overtaken(accepts: nat -> bool)
    requires !accepts(0) && accepts(1) && accepts(2)
    ensures var q := Run(accepts, Empty, [Publish(true, "a"), Publish(true, "b"), Flush]);
      q.sent == [Pdu(1, "b"), Pdu(0, "a")]
  {
    var q1 := DoPublish(accepts, Empty, true, "a");
    var q2 := DoPublish(accepts, q1, true, "b");
    assert q2.waiting == [Pdu(0, "a")] && q2.sent == [Pdu(1, "b")] && q2.tries == 2;
    var q3 := DoFlush(accepts, q2);
    assert q3 == DoFlush(accepts, Moved(q2));
    var events := [Publish(true, "a"), Publish(true, "b"), Flush];
    assert events[1..] == [Publish(true, "b"), Flush] && events[1..][1..] == [Flush] && events[1..][1..][1..] == [];
    assert Run(accepts, q2, [Flush]) == Run(accepts, q3, []);
    assert Run(accepts, q1, events[1..]) == Run(accepts, q2, [Flush]);
  }

  // ---------------------------------------------------------------- the connection object

  class CobraConnection {
    var messageQueue: seq<Pdu>
    var id: nat
    var tries: nat
    ghost var sent: seq<Pdu>
    ghost var since: seq<Pdu>

    ghost function Value(): (q: Queue)
      reads this
    {
      Queue(messageQueue, id, tries, sent, since)
    }

    constructor ()
      ensures Value() == Empty
    {
      messageQueue, id, tries, sent, since := [], 0, 0, [], [];
    }

    method PublishMessage(accepts: nat -> bool, msg: Pdu) returns (success: bool)
      modifies this`tries, this`sent
      ensures success == accepts(old(tries)) && tries == old(tries) + 1
      ensures sent == if success then old(sent) + [msg] else old(sent)
    {
      success := accepts(tries);
      tries := tries + 1;
      if success { sent := sent + [msg]; }
    }

    method Enqueue(msg: Pdu)
      modifies this`messageQueue
      ensures Value() == DoEnqueue(old(Value()), msg)
    {
      if |messageQueue| == QUEUE_MAX {
        messageQueue := messageQueue[..|messageQueue| - 1];
      }
      messageQueue := [msg] + messageQueue;
    }

    method Publish(accepts: nat -> bool, batch: bool, authenticated: bool, body: string) returns (msgId: nat)
      modifies this
      ensures msgId == old(id)
      ensures Value() == DoPublish(accepts, old(Value()), !batch && authenticated, body)
    {
      msgId := id;
      var pdu := Pdu(id, body);
      id := id + 1;
      since := since + [pdu];
      var queued := batch || !authenticated;
      if !queued {
        var success := PublishMessage(accepts, pdu);
        queued := !success;
      }
      if queued { Enqueue(pdu); }
    }

    method FlushQueue(accepts: nat -> bool) returns (done: bool)
      modifies this
      ensures Value() == DoFlush(accepts, old(Value()))
      ensures done <==> Successes(accepts, old(tries), |old(messageQueue)|) == |old(messageQueue)|
    {
      while messageQueue != []
        invariant DoFlush(accepts, Value()) == DoFlush(accepts, old(Value()))
        invariant Successes(accepts, tries, |messageQueue|) == |messageQueue|
          <==> Successes(accepts, old(tries), |old(messageQueue)|) == |old(messageQueue)|
        decreases |messageQueue|
      {
        ghost var q := Value();
        var msg := messageQueue[|messageQueue| - 1];
        var success := PublishMessage(accepts, msg);
        if !success {
          messageQueue := messageQueue + [msg];
          assert Value() == PutBack(q);
          return false;
        }
        messageQueue := messageQueue[..|messageQueue| - 1];
        assert Value() == Moved(q);
      }
      since := [];
      return true;
    }
  }
}

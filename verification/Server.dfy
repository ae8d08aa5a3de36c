/**
 * The server's threads as a machine of atomic steps: the controlling thread that calls `start` and `stop`,
 * the accept thread, the collector thread and one handler thread per connection. A step is one read or
 * write of a shared flag, or one block under a mutex; the threads interleave freely.
 */
module Server {
  import opened Wrappers

  /** How far a connection's handler has come. */
  datatype Stage =
    | Starting      // before the client set is touched
    | Inserted      // in the client set, before the handshake takes back any cancellation request
    | Handshaking   // in the handshake, which fails once it sees a cancellation request
    | Answering     // past the handshake's last look at the request, not OPEN yet
    | Open          // the handshake has succeeded and the connection is being served
    | Leaving       // the handshake has failed or the connection has ended
    | Erased        // out of the client set again
    | Terminated    // the connection state says terminated
    | Finished      // the thread function has returned

  datatype Acceptor =
    | NoAcceptor            // no joinable thread
    | Looping               // at the head of the loop, about to read `_stop`
    | Polling               // waiting on the listening socket
    | Counting              // holds a new socket, about to count the clients
    | Rechecking            // about to read `_stop` again
    | Launching             // about to start a handler, under the list mutex
    | AcceptorDone

  datatype Collector =
    | NoCollector
    | Sweeping(at: nat)     // in `closeTerminatedThreads`, holding the list mutex
    | Flagging              // about to read `_stopGc`
    | Counting              // about to read the length of the list
    | CollectorDone

  /** Where the controlling thread is in `stop`. */
  datatype Control =
    | Outside
    | Snapshotting
    | Closing(rest: set<nat>)
    | JoiningAcceptor
    | BaseCollecting
    | JoiningCollector

  /**
   * `cancel` holds the connections whose cancellation request is set, `closing` those that were OPEN when they were
   * told to close and so have started to; `asked` and `joined` record the close calls and the joins made so far.
   */
  datatype State = State(
    maxConnections: nat,
    stop: bool,
    stopGc: bool,
    control: Control,
    acceptor: Acceptor,
    collector: Collector,
    stages: seq<Stage>,
    threads: seq<nat>,
    clients: set<nat>,
    cancel: set<nat>,
    closing: set<nat>,
    asked: set<nat>,
    joined: seq<nat>)

  datatype Step =
    | Start
    | Stop
    | Snapshot
    | AskToClose(client: nat)
    | StopAcceptor
    | JoinAcceptor
    | StopCollector
    | JoinCollector
    | ReadStop
    | Poll(accepted: bool)
    | CountClients
    | RereadStop
    | Launch
    | Handle(id: nat, ok: bool)
    | Sweep
    | ReadStopGc
    | CountThreads

  function Initial(maxConnections: nat): (s: State) {
    State(maxConnections, false, false, Outside, NoAcceptor, NoCollector, [], [], {}, {}, {}, {}, [])
  }

  // ---------------------------------------------------------------- the controlling thread

  function DoStart(s: State): (r: Option<State>) {
    if s.control != Outside then None
    else Some(s.(acceptor := if s.acceptor.NoAcceptor? then Looping else s.acceptor,
                 collector := if s.collector.NoCollector? then Sweeping(0) else s.collector))
  }

  predicate IsOpen(s: State, id: nat) { id < |s.stages| && s.stages[id] == Open }

  /** close on a transport: it sets the cancellation request, and if the connection is OPEN starts to close it. */
  function Ask(s: State, c: nat): (t: State) {
    s.(asked := s.asked + {c}, cancel := s.cancel + {c},
       closing := if IsOpen(s, c) then s.closing + {c} else s.closing)
  }

  function DoControl(s: State, step: Step): (r: Option<State>)
    requires step.Stop? || step.Snapshot? || step.AskToClose? || step.StopAcceptor? || step.JoinAcceptor?
          || step.StopCollector? || step.JoinCollector?
  {
    match step
    case Stop =>
      if s.control != Outside then None else Some(s.(stop := true, control := Snapshotting))
    case Snapshot =>
      if s.control != Snapshotting then None else Some(s.(control := Closing(s.clients)))
    case AskToClose(c) =>
      if !s.control.Closing? || c !in s.control.rest then None
      else Some(Ask(s, c).(control := Closing(s.control.rest - {c})))
    case StopAcceptor =>
      if s.control != Closing({}) then None
      else if s.acceptor.NoAcceptor? then Some(s.(control := BaseCollecting))
      else Some(s.(stop := true, control := JoiningAcceptor))
    case JoinAcceptor =>
      if s.control != JoiningAcceptor || !s.acceptor.AcceptorDone? then None
      else Some(s.(acceptor := NoAcceptor, stop := false, control := BaseCollecting))
    case StopCollector =>
      if s.control != BaseCollecting then None
      else if s.collector.NoCollector? then Some(s.(control := Outside))
      else Some(s.(stopGc := true, control := JoiningCollector))
    case JoinCollector =>
      if s.control != JoiningCollector || !s.collector.CollectorDone? then None
      else Some(s.(collector := NoCollector, stopGc := false, control := Outside))
  }

  // ---------------------------------------------------------------- the accept thread

  function DoAccept(s: State, step: Step): (r: Option<State>)
    requires step.ReadStop? || step.Poll? || step.CountClients? || step.RereadStop? || step.Launch?
  {
    match step
    case ReadStop =>
      if !s.acceptor.Looping? then None
      else Some(s.(acceptor := if s.stop then AcceptorDone else Polling))
    case Poll(accepted) =>
      if !s.acceptor.Polling? then None
      else Some(s.(acceptor := if accepted then Acceptor.Counting else Looping))
    case CountClients =>
      if s.acceptor != Acceptor.Counting then None
      else Some(s.(acceptor := if |s.clients| >= s.maxConnections then Looping else Rechecking))
    case RereadStop =>
      if !s.acceptor.Rechecking? then None
      else Some(s.(acceptor := if s.stop then AcceptorDone else Launching))
    case Launch =>
      if !s.acceptor.Launching? || s.collector.Sweeping? then None
      else Some(s.(acceptor := Looping, stages := s.stages + [Starting], threads := s.threads + [|s.stages|]))
  }

  // ---------------------------------------------------------------- a handler thread

  function Moved(s: State, id: nat, to: Stage): (t: State)
    requires id < |s.stages|
  {
    s.(stages := s.stages[id := to])
  }

  /** `ok` tells whether the peer lets the handshake succeed. A connection that is OPEN may end at any time. */
  function DoHandle(s: State, id: nat, ok: bool): (r: Option<State>) {
    if id >= |s.stages| then None
    else match s.stages[id]
      case Starting => Some(Moved(s, id, Inserted).(clients := s.clients + {id}))
      case Inserted => Some(Moved(s, id, Handshaking).(cancel := s.cancel - {id}))
      case Handshaking => Some(Moved(s, id, if ok && id !in s.cancel then Answering else Leaving))
      case Answering => Some(Moved(s, id, if ok then Open else Leaving))
      case Open => Some(Moved(s, id, Leaving))
      case Leaving => Some(Moved(s, id, Erased).(clients := s.clients - {id}))
      case Erased => Some(Moved(s, id, Terminated))
      case Terminated => Some(Moved(s, id, Finished))
      case Finished => None
  }

  // ---------------------------------------------------------------- the collector thread

  predicate IsTerminated(s: State, id: nat) {
    id < |s.stages| && (s.stages[id].Terminated? || s.stages[id].Finished?)
  }

  /** One turn of the sweep. Joining a thread waits until its function has returned. */
  function DoSweep(s: State): (r: Option<State>) {
    if !s.collector.Sweeping? then None
    else
      var at := s.collector.at;
      if at >= |s.threads| then Some(s.(collector := Flagging))
      else
        var id := s.threads[at];
        if !IsTerminated(s, id) then Some(s.(collector := Sweeping(at + 1)))
        else if !s.stages[id].Finished? then None
        else Some(s.(threads := s.threads[..at] + s.threads[at + 1..], joined := s.joined + [id]))
  }

  function DoCollect(s: State, step: Step): (r: Option<State>)
    requires step.Sweep? || step.ReadStopGc? || step.CountThreads?
  {
    match step
    case Sweep => DoSweep(s)
    case ReadStopGc =>
      if !s.collector.Flagging? then None
      else Some(s.(collector := if s.stopGc then Collector.Counting else Sweeping(0)))
    case CountThreads =>
      if s.collector != Collector.Counting then None
      else Some(s.(collector := if |s.threads| == 0 then CollectorDone else Sweeping(0)))
  }

  /** A step of any thread, when that thread is ready for it. */
  function Next(s: State, step: Step): (r: Option<State>) {
    match step
    case Start => DoStart(s)
    case Stop | Snapshot | AskToClose(_) | StopAcceptor | JoinAcceptor | StopCollector | JoinCollector =>
      DoControl(s, step)
    case ReadStop | Poll(_) | CountClients | RereadStop | Launch => DoAccept(s, step)
    case Handle(id, ok) => DoHandle(s, id, ok)
    case Sweep | ReadStopGc | CountThreads => DoCollect(s, step)
  }

  /** The state after a schedule, or nothing if a step was not ready. */
  function Run(s: State, steps: seq<Step>): (r: Option<State>)
    decreases |steps|
  {
    if steps == [] then Some(s)
    else match Next(s, steps[0])
      case None => None
      case Some(t) => Run(t, steps[1..])
  }

  ghost predicate Reachable(s: State) {
    exists max: nat, steps: seq<Step> :: Run(Initial(max), steps) == Some(s)
  }

  // ---------------------------------------------------------------- the invariant

  ghost predicate Distinct(l: seq<nat>) {
    forall i, j :: 0 <= i < j < |l| ==> l[i] != l[j]
  }

  /** Every connection launched is in the list or joined, and in one of them exactly once. */
  ghost predicate Accounted(s: State) {
    && (forall id :: id in s.threads || id in s.joined <==> 0 <= id < |s.stages|)
    && Distinct(s.threads) && Distinct(s.joined)
    && (forall id :: id in s.threads ==> id !in s.joined)
  }

  predicate InSet(stage: Stage) {
    stage.Inserted? || stage.Handshaking? || stage.Answering? || stage.Open? || stage.Leaving?
  }

  /** The client set is the set of connections being served; what was joined had finished. */
  ghost predicate Served(s: State) {
    && (forall id :: id in s.clients <==> 0 <= id < |s.stages| && InSet(s.stages[id]))
    && (forall id :: id in s.joined ==> 0 <= id < |s.stages| && s.stages[id] == Finished)
  }

  /** What the phase of `stop` says about the flags and the threads. */
  ghost predicate Phased(s: State) {
    && (s.stopGc <==> s.control.JoiningCollector?)
    && (s.control.BaseCollecting? || s.control.JoiningCollector? ==> s.acceptor.NoAcceptor?)
    && (s.control.JoiningCollector? ==> !s.collector.NoCollector?)
    && (s.control.JoiningAcceptor? ==> !s.acceptor.NoAcceptor?)
    && (s.control.Snapshotting? || s.control.Closing? || s.control.JoiningAcceptor? ==> s.stop)
    && (s.collector == Collector.Counting || s.collector.CollectorDone? ==> s.control.JoiningCollector?)
    && (s.collector.NoCollector? ==> s.acceptor.NoAcceptor?)
    && (s.control.Outside? || s.control.Snapshotting? || s.control.Closing? ==>
          (s.collector.NoCollector? <==> s.acceptor.NoAcceptor?))
    && (s.control.BaseCollecting? ==> (s.stop <==> s.collector.NoCollector?))
    && (s.control.JoiningCollector? ==> !s.stop)
    && (s.collector.NoCollector? || s.collector.CollectorDone? ==> s.threads == [])
    && (s.collector.Sweeping? ==> s.collector.at <= |s.threads|)
  }

  ghost predicate Inv(s: State) {
    Accounted(s) && Served(s) && Phased(s)
  }

  lemma LaunchKeeps(s: State)
    requires Inv(s) && DoAccept(s, Launch).Some?
    ensures Inv(DoAccept(s, Launch).value)
  {
    var t := DoAccept(s, Launch).value;
    forall id ensures id in t.threads || id in t.joined <==> 0 <= id < |t.stages| {
      assert id in t.threads <==> id in s.threads || id == |s.stages|;
    }
    assert forall id :: 0 <= id < |s.stages| ==> t.stages[id] == s.stages[id];
    assert |s.stages| !in s.threads && |s.stages| !in s.joined;
  }

  /** Taking one element out of a list without repetitions. */
  lemma Without(l: seq<nat>, at: nat)
    requires at < |l| && Distinct(l)
    ensures var m := l[..at] + l[at + 1..];
      Distinct(m) && forall x :: x in m <==> x in l && x != l[at]
  {
    var m := l[..at] + l[at + 1..];
    forall x ensures x in m <==> x in l && x != l[at] {
      if x in l && x != l[at] {
        var k :| 0 <= k < |l| && l[k] == x;
        assert m[if k < at then k else k - 1] == x;
      }
      if x in m {
        var k :| 0 <= k < |m| && m[k] == x;
        assert x == l[if k < at then k else k + 1];
      }
    }
  }

  lemma SweepKeeps(s: State)
    requires Inv(s) && DoSweep(s).Some?
    ensures Inv(DoSweep(s).value)
  {
    var t := DoSweep(s).value;
    if t.joined != s.joined {
      var id := s.threads[s.collector.at];
      assert id in s.threads && id !in s.joined;
      Without(s.threads, s.collector.at);
      JoinedMore(s.joined, id);
      hide Distinct;
      assert Accounted(t);
    }
  }

  lemma JoinedMore(l: seq<nat>, x: nat)
    requires Distinct(l) && x !in l
    ensures Distinct(l + [x]) && forall y :: y in l + [x] <==> y in l || y == x
  {
  }

  lemma HandleStage(s: State, id: nat, ok: bool)
    requires DoHandle(s, id, ok).Some?
    ensures var t := DoHandle(s, id, ok).value;
      && id < |s.stages| && |t.stages| == |s.stages| && t.stages == s.stages[id := t.stages[id]]
      && t == s.(stages := t.stages, clients := t.clients, cancel := t.cancel)
      && StageRank(t.stages[id]) < StageRank(s.stages[id])
  {
  }

  lemma HandleCancel(s: State, id: nat, ok: bool)
    requires DoHandle(s, id, ok).Some?
    ensures var t := DoHandle(s, id, ok).value;
      t.cancel <= s.cancel && (forall k :: k in s.cancel && k != id ==> k in t.cancel)
  {
  }

  /** A handler's step touches its own stage, membership in the client set and cancellation request, nothing else. */
  lemma HandleFrame(s: State, id: nat, ok: bool)
    requires DoHandle(s, id, ok).Some?
    ensures var t := DoHandle(s, id, ok).value;
      && id < |s.stages| && |t.stages| == |s.stages| && t.stages == s.stages[id := t.stages[id]]
      && t == s.(stages := t.stages, clients := t.clients, cancel := t.cancel)
      && (forall k :: 0 <= k < |s.stages| && k != id ==> t.stages[k] == s.stages[k])
      && StageRank(t.stages[id]) < StageRank(s.stages[id])
      && t.cancel <= s.cancel && (forall k :: k in s.cancel && k != id ==> k in t.cancel)
  {
    HandleStage(s, id, ok);
    HandleCancel(s, id, ok);
    hide DoHandle, StageRank;
  }

  /** How a handler's step changes who is in the client set. */
  lemma HandleMembers(s: State, id: nat, ok: bool)
    requires id < |s.stages| && DoHandle(s, id, ok).Some? && (id in s.clients <==> InSet(s.stages[id]))
    ensures var t := DoHandle(s, id, ok).value;
      && t.stages == s.stages[id := t.stages[id]] && t.joined == s.joined && s.stages[id] != Finished
      && (forall k :: k in t.clients <==> if k == id then InSet(t.stages[id]) else k in s.clients)
  {
  }

  lemma HandleServed(s: State, id: nat, ok: bool)
    requires Served(s) && DoHandle(s, id, ok).Some?
    ensures Served(DoHandle(s, id, ok).value)
  {
    HandleFrame(s, id, ok);
    hide DoHandle, InSet;
    HandleMembers(s, id, ok);
  }

  lemma HandleKeeps(s: State, id: nat, ok: bool)
    requires Inv(s) && DoHandle(s, id, ok).Some?
    ensures Inv(DoHandle(s, id, ok).value)
  {
    hide DoHandle, Served;
    HandleFrame(s, id, ok);
    HandleServed(s, id, ok);
  }

  lemma ControlKeeps(s: State, step: Step)
    requires step.Stop? || step.Snapshot? || step.AskToClose? || step.StopAcceptor? || step.JoinAcceptor?
          || step.StopCollector? || step.JoinCollector?
    requires Inv(s) && DoControl(s, step).Some?
    ensures Inv(DoControl(s, step).value)
  {
  }

  lemma StepKeepsInv(s: State, step: Step)
    requires Inv(s) && Next(s, step).Some?
    ensures Inv(Next(s, step).value)
  {
    match step
    case Start =>
    case Stop | Snapshot | AskToClose(_) | StopAcceptor | JoinAcceptor | StopCollector | JoinCollector =>
      ControlKeeps(s, step);
    case Launch => LaunchKeeps(s);
    case Handle(id, ok) => HandleKeeps(s, id, ok);
    case Sweep => SweepKeeps(s);
    case ReadStop | Poll(_) | CountClients | RereadStop =>
    case ReadStopGc | CountThreads =>
  }

  lemma {:induction false} RunKeepsInv(s: State, steps: seq<Step>)
    requires Inv(s) && Run(s, steps).Some?
    ensures Inv(Run(s, steps).value)
    decreases |steps|
  {
    if steps != [] {
      StepKeepsInv(s, steps[0]);
      RunKeepsInv(Next(s, steps[0]).value, steps[1..]);
    }
  }

  lemma ReachableInv(s: State)
    requires Reachable(s)
    ensures Inv(s)
  {
    var max: nat, steps: seq<Step> :| Run(Initial(max), steps) == Some(s);
    RunKeepsInv(Initial(max), steps);
  }

  // ---------------------------------------------------------------- what every run keeps

  /**
   * Only a terminated connection's thread, one whose function has returned, is ever joined; the same step takes it
   * out of the list, and it was not joined before.
   */
  lemma JoinsOnlyFinished(s: State, step: Step, t: State)
    requires Reachable(s) && Next(s, step) == Some(t)
    ensures s.joined <= t.joined && |t.joined| <= |s.joined| + 1
    ensures t.joined != s.joined ==>
      var id := t.joined[|s.joined|];
      && id in s.threads && id !in t.threads && id !in s.joined
      && IsTerminated(s, id) && s.stages[id] == Finished
    ensures forall id :: id in s.threads && id !in t.threads ==> t.joined == s.joined + [id]
  {
    ReachableInv(s);
    if !step.Sweep? {
      OthersKeepTheList(s, step);
    } else if t.joined != s.joined {
      Without(s.threads, s.collector.at);
    }
  }

  lemma OthersKeepTheList(s: State, step: Step)
    requires Next(s, step).Some? && !step.Sweep?
    ensures Next(s, step).value.joined == s.joined && s.threads <= Next(s, step).value.threads
  {
    if step.Handle? { HandleFrame(s, step.id, step.ok); }
  }

  /** Removing a client from the client set always finds it there. */
  lemma EraseFindsClient(s: State, id: nat)
    requires Reachable(s) && id < |s.stages| && s.stages[id] == Leaving
    ensures id in s.clients
  {
    ReachableInv(s);
  }

  ghost predicate StopReturns(s: State, step: Step, t: State) {
    Next(s, step) == Some(t) && s.control != Outside && t.control == Outside
  }

  /** No connection is left: none listed, none in the client set, each one ever launched joined exactly once. */
  ghost predicate AllGone(s: State) {
    && s.threads == [] && s.clients == {}
    && (forall id :: 0 <= id < |s.stages| ==> s.stages[id] == Finished && id in s.joined)
    && Distinct(s.joined)
  }

  lemma NoThreadsNoClients(s: State)
    requires Inv(s) && s.threads == []
    ensures AllGone(s)
  {
    forall id | 0 <= id < |s.stages| ensures s.stages[id] == Finished && id in s.joined {
      assert id in s.threads || id in s.joined;
    }
    if s.clients != {} {
      var id :| id in s.clients;
      assert false;
    }
  }

  /** When `stop` returns, no handler is left, and both background threads are gone. */
  lemma ShutdownIsClean(s: State, step: Step, t: State)
    requires Reachable(s) && StopReturns(s, step, t)
    ensures AllGone(t) && t.acceptor == NoAcceptor && t.collector == NoCollector && !t.stopGc
  {
    ReachableInv(s);
    StepKeepsInv(s, step);
    NoThreadsNoClients(t);
  }

  /** A server that is not started has no handlers either. */
  lemma IdleIsEmpty(s: State)
    requires Reachable(s) && s.collector == NoCollector
    ensures AllGone(s) && s.acceptor == NoAcceptor
  {
    ReachableInv(s);
    NoThreadsNoClients(s);
  }

  // ---------------------------------------------------------------- stop can always return

  function AcceptorRank(a: Acceptor): (n: nat) {
    match a
    case NoAcceptor | AcceptorDone => 0
    case Looping => 1
    case Polling | Rechecking => 2
    case Counting => 3
    case Launching => 4
  }

  function ControlRank(c: Control): (n: nat) {
    match c
    case Outside => 0
    case JoiningCollector => 1
    case BaseCollecting => 2
    case JoiningAcceptor => 3
    case Closing(rest) => 4 + |rest|
    case Snapshotting => 5
  }

  /** How many steps a handler has still to take, at most. */
  function StageRank(stage: Stage): (n: nat) {
    match stage
    case Starting => 8 case Inserted => 7 case Handshaking => 6 case Answering => 5 case Open => 4
    case Leaving => 3 case Erased => 2 case Terminated => 1 case Finished => 0
  }

  function StepsLeft(stages: seq<Stage>): (n: nat) {
    if stages == [] then 0 else StepsLeft(stages[..|stages| - 1]) + StageRank(stages[|stages| - 1])
  }

  function CollectorRank(s: State): (n: nat) {
    match s.collector
    case NoCollector | CollectorDone => 0
    case Sweeping(at) => if at < |s.threads| then 1 else 4
    case Flagging => 3
    case Counting => 2
  }

  lemma {:induction false} StepsLeftDrops(stages: seq<Stage>, id: nat, to: Stage)
    requires id < |stages|
    requires StageRank(to) < StageRank(stages[id])
    ensures StepsLeft(stages[id := to]) < StepsLeft(stages)
  {
    var n := |stages| - 1;
    assert stages[id := to][..n] == if id < n then stages[..n][id := to] else stages[..n];
    if id < n { StepsLeftDrops(stages[..n], id, to); }
  }

  ghost predicate AllFinished(s: State) {
    forall id :: 0 <= id < |s.stages| ==> s.stages[id] == Finished
  }

  /** A later state on the way out of `stop`. */
  ghost predicate Nearer(t: State, s: State) {
    var (a, b) := (AcceptorRank(s.acceptor), AcceptorRank(t.acceptor));
    var (c, d) := (ControlRank(s.control), ControlRank(t.control));
    var (m, n) := (StepsLeft(s.stages), StepsLeft(t.stages));
    || b < a
    || (b == a && d < c)
    || (b == a && d == c && n < m)
    || (b == a && d == c && n == m && |t.threads| < |s.threads|)
    || (b == a && d == c && n == m && |t.threads| == |s.threads| && CollectorRank(t) < CollectorRank(s))
  }

  /** A handler that has not finished can always take its next step. */
  lemma HandlerAdvances(s: State) returns (step: Step)
    requires !AllFinished(s)
    ensures Next(s, step).Some? && Nearer(Next(s, step).value, s)
  {
    var id :| 0 <= id < |s.stages| && s.stages[id] != Finished;
    step := Handle(id, false);
    HandleFrame(s, id, false);
    StepsLeftDrops(s.stages, id, DoHandle(s, id, false).value.stages[id]);
  }

  /** With every handler finished, a sweep under way never waits. */
  lemma SweepAdvances(s: State)
    requires Inv(s) && AllFinished(s) && s.collector.Sweeping?
    ensures Next(s, Sweep).Some? && Nearer(Next(s, Sweep).value, s)
  {
    var at := s.collector.at;
    if at < |s.threads| {
      var id := s.threads[at];
      assert id in s.threads;
      assert s.stages[id] == Finished;
    }
  }

  lemma AcceptorAdvances(s: State) returns (step: Step)
    requires Inv(s) && AllFinished(s) && s.stop && AcceptorRank(s.acceptor) > 0
    ensures Next(s, step).Some? && Nearer(Next(s, step).value, s)
  {
    if s.acceptor.Launching? && s.collector.Sweeping? {
      SweepAdvances(s);
      return Sweep;
    }
    match s.acceptor
    case Looping => step := ReadStop;
    case Polling => step := Poll(false);
    case Counting => step := CountClients;
    case Rechecking => step := RereadStop;
    case Launching => step := Launch;
  }

  lemma CollectorAdvances(s: State) returns (step: Step)
    requires Inv(s) && AllFinished(s) && s.control.JoiningCollector?
    ensures Next(s, step).Some? && Nearer(Next(s, step).value, s)
  {
    match s.collector
    case Sweeping(_) =>
      SweepAdvances(s);
      step := Sweep;
    case Flagging => step := ReadStopGc;
    case Counting => step := CountThreads;
    case CollectorDone => step := JoinCollector;
  }

  lemma ControlAdvances(s: State) returns (step: Step)
    requires Inv(s) && AllFinished(s) && AcceptorRank(s.acceptor) == 0
    requires s.control != Outside && !s.control.JoiningCollector?
    ensures Next(s, step).Some? && Nearer(Next(s, step).value, s)
  {
    hide StepsLeft, CollectorRank, Accounted;
    match s.control
    case Snapshotting =>
      assert s.clients == {};
      hide Served;
      step := Snapshot;
    case Closing(rest) =>
      hide Served;
      if rest == {} {
        step := StopAcceptor;
      } else {
        var c :| c in rest;
        assert |rest - {c}| == |rest| - 1;
        step := AskToClose(c);
      }
    case JoiningAcceptor => step := JoinAcceptor;
    case BaseCollecting => step := StopCollector;
  }

  /** In every state inside `stop` some thread can take a step that brings it nearer to returning. */
  lemma NeverStuck(s: State) returns (step: Step)
    requires Inv(s) && s.control != Outside
    ensures Next(s, step).Some? && Nearer(Next(s, step).value, s)
  {
    if !AllFinished(s) {
      step := HandlerAdvances(s);
    } else if AcceptorRank(s.acceptor) > 0 {
      step := AcceptorAdvances(s);
    } else if s.control.JoiningCollector? {
      step := CollectorAdvances(s);
    } else {
      step := ControlAdvances(s);
    }
  }

  lemma {:induction false} ReturnsFrom(s: State) returns (steps: seq<Step>)
    requires Inv(s)
    ensures Run(s, steps).Some? && Run(s, steps).value.control == Outside
    decreases AcceptorRank(s.acceptor), ControlRank(s.control), StepsLeft(s.stages), |s.threads|, CollectorRank(s)
  {
    if s.control == Outside { return []; }
    var step := NeverStuck(s);
    StepKeepsInv(s, step);
    var rest := ReturnsFrom(Next(s, step).value);
    steps := [step] + rest;
    assert steps[1..] == rest;
  }

  /** The threads cannot block one another for good: from every reachable state inside `stop` it can still return. */
  lemma StopCanReturn(s: State) returns (steps: seq<Step>)
    requires Reachable(s)
    ensures Run(s, steps).Some? && Run(s, steps).value.control == Outside
  {
    ReachableInv(s);
    steps := ReturnsFrom(s);
  }

  // ---------------------------------------------------------------- two corners of stop

  /** A schedule that stays inside one call of `stop` leads from one state to another. */
  ghost predicate Path(s: State, steps: seq<Step>, t: State)
    decreases |steps|
  {
    && s.control != Outside
    && (if steps == [] then s == t
        else Next(s, steps[0]).Some? && Path(Next(s, steps[0]).value, steps[1..], t))
  }

  ghost predicate Leads(s: State, t: State) {
    exists steps: seq<Step> :: Path(s, steps, t)
  }

  lemma StopFlagAtReturn(s: State, step: Step, t: State)
    requires Inv(s) && StopReturns(s, step, t)
    ensures t.stop <==> s.collector == NoCollector
  {
  }

  lemma {:induction false} PathKeeps(s: State, steps: seq<Step>, t: State)
    requires Inv(s) && Path(s, steps, t)
    ensures Inv(t) && t.control != Outside && (t.collector == NoCollector <==> s.collector == NoCollector)
    decreases |steps|
  {
    hide Inv;
    if steps != [] {
      StepKeepsInv(s, steps[0]);
      CollectorStays(s, steps[0]);
      PathKeeps(Next(s, steps[0]).value, steps[1..], t);
    }
  }

  lemma CollectorStays(s: State, step: Step)
    requires s.control != Outside && Next(s, step).Some? && Next(s, step).value.control != Outside
    ensures Next(s, step).value.collector == NoCollector <==> s.collector == NoCollector
  {
    if step.Handle? { HandleFrame(s, step.id, step.ok); }
  }

  /**
    * A whole call of `stop`, from the state `s` in which it is made to the state `r` in which it returns: it leaves
    * `_stop` set exactly when the server was not started.
    */
  lemma StopFlagLeft(s: State, steps: seq<Step>, t: State, step: Step, r: State)
    requires Reachable(s) && Next(s, Stop).Some? && Path(Next(s, Stop).value, steps, t) && StopReturns(t, step, r)
    ensures r.stop <==> s.collector == NoCollector
  {
    ReachableInv(s);
    StepKeepsInv(s, Stop);
    PathKeeps(Next(s, Stop).value, steps, t);
    StopFlagAtReturn(t, step, r);
  }

  /** The flag is set and the accept thread, if any, is not past its first check. */
  ghost predicate Deaf(s: State) {
    s.stop && (s.acceptor.NoAcceptor? || s.acceptor.Looping? || s.acceptor.AcceptorDone?)
  }

  /** With the flag left set, starting the server again serves nobody until the accept thread has been joined once. */
  lemma {:induction false} DeafUntilJoined(s: State, steps: seq<Step>)
    requires Deaf(s) && Run(s, steps).Some? && JoinAcceptor !in steps
    ensures Deaf(Run(s, steps).value) && |Run(s, steps).value.stages| == |s.stages|
    decreases |steps|
  {
    if steps != [] {
      var t := Next(s, steps[0]).value;
      assert Deaf(t) && |t.stages| == |s.stages| by { DeafStep(s, steps[0]); }
      DeafUntilJoined(t, steps[1..]);
    }
  }

  lemma DeafStep(s: State, step: Step)
    requires Deaf(s) && Next(s, step).Some? && step != JoinAcceptor
    ensures Deaf(Next(s, step).value) && |Next(s, step).value.stages| == |s.stages|
  {
    if step.Handle? { HandleFrame(s, step.id, step.ok); }
  }

  /** Every client of a set was asked to close, or is next in line for it. */
  ghost predicate Covered(clients: set<nat>, s: State) {
    forall c :: c in clients ==> c in s.asked || (s.control.Closing? && c in s.control.rest)
  }

  lemma {:induction false} CoveredStays(clients: set<nat>, s: State, steps: seq<Step>)
    requires Covered(clients, s) && Run(s, steps).Some?
    ensures Covered(clients, Run(s, steps).value)
    decreases |steps|
  {
    if steps != [] {
      CoveredStep(clients, s, steps[0]);
      CoveredStays(clients, Next(s, steps[0]).value, steps[1..]);
    }
  }

  lemma CoveredStep(clients: set<nat>, s: State, step: Step)
    requires Covered(clients, s) && Next(s, step).Some?
    ensures Covered(clients, Next(s, step).value)
  {
    if step.Handle? { HandleFrame(s, step.id, step.ok); }
  }

  /** `stop` asks every client that is in the set when it takes its snapshot before it waits for any thread. */
  lemma StopAsksItsSnapshot(s: State, t: State, steps: seq<Step>)
    requires s.control.Snapshotting? && Run(s, [Snapshot] + steps) == Some(t) && !t.control.Closing?
    ensures s.clients <= t.asked
  {
    var u := Next(s, Snapshot).value;
    assert ([Snapshot] + steps)[1..] == steps;
    CoveredStays(s.clients, u, steps);
  }

  // ---------------------------------------------------------------- connections that stop does not ask

  /** `stop` has asked all it will ask and waits, and a connection that was never asked is being served. */
  ghost predicate Missed(s: State) {
    (s.control.JoiningAcceptor? || s.control.JoiningCollector?) && exists id :: id in s.clients && id !in s.asked
  }

  /** No connection can enter the client set any more, and those in it have been asked or are in line. */
  ghost predicate Settled(s: State) {
    && s.control != Outside
    && (s.stop || s.acceptor.NoAcceptor?) && !s.acceptor.Launching?
    && Starting !in s.stages
    && (!s.control.Snapshotting? ==> Covered(s.clients, s))
  }

  lemma StepSettles(s: State, step: Step)
    requires Inv(s) && Settled(s) && Next(s, step).Some? && Next(s, step).value.control != Outside
    ensures Settled(Next(s, step).value)
  {
    if step.Handle? {
      var id := step.id;
      HandleFrame(s, id, step.ok);
      var t := Next(s, step).value;
      assert s.stages[id] in s.stages;
      assert t.clients <= s.clients;
      assert Starting !in t.stages;
    }
  }

  lemma {:induction false} PathSettles(s: State, steps: seq<Step>, t: State)
    requires Inv(s) && Settled(s) && Path(s, steps, t)
    ensures Settled(t)
    decreases |steps|
  {
    hide Inv, Settled;
    if steps != [] {
      StepKeepsInv(s, steps[0]);
      PathInside(Next(s, steps[0]).value, steps[1..], t);
      StepSettles(s, steps[0]);
      PathSettles(Next(s, steps[0]).value, steps[1..], t);
    }
  }

  lemma PathInside(s: State, steps: seq<Step>, t: State)
    requires Path(s, steps, t)
    ensures s.control != Outside
  {
  }

  lemma OneStep(s: State, step: Step, t: State)
    requires s.control != Outside && t.control != Outside && Next(s, step) == Some(t)
    ensures Leads(s, t)
  {
    assert Path(t, [step][1..], t);
    assert Path(s, [step], t);
  }

  lemma {:induction false} PathJoins(s: State, a: seq<Step>, t: State, b: seq<Step>, u: State)
    requires Path(s, a, t) && Path(t, b, u)
    ensures Path(s, a + b, u)
    decreases |a|
  {
    hide Next;
    if a == [] {
      assert a + b == b;
    } else {
      assert (a + b)[1..] == a[1..] + b;
      PathJoins(Next(s, a[0]).value, a[1..], t, b, u);
    }
  }

  lemma LeadsOn(s: State, t: State, u: State)
    requires Leads(s, t) && Leads(t, u)
    ensures Leads(s, u)
  {
    var a :| Path(s, a, t);
    var b :| Path(t, b, u);
    PathJoins(s, a, t, b, u);
  }

  /** The state after every client of a set has been asked. */
  function AllAsked(s: State, rest: set<nat>): (t: State) {
    s.(asked := s.asked + rest, cancel := s.cancel + rest, closing := s.closing + set c | c in rest && IsOpen(s, c))
  }

  lemma AskThenAll(s: State, c: nat, rest: set<nat>)
    requires c in rest
    ensures AllAsked(Ask(s, c), rest - {c}) == AllAsked(s, rest)
  {
    var t := Ask(s, c);
    assert t.asked + (rest - {c}) == s.asked + rest;
    assert t.cancel + (rest - {c}) == s.cancel + rest;
    assert t.closing + (set d | d in rest - {c} && IsOpen(t, d)) == s.closing + set d | d in rest && IsOpen(s, d);
  }

  /** The rest of the snapshot is asked, one client after the other. */
  lemma {:induction false} AsksTheRest(s: State)
    requires s.control.Closing?
    ensures Leads(s, AllAsked(s, s.control.rest).(control := Closing({})))
    decreases s.control.rest
  {
    hide AllAsked, Ask;
    var rest := s.control.rest;
    if rest == {} {
      NoneAsked(s);
      assert Path(s, [], s);
    } else {
      var c :| c in rest;
      var t := Ask(s, c).(control := Closing(rest - {c}));
      OneStep(s, AskToClose(c), t);
      AsksTheRest(t);
      AskThenAll(s, c, rest);
      ControlAside(Ask(s, c), rest - {c}, t.control);
      LeadsOn(s, t, AllAsked(s, rest).(control := Closing({})));
    }
  }

  lemma NoneAsked(s: State)
    ensures AllAsked(s, {}) == s
  {
    assert (set c | c in {} && IsOpen(s, c)) == {};
  }

  lemma ControlAside(s: State, rest: set<nat>, control: Control)
    ensures AllAsked(s.(control := control), rest) == AllAsked(s, rest).(control := control)
  {
    assert (set c | c in rest && IsOpen(s.(control := control), c)) == (set c | c in rest && IsOpen(s, c));
  }

  /** Not OPEN yet. */
  predicate Early(stage: Stage) { stage.Starting? || stage.Inserted? || stage.Handshaking? || stage.Answering? }

  /**
   * Asked clients have been served and those closing have been OPEN; before the snapshot of a call of `stop` nobody
   * that is still there has been asked.
   */
  ghost predicate AskedOk(s: State) {
    && (forall c :: c in s.asked ==> c < |s.stages| && s.stages[c] != Starting)
    && (forall c :: c in s.closing ==> c < |s.stages| && !Early(s.stages[c]))
    && (forall c :: c in s.cancel ==> c < |s.stages| && s.stages[c] != Starting)
    && (s.control.Closing? ==> forall c :: c in s.control.rest ==> c < |s.stages| && s.stages[c] != Starting)
    && (s.control.Outside? || s.control.Snapshotting? ==> forall c :: c in s.cancel ==> s.stages[c] == Finished)
  }

  lemma HandleKeepsAsked(s: State, id: nat, ok: bool)
    requires AskedOk(s) && DoHandle(s, id, ok).Some?
    ensures AskedOk(DoHandle(s, id, ok).value)
  {
    hide DoHandle;
    HandleFrame(s, id, ok);
    var t := DoHandle(s, id, ok).value;
    assert forall k :: 0 <= k < |s.stages| && Early(t.stages[k]) ==> Early(s.stages[k]);
  }

  /** `stop` returns only when every connection has finished. */
  lemma ReturnKeepsAsked(s: State, step: Step)
    requires Inv(s) && AskedOk(s) && (step.StopCollector? || step.JoinCollector?) && Next(s, step).Some?
    ensures AskedOk(Next(s, step).value)
  {
    if s.threads == [] { NoThreadsNoClients(s); }
  }

  lemma ControlKeepsAsked(s: State, step: Step)
    requires Served(s) && AskedOk(s) && Next(s, step).Some?
    requires step.Stop? || step.Snapshot? || step.AskToClose? || step.StopAcceptor? || step.JoinAcceptor?
    ensures AskedOk(Next(s, step).value)
  {
  }

  lemma StepKeepsAsked(s: State, step: Step)
    requires Inv(s) && AskedOk(s) && Next(s, step).Some?
    ensures AskedOk(Next(s, step).value)
  {
    if step.Handle? {
      HandleKeepsAsked(s, step.id, step.ok);
    } else if step.StopCollector? || step.JoinCollector? {
      ReturnKeepsAsked(s, step);
    } else if step.Stop? || step.Snapshot? || step.AskToClose? || step.StopAcceptor? || step.JoinAcceptor? {
      ControlKeepsAsked(s, step);
    } else {
      hide Inv, DoHandle, DoControl;
    }
  }

  lemma {:induction false} RunKeepsAsked(s: State, steps: seq<Step>)
    requires Inv(s) && AskedOk(s) && Run(s, steps).Some?
    ensures AskedOk(Run(s, steps).value)
    decreases |steps|
  {
    hide Inv, AskedOk, Next;
    if steps != [] {
      StepKeepsInv(s, steps[0]);
      StepKeepsAsked(s, steps[0]);
      RunKeepsAsked(Next(s, steps[0]).value, steps[1..]);
    }
  }

  lemma ReachableAsked(s: State)
    requires Reachable(s)
    ensures AskedOk(s)
  {
    var max: nat, steps: seq<Step> :| Run(Initial(max), steps) == Some(s);
    RunKeepsAsked(Initial(max), steps);
  }

  /** How much of a sweep is left. */
  function SweepLeft(s: State): (n: int) {
    |s.threads| + (if s.collector.Sweeping? then |s.threads| - s.collector.at + 1 else 0)
  }

  /** Only the sweep and the handlers it joins move; a connection that is starting stays so. */
  ghost predicate OnlySwept(s: State, t: State) {
    && t.control == s.control && t.acceptor == s.acceptor && t.asked == s.asked && |t.stages| == |s.stages|
    && forall id :: 0 <= id < |s.stages| && s.stages[id] == Starting ==> t.stages[id] == Starting
  }

  /** One turn of a sweep: the handler to be joined finishes, or the sweep goes on. */
  lemma SweepTurn(s: State) returns (step: Step)
    requires Inv(s) && s.collector.Sweeping?
    ensures Next(s, step).Some?
    ensures var u := Next(s, step).value;
            && OnlySwept(s, u)
            && (SweepLeft(u) < SweepLeft(s)
                || (SweepLeft(u) == SweepLeft(s) && StepsLeft(u.stages) < StepsLeft(s.stages)))
  {
    hide StepsLeft, Served;
    var at := s.collector.at;
    step := Sweep;
    if at < |s.threads| {
      var id := s.threads[at];
      assert id in s.threads;
      if s.stages[id] == Terminated {
        step := Handle(id, true);
        StepsLeftDrops(s.stages, id, Finished);
      }
    }
  }

  lemma SweepLeftIsNat(s: State)
    requires Inv(s)
    ensures SweepLeft(s) >= 0
  {
  }

  /** A sweep under way can be finished, the handlers it has to join finishing first; nothing else moves. */
  lemma {:induction false} SweepEnds(s: State) returns (t: State)
    requires Inv(s) && AskedOk(s) && s.control != Outside
    ensures Leads(s, t) && !t.collector.Sweeping? && Inv(t) && AskedOk(t) && OnlySwept(s, t)
    decreases SweepLeft(s), StepsLeft(s.stages)
  {
    hide Inv, AskedOk, Next, SweepLeft, StepsLeft;
    if !s.collector.Sweeping? {
      assert Path(s, [], s);
      return s;
    }
    var step := SweepTurn(s);
    var u := Next(s, step).value;
    SweepLeftIsNat(s);
    StepKeepsInv(s, step);
    StepKeepsAsked(s, step);
    OneStep(s, step, u);
    t := SweepEnds(u);
    LeadsOn(s, u, t);
  }

  /** A connection about to be served, once `stop` waits, is served without having been asked to close. */
  lemma StartingIsMissed(s: State, id: nat)
    requires Inv(s) && AskedOk(s) && s.control.JoiningAcceptor? && id < |s.stages| && s.stages[id] == Starting
    ensures exists t :: Leads(s, t) && Missed(t)
  {
    var t := s.(stages := s.stages[id := Inserted], clients := s.clients + {id});
    OneStep(s, Handle(id, true), t);
    assert id in t.clients && id !in t.asked;
  }

  /** Closing the clients of the snapshot takes `stop` to where it waits for the accept thread. */
  lemma StopComesToWait(s: State)
    requires s.control.Snapshotting? && !s.acceptor.NoAcceptor?
    ensures Leads(s, Waiting(s))
  {
    hide AllAsked;
    var a := s.(control := Closing(s.clients));
    OneStep(s, Snapshot, a);
    AsksTheRest(a);
    ControlAside(s, s.clients, a.control);
    var b := AllAsked(s, s.clients).(control := Closing({}));
    LeadsOn(s, a, b);
    AskedKeepsAcceptor(s, s.clients);
    OneStep(b, StopAcceptor, Waiting(s));
    LeadsOn(s, b, Waiting(s));
  }

  /** `stop` has asked every client there is and waits for the accept thread. */
  function Waiting(s: State): (t: State) {
    AllAsked(s, s.clients).(stop := true, control := JoiningAcceptor)
  }

  lemma AskedKeepsAcceptor(s: State, rest: set<nat>)
    ensures AllAsked(s, rest).acceptor == s.acceptor
  {
  }

  /** A connection about to be launched, or that has not touched the client set, is still there when `stop` waits. */
  lemma WaitsWithStarter(s: State) returns (b: State, id: nat)
    requires Inv(s) && AskedOk(s) && s.control.Snapshotting? && (s.acceptor.Launching? || Starting in s.stages)
    ensures Leads(s, b) && b.control.JoiningAcceptor? && Inv(b) && AskedOk(b)
    ensures id < |b.stages| && b.stages[id] == Starting
  {
    SomeoneLaunched(s);
    StopComesToWait(s);
    var a := Waiting(s);
    WaitingKeeps(s);
    b, id := a, 0;
    if Starting in s.stages {
      id :| 0 <= id < |s.stages| && s.stages[id] == Starting;
    } else {
      var u := SweepEnds(a);
      b := u.(acceptor := Looping, stages := u.stages + [Starting], threads := u.threads + [|u.stages|]);
      OneStep(u, Launch, b);
      StepKeepsInv(u, Launch);
      StepKeepsAsked(u, Launch);
      LeadsOn(a, u, b);
      LeadsOn(s, a, b);
      id := |u.stages|;
    }
  }

  lemma MissesOne(s: State)
    requires Inv(s) && AskedOk(s) && s.control.Snapshotting? && (s.acceptor.Launching? || Starting in s.stages)
    ensures exists t :: Leads(s, t) && Missed(t)
  {
    var b, id := WaitsWithStarter(s);
    StartingIsMissed(b, id);
    var t :| Leads(b, t) && Missed(t);
    LeadsOn(s, b, t);
  }

  /** A server with a connection under way or about to be launched has been started. */
  lemma SomeoneLaunched(s: State)
    requires Inv(s) && s.control.Snapshotting? && (s.acceptor.Launching? || Starting in s.stages)
    ensures !s.acceptor.NoAcceptor?
  {
    if Starting in s.stages {
      var id :| 0 <= id < |s.stages| && s.stages[id] == Starting;
      assert id in s.threads || id in s.joined;
    }
  }

  lemma WaitingKeeps(s: State)
    requires Inv(s) && AskedOk(s) && s.control.Snapshotting? && !s.acceptor.NoAcceptor?
    ensures Inv(Waiting(s)) && AskedOk(Waiting(s))
  {
  }

  /**
    * The exact condition, when `stop` takes its snapshot: it can come to wait for a connection that it never asked to
    * close if and only if one is about to be launched or about to enter the client set.
    */
  lemma StopMissesIff(s: State)
    requires Reachable(s) && s.control.Snapshotting?
    ensures (exists t :: Leads(s, t) && Missed(t)) <==> (s.acceptor.Launching? || Starting in s.stages)
  {
    ReachableInv(s);
    ReachableAsked(s);
    if s.acceptor.Launching? || Starting in s.stages {
      MissesOne(s);
    } else if exists t :: Leads(s, t) && Missed(t) {
      var t :| Leads(s, t) && Missed(t);
      var steps :| Path(s, steps, t);
      PathSettles(s, steps, t);
    }
  }

  lemma {:induction false} RunThen(s: State, steps: seq<Step>, step: Step)
    requires Run(s, steps).Some? && Next(Run(s, steps).value, step).Some?
    ensures Run(s, steps + [step]) == Next(Run(s, steps).value, step)
    decreases |steps|
  {
    hide Next;
    if steps == [] {
      assert ([] + [step])[1..] == [];
    } else {
      assert (steps + [step])[1..] == steps[1..] + [step];
      RunThen(Next(s, steps[0]).value, steps[1..], step);
    }
  }

  lemma ReachableNext(s: State, step: Step, t: State)
    requires Reachable(s) && Next(s, step) == Some(t)
    ensures Reachable(t)
  {
    hide Next;
    var max: nat, steps: seq<Step> :| Run(Initial(max), steps) == Some(s);
    RunThen(Initial(max), steps, step);
  }

  /** A connection launched between the snapshot and the accept thread's exit is waited for but was not asked. */
  lemma LateClient()
    ensures exists s: State :: Reachable(s) && s.control == JoiningAcceptor && s.clients == {0} && s.asked == {}
  {
    hide Reachable;
    InitialReachable();
    var a := Initial(32);
    var b := a.(acceptor := Looping, collector := Sweeping(0));
    ReachableNext(a, Start, b);
    var c := b.(acceptor := Polling);
    ReachableNext(b, ReadStop, c);
    var d := c.(acceptor := Acceptor.Counting);
    ReachableNext(c, Poll(true), d);
    var e := d.(acceptor := Rechecking);
    ReachableNext(d, CountClients, e);
    var f := e.(acceptor := Launching);
    ReachableNext(e, RereadStop, f);
    var g := f.(stop := true, control := Snapshotting);
    ReachableNext(f, Stop, g);
    var h := g.(control := Closing({}));
    ReachableNext(g, Snapshot, h);
    var i := h.(control := JoiningAcceptor);
    ReachableNext(h, StopAcceptor, i);
    var j := i.(collector := Flagging);
    ReachableNext(i, Sweep, j);
    var k := j.(acceptor := Looping, stages := [Starting], threads := [0]);
    assert j.stages + [Starting] == [Starting] && j.threads + [0] == [0];
    ReachableNext(j, Launch, k);
    var l := k.(stages := [Inserted], clients := {0});
    assert k.stages[0 := Inserted] == [Inserted] && k.clients + {0} == {0};
    ReachableNext(k, Handle(0, true), l);
  }

  lemma InitialReachable()
    ensures Reachable(Initial(32))
  {
    assert Run(Initial(32), []) == Some(Initial(32));
  }
}

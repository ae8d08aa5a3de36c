/** The limit on connections: what the accept thread counts, and when the limit is kept. */
module ServerLimit {
  import opened Wrappers
  import opened Server

  /** The accept thread takes a connection exactly when it counts fewer clients than the limit. */
  lemma CountAdmitsIff(s: State)
    requires s.acceptor == Acceptor.Counting
    ensures var t := Next(s, CountClients);
            && t.Some? && t.value == s.(acceptor := t.value.acceptor)
            && (t.value.acceptor == Rechecking <==> |s.clients| < s.maxConnections)
            && (t.value.acceptor == Looping <==> |s.clients| >= s.maxConnections)
  {
  }

  /** The connections launched that have not entered the client set yet. */
  function Entering(s: State): (ids: set<nat>) {
    set id: nat | id < |s.stages| && s.stages[id].Starting?
  }

  /** One more if the accept thread has counted the clients and not launched the connection yet. */
  function Admitted(s: State): (n: nat) { if s.acceptor.Rechecking? || s.acceptor.Launching? then 1 else 0 }

  /** Clients, and connections that are about to become clients. */
  function Load(s: State): (n: nat) { |s.clients| + |Entering(s)| + Admitted(s) }

  lemma SameEntering(s: State, t: State)
    requires |t.stages| == |s.stages|
    requires forall id: nat | id < |s.stages| :: t.stages[id].Starting? <==> s.stages[id].Starting?
    ensures Entering(t) == Entering(s)
  {
  }

  lemma LaunchLoad(s: State)
    requires Next(s, Launch).Some?
    ensures Load(Next(s, Launch).value) <= Load(s)
  {
    var t := Next(s, Launch).value;
    assert Entering(t) == Entering(s) + {|s.stages|};
  }

  lemma EntersLoad(s: State, id: nat, t: State)
    requires id < |s.stages| && s.stages[id].Starting? && t.acceptor == s.acceptor
    requires t.stages == s.stages[id := Inserted] && t.clients == s.clients + {id}
    ensures Load(t) <= Load(s)
  {
    assert id in Entering(s);
    assert Entering(t) == Entering(s) - {id};
    assert |t.clients| <= |s.clients| + 1;
  }

  lemma ServedLoad(s: State, id: nat, to: Stage, t: State)
    requires id < |s.stages| && !s.stages[id].Starting? && !to.Starting? && t.acceptor == s.acceptor
    requires t.stages == s.stages[id := to] && (t.clients == s.clients || t.clients == s.clients - {id})
    ensures Load(t) <= Load(s)
  {
    SameEntering(s, t);
    if id in s.clients { assert |s.clients - {id}| == |s.clients| - 1; } else { assert s.clients - {id} == s.clients; }
  }

  lemma HandleLoad(s: State, id: nat, ok: bool)
    requires Next(s, Handle(id, ok)).Some?
    ensures Load(Next(s, Handle(id, ok)).value) <= Load(s)
  {
    hide Load;
    var t := Next(s, Handle(id, ok)).value;
    if s.stages[id].Starting? {
      EntersLoad(s, id, t);
    } else {
      ServedLoad(s, id, t.stages[id], t);
    }
  }

  /** Only a count that admits a connection adds to the load, and it adds one. */
  lemma StepLoad(s: State, step: Step)
    requires Next(s, step).Some?
    ensures var t := Next(s, step).value;
            && t.maxConnections == s.maxConnections
            && (if step.CountClients? && |s.clients| < s.maxConnections then Load(t) == Load(s) + 1
                else Load(t) <= Load(s))
  {
    if step.Launch? {
      LaunchLoad(s);
    } else if step.Handle? {
      HandleLoad(s, step.id, step.ok);
    } else {
      SameEntering(s, Next(s, step).value);
    }
  }

  ghost predicate WithinLimit(s: State, steps: seq<Step>)
    decreases |steps|
  {
    && Load(s) <= s.maxConnections
    && (steps == [] || Next(s, steps[0]).None? || WithinLimit(Next(s, steps[0]).value, steps[1..]))
  }

  /** Whenever the accept thread admits a connection, there is room for it beside those that have not entered yet. */
  ghost predicate CountsInTime(s: State, steps: seq<Step>)
    decreases |steps|
  {
    steps == [] || Next(s, steps[0]).None?
    || (&& (steps[0].CountClients? && |s.clients| < s.maxConnections ==>
              |s.clients| + |Entering(s)| < s.maxConnections)
        && CountsInTime(Next(s, steps[0]).value, steps[1..]))
  }

  /**
    * Over every schedule: clients and connections on their way to become clients stay within the limit throughout
    * exactly when the accept thread never counts while a connection that takes the last place has not entered yet.
    */
  lemma {:induction false} LimitKeptIff(s: State, steps: seq<Step>)
    requires Load(s) <= s.maxConnections
    ensures WithinLimit(s, steps) <==> CountsInTime(s, steps)
    decreases |steps|
  {
    hide Load, Entering, Next;
    if steps != [] && Next(s, steps[0]).Some? {
      var t := Next(s, steps[0]).value;
      StepLoad(s, steps[0]);
      if steps[0].CountClients? { CountLoad(s, steps[0]); }
      if Load(t) <= t.maxConnections {
        LimitKeptIff(t, steps[1..]);
      } else {
        assert !WithinLimit(t, steps[1..]);
      }
    }
  }

  lemma CountLoad(s: State, step: Step)
    requires step.CountClients? && Next(s, step).Some?
    ensures Load(s) == |s.clients| + |Entering(s)|
  {
  }

  lemma NewReachable(max: nat)
    ensures Reachable(Initial(max))
  {
    assert Run(Initial(max), []) == Some(Initial(max));
  }

  /** From the head of the accept loop to a new connection, while the collector does not hold the list. */
  lemma AcceptOne(s: State, t: State)
    requires Reachable(s) && s.acceptor.Looping? && s.collector.Flagging? && !s.stop
    requires |s.clients| < s.maxConnections
    requires t == s.(stages := s.stages + [Starting], threads := s.threads + [|s.stages|])
    ensures Reachable(t)
  {
    hide Reachable;
    ReachableNext(s, ReadStop, s.(acceptor := Polling));
    ReachableNext(s.(acceptor := Polling), Poll(true), s.(acceptor := Acceptor.Counting));
    ReachableNext(s.(acceptor := Acceptor.Counting), CountClients, s.(acceptor := Rechecking));
    ReachableNext(s.(acceptor := Rechecking), RereadStop, s.(acceptor := Launching));
    ReachableNext(s.(acceptor := Launching), Launch, t);
  }

  /** The schedule that breaks it: two connections are counted before either has entered, and the limit is one. */
  lemma LimitExceeded()
    ensures exists s: State :: Reachable(s) && s.maxConnections == 1 && s.clients == {0, 1}
  {
    hide Reachable;
    NewReachable(1);
    var a := Initial(1);
    var b := a.(acceptor := Looping, collector := Sweeping(0));
    ReachableNext(a, Start, b);
    var c := b.(collector := Flagging);
    ReachableNext(b, Sweep, c);
    var d := c.(stages := [Starting], threads := [0]);
    assert c.stages + [Starting] == [Starting] && c.threads + [|c.stages|] == [0];
    AcceptOne(c, d);
    var e := d.(stages := [Starting, Starting], threads := [0, 1]);
    assert d.stages + [Starting] == [Starting, Starting] && d.threads + [|d.stages|] == [0, 1];
    AcceptOne(d, e);
    BothEnter(e);
  }

  lemma BothEnter(s: State)
    requires Reachable(s) && s.stages == [Starting, Starting] && s.clients == {}
    ensures exists t: State :: Reachable(t) && t.maxConnections == s.maxConnections && t.clients == {0, 1}
  {
    hide Reachable;
    var t := s.(stages := [Inserted, Starting], clients := {0});
    assert s.stages[0 := Inserted] == [Inserted, Starting] && s.clients + {0} == {0};
    ReachableNext(s, Handle(0, true), t);
    var u := t.(stages := [Inserted, Inserted], clients := {0, 1});
    assert t.stages[1 := Inserted] == [Inserted, Inserted] && t.clients + {1} == {0, 1};
    ReachableNext(t, Handle(1, true), u);
  }
}

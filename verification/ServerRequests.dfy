/** Which of the close requests that `stop` makes have an effect. */
module ServerRequests {
  import opened Server

  /** Told to close, and served as if nothing had been said. */
  predicate Unheard(s: State, id: nat) { IsOpen(s, id) && id in s.asked && id !in s.closing }

  predicate AtStage(s: State, id: nat, stage: Stage) { id < |s.stages| && s.stages[id] == stage }

  /** The request is having its effect, or the connection is on its way out anyway. */
  predicate Heard(s: State, id: nat) {
    && id < |s.stages|
    && (id in s.closing || (s.stages[id] == Handshaking && id in s.cancel) || StageRank(s.stages[id]) <= 3)
  }

  lemma StepKeepsHeard(s: State, step: Step, id: nat)
    requires Heard(s, id) && Next(s, step).Some?
    ensures Heard(Next(s, step).value, id)
  {
    if step.Handle? { HandleFrame(s, step.id, step.ok); }
  }

  lemma {:induction false} PathKeepsHeard(s: State, steps: seq<Step>, t: State, id: nat)
    requires Heard(s, id) && Path(s, steps, t)
    ensures Heard(t, id)
    decreases |steps|
  {
    hide Next, Heard;
    if steps != [] {
      StepKeepsHeard(s, steps[0], id);
      PathKeepsHeard(Next(s, steps[0]).value, steps[1..], t, id);
    }
  }

  /** What a handler leaves alone on its way to OPEN. */
  predicate OnlyHandled(s: State, t: State) {
    t.control == s.control && t.closing == s.closing && t.asked == s.asked && |t.stages| == |s.stages|
  }

  /** A connection that is not OPEN yet can become so, unless a cancellation request stops its handshake. */
  lemma {:induction false} Opens(s: State, id: nat) returns (t: State)
    requires s.control != Outside && id < |s.stages| && Early(s.stages[id])
    requires s.stages[id] == Handshaking ==> id !in s.cancel
    ensures Leads(s, t) && IsOpen(t, id) && OnlyHandled(s, t)
    decreases StageRank(s.stages[id])
  {
    t := DoHandle(s, id, true).value;
    OneStep(s, Handle(id, true), t);
    if t.stages[id] != Open {
      var u := Opens(t, id);
      LeadsOn(s, t, u);
      t := u;
    }
  }

  /**
   * When `stop` tells a client to close, the request can be lost, the connection being served on as if nothing had
   * been said, if and only if its handshake has not begun, which takes the request back, or has looked at it for the
   * last time. In a handshake under way the request makes it fail, and an OPEN connection starts to close.
   */
  lemma LostRequestIff(s: State, c: nat)
    requires Reachable(s) && s.control.Closing? && c in s.control.rest
    ensures var asked := Next(s, AskToClose(c)).value;
            (exists t :: Leads(asked, t) && Unheard(t, c)) <==> AtStage(s, c, Inserted) || AtStage(s, c, Answering)
  {
    ReachableInv(s);
    ReachableAsked(s);
    var asked := Next(s, AskToClose(c)).value;
    if AtStage(s, c, Inserted) || AtStage(s, c, Answering) {
      var t := Opens(asked, c);
      assert Unheard(t, c);
    } else {
      assert Heard(asked, c);
      forall t | Leads(asked, t)
        ensures !Unheard(t, c)
      {
        var steps :| Path(asked, steps, t);
        PathKeepsHeard(asked, steps, t, c);
      }
    }
  }

  // ---------------------------------------------------------------- a whole call of stop

  /** `stop` has told everyone it will tell and waits, and a connection is OPEN and not closing. */
  ghost predicate WaitsInVain(s: State) {
    (s.control.JoiningAcceptor? || s.control.JoiningCollector?) && exists id: nat :: IsOpen(s, id) && id !in s.closing
  }

  /** Nobody is on the way to OPEN, and those who are OPEN are closing or in line to be told. */
  ghost predicate Quieted(s: State) {
    && s.control != Outside
    && (s.stop || s.acceptor.NoAcceptor?) && !s.acceptor.Launching?
    && (forall id :: 0 <= id < |s.stages| ==> !Early(s.stages[id]))
    && (!s.control.Snapshotting? ==>
          forall id: nat :: IsOpen(s, id) ==> id in s.closing || (s.control.Closing? && id in s.control.rest))
  }

  lemma HandleQuiets(s: State, step: Step)
    requires Quieted(s) && step.Handle? && Next(s, step).Some?
    ensures Quieted(Next(s, step).value)
  {
    HandleFrame(s, step.id, step.ok);
    var t := Next(s, step).value;
    forall id: nat | id < |t.stages|
      ensures !Early(t.stages[id]) && (IsOpen(t, id) ==> IsOpen(s, id))
    {
      assert !Early(s.stages[id]);
    }
  }

  lemma StepQuiets(s: State, step: Step)
    requires Inv(s) && Quieted(s) && Next(s, step).Some? && Next(s, step).value.control != Outside
    ensures Quieted(Next(s, step).value)
  {
    if step.Handle? {
      HandleQuiets(s, step);
    } else {
      hide Accounted;
    }
  }

  lemma {:induction false} PathQuiets(s: State, steps: seq<Step>, t: State)
    requires Inv(s) && Quieted(s) && Path(s, steps, t)
    ensures Quieted(t)
    decreases |steps|
  {
    hide Inv, Quieted;
    if steps != [] {
      StepKeepsInv(s, steps[0]);
      PathInside(Next(s, steps[0]).value, steps[1..], t);
      StepQuiets(s, steps[0]);
      PathQuiets(Next(s, steps[0]).value, steps[1..], t);
    }
  }

  /** A server with a connection that has not finished has been started. */
  lemma LiveMeansStarted(s: State, id: nat)
    requires Inv(s) && s.control.Snapshotting? && id < |s.stages| && s.stages[id] != Finished
    ensures !s.acceptor.NoAcceptor?
  {
    assert id in s.threads || id in s.joined;
  }

  /** A connection in its handshake when the snapshot is taken can be told at a moment at which it does not hear. */
  lemma ToldTooEarly(s: State, id: nat)
    requires Inv(s) && AskedOk(s) && s.control.Snapshotting?
    requires AtStage(s, id, Inserted) || AtStage(s, id, Answering)
    ensures exists t :: Leads(s, t) && WaitsInVain(t)
  {
    LiveMeansStarted(s, id);
    StopComesToWait(s);
    WaitingKeeps(s);
    var t := Opens(Waiting(s), id);
    LeadsOn(s, Waiting(s), t);
    assert id !in t.closing;
  }

  lemma InVain(s: State)
    requires Inv(s) && AskedOk(s) && s.control.Snapshotting?
    requires s.acceptor.Launching? || exists id :: 0 <= id < |s.stages| && Early(s.stages[id])
    ensures exists t :: Leads(s, t) && WaitsInVain(t)
  {
    if s.acceptor.Launching? || Starting in s.stages {
      var b, id := WaitsWithStarter(s);
      var t := Opens(b, id);
      LeadsOn(s, b, t);
      assert IsOpen(t, id) && id !in t.closing;
    } else {
      var id :| 0 <= id < |s.stages| && Early(s.stages[id]);
      assert s.stages[id] in s.stages;
      if s.stages[id] == Handshaking {
        var u := DoHandle(s, id, true).value;
        OneStep(s, Handle(id, true), u);
        StepKeepsInv(s, Handle(id, true));
        StepKeepsAsked(s, Handle(id, true));
        ToldTooEarly(u, id);
        var t :| Leads(u, t) && WaitsInVain(t);
        LeadsOn(s, u, t);
      } else {
        ToldTooEarly(s, id);
      }
    }
  }

  /**
   * The exact condition, when `stop` takes its snapshot: it can come to wait for an OPEN connection that is not
   * closing, told or not, if and only if some connection is about to be launched or not OPEN yet.
   */
  lemma WaitsInVainIff(s: State)
    requires Reachable(s) && s.control.Snapshotting?
    ensures (exists t :: Leads(s, t) && WaitsInVain(t))
            <==> (s.acceptor.Launching? || exists id :: 0 <= id < |s.stages| && Early(s.stages[id]))
  {
    ReachableInv(s);
    ReachableAsked(s);
    if s.acceptor.Launching? || exists id :: 0 <= id < |s.stages| && Early(s.stages[id]) {
      InVain(s);
    } else {
      forall t | Leads(s, t)
        ensures !WaitsInVain(t)
      {
        var steps :| Path(s, steps, t);
        PathQuiets(s, steps, t);
      }
    }
  }
}

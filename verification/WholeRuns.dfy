/**
 Whole runs of the manager (lines 88 to 238 of internal/call/manager.go): what later steps
 never take back.
 */
module WholeRuns {
  import opened Sequences
  import opened Manager
  import Call

  // -------------------------------------------------------------- persistence

  /** What a call never takes back. */
  predicate CallPersists(c: Call.Call, d: Call.Call) {
    && d.info == c.info
    && (c.g.verdict.Some? ==> d.g.verdict == c.g.verdict)
    && (c.cancelled ==> d.cancelled)
    && (c.socketClosed ==> d.socketClosed)
  }

  ghost predicate HeapPersists(s: State, t: State) {
    forall c :: c in s.heap ==> c in t.heap && CallPersists(s.heap[c], t.heap[c])
  }

  ghost predicate DeskPersists(s: State, t: State) {
    && (forall k :: k in s.desk.sockets ==> k in t.desk.sockets && (SocketClosed(s, k) ==> SocketClosed(t, k)))
    && (forall o :: o in s.desk.outcomes ==> o in t.desk.outcomes && t.desk.outcomes[o] == s.desk.outcomes[o])
  }

  ghost predicate Persists(s: State, t: State) {
    HeapPersists(s, t) && DeskPersists(s, t) && (s.draining ==> t.draining) && s.snapshot <= t.snapshot
  }

  lemma CallStepPersists(c: Call.Call, a: Call.Action)
    requires Call.Enabled(c, a)
    ensures CallPersists(c, Call.Step(c, a))
  {
    hide Call.Step, Call.Enabled;
    Call.StepFrame(c, a);
    if c.g.verdict.Some? {
      Call.VerdictIsFinal(c, a);
    }
  }

  /** `t` has the calls of `s`, with one of them replaced or added. */
  lemma OneCallPersists(s: State, t: State, call: nat, c: Call.Call)
    requires t.heap == s.heap[call := c] && (call in s.heap ==> CallPersists(s.heap[call], c))
    ensures HeapPersists(s, t)
  {
    hide CallPersists;
    forall c | c in s.heap ensures CallPersists(s.heap[c], s.heap[c]) {
      CallPersistsReflexively(s.heap[c]);
    }
  }

  lemma CallPersistsReflexively(c: Call.Call)
    ensures CallPersists(c, c)
  {
  }

  lemma SameHeapPersists(s: State, t: State)
    requires t.heap == s.heap
    ensures HeapPersists(s, t)
  {
  }

  lemma RegisterPersistsHeap(s: State, op: nat, call: nat)
    requires Enabled(s, Register(op, call))
    ensures HeapPersists(s, RegisterStep(s, op, call))
  {
    hide HeapPersists, CallPersists;
    var t := RegisterStep(s, op, call);
    if t.heap == s.heap {
      SameHeapPersists(s, t);
    } else {
      OneCallPersists(s, t, call, t.heap[call]);
    }
  }

  /** A step leaves the calls alone, updates one of them, or adds a new one. */
  lemma StepPersistsHeap(s: State, a: Action)
    requires Enabled(s, a)
    ensures HeapPersists(s, Step(s, a))
  {
    hide HeapPersists, Call.Step, Call.Enabled, RegisterStep, DeskStep;
    var t := Step(s, a);
    match a
    case Register(op, call) => RegisterPersistsHeap(s, op, call);
    case OnCall(call, act) =>
      CallStepPersists(s.heap[call], act);
      OneCallPersists(s, t, call, t.heap[call]);
    case ShutdownStop(call) =>
      StopIsCallStep(s.heap[call]);
      CallStepPersists(s.heap[call], Call.StopBusiness);
      OneCallPersists(s, t, call, t.heap[call]);
    case ShutdownCancel =>
      CallStepPersists(s.heap[s.lock.cancelling.value], Call.Cancel);
      OneCallPersists(s, t, s.lock.cancelling.value, t.heap[s.lock.cancelling.value]);
    case Unregister(call) => OneCallPersists(s, t, call, t.heap[call]);
    case Uncount(call) => OneCallPersists(s, t, call, t.heap[call]);
    case CloseDone(call) => OneCallPersists(s, t, call, t.heap[call]);
    case _ => SameHeapPersists(s, t);
  }

  lemma StopIsCallStep(c: Call.Call)
    ensures Call.Enabled(c, Call.StopBusiness)
  {
  }

  /** What was closed stays closed, whatever happens to the calls. */
  lemma HeapPersistsDesk(s: State, t: State)
    requires HeapPersists(s, t) && t.desk == s.desk
    ensures DeskPersists(s, t)
  {
  }

  lemma ContinuingPersists(s: State, op: nat, next: Op)
    ensures DeskPersists(s, s.(desk := Continuing(s.desk, op, next)))
  {
  }

  lemma ReturningPersists(s: State, op: nat, outcome: Outcome)
    requires op !in s.desk.outcomes
    ensures DeskPersists(s, s.(desk := Returning(s.desk, op, outcome)))
  {
  }

  lemma DisposingPersists(s: State, op: nat, socket: nat, outcome: Outcome)
    requires op !in s.desk.outcomes
    ensures DeskPersists(s, s.(desk := Disposing(s.desk, op, socket, outcome)))
  {
  }

  lemma ListeningPersists(s: State, op: nat, socket: nat, next: Op)
    requires socket !in s.desk.sockets
    ensures DeskPersists(s, s.(desk := Listening(s.desk, op, socket, next)))
  {
  }

  lemma DeskStepPersists(s: State, a: Action)
    requires DeskValid(s) && Enabled(s, a) && IsDeskStep(a)
    ensures DeskPersists(s, s.(desk := DeskStep(s, a)))
  {
    hide DeskValid, DeskPersists, Returning, Continuing, Disposing, Listening;
    var d := s.desk;
    match a
    case BeginAccept(op, id, room) => BegunPersists(s, op, Some(id), room);
    case BeginDial(op, room) => BegunPersists(s, op, None, room);
    case Listen(op, ok, socket) =>
      InFlight(s, op);
      if ok {
        ListeningPersists(s, op, socket, WithSocket(d.ops[op], socket));
      } else {
        ReturningPersists(s, op, Refused);
      }
    case Build(op, ok, n) =>
      InFlight(s, op);
      if ok {
        ContinuingPersists(s, op, WithOffer(d.ops[op], n));
      } else {
        DisposingPersists(s, op, d.ops[op].socket, Refused);
      }
    case AskMeta(op, ok, id) =>
      InFlight(s, op);
      if ok {
        ContinuingPersists(s, op, DialRegistering(id, d.ops[op].room, d.ops[op].socket, d.ops[op].n));
      } else {
        DisposingPersists(s, op, d.ops[op].socket, Refused);
      }
    case Discard(op) =>
      InFlight(s, op);
      var o := d.ops[op];
      DisposingPersists(s, op, o.socket, Joined(o.id, o.prior, s.heap[o.prior].info.room));
    case DrainReturn(op) =>
      InFlight(s, op);
      ReturningPersists(s, op, Refused);
  }

  lemma BegunPersists(s: State, op: nat, id: Option<string>, room: string)
    requires NewOp(s, op)
    requires id.Some? && id.value in s.registry ==> s.registry[id.value] in s.heap
    ensures DeskPersists(s, s.(desk := Begun(s, op, id, room)))
  {
    hide DeskPersists, Returning, Continuing;
    if s.draining {
      ReturningPersists(s, op, Refused);
    } else if id.None? {
      ContinuingPersists(s, op, DialListening(room));
    } else if id.value in s.registry {
      var call := s.registry[id.value];
      ReturningPersists(s, op, Joined(id.value, call, s.heap[call].info.room));
    } else {
      ContinuingPersists(s, op, AcceptListening(id.value, room));
    }
  }

  /** A socket passes from an operation to a call; the operation goes on or returns. */
  lemma AdoptingPersists(s: State, t: State, call: nat, socket: nat)
    requires HeapPersists(s, t) && socket in s.desk.sockets && s.desk.sockets[socket].ByOp?
    requires t.desk.sockets == s.desk.sockets[socket := ByCall(call)]
    requires forall o :: o in s.desk.outcomes ==> o in t.desk.outcomes && t.desk.outcomes[o] == s.desk.outcomes[o]
    ensures DeskPersists(s, t)
  {
  }

  /** The operation that registers holds an open socket. */
  lemma RegistrantHoldsSocket(s: State, op: nat, call: nat)
    requires DeskValid(s) && Enabled(s, Register(op, call))
    ensures OpSocket(s.desk.ops[op]) == Some(s.desk.ops[op].socket)
    ensures s.desk.ops[op].socket in s.desk.sockets && s.desk.sockets[s.desk.ops[op].socket] == ByOp(op)
  {
    assert OpSocket(s.desk.ops[op]) == Some(s.desk.ops[op].socket);
    hide OpSocket, OwnerKnows, OpsValid;
  }

  lemma RegisterPersists(s: State, op: nat, call: nat)
    requires DeskValid(s) && Enabled(s, Register(op, call))
    ensures DeskPersists(s, RegisterStep(s, op, call))
  {
    hide DeskValid, HeapPersists, DeskPersists;
    RegistrantHoldsSocket(s, op, call);
    InFlight(s, op);
    RegisterPersistsHeap(s, op, call);
    var t := RegisterStep(s, op, call);
    if t.heap == s.heap {
      ContinuingPersists(s, op, t.desk.ops[op]);
    } else {
      AdoptingPersists(s, t, call, s.desk.ops[op].socket);
    }
  }

  lemma StepPersistsDesk(s: State, a: Action)
    requires DeskValid(s) && Enabled(s, a)
    ensures DeskPersists(s, Step(s, a))
  {
    hide HeapPersists, DeskPersists, DeskValid, RegisterStep, DeskStep, Call.Step, Call.Enabled;
    if a.Register? {
      RegisterPersists(s, a.op, a.call);
    } else if IsDeskStep(a) {
      DeskStepPersists(s, a);
    } else {
      StepPersistsHeap(s, a);
      HeapPersistsDesk(s, Step(s, a));
    }
  }

  lemma StepPersistsDrain(s: State, a: Action)
    requires Enabled(s, a)
    ensures (s.draining ==> Step(s, a).draining) && s.snapshot <= Step(s, a).snapshot
  {
    hide DeskStep, Call.Step, Call.Enabled;
  }

  lemma StepPersists(s: State, a: Action)
    requires Inv(s) && Enabled(s, a)
    ensures Persists(s, Step(s, a))
  {
    hide Step, Enabled, HeapPersists, DeskPersists;
    hide CallsValid, RegistryValid, CountValid, SocketsValid, OpsValid, DrainValid;
    StepPersistsHeap(s, a);
    StepPersistsDesk(s, a);
    StepPersistsDrain(s, a);
  }

  lemma PersistsTransitively(s: State, t: State, u: State)
    requires Persists(s, t) && Persists(t, u)
    ensures Persists(s, u)
  {
    hide SocketClosed;
  }

  /**
   Over every run: verdicts, cancellations, closed sockets and the results of finished
   operations are final, and draining is never undone.
   */
  lemma {:induction false} RunPersists(s: State, actions: seq<Action>)
    requires Inv(s)
    ensures Runs(s, actions).Some? ==> Persists(s, Runs(s, actions).value)
    decreases |actions|
  {
    hide Inv, Persists, Step, Enabled;
    if actions == [] {
      PersistsReflexively(s);
    } else if Enabled(s, actions[0]) {
      var t := Step(s, actions[0]);
      StepKeeps(s, actions[0]);
      StepPersists(s, actions[0]);
      RunPersists(t, actions[1..]);
      if Runs(s, actions).Some? {
        PersistsTransitively(s, t, Runs(s, actions).value);
      }
    }
  }

  lemma PersistsReflexively(s: State)
    ensures Persists(s, s)
  {
  }
}

/**
 The manager together with the media transports of its calls: internal/call/manager.go on
 top of internal/media/transport.go.

 A call has a transport once Accept or Connect made one. Its goroutine starts it before it
 waits for it (lines 266 to 270 and 316 to 320 of manager.go), goes on only if Wait reports
 success, and cleanup goes on when Close returns (line 531). All else interleaves freely.
 */
module Composition {
  import opened Sequences
  import M = Manager
  import T = Transport
  import Sdp
  import Call

  datatype System = System(manager: M.State, media: map<nat, T.State>)

  datatype Action = Manage(a: M.Action) | Media(call: nat, t: T.Action)

  const INITIAL: System := System(M.INITIAL, map[])

  function At(media: map<nat, T.State>, call: nat): Option<T.State> {
    if call in media then Some(media[call]) else None
  }

  /** What a call may do, given its transport. */
  predicate CallMay(c: Call.Call, o: Option<T.State>, a: Call.Action) {
    && Call.Enabled(c, a)
    && (a.Run? && c.pc == Call.Setup(Call.AwaitingTransport) ==>
          && o.Some? && o.value.v.startTaken
          && (a.choice == Call.Proceed ==> o.value.v.readyCloses > 0 && T.WaitResult(o.value.v).None?))
    && (a.Run? && c.pc == Call.Cleanup(Call.ClosingTransport) ==> o.Some? && o.value.closeReturns > 0)
  }

  /** What a transport may do, given its call: only the call's goroutine starts and closes it. */
  predicate MediaMay(c: Call.Call, t: T.State, a: T.Action) {
    && T.Enabled(t, a)
    && (a.Start? ==> c.pc == Call.Setup(Call.AwaitingTransport) || t.v.startTaken)
    && (a.CallClose? ==> c.pc == Call.Cleanup(Call.ClosingTransport) || t.close != T.NotClosing)
  }

  predicate Enabled(s: System, a: Action) {
    match a
    case Manage(b) =>
      && M.Enabled(s.manager, b)
      && (b.OnCall? ==> CallMay(s.manager.heap[b.call], At(s.media, b.call), b.a))
    case Media(call, b) => call in s.manager.heap && call in s.media && MediaMay(s.manager.heap[call], s.media[call], b)
  }

  /** The transport of a call after a step that left the call as `c`. */
  function Kept(o: Option<T.State>, c: Call.Call): Option<T.State> {
    if c.g.transport == Call.Absent then None else if o.Some? then o else Some(T.INITIAL)
  }

  /** A transport appears together with the call's reference to it. */
  function Refreshed(heap: map<nat, Call.Call>, media: map<nat, T.State>): map<nat, T.State> {
    map c | c in heap && Kept(At(media, c), heap[c]).Some? :: Kept(At(media, c), heap[c]).value
  }

  function Step(s: System, a: Action): System
    requires Enabled(s, a)
  {
    match a
    case Manage(b) => var m := M.Step(s.manager, b); System(m, Refreshed(m.heap, s.media))
    case Media(call, b) => s.(media := s.media[call := T.Step(s.media[call], b)])
  }

  function Exec(actions: seq<Action>): Option<System> {
    if actions == [] then Some(INITIAL)
    else
      var before, a := Exec(actions[..|actions| - 1]), actions[|actions| - 1];
      if before.Some? && Enabled(before.value, a) then Some(Step(before.value, a)) else None
  }

  ghost predicate Reachable(s: System) { exists actions :: Exec(actions) == Some(s) }

  // ---------------------------------------------------------------- invariant

  /** The goroutine relies on the sessions. */
  predicate MediaUp(pc: Call.Pc) { pc == Call.Setup(Call.Accepting) || pc == Call.Setup(Call.Connected) || pc.Live? }

  /** Cleanup has decided not to close a transport. */
  predicate PastChecking(pc: Call.Pc) { pc == Call.Cleanup(Call.ClosingSocket) || pc.Finish? }

  ghost predicate Linked(c: Call.Call, o: Option<T.State>) {
    && (o.Some? <==> c.g.transport != Call.Absent)
    && (MediaUp(c.pc) ==> o.Some?)
    && (o.Some? ==> LinkedTo(c, o.value) && T.Reachable(o.value))
  }

  predicate LinkedTo(c: Call.Call, t: T.State) {
    && (c.g.transport == Call.Closed ==> t.closeReturns > 0 && c.pc.Finish?)
    && (PastChecking(c.pc) && c.g.transport == Call.Created ==> t.run == T.NotStarted && t.close == T.NotClosing)
    && (t.close != T.NotClosing ==> c.pc == Call.Cleanup(Call.ClosingTransport) || c.g.transport == Call.Closed)
    && (MediaUp(c.pc) ==> t.run == T.Finished && T.SESSIONS <= t.v.fields)
  }

  ghost predicate Inv(s: System) {
    && M.Inv(s.manager) && s.media.Keys <= s.manager.heap.Keys
    && forall call :: call in s.manager.heap ==> Linked(s.manager.heap[call], At(s.media, call))
  }

  // ------------------------------------------------------------- one call

  /** A transport that is not being closed and whose Wait succeeds has all its sessions. */
  lemma SuccessBringsSessions(t: T.State)
    requires T.Reachable(t) && t.close == T.NotClosing && t.v.readyCloses > 0 && T.WaitResult(t.v).None?
    ensures t.run == T.Finished && T.SESSIONS <= t.v.fields
  {
    hide T.Reachable;
    T.ReachableKeeps(t);
    hide T.LedgerInvariant, T.ResultInvariant;
    T.ReadyMeansSessions(t);
  }

  lemma NewTransport()
    ensures T.Reachable(T.INITIAL)
  {
    assert T.Exec([]) == Some(T.INITIAL);
  }

  lemma SetupLinks(c: Call.Call, t: T.State, choice: Call.Choice)
    requires c.pc.Setup? && LinkedTo(c, t) && T.Reachable(t) && CallMay(c, Some(t), Call.Run(choice))
    ensures LinkedTo(Call.SetupStep(c, c.pc.setup, choice), t)
  {
    hide T.Reachable;
    if c.pc.setup == Call.AwaitingTransport && choice == Call.Proceed {
      SuccessBringsSessions(t);
    }
  }

  lemma CleanupLinks(c: Call.Call, t: T.State, choice: Call.Choice)
    requires c.pc.Cleanup? && LinkedTo(c, t) && CallMay(c, Some(t), Call.Run(choice))
    requires c.g.transport != Call.Absent
    ensures LinkedTo(Call.CleanupStep(c, c.pc.cleanup), t)
  {
  }

  /** The goroutine's step leaves the transport, or its absence, as it is. */
  lemma RunLinks(c: Call.Call, o: Option<T.State>, choice: Call.Choice)
    requires Linked(c, o) && CallMay(c, o, Call.Run(choice))
    ensures Linked(Call.Step(c, Call.Run(choice)), o)
  {
    hide T.Reachable;
    if c.pc.Setup? && o.Some? {
      SetupLinks(c, o.value, choice);
      hide Call.SetupNext, LinkedTo;
    } else if c.pc.Cleanup? && o.Some? {
      CleanupLinks(c, o.value, choice);
      hide Call.CleanupNext, LinkedTo;
    } else {
      hide Sdp.AppliedParameters;
    }
  }

  lemma ConnectLinks(c: Call.Call, o: Option<T.State>, a: Call.Action)
    requires Linked(c, o) && CallMay(c, o, a) && a.Connect?
    ensures Linked(Call.Step(c, a), Kept(o, Call.Step(c, a)))
  {
    hide T.Reachable, Sdp.AppliedParameters, Call.RunStep;
    NewTransport();
  }

  lemma CallStepLinks(c: Call.Call, o: Option<T.State>, a: Call.Action)
    requires Linked(c, o) && CallMay(c, o, a)
    ensures Linked(Call.Step(c, a), Kept(o, Call.Step(c, a)))
  {
    match a
    case Run(choice) =>
      hide Call.Step, LinkedTo, T.Reachable, CallMay;
      RunLinks(c, o, choice);
    case Connect(_) =>
      hide Linked;
      ConnectLinks(c, o, a);
    case _ => hide T.Reachable, Call.RunStep, Call.Answered;
  }

  lemma FinishLinks(c: Call.Call, o: Option<T.State>, next: Call.FinishPc)
    requires Linked(c, o) && c.pc.Finish?
    ensures Linked(Call.Finishing(c, next), Kept(o, c))
  {
    hide T.Reachable;
  }

  lemma UnchangedLinks(c: Call.Call, o: Option<T.State>)
    requires Linked(c, o)
    ensures Kept(o, c) == o
  {
    hide LinkedTo, T.Reachable;
  }

  lemma NewCallsLink(id: string, room: string, socket: nat, n: Sdp.Neg, draining: bool)
    ensures var c := Call.NewInbound(id, room, socket, n); Linked(c, Kept(None, c))
    ensures var c := Call.NewOutbound(id, room, socket, n, draining); Linked(c, Kept(None, c))
  {
    NewTransport();
    hide T.Reachable;
  }

  /** A step of the transport, in particular of a Close or goroutine under way. */
  lemma MediaStepLinks(c: Call.Call, t: T.State, a: T.Action)
    requires LinkedTo(c, t) && T.Reachable(t) && MediaMay(c, t, a)
    ensures LinkedTo(c, T.Step(t, a)) && T.Reachable(T.Step(t, a))
  {
    T.ReachableStep(t, a);
    T.ReachableKeeps(t);
    hide T.Reachable, T.LedgerInvariant, T.ResultInvariant, T.CloseOrder, T.DiscardOrder;
    if a.Run? {
      hide T.RunStep;
      T.RunFrame(t, a.ok);
    }
  }

  // ----------------------------------------------------------- every step

  /** Call `d` of the next state, and its transport. */
  ghost predicate LinkedAfter(s: System, m: M.State, d: nat) {
    d in m.heap ==> Linked(m.heap[d], Kept(At(s.media, d), m.heap[d]))
  }

  lemma SameCallLinks(s: System, m: M.State, d: nat)
    requires Inv(s) && d in s.manager.heap && d in m.heap && m.heap[d] == s.manager.heap[d]
    ensures LinkedAfter(s, m, d)
  {
    hide Linked, M.Inv, Kept;
    UnchangedLinks(s.manager.heap[d], At(s.media, d));
  }

  lemma OneCallLinks(s: System, m: M.State, k: nat, d: nat)
    requires Inv(s) && k in s.manager.heap && k in m.heap && m.heap == s.manager.heap[k := m.heap[k]]
    requires LinkedAfter(s, m, k)
    ensures LinkedAfter(s, m, d)
  {
    hide LinkedAfter, Inv;
    if d != k && d in m.heap {
      SameCallLinks(s, m, d);
    } else {
      hide *;
      if d != k {
        AbsentLinks(s, m, d);
      }
    }
  }

  lemma AbsentLinks(s: System, m: M.State, d: nat)
    requires d !in m.heap
    ensures LinkedAfter(s, m, d)
  {
  }

  /** Registration leaves the calls alone or adds one. */
  lemma RegisterAdds(m: M.State, op: nat, call: nat)
    requires M.Enabled(m, M.Register(op, call))
    ensures
      var o, t := m.desk.ops[op], M.RegisterStep(m, op, call);
      || t.heap == m.heap
      || t.heap == m.heap[call := Call.NewInbound(o.id, o.room, o.socket, o.n)]
      || t.heap == m.heap[call := Call.NewOutbound(o.id, o.room, o.socket, o.n, m.draining)]
    ensures call !in m.heap
  {
    hide Call.NewInbound, Call.NewOutbound;
  }

  lemma RegisterLinks(s: System, op: nat, call: nat, d: nat)
    requires Inv(s) && M.Enabled(s.manager, M.Register(op, call))
    ensures LinkedAfter(s, M.RegisterStep(s.manager, op, call), d)
  {
    var m, t, o := s.manager, M.RegisterStep(s.manager, op, call), s.manager.desk.ops[op];
    hide Linked, Kept, Call.NewInbound, Call.NewOutbound, M.Inv, M.RegisterStep, M.Enabled;
    RegisterAdds(m, op, call);
    if d in m.heap {
      SameCallLinks(s, t, d);
    } else {
      NewCallsLink(o.id, o.room, o.socket, o.n, m.draining);
      assert At(s.media, d).None?;
    }
  }

  lemma FinishingLinks(s: System, m: M.State, k: nat, next: Call.FinishPc, d: nat)
    requires Inv(s) && k in s.manager.heap && s.manager.heap[k].pc.Finish?
    requires m.heap == s.manager.heap[k := Call.Finishing(s.manager.heap[k], next)]
    ensures LinkedAfter(s, m, d)
  {
    assert Linked(s.manager.heap[k], At(s.media, k));
    hide Linked, Inv;
    FinishLinks(s.manager.heap[k], At(s.media, k), next);
    OneCallLinks(s, m, k, d);
  }

  lemma CallActionLinks(s: System, m: M.State, k: nat, a: Call.Action, d: nat)
    requires Inv(s) && k in s.manager.heap && CallMay(s.manager.heap[k], At(s.media, k), a)
    requires m.heap == s.manager.heap[k := Call.Step(s.manager.heap[k], a)]
    ensures LinkedAfter(s, m, d)
  {
    assert Linked(s.manager.heap[k], At(s.media, k));
    hide Linked, Inv, CallMay, Call.Step, Kept;
    CallStepLinks(s.manager.heap[k], At(s.media, k), a);
    OneCallLinks(s, m, k, d);
  }

  /** Stopping and cancelling need nothing of the transport. */
  lemma StopsMay(c: Call.Call, o: Option<T.State>)
    ensures CallMay(c, o, Call.StopBusiness)
    ensures Call.Enabled(c, Call.Cancel) ==> CallMay(c, o, Call.Cancel)
  {
  }

  lemma ManageLinks(s: System, b: M.Action, d: nat)
    requires Inv(s) && Enabled(s, Manage(b))
    ensures LinkedAfter(s, M.Step(s.manager, b), d)
  {
    hide Inv, LinkedAfter, Call.Step, Call.Enabled, CallMay, M.RegisterStep, M.DeskStep;
    var h, m := s.manager.heap, M.Step(s.manager, b);
    match b
    case Register(op, call) => RegisterLinks(s, op, call, d);
    case OnCall(k, a) => CallActionLinks(s, m, k, a, d);
    case Unregister(k) => FinishingLinks(s, m, k, Call.Uncounting, d);
    case Uncount(k) => FinishingLinks(s, m, k, Call.ClosingDone, d);
    case CloseDone(k) => FinishingLinks(s, m, k, Call.Finished, d);
    case ShutdownStop(k) =>
      StopsMay(h[k], At(s.media, k));
      CallActionLinks(s, m, k, Call.StopBusiness, d);
    case ShutdownCancel =>
      var k := s.manager.lock.cancelling.value;
      StopsMay(h[k], At(s.media, k));
      CallActionLinks(s, m, k, Call.Cancel, d);
    case _ => SameHeapLinks(s, m, d);
  }

  lemma SameHeapLinks(s: System, m: M.State, d: nat)
    requires Inv(s) && m.heap == s.manager.heap
    ensures LinkedAfter(s, m, d)
  {
    hide Inv, LinkedAfter;
    if d in m.heap {
      SameCallLinks(s, m, d);
    } else {
      AbsentLinks(s, m, d);
    }
  }

  lemma RefreshedAt(heap: map<nat, Call.Call>, media: map<nat, T.State>, d: nat)
    requires d in heap
    ensures At(Refreshed(heap, media), d) == Kept(At(media, d), heap[d])
  {
    hide Kept;
  }

  lemma ManageKeeps(s: System, b: M.Action)
    requires Inv(s) && Enabled(s, Manage(b))
    ensures Inv(Step(s, Manage(b)))
  {
    hide Linked, M.Inv, M.Step, M.Enabled, Kept;
    var m := M.Step(s.manager, b);
    M.StepKeeps(s.manager, b);
    forall d | d in m.heap ensures Linked(m.heap[d], At(Refreshed(m.heap, s.media), d)) {
      hide Refreshed;
      ManageLinks(s, b, d);
      RefreshedAt(m.heap, s.media, d);
    }
  }

  lemma MediaKeeps(s: System, call: nat, b: T.Action)
    requires Inv(s) && Enabled(s, Media(call, b))
    ensures Inv(Step(s, Media(call, b)))
  {
    hide M.Inv, T.Step, T.Reachable, LinkedTo;
    assert Linked(s.manager.heap[call], At(s.media, call));
    MediaStepLinks(s.manager.heap[call], s.media[call], b);
    var t := Step(s, Media(call, b));
    forall d | d in t.manager.heap ensures Linked(t.manager.heap[d], At(t.media, d)) {
      assert Linked(s.manager.heap[d], At(s.media, d));
    }
  }

  /** Every interleaving of the manager, its calls and their transports keeps the invariant. */
  lemma {:induction false} ExecKeeps(actions: seq<Action>)
    ensures Exec(actions).Some? ==> Inv(Exec(actions).value)
  {
    if actions == [] {
      M.InitialKeeps();
    } else {
      hide Inv, Enabled, Step;
      var init, a := actions[..|actions| - 1], actions[|actions| - 1];
      ExecKeeps(init);
      if Exec(init).Some? && Enabled(Exec(init).value, a) {
        match a
        case Manage(b) => ManageKeeps(Exec(init).value, b);
        case Media(call, b) => MediaKeeps(Exec(init).value, call, b);
      }
    }
  }

  lemma ReachableKeeps(s: System)
    requires Reachable(s)
    ensures Inv(s)
  {
    hide Inv, Exec;
    var actions :| Exec(actions) == Some(s);
    ExecKeeps(actions);
  }

  // --------------------------------------------------------------- main laws

  /**
   Under this manager a transport's success is never hollow: a call that Wait let pass, in
   particular one that is connected, has all its sessions, and they are not being closed.
   */
  lemma ConnectedCallsHaveSessions(s: System, call: nat)
    requires Reachable(s) && call in s.manager.heap && MediaUp(s.manager.heap[call].pc)
    ensures call in s.media && T.SESSIONS <= s.media[call].v.fields && s.media[call].close == T.NotClosing
  {
    hide Reachable, T.Reachable;
    ReachableKeeps(s);
    assert Linked(s.manager.heap[call], At(s.media, call));
    hide M.Inv;
  }

  /** A released call has closed everything that its transport ever created, and its socket. */
  lemma ReleasedCallsHoldNothing(s: System, call: nat)
    requires Reachable(s) && call in s.manager.heap && s.manager.heap[call].pc.Finish?
    ensures call in s.media ==> s.media[call].created - {T.Raw} <= s.media[call].shut
    ensures s.manager.heap[call].socketClosed
  {
    hide Reachable, T.Reachable;
    ReachableKeeps(s);
    var c := s.manager.heap[call];
    assert Call.Inv(c) && Linked(c, At(s.media, call));
    hide M.Inv;
    if call in s.media {
      MediaIsGone(c, s.media[call]);
    }
  }

  lemma MediaIsGone(c: Call.Call, t: T.State)
    requires c.pc.Finish? && c.g.transport != Call.Absent && LinkedTo(c, t) && T.Reachable(t)
    ensures t.created - {T.Raw} <= t.shut
  {
    if c.g.transport == Call.Closed {
      hide T.Reachable;
      T.CloseLeavesNothingOpen(t);
    } else {
      hide T.Exec;
      var actions :| T.Exec(actions) == Some(t);
      T.NothingBeforeStart(actions);
    }
  }

  /**
   When the wait group is down to zero, every ICE, DTLS and SRTP resource that any registered
   call ever created is closed, and so is every one of their sockets.
   */
  lemma ZeroMeansMediaClosed(s: System)
    requires Reachable(s) && s.manager.wg == 0
    ensures forall call :: call in s.manager.heap && s.manager.heap[call].info.registered ==>
      && s.manager.heap[call].socketClosed
      && (call in s.media ==> s.media[call].created - {T.Raw} <= s.media[call].shut)
  {
    ReachableKeeps(s);
    hide Reachable, T.Reachable;
    forall call | call in s.manager.heap && s.manager.heap[call].info.registered
      ensures s.manager.heap[call].socketClosed
      ensures call in s.media ==> s.media[call].created - {T.Raw} <= s.media[call].shut
    {
      NobodyPending(s.manager, call);
      hide Inv;
      ReleasedCallsHoldNothing(s, call);
    }
  }

  lemma NobodyPending(m: M.State, call: nat)
    requires M.Inv(m) && m.wg == 0 && call in m.heap && m.heap[call].info.registered
    ensures m.heap[call].pc.Finish?
  {
    hide M.CallsValid, M.RegistryValid, M.SocketsValid, M.OpsValid, M.DrainValid;
    assert M.PendingCalls(m) == {};
    assert call !in M.PendingCalls(m);
  }
}

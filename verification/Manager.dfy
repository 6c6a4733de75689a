/**
 The call manager (type Manager in internal/call/manager.go): Accept, Dial, Connect,
 Disconnect, Shutdown and the run goroutines of all calls, interleaved.

 Every critical section of the manager mutex is one action. Sockets are numbers with an
 owner; operations in flight, calls and sockets are unbounded in number. Dialled call
 identifiers are assumed fresh when they are registered.
 */
module Manager {
  import opened Sequences
  import Sdp
  import Call

  /** Who must close a socket: an operation in flight, a call, or nobody, since it is closed. */
  datatype Owner = ByOp(op: nat) | ByCall(call: nat) | Disposed

  /** An Accept or Dial in progress, at the points where its goroutine can be overtaken. */
  datatype Op =
    | AcceptListening(id: string, room: string)
    | AcceptBuilding(id: string, room: string, socket: nat)
    | AcceptRegistering(id: string, room: string, socket: nat, n: Sdp.Neg)
    | AcceptDiscarding(id: string, socket: nat, prior: nat)
    | DialListening(room: string)
    | DialBuilding(room: string, socket: nat)
    | DialAsking(room: string, socket: nat, n: Sdp.Neg)
    | DialRegistering(id: string, room: string, socket: nat, n: Sdp.Neg)
    | DialDraining(call: nat)

  datatype Outcome = Refused | Joined(id: string, call: nat, room: string) | Dialled(id: string, call: nat)

  /** The manager mutex between steps: only Shutdown holds it across several of them. */
  datatype Lock = Free | Draining(todo: set<nat>, cancelling: Option<nat>)

  /** Operations in flight, what finished ones returned, and who owns each socket. */
  datatype Desk = Desk(sockets: map<nat, Owner>, ops: map<nat, Op>, outcomes: map<nat, Outcome>)

  datatype State = State(
    registry: map<string, nat>, heap: map<nat, Call.Call>, draining: bool, wg: int,
    lock: Lock, snapshot: set<nat>, desk: Desk)

  const INITIAL: State := State(map[], map[], false, 0, Free, {}, Desk(map[], map[], map[]))

  datatype Action =
    | BeginAccept(op: nat, id: string, room: string)
    | BeginDial(op: nat, room: string)
    | Listen(op: nat, ok: bool, socket: nat)
    | Build(op: nat, ok: bool, n: Sdp.Neg)
    | AskMeta(op: nat, ok: bool, id: string)
    | Register(op: nat, call: nat)
    | Discard(op: nat)
    | DrainReturn(op: nat)
    | OnCall(call: nat, a: Call.Action)
    | Unregister(call: nat)
    | Uncount(call: nat)
    | CloseDone(call: nat)
    | Shutdown
    | ShutdownStop(call: nat)
    | ShutdownCancel
    | ShutdownRelease

  predicate NewOp(s: State, op: nat) { op !in s.desk.ops && op !in s.desk.outcomes }

  predicate Enabled(s: State, a: Action) {
    match a
    case BeginAccept(op, id, _) => s.lock.Free? && NewOp(s, op) && (id in s.registry ==> s.registry[id] in s.heap)
    case BeginDial(op, _) => s.lock.Free? && NewOp(s, op)
    case Listen(op, ok, socket) =>
      && op in s.desk.ops && (s.desk.ops[op].AcceptListening? || s.desk.ops[op].DialListening?)
      && (ok ==> socket !in s.desk.sockets)
    case Build(op, _, _) => op in s.desk.ops && (s.desk.ops[op].AcceptBuilding? || s.desk.ops[op].DialBuilding?)
    case AskMeta(op, _, _) => op in s.desk.ops && s.desk.ops[op].DialAsking?
    case Register(op, call) =>
      && s.lock.Free? && op in s.desk.ops && call !in s.heap
      && (|| s.desk.ops[op].AcceptRegistering?
          || (s.desk.ops[op].DialRegistering? && (s.draining || s.desk.ops[op].id !in s.registry)))
    case Discard(op) => op in s.desk.ops && s.desk.ops[op].AcceptDiscarding? && s.desk.ops[op].prior in s.heap
    case DrainReturn(op) =>
      && op in s.desk.ops && s.desk.ops[op].DialDraining?
      && s.desk.ops[op].call in s.heap && s.heap[s.desk.ops[op].call].pc.Finish?
    case OnCall(call, act) => call in s.heap && Call.Enabled(s.heap[call], act)
    case Unregister(call) =>
      s.lock.Free? && call in s.heap && s.heap[call].info.registered && s.heap[call].pc == Call.Finish(Call.Released)
    case Uncount(call) =>
      call in s.heap && s.heap[call].info.registered && s.heap[call].pc == Call.Finish(Call.Uncounting)
    case CloseDone(call) =>
      call in s.heap && s.heap[call].info.registered && s.heap[call].pc == Call.Finish(Call.ClosingDone)
    case Shutdown => s.lock.Free?
    case ShutdownStop(call) =>
      s.lock.Draining? && s.lock.cancelling.None? && call in s.lock.todo && call in s.heap
    case ShutdownCancel =>
      s.lock.Draining? && s.lock.cancelling.Some? && s.lock.cancelling.value in s.heap
      && Call.Enabled(s.heap[s.lock.cancelling.value], Call.Cancel)
    case ShutdownRelease => s.lock.Draining? && s.lock.cancelling.None? && s.lock.todo == {}
  }

  function Returning(d: Desk, op: nat, outcome: Outcome): Desk {
    d.(ops := d.ops - {op}, outcomes := d.outcomes[op := outcome])
  }

  function Continuing(d: Desk, op: nat, next: Op): Desk { d.(ops := d.ops[op := next]) }

  /** Closes the socket and returns. */
  function Disposing(d: Desk, op: nat, socket: nat, outcome: Outcome): Desk {
    Returning(d.(sockets := d.sockets[socket := Disposed]), op, outcome)
  }

  function Listening(d: Desk, op: nat, socket: nat, next: Op): Desk {
    Continuing(d, op, next).(sockets := d.sockets[socket := ByOp(op)])
  }

  function WithCall(s: State, call: nat, c: Call.Call): State { s.(heap := s.heap[call := c]) }

  /** A new call takes over the socket of the operation that made it. */
  function Adopting(d: Desk, call: nat, socket: nat): Desk { d.(sockets := d.sockets[socket := ByCall(call)]) }

  /** Puts a new call into the registry and counts it. */
  function Registering(s: State, call: nat, c: Call.Call, d: Desk): State {
    WithCall(s, call, c).(registry := s.registry[c.info.id := call], wg := s.wg + 1, desk := d)
  }

  function RegisterStep(s: State, op: nat, call: nat): State
    requires Enabled(s, Register(op, call))
  {
    var d := s.desk;
    match d.ops[op]
    case AcceptRegistering(id, room, socket, n) =>
      if id in s.registry then s.(desk := Continuing(d, op, AcceptDiscarding(id, socket, s.registry[id])))
      else
        Registering(s, call, Call.NewInbound(id, room, socket, n),
          Returning(Adopting(d, call, socket), op, Joined(id, call, room)))
    case DialRegistering(id, room, socket, n) =>
      if s.draining then
        WithCall(s, call, Call.NewOutbound(id, room, socket, n, true)).(
          desk := Continuing(Adopting(d, call, socket), op, DialDraining(call)))
      else
        Registering(s, call, Call.NewOutbound(id, room, socket, n, false),
          Returning(Adopting(d, call, socket), op, Dialled(id, call)))
    case _ => assert false; s
  }

  predicate IsDeskStep(a: Action) {
    a.BeginAccept? || a.BeginDial? || a.Listen? || a.Build? || a.AskMeta? || a.Discard? || a.DrainReturn?
  }

  function Begun(s: State, op: nat, id: Option<string>, room: string): Desk
    requires id.Some? && id.value in s.registry ==> s.registry[id.value] in s.heap
  {
    if s.draining then Returning(s.desk, op, Refused)
    else if id.None? then Continuing(s.desk, op, DialListening(room))
    else if id.value in s.registry then
      var call := s.registry[id.value];
      Returning(s.desk, op, Joined(id.value, call, s.heap[call].info.room))
    else Continuing(s.desk, op, AcceptListening(id.value, room))
  }

  /** Accept and Dial between their critical sections. */
  function DeskStep(s: State, a: Action): Desk
    requires Enabled(s, a) && IsDeskStep(a)
  {
    var d := s.desk;
    match a
    case BeginAccept(op, id, room) => Begun(s, op, Some(id), room)
    case BeginDial(op, room) => Begun(s, op, None, room)
    case Listen(op, ok, socket) =>
      if !ok then Returning(d, op, Refused) else Listening(d, op, socket, WithSocket(d.ops[op], socket))
    case Build(op, ok, n) =>
      if !ok then Disposing(d, op, d.ops[op].socket, Refused) else Continuing(d, op, WithOffer(d.ops[op], n))
    case AskMeta(op, ok, id) =>
      if !ok then Disposing(d, op, d.ops[op].socket, Refused)
      else Continuing(d, op, DialRegistering(id, d.ops[op].room, d.ops[op].socket, d.ops[op].n))
    case Discard(op) =>
      var o := d.ops[op];
      Disposing(d, op, o.socket, Joined(o.id, o.prior, s.heap[o.prior].info.room))
    case DrainReturn(op) => Returning(d, op, Refused)
  }

  function WithSocket(o: Op, socket: nat): Op
    requires o.AcceptListening? || o.DialListening?
  {
    if o.AcceptListening? then AcceptBuilding(o.id, o.room, socket) else DialBuilding(o.room, socket)
  }

  function WithOffer(o: Op, n: Sdp.Neg): Op
    requires o.AcceptBuilding? || o.DialBuilding?
  {
    if o.AcceptBuilding? then AcceptRegistering(o.id, o.room, o.socket, n) else DialAsking(o.room, o.socket, n)
  }

  function Step(s: State, a: Action): State
    requires Enabled(s, a)
  {
    match a
    case Register(op, call) => RegisterStep(s, op, call)
    case OnCall(call, act) => WithCall(s, call, Call.Step(s.heap[call], act))
    case Unregister(call) =>
      var c := s.heap[call];
      WithCall(s, call, Call.Finishing(c, Call.Uncounting)).(registry := s.registry - {c.info.id})
    case Uncount(call) => WithCall(s, call, Call.Finishing(s.heap[call], Call.ClosingDone)).(wg := s.wg - 1)
    case CloseDone(call) => WithCall(s, call, Call.Finishing(s.heap[call], Call.Finished))
    case Shutdown =>
      s.(draining := true, lock := Draining(s.registry.Values, None), snapshot := s.snapshot + s.registry.Values)
    case ShutdownStop(call) =>
      WithCall(s, call, Call.Step(s.heap[call], Call.StopBusiness)).(lock := s.lock.(cancelling := Some(call)))
    case ShutdownCancel =>
      var call := s.lock.cancelling.value;
      WithCall(s, call, Call.Step(s.heap[call], Call.Cancel)).(lock := Draining(s.lock.todo - {call}, None))
    case ShutdownRelease => s.(lock := Free)
    case _ => s.(desk := DeskStep(s, a))
  }

  /** Where a sequence of steps leads, if each of them is possible when its turn comes. */
  function Runs(s: State, actions: seq<Action>): Option<State>
    decreases |actions|
  {
    if actions == [] then Some(s)
    else if Enabled(s, actions[0]) then Runs(Step(s, actions[0]), actions[1..])
    else None
  }

  ghost predicate Reachable(s: State) { exists actions :: Runs(INITIAL, actions) == Some(s) }

  // --------------------------------------------------------------- invariants

  /** A registered call that finish has not yet deleted from the registry. */
  predicate OnRegistry(c: Call.Call) { c.info.registered && (c.pc.Finish? ==> c.pc.finish == Call.Released) }

  /** A registered call that has not yet called Done on the wait group. */
  predicate Pending(c: Call.Call) {
    c.info.registered && (c.pc.Finish? ==> c.pc.finish == Call.Released || c.pc.finish == Call.Uncounting)
  }

  ghost predicate CallsValid(s: State) { forall c :: c in s.heap ==> Call.Inv(s.heap[c]) }

  ghost predicate RegistryValid(s: State) {
    && (forall id :: id in s.registry ==> Holds(s, id, s.registry[id]))
    && (forall c :: c in s.heap && OnRegistry(s.heap[c]) ==>
          s.heap[c].info.id in s.registry && s.registry[s.heap[c].info.id] == c)
  }

  predicate Holds(s: State, id: string, c: nat) {
    c in s.heap && OnRegistry(s.heap[c]) && s.heap[c].info.id == id
  }

  function PendingCalls(s: State): set<nat> { set c | c in s.heap && Pending(s.heap[c]) }

  ghost predicate CountValid(s: State) { s.wg == |PendingCalls(s)| }

  function OpSocket(o: Op): Option<nat> {
    match o
    case AcceptBuilding(_, _, k) => Some(k)
    case AcceptRegistering(_, _, k, _) => Some(k)
    case AcceptDiscarding(_, k, _) => Some(k)
    case DialBuilding(_, k) => Some(k)
    case DialAsking(_, k, _) => Some(k)
    case DialRegistering(_, _, k, _) => Some(k)
    case _ => None
  }

  /** Each socket has one owner, and each owner knows its socket. */
  ghost predicate SocketsValid(s: State) {
    && (forall k :: k in s.desk.sockets ==> OwnerKnows(s, k))
    && (forall o :: o in s.desk.ops && OpSocket(s.desk.ops[o]).Some? ==>
          OpSocket(s.desk.ops[o]).value in s.desk.sockets && s.desk.sockets[OpSocket(s.desk.ops[o]).value] == ByOp(o))
    && (forall c :: c in s.heap ==>
          s.heap[c].info.socket in s.desk.sockets && s.desk.sockets[s.heap[c].info.socket] == ByCall(c))
  }

  predicate OwnerKnows(s: State, k: nat)
    requires k in s.desk.sockets
  {
    match s.desk.sockets[k]
    case ByOp(o) => o in s.desk.ops && OpSocket(s.desk.ops[o]) == Some(k)
    case ByCall(c) => c in s.heap && s.heap[c].info.socket == k
    case Disposed => true
  }

  ghost predicate OpsValid(s: State) {
    && s.desk.ops.Keys !! s.desk.outcomes.Keys
    && (forall o :: o in s.desk.ops ==> OpRefersToCall(s, s.desk.ops[o]))
    && (forall o :: o in s.desk.outcomes ==> OutcomeRefersToCall(s, s.desk.outcomes[o]))
  }

  predicate OpRefersToCall(s: State, o: Op) {
    && (o.AcceptDiscarding? ==> o.prior in s.heap && s.heap[o.prior].info.id == o.id && s.heap[o.prior].info.registered)
    && (o.DialDraining? ==> o.call in s.heap && !s.heap[o.call].info.registered)
  }

  predicate OutcomeRefersToCall(s: State, o: Outcome) {
    match o
    case Refused => true
    case Joined(id, call, room) =>
      call in s.heap && s.heap[call].info.registered && s.heap[call].info.id == id && s.heap[call].info.room == room
    case Dialled(id, call) =>
      call in s.heap && s.heap[call].info.registered && s.heap[call].info.outbound && s.heap[call].info.id == id
  }

  /** Whoever was registered when draining began is cancelled, or still on Shutdown's list. */
  ghost predicate DrainValid(s: State) {
    && (!s.draining ==> s.snapshot == {} && s.lock.Free?)
    && (forall c :: c in s.snapshot ==>
          c in s.heap && (s.heap[c].cancelled || (s.lock.Draining? && c in s.lock.todo)))
    && (s.lock.Draining? ==> s.lock.todo <= s.heap.Keys)
    && (s.lock.Draining? && s.lock.cancelling.Some? ==>
          s.lock.cancelling.value in s.lock.todo && Call.Stopped(s.heap[s.lock.cancelling.value].g.flags))
    && (s.draining ==> forall c :: c in s.heap && OnRegistry(s.heap[c]) && s.heap[c].info.outbound ==> c in s.snapshot)
  }

  ghost predicate Inv(s: State) {
    CallsValid(s) && RegistryValid(s) && CountValid(s) && SocketsValid(s) && OpsValid(s) && DrainValid(s)
  }

  // ----------------------------------------------- steps that change one call

  /** What the manager needs to know about a step of one call. */
  predicate Evolves(c: Call.Call, d: Call.Call) {
    && d.info == c.info
    && (c.cancelled ==> d.cancelled)
    && (Call.Stopped(c.g.flags) ==> Call.Stopped(d.g.flags))
    && (OnRegistry(d) <==> OnRegistry(c))
    && (Pending(d) <==> Pending(c))
  }

  /** `t` differs from `s` in call `call`, and possibly in fields that do not matter. */
  predicate Updates(s: State, t: State, call: nat, c: Call.Call) {
    call in s.heap && t.heap == s.heap[call := c] && c.info == s.heap[call].info
  }

  lemma UpdateKeepsCalls(s: State, t: State, call: nat, c: Call.Call)
    requires Updates(s, t, call, c) && CallsValid(s) && Call.Inv(c)
    ensures CallsValid(t)
  {
    hide Call.Inv;
  }

  lemma UpdateKeepsRegistry(s: State, t: State, call: nat, c: Call.Call)
    requires Updates(s, t, call, c) && t.registry == s.registry && (OnRegistry(c) <==> OnRegistry(s.heap[call]))
    requires RegistryValid(s)
    ensures RegistryValid(t)
  {
    hide OnRegistry;
    forall id | id in s.registry ensures Holds(t, id, s.registry[id]) {
      assert Holds(s, id, s.registry[id]);
    }
  }

  lemma UpdateKeepsCount(s: State, t: State, call: nat, c: Call.Call)
    requires Updates(s, t, call, c) && t.wg == s.wg && (Pending(c) <==> Pending(s.heap[call]))
    requires CountValid(s)
    ensures CountValid(t)
  {
    hide Pending;
    assert PendingCalls(t) == PendingCalls(s);
  }

  lemma UpdateKeepsSockets(s: State, t: State, call: nat, c: Call.Call)
    requires Updates(s, t, call, c) && t.desk.sockets == s.desk.sockets && t.desk.ops == s.desk.ops
    requires SocketsValid(s)
    ensures SocketsValid(t)
  {
    hide OpSocket;
    forall k | k in s.desk.sockets ensures OwnerKnows(t, k) {
      assert OwnerKnows(s, k);
    }
  }

  lemma UpdateKeepsOps(s: State, t: State, call: nat, c: Call.Call)
    requires Updates(s, t, call, c) && t.desk.ops == s.desk.ops && t.desk.outcomes == s.desk.outcomes
    requires OpsValid(s)
    ensures OpsValid(t)
  {
    forall o | o in s.desk.ops ensures OpRefersToCall(t, s.desk.ops[o]) {
      assert OpRefersToCall(s, s.desk.ops[o]);
    }
    forall o | o in s.desk.outcomes ensures OutcomeRefersToCall(t, s.desk.outcomes[o]) {
      assert OutcomeRefersToCall(s, s.desk.outcomes[o]);
    }
  }

  lemma UpdateKeepsDrain(s: State, t: State, call: nat, c: Call.Call)
    requires Updates(s, t, call, c) && t.draining == s.draining && t.snapshot == s.snapshot && t.lock == s.lock
    requires OnRegistry(c) ==> OnRegistry(s.heap[call])
    requires s.heap[call].cancelled ==> c.cancelled
    requires Call.Stopped(s.heap[call].g.flags) ==> Call.Stopped(c.g.flags)
    requires DrainValid(s)
    ensures DrainValid(t)
  {
    hide OnRegistry, Call.Stopped;
  }

  lemma UpdateKeeps(s: State, call: nat, c: Call.Call)
    requires Inv(s) && call in s.heap && Evolves(s.heap[call], c) && Call.Inv(c)
    ensures Inv(WithCall(s, call, c))
  {
    hide CallsValid, RegistryValid, CountValid, SocketsValid, OpsValid, DrainValid, Call.Inv;
    var t := WithCall(s, call, c);
    UpdateKeepsCalls(s, t, call, c);
    UpdateKeepsRegistry(s, t, call, c);
    UpdateKeepsCount(s, t, call, c);
    UpdateKeepsSockets(s, t, call, c);
    UpdateKeepsOps(s, t, call, c);
    UpdateKeepsDrain(s, t, call, c);
  }

  lemma CallStepEvolves(c: Call.Call, a: Call.Action)
    requires Call.Enabled(c, a)
    ensures Evolves(c, Call.Step(c, a))
  {
    hide Call.Step, Call.Stopped;
    Call.StepFrame(c, a);
  }

  lemma OnCallKeeps(s: State, call: nat, a: Call.Action)
    requires Inv(s) && call in s.heap && Call.Enabled(s.heap[call], a)
    ensures Inv(WithCall(s, call, Call.Step(s.heap[call], a)))
  {
    assert Call.Inv(s.heap[call]);
    hide Inv, Call.Inv, Call.Step, Call.Enabled, Evolves;
    CallStepEvolves(s.heap[call], a);
    Call.StepKeeps(s.heap[call], a);
    UpdateKeeps(s, call, Call.Step(s.heap[call], a));
  }

  // ------------------------------------------------------------- end of a call

  lemma CloseDoneKeeps(s: State, call: nat)
    requires Inv(s) && call in s.heap && s.heap[call].pc == Call.Finish(Call.ClosingDone)
    ensures Inv(WithCall(s, call, Call.Finishing(s.heap[call], Call.Finished)))
  {
    var c := s.heap[call];
    assert Call.Inv(c);
    hide Inv, Call.Inv;
    Call.FinishKeeps(c, Call.Finished);
    UpdateKeeps(s, call, Call.Finishing(c, Call.Finished));
  }

  lemma UncountKeepsCount(s: State, t: State, call: nat, c: Call.Call)
    requires Updates(s, t, call, c) && t.wg == s.wg - 1 && Pending(s.heap[call]) && !Pending(c)
    requires CountValid(s)
    ensures CountValid(t)
  {
    hide Pending;
    assert PendingCalls(t) == PendingCalls(s) - {call};
  }

  lemma UncountKeeps(s: State, call: nat)
    requires Inv(s) && call in s.heap && s.heap[call].info.registered && s.heap[call].pc == Call.Finish(Call.Uncounting)
    ensures Inv(WithCall(s, call, Call.Finishing(s.heap[call], Call.ClosingDone)).(wg := s.wg - 1))
  {
    var c := s.heap[call];
    assert Call.Inv(c);
    hide CallsValid, RegistryValid, CountValid, SocketsValid, OpsValid, DrainValid, Call.Inv;
    var d := Call.Finishing(c, Call.ClosingDone);
    var t := WithCall(s, call, d).(wg := s.wg - 1);
    Call.FinishKeeps(c, Call.ClosingDone);
    UpdateKeepsCalls(s, t, call, d);
    UpdateKeepsRegistry(s, t, call, d);
    UncountKeepsCount(s, t, call, d);
    UpdateKeepsSockets(s, t, call, d);
    UpdateKeepsOps(s, t, call, d);
    UpdateKeepsDrain(s, t, call, d);
  }

  lemma UnregisterKeepsRegistry(s: State, t: State, call: nat, d: Call.Call)
    requires Updates(s, t, call, d) && t.registry == s.registry - {d.info.id}
    requires OnRegistry(s.heap[call]) && !OnRegistry(d)
    requires RegistryValid(s)
    ensures RegistryValid(t)
  {
    hide OnRegistry;
    assert s.registry[d.info.id] == call;
    forall id | id in t.registry ensures Holds(t, id, t.registry[id]) {
      assert Holds(s, id, s.registry[id]);
    }
  }

  lemma UnregisterKeeps(s: State, call: nat)
    requires Inv(s) && call in s.heap && s.heap[call].info.registered && s.heap[call].pc == Call.Finish(Call.Released)
    ensures
      var d := Call.Finishing(s.heap[call], Call.Uncounting);
      Inv(WithCall(s, call, d).(registry := s.registry - {d.info.id}))
  {
    var c := s.heap[call];
    assert Call.Inv(c);
    hide CallsValid, RegistryValid, CountValid, SocketsValid, OpsValid, DrainValid, Call.Inv;
    var d := Call.Finishing(c, Call.Uncounting);
    var t := WithCall(s, call, d).(registry := s.registry - {d.info.id});
    Call.FinishKeeps(c, Call.Uncounting);
    UpdateKeepsCalls(s, t, call, d);
    UnregisterKeepsRegistry(s, t, call, d);
    UpdateKeepsCount(s, t, call, d);
    UpdateKeepsSockets(s, t, call, d);
    UpdateKeepsOps(s, t, call, d);
    UpdateKeepsDrain(s, t, call, d);
  }

  // ------------------------------------------------------------------ Shutdown

  lemma ShutdownKeeps(s: State)
    requires Inv(s) && s.lock.Free?
    ensures Inv(Step(s, Shutdown))
  {
    hide CallsValid, CountValid, SocketsValid, OpsValid;
    var t := Step(s, Shutdown);
    SameExceptDrain(s, t);
    forall c | c in s.registry.Values ensures c in s.heap {
      var id :| id in s.registry && s.registry[id] == c;
      assert Holds(s, id, c);
    }
    forall c | c in t.heap && OnRegistry(t.heap[c]) && t.heap[c].info.outbound ensures c in t.snapshot {
      assert s.registry[s.heap[c].info.id] == c;
    }
  }

  lemma SameExceptDrain(s: State, t: State)
    requires t == s.(draining := t.draining, lock := t.lock, snapshot := t.snapshot)
    ensures CallsValid(s) ==> CallsValid(t)
    ensures RegistryValid(s) ==> RegistryValid(t)
    ensures CountValid(s) ==> CountValid(t)
    ensures SocketsValid(s) ==> SocketsValid(t)
    ensures OpsValid(s) ==> OpsValid(t)
  {
    hide Call.Inv, OnRegistry, OpSocket;
    assert PendingCalls(s) == PendingCalls(t);
    assert forall id, c :: Holds(s, id, c) == Holds(t, id, c);
    assert forall k :: k in s.desk.sockets ==> OwnerKnows(s, k) == OwnerKnows(t, k);
    assert forall o :: OpRefersToCall(s, o) == OpRefersToCall(t, o);
    assert forall o :: OutcomeRefersToCall(s, o) == OutcomeRefersToCall(t, o);
  }

  lemma ShutdownStopKeeps(s: State, call: nat)
    requires Inv(s) && Enabled(s, ShutdownStop(call))
    ensures Inv(Step(s, ShutdownStop(call)))
  {
    hide CallsValid, RegistryValid, CountValid, SocketsValid, OpsValid, Call.Inv;
    var u := WithCall(s, call, Call.Step(s.heap[call], Call.StopBusiness));
    OnCallKeeps(s, call, Call.StopBusiness);
    SameExceptDrain(u, Step(s, ShutdownStop(call)));
  }

  lemma ShutdownCancelKeeps(s: State)
    requires Inv(s) && Enabled(s, ShutdownCancel)
    ensures Inv(Step(s, ShutdownCancel))
  {
    hide CallsValid, RegistryValid, CountValid, SocketsValid, OpsValid, Call.Inv;
    var call := s.lock.cancelling.value;
    var u := WithCall(s, call, Call.Step(s.heap[call], Call.Cancel));
    OnCallKeeps(s, call, Call.Cancel);
    SameExceptDrain(u, Step(s, ShutdownCancel));
  }

  lemma ShutdownReleaseKeeps(s: State)
    requires Inv(s) && Enabled(s, ShutdownRelease)
    ensures Inv(Step(s, ShutdownRelease))
  {
    hide CallsValid, RegistryValid, CountValid, SocketsValid, OpsValid, Call.Inv;
    SameExceptDrain(s, Step(s, ShutdownRelease));
  }

  // --------------------------------------------------------- Accept and Dial

  lemma SameExceptDesk(s: State, d: Desk)
    ensures CallsValid(s) ==> CallsValid(s.(desk := d))
    ensures RegistryValid(s) ==> RegistryValid(s.(desk := d))
    ensures CountValid(s) ==> CountValid(s.(desk := d))
    ensures DrainValid(s) ==> DrainValid(s.(desk := d))
  {
    hide Call.Inv, OnRegistry, Call.Stopped;
    var t := s.(desk := d);
    assert PendingCalls(s) == PendingCalls(t);
    assert forall id, c :: Holds(s, id, c) == Holds(t, id, c);
  }

  /** The sockets and operations are in order. */
  ghost predicate DeskValid(s: State) { SocketsValid(s) && OpsValid(s) }

  /** Replacing an operation's state, while its socket stays the same. */
  lemma ContinuingKeeps(s: State, op: nat, next: Op)
    requires DeskValid(s) && op !in s.desk.outcomes && OpRefersToCall(s, next)
    requires if op in s.desk.ops then OpSocket(next) == OpSocket(s.desk.ops[op]) else OpSocket(next).None?
    ensures DeskValid(s.(desk := Continuing(s.desk, op, next)))
  {
    hide OpSocket;
    var t := s.(desk := Continuing(s.desk, op, next));
    forall k | k in t.desk.sockets ensures OwnerKnows(t, k) {
      assert OwnerKnows(s, k);
    }
    forall o | o in t.desk.ops ensures OpRefersToCall(t, t.desk.ops[o]) {
      assert o != op ==> OpRefersToCall(s, s.desk.ops[o]);
    }
    assert forall o :: OutcomeRefersToCall(s, o) == OutcomeRefersToCall(t, o);
  }

  /** An operation without a socket returns. */
  lemma ReturningKeeps(s: State, op: nat, outcome: Outcome)
    requires DeskValid(s) && op !in s.desk.outcomes && OutcomeRefersToCall(s, outcome)
    requires op in s.desk.ops ==> OpSocket(s.desk.ops[op]).None?
    ensures DeskValid(s.(desk := Returning(s.desk, op, outcome)))
  {
    hide OpSocket;
    var t := s.(desk := Returning(s.desk, op, outcome));
    forall k | k in t.desk.sockets ensures OwnerKnows(t, k) {
      assert OwnerKnows(s, k);
    }
    forall o | o in t.desk.ops ensures OpRefersToCall(t, t.desk.ops[o]) {
      assert OpRefersToCall(s, s.desk.ops[o]);
    }
    forall o | o in t.desk.outcomes ensures OutcomeRefersToCall(t, t.desk.outcomes[o]) {
      assert o != op ==> OutcomeRefersToCall(s, s.desk.outcomes[o]);
    }
  }

  /** An operation closes its socket and returns. */
  lemma DisposingKeeps(s: State, op: nat, socket: nat, outcome: Outcome)
    requires DeskValid(s) && OutcomeRefersToCall(s, outcome)
    requires op in s.desk.ops && OpSocket(s.desk.ops[op]) == Some(socket)
    ensures DeskValid(s.(desk := Disposing(s.desk, op, socket, outcome)))
  {
    hide OpSocket;
    var t := s.(desk := Disposing(s.desk, op, socket, outcome));
    assert s.desk.sockets[socket] == ByOp(op);
    forall k | k in t.desk.sockets ensures OwnerKnows(t, k) {
      if k != socket {
        assert OwnerKnows(s, k);
      }
    }
    forall o | o in t.desk.ops ensures OpRefersToCall(t, t.desk.ops[o]) {
      assert OpRefersToCall(s, s.desk.ops[o]);
    }
    forall o | o in t.desk.outcomes ensures OutcomeRefersToCall(t, t.desk.outcomes[o]) {
      assert o != op ==> OutcomeRefersToCall(s, s.desk.outcomes[o]);
    }
  }

  /** An operation obtains a socket that nobody had. */
  lemma ListeningKeeps(s: State, op: nat, socket: nat, next: Op)
    requires DeskValid(s) && op in s.desk.ops && OpSocket(s.desk.ops[op]).None? && socket !in s.desk.sockets
    requires OpSocket(next) == Some(socket) && OpRefersToCall(s, next)
    ensures DeskValid(s.(desk := Listening(s.desk, op, socket, next)))
  {
    hide OpSocket;
    var t := s.(desk := Listening(s.desk, op, socket, next));
    forall k | k in t.desk.sockets ensures OwnerKnows(t, k) {
      if k != socket {
        assert OwnerKnows(s, k);
      }
    }
    forall o | o in t.desk.ops ensures OpRefersToCall(t, t.desk.ops[o]) {
      assert o != op ==> OpRefersToCall(s, s.desk.ops[o]);
    }
    assert forall o :: OutcomeRefersToCall(s, o) == OutcomeRefersToCall(t, o);
  }

  lemma BegunKeeps(s: State, op: nat, id: Option<string>, room: string)
    requires DeskValid(s) && RegistryValid(s) && NewOp(s, op)
    requires id.Some? && id.value in s.registry ==> s.registry[id.value] in s.heap
    ensures DeskValid(s.(desk := Begun(s, op, id, room)))
  {
    if s.draining {
      ReturningKeeps(s, op, Refused);
    } else if id.None? {
      ContinuingKeeps(s, op, DialListening(room));
    } else if id.value in s.registry {
      var call := s.registry[id.value];
      assert Holds(s, id.value, call);
      hide DeskValid, RegistryValid;
      ReturningKeeps(s, op, Joined(id.value, call, s.heap[call].info.room));
    } else {
      ContinuingKeeps(s, op, AcceptListening(id.value, room));
    }
  }

  /** An operation in flight has not returned, and what it refers to exists. */
  lemma InFlight(s: State, op: nat)
    requires DeskValid(s) && op in s.desk.ops
    ensures op !in s.desk.outcomes && OpRefersToCall(s, s.desk.ops[op])
  {
  }

  lemma DeskStepKeepsDesk(s: State, a: Action)
    requires DeskValid(s) && RegistryValid(s) && Enabled(s, a) && IsDeskStep(a)
    ensures DeskValid(s.(desk := DeskStep(s, a)))
  {
    hide DeskValid, RegistryValid, Begun;
    var d := s.desk;
    match a
    case BeginAccept(op, id, room) => BegunKeeps(s, op, Some(id), room);
    case BeginDial(op, room) => BegunKeeps(s, op, None, room);
    case Listen(op, ok, socket) =>
      InFlight(s, op);
      if ok {
        ListeningKeeps(s, op, socket, WithSocket(d.ops[op], socket));
      } else {
        ReturningKeeps(s, op, Refused);
      }
    case Build(op, ok, n) =>
      InFlight(s, op);
      if ok {
        ContinuingKeeps(s, op, WithOffer(d.ops[op], n));
      } else {
        DisposingKeeps(s, op, d.ops[op].socket, Refused);
      }
    case AskMeta(op, ok, id) =>
      InFlight(s, op);
      if ok {
        ContinuingKeeps(s, op, DialRegistering(id, d.ops[op].room, d.ops[op].socket, d.ops[op].n));
      } else {
        DisposingKeeps(s, op, d.ops[op].socket, Refused);
      }
    case Discard(op) =>
      InFlight(s, op);
      var o := d.ops[op];
      DisposingKeeps(s, op, o.socket, Joined(o.id, o.prior, s.heap[o.prior].info.room));
    case DrainReturn(op) =>
      InFlight(s, op);
      ReturningKeeps(s, op, Refused);
  }

  lemma DeskStepKeeps(s: State, a: Action)
    requires Inv(s) && Enabled(s, a) && IsDeskStep(a)
    ensures Inv(s.(desk := DeskStep(s, a)))
  {
    hide CallsValid, RegistryValid, CountValid, SocketsValid, OpsValid, DrainValid, DeskStep;
    DeskStepKeepsDesk(s, a);
    SameExceptDesk(s, DeskStep(s, a));
  }

  // --------------------------------------------------------------- new calls

  /** `t` has the new call `call`, and the operation `op` no longer has the socket. */
  predicate Adds(s: State, t: State, op: nat, call: nat, c: Call.Call) {
    && call !in s.heap && t.heap == s.heap[call := c]
    && op in s.desk.ops && OpSocket(s.desk.ops[op]) == Some(c.info.socket)
    && t.desk.sockets == s.desk.sockets[c.info.socket := ByCall(call)]
  }

  lemma AddKeepsCalls(s: State, t: State, op: nat, call: nat, c: Call.Call)
    requires Adds(s, t, op, call, c) && CallsValid(s) && Call.Inv(c)
    ensures CallsValid(t)
  {
    hide Call.Inv;
  }

  lemma AddKeepsRegistry(s: State, t: State, op: nat, call: nat, c: Call.Call)
    requires Adds(s, t, op, call, c) && RegistryValid(s)
    requires
      if OnRegistry(c) then c.info.id !in s.registry && t.registry == s.registry[c.info.id := call]
      else t.registry == s.registry
    ensures RegistryValid(t)
  {
    hide OnRegistry;
    forall id | id in t.registry ensures Holds(t, id, t.registry[id]) {
      if id in s.registry {
        assert Holds(s, id, s.registry[id]);
      }
    }
  }

  lemma AddKeepsCount(s: State, t: State, op: nat, call: nat, c: Call.Call)
    requires Adds(s, t, op, call, c) && CountValid(s) && t.wg == s.wg + if Pending(c) then 1 else 0
    ensures CountValid(t)
  {
    hide Pending;
    assert PendingCalls(t) == PendingCalls(s) + if Pending(c) then {call} else {};
  }

  /** Only the operation `op` moved on, and it no longer has a socket. */
  predicate OthersStay(d: Desk, e: Desk, op: nat) {
    && (e.ops.Keys - {op} == d.ops.Keys - {op})
    && (forall o :: o in e.ops && o != op ==> o in d.ops && e.ops[o] == d.ops[o])
    && (op in e.ops ==> OpSocket(e.ops[op]).None?)
  }

  lemma AddKeepsSockets(s: State, t: State, op: nat, call: nat, c: Call.Call)
    requires Adds(s, t, op, call, c) && SocketsValid(s) && OthersStay(s.desk, t.desk, op)
    ensures SocketsValid(t)
  {
    hide OpSocket;
    forall k | k in t.desk.sockets ensures OwnerKnows(t, k) {
      if k != c.info.socket {
        assert OwnerKnows(s, k);
        if t.desk.sockets[k].ByOp? {
          var o := t.desk.sockets[k].op;
          assert o != op;
          assert o in s.desk.ops.Keys - {op};
        }
      }
    }
    forall o | o in t.desk.ops && OpSocket(t.desk.ops[o]).Some?
      ensures OpSocket(t.desk.ops[o]).value in t.desk.sockets
      ensures t.desk.sockets[OpSocket(t.desk.ops[o]).value] == ByOp(o)
    {
      assert o in t.desk.ops.Keys - {op};
    }
  }

  lemma AddKeepsOps(s: State, t: State, op: nat, call: nat, c: Call.Call)
    requires Adds(s, t, op, call, c) && OpsValid(s)
    requires t.desk.ops.Keys !! t.desk.outcomes.Keys
    requires forall o :: o in t.desk.ops ==>
      OpRefersToCall(t, t.desk.ops[o]) || (o in s.desk.ops && t.desk.ops[o] == s.desk.ops[o])
    requires forall o :: o in t.desk.outcomes ==>
      OutcomeRefersToCall(t, t.desk.outcomes[o]) || (o in s.desk.outcomes && t.desk.outcomes[o] == s.desk.outcomes[o])
    ensures OpsValid(t)
  {
    forall o | o in t.desk.ops ensures OpRefersToCall(t, t.desk.ops[o]) {
      assert o in s.desk.ops ==> OpRefersToCall(s, s.desk.ops[o]);
    }
    forall o | o in t.desk.outcomes ensures OutcomeRefersToCall(t, t.desk.outcomes[o]) {
      assert o in s.desk.outcomes ==> OutcomeRefersToCall(s, s.desk.outcomes[o]);
    }
  }

  lemma AddKeepsDrain(s: State, t: State, op: nat, call: nat, c: Call.Call)
    requires Adds(s, t, op, call, c) && DrainValid(s)
    requires t.draining == s.draining && t.snapshot == s.snapshot && t.lock == s.lock
    requires s.draining ==> !OnRegistry(c) || !c.info.outbound
    ensures DrainValid(t)
  {
    hide OnRegistry, Call.Stopped;
  }

  lemma RegisteringKeeps(s: State, op: nat, call: nat, c: Call.Call, outcome: Outcome)
    requires Inv(s) && call !in s.heap && Call.Inv(c) && c.info.registered && c.pc.Setup?
    requires op in s.desk.ops && OpSocket(s.desk.ops[op]) == Some(c.info.socket) && c.info.id !in s.registry
    requires s.draining ==> !c.info.outbound
    requires
      || outcome == Joined(c.info.id, call, c.info.room)
      || (outcome == Dialled(c.info.id, call) && c.info.outbound)
    ensures Inv(Registering(s, call, c, Returning(Adopting(s.desk, call, c.info.socket), op, outcome)))
  {
    hide CallsValid, RegistryValid, CountValid, SocketsValid, DrainValid, Call.Inv, OpSocket;
    var t := Registering(s, call, c, Returning(Adopting(s.desk, call, c.info.socket), op, outcome));
    AddKeepsCalls(s, t, op, call, c);
    AddKeepsRegistry(s, t, op, call, c);
    AddKeepsCount(s, t, op, call, c);
    AddKeepsSockets(s, t, op, call, c);
    assert OutcomeRefersToCall(t, outcome);
    AddKeepsOps(s, t, op, call, c);
    AddKeepsDrain(s, t, op, call, c);
  }

  lemma DrainedDialKeeps(s: State, op: nat, call: nat, c: Call.Call)
    requires Inv(s) && call !in s.heap && Call.Inv(c) && !c.info.registered
    requires op in s.desk.ops && OpSocket(s.desk.ops[op]) == Some(c.info.socket)
    ensures
      var d := Continuing(Adopting(s.desk, call, c.info.socket), op, DialDraining(call));
      Inv(WithCall(s, call, c).(desk := d))
  {
    hide CallsValid, RegistryValid, CountValid, SocketsValid, DrainValid, Call.Inv;
    var t := WithCall(s, call, c).(desk := Continuing(Adopting(s.desk, call, c.info.socket), op, DialDraining(call)));
    AddKeepsCalls(s, t, op, call, c);
    AddKeepsRegistry(s, t, op, call, c);
    AddKeepsCount(s, t, op, call, c);
    AddKeepsSockets(s, t, op, call, c);
    AddKeepsOps(s, t, op, call, c);
    AddKeepsDrain(s, t, op, call, c);
  }

  lemma DuplicateKeeps(s: State, op: nat, id: string, socket: nat)
    requires Inv(s) && op in s.desk.ops && OpSocket(s.desk.ops[op]) == Some(socket) && id in s.registry
    ensures Inv(s.(desk := Continuing(s.desk, op, AcceptDiscarding(id, socket, s.registry[id]))))
  {
    var next := AcceptDiscarding(id, socket, s.registry[id]);
    assert Holds(s, id, s.registry[id]);
    InFlight(s, op);
    hide CallsValid, RegistryValid, CountValid, SocketsValid, OpsValid, DrainValid;
    ContinuingKeeps(s, op, next);
    SameExceptDesk(s, Continuing(s.desk, op, next));
  }

  lemma RegisterKeeps(s: State, op: nat, call: nat)
    requires Inv(s) && Enabled(s, Register(op, call))
    ensures Inv(RegisterStep(s, op, call))
  {
    hide Inv, Call.Inv;
    match s.desk.ops[op]
    case AcceptRegistering(id, room, socket, n) =>
      if id in s.registry {
        DuplicateKeeps(s, op, id, socket);
      } else {
        Call.NewCallsAreValid(id, room, socket, n, false);
        RegisteringKeeps(s, op, call, Call.NewInbound(id, room, socket, n), Joined(id, call, room));
      }
    case DialRegistering(id, room, socket, n) =>
      Call.NewCallsAreValid(id, room, socket, n, s.draining);
      if s.draining {
        DrainedDialKeeps(s, op, call, Call.NewOutbound(id, room, socket, n, true));
      } else {
        RegisteringKeeps(s, op, call, Call.NewOutbound(id, room, socket, n, false), Dialled(id, call));
      }
    case _ => assert false;
  }

  // --------------------------------------------------------------- whole runs

  lemma StepKeeps(s: State, a: Action)
    requires Inv(s) && Enabled(s, a)
    ensures Inv(Step(s, a))
  {
    hide Inv, RegisterStep, DeskStep, Call.Step, Call.Enabled, Call.Inv;
    match a
    case Register(op, call) => RegisterKeeps(s, op, call);
    case OnCall(call, act) => OnCallKeeps(s, call, act);
    case Unregister(call) => UnregisterKeeps(s, call);
    case Uncount(call) => UncountKeeps(s, call);
    case CloseDone(call) => CloseDoneKeeps(s, call);
    case Shutdown => ShutdownKeeps(s);
    case ShutdownStop(call) => ShutdownStopKeeps(s, call);
    case ShutdownCancel => ShutdownCancelKeeps(s);
    case ShutdownRelease => ShutdownReleaseKeeps(s);
    case _ => DeskStepKeeps(s, a);
  }

  /** Every run of the manager keeps the invariant. */
  lemma {:induction false} RunKeeps(s: State, actions: seq<Action>)
    requires Inv(s)
    ensures Runs(s, actions).Some? ==> Inv(Runs(s, actions).value)
    decreases |actions|
  {
    hide Inv, Step, Enabled;
    if actions != [] && Enabled(s, actions[0]) {
      StepKeeps(s, actions[0]);
      RunKeeps(Step(s, actions[0]), actions[1..]);
    }
  }

  lemma RunsFirst(s: State, a: Action, rest: seq<Action>)
    requires Enabled(s, a)
    ensures Runs(s, [a] + rest) == Runs(Step(s, a), rest)
  {
    hide Enabled, Step;
    assert ([a] + rest)[1..] == rest;
  }

  lemma {:induction false} RunsAppend(s: State, first: seq<Action>, rest: seq<Action>)
    requires Runs(s, first).Some?
    ensures Runs(s, first + rest) == Runs(Runs(s, first).value, rest)
    decreases |first|
  {
    hide Enabled, Step;
    if first == [] {
      assert first + rest == rest;
    } else {
      RunsAppend(Step(s, first[0]), first[1..], rest);
      assert (first + rest)[1..] == first[1..] + rest;
    }
  }

  lemma InitialKeeps()
    ensures Inv(INITIAL)
  {
    assert PendingCalls(INITIAL) == {};
  }

  lemma ReachableKeeps(s: State)
    requires Reachable(s)
    ensures Inv(s)
  {
    hide Inv, Runs;
    var actions :| Runs(INITIAL, actions) == Some(s);
    InitialKeeps();
    RunKeeps(INITIAL, actions);
  }

  lemma ReachableOnwards(s: State, actions: seq<Action>)
    requires Reachable(s) && Runs(s, actions).Some?
    ensures Reachable(Runs(s, actions).value)
  {
    hide Runs;
    var first :| Runs(INITIAL, first) == Some(s);
    RunsAppend(INITIAL, first, actions);
  }

  // ------------------------------------------------------- laws of every state

  /**
   In every reachable state each registry key names a call with that identifier, which is
   the only live call with it, and the wait group counts the registered calls that have not
   called Done, so it is never less than the registry's size.
   */
  lemma RegistryIsFaithful(s: State)
    requires Reachable(s)
    ensures forall id :: id in s.registry ==>
      s.registry[id] in s.heap && s.heap[s.registry[id]].info.registered && s.heap[s.registry[id]].info.id == id
    ensures forall c, d ::
      (&& c in s.heap && d in s.heap && OnRegistry(s.heap[c]) && OnRegistry(s.heap[d])
       && s.heap[c].info.id == s.heap[d].info.id) ==>
        c == d
    ensures s.wg == |PendingCalls(s)| && |s.registry| <= s.wg
  {
    ReachableKeeps(s);
    hide CallsValid, SocketsValid, OpsValid, DrainValid;
    forall id | id in s.registry
      ensures s.registry[id] in s.heap && s.heap[s.registry[id]].info.registered && s.heap[s.registry[id]].info.id == id
      ensures s.registry[id] in PendingCalls(s)
    {
      assert Holds(s, id, s.registry[id]);
    }
    DistinctValues(s.registry, PendingCalls(s));
  }

  /** A map without repeated values is no larger than a set that holds them all. */
  lemma {:induction false} DistinctValues(m: map<string, nat>, values: set<nat>)
    requires forall id :: id in m ==> m[id] in values
    requires forall i, j :: i in m && j in m && m[i] == m[j] ==> i == j
    ensures |m| <= |values|
  {
    if m != map[] {
      var id :| id in m;
      DistinctValues(m - {id}, values - {m[id]});
      assert m.Keys == (m - {id}).Keys + {id};
    }
  }

  /**
   When the wait group is down to zero, which is when Shutdown returns without error, the
   registry is empty and every registered call has reported its verdict, taken its decision
   whether to ask Meta to terminate, and closed its socket.
   */
  lemma ZeroMeansReleased(s: State)
    requires Reachable(s) && s.wg == 0
    ensures s.registry == map[]
    ensures forall c :: c in s.heap && s.heap[c].info.registered ==>
      s.heap[c].socketClosed && Call.WaitResult(s.heap[c]).Some? && Call.PastTerminating(s.heap[c].pc)
  {
    ReachableKeeps(s);
    RegistryIsFaithful(s);
    hide RegistryValid, SocketsValid, OpsValid, DrainValid;
    forall c | c in s.heap && s.heap[c].info.registered
      ensures s.heap[c].socketClosed && Call.WaitResult(s.heap[c]).Some? && Call.PastTerminating(s.heap[c].pc)
    {
      assert c !in PendingCalls(s);
      assert Call.Inv(s.heap[c]);
      Call.WaitersLearnTheTruth(s.heap[c]);
    }
  }

  /** Every call that ever existed obeys the laws of Call in every reachable state. */
  lemma EveryCallObeysItsLaws(s: State, call: nat)
    requires Reachable(s) && call in s.heap
    ensures
      var c := s.heap[call];
      && c.terminateRequests <= 1
      && (c.pc == Call.Cleanup(Call.Reading) ==> c.g.flags.terminate != c.g.flags.userTerminated)
      && (Call.PastTerminating(c.pc) ==>
            c.seen.Some? && (c.terminateRequests == 1 <==> c.seen.value.signaled && !c.seen.value.userTerminated))
      && (Call.WaitResult(c) == Some(Call.Success) <==> c.reached)
      && (c.pc.Finish? ==> Call.WaitResult(c).Some? && !c.bridgeOpen)
      && (c.info.outbound ==> c.g.answerCloses <= 1 && (c.g.answerCloses == 1 <==> c.g.transport != Call.Absent))
  {
    ReachableKeeps(s);
    var c := s.heap[call];
    assert Call.Inv(c);
    hide Inv, Call.Inv, Call.PastTerminating;
    Call.TerminateIsDecidedOnce(c);
    Call.WaitersLearnTheTruth(c);
    Call.BridgeIsReleased(c);
    if c.info.outbound {
      Call.AnswerDecidesTransport(c);
    }
  }

  /** The socket is closed: by the operation that opened it, or by its call's cleanup. */
  predicate SocketClosed(s: State, k: nat) {
    && k in s.desk.sockets
    && match s.desk.sockets[k]
       case ByOp(_) => false
       case ByCall(c) => c in s.heap && s.heap[c].socketClosed
       case Disposed => true
  }

  /**
   A socket that is not closed belongs to one operation still in flight or to one call still
   before the end of its cleanup; so when there are none of either, nothing leaks.
   */
  lemma SocketsAreConserved(s: State, k: nat)
    requires Reachable(s) && k in s.desk.sockets
    ensures SocketClosed(s, k) ||
      match s.desk.sockets[k]
      case ByOp(o) => o in s.desk.ops && OpSocket(s.desk.ops[o]) == Some(k)
      case ByCall(c) => c in s.heap && s.heap[c].info.socket == k && !s.heap[c].pc.Finish?
      case Disposed => false
  {
    ReachableKeeps(s);
    hide RegistryValid, CountValid, OpsValid, DrainValid, OpSocket;
    assert OwnerKnows(s, k);
    if s.desk.sockets[k].ByCall? {
      assert Call.Inv(s.heap[s.desk.sockets[k].call]);
    }
  }

  /** No two calls share a socket, and no call shares one with an operation. */
  lemma SocketsAreNotShared(s: State, c: nat)
    requires Reachable(s) && c in s.heap
    ensures forall d :: d in s.heap && s.heap[d].info.socket == s.heap[c].info.socket ==> d == c
    ensures forall o :: o in s.desk.ops ==> OpSocket(s.desk.ops[o]) != Some(s.heap[c].info.socket)
  {
    ReachableKeeps(s);
    hide CallsValid, RegistryValid, CountValid, OpsValid, DrainValid, OpSocket;
  }

  lemma NothingLeaks(s: State)
    requires Reachable(s) && s.desk.ops == map[] && (forall c :: c in s.heap ==> s.heap[c].pc.Finish?)
    ensures forall k :: k in s.desk.sockets ==> SocketClosed(s, k)
  {
    forall k | k in s.desk.sockets ensures SocketClosed(s, k) {
      hide Reachable;
      SocketsAreConserved(s, k);
    }
  }

  /** The socket an operation answers for. */
  function Held(s: State, op: nat): Option<nat>
    requires op in s.desk.ops
  {
    var o := s.desk.ops[op];
    if o.DialDraining? then if o.call in s.heap then Some(s.heap[o.call].info.socket) else None
    else OpSocket(o)
  }

  /** The socket belongs to a call that is in the registry. */
  predicate OwnedByRegistered(s: State, k: nat) {
    && k in s.desk.sockets && s.desk.sockets[k].ByCall?
    && var c := s.desk.sockets[k].call;
       c in s.heap && s.heap[c].info.id in s.registry && s.registry[s.heap[c].info.id] == c
  }

  predicate IsOpStep(a: Action) { a.Listen? || a.Build? || a.AskMeta? || a.Register? || a.Discard? || a.DrainReturn? }

  /** An operation returns by its own steps only. */
  lemma OnlyOwnStepsReturn(s: State, a: Action, op: nat)
    requires Enabled(s, a) && op in s.desk.ops && op !in Step(s, a).desk.ops
    ensures IsOpStep(a) && a.op == op
  {
    hide Call.Step, Call.Enabled;
  }

  lemma RegisterSettles(s: State, op: nat, call: nat)
    requires Enabled(s, Register(op, call)) && op !in RegisterStep(s, op, call).desk.ops
    ensures
      var held := OpSocket(s.desk.ops[op]);
      held.Some? && OwnedByRegistered(RegisterStep(s, op, call), held.value)
  {
  }

  lemma DrainReturnSettles(s: State, op: nat)
    requires Inv(s) && Enabled(s, DrainReturn(op))
    ensures Held(s, op).Some? && SocketClosed(Step(s, DrainReturn(op)), Held(s, op).value)
  {
    var call := s.desk.ops[op].call;
    hide RegistryValid, CountValid, OpsValid, DrainValid, OpSocket, Call.Enabled;
    assert Call.Inv(s.heap[call]);
    assert s.desk.sockets[s.heap[call].info.socket] == ByCall(call);
  }

  /**
   An operation that returns leaves no socket behind: the one it held is closed, or belongs
   to the call that was just registered; and a Dial that met a draining manager returns
   only once the socket of its unregistered call is closed.
   */
  lemma ReturnsSettleSockets(s: State, a: Action, op: nat)
    requires Reachable(s) && Enabled(s, a) && op in s.desk.ops && op !in Step(s, a).desk.ops
    ensures
      var t := Step(s, a);
      Held(s, op).Some? ==>
        SocketClosed(t, Held(s, op).value) || (a.Register? && OwnedByRegistered(t, Held(s, op).value))
  {
    OnlyOwnStepsReturn(s, a, op);
    if a.DrainReturn? {
      ReachableKeeps(s);
      hide *;
      DrainReturnSettles(s, op);
    } else if a.Register? {
      RegisterSettles(s, op, a.call);
      hide Reachable, RegisterStep, OwnedByRegistered, SocketClosed;
    } else {
      hide Reachable, RegisterStep, OwnedByRegistered;
    }
  }

  // ------------------------------------------------------- joining and dialling

  /** All who joined one call were given its room, even if it has ended since. */
  lemma JoinersShareTheRoom(s: State, o: nat, p: nat)
    requires Reachable(s) && o in s.desk.outcomes && p in s.desk.outcomes
    requires s.desk.outcomes[o].Joined? && s.desk.outcomes[p].Joined?
    requires
      var c, d := s.desk.outcomes[o].call, s.desk.outcomes[p].call;
      c == d || (s.desk.outcomes[o].id == s.desk.outcomes[p].id
                 && c in s.heap && d in s.heap && OnRegistry(s.heap[c]) && OnRegistry(s.heap[d]))
    ensures s.desk.outcomes[o] == s.desk.outcomes[p]
  {
    hide Reachable, OnRegistry;
    RegistryIsFaithful(s);
    ReturnedOutcome(s, o);
    ReturnedOutcome(s, p);
  }

  lemma ReturnedOutcome(s: State, o: nat)
    requires Reachable(s) && o in s.desk.outcomes
    ensures OutcomeRefersToCall(s, s.desk.outcomes[o])
  {
    ReachableKeeps(s);
    hide Reachable, CallsValid, RegistryValid, CountValid, SocketsValid, DrainValid, OutcomeRefersToCall;
  }

  /**
   Dial puts its call into the registry without looking; that leaves the registry faithful
   exactly if no live call has the identifier that Meta returned.
   */
  lemma DialNeedsFreshIdentifier(s: State, op: nat, call: nat)
    requires Reachable(s) && s.lock.Free? && !s.draining && call !in s.heap
    requires op in s.desk.ops && s.desk.ops[op].DialRegistering?
    ensures
      var DialRegistering(id, room, socket, n) := s.desk.ops[op];
      var d := Returning(Adopting(s.desk, call, socket), op, Dialled(id, call));
      RegistryValid(Registering(s, call, Call.NewOutbound(id, room, socket, n, false), d)) <==> id !in s.registry
  {
    var DialRegistering(id, room, socket, n) := s.desk.ops[op];
    var c := Call.NewOutbound(id, room, socket, n, false);
    var t := Registering(s, call, c, Returning(Adopting(s.desk, call, socket), op, Dialled(id, call)));
    ReachableKeeps(s);
    hide Reachable, CallsValid, CountValid, SocketsValid, OpsValid, DrainValid;
    if id in s.registry {
      hide Call.NewOutbound;
      var prior := s.registry[id];
      assert Holds(s, id, prior);
      assert t.heap[prior] == s.heap[prior] && t.registry[id] != prior;
    } else {
      assert OnRegistry(c);
      AddKeepsRegistry(s, t, op, call, c);
    }
  }

  /** A Dial whose offer Meta has accepted, and to which it gave `id`. */
  lemma DialIsAnswered(s: State, op: nat, id: string, room: string, socket: nat, n: Sdp.Neg)
    returns (actions: seq<Action>, t: State)
    requires s.lock.Free? && !s.draining && NewOp(s, op) && socket !in s.desk.sockets
    ensures Runs(s, actions) == Some(t) && t == s.(desk := t.desk) && t.desk.outcomes == s.desk.outcomes
    ensures t.desk.ops == s.desk.ops[op := DialRegistering(id, room, socket, n)]
    ensures t.desk.sockets == s.desk.sockets[socket := ByOp(op)]
  {
    hide Runs, RegisterStep;
    var a1 := BeginDial(op, room);
    var s1 := Step(s, a1);
    var a2 := Listen(op, true, socket);
    var s2 := Step(s1, a2);
    var a3 := Build(op, true, n);
    var s3 := Step(s2, a3);
    var a4 := AskMeta(op, true, id);
    t := Step(s3, a4);
    actions := [a1] + ([a2] + ([a3] + ([a4] + [])));
    RunsNothing(t);
    RunsFirst(s3, a4, []);
    RunsFirst(s2, a3, [a4] + []);
    RunsFirst(s1, a2, [a3] + ([a4] + []));
    RunsFirst(s, a1, [a2] + ([a3] + ([a4] + [])));
  }

  lemma RunsNothing(s: State)
    ensures Runs(s, []) == Some(s)
  {
  }

  /** An Accept that registers a call under `id`. */
  lemma AcceptIsCompleted(s: State, op: nat, id: string, room: string, socket: nat, n: Sdp.Neg, call: nat)
    returns (actions: seq<Action>, t: State)
    requires s.lock.Free? && !s.draining && NewOp(s, op) && socket !in s.desk.sockets
    requires id !in s.registry && call !in s.heap
    ensures Runs(s, actions) == Some(t) && t.lock == s.lock && t.draining == s.draining
    ensures t.registry == s.registry[id := call] && t.desk.ops == s.desk.ops
  {
    hide Runs;
    var a1 := BeginAccept(op, id, room);
    var s1 := Step(s, a1);
    var a2 := Listen(op, true, socket);
    var s2 := Step(s1, a2);
    var a3 := Build(op, true, n);
    var s3 := Step(s2, a3);
    var a4 := Register(op, call);
    t := Step(s3, a4);
    assert t.desk.ops == s.desk.ops;
    actions := [a1] + ([a2] + ([a3] + ([a4] + [])));
    RunsNothing(t);
    RunsFirst(s3, a4, []);
    RunsFirst(s2, a3, [a4] + []);
    RunsFirst(s1, a2, [a3] + ([a4] + []));
    RunsFirst(s, a1, [a2] + ([a3] + ([a4] + [])));
  }

  /** Nothing in the manager rules it out: for every identifier a Dial can find it registered. */
  lemma StaleIdentifierHappens(id: string) returns (s: State, op: nat)
    ensures Reachable(s) && s.lock.Free? && !s.draining && op in s.desk.ops
    ensures s.desk.ops[op].DialRegistering? && s.desk.ops[op].id == id && id in s.registry
  {
    hide Runs;
    var n: Sdp.Neg := *;
    var first, t := DialIsAnswered(INITIAL, 0, id, "", 0, n);
    var rest;
    rest, s := AcceptIsCompleted(t, 1, id, "", 1, n, 0);
    RunsAppend(INITIAL, first, rest);
    assert Runs(INITIAL, first + rest) == Some(s);
    op := 0;
  }
}

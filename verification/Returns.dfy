/**
 What Accept and Dial return (lines 88 to 215 of internal/call/manager.go), told by the actions
 of a run: they are refused exactly for the reasons the code has, and otherwise an Accept joins
 a call of the identifier it was given and a Dial returns the call it made.
 */
module Returns {
  import opened Sequences
  import opened Manager
  import WholeRuns
  import Sdp
  import Call

  // -------------------------------------------------------------------- refusal

  /** The step at which an operation is refused. */
  predicate Denies(s: State, a: Action, op: nat) {
    match a
    case BeginAccept(o, _, _) => o == op && s.draining
    case BeginDial(o, _) => o == op && s.draining
    case Listen(o, ok, _) => o == op && !ok
    case Build(o, ok, _) => o == op && !ok
    case AskMeta(o, ok, _) => o == op && !ok
    case Register(o, _) => o == op && s.draining && o in s.desk.ops && s.desk.ops[o].DialRegistering?
    case _ => false
  }

  /** Some step of the run refuses the operation. */
  predicate Denied(s: State, actions: seq<Action>, op: nat)
    decreases |actions|
  {
    && actions != [] && Enabled(s, actions[0])
    && (Denies(s, actions[0], op) || Denied(Step(s, actions[0]), actions[1..], op))
  }

  /** The operation has been refused, or is about to be when its call's cleanup ends. */
  predicate IsRefused(d: Desk, op: nat) {
    (op in d.outcomes && d.outcomes[op].Refused?) || (op in d.ops && d.ops[op].DialDraining?)
  }

  lemma DeskStepRefuses(s: State, a: Action, op: nat)
    requires OpsValid(s) && Enabled(s, a) && IsDeskStep(a)
    ensures IsRefused(DeskStep(s, a), op) <==> IsRefused(s.desk, op) || Denies(s, a, op)
  {
    hide OpRefersToCall, OutcomeRefersToCall;
  }

  lemma RegisterRefuses(s: State, o: nat, call: nat, op: nat)
    requires OpsValid(s) && Enabled(s, Register(o, call))
    ensures IsRefused(RegisterStep(s, o, call).desk, op) <==> IsRefused(s.desk, op) || Denies(s, Register(o, call), op)
  {
    hide OpRefersToCall, OutcomeRefersToCall, Call.NewInbound, Call.NewOutbound;
  }

  lemma StepRefuses(s: State, a: Action, op: nat)
    requires OpsValid(s) && Enabled(s, a)
    ensures IsRefused(Step(s, a).desk, op) <==> IsRefused(s.desk, op) || Denies(s, a, op)
  {
    hide Call.Step, Call.Enabled, RegisterStep, DeskStep, OpsValid, IsRefused;
    if a.Register? {
      RegisterRefuses(s, a.op, a.call, op);
    } else if IsDeskStep(a) {
      DeskStepRefuses(s, a, op);
    }
  }

  /** Over every run an operation is refused exactly if some step refuses it. */
  lemma {:induction false} RunRefuses(s: State, actions: seq<Action>, op: nat)
    requires Inv(s) && Runs(s, actions).Some?
    ensures IsRefused(Runs(s, actions).value.desk, op) <==> IsRefused(s.desk, op) || Denied(s, actions, op)
    decreases |actions|
  {
    hide Inv, Step, Enabled, IsRefused, Denies;
    if actions != [] {
      var a := actions[0];
      StepKeeps(s, a);
      OpsAreValid(s);
      StepRefuses(s, a, op);
      RunRefuses(Step(s, a), actions[1..], op);
    }
  }

  lemma OpsAreValid(s: State)
    requires Inv(s)
    ensures OpsValid(s)
  {
    hide CallsValid, RegistryValid, CountValid, SocketsValid, OpsValid, DrainValid;
  }

  // ------------------------------------------------------------ what was asked for

  /** An Accept of `id`, or what became of one. */
  predicate AsksFor(d: Desk, op: nat, id: string) {
    || (op in d.ops && AcceptsId(d.ops[op], id))
    || (op in d.outcomes && (d.outcomes[op].Refused? || (d.outcomes[op].Joined? && d.outcomes[op].id == id)))
  }

  predicate AcceptsId(o: Op, id: string) {
    match o
    case AcceptListening(i, _) => i == id
    case AcceptBuilding(i, _, _) => i == id
    case AcceptRegistering(i, _, _, _) => i == id
    case AcceptDiscarding(i, _, _) => i == id
    case _ => false
  }

  lemma DeskStepAsks(s: State, a: Action, op: nat, id: string)
    requires OpsValid(s) && Enabled(s, a) && IsDeskStep(a) && AsksFor(s.desk, op, id)
    ensures AsksFor(DeskStep(s, a), op, id)
  {
    hide OpRefersToCall, OutcomeRefersToCall;
  }

  lemma RegisterAsks(s: State, o: nat, call: nat, op: nat, id: string)
    requires OpsValid(s) && Enabled(s, Register(o, call)) && AsksFor(s.desk, op, id)
    ensures AsksFor(RegisterStep(s, o, call).desk, op, id)
  {
    hide OpRefersToCall, OutcomeRefersToCall, Call.NewInbound, Call.NewOutbound;
  }

  lemma StepAsks(s: State, a: Action, op: nat, id: string)
    requires OpsValid(s) && Enabled(s, a) && AsksFor(s.desk, op, id)
    ensures AsksFor(Step(s, a).desk, op, id)
  {
    hide Call.Step, Call.Enabled, RegisterStep, DeskStep, OpsValid, AsksFor;
    if a.Register? {
      RegisterAsks(s, a.op, a.call, op, id);
    } else if IsDeskStep(a) {
      DeskStepAsks(s, a, op, id);
    }
  }

  lemma {:induction false} RunAsks(s: State, actions: seq<Action>, op: nat, id: string)
    requires Inv(s) && Runs(s, actions).Some? && AsksFor(s.desk, op, id)
    ensures AsksFor(Runs(s, actions).value.desk, op, id)
    decreases |actions|
  {
    hide Inv, Step, Enabled, AsksFor;
    if actions != [] {
      StepKeeps(s, actions[0]);
      OpsAreValid(s);
      StepAsks(s, actions[0], op, id);
      RunAsks(Step(s, actions[0]), actions[1..], op, id);
    }
  }

  lemma BeginAsks(s: State, op: nat, id: string, room: string)
    requires Enabled(s, BeginAccept(op, id, room))
    ensures AsksFor(Step(s, BeginAccept(op, id, room)).desk, op, id)
    ensures op !in s.desk.ops && op !in s.desk.outcomes
  {
  }

  /**
   An Accept that has returned was refused exactly if the manager was draining when it began, or
   its socket or its negotiation failed; otherwise it joined a registered call of the identifier
   it was given, in the room of that call.
   */
  lemma AcceptReturns(s: State, op: nat, id: string, room: string, rest: seq<Action>)
    requires Reachable(s) && Runs(s, [BeginAccept(op, id, room)] + rest).Some?
    ensures
      var t := Runs(s, [BeginAccept(op, id, room)] + rest).value;
      op in t.desk.outcomes ==>
        var outcome := t.desk.outcomes[op];
        if Denied(s, [BeginAccept(op, id, room)] + rest, op) then outcome == Refused
        else
          && outcome.Joined? && outcome.id == id && outcome.call in t.heap && t.heap[outcome.call].info.registered
          && t.heap[outcome.call].info.id == id && outcome.room == t.heap[outcome.call].info.room
  {
    var a := BeginAccept(op, id, room);
    var actions := [a] + rest;
    assert actions[1..] == rest && actions[0] == a;
    assert Enabled(s, a) && Runs(s, actions) == Runs(Step(s, a), rest);
    ReachableKeeps(s);
    hide Inv, Reachable, Step, Enabled, Runs, Denied;
    BeginAsks(s, op, id, room);
    StepKeeps(s, a);
    RunAsks(Step(s, a), rest, op, id);
    RunRefuses(s, actions, op);
    ReachableOnwards(s, actions);
    var t := Runs(s, actions).value;
    OpsAreApart(t, op);
    if op in t.desk.outcomes {
      ReturnedOutcome(t, op);
    }
  }

  lemma OpsAreApart(s: State, op: nat)
    requires Reachable(s)
    ensures !(op in s.desk.ops && op in s.desk.outcomes)
  {
    ReachableKeeps(s);
    hide CallsValid, RegistryValid, CountValid, SocketsValid, DrainValid;
  }

  /** Until it registers or gives up, an Accept remembers the room it was asked for. */
  predicate WantsRoom(d: Desk, op: nat, room: string) {
    op in d.ops ==>
      match d.ops[op]
      case AcceptListening(_, r) => r == room
      case AcceptBuilding(_, r, _) => r == room
      case AcceptRegistering(_, r, _, _) => r == room
      case _ => true
  }

  lemma StepWantsRoom(s: State, a: Action, op: nat, room: string)
    requires Enabled(s, a) && WantsRoom(s.desk, op, room) && (op in s.desk.ops || op in s.desk.outcomes)
    ensures WantsRoom(Step(s, a).desk, op, room)
  {
    hide Call.Step, Call.Enabled, RegisterStep, DeskStep;
    if a.Register? {
      RegisterWantsRoom(s, a.op, a.call, op, room);
    } else if IsDeskStep(a) {
      DeskStepWantsRoom(s, a, op, room);
    }
  }

  lemma DeskStepWantsRoom(s: State, a: Action, op: nat, room: string)
    requires Enabled(s, a) && IsDeskStep(a) && WantsRoom(s.desk, op, room)
    requires op in s.desk.ops || op in s.desk.outcomes
    ensures WantsRoom(DeskStep(s, a), op, room)
  {
  }

  lemma RegisterWantsRoom(s: State, o: nat, call: nat, op: nat, room: string)
    requires Enabled(s, Register(o, call)) && WantsRoom(s.desk, op, room)
    ensures WantsRoom(RegisterStep(s, o, call).desk, op, room)
  {
    hide Call.NewInbound, Call.NewOutbound;
  }

  lemma {:induction false} RunWantsRoom(s: State, actions: seq<Action>, op: nat, id: string, room: string)
    requires Inv(s) && Runs(s, actions).Some? && WantsRoom(s.desk, op, room) && AsksFor(s.desk, op, id)
    ensures WantsRoom(Runs(s, actions).value.desk, op, room)
    decreases |actions|
  {
    hide Inv, Step, Enabled, WantsRoom;
    if actions != [] {
      StepKeeps(s, actions[0]);
      OpsAreValid(s);
      StepAsks(s, actions[0], op, id);
      StepWantsRoom(s, actions[0], op, room);
      RunWantsRoom(Step(s, actions[0]), actions[1..], op, id, room);
    }
  }

  /** An Accept that finds its identifier free registers and counts an inbound call for the room it was given. */
  lemma AcceptRegistersItsRequest(s: State, op: nat, id: string, room: string, rest: seq<Action>, call: nat)
    requires Reachable(s) && Runs(s, [BeginAccept(op, id, room)] + rest).Some?
    requires
      var t := Runs(s, [BeginAccept(op, id, room)] + rest).value;
      Enabled(t, Register(op, call)) && id !in t.registry
    ensures
      var t := Runs(s, [BeginAccept(op, id, room)] + rest).value;
      var u := Step(t, Register(op, call));
      && u.registry == t.registry[id := call] && u.wg == t.wg + 1
      && op in u.desk.outcomes && u.desk.outcomes[op] == Joined(id, call, room)
      && call in u.heap && u.heap[call].info.id == id && u.heap[call].info.room == room
      && !u.heap[call].info.outbound && u.heap[call].info.registered
  {
    var a := BeginAccept(op, id, room);
    var actions := [a] + rest;
    assert actions[1..] == rest && actions[0] == a;
    assert Enabled(s, a) && Runs(s, actions) == Runs(Step(s, a), rest);
    assert WantsRoom(Step(s, a).desk, op, room);
    hide Inv, Reachable, Runs, WantsRoom, AsksFor;
    ReachableKeeps(s);
    BeginAsks(s, op, id, room);
    StepKeeps(s, a);
    RunAsks(Step(s, a), rest, op, id);
    RunWantsRoom(Step(s, a), rest, op, id, room);
    ReachableOnwards(s, actions);
    hide Step, Enabled;
    RegistersRequest(Runs(s, actions).value, op, call, id, room);
  }

  lemma RegistersRequest(t: State, op: nat, call: nat, id: string, room: string)
    requires Reachable(t) && Enabled(t, Register(op, call)) && id !in t.registry
    requires AsksFor(t.desk, op, id) && WantsRoom(t.desk, op, room)
    ensures
      var u := Step(t, Register(op, call));
      && u.registry == t.registry[id := call] && u.wg == t.wg + 1
      && op in u.desk.outcomes && u.desk.outcomes[op] == Joined(id, call, room)
      && call in u.heap && u.heap[call].info.id == id && u.heap[call].info.room == room
      && !u.heap[call].info.outbound && u.heap[call].info.registered
  {
    hide Reachable;
    OpsAreApart(t, op);
  }

  // ------------------------------------------------------------- joining a call

  /** `id` names call `c` at the beginning and after every step of the run. */
  predicate StaysRegistered(s: State, actions: seq<Action>, id: string, c: nat)
    decreases |actions|
  {
    && id in s.registry && s.registry[id] == c
    && (actions != [] && Enabled(s, actions[0]) ==> StaysRegistered(Step(s, actions[0]), actions[1..], id, c))
  }

  /** If the operation has found or joined a call under `id`, it is `c`. */
  predicate JoinsOnly(d: Desk, op: nat, id: string, c: nat) {
    && (op in d.ops && d.ops[op].AcceptDiscarding? && d.ops[op].id == id ==> d.ops[op].prior == c)
    && (op in d.outcomes && d.outcomes[op].Joined? && d.outcomes[op].id == id ==> d.outcomes[op].call == c)
  }

  lemma DeskStepJoins(s: State, a: Action, op: nat, id: string, c: nat)
    requires Enabled(s, a) && IsDeskStep(a) && id in s.registry && s.registry[id] == c && JoinsOnly(s.desk, op, id, c)
    ensures JoinsOnly(DeskStep(s, a), op, id, c)
  {
  }

  lemma RegisterJoins(s: State, o: nat, call: nat, op: nat, id: string, c: nat)
    requires Enabled(s, Register(o, call)) && id in s.registry && s.registry[id] == c && JoinsOnly(s.desk, op, id, c)
    ensures JoinsOnly(RegisterStep(s, o, call).desk, op, id, c)
  {
    hide Call.NewInbound, Call.NewOutbound;
  }

  lemma StepJoins(s: State, a: Action, op: nat, id: string, c: nat)
    requires Enabled(s, a) && id in s.registry && s.registry[id] == c && JoinsOnly(s.desk, op, id, c)
    ensures JoinsOnly(Step(s, a).desk, op, id, c)
  {
    hide Call.Step, Call.Enabled, RegisterStep, DeskStep, JoinsOnly;
    if a.Register? {
      RegisterJoins(s, a.op, a.call, op, id, c);
    } else if IsDeskStep(a) {
      DeskStepJoins(s, a, op, id, c);
    }
  }

  lemma {:induction false} RunJoins(s: State, actions: seq<Action>, op: nat, id: string, c: nat)
    requires Runs(s, actions).Some? && StaysRegistered(s, actions, id, c) && JoinsOnly(s.desk, op, id, c)
    ensures JoinsOnly(Runs(s, actions).value.desk, op, id, c)
    decreases |actions|
  {
    hide Step, Enabled, JoinsOnly;
    if actions != [] {
      StepJoins(s, actions[0], op, id, c);
      RunJoins(Step(s, actions[0]), actions[1..], op, id, c);
    }
  }

  /**
   While a call stays registered, every Accept of its identifier that begins, or is in flight and
   has found no other call, joins that call and is given its room once it returns, however many
   of them there are, except those whose socket or negotiation failed or that began while the
   manager was draining.
   */
  lemma AcceptsJoinTheRegisteredCall(s: State, actions: seq<Action>, op: nat, id: string, c: nat)
    requires Reachable(s) && Runs(s, actions).Some? && StaysRegistered(s, actions, id, c)
    requires
      || (op in s.desk.ops && AcceptsId(s.desk.ops[op], id)
          && (s.desk.ops[op].AcceptDiscarding? ==> s.desk.ops[op].prior == c))
      || (actions != [] && actions[0].BeginAccept? && actions[0].op == op && actions[0].id == id)
    ensures
      var t := Runs(s, actions).value;
      op in t.desk.outcomes ==>
        && c in t.heap
        && t.desk.outcomes[op] == if Denied(s, actions, op) then Refused else Joined(id, c, t.heap[c].info.room)
  {
    hide Inv, Reachable, Step, Enabled, Runs, Denied, StaysRegistered, JoinsOnly;
    ReachableKeeps(s);
    NotYetRefused(s, actions, op, id);
    AcceptIsPursued(s, actions, op, id, c);
    RunRefuses(s, actions, op);
    ReachableOnwards(s, actions);
    var t := Runs(s, actions).value;
    OpsAreApart(t, op);
    LastRegistered(s, actions, id, c);
    RegisteredExists(t, id);
    if op in t.desk.outcomes {
      ReturnedOutcome(t, op);
      if !t.desk.outcomes[op].Refused? {
        JoinedOnly(t.desk, op, id, c);
      }
    }
  }

  lemma NotYetRefused(s: State, actions: seq<Action>, op: nat, id: string)
    requires Inv(s) && Runs(s, actions).Some?
    requires
      || (op in s.desk.ops && AcceptsId(s.desk.ops[op], id))
      || (actions != [] && actions[0].BeginAccept? && actions[0].op == op && actions[0].id == id)
    ensures !IsRefused(s.desk, op)
  {
    hide CallsValid, RegistryValid, CountValid, SocketsValid, DrainValid, Step;
    if actions != [] {
      assert Enabled(s, actions[0]);
    }
  }

  lemma AcceptIsPursued(s: State, actions: seq<Action>, op: nat, id: string, c: nat)
    requires Inv(s) && Runs(s, actions).Some? && StaysRegistered(s, actions, id, c)
    requires
      || (op in s.desk.ops && AcceptsId(s.desk.ops[op], id)
          && (s.desk.ops[op].AcceptDiscarding? ==> s.desk.ops[op].prior == c))
      || (actions != [] && actions[0].BeginAccept? && actions[0].op == op && actions[0].id == id)
    ensures
      var t := Runs(s, actions).value;
      JoinsOnly(t.desk, op, id, c) && AsksFor(t.desk, op, id)
  {
    OpsAreValid(s);
    if && op in s.desk.ops && AcceptsId(s.desk.ops[op], id)
       && (s.desk.ops[op].AcceptDiscarding? ==> s.desk.ops[op].prior == c)
    {
      assert JoinsOnly(s.desk, op, id, c) && AsksFor(s.desk, op, id);
      hide Inv, OpsValid, Runs, StaysRegistered, JoinsOnly, AsksFor;
      RunJoins(s, actions, op, id, c);
      RunAsks(s, actions, op, id);
    } else {
      var a := actions[0];
      assert Enabled(s, a) && Runs(s, actions) == Runs(Step(s, a), actions[1..]);
      BeginAsks(s, op, id, a.room);
      assert JoinsOnly(s.desk, op, id, c);
      hide Inv, OpsValid, Runs, StaysRegistered, JoinsOnly, AsksFor, Step, Enabled;
      RunJoins(s, actions, op, id, c);
      StepKeeps(s, a);
      RunAsks(Step(s, a), actions[1..], op, id);
    }
  }

  lemma {:induction false} LastRegistered(s: State, actions: seq<Action>, id: string, c: nat)
    requires Runs(s, actions).Some? && StaysRegistered(s, actions, id, c)
    ensures var t := Runs(s, actions).value; id in t.registry && t.registry[id] == c
    decreases |actions|
  {
    hide Step, Enabled;
    if actions != [] {
      LastRegistered(Step(s, actions[0]), actions[1..], id, c);
    }
  }

  lemma RegisteredExists(s: State, id: string)
    requires Reachable(s) && id in s.registry
    ensures s.registry[id] in s.heap
  {
    hide Reachable;
    RegistryIsFaithful(s);
  }

  lemma JoinedOnly(d: Desk, op: nat, id: string, c: nat)
    requires JoinsOnly(d, op, id, c) && op in d.outcomes && d.outcomes[op].Joined? && d.outcomes[op].id == id
    ensures d.outcomes[op].call == c
  {
  }

  // ----------------------------------------------------------------------- Dial

  /** The identifier that Meta gave the operation during the run, if it did. */
  function Given(actions: seq<Action>, op: nat): Option<string> {
    if actions == [] then None
    else if actions[0].AskMeta? && actions[0].op == op && actions[0].ok then Some(actions[0].id)
    else Given(actions[1..], op)
  }

  /** A Dial for `room` that was given the identifier `id`, or none yet, or what became of one. */
  predicate DialsFor(s: State, op: nat, room: string, id: Option<string>) {
    || (op in s.desk.ops && match s.desk.ops[op]
        case DialListening(r) => r == room && id.None?
        case DialBuilding(r, _) => r == room && id.None?
        case DialAsking(r, _, _) => r == room && id.None?
        case DialRegistering(i, r, _, _) => r == room && id == Some(i)
        case DialDraining(_) => true
        case _ => false)
    || (op in s.desk.outcomes && match s.desk.outcomes[op]
        case Refused => true
        case Joined(_, _, _) => false
        case Dialled(i, call) => id == Some(i) && call in s.heap && IsDialled(s.heap[call].info, i, room))
  }

  predicate IsDialled(info: Call.Info, id: string, room: string) {
    info.id == id && info.room == room && info.outbound && info.registered
  }

  function Known(id: Option<string>, a: Action, op: nat): Option<string> {
    if a.AskMeta? && a.op == op && a.ok then Some(a.id) else id
  }

  lemma DeskStepDials(s: State, a: Action, op: nat, room: string, id: Option<string>)
    requires OpsValid(s) && Enabled(s, a) && IsDeskStep(a) && DialsFor(s, op, room, id)
    ensures DialsFor(s.(desk := DeskStep(s, a)), op, room, Known(id, a, op))
  {
    hide OpRefersToCall, OutcomeRefersToCall, IsDialled;
  }

  lemma RegisterKeepsCalls(s: State, o: nat, call: nat)
    requires Enabled(s, Register(o, call))
    ensures
      var t := RegisterStep(s, o, call);
      forall c :: c in s.heap ==> c in t.heap && t.heap[c] == s.heap[c]
  {
    hide Call.NewInbound, Call.NewOutbound, Returning, Continuing, Adopting;
  }

  /** Registration touches no other operation and no call that exists. */
  lemma RegisterOthers(s: State, o: nat, call: nat, op: nat)
    requires Enabled(s, Register(o, call)) && op != o
    ensures
      var t := RegisterStep(s, o, call);
      && (op in t.desk.ops <==> op in s.desk.ops) && (op in s.desk.ops ==> t.desk.ops[op] == s.desk.ops[op])
      && (op in t.desk.outcomes <==> op in s.desk.outcomes)
      && (op in s.desk.outcomes ==> t.desk.outcomes[op] == s.desk.outcomes[op])
      && forall c :: c in s.heap ==> c in t.heap && t.heap[c] == s.heap[c]
  {
    RegisterKeepsCalls(s, o, call);
    hide Call.NewInbound, Call.NewOutbound;
  }

  lemma RegisterOwn(s: State, op: nat, call: nat, room: string, id: Option<string>)
    requires op !in s.desk.outcomes && Enabled(s, Register(op, call)) && DialsFor(s, op, room, id)
    ensures DialsFor(RegisterStep(s, op, call), op, room, id)
  {
    var current := s.desk.ops[op];
    DialledCall(current.id, current.room, current.socket, current.n);
    hide IsDialled, Call.NewInbound, Call.NewOutbound;
  }

  lemma RegisterDials(s: State, o: nat, call: nat, op: nat, room: string, id: Option<string>)
    requires OpsValid(s) && Enabled(s, Register(o, call)) && DialsFor(s, op, room, id)
    ensures DialsFor(RegisterStep(s, o, call), op, room, id)
  {
    if o == op {
      RegisterOwn(s, op, call, room, id);
    } else {
      RegisterOthers(s, o, call, op);
      hide OpsValid, RegisterStep, IsDialled, Enabled;
    }
  }

  lemma DialledCall(id: string, room: string, socket: nat, n: Sdp.Neg)
    ensures IsDialled(Call.NewOutbound(id, room, socket, n, false).info, id, room)
  {
  }

  lemma SameInfoDials(s: State, t: State, op: nat, room: string, id: Option<string>)
    requires DialsFor(s, op, room, id) && t.desk == s.desk
    requires forall c :: c in s.heap ==> c in t.heap && t.heap[c].info == s.heap[c].info
    ensures DialsFor(t, op, room, id)
  {
    hide IsDialled;
  }

  lemma StepDials(s: State, a: Action, op: nat, room: string, id: Option<string>)
    requires OpsValid(s) && Enabled(s, a) && DialsFor(s, op, room, id)
    ensures DialsFor(Step(s, a), op, room, Known(id, a, op))
  {
    hide Call.Step, Call.Enabled, RegisterStep, DeskStep, OpsValid, DialsFor;
    if a.Register? {
      RegisterDials(s, a.op, a.call, op, room, id);
    } else if IsDeskStep(a) {
      DeskStepDials(s, a, op, room, id);
    } else {
      WholeRuns.StepPersistsHeap(s, a);
      SameInfoDials(s, Step(s, a), op, room, id);
    }
  }

  lemma {:induction false} RunDials(s: State, actions: seq<Action>, op: nat, room: string, id: Option<string>)
    requires Inv(s) && Runs(s, actions).Some? && DialsFor(s, op, room, id)
    ensures
      var given := Given(actions, op);
      DialsFor(Runs(s, actions).value, op, room, if id.Some? then id else given)
    decreases |actions|
  {
    hide Inv, Step, Enabled, DialsFor;
    if actions != [] {
      var a := actions[0];
      StepKeeps(s, a);
      OpsAreValid(s);
      AskedOnce(s, a, op, room, id);
      StepDials(s, a, op, room, id);
      RunDials(Step(s, a), actions[1..], op, room, Known(id, a, op));
    }
  }

  /** Meta is not asked again once it has answered. */
  lemma AskedOnce(s: State, a: Action, op: nat, room: string, id: Option<string>)
    requires Inv(s) && Enabled(s, a) && DialsFor(s, op, room, id)
    ensures id.Some? ==> Known(id, a, op) == id
  {
    OpsAreValid(s);
    hide Inv, OpRefersToCall, OutcomeRefersToCall;
  }

  lemma BeginDials(s: State, op: nat, room: string)
    requires Enabled(s, BeginDial(op, room))
    ensures DialsFor(Step(s, BeginDial(op, room)), op, room, None)
  {
  }

  /**
   A Dial that has returned was refused exactly if the manager was draining when it began or when it
   came to register its call, or its socket, its offer or its request to Meta failed; otherwise it
   returned the identifier that Meta gave it, and registered an outbound call with it for the
   room it was asked for.
   */
  lemma DialReturns(s: State, op: nat, room: string, rest: seq<Action>)
    requires Reachable(s) && Runs(s, [BeginDial(op, room)] + rest).Some?
    ensures
      var t := Runs(s, [BeginDial(op, room)] + rest).value;
      op in t.desk.outcomes ==>
        var outcome := t.desk.outcomes[op];
        if Denied(s, [BeginDial(op, room)] + rest, op) then outcome == Refused
        else
          && outcome.Dialled? && Given(rest, op) == Some(outcome.id) && outcome.call in t.heap
          && IsDialled(t.heap[outcome.call].info, outcome.id, room)
  {
    var a := BeginDial(op, room);
    var actions := [a] + rest;
    assert actions[1..] == rest && actions[0] == a;
    assert Enabled(s, a) && Runs(s, actions) == Runs(Step(s, a), rest);
    assert op !in s.desk.ops && op !in s.desk.outcomes;
    ReachableKeeps(s);
    hide Inv, Reachable, Step, Enabled, Runs, Denied;
    BeginDials(s, op, room);
    StepKeeps(s, a);
    RunDials(Step(s, a), rest, op, room, None);
    RunRefuses(s, actions, op);
    ReachableOnwards(s, actions);
    OpsAreApart(Runs(s, actions).value, op);
  }
}

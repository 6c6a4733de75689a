/**
 The start/close protocol of the media transport (internal/media/transport.go).

 One goroutine builds ICE, DTLS and SRTP resources while any number of callers may
 start, wait for and close the transport. `Shared` holds what the mutex, the two
 one-shot guards and the ready channel protect; the class `Transport` performs its
 critical sections in place. `State` adds the two program counters and a ledger of
 resources opened and closed, and every interleaving is a sequence of `Action`s.
 */
module Transport {
  import opened Sequences

  datatype Resource = IceMux | IceAgent | PacketMux | Dtls | Srtp | Srtcp | Raw

  datatype Failure = SetupFailed | Cancelled

  const SESSIONS: set<Resource> := {Dtls, Srtp, Srtcp}

  // --------------------------------------------------------- shared variables

  datatype Shared = Shared(
    startTaken: bool, readyCloses: nat, closed: bool,
    fields: set<Resource>, err: Option<Failure>, published: bool)

  const NEW: Shared := Shared(false, 0, false, {}, None, false)

  /** Registers what the run goroutine built, unless the transport was closed meanwhile. */
  function Registered(v: Shared, built: set<Resource>): Shared {
    if v.closed then v else v.(fields := v.fields + built)
  }

  function ResultSet(v: Shared, built: set<Resource>, err: Option<Failure>): Shared {
    if v.closed then v
    else v.(fields := v.fields - SESSIONS + built, err := err, published := true)
  }

  /** The registered resources in the order `closeResources` closes them. */
  function CloseOrder(fields: set<Resource>): seq<Resource> {
    Picked([IceAgent, IceMux, PacketMux, Srtp, Srtcp, Dtls], fields)
  }

  /** What `setResult` closes itself when it finds the transport closed. */
  function DiscardOrder(built: set<Resource>): seq<Resource> {
    Picked([Srtp, Srtcp, Dtls, PacketMux], built)
  }

  function Picked(order: seq<Resource>, from: set<Resource>): (r: seq<Resource>)
    ensures forall x :: x in r <==> x in order && x in from
  {
    if order == [] then []
    else (if order[0] in from then [order[0]] else []) + Picked(order[1..], from)
  }

  /** The place of a resource in the order in which closeResources closes them. */
  function ClosingRank(r: Resource): nat {
    match r
    case IceAgent => 0
    case IceMux => 1
    case PacketMux => 2
    case Srtp => 3
    case Srtcp => 4
    case Dtls => 5
    case Raw => 6
  }

  predicate InClosingOrder(rs: seq<Resource>) {
    forall i, j :: 0 <= i < j < |rs| ==> ClosingRank(rs[i]) < ClosingRank(rs[j])
  }

  lemma {:induction false} PickedKeepsOrder(order: seq<Resource>, from: set<Resource>)
    requires InClosingOrder(order)
    ensures InClosingOrder(Picked(order, from))
  {
    if order != [] {
      PickedKeepsOrder(order[1..], from);
      var rest := Picked(order[1..], from);
      forall k | 0 <= k < |rest| ensures ClosingRank(order[0]) < ClosingRank(rest[k]) {
        assert rest[k] in order[1..];
        var l :| 0 <= l < |order[1..]| && order[1..][l] == rest[k];
        assert order[l + 1] == rest[k];
      }
    }
  }

  /** `todo` holds, in order, what is registered of the resources whose place is below `rank`. */
  predicate ClosesBelow(todo: seq<Resource>, fields: set<Resource>, rank: nat) {
    InClosingOrder(todo) && forall r :: r in todo <==> r in fields && ClosingRank(r) < rank
  }

  lemma ClosesAll(todo: seq<Resource>, fields: set<Resource>)
    requires ClosesBelow(todo, fields, ClosingRank(Raw))
    ensures forall r :: r in todo <==> r in fields && r != Raw
    ensures InClosingOrder(todo) && todo == CloseOrder(fields)
  {
    PickedKeepsOrder([IceAgent, IceMux, PacketMux, Srtp, Srtcp, Dtls], fields);
    forall r ensures r in todo <==> r in CloseOrder(fields) {
      CloseOrderCovers(fields, r);
    }
    hide InClosingOrder, CloseOrder;
    OrderIsUnique(todo, CloseOrder(fields));
  }

  lemma EmptyIff(rs: seq<Resource>)
    ensures rs == [] <==> forall r :: r !in rs
  {
    if rs != [] {
      assert rs[0] in rs;
    }
  }

  /** The order and the elements determine the sequence. */
  lemma {:induction false} OrderIsUnique(a: seq<Resource>, b: seq<Resource>)
    requires InClosingOrder(a) && InClosingOrder(b) && forall r :: r in a <==> r in b
    ensures a == b
  {
    EmptyIff(a);
    EmptyIff(b);
    if a != [] {
      assert a[0] in b && b[0] in a;
      assert a[0] == b[0];
      forall r ensures r in a[1..] <==> r in b[1..] {
        assert a == [a[0]] + a[1..] && b == [b[0]] + b[1..];
        assert r in a <==> r in b;
      }
      OrderIsUnique(a[1..], b[1..]);
    }
  }

  class Transport {
    var startTaken: bool
    var readyCloses: nat
    var closed: bool
    var fields: set<Resource>
    var err: Option<Failure>
    ghost var published: bool

    constructor ()
      ensures View() == NEW
    {
      startTaken, readyCloses, closed, fields, err, published := false, 0, false, {}, None, false;
    }

    ghost function View(): Shared
      reads this
    {
      Shared(startTaken, readyCloses, closed, fields, err, published)
    }

    /** Wins the start guard at most once over all callers. */
    method Start() returns (launch: bool)
      modifies this`startTaken
      ensures launch == !old(startTaken)
      ensures View() == old(View()).(startTaken := true)
    {
      launch := !startTaken;
      startTaken := true;
    }

    method Register(built: set<Resource>) returns (kept: bool)
      modifies this`fields
      ensures kept == !closed
      ensures View() == Registered(old(View()), built)
    {
      if closed {
        return false;
      }
      fields := fields + built;
      return true;
    }

    method SetResult(built: set<Resource>, mux: bool, e: Option<Failure>) returns (discard: seq<Resource>)
      requires built <= SESSIONS
      modifies this`fields, this`err, this`published
      ensures View() == ResultSet(old(View()), built, e)
      ensures discard == if closed then DiscardOrder(built + if mux then {PacketMux} else {}) else []
    {
      if !closed {
        fields, err, published := fields - SESSIONS + built, e, true;
        return [];
      }
      return DiscardOrder(built + if mux then {PacketMux} else {});
    }

    method MarkClosed()
      modifies this`closed
      ensures View() == old(View()).(closed := true)
    {
      closed := true;
    }

    method AddIfPresent(todo: seq<Resource>, r: Resource) returns (more: seq<Resource>)
      requires ClosesBelow(todo, fields, ClosingRank(r))
      ensures ClosesBelow(more, fields, ClosingRank(r) + 1)
    {
      more := if r in fields then todo + [r] else todo;
    }

    /** The six tests of closeResources: all that is registered, each once, in the order of closing. */
    method ResourcesToClose() returns (todo: seq<Resource>)
      ensures forall r :: r in todo <==> r in fields && r != Raw
      ensures InClosingOrder(todo)
      ensures todo == CloseOrder(fields)
    {
      todo := AddIfPresent([], IceAgent);
      hide ClosesBelow;
      todo := AddIfPresent(todo, IceMux);
      todo := AddIfPresent(todo, PacketMux);
      todo := AddIfPresent(todo, Srtp);
      todo := AddIfPresent(todo, Srtcp);
      todo := AddIfPresent(todo, Dtls);
      ClosesAll(todo, fields);
    }

    /** Close takes the start guard if nobody did, and then releases the waiters itself. */
    method ReleaseIfNeverStarted()
      modifies this`startTaken, this`readyCloses
      ensures View() == Released(old(View()))
    {
      if !startTaken {
        startTaken := true;
        readyCloses := readyCloses + 1;
      }
    }
  }

  function Released(v: Shared): Shared {
    if v.startTaken then v else v.(startTaken := true, readyCloses := v.readyCloses + 1)
  }

  // ------------------------------------------------------------ the protocol

  datatype RunPc =
    | NotStarted
    | NewIceMux
    | NewAgent
    | AgentFailed
    | RegisterIce
    | DropAgent
    | DropIceMux
    | Connecting
    | NewMux
    | RegisterMux
    | DropMux
    | NewDtls
    | Handshaking
    | NewSrtp
    | NewSrtcp
    | Publishing(built: set<Resource>, mux: bool, err: Option<Failure>)
    | Discarding(rest: seq<Resource>)
    | Finishing
    | Finished

  datatype ClosePc =
    | NotClosing
    | Cancelling
    | Marking
    | FirstPass
    | FirstClosing(rest: seq<Resource>)
    | TakingStart
    | AwaitingReady
    | SecondPass
    | SecondClosing(rest: seq<Resource>)
    | ClosingRaw
    | CloseDone

  datatype State = State(
    v: Shared, run: RunPc, close: ClosePc, cancelled: bool,
    created: set<Resource>, shut: set<Resource>, closeReturns: nat)

  /**
   `Run(ok)` is one step of the run goroutine, where `ok` is the outcome of the library
   call it makes, if any. `MuxFails` is the packet mux closing itself on a read error.
   */
  datatype Action = Start | Run(ok: bool) | CallClose | Close | CloseReturns | MuxFails

  const INITIAL: State := State(NEW, NotStarted, NotClosing, false, {Raw}, {}, 0)

  predicate Enabled(s: State, a: Action) {
    match a
    case Start => true
    case Run(_) => s.run != NotStarted && s.run != Finished
    case CallClose => true
    case Close => s.close != NotClosing && s.close != CloseDone && (s.close == AwaitingReady ==> s.v.readyCloses > 0)
    case CloseReturns => s.close == CloseDone
    case MuxFails => PacketMux in s.created
  }

  function Opening(s: State, r: Resource, next: RunPc): State {
    s.(created := s.created + {r}, run := next)
  }

  function Shutting(s: State, r: Resource): State { s.(shut := s.shut + {r}) }

  function Failed(built: set<Resource>, mux: bool): RunPc { Publishing(built, mux, Some(SetupFailed)) }

  function RunStep(s: State, ok: bool): State
    requires Enabled(s, Run(ok))
  {
    match s.run
    case NewIceMux => Opening(s, IceMux, NewAgent)
    case NewAgent => if ok then Opening(s, IceAgent, RegisterIce) else s.(run := AgentFailed)
    case AgentFailed => Shutting(s, IceMux).(run := Failed({}, false))
    case RegisterIce =>
      s.(v := Registered(s.v, {IceAgent, IceMux}), run := if s.v.closed then DropAgent else Connecting)
    case DropAgent => Shutting(s, IceAgent).(run := DropIceMux)
    case DropIceMux => Shutting(s, IceMux).(run := Publishing({}, false, Some(Cancelled)))
    case Connecting => if ok then s.(run := NewMux) else s.(run := Failed({}, false))
    case NewMux => Opening(s, PacketMux, RegisterMux)
    case RegisterMux =>
      s.(v := Registered(s.v, {PacketMux}), run := if s.v.closed then DropMux else NewDtls)
    case DropMux => Shutting(s, PacketMux).(run := Finishing)
    case NewDtls => if ok then Opening(s, Dtls, Handshaking) else s.(run := Failed({}, true))
    case Handshaking => if ok then s.(run := NewSrtp) else s.(run := Failed({Dtls}, true))
    case NewSrtp => if ok then Opening(s, Srtp, NewSrtcp) else s.(run := Failed({Dtls}, true))
    case NewSrtcp =>
      if ok then Opening(s, Srtcp, Publishing(SESSIONS, true, None)) else s.(run := Failed({Dtls, Srtp}, true))
    case Publishing(built, mux, err) =>
      s.(v := ResultSet(s.v, built, err),
         run := if s.v.closed then Discarding(DiscardOrder(built + if mux then {PacketMux} else {})) else Finishing)
    case Discarding(rest) =>
      if rest == [] then s.(run := Finishing) else Shutting(s, rest[0]).(run := Discarding(rest[1..]))
    case Finishing => s.(v := s.v.(readyCloses := s.v.readyCloses + 1), run := Finished)
    case _ => assert false; s
  }

  function CloseStep(s: State): State
    requires Enabled(s, Close)
  {
    match s.close
    case Cancelling => s.(cancelled := true, close := Marking)
    case Marking => s.(v := s.v.(closed := true), close := FirstPass)
    case FirstPass => s.(close := FirstClosing(CloseOrder(s.v.fields)))
    case FirstClosing(rest) =>
      if rest == [] then s.(close := TakingStart) else Shutting(s, rest[0]).(close := FirstClosing(rest[1..]))
    case TakingStart => s.(v := Released(s.v), close := AwaitingReady)
    case AwaitingReady => s.(close := SecondPass)
    case SecondPass => s.(close := SecondClosing(CloseOrder(s.v.fields)))
    case SecondClosing(rest) =>
      if rest == [] then s.(close := ClosingRaw) else Shutting(s, rest[0]).(close := SecondClosing(rest[1..]))
    case ClosingRaw => Shutting(s, Raw).(close := CloseDone)
    case _ => assert false; s
  }

  function Step(s: State, a: Action): State
    requires Enabled(s, a)
  {
    match a
    case Start =>
      s.(v := s.v.(startTaken := true), run := if s.v.startTaken then s.run else NewIceMux)
    case Run(ok) => RunStep(s, ok)
    case CallClose => s.(close := if s.close == NotClosing then Cancelling else s.close)
    case Close => CloseStep(s)
    case CloseReturns => s.(closeReturns := s.closeReturns + 1)
    case MuxFails => Shutting(s, PacketMux)
  }

  /** The state after an interleaving, or nothing if some step was not possible. */
  function Exec(actions: seq<Action>): Option<State> {
    if actions == [] then Some(INITIAL)
    else
      var before, a := Exec(actions[..|actions| - 1]), actions[|actions| - 1];
      if before.Some? && Enabled(before.value, a) then Some(Step(before.value, a)) else None
  }

  ghost predicate Reachable(s: State) { exists actions :: Exec(actions) == Some(s) }

  // --------------------------------------------------------------- invariant

  /** Resources only the run goroutine can reach at each point. */
  predicate Holds(pc: RunPc, r: Resource) {
    match pc
    case NewAgent => r == IceMux
    case AgentFailed => r == IceMux
    case RegisterIce => r == IceAgent || r == IceMux
    case DropAgent => r == IceAgent || r == IceMux
    case DropIceMux => r == IceMux
    case RegisterMux => r == PacketMux
    case DropMux => r == PacketMux
    case Handshaking => r == Dtls
    case NewSrtp => r == Dtls
    case NewSrtcp => r == Dtls || r == Srtp
    case Publishing(built, _, _) => r in built
    case Discarding(rest) => r in rest
    case _ => false
  }

  predicate MuxInUse(pc: RunPc) {
    pc.NewDtls? || pc.Handshaking? || pc.NewSrtp? || pc.NewSrtcp? || (pc.Publishing? && pc.mux)
  }

  predicate AfterMarking(pc: ClosePc) { !(pc.NotClosing? || pc.Cancelling? || pc.Marking?) }

  predicate AfterTakingStart(pc: ClosePc) {
    pc.AwaitingReady? || AfterReady(pc)
  }

  predicate AfterReady(pc: ClosePc) {
    pc.SecondPass? || pc.SecondClosing? || pc.ClosingRaw? || pc.CloseDone?
  }

  /** The start guard decides who closes the ready channel, and it is closed once. */
  ghost predicate ReadyInvariant(s: State) {
    && (s.run == NotStarted ==> s.v.readyCloses == if s.v.startTaken then 1 else 0)
    && (s.run != NotStarted ==> s.v.startTaken && s.v.readyCloses == if s.run == Finished then 1 else 0)
    && (s.run == NotStarted && s.v.startTaken ==> AfterTakingStart(s.close))
    && (AfterTakingStart(s.close) ==> s.v.startTaken)
    && (AfterReady(s.close) ==> s.v.readyCloses == 1)
    && (s.v.closed <==> AfterMarking(s.close))
    && (s.closeReturns > 0 ==> s.close == CloseDone)
    && (s.cancelled <==> !s.close.NotClosing? && !s.close.Cancelling?)
  }

  /** Everything created is registered, closed, or still in the hands of the run goroutine. */
  predicate Accounted(s: State, r: Resource) {
    && (r in s.v.fields || r in s.shut || Holds(s.run, r) || r == Raw ==> r in s.created)
    && (r in s.v.fields || Holds(s.run, r) ==> r != Raw)
    && (r in s.created ==> r in s.v.fields || r in s.shut || Holds(s.run, r) || r == Raw)
    && (r == Raw ==> (r in s.shut <==> s.close == CloseDone))
    && (s.close.FirstClosing? && r in s.close.rest ==> r in s.v.fields)
    && (s.close.SecondClosing? && r in s.close.rest ==> r in s.v.fields)
    && (s.close.SecondClosing? && r in s.v.fields ==> r in s.shut || r in s.close.rest)
    && (s.close.ClosingRaw? || s.close.CloseDone? ==> (r in s.v.fields ==> r in s.shut))
  }

  ghost predicate LedgerInvariant(s: State) { forall r :: Accounted(s, r) }

  /** What a published result says about the sessions. */
  ghost predicate ResultInvariant(s: State) {
    && (!s.v.published ==> s.v.err.None? && s.v.fields * SESSIONS == {})
    && (s.v.published ==> (s.v.err.None? <==> SESSIONS <= s.v.fields))
    && (s.v.published ==> s.run.Finishing? || s.run.Finished?)
    && (s.run.Publishing? ==> s.run.built <= SESSIONS && (s.run.err.None? <==> s.run.built == SESSIONS))
    && (MuxInUse(s.run) ==> PacketMux in s.v.fields)
    && (s.run.Discarding? || s.run.DropAgent? || s.run.DropIceMux? || s.run.DropMux? ==> s.v.closed)
    && ((s.run.Finishing? || s.run.Finished?) && !s.v.published ==> s.v.closed)
  }

  ghost predicate Inv(s: State) {
    ReadyInvariant(s) && LedgerInvariant(s) && ResultInvariant(s)
  }

  // ------------------------------------------------------- every interleaving

  lemma CloseOrderCovers(fields: set<Resource>, r: Resource)
    ensures r in CloseOrder(fields) <==> r in fields && r != Raw
  {
    var order := [IceAgent, IceMux, PacketMux, Srtp, Srtcp, Dtls];
    assert order[0] == IceAgent && order[1] == IceMux && order[2] == PacketMux;
    assert order[3] == Srtp && order[4] == Srtcp && order[5] == Dtls;
    match r
    case _ =>
  }

  lemma DiscardOrderCovers(built: set<Resource>, r: Resource)
    requires built <= SESSIONS + {PacketMux}
    ensures r in DiscardOrder(built) <==> r in built
  {
    var order := [Srtp, Srtcp, Dtls, PacketMux];
    assert order[0] == Srtp && order[1] == Srtcp && order[2] == Dtls && order[3] == PacketMux;
    match r
    case _ =>
  }

  lemma TakeHead(rest: seq<Resource>, r: Resource)
    requires rest != []
    ensures r in rest <==> r == rest[0] || r in rest[1..]
  {
    assert rest == [rest[0]] + rest[1..];
  }

  lemma RunFrame(s: State, ok: bool)
    requires Enabled(s, Run(ok))
    ensures
      var t := RunStep(s, ok);
      && t.close == s.close && t.closeReturns == s.closeReturns && t.cancelled == s.cancelled
      && t.v.startTaken == s.v.startTaken && t.v.closed == s.v.closed
      && t.v.readyCloses == s.v.readyCloses + (if s.run == Finishing then 1 else 0)
      && t.run != NotStarted && (t.run == Finished <==> s.run == Finishing)
  {
    hide DiscardOrder;
  }

  lemma RunKeepsReady(s: State, ok: bool)
    requires ReadyInvariant(s) && Enabled(s, Run(ok))
    ensures ReadyInvariant(RunStep(s, ok))
  {
    hide RunStep;
    RunFrame(s, ok);
  }

  lemma OpeningKeeps(s: State, made: Resource, next: RunPc, r: Resource)
    requires Accounted(s, r) && made != Raw
    requires Holds(next, r) <==> Holds(s.run, r) || r == made
    ensures Accounted(Opening(s, made, next), r)
  {
    hide Holds;
  }

  lemma ShuttingKeeps(s: State, gone: Resource, next: RunPc, r: Resource)
    requires Accounted(s, r) && Accounted(s, gone) && Holds(s.run, gone)
    requires Holds(next, r) ==> Holds(s.run, r)
    requires Holds(s.run, r) && r != gone ==> Holds(next, r)
    ensures Accounted(Shutting(s, gone).(run := next), r)
  {
    hide Holds;
  }

  lemma MovingKeeps(s: State, next: RunPc, r: Resource)
    requires Accounted(s, r)
    requires Holds(next, r) <==> Holds(s.run, r)
    ensures Accounted(s.(run := next), r)
  {
    hide Holds;
  }

  lemma RegisteringKeeps(s: State, built: set<Resource>, next: RunPc, r: Resource)
    requires Accounted(s, r) && ReadyInvariant(s) && !s.v.closed
    requires r in built ==> Holds(s.run, r)
    requires Holds(next, r) ==> Holds(s.run, r)
    requires Holds(s.run, r) ==> Holds(next, r) || r in built
    ensures Accounted(s.(v := Registered(s.v, built), run := next), r)
  {
    hide Holds;
  }

  lemma BuildingIceKeeps(s: State, ok: bool, r: Resource)
    requires Enabled(s, Run(ok)) && LedgerInvariant(s) && ReadyInvariant(s)
    requires
      || s.run.NewIceMux? || s.run.NewAgent? || s.run.AgentFailed?
      || s.run.RegisterIce? || s.run.DropAgent? || s.run.DropIceMux?
    ensures Accounted(RunStep(s, ok), r)
  {
    hide Accounted;
    var next := RunStep(s, ok).run;
    match s.run
    case NewIceMux => OpeningKeeps(s, IceMux, next, r);
    case NewAgent =>
      if ok {
        OpeningKeeps(s, IceAgent, next, r);
      } else {
        MovingKeeps(s, next, r);
      }
    case AgentFailed => ShuttingKeeps(s, IceMux, next, r);
    case RegisterIce =>
      if s.v.closed {
        MovingKeeps(s, next, r);
      } else {
        RegisteringKeeps(s, {IceAgent, IceMux}, next, r);
      }
    case DropAgent => ShuttingKeeps(s, IceAgent, next, r);
    case DropIceMux => ShuttingKeeps(s, IceMux, next, r);
  }

  lemma BuildingMuxKeeps(s: State, ok: bool, r: Resource)
    requires Enabled(s, Run(ok)) && LedgerInvariant(s) && ReadyInvariant(s)
    requires s.run.NewMux? || s.run.RegisterMux? || s.run.DropMux?
    ensures Accounted(RunStep(s, ok), r)
  {
    hide Accounted;
    var next := RunStep(s, ok).run;
    match s.run
    case NewMux => OpeningKeeps(s, PacketMux, next, r);
    case RegisterMux =>
      if s.v.closed {
        MovingKeeps(s, next, r);
      } else {
        RegisteringKeeps(s, {PacketMux}, next, r);
      }
    case DropMux => ShuttingKeeps(s, PacketMux, next, r);
  }

  lemma BuildingSessionsKeeps(s: State, ok: bool, r: Resource)
    requires Enabled(s, Run(ok)) && LedgerInvariant(s) && (s.run.NewDtls? || s.run.NewSrtp? || s.run.NewSrtcp?)
    ensures Accounted(RunStep(s, ok), r)
  {
    hide Accounted;
    var next := RunStep(s, ok).run;
    var made := if s.run.NewDtls? then Dtls else if s.run.NewSrtp? then Srtp else Srtcp;
    if ok {
      OpeningKeeps(s, made, next, r);
    } else {
      MovingKeeps(s, next, r);
    }
  }

  lemma MovingWithinKeeps(s: State, next: RunPc, r: Resource)
    requires Accounted(s, r)
    requires Holds(s.run, r) ==> Holds(next, r)
    requires Holds(next, r) ==> Holds(s.run, r) || r in s.v.fields
    ensures Accounted(s.(run := next), r)
  {
    hide Holds;
  }

  lemma DiscardKeeps(s: State, ok: bool, r: Resource)
    requires s.run.Publishing? && s.v.closed && Accounted(s, r) && ResultInvariant(s)
    ensures Accounted(RunStep(s, ok), r)
  {
    hide Accounted, DiscardOrder;
    DiscardOrderCovers(s.run.built + if s.run.mux then {PacketMux} else {}, r);
    MovingWithinKeeps(s, RunStep(s, ok).run, r);
  }

  lemma PublishingKeeps(s: State, ok: bool, r: Resource)
    requires s.run.Publishing? && Inv(s)
    ensures Accounted(RunStep(s, ok), r)
  {
    hide Accounted;
    if s.v.closed {
      hide RunStep;
      DiscardKeeps(s, ok, r);
    } else {
      forall r | r in s.v.fields ensures r !in SESSIONS {
        assert r !in s.v.fields * SESSIONS;
      }
      hide ReadyInvariant, ResultInvariant;
      RegisteringKeeps(s, s.run.built, Finishing, r);
      ResultKeeps(s, Finishing, r);
    }
  }

  /** Recording the outcome changes no resource. */
  lemma ResultKeeps(s: State, next: RunPc, r: Resource)
    requires s.run.Publishing? && !s.v.closed && s.v.fields - SESSIONS == s.v.fields
    requires Accounted(s.(v := Registered(s.v, s.run.built), run := next), r)
    ensures Accounted(s.(v := ResultSet(s.v, s.run.built, s.run.err), run := next), r)
  {
  }

  lemma DiscardingKeeps(s: State, ok: bool, r: Resource)
    requires s.run.Discarding? && LedgerInvariant(s)
    ensures Accounted(RunStep(s, ok), r)
  {
    hide Accounted;
    var rest := s.run.rest;
    if rest == [] {
      MovingKeeps(s, Finishing, r);
    } else {
      TakeHead(rest, r);
      ShuttingKeeps(s, rest[0], Discarding(rest[1..]), r);
    }
  }

  lemma FinishingKeeps(s: State, r: Resource)
    requires s.run == Finishing && Accounted(s, r)
    ensures Accounted(RunStep(s, true), r)
  {
  }

  lemma RunKeepsAccount(s: State, ok: bool, r: Resource)
    requires Enabled(s, Run(ok)) && Inv(s)
    ensures Accounted(RunStep(s, ok), r)
  {
    hide Accounted, ReadyInvariant, ResultInvariant;
    if s.run.Publishing? {
      PublishingKeeps(s, ok, r);
    } else if s.run.Discarding? {
      DiscardingKeeps(s, ok, r);
    } else if s.run.Connecting? || s.run.Handshaking? {
      MovingKeeps(s, RunStep(s, ok).run, r);
    } else if s.run.Finishing? {
      FinishingKeeps(s, r);
    } else if s.run.NewMux? || s.run.RegisterMux? || s.run.DropMux? {
      hide RunStep;
      BuildingMuxKeeps(s, ok, r);
    } else if s.run.NewDtls? || s.run.NewSrtp? || s.run.NewSrtcp? {
      hide RunStep;
      BuildingSessionsKeeps(s, ok, r);
    } else {
      hide RunStep;
      BuildingIceKeeps(s, ok, r);
    }
  }

  lemma RunKeepsResult(s: State, ok: bool)
    requires Enabled(s, Run(ok)) && ResultInvariant(s)
    ensures ResultInvariant(RunStep(s, ok))
  {
    hide DiscardOrder;
  }

  lemma CloseKeepsReady(s: State)
    requires Enabled(s, Close) && ReadyInvariant(s)
    ensures ReadyInvariant(CloseStep(s))
  {
    hide CloseOrder;
  }

  lemma CloseKeepsResult(s: State)
    requires Enabled(s, Close) && ResultInvariant(s)
    ensures ResultInvariant(CloseStep(s))
  {
    hide CloseOrder;
  }

  lemma CloseShuttingKeeps(s: State, gone: Resource, next: ClosePc, r: Resource)
    requires Accounted(s, r) && Accounted(s, gone) && gone in s.v.fields
    requires s.close.FirstClosing? || s.close.SecondClosing?
    requires s.close.rest != [] && gone == s.close.rest[0]
    requires next == if s.close.FirstClosing? then FirstClosing(s.close.rest[1..]) else SecondClosing(s.close.rest[1..])
    ensures Accounted(Shutting(s, gone).(close := next), r)
  {
    hide Holds;
    TakeHead(s.close.rest, r);
  }

  lemma ClosePassKeeps(s: State, todo: seq<Resource>, r: Resource)
    requires Accounted(s, r) && (s.close.FirstPass? || s.close.SecondPass?)
    requires r in todo <==> r in s.v.fields && r != Raw
    ensures Accounted(s.(close := if s.close.FirstPass? then FirstClosing(todo) else SecondClosing(todo)), r)
  {
    hide Holds;
  }

  lemma CloseMoveKeeps(s: State, r: Resource)
    requires Enabled(s, Close) && Accounted(s, r)
    requires !s.close.FirstPass? && !s.close.SecondPass?
    requires s.close.FirstClosing? || s.close.SecondClosing? ==> s.close.rest == []
    ensures Accounted(CloseStep(s), r)
  {
    hide Holds, CloseOrder;
  }

  lemma CloseKeepsAccount(s: State, r: Resource)
    requires Enabled(s, Close) && LedgerInvariant(s)
    ensures Accounted(CloseStep(s), r)
  {
    assert Accounted(s, r);
    if s.close.FirstPass? || s.close.SecondPass? {
      hide Accounted, CloseOrder;
      CloseOrderCovers(s.v.fields, r);
      ClosePassKeeps(s, CloseOrder(s.v.fields), r);
    } else if (s.close.FirstClosing? || s.close.SecondClosing?) && s.close.rest != [] {
      assert Accounted(s, s.close.rest[0]);
      CloseShuttingKeeps(s, s.close.rest[0], CloseStep(s).close, r);
    } else {
      hide Accounted, CloseStep;
      CloseMoveKeeps(s, r);
    }
  }

  lemma StepKeeps(s: State, a: Action)
    requires Inv(s) && Enabled(s, a)
    ensures Inv(Step(s, a))
  {
    match a
    case Run(ok) =>
      hide RunStep, Accounted;
      RunKeepsReady(s, ok);
      RunKeepsResult(s, ok);
      forall r ensures Accounted(RunStep(s, ok), r) {
        RunKeepsAccount(s, ok, r);
      }
    case Close =>
      hide CloseStep, Accounted;
      CloseKeepsReady(s);
      CloseKeepsResult(s);
      forall r ensures Accounted(CloseStep(s), r) {
        CloseKeepsAccount(s, r);
      }
    case _ =>
      forall r ensures Accounted(Step(s, a), r) {
        assert Accounted(s, r);
      }
  }

  lemma {:induction false} ExecKeeps(actions: seq<Action>)
    ensures Exec(actions).Some? ==> Inv(Exec(actions).value)
  {
    if actions == [] {
      assert forall r :: Accounted(INITIAL, r);
    } else {
      hide Inv, Enabled, Step;
      ExecKeeps(actions[..|actions| - 1]);
      var before, a := Exec(actions[..|actions| - 1]), actions[|actions| - 1];
      if before.Some? && Enabled(before.value, a) {
        StepKeeps(before.value, a);
      }
    }
  }

  // --------------------------------------------------------------- main laws

  lemma ReachableKeeps(s: State)
    requires Reachable(s)
    ensures Inv(s)
  {
    var actions :| Exec(actions) == Some(s);
    ExecKeeps(actions);
  }

  /** The ready channel is closed at most once, and exactly once when any Close has returned. */
  lemma ReadyClosesOnce(s: State)
    requires Reachable(s)
    ensures s.v.readyCloses <= 1
    ensures s.closeReturns > 0 ==> s.v.readyCloses == 1
  {
    ReachableKeeps(s);
  }

  /** Close cancels the context first: before it marks the transport closed, closes anything or waits. */
  lemma CloseCancelsFirst(s: State)
    requires Reachable(s)
    ensures s.cancelled <==> s.close != NotClosing && s.close != Cancelling
    ensures s.v.closed || s.closeReturns > 0 || Raw in s.shut ==> s.cancelled
  {
    ReachableKeeps(s);
    assert Accounted(s, Raw);
    hide ResultInvariant;
  }

  /** When any Close has returned, everything ever created has been closed. */
  lemma CloseLeavesNothingOpen(s: State)
    requires Reachable(s) && s.closeReturns > 0
    ensures s.created == s.shut && Raw in s.shut
  {
    ReachableKeeps(s);
    assert Accounted(s, Raw);
    forall r ensures r in s.created <==> r in s.shut {
      assert Accounted(s, r);
      assert !Holds(s.run, r);
    }
  }

  /** What `Wait` returns once the ready channel is closed. */
  function WaitResult(v: Shared): Option<Failure> { v.err }

  /** Unless it was closed, a transport that reports success has all its sessions. */
  lemma ReadyMeansSessions(s: State)
    requires Reachable(s) && s.v.readyCloses > 0 && !s.v.closed
    ensures WaitResult(s.v).None? <==> SESSIONS <= s.v.fields
  {
    ReachableKeeps(s);
  }

  /** Success is reported without a session exactly when no result was recorded. */
  lemma SuccessWithoutSession(s: State)
    requires Reachable(s) && s.v.readyCloses > 0
    ensures WaitResult(s.v).None? && Srtp !in s.v.fields <==> !s.v.published
  {
    ReachableKeeps(s);
    if !s.v.published {
      assert Srtp !in s.v.fields * SESSIONS;
    }
  }

  /** The goroutine enters setResult, or the registration of its mux, and finds the transport closed. */
  predicate MeetsClosed(s: State, a: Action) {
    a.Run? && (s.run.Publishing? || s.run.RegisterMux?) && s.v.closed
  }

  /** It does so at the `i`-th step of a run. */
  predicate MeetsClosedAt(actions: seq<Action>, i: nat)
    requires i < |actions|
  {
    Exec(actions[..i]).Some? && MeetsClosed(Exec(actions[..i]).value, actions[i])
  }

  ghost predicate MetClosed(actions: seq<Action>) {
    exists i :: 0 <= i < |actions| && MeetsClosedAt(actions, i)
  }

  /** The goroutine is past those sections and has recorded nothing. */
  predicate LeftWithoutResult(s: State) {
    (s.run.Discarding? || s.run.DropMux? || s.run.Finishing? || s.run.Finished?) && !s.v.published
  }

  lemma StepLeavesWithoutResult(s: State, a: Action)
    requires ReadyInvariant(s) && ResultInvariant(s) && Enabled(s, a)
    ensures LeftWithoutResult(Step(s, a)) <==> LeftWithoutResult(s) || MeetsClosed(s, a)
  {
    hide DiscardOrder, CloseOrder;
  }

  lemma MetClosedGrows(init: seq<Action>, a: Action)
    requires Exec(init).Some?
    ensures MetClosed(init + [a]) <==> MetClosed(init) || MeetsClosed(Exec(init).value, a)
  {
    hide Exec, MeetsClosed;
    var actions := init + [a];
    assert actions[..|init|] == init;
    forall i | 0 <= i < |init| ensures MeetsClosedAt(actions, i) <==> MeetsClosedAt(init, i) {
      assert actions[..i] == init[..i];
    }
    if MeetsClosed(Exec(init).value, a) {
      assert MeetsClosedAt(actions, |init|);
    }
    if MetClosed(init) {
      var i :| 0 <= i < |init| && MeetsClosedAt(init, i);
      assert MeetsClosedAt(actions, i);
    }
  }

  lemma {:induction false} MetClosedIff(actions: seq<Action>)
    requires Exec(actions).Some?
    ensures MetClosed(actions) <==> LeftWithoutResult(Exec(actions).value)
  {
    if actions != [] {
      var init, a := actions[..|actions| - 1], actions[|actions| - 1];
      assert actions == init + [a];
      MetClosedIff(init);
      ExecKeeps(init);
      hide Step, Enabled, MetClosed, MeetsClosed, LeftWithoutResult, ReadyInvariant, LedgerInvariant, ResultInvariant;
      StepLeavesWithoutResult(Exec(init).value, a);
      MetClosedGrows(init, a);
    }
  }

  /**
   Over every run: once the waiters are released, Wait reports success although there is no
   session if and only if the goroutine was never launched, or found the transport closed
   when it entered setResult or the registration of its mux.
   */
  lemma SuccessWithoutSessionIff(actions: seq<Action>)
    requires Exec(actions).Some? && Exec(actions).value.v.readyCloses > 0
    ensures
      var s := Exec(actions).value;
      WaitResult(s.v).None? && Srtp !in s.v.fields <==> s.run == NotStarted || MetClosed(actions)
  {
    hide Exec, MetClosed;
    var s := Exec(actions).value;
    assert Exec(actions) == Some(s);
    assert Reachable(s);
    MetClosedIff(actions);
    SuccessWithoutSession(s);
    ExecKeeps(actions);
    hide LedgerInvariant;
  }

  // -------------------------------------------------------------- no deadlock

  /** At least as many steps as the goroutine still takes. */
  function RunWork(pc: RunPc): nat {
    match pc
    case NotStarted => 26
    case NewIceMux => 25
    case NewAgent => 24
    case AgentFailed => 23
    case RegisterIce => 23
    case DropAgent => 22
    case DropIceMux => 21
    case Connecting => 20
    case NewMux => 19
    case RegisterMux => 18
    case DropMux => 17
    case NewDtls => 17
    case Handshaking => 16
    case NewSrtp => 15
    case NewSrtcp => 14
    case Publishing(_, _, _) => 7
    case Discarding(rest) => 2 + |rest|
    case Finishing => 1
    case Finished => 0
  }

  /** At least as many steps as Close still takes. */
  function CloseWork(pc: ClosePc): nat {
    match pc
    case NotClosing => 22
    case Cancelling => 21
    case Marking => 20
    case FirstPass => 19
    case FirstClosing(rest) => 12 + |rest|
    case TakingStart => 11
    case AwaitingReady => 10
    case SecondPass => 9
    case SecondClosing(rest) => 2 + |rest|
    case ClosingRaw => 1
    case CloseDone => 0
  }

  function Work(s: State): nat { RunWork(s.run) + CloseWork(s.close) }

  lemma OrdersAreShort(rs: set<Resource>)
    ensures |DiscardOrder(rs)| <= 4 && |CloseOrder(rs)| <= 6
  {
    PickedIsShort([Srtp, Srtcp, Dtls, PacketMux], rs);
    PickedIsShort([IceAgent, IceMux, PacketMux, Srtp, Srtcp, Dtls], rs);
  }

  lemma {:induction false} PickedIsShort(order: seq<Resource>, from: set<Resource>)
    ensures |Picked(order, from)| <= |order|
  {
    if order != [] {
      PickedIsShort(order[1..], from);
    }
  }

  lemma PublishingProgresses(s: State, ok: bool)
    requires s.run.Publishing? || s.run.Discarding?
    ensures RunWork(RunStep(s, ok).run) < RunWork(s.run) && RunStep(s, ok).close == s.close
  {
    hide DiscardOrder, ResultSet;
    if s.run.Publishing? {
      OrdersAreShort(s.run.built + if s.run.mux then {PacketMux} else {});
    }
  }

  lemma BuildingProgresses(s: State, ok: bool)
    requires Enabled(s, Run(ok)) && !s.run.Publishing? && !s.run.Discarding?
    ensures RunWork(RunStep(s, ok).run) < RunWork(s.run) && RunStep(s, ok).close == s.close
  {
    hide DiscardOrder, Registered, ResultSet;
  }

  /** Every step of the goroutine, whatever the outcome of its library call, is one step nearer to its end. */
  lemma RunProgresses(s: State, ok: bool)
    requires Enabled(s, Run(ok))
    ensures RunWork(RunStep(s, ok).run) < RunWork(s.run) && RunStep(s, ok).close == s.close
  {
    hide RunStep, RunWork;
    if s.run.Publishing? || s.run.Discarding? {
      PublishingProgresses(s, ok);
    } else {
      BuildingProgresses(s, ok);
    }
  }

  lemma CloseProgresses(s: State)
    requires Enabled(s, Close)
    ensures CloseWork(CloseStep(s).close) < CloseWork(s.close) && CloseStep(s).run == s.run
  {
    hide CloseOrder;
    OrdersAreShort(s.v.fields);
  }

  /** A step of Close or of the goroutine. */
  predicate IsOwn(a: Action) { a.Run? || a.Close? }

  lemma StepWorks(s: State, a: Action)
    requires Inv(s) && Enabled(s, a)
    ensures Work(Step(s, a)) + (if IsOwn(a) then 1 else 0) <= Work(s)
  {
    hide LedgerInvariant, ResultInvariant;
    match a
    case Run(ok) =>
      hide RunStep, RunWork, CloseWork;
      RunProgresses(s, ok);
    case Close =>
      hide CloseStep, RunWork, CloseWork;
      CloseProgresses(s);
    case _ =>
  }

  function OwnSteps(actions: seq<Action>): nat {
    if actions == [] then 0
    else OwnSteps(actions[..|actions| - 1]) + if IsOwn(actions[|actions| - 1]) then 1 else 0
  }

  /** A Close under way can go on, or waits for a goroutine that can, whatever its library call yields. */
  lemma SomebodyProgresses(s: State)
    requires Inv(s) && s.close != NotClosing && s.close != CloseDone
    ensures Enabled(s, Close) || forall ok :: Enabled(s, Run(ok))
  {
    hide CloseOrder, LedgerInvariant, ResultInvariant;
  }

  /** In every run the steps of Close and of the goroutine are bounded by what was left to do. */
  lemma {:induction false} OwnStepsAreBounded(actions: seq<Action>, more: seq<Action>)
    requires Exec(actions).Some? && Exec(actions + more).Some?
    ensures OwnSteps(more) + Work(Exec(actions + more).value) <= Work(Exec(actions).value)
  {
    if more == [] {
      assert actions + more == actions;
    } else {
      var init, a := more[..|more| - 1], more[|more| - 1];
      assert actions + more == actions + init + [a];
      ExecAppend(actions + init, a);
      hide Exec, Work, Enabled, Step, Inv;
      ExecKeeps(actions + init);
      OwnStepsAreBounded(actions, init);
      StepWorks(Exec(actions + init).value, a);
    }
  }

  /**
   Close ends in every run: whatever else happens, it and the goroutine together take at
   most 48 steps, and where neither of them can take one, Close is done.
   */
  lemma CloseEndsInEveryRun(actions: seq<Action>)
    requires Exec(actions).Some?
    ensures OwnSteps(actions) <= 48
    ensures
      var s := Exec(actions).value;
      s.close != NotClosing && !Enabled(s, Close) && (exists ok :: !Enabled(s, Run(ok))) ==> s.close == CloseDone
  {
    assert [] + actions == actions;
    assert Exec([]) == Some(INITIAL) && Work(INITIAL) == 48;
    hide Exec, Work, Enabled;
    OwnStepsAreBounded([], actions);
    ExecKeeps(actions);
    hide Inv;
    var s := Exec(actions).value;
    if s.close != NotClosing && s.close != CloseDone {
      SomebodyProgresses(s);
    }
  }

  lemma ExecAppend(actions: seq<Action>, a: Action)
    ensures Exec(actions + [a]) ==
            if Exec(actions).Some? && Enabled(Exec(actions).value, a) then Some(Step(Exec(actions).value, a)) else None
  {
    assert (actions + [a])[..|actions|] == actions;
  }

  /** From every reachable state in which Close was called, Close and the goroutine alone reach its end. */
  lemma {:induction false} CloseCompletes(actions: seq<Action>, ok: bool) returns (more: seq<Action>)
    requires Exec(actions).Some? && Exec(actions).value.close != NotClosing
    ensures Exec(actions + more).Some? && Exec(actions + more).value.close == CloseDone
    ensures forall a :: a in more ==> a == Close || a == Run(ok)
    decreases Work(Exec(actions).value)
  {
    hide Exec, Inv, Enabled, Work, Step;
    var s := Exec(actions).value;
    if s.close == CloseDone {
      more := [];
      assert actions + more == actions;
    } else {
      ExecKeeps(actions);
      SomebodyProgresses(s);
      var a := if Enabled(s, Close) then Close else Run(ok);
      StepWorks(s, a);
      StepKeepsClosing(s, a);
      ExecAppend(actions, a);
      var rest := CloseCompletes(actions + [a], ok);
      more := [a] + rest;
      assert actions + more == actions + [a] + rest;
    }
  }

  lemma StepKeepsClosing(s: State, a: Action)
    requires Enabled(s, a) && s.close != NotClosing
    ensures Step(s, a).close != NotClosing
  {
    hide DiscardOrder, CloseOrder;
  }

  lemma {:induction false} NoResultWithoutStart(actions: seq<Action>)
    requires Exec(actions).Some? && Start !in actions
    ensures Exec(actions).value.run == NotStarted && !Exec(actions).value.v.published
  {
    if actions != [] {
      hide CloseOrder;
      NoResultWithoutStart(actions[..|actions| - 1]);
    }
  }

  /** Before the goroutine is launched there is nothing but the raw socket. */
  lemma {:induction false} NothingBeforeStart(actions: seq<Action>)
    requires Exec(actions).Some? && Exec(actions).value.run == NotStarted
    ensures Exec(actions).value.created == {Raw}
  {
    if actions != [] {
      var init, a := actions[..|actions| - 1], actions[|actions| - 1];
      var s := Exec(init).value;
      assert s.run == NotStarted && Step(s, a).created == s.created by { StepBeforeStart(s, a); }
      hide Step, Enabled;
      NothingBeforeStart(init);
    }
  }

  lemma StepBeforeStart(s: State, a: Action)
    requires Enabled(s, a) && Step(s, a).run == NotStarted
    ensures s.run == NotStarted && Step(s, a).created == s.created
  {
    if a.Run? {
      RunFrame(s, a.ok);
    }
    hide RunStep, CloseOrder;
  }

  /** A step from a reachable state leads to one. */
  lemma ReachableStep(s: State, a: Action)
    requires Reachable(s) && Enabled(s, a)
    ensures Reachable(Step(s, a))
  {
    hide Exec, Step, Enabled;
    var actions :| Exec(actions) == Some(s);
    ExecAppend(actions, a);
  }

  /** Success without a session does happen: close a transport that was never started. */
  lemma SuccessWithoutSessionHappens() returns (s: State)
    ensures Reachable(s) && s.v.readyCloses > 0
    ensures WaitResult(s.v).None? && Srtp !in s.v.fields
  {
    assert [CallClose][..0] == [];
    assert Exec([CallClose]) == Some(INITIAL.(close := Cancelling));
    var more := CloseCompletes([CallClose], true);
    var actions := [CallClose] + more;
    s := Exec(actions).value;
    assert Exec(actions) == Some(s);
    NoResultWithoutStart(actions);
    ReachableKeeps(s);
    SuccessWithoutSession(s);
  }
}

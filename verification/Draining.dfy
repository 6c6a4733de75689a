/**
 What Shutdown achieves (lines 556 to 571 of internal/call/manager.go), given that Accept
 looks at the draining flag only before it opens its socket, while Dial looks again.
 */
module Draining {
  import opened Sequences
  import opened Manager
  import opened Progress
  import WholeRuns
  import Sdp
  import Call

  // ----------------------------------------------------- what Shutdown misses

  /** An Accept that has passed the draining check and not yet registered its call. */
  predicate Early(o: Op) { o.AcceptListening? || o.AcceptBuilding? || o.AcceptRegistering? }

  predicate AcceptInFlight(s: State) { exists o :: o in s.desk.ops && Early(s.desk.ops[o]) }

  /** Every call in the registry is cancelled. */
  predicate AllCancelled(s: State) {
    forall id :: id in s.registry ==> s.registry[id] in s.heap && s.heap[s.registry[id]].cancelled
  }

  /** The manager drains, nobody can add a call, and Shutdown has or had every call on its list. */
  predicate Quiet(s: State) {
    s.draining && !AcceptInFlight(s) && s.registry.Values <= s.snapshot
  }

  lemma QuietStepDesk(s: State, a: Action, o: nat)
    requires s.draining && Enabled(s, a) && IsDeskStep(a)
    requires var d := DeskStep(s, a); o in d.ops && Early(d.ops[o])
    ensures o in s.desk.ops && Early(s.desk.ops[o])
  {
  }

  lemma QuietRegister(s: State, op: nat, call: nat)
    requires Quiet(s) && Enabled(s, Register(op, call))
    ensures Quiet(RegisterStep(s, op, call))
  {
    assert s.desk.ops[op].DialRegistering?;
    var t := RegisterStep(s, op, call);
    forall o | o in t.desk.ops ensures !Early(t.desk.ops[o]) {
      assert o != op ==> !Early(s.desk.ops[o]);
    }
  }

  lemma QuietStep(s: State, a: Action)
    requires Quiet(s) && Enabled(s, a)
    ensures Quiet(Step(s, a))
  {
    var t := Step(s, a);
    hide Call.Step, Call.Enabled, Early;
    if a.Register? {
      hide Quiet, RegisterStep, DeskStep;
      QuietRegister(s, a.op, a.call);
    } else if IsDeskStep(a) {
      hide DeskStep, RegisterStep;
      forall o | o in t.desk.ops ensures !Early(t.desk.ops[o]) {
        if Early(t.desk.ops[o]) {
          QuietStepDesk(s, a, o);
        }
      }
    } else {
      hide DeskStep, RegisterStep;
    }
  }

  lemma {:induction false} QuietRun(s: State, actions: seq<Action>)
    requires Quiet(s)
    ensures Runs(s, actions).Some? ==> Quiet(Runs(s, actions).value)
    decreases |actions|
  {
    hide Quiet, Step, Enabled;
    if actions != [] && Enabled(s, actions[0]) {
      QuietStep(s, actions[0]);
      QuietRun(Step(s, actions[0]), actions[1..]);
    }
  }

  lemma QuietIsCancelled(s: State)
    requires Quiet(s) && Inv(s) && s.lock.Free?
    ensures AllCancelled(s)
  {
    hide CallsValid, RegistryValid, CountValid, SocketsValid, OpsValid;
    forall id | id in s.registry ensures s.registry[id] in s.heap && s.heap[s.registry[id]].cancelled {
      assert s.registry[id] in s.registry.Values;
    }
  }

  /** Carries an Accept in flight on to the registration of a call that nobody cancels. */
  lemma {:induction false} AcceptIsRegistered(s: State, op: nat) returns (actions: seq<Action>, t: State)
    requires Inv(s) && s.lock.Free? && op in s.desk.ops && Early(s.desk.ops[op])
    ensures Runs(s, actions) == Some(t) && t.lock.Free? && !AllCancelled(t)
    decreases if s.desk.ops[op].AcceptListening? then 2 else if s.desk.ops[op].AcceptBuilding? then 1 else 0
  {
    if s.desk.ops[op].AcceptRegistering? {
      hide Inv, Early;
      actions, t := AcceptRegisters(s, op);
    } else {
      var a := NextOfAccept(s, op);
      hide Inv, Enabled, Step, Early, AllCancelled;
      StepKeeps(s, a);
      var rest;
      rest, t := AcceptIsRegistered(Step(s, a), op);
      actions := [a] + rest;
      RunsFirst(s, a, rest);
    }
  }

  lemma NextOfAccept(s: State, op: nat) returns (a: Action)
    requires op in s.desk.ops && (s.desk.ops[op].AcceptListening? || s.desk.ops[op].AcceptBuilding?)
    ensures Enabled(s, a) && Step(s, a).lock == s.lock && op in Step(s, a).desk.ops
    ensures
      var o := Step(s, a).desk.ops[op];
      if s.desk.ops[op].AcceptListening? then o.AcceptBuilding? else o.AcceptRegistering?
  {
    hide RegisterStep;
    if s.desk.ops[op].AcceptListening? {
      var socket := Unused(s.desk.sockets.Keys);
      a := Listen(op, true, socket);
    } else {
      var n: Sdp.Neg := *;
      a := Build(op, true, n);
    }
  }

  /** The last step, after the call that has the same identifier, if any, has ended. */
  lemma AcceptRegisters(s: State, op: nat) returns (actions: seq<Action>, t: State)
    requires Inv(s) && s.lock.Free? && op in s.desk.ops && s.desk.ops[op].AcceptRegistering?
    ensures Runs(s, actions) == Some(t) && t.lock.Free? && !AllCancelled(t)
  {
    var first, u := [], s;
    var id := s.desk.ops[op].id;
    if id in s.registry {
      var call := s.registry[id];
      RegisteredIsPending(s, id);
      hide Inv, OnRegistry;
      first, u := CallIsFinished(s, call);
    }
    hide Inv, Enabled, Step, AllCancelled;
    var call := Unused(u.heap.Keys);
    var a := Register(op, call);
    RegisterUncancelled(u, op, call);
    t := Step(u, a);
    actions := first + [a];
    RunsFirst(u, a, []);
    RunsAppend(s, first, [a]);
  }

  lemma RegisterUncancelled(s: State, op: nat, call: nat)
    requires s.lock.Free? && op in s.desk.ops && s.desk.ops[op].AcceptRegistering?
    requires call !in s.heap && s.desk.ops[op].id !in s.registry
    ensures Enabled(s, Register(op, call))
    ensures Step(s, Register(op, call)).lock.Free? && !AllCancelled(Step(s, Register(op, call)))
  {
    var id, t := s.desk.ops[op].id, RegisterStep(s, op, call);
    assert t.registry[id] == call && !t.heap[call].cancelled;
  }

  lemma RegisteredIsPending(s: State, id: string)
    requires Inv(s) && id in s.registry
    ensures s.registry[id] in s.heap && OnRegistry(s.heap[s.registry[id]]) && s.heap[s.registry[id]].info.id == id
    ensures s.registry[id] in PendingCalls(s)
  {
    hide CallsValid, CountValid, SocketsValid, OpsValid, DrainValid;
    assert Holds(s, id, s.registry[id]);
  }

  /** Once Shutdown has let go of the mutex, every call in the registry is cancelled. */
  predicate DrainHolds(result: Option<State>) {
    result.Some? && result.value.lock.Free? ==> AllCancelled(result.value)
  }

  lemma ShutdownBegins(s: State)
    requires s.lock.Free?
    ensures Enabled(s, Shutdown)
    ensures
      var t := Step(s, Shutdown);
      t.desk == s.desk && t.draining && s.registry.Values <= t.snapshot && t.registry == s.registry
  {
  }

  /**
   Shutdown cancels every call registered then or later, whatever happens afterwards, if
   and only if no Accept is in flight between its draining check and its registration.
   */
  lemma DrainIsCompleteIff(s: State)
    requires Reachable(s) && s.lock.Free?
    ensures (forall actions :: DrainHolds(Runs(Step(s, Shutdown), actions))) <==> !AcceptInFlight(s)
  {
    hide Inv, Reachable, Runs, Step, Enabled;
    ReachableKeeps(s);
    ShutdownBegins(s);
    ShutdownKeeps(s);
    var t := Step(s, Shutdown);
    if AcceptInFlight(s) {
      var op :| op in s.desk.ops && Early(s.desk.ops[op]);
      hide Early, AcceptInFlight, AllCancelled;
      var first, u := LockIsReleased(t);
      var rest, v := AcceptIsRegistered(u, op);
      RunsAppend(t, first, rest);
      assert !DrainHolds(Runs(t, first + rest));
    } else {
      assert Quiet(t);
      forall actions ensures DrainHolds(Runs(t, actions)) {
        hide Quiet, AcceptInFlight;
        QuietHolds(t, actions);
      }
    }
  }

  lemma QuietHolds(s: State, actions: seq<Action>)
    requires Inv(s) && Quiet(s)
    ensures DrainHolds(Runs(s, actions))
  {
    hide Inv, Quiet, Runs;
    RunKeeps(s, actions);
    QuietRun(s, actions);
    var r := Runs(s, actions);
    if r.Some? && r.value.lock.Free? {
      QuietIsCancelled(r.value);
    }
  }

  /** Every call registered when Shutdown begins is cancelled once it lets go of the mutex, and ever after. */
  lemma RegisteredCallsAreCancelled(s: State, actions: seq<Action>, id: string)
    requires Reachable(s) && s.lock.Free? && id in s.registry
    requires var r := Runs(Step(s, Shutdown), actions); r.Some? && r.value.lock.Free?
    ensures
      var t := Runs(Step(s, Shutdown), actions).value;
      s.registry[id] in t.heap && t.heap[s.registry[id]].cancelled
  {
    hide Inv, Reachable, Runs, Step, Enabled;
    ReachableKeeps(s);
    ShutdownBegins(s);
    ShutdownKeeps(s);
    var u := Step(s, Shutdown);
    assert s.registry[id] in s.registry.Values;
    RunKeeps(u, actions);
    RunSnapshots(u, actions);
    SnapshotIsCancelled(Runs(u, actions).value, s.registry[id]);
  }

  lemma RunSnapshots(s: State, actions: seq<Action>)
    requires Inv(s) && Runs(s, actions).Some?
    ensures s.snapshot <= Runs(s, actions).value.snapshot
  {
    hide Inv, Runs;
    WholeRuns.RunPersists(s, actions);
    hide WholeRuns.HeapPersists, WholeRuns.DeskPersists;
  }

  lemma SnapshotIsCancelled(s: State, call: nat)
    requires Inv(s) && s.lock.Free? && call in s.snapshot
    ensures call in s.heap && s.heap[call].cancelled
  {
    hide CallsValid, RegistryValid, CountValid, SocketsValid, OpsValid;
  }

  /** While the manager drains, nothing but a late Accept enters the registry: no outbound call does. */
  lemma NoOutboundAfterDraining(s: State, a: Action, id: string)
    requires Enabled(s, a) && s.draining && id in Step(s, a).registry && id !in s.registry
    ensures
      && a.Register? && Early(s.desk.ops[a.op])
      && Step(s, a).registry[id] == a.call && !Step(s, a).heap[a.call].info.outbound
  {
    hide Call.Step, Call.Enabled, DeskStep;
  }

  // ------------------------------------------------------- every schedule drains

  /** A step of one call, or of Shutdown on one call, makes no call pending. */
  lemma CallStepPending(c: Call.Call, a: Call.Action)
    requires Call.Enabled(c, a) && Pending(Call.Step(c, a))
    ensures Pending(c)
  {
    hide Call.Step, Call.Enabled, Pending, OnRegistry;
    CallStepEvolves(c, a);
  }

  lemma QuietRegisterPending(s: State, op: nat, call: nat)
    requires Quiet(s) && Enabled(s, Register(op, call))
    ensures PendingCalls(RegisterStep(s, op, call)) <= PendingCalls(s)
  {
    assert s.desk.ops[op].DialRegistering?;
  }

  /** While the manager drains quietly the wait group counts nobody new. */
  lemma QuietStepPending(s: State, a: Action)
    requires Quiet(s) && Enabled(s, a)
    ensures PendingCalls(Step(s, a)) <= PendingCalls(s)
  {
    if a.Register? {
      hide Quiet, RegisterStep, Pending;
      QuietRegisterPending(s, a.op, a.call);
    } else {
      var t := Step(s, a);
      hide Quiet, Call.Step, Call.Enabled, RegisterStep, DeskStep;
      forall c | c in PendingCalls(t) ensures c in PendingCalls(s) {
        match a
        case OnCall(k, act) =>
          if k == c {
            CallStepPending(s.heap[k], act);
          }
        case ShutdownStop(k) =>
          if k == c {
            WholeRuns.StopIsCallStep(s.heap[k]);
            CallStepPending(s.heap[k], Call.StopBusiness);
          }
        case ShutdownCancel =>
          if s.lock.cancelling.value == c {
            CallStepPending(s.heap[c], Call.Cancel);
          }
        case _ =>
      }
    }
  }

  lemma {:induction false} QuietRunPending(s: State, actions: seq<Action>)
    requires Quiet(s) && Runs(s, actions).Some?
    ensures PendingCalls(Runs(s, actions).value) <= PendingCalls(s)
    decreases |actions|
  {
    hide Quiet, Step, Enabled, PendingCalls;
    if actions != [] {
      QuietStep(s, actions[0]);
      QuietStepPending(s, actions[0]);
      QuietRunPending(Step(s, actions[0]), actions[1..]);
    }
  }

  /** After the mutex is released no counted call needs anybody's failure or timeout to go on. */
  lemma QuietCallsGoOn(s: State, call: nat)
    requires Inv(s) && Quiet(s) && s.lock.Free? && call in PendingCalls(s)
    ensures Enabled(s, NextStep(s, call)) && Stepper(NextStep(s, call)) == Some(call) && !IsFault(NextStep(s, call))
  {
    assert Unfinished(s.heap[call]);
    NextStepEffect(s, call);
    if OnRegistry(s.heap[call]) {
      RegisteredIsListed(s, call);
      SnapshotIsCancelled(s, call);
    }
    hide Inv, Enabled, Step, Quiet;
  }

  lemma RegisteredIsListed(s: State, call: nat)
    requires Inv(s) && Quiet(s) && call in s.heap && OnRegistry(s.heap[call])
    ensures call in s.snapshot
  {
    hide CallsValid, CountValid, SocketsValid, OpsValid, DrainValid, OnRegistry, AcceptInFlight;
    assert s.registry[s.heap[call].info.id] in s.registry.Values;
  }

  /**
   If no Accept is in flight when Shutdown begins, every schedule drains the manager. In every
   run the goroutines of the calls that were counted take at most 24 steps each, nobody else
   is ever counted, and after the mutex is released each call that is still counted has a
   step that needs no failure or timeout; so where they have none left, the count is zero.
   */
  lemma QuietShutdownDrains(s: State, actions: seq<Action>)
    requires Reachable(s) && s.lock.Free? && !AcceptInFlight(s) && Runs(Step(s, Shutdown), actions).Some?
    ensures
      var t, counted := Runs(Step(s, Shutdown), actions).value, PendingCalls(s);
      && |counted| == s.wg && OwnSteps(actions, counted) <= 24 * s.wg && PendingCalls(t) <= counted
      && (t.lock.Free? ==> forall call :: call in PendingCalls(t) ==> CanGoOn(t, call))
      && (t.lock.Free? && (forall call :: call in counted ==> !CanGoOn(t, call)) ==> t.wg == 0)
  {
    hide Inv, Reachable, Runs, Step, Enabled, Quiet, CanGoOn, OwnSteps, AcceptInFlight, PendingCalls;
    ShutdownBegins(s);
    var u := Step(s, Shutdown);
    ReachableKeeps(s);
    ShutdownKeeps(s);
    ShutdownIsQuiet(s);
    RunKeeps(u, actions);
    QuietRun(u, actions);
    QuietRunPending(u, actions);
    CountIsPending(s);
    PendingExist(s);
    OwnStepsAreBounded(u, actions, PendingCalls(s));
    var t := Runs(u, actions).value;
    CountIsPending(t);
    if t.lock.Free? {
      forall call | call in PendingCalls(t) ensures CanGoOn(t, call) {
        QuietMayGoOn(t, call);
      }
    }
  }

  /** The goroutine of the call has a step that is not a failure or timeout. */
  ghost predicate CanGoOn(s: State, call: nat) {
    exists a :: Enabled(s, a) && Stepper(a) == Some(call) && !IsFault(a)
  }

  lemma QuietMayGoOn(s: State, call: nat)
    requires Inv(s) && Quiet(s) && s.lock.Free? && call in PendingCalls(s)
    ensures CanGoOn(s, call)
  {
    assert call in s.heap;
    hide Inv, Quiet, PendingCalls, Enabled, Stepper, NextStep;
    QuietCallsGoOn(s, call);
  }

  lemma ShutdownIsQuiet(s: State)
    requires s.lock.Free? && !AcceptInFlight(s)
    ensures Quiet(Step(s, Shutdown)) && Step(s, Shutdown).heap == s.heap
    ensures PendingCalls(Step(s, Shutdown)) == PendingCalls(s)
  {
    hide Pending;
  }

  lemma PendingExist(s: State)
    ensures PendingCalls(s) <= s.heap.Keys
  {
  }

  /** Such an Accept is possible: Shutdown cannot promise more. */
  lemma AcceptInFlightHappens() returns (s: State)
    ensures Reachable(s) && s.lock.Free? && AcceptInFlight(s)
  {
    var a := BeginAccept(0, "id", "room");
    s := Step(INITIAL, a);
    assert Early(s.desk.ops[0]);
    hide Enabled, Step;
    assert Enabled(INITIAL, a) by { BeginIsEnabled(); }
    RunsFirst(INITIAL, a, []);
    assert Runs(INITIAL, [a] + []) == Some(s);
  }

  lemma BeginIsEnabled()
    ensures Enabled(INITIAL, BeginAccept(0, "id", "room"))
  {
  }
}

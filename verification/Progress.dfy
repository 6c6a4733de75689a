/**
 Progress in the manager (lines 88 to 322 and 537 to 571 of internal/call/manager.go): calls,
 operations and Shutdown take boundedly many steps of their own in every run, and none of
 them is stuck unless it waits for somebody who is not.
 */
module Progress {
  import opened Sequences
  import opened Manager
  import WholeRuns
  import Sdp
  import Call

  // -------------------------------------------------------------------- calls

  /** The call whose goroutine takes the step, if it is one. */
  function Stepper(a: Action): Option<nat> {
    match a
    case OnCall(call, act) => if act.Run? then Some(call) else None
    case Unregister(call) => Some(call)
    case Uncount(call) => Some(call)
    case CloseDone(call) => Some(call)
    case _ => None
  }

  /** The goroutine has steps left; that of an unregistered call ends with its cleanup. */
  predicate Unfinished(c: Call.Call) { !c.pc.Finish? || (c.info.registered && c.pc.finish != Call.Finished) }

  function NextStep(s: State, call: nat): Action
    requires call in s.heap
  {
    var pc := s.heap[call].pc;
    if pc == Call.Finish(Call.Released) then Unregister(call)
    else if pc == Call.Finish(Call.Uncounting) then Uncount(call)
    else if pc.Finish? then CloseDone(call)
    else OnCall(call, Call.Run(Call.NextChoice(s.heap[call])))
  }

  /** A failure or timeout is what the step stands for. */
  predicate IsFault(a: Action) { a.OnCall? && a.a == Call.Run(Call.Fault) }

  /** What the next step of a goroutine does to the manager. */
  lemma NextStepEffect(s: State, call: nat)
    requires call in s.heap && Unfinished(s.heap[call]) && s.lock.Free?
    ensures Enabled(s, NextStep(s, call)) && Stepper(NextStep(s, call)) == Some(call)
    ensures s.heap[call].cancelled ==> !IsFault(NextStep(s, call))
    ensures
      var c, t := s.heap[call], Step(s, NextStep(s, call));
      && call in t.heap && t.heap[call].info == c.info
      && t.desk == s.desk && t.lock == s.lock && t.draining == s.draining
      && t.registry == (if c.pc == Call.Finish(Call.Released) then s.registry - {c.info.id} else s.registry)
      && t.wg == (if c.pc == Call.Finish(Call.Uncounting) then s.wg - 1 else s.wg)
      && (Pending(t.heap[call]) <==> Pending(c) && c.pc != Call.Finish(Call.Uncounting))
      && (OnRegistry(t.heap[call]) <==> OnRegistry(c) && c.pc != Call.Finish(Call.Released))
  {
    var c := s.heap[call];
    if !c.pc.Finish? {
      hide Call.Step, Call.NextChoice;
      GoroutineGoesOn(c);
      Call.StepFrame(c, Call.Run(Call.NextChoice(c)));
    } else {
      hide Call.Step, Call.Enabled;
    }
  }

  lemma GoroutineGoesOn(c: Call.Call)
    requires !c.pc.Finish?
    ensures Call.Enabled(c, Call.Run(Call.NextChoice(c)))
    ensures c.cancelled ==> Call.NextChoice(c) != Call.Fault
  {
    hide Call.Step;
    Call.RunAdvances(c, Call.StopBusiness);
  }

  /** A goroutine's own step brings it nearer to its end, and no other step moves it. */
  lemma StepDistance(s: State, a: Action, call: nat)
    requires Enabled(s, a) && call in s.heap
    ensures call in Step(s, a).heap
    ensures
      var c, d := s.heap[call], Step(s, a).heap[call];
      if Stepper(a) == Some(call) then Call.Distance(d.pc) < Call.Distance(c.pc) else d.pc == c.pc
  {
    hide Call.Step, Call.Enabled, Call.Distance, DeskStep;
    match a
    case OnCall(k, act) => Call.RunAdvances(s.heap[k], act);
    case ShutdownStop(k) =>
      WholeRuns.StopIsCallStep(s.heap[k]);
      Call.RunAdvances(s.heap[k], Call.StopBusiness);
    case ShutdownCancel => Call.RunAdvances(s.heap[s.lock.cancelling.value], Call.Cancel);
    case Unregister(k) => FinishDistances();
    case Uncount(k) => FinishDistances();
    case CloseDone(k) => FinishDistances();
    case _ =>
  }

  lemma FinishDistances()
    ensures Call.Distance(Call.Finish(Call.Finished)) < Call.Distance(Call.Finish(Call.ClosingDone))
    ensures Call.Distance(Call.Finish(Call.ClosingDone)) < Call.Distance(Call.Finish(Call.Uncounting))
    ensures Call.Distance(Call.Finish(Call.Uncounting)) < Call.Distance(Call.Finish(Call.Released))
  {
  }

  /** How many steps of a run the goroutines of the given calls take. */
  function OwnSteps(actions: seq<Action>, calls: set<nat>): nat {
    if actions == [] then 0
    else
      var k := Stepper(actions[0]);
      (if k.Some? && k.value in calls then 1 else 0) + OwnSteps(actions[1..], calls)
  }

  /** How many steps the goroutines of the given calls have left, at most. */
  ghost function Total(heap: map<nat, Call.Call>, calls: set<nat>): nat
    requires calls <= heap.Keys
  {
    if calls == {} then 0
    else
      var c :| c in calls;
      Call.Distance(heap[c].pc) + Total(heap, calls - {c})
  }

  lemma {:induction false} TotalSplit(heap: map<nat, Call.Call>, calls: set<nat>, c: nat)
    requires c in calls && calls <= heap.Keys
    ensures Total(heap, calls) == Call.Distance(heap[c].pc) + Total(heap, calls - {c})
  {
    hide Call.Distance;
    var d :| d in calls && Total(heap, calls) == Call.Distance(heap[d].pc) + Total(heap, calls - {d});
    if d != c {
      TotalSplit(heap, calls - {d}, c);
      TotalSplit(heap, calls - {c}, d);
      assert calls - {d} - {c} == calls - {c} - {d};
    }
  }

  lemma {:induction false} TotalSame(heap: map<nat, Call.Call>, after: map<nat, Call.Call>, calls: set<nat>)
    requires calls <= heap.Keys && calls <= after.Keys
    requires forall c :: c in calls ==> after[c].pc == heap[c].pc
    ensures Total(after, calls) == Total(heap, calls)
  {
    hide Call.Distance;
    if calls != {} {
      var c :| c in calls;
      TotalSplit(heap, calls, c);
      TotalSplit(after, calls, c);
      TotalSame(heap, after, calls - {c});
    }
  }

  lemma {:induction false} TotalIsBounded(heap: map<nat, Call.Call>, calls: set<nat>)
    requires calls <= heap.Keys
    ensures Total(heap, calls) <= 24 * |calls|
  {
    if calls != {} {
      var c :| c in calls;
      TotalSplit(heap, calls, c);
      TotalIsBounded(heap, calls - {c});
      assert |calls - {c}| == |calls| - 1;
      DistanceIsBounded(heap[c].pc);
      hide Call.Distance;
    }
  }

  lemma DistanceIsBounded(pc: Call.Pc)
    ensures Call.Distance(pc) <= 24
  {
  }

  lemma StepTotal(s: State, a: Action, calls: set<nat>)
    requires Enabled(s, a) && calls <= s.heap.Keys
    ensures calls <= Step(s, a).heap.Keys
    ensures Total(Step(s, a).heap, calls) + OwnSteps([a], calls) <= Total(s.heap, calls)
  {
    hide Step, Enabled, Call.Distance, Total;
    var t := Step(s, a);
    forall c | c in calls ensures c in t.heap && (Stepper(a) != Some(c) ==> t.heap[c].pc == s.heap[c].pc) {
      StepDistance(s, a, c);
    }
    assert [a][1..] == [];
    if Stepper(a).Some? && Stepper(a).value in calls {
      var c := Stepper(a).value;
      StepDistance(s, a, c);
      TotalSplit(s.heap, calls, c);
      TotalSplit(t.heap, calls, c);
      TotalSame(s.heap, t.heap, calls - {c});
    } else {
      TotalSame(s.heap, t.heap, calls);
    }
  }

  /**
   In every run, whoever else takes how many steps, the goroutines of any set of calls take
   no more steps of their own than they had left, which is at most 24 for each of them.
   */
  lemma {:induction false} OwnStepsAreBounded(s: State, actions: seq<Action>, calls: set<nat>)
    requires Runs(s, actions).Some? && calls <= s.heap.Keys
    ensures calls <= Runs(s, actions).value.heap.Keys
    ensures OwnSteps(actions, calls) + Total(Runs(s, actions).value.heap, calls) <= Total(s.heap, calls) <= 24 * |calls|
    decreases |actions|
  {
    hide Step, Enabled, Stepper, Total;
    TotalIsBounded(s.heap, calls);
    if actions != [] {
      var a := actions[0];
      StepTotal(s, a, calls);
      OwnStepsAreBounded(Step(s, a), actions[1..], calls);
      assert [a][1..] == [];
    }
  }

  // --------------------------------------------------------------- operations

  lemma {:induction false} Unused(used: set<nat>) returns (n: nat)
    ensures n !in used && forall k :: k in used ==> k < n
  {
    if used == {} {
      n := 0;
    } else {
      var k :| k in used;
      n := Unused(used - {k});
      n := if k < n then n else k + 1;
      assert used == (used - {k}) + {k};
    }
  }

  /** How many steps an operation has left, at most; none once it has returned. */
  function Remaining(d: Desk, op: nat): nat {
    if op !in d.ops then 0
    else
      match d.ops[op]
      case AcceptListening(_, _) => 4
      case AcceptBuilding(_, _, _) => 3
      case AcceptRegistering(_, _, _, _) => 2
      case AcceptDiscarding(_, _, _) => 1
      case DialListening(_) => 5
      case DialBuilding(_, _) => 4
      case DialAsking(_, _, _) => 3
      case DialRegistering(_, _, _, _) => 2
      case DialDraining(_) => 1
  }

  predicate MovesOnly(d: Desk, e: Desk, op: nat, moved: bool) {
    if moved then Remaining(e, op) < Remaining(d, op) else Remaining(e, op) == Remaining(d, op)
  }

  lemma RegisterOps(s: State, o: nat, call: nat)
    requires Enabled(s, Register(o, call))
    ensures
      var ops, after := s.desk.ops, RegisterStep(s, o, call).desk.ops;
      && (ops[o].AcceptRegistering? || ops[o].DialRegistering?)
      && (after == ops - {o}
          || (o in after && after == ops[o := after[o]] && (after[o].AcceptDiscarding? || after[o].DialDraining?)))
  {
    hide Call.NewInbound, Call.NewOutbound;
  }

  lemma RegisterRemaining(s: State, o: nat, call: nat, op: nat)
    requires Enabled(s, Register(o, call)) && op in s.desk.ops
    ensures MovesOnly(s.desk, RegisterStep(s, o, call).desk, op, o == op)
  {
    hide RegisterStep;
    RegisterOps(s, o, call);
  }

  lemma DeskRemaining(s: State, a: Action, op: nat)
    requires Enabled(s, a) && IsDeskStep(a) && op in s.desk.ops
    ensures MovesOnly(s.desk, DeskStep(s, a), op, IsOpStep(a) && a.op == op)
  {
  }

  /** An operation's own step brings it nearer to its return, and no other step moves it. */
  lemma StepRemaining(s: State, a: Action, op: nat)
    requires Enabled(s, a) && op in s.desk.ops
    ensures MovesOnly(s.desk, Step(s, a).desk, op, IsOpStep(a) && a.op == op)
  {
    hide Call.Step, Call.Enabled, RegisterStep, DeskStep, Remaining;
    if a.Register? {
      RegisterRemaining(s, a.op, a.call, op);
    } else if IsDeskStep(a) {
      DeskRemaining(s, a, op);
    }
  }

  /** A Dial that was given an identifier that is registered, which fresh identifiers rule out. */
  predicate HasStaleIdentifier(s: State, o: Op) { o.DialRegistering? && !s.draining && o.id in s.registry }

  /** A Dial that met a draining manager waits for the end of its call's cleanup. */
  predicate WaitsForCall(s: State, o: Op) { o.DialDraining? && o.call in s.heap && !s.heap[o.call].pc.Finish? }

  /** A step of an operation that waits for nobody. */
  lemma NextOfOperation(s: State, op: nat) returns (a: Action)
    requires s.lock.Free? && op in s.desk.ops && OpRefersToCall(s, s.desk.ops[op])
    requires !HasStaleIdentifier(s, s.desk.ops[op]) && !WaitsForCall(s, s.desk.ops[op])
    ensures IsOpStep(a) && a.op == op && Enabled(s, a)
  {
    var o := s.desk.ops[op];
    if o.AcceptListening? || o.DialListening? {
      var socket := Unused(s.desk.sockets.Keys);
      a := Listen(op, true, socket);
    } else if o.AcceptBuilding? || o.DialBuilding? {
      var n: Sdp.Neg := *;
      a := Build(op, true, n);
    } else if o.DialAsking? {
      a := AskMeta(op, false, "");
    } else if o.AcceptRegistering? || o.DialRegistering? {
      var call := Unused(s.heap.Keys);
      a := Register(op, call);
    } else if o.AcceptDiscarding? {
      a := Discard(op);
    } else {
      a := DrainReturn(op);
    }
  }

  /** While the mutex is free an operation can go on, or waits for a call of its own that can. */
  lemma OperationGoesOn(s: State, op: nat) returns (a: Action)
    requires Inv(s) && s.lock.Free? && op in s.desk.ops && !HasStaleIdentifier(s, s.desk.ops[op])
    ensures
      if WaitsForCall(s, s.desk.ops[op]) then a == NextStep(s, s.desk.ops[op].call) && Enabled(s, a)
      else IsOpStep(a) && a.op == op && Enabled(s, a) && Remaining(Step(s, a).desk, op) < Remaining(s.desk, op)
  {
    hide Step, Remaining, Enabled, NextStep, CallsValid, RegistryValid, CountValid, SocketsValid, OpsValid, DrainValid;
    InFlight(s, op);
    if WaitsForCall(s, s.desk.ops[op]) {
      NextStepEffect(s, s.desk.ops[op].call);
      a := NextStep(s, s.desk.ops[op].call);
    } else {
      a := NextOfOperation(s, op);
      StepRemaining(s, a, op);
    }
  }

  /** How many steps of a run are those of operation `op`. */
  function OpSteps(actions: seq<Action>, op: nat): nat {
    if actions == [] then 0
    else (if IsOpStep(actions[0]) && actions[0].op == op then 1 else 0) + OpSteps(actions[1..], op)
  }

  /** In every run an operation in flight takes at most five steps, the last of which returns. */
  lemma {:induction false} OpStepsAreBounded(s: State, actions: seq<Action>, op: nat)
    requires Inv(s) && Runs(s, actions).Some? && (op in s.desk.ops || op in s.desk.outcomes)
    ensures OpSteps(actions, op) + Remaining(Runs(s, actions).value.desk, op) <= Remaining(s.desk, op) <= 5
    decreases |actions|
  {
    assert Remaining(s.desk, op) <= 5;
    hide Inv, Step, Enabled, Remaining;
    if actions != [] {
      var a := actions[0];
      StepKeeps(s, a);
      OpStepWorks(s, a, op);
      OpStepsAreBounded(Step(s, a), actions[1..], op);
    }
  }

  lemma OpStepWorks(s: State, a: Action, op: nat)
    requires Inv(s) && Enabled(s, a) && (op in s.desk.ops || op in s.desk.outcomes)
    ensures op in Step(s, a).desk.ops || op in Step(s, a).desk.outcomes
    ensures
      Remaining(Step(s, a).desk, op) + (if IsOpStep(a) && a.op == op then 1 else 0) <= Remaining(s.desk, op)
  {
    hide Step, Enabled, CallsValid, RegistryValid, CountValid, SocketsValid, DrainValid;
    if op in s.desk.ops {
      StepRemaining(s, a, op);
      ReturnsOnce(s, a, op);
    } else {
      ReturnedStays(s, a, op);
    }
  }

  /** An operation that leaves has a result. */
  lemma ReturnsOnce(s: State, a: Action, op: nat)
    requires Enabled(s, a) && op in s.desk.ops
    ensures op in Step(s, a).desk.ops || op in Step(s, a).desk.outcomes
  {
    hide Call.Step, Call.Enabled;
    if op !in Step(s, a).desk.ops {
      OnlyOwnStepsReturn(s, a, op);
    }
  }

  /** One that has returned is not heard of again. */
  lemma ReturnedStays(s: State, a: Action, op: nat)
    requires Inv(s) && Enabled(s, a) && op in s.desk.outcomes
    ensures op in Step(s, a).desk.outcomes && op !in Step(s, a).desk.ops && !(IsOpStep(a) && a.op == op)
    ensures op !in s.desk.ops
  {
    hide Step, Enabled, Inv;
    WholeRuns.StepPersists(s, a);
    StepKeeps(s, a);
    OpsAreDisjoint(s);
    OpsAreDisjoint(Step(s, a));
    if IsOpStep(a) {
      OpStepIsInFlight(s, a);
    }
  }

  lemma OpsAreDisjoint(s: State)
    requires Inv(s)
    ensures s.desk.ops.Keys !! s.desk.outcomes.Keys
  {
    hide CallsValid, RegistryValid, CountValid, SocketsValid, DrainValid;
  }

  lemma OpStepIsInFlight(s: State, a: Action)
    requires Enabled(s, a) && IsOpStep(a)
    ensures a.op in s.desk.ops
  {
  }

  // ----------------------------------------------------------------- Shutdown

  /** The sum of what Shutdown still has to do while it holds the mutex. */
  function Work(lock: Lock): nat {
    match lock
    case Free => 0
    case Draining(todo, cancelling) =>
      1 + 2 * |todo| - if cancelling.Some? && todo != {} then 1 else 0
  }

  lemma CancelIsCallStep(c: Call.Call)
    requires Call.Stopped(c.g.flags)
    ensures Call.Enabled(c, Call.Cancel)
  {
  }

  lemma WorkShrinks(todo: set<nat>, call: nat)
    requires call in todo
    ensures Work(Draining(todo - {call}, None)) < Work(Draining(todo, Some(call))) < Work(Draining(todo, None))
  {
    assert |todo - {call}| == |todo| - 1;
  }

  /** The call that Shutdown is stopping is on its list, and so are calls that exist. */
  lemma ShutdownList(s: State)
    requires Inv(s) && s.lock.Draining?
    ensures s.lock.todo <= s.heap.Keys
    ensures s.lock.cancelling.Some? ==>
      s.lock.cancelling.value in s.lock.todo && Call.Enabled(s.heap[s.lock.cancelling.value], Call.Cancel)
  {
    hide CallsValid, RegistryValid, CountValid, SocketsValid, OpsValid, OnRegistry, Call.Stopped, Call.Enabled;
    if s.lock.cancelling.Some? {
      CancelIsCallStep(s.heap[s.lock.cancelling.value]);
    }
  }

  /** Shutdown goes on with its list and touches nothing else of the manager. */
  predicate ShutdownAdvances(s: State, a: Action) {
    && (a.ShutdownStop? || a.ShutdownCancel? || a.ShutdownRelease?)
    && Enabled(s, a)
    && var t := Step(s, a);
       Work(t.lock) < Work(s.lock) && t.desk == s.desk && t.registry == s.registry && t.draining == s.draining
  }

  lemma ShutdownStopAdvances(s: State, call: nat)
    requires Enabled(s, ShutdownStop(call))
    ensures ShutdownAdvances(s, ShutdownStop(call))
  {
    hide Call.Step, Call.Enabled, Work;
    WorkShrinks(s.lock.todo, call);
  }

  lemma ShutdownCancelAdvances(s: State)
    requires Enabled(s, ShutdownCancel) && s.lock.cancelling.value in s.lock.todo
    ensures ShutdownAdvances(s, ShutdownCancel)
  {
    hide Call.Step, Call.Enabled, Work;
    WorkShrinks(s.lock.todo, s.lock.cancelling.value);
  }

  lemma ShutdownReleaseAdvances(s: State)
    requires Enabled(s, ShutdownRelease)
    ensures ShutdownAdvances(s, ShutdownRelease)
  {
  }

  /** Shutdown never waits for anybody while it holds the manager mutex. */
  lemma ShutdownProgresses(s: State) returns (a: Action)
    requires Inv(s) && s.lock.Draining?
    ensures ShutdownAdvances(s, a)
  {
    hide Inv, Step, Call.Enabled, ShutdownAdvances;
    ShutdownList(s);
    if s.lock.cancelling.Some? {
      ShutdownCancelAdvances(s);
      a := ShutdownCancel;
    } else if s.lock.todo == {} {
      ShutdownReleaseAdvances(s);
      a := ShutdownRelease;
    } else {
      var call :| call in s.lock.todo;
      ShutdownStopAdvances(s, call);
      a := ShutdownStop(call);
    }
  }

  /**
   No reachable state is a deadlock. If Shutdown holds the mutex it has a next step. If not,
   every goroutine of a call that has not ended has a next step, which stands for a failure
   or timeout only while an uncancelled call waits; and every operation in flight has one,
   or waits for such a goroutine, unless Meta gave it an identifier that is not fresh.
   */
  lemma NobodyIsStuck(s: State)
    requires Reachable(s)
    ensures s.lock.Draining? ==> exists a :: ShutdownAdvances(s, a)
    ensures s.lock.Free? ==> forall call :: call in s.heap && Unfinished(s.heap[call]) ==>
      && Enabled(s, NextStep(s, call)) && Stepper(NextStep(s, call)) == Some(call)
      && (IsFault(NextStep(s, call)) ==> Call.Waiting(s.heap[call]) && !s.heap[call].cancelled)
    ensures s.lock.Free? ==> forall op :: op in s.desk.ops ==> OperationIsFree(s, op)
  {
    ReachableKeeps(s);
    hide Inv, Reachable, Step, Enabled, Stepper, NextStep, ShutdownAdvances, OperationIsFree;
    if s.lock.Draining? {
      var a := ShutdownProgresses(s);
    } else {
      forall call | call in s.heap && Unfinished(s.heap[call])
        ensures Enabled(s, NextStep(s, call)) && Stepper(NextStep(s, call)) == Some(call)
        ensures IsFault(NextStep(s, call)) ==> Call.Waiting(s.heap[call]) && !s.heap[call].cancelled
      {
        NextStepEffect(s, call);
        OnlyWaitersNeedFaults(s, call);
      }
      forall op | op in s.desk.ops ensures OperationIsFree(s, op) {
        OperationMayGoOn(s, op);
      }
    }
  }

  lemma OnlyWaitersNeedFaults(s: State, call: nat)
    requires call in s.heap
    ensures IsFault(NextStep(s, call)) ==> Call.Waiting(s.heap[call]) && !s.heap[call].cancelled
  {
  }

  ghost predicate OperationIsFree(s: State, op: nat)
    requires op in s.desk.ops
  {
    var o := s.desk.ops[op];
    || HasStaleIdentifier(s, o)
    || (WaitsForCall(s, o) && Enabled(s, NextStep(s, o.call)))
    || exists a :: Enabled(s, a) && IsOpStep(a) && a.op == op
  }

  lemma OperationMayGoOn(s: State, op: nat)
    requires Inv(s) && s.lock.Free? && op in s.desk.ops
    ensures OperationIsFree(s, op)
  {
    hide Inv, Enabled, Step, NextStep;
    if !HasStaleIdentifier(s, s.desk.ops[op]) {
      var a := OperationGoesOn(s, op);
    }
  }

  // ---------------------------------------------------------- building a run

  /** Shutdown can always finish its critical section without anybody else taking a step. */
  lemma {:induction false} LockIsReleased(s: State) returns (actions: seq<Action>, t: State)
    requires Inv(s)
    ensures Runs(s, actions) == Some(t) && Inv(t) && t.lock.Free?
    ensures t.desk == s.desk && t.registry == s.registry && t.draining == s.draining
    decreases Work(s.lock)
  {
    hide Inv, Enabled, Step, Work;
    if s.lock.Free? {
      actions, t := [], s;
    } else {
      var a := ShutdownProgresses(s);
      StepKeeps(s, a);
      var rest;
      rest, t := LockIsReleased(Step(s, a));
      actions := [a] + rest;
      RunsFirst(s, a, rest);
    }
  }

  /** A counted call can always end, leave the registry and be counted down, whatever state it is in. */
  lemma {:induction false} CallIsFinished(s: State, call: nat) returns (actions: seq<Action>, t: State)
    requires Inv(s) && s.lock.Free? && call in PendingCalls(s)
    ensures Runs(s, actions) == Some(t) && Inv(t) && t.lock.Free?
    ensures t.desk == s.desk && t.draining == s.draining && t.wg == s.wg - 1
    ensures t.registry == if OnRegistry(s.heap[call]) then s.registry - {s.heap[call].info.id} else s.registry
    decreases Call.Distance(s.heap[call].pc)
  {
    var last := s.heap[call].pc == Call.Finish(Call.Uncounting);
    assert last ==> !OnRegistry(s.heap[call]);
    assert call in s.heap;
    assert Unfinished(s.heap[call]) && (!last ==> s.heap[call].pc != Call.Finish(Call.Uncounting));
    hide Inv, Enabled, Step, NextStep, OnRegistry, Call.Distance, Pending, Unfinished;
    NextStepEffect(s, call);
    var a := NextStep(s, call);
    StepDistance(s, a, call);
    StepKeeps(s, a);
    var rest := [];
    if last {
      t := Step(s, a);
    } else {
      rest, t := CallIsFinished(Step(s, a), call);
    }
    actions := [a] + rest;
    RunsFirst(s, a, rest);
  }

  /**
   From every reachable state the wait group can still be brought down to zero, which is
   what Shutdown waits for, by steps of Shutdown and of the calls' own goroutines.
   */
  lemma EveryStateCanDrain(s: State) returns (actions: seq<Action>, t: State)
    requires Reachable(s)
    ensures Runs(s, actions) == Some(t) && t.wg == 0 && t.registry == map[] && t.lock.Free?
  {
    hide Inv, Reachable, Runs;
    ReachableKeeps(s);
    var first, u := LockIsReleased(s);
    var rest;
    rest, t := CallsAreFinished(u);
    actions := first + rest;
    RunsAppend(s, first, rest);
    ReachableOnwards(s, actions);
    ZeroMeansReleased(t);
  }

  lemma {:induction false} CallsAreFinished(s: State) returns (actions: seq<Action>, t: State)
    requires Inv(s) && s.lock.Free?
    ensures Runs(s, actions) == Some(t) && Inv(t) && t.lock.Free? && t.wg == 0
    decreases |PendingCalls(s)|
  {
    CountIsPending(s);
    hide Inv, PendingCalls;
    if PendingCalls(s) == {} {
      actions, t := [], s;
    } else {
      var call :| call in PendingCalls(s);
      var first, u := CallIsFinished(s, call);
      CountIsPending(u);
      var rest;
      rest, t := CallsAreFinished(u);
      actions := first + rest;
      RunsAppend(s, first, rest);
    }
  }

  lemma CountIsPending(s: State)
    requires Inv(s)
    ensures s.wg == |PendingCalls(s)|
  {
    hide CallsValid, RegistryValid, SocketsValid, OpsValid, DrainValid;
  }
}

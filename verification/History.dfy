/**
 What happened to a call, told by the actions of a run (lines 249 to 326 and 474 to 535 of
 internal/call/manager.go): which stages of its setup succeeded or failed, and whether the
 user hung up in time. The state of the call, what waiters learn and whether Meta is asked
 to terminate follow from that history alone.
 */
module History {
  import opened Sequences
  import opened Manager
  import WholeRuns
  import Sdp
  import Call

  /** Stages passed, stages that failed, and whether the user hung up before cleanup looked. */
  datatype Past = Past(passed: set<Call.SetupPc>, failed: set<Call.SetupPc>, hungUp: bool)

  const NOTHING: Past := Past({}, {}, false)

  function Plus(p: Past, q: Past): Past { Past(p.passed + q.passed, p.failed + q.failed, p.hungUp || q.hungUp) }

  /** Only these stages have anything that can fail: a foreign call, or waiting for an event. */
  const FALLIBLE: set<Call.SetupPc> :=
    {Call.ConnectingBridge, Call.PreAccepting, Call.AwaitingAnswer, Call.AwaitingTransport, Call.Accepting}

  /** What one action on a call adds to its history. */
  function CallPast(c: Call.Call, a: Call.Action): Past {
    if a == Call.StopUser then Past({}, {}, !Call.PastReading(c.pc))
    else if a.Run? && c.pc.Setup? && a.choice != Call.Done then
      if a.choice == Call.Fault && c.pc.setup in FALLIBLE then Past({}, {c.pc.setup}, false)
      else Past({c.pc.setup}, {}, false)
    else NOTHING
  }

  function StepPast(s: State, a: Action, call: nat): Past {
    if a.OnCall? && a.call == call && call in s.heap then CallPast(s.heap[call], a.a) else NOTHING
  }

  function RunPast(s: State, actions: seq<Action>, call: nat): Past
    decreases |actions|
  {
    if actions == [] || !Enabled(s, actions[0]) then NOTHING
    else Plus(StepPast(s, actions[0], call), RunPast(Step(s, actions[0]), actions[1..], call))
  }

  // ------------------------------------------------------------ what it explains

  /** The stages before a stage, in the order of runInbound and of runOutbound. */
  function Before(outbound: bool, stage: Call.SetupPc): set<Call.SetupPc> {
    if outbound then
      match stage
      case AwaitingAnswer => {Call.ConnectingBridge}
      case FetchingTransport => {Call.ConnectingBridge, Call.AwaitingAnswer}
      case AwaitingTransport => {Call.ConnectingBridge, Call.AwaitingAnswer, Call.FetchingTransport}
      case Connected => {Call.ConnectingBridge, Call.AwaitingAnswer, Call.FetchingTransport, Call.AwaitingTransport}
      case _ => {}
    else
      match stage
      case PreAccepting => {Call.ConnectingBridge}
      case MarkingSignaled => {Call.ConnectingBridge, Call.PreAccepting}
      case AwaitingTransport => {Call.ConnectingBridge, Call.PreAccepting, Call.MarkingSignaled}
      case Accepting => {Call.ConnectingBridge, Call.PreAccepting, Call.MarkingSignaled, Call.AwaitingTransport}
      case Connected =>
        {Call.ConnectingBridge, Call.PreAccepting, Call.MarkingSignaled, Call.AwaitingTransport, Call.Accepting}
      case _ => {}
  }

  /** Inbound calls have no stages of outbound ones, and the other way round. */
  predicate OwnStage(outbound: bool, stage: Call.SetupPc) {
    match stage
    case PreAccepting => !outbound
    case MarkingSignaled => !outbound
    case Accepting => !outbound
    case AwaitingAnswer => outbound
    case FetchingTransport => outbound
    case _ => true
  }

  /** The flags that cleanup saw or, before it looked, would see. */
  function Noted(c: Call.Call): Call.Flags { if c.seen.Some? then c.seen.value else c.g.flags }

  predicate FlagsExplained(c: Call.Call, p: Past) {
    && (Noted(c).userTerminated <==> p.hungUp)
    && (Noted(c).signaled <==> c.info.outbound || Call.MarkingSignaled in p.passed)
  }

  predicate StagesExplained(c: Call.Call, p: Past) {
    && (c.pc.Setup? ==>
          OwnStage(c.info.outbound, c.pc.setup) && Before(c.info.outbound, c.pc.setup) <= p.passed && p.failed == {})
    && (c.reached <==> Call.Connected in p.passed)
    && (c.reached ==> Before(c.info.outbound, Call.Connected) <= p.passed)
  }

  /** The failure of setup, reported or about to be. */
  function SetupFailure(c: Call.Call): Option<Call.Reason> {
    if c.pc.Failing? then Some(c.pc.reason)
    else
      match c.g.verdict
      case Some(Failure(reason)) => if reason == Call.Cancelled then None else Some(reason)
      case _ => None
  }

  predicate FailureExplained(c: Call.Call, p: Past) {
    SetupFailure(c) ==
      if p.failed == {} then None
      else if Call.AwaitingAnswer in p.failed then Some(Call.TimedOut)
      else Some(Call.SetupFailed)
  }

  ghost predicate Explained(c: Call.Call, p: Past) {
    FlagsExplained(c, p) && StagesExplained(c, p) && FailureExplained(c, p)
  }

  // --------------------------------------------------------------- one action

  lemma SetupExplainsFlags(c: Call.Call, choice: Call.Choice, p: Past)
    requires c.pc.Setup? && Call.TerminateInvariant(c) && Call.Enabled(c, Call.Run(choice)) && FlagsExplained(c, p)
    ensures FlagsExplained(Call.SetupStep(c, c.pc.setup, choice), Plus(p, CallPast(c, Call.Run(choice))))
  {
    hide Call.SetupNext;
  }

  lemma CleanupExplainsFlags(c: Call.Call, p: Past)
    requires c.pc.Cleanup? && Call.TerminateInvariant(c) && FlagsExplained(c, p)
    ensures FlagsExplained(Call.CleanupStep(c, c.pc.cleanup), Plus(p, NOTHING))
  {
    hide Call.CleanupNext;
  }

  lemma ActionExplainsFlags(c: Call.Call, a: Call.Action, p: Past)
    requires Call.TerminateInvariant(c) && Call.Enabled(c, a) && FlagsExplained(c, p)
    ensures FlagsExplained(Call.Step(c, a), Plus(p, CallPast(c, a)))
  {
    if a.Run? && c.pc.Setup? {
      hide Call.SetupStep, FlagsExplained, CallPast, Plus;
      SetupExplainsFlags(c, a.choice, p);
    } else if a.Run? && c.pc.Cleanup? {
      hide Call.CleanupStep, FlagsExplained, Plus;
      CleanupExplainsFlags(c, p);
    } else if a.Connect? {
      hide Call.RunStep, Sdp.AppliedParameters;
    } else {
      hide Call.SetupStep, Call.CleanupStep, Call.Answered;
    }
  }

  lemma SetupExplainsStages(c: Call.Call, choice: Call.Choice, p: Past)
    requires c.pc.Setup? && Call.TransportInvariant(c) && Call.VerdictInvariant(c) && Call.Enabled(c, Call.Run(choice))
    requires StagesExplained(c, p)
    ensures StagesExplained(Call.SetupStep(c, c.pc.setup, choice), Plus(p, CallPast(c, Call.Run(choice))))
  {
  }

  lemma ActionExplainsStages(c: Call.Call, a: Call.Action, p: Past)
    requires Call.TransportInvariant(c) && Call.VerdictInvariant(c) && Call.Enabled(c, a) && StagesExplained(c, p)
    ensures StagesExplained(Call.Step(c, a), Plus(p, CallPast(c, a)))
  {
    if a.Run? && c.pc.Setup? {
      hide Call.SetupStep, StagesExplained, CallPast, Plus;
      SetupExplainsStages(c, a.choice, p);
    } else {
      assert CallPast(c, a).passed == {} && CallPast(c, a).failed == {};
      assert p.passed + {} == p.passed && p.failed + {} == p.failed;
      hide Call.SetupStep, Before, OwnStage, CallPast, Sdp.AppliedParameters;
      hide Call.TransportInvariant, Call.VerdictInvariant;
    }
  }

  lemma SetupExplainsFailure(c: Call.Call, choice: Call.Choice, p: Past)
    requires c.pc.Setup? && Call.TransportInvariant(c) && Call.VerdictInvariant(c) && Call.Enabled(c, Call.Run(choice))
    requires StagesExplained(c, p) && FailureExplained(c, p)
    ensures FailureExplained(Call.SetupStep(c, c.pc.setup, choice), Plus(p, CallPast(c, Call.Run(choice))))
  {
    hide Before, OwnStage;
  }

  lemma ActionExplainsFailure(c: Call.Call, a: Call.Action, p: Past)
    requires Call.TransportInvariant(c) && Call.VerdictInvariant(c) && Call.Enabled(c, a)
    requires StagesExplained(c, p) && FailureExplained(c, p)
    ensures FailureExplained(Call.Step(c, a), Plus(p, CallPast(c, a)))
  {
    if a.Run? && c.pc.Setup? {
      hide Call.SetupStep, FailureExplained, CallPast, Plus;
      SetupExplainsFailure(c, a.choice, p);
    } else {
      assert CallPast(c, a).failed == {};
      assert p.failed + {} == p.failed;
      hide Call.SetupStep, Before, OwnStage, CallPast, Sdp.AppliedParameters, Call.TransportInvariant, StagesExplained;
    }
  }

  lemma ActionExplains(c: Call.Call, a: Call.Action, p: Past)
    requires Call.Inv(c) && Call.Enabled(c, a) && Explained(c, p)
    ensures Explained(Call.Step(c, a), Plus(p, CallPast(c, a)))
  {
    hide Call.Step, Call.Enabled, CallPast, Plus, FlagsExplained, StagesExplained, FailureExplained;
    hide Call.FlagsInvariant, Call.VerdictInvariant, Call.TransportInvariant, Call.TerminateInvariant;
    hide Call.SocketInvariant, Call.StageInvariant, Call.AnswerInvariant;
    ActionExplainsFlags(c, a, p);
    ActionExplainsStages(c, a, p);
    ActionExplainsFailure(c, a, p);
  }

  lemma NewCallsExplained(id: string, room: string, socket: nat, n: Sdp.Neg, draining: bool)
    ensures Explained(Call.NewInbound(id, room, socket, n), NOTHING)
    ensures Explained(Call.NewOutbound(id, room, socket, n, draining), NOTHING)
  {
  }

  lemma FinishingExplained(c: Call.Call, next: Call.FinishPc, p: Past)
    requires Explained(c, p) && c.pc.Finish?
    ensures Explained(Call.Finishing(c, next), p)
  {
  }

  // ----------------------------------------------------------------- whole runs

  /** The call, if it exists, is explained by its history so far; if not, it has none. */
  ghost predicate ExplainedIn(s: State, call: nat, p: Past) {
    if call in s.heap then Explained(s.heap[call], p) else p == NOTHING
  }

  lemma PlusNothing(p: Past)
    ensures Plus(p, NOTHING) == p && Plus(NOTHING, p) == p
  {
  }

  lemma RegisterExplains(s: State, op: nat, k: nat, call: nat, p: Past)
    requires Enabled(s, Register(op, k)) && ExplainedIn(s, call, p)
    ensures ExplainedIn(RegisterStep(s, op, k), call, p)
  {
    hide Explained, Call.NewInbound, Call.NewOutbound;
    var o := s.desk.ops[op];
    NewCallsExplained(o.id, o.room, o.socket, o.n, s.draining);
  }

  lemma StepExplains(s: State, a: Action, call: nat, p: Past)
    requires Inv(s) && Enabled(s, a) && ExplainedIn(s, call, p)
    ensures ExplainedIn(Step(s, a), call, Plus(p, StepPast(s, a, call)))
  {
    hide Inv, Explained, Call.Inv, Call.Step, Call.Enabled, CallPast, Plus, RegisterStep, DeskStep;
    PlusNothing(p);
    if call in s.heap {
      CallIsValid(s, call);
    }
    match a
    case Register(op, k) => RegisterExplains(s, op, k, call, p);
    case OnCall(k, act) =>
      if k == call {
        ActionExplains(s.heap[k], act, p);
      }
    case Unregister(k) =>
      if k == call {
        FinishingExplained(s.heap[k], Call.Uncounting, p);
      }
    case Uncount(k) =>
      if k == call {
        FinishingExplained(s.heap[k], Call.ClosingDone, p);
      }
    case CloseDone(k) =>
      if k == call {
        FinishingExplained(s.heap[k], Call.Finished, p);
      }
    case ShutdownStop(k) =>
      if k == call {
        WholeRuns.StopIsCallStep(s.heap[k]);
        StopsAddNothing(s.heap[k]);
        ActionExplains(s.heap[k], Call.StopBusiness, p);
      }
    case ShutdownCancel =>
      if s.lock.cancelling.value == call {
        StopsAddNothing(s.heap[call]);
        ActionExplains(s.heap[call], Call.Cancel, p);
      }
    case _ =>
  }

  lemma StopsAddNothing(c: Call.Call)
    ensures CallPast(c, Call.StopBusiness) == NOTHING && CallPast(c, Call.Cancel) == NOTHING
  {
  }

  lemma PlusAssociates(p: Past, q: Past, r: Past)
    ensures Plus(Plus(p, q), r) == Plus(p, Plus(q, r))
  {
  }

  lemma {:induction false} RunExplains(s: State, actions: seq<Action>, call: nat, p: Past)
    requires Inv(s) && Runs(s, actions).Some? && ExplainedIn(s, call, p)
    ensures ExplainedIn(Runs(s, actions).value, call, Plus(p, RunPast(s, actions, call)))
    decreases |actions|
  {
    hide Inv, Step, Enabled, ExplainedIn, Plus, StepPast;
    PlusNothing(p);
    if actions != [] {
      var a := actions[0];
      StepKeeps(s, a);
      StepExplains(s, a, call, p);
      RunExplains(Step(s, a), actions[1..], call, Plus(p, StepPast(s, a, call)));
      PlusAssociates(p, StepPast(s, a, call), RunPast(Step(s, a), actions[1..], call));
    }
  }

  /** In every run every call is explained by its history. */
  lemma EveryCallIsExplained(actions: seq<Action>, call: nat)
    requires Runs(INITIAL, actions).Some? && call in Runs(INITIAL, actions).value.heap
    ensures Explained(Runs(INITIAL, actions).value.heap[call], RunPast(INITIAL, actions, call))
    ensures Call.Inv(Runs(INITIAL, actions).value.heap[call])
  {
    hide Inv, Runs, RunPast, Explained;
    InitialKeeps();
    RunKeeps(INITIAL, actions);
    RunExplains(INITIAL, actions, call, NOTHING);
    PlusNothing(RunPast(INITIAL, actions, call));
    CallIsValid(Runs(INITIAL, actions).value, call);
  }

  lemma CallIsValid(s: State, call: nat)
    requires Inv(s) && call in s.heap
    ensures Call.Inv(s.heap[call])
  {
    hide RegistryValid, CountValid, SocketsValid, OpsValid, DrainValid, Call.Inv;
  }

  /**
   Once cleanup has taken its decision, Meta was asked to terminate, and then once, exactly if the
   user had not hung up before cleanup looked, and the call is outbound or had passed PreAccept
   and been marked as signalled; before the decision it was not asked.
   */
  lemma TerminateFollowsHangUps(actions: seq<Action>, call: nat)
    requires Runs(INITIAL, actions).Some? && call in Runs(INITIAL, actions).value.heap
    ensures
      var c, p := Runs(INITIAL, actions).value.heap[call], RunPast(INITIAL, actions, call);
      var signalled := c.info.outbound || Call.MarkingSignaled in p.passed;
      c.terminateRequests == if Call.PastTerminating(c.pc) && signalled && !p.hungUp then 1 else 0
  {
    EveryCallIsExplained(actions, call);
    hide Runs, RunPast, StagesExplained, FailureExplained, Call.AnswerInvariant;
    Call.TerminateIsDecidedOnce(Runs(INITIAL, actions).value.heap[call]);
  }

  /** A call that reached `connected` has passed every stage before, in particular PreAccept and Accept. */
  lemma ConnectedMeansAllStages(actions: seq<Action>, call: nat)
    requires Runs(INITIAL, actions).Some? && call in Runs(INITIAL, actions).value.heap
    ensures
      var c, p := Runs(INITIAL, actions).value.heap[call], RunPast(INITIAL, actions, call);
      && (Call.WaitResult(c) == Some(Call.Success) <==> Call.Connected in p.passed)
      && (Call.WaitResult(c) == Some(Call.Success) ==>
            if c.info.outbound then
              {Call.ConnectingBridge, Call.AwaitingAnswer, Call.FetchingTransport, Call.AwaitingTransport} <= p.passed
            else
              && {Call.ConnectingBridge, Call.PreAccepting, Call.MarkingSignaled} <= p.passed
              && {Call.AwaitingTransport, Call.Accepting} <= p.passed)
  {
    EveryCallIsExplained(actions, call);
    hide Runs, RunPast, FlagsExplained, FailureExplained, Call.AnswerInvariant;
    Call.WaitersLearnTheTruth(Runs(INITIAL, actions).value.heap[call]);
  }

  /**
   A waiter learns a timeout exactly if the answer did not come in time, a setup failure exactly
   if some other stage failed, and a cancellation only if nothing failed and it never connected.
   */
  lemma VerdictIsExplained(actions: seq<Action>, call: nat)
    requires Runs(INITIAL, actions).Some? && call in Runs(INITIAL, actions).value.heap
    requires Call.WaitResult(Runs(INITIAL, actions).value.heap[call]).Some?
    ensures
      var v, p := Call.WaitResult(Runs(INITIAL, actions).value.heap[call]).value, RunPast(INITIAL, actions, call);
      && (v == Call.Failure(Call.TimedOut) <==> Call.AwaitingAnswer in p.failed)
      && (v == Call.Failure(Call.SetupFailed) <==> p.failed != {} && Call.AwaitingAnswer !in p.failed)
      && (v == Call.Failure(Call.Cancelled) <==> p.failed == {} && Call.Connected !in p.passed)
  {
    EveryCallIsExplained(actions, call);
    hide Runs, RunPast, FlagsExplained, Before, OwnStage, Call.AnswerInvariant, Call.StageInvariant;
    Call.WaitersLearnTheTruth(Runs(INITIAL, actions).value.heap[call]);
  }
}

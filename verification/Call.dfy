/**
 The life of one call (type Call in internal/call/manager.go).

 Each `Action` is one critical section, channel operation or foreign call of the run
 goroutine or of another goroutine holding the call: Connect, Disconnect, Shutdown, the
 bridge callback. `Record` does the critical sections in place.
 */
module Call {
  import opened Sequences
  import Sdp

  datatype Reason = SetupFailed | TimedOut | Cancelled | NoTransport

  /** The error that `wait` returns once `ready` is closed. */
  datatype Verdict = Success | Failure(reason: Reason)

  datatype Transport = Absent | Created | Closed

  datatype Flags = Flags(terminate: bool, userTerminated: bool, signaled: bool)

  /** Somebody recorded who hung up. */
  predicate Stopped(f: Flags) { f.terminate || f.userTerminated }

  // ------------------------------------------------- what the call mutex guards

  datatype Guarded = Guarded(
    flags: Flags, verdict: Option<Verdict>, transport: Transport, answerCloses: nat, negotiation: Sdp.Neg)

  /** The first report wins. */
  function Reported(g: Guarded, v: Verdict): Guarded {
    if g.verdict.Some? then g else g.(verdict := Some(v))
  }

  function BusinessStopped(g: Guarded): Guarded {
    if g.flags.userTerminated then g else g.(flags := g.flags.(terminate := true))
  }

  function UserStopped(g: Guarded): Guarded {
    g.(flags := g.flags.(userTerminated := true, terminate := false))
  }

  /** Connect's critical section, for an answer already read from its text. */
  function Answered(g: Guarded, answer: Sdp.Result<Sdp.Remote>): Guarded {
    if g.transport != Absent then g
    else
      var (n, err) := Sdp.AppliedParameters(g.negotiation, answer);
      if err.Some? then g.(negotiation := n)
      else g.(negotiation := n, transport := Created, answerCloses := g.answerCloses + 1)
  }

  class Record {
    var terminate: bool
    var userTerminated: bool
    var signaled: bool
    var verdict: Option<Verdict>
    var transport: Transport
    var answerCloses: nat
    var negotiation: Sdp.Neg
    var cancelled: bool

    constructor (outbound: bool, n: Sdp.Neg)
      ensures View() == Guarded(Flags(false, false, outbound), None, if outbound then Absent else Created, 0, n)
      ensures !cancelled
    {
      cancelled := false;
      terminate, userTerminated, signaled := false, false, outbound;
      verdict, transport, answerCloses, negotiation := None, if outbound then Absent else Created, 0, n;
    }

    function View(): Guarded
      reads this
    {
      Guarded(Flags(terminate, userTerminated, signaled), verdict, transport, answerCloses, negotiation)
    }

    method SignalReady(v: Verdict)
      modifies this`verdict
      ensures View() == Reported(old(View()), v)
    {
      if verdict.Some? {
        return;
      }
      verdict := Some(v);
    }

    method StopBusiness()
      modifies this`terminate
      ensures View() == BusinessStopped(old(View()))
    {
      if !userTerminated {
        terminate := true;
      }
    }

    method StopUser()
      modifies this`terminate, this`userTerminated
      ensures View() == UserStopped(old(View()))
    {
      userTerminated := true;
      terminate := false;
    }

    /** Cancels the call's context, outside the mutex, as the second half of both stops. */
    method Cancel()
      modifies this`cancelled
      ensures cancelled
    {
      cancelled := true;
    }

    method Connect(answer: Sdp.Result<Sdp.Remote>) returns (err: Option<Sdp.Error>)
      modifies this`negotiation, this`transport, this`answerCloses
      ensures View() == Answered(old(View()), answer)
      ensures err == if old(transport) != Absent then None else Sdp.AppliedParameters(old(negotiation), answer).1
    {
      hide Sdp.AppliedParameters;
      if transport == Absent {
        var applied := Sdp.AppliedParameters(negotiation, answer);
        negotiation := applied.0;
        if applied.1.Some? {
          return applied.1;
        }
        transport := Created;
        answerCloses := answerCloses + 1;
      }
      return None;
    }
  }

  // ------------------------------------------------------------- the protocol

  datatype SetupPc =
    | ConnectingBridge | PreAccepting | MarkingSignaled | AwaitingAnswer | FetchingTransport
    | AwaitingTransport | Accepting | Connected

  datatype CleanupPc =
    | Reporting | Reading | Terminating | ClosingBridge | CheckingTransport | ClosingTransport | ClosingSocket

  datatype FinishPc = Released | Uncounting | ClosingDone | Finished

  /**
   Where the run goroutine is. `Live` waits for a connected call to end; `Stopping` and
   `Cancelling` are the two halves of stopBusiness, where `reported` says whether the
   verdict was reported before; `Finish` is the rest of finish, done with the manager.
   */
  datatype Pc =
    | Setup(setup: SetupPc)
    | Live
    | Failing(reason: Reason)
    | Stopping(reported: bool)
    | Cancelling(reported: bool)
    | Cleanup(cleanup: CleanupPc)
    | Finish(finish: FinishPc)

  datatype Info = Info(id: string, room: string, outbound: bool, registered: bool, socket: nat, offer: Sdp.Neg)

  datatype Call = Call(
    info: Info, g: Guarded, pc: Pc, cancelled: bool, bridgeOpen: bool, socketClosed: bool,
    answers: seq<Sdp.Result<Sdp.Remote>>, reached: bool, seen: Option<Flags>, terminateRequests: nat)

  /** A call that Accept registers: its transport exists from the start. */
  function NewInbound(id: string, room: string, socket: nat, n: Sdp.Neg): Call {
    Call(Info(id, room, false, true, socket, n), Guarded(Flags(false, false, false), None, Created, 0, n),
         Setup(ConnectingBridge), false, false, false, [], false, None, 0)
  }

  /** A call that Dial made: registered, or stopped at once if the manager is draining. */
  function NewOutbound(id: string, room: string, socket: nat, n: Sdp.Neg, draining: bool): Call {
    Call(Info(id, room, true, !draining, socket, n), Guarded(Flags(false, false, true), None, Absent, 0, n),
         if draining then Stopping(false) else Setup(ConnectingBridge), false, false, false, [], false, None, 0)
  }

  /**
   `Run` is a step of the run goroutine: `Proceed` means that its foreign call or the event
   it waits for succeeded, `Fault` that it failed or timed out, and `Done` that it saw the
   call's context cancelled. stopBusiness and stopUser set the flags and then cancel the
   context in a second step, so `Cancel` may happen whenever a flag is set.
   */
  datatype Choice = Proceed | Fault | Done

  datatype Action = Run(choice: Choice) | StopBusiness | StopUser | Cancel | Connect(answer: Sdp.Result<Sdp.Remote>)

  predicate Enabled(c: Call, a: Action) {
    match a
    case Run(choice) =>
      && !c.pc.Finish?
      && (choice == Done ==> c.cancelled && (c.pc == Setup(AwaitingAnswer) || c.pc == Live))
      && (choice == Proceed && c.pc == Setup(AwaitingAnswer) ==> c.g.answerCloses > 0)
    case Cancel => Stopped(c.g.flags)
    case Connect(_) => c.info.outbound
    case _ => true
  }

  /** Where setup goes next: lines 253 to 275 and 289 to 321. */
  function SetupNext(c: Call, setup: SetupPc, choice: Choice): Pc {
    match setup
    case ConnectingBridge =>
      if choice == Fault then Failing(SetupFailed) else Setup(if c.info.outbound then AwaitingAnswer else PreAccepting)
    case PreAccepting => if choice == Fault then Failing(SetupFailed) else Setup(MarkingSignaled)
    case MarkingSignaled => Setup(AwaitingTransport)
    case AwaitingAnswer =>
      (match choice
       case Done => Cleanup(Reporting)
       case Fault => Failing(TimedOut)
       case Proceed => Setup(FetchingTransport))
    case FetchingTransport => if c.g.transport == Absent then Failing(NoTransport) else Setup(AwaitingTransport)
    case AwaitingTransport =>
      if choice == Fault then Failing(SetupFailed) else Setup(if c.info.outbound then Connected else Accepting)
    case Accepting => if choice == Fault then Failing(SetupFailed) else Setup(Connected)
    case Connected => Live
  }

  function SetupStep(c: Call, setup: SetupPc, choice: Choice): Call {
    var g :=
      if setup == MarkingSignaled then c.g.(flags := c.g.flags.(signaled := true))
      else if setup == Connected then Reported(c.g, Success)
      else c.g;
    c.(g := g, reached := c.reached || setup == Connected,
       bridgeOpen := c.bridgeOpen || (setup == ConnectingBridge && choice != Fault),
       pc := SetupNext(c, setup, choice))
  }

  /** Dial keeps the socket in the call; Accept hands it to the transport and keeps nothing. */
  predicate KeepsSocket(c: Call) { c.info.outbound }

  predicate AsksToTerminate(c: Call) { c.seen.Some? && c.seen.value.terminate && c.seen.value.signaled }

  function CleanupNext(c: Call, cleanup: CleanupPc): Pc {
    match cleanup
    case Reporting => Cleanup(Reading)
    case Reading => Cleanup(Terminating)
    case Terminating => Cleanup(ClosingBridge)
    case ClosingBridge => Cleanup(CheckingTransport)
    case CheckingTransport =>
      if c.g.transport != Absent then Cleanup(ClosingTransport)
      else if KeepsSocket(c) then Cleanup(ClosingSocket)
      else Finish(Released)
    case ClosingTransport => Finish(Released)
    case ClosingSocket => Finish(Released)
  }

  /** Closing the transport closes its socket; otherwise the call closes the one it kept, if any. */
  predicate ClosesSocket(c: Call, cleanup: CleanupPc) {
    || (cleanup == ClosingTransport && c.g.transport != Absent)
    || (cleanup == ClosingSocket && KeepsSocket(c))
  }

  /** Cleanup, lines 516 to 534: report, read the flags, ask Meta to terminate, close. */
  function CleanupStep(c: Call, cleanup: CleanupPc): Call {
    var g :=
      if cleanup == Reporting then Reported(c.g, Failure(Cancelled))
      else if cleanup == ClosingTransport then c.g.(transport := Closed)
      else c.g;
    c.(g := g,
       seen := if cleanup == Reading then Some(c.g.flags) else c.seen,
       terminateRequests := c.terminateRequests + (if cleanup == Terminating && AsksToTerminate(c) then 1 else 0),
       bridgeOpen := c.bridgeOpen && cleanup != ClosingBridge,
       socketClosed := c.socketClosed || ClosesSocket(c, cleanup),
       pc := CleanupNext(c, cleanup))
  }

  function RunStep(c: Call, choice: Choice): Call
    requires Enabled(c, Run(choice))
  {
    match c.pc
    case Setup(setup) => SetupStep(c, setup, choice)
    case Live => c.(pc := if choice == Done then Cleanup(Reporting) else Stopping(true))
    case Failing(reason) => c.(g := Reported(c.g, Failure(reason)), pc := Stopping(true))
    case Stopping(reported) => c.(g := BusinessStopped(c.g), pc := Cancelling(reported))
    case Cancelling(_) => c.(cancelled := true, pc := Cleanup(Reporting))
    case Cleanup(cleanup) => CleanupStep(c, cleanup)
    case Finish(_) => assert false; c
  }

  function Step(c: Call, a: Action): Call
    requires Enabled(c, a)
  {
    match a
    case Run(choice) => RunStep(c, choice)
    case StopBusiness => c.(g := BusinessStopped(c.g))
    case StopUser => c.(g := UserStopped(c.g))
    case Cancel => c.(cancelled := true)
    case Connect(answer) =>
      c.(g := Answered(c.g, answer), answers := if c.g.transport == Absent then c.answers + [answer] else c.answers)
  }

  // ---------------------------------------------------------------- invariant

  predicate BeforeReport(pc: Pc) {
    pc.Setup? || pc.Failing? || (pc.Stopping? && !pc.reported) || (pc.Cancelling? && !pc.reported)
  }

  /** The flags were read. */
  predicate PastReading(pc: Pc) {
    pc.Finish? || (pc.Cleanup? && !pc.cleanup.Reporting? && !pc.cleanup.Reading?)
  }

  predicate PastTerminating(pc: Pc) { PastReading(pc) && pc != Cleanup(Terminating) }

  /** Whoever cancelled, or is about to, recorded who hung up; and never both. */
  predicate FlagsInvariant(c: Call) {
    && !(c.g.flags.terminate && c.g.flags.userTerminated)
    && (c.cancelled || c.pc.Cancelling? || c.pc.Cleanup? || c.pc.Finish? ==> Stopped(c.g.flags))
    && (c.info.outbound ==> c.g.flags.signaled)
  }

  predicate VerdictInvariant(c: Call) {
    && (BeforeReport(c.pc) ==> c.g.verdict.None?)
    && (c.reached <==> c.g.verdict == Some(Success))
    && (!BeforeReport(c.pc) && c.pc != Cleanup(Reporting) ==> c.g.verdict.Some?)
  }

  predicate TransportInvariant(c: Call) {
    && (!c.info.outbound ==> c.g.transport != Absent)
    && (c.info.outbound ==> c.g.answerCloses == if c.g.transport == Absent then 0 else 1)
    && (c.pc == Setup(FetchingTransport) ==> c.info.outbound && c.g.answerCloses > 0)
    && (c.pc == Setup(AwaitingAnswer) ==> c.info.outbound)
    && (c.pc == Cleanup(ClosingTransport) ==> c.g.transport != Absent)
    && (c.pc == Cleanup(ClosingSocket) ==> c.info.outbound)
    && c.pc != Failing(NoTransport)
    && c.g.verdict != Some(Failure(NoTransport))
  }

  predicate TerminateInvariant(c: Call) {
    && (c.seen.Some? <==> PastReading(c.pc))
    && (c.seen.Some? ==> c.seen.value.terminate != c.seen.value.userTerminated)
    && c.terminateRequests == if PastTerminating(c.pc) && AsksToTerminate(c) then 1 else 0
  }

  predicate SocketInvariant(c: Call) { c.socketClosed <==> c.pc.Finish? }

  /** Cleanup has closed the bridge, if there was one. */
  predicate PastBridge(pc: Pc) {
    || pc.Finish?
    || (pc.Cleanup? && (pc.cleanup.CheckingTransport? || pc.cleanup.ClosingTransport? || pc.cleanup.ClosingSocket?))
  }

  /** The bridge is open from its connection until cleanup; PreAccept comes before the call counts as signalled. */
  predicate StageInvariant(c: Call) {
    && (c.pc == Setup(ConnectingBridge) ==> !c.bridgeOpen)
    && ((c.pc.Setup? && c.pc.setup != ConnectingBridge) || c.pc.Live? ==> c.bridgeOpen)
    && (PastBridge(c.pc) ==> !c.bridgeOpen)
    && (!c.info.outbound && c.pc.Setup? && c.pc.setup in {ConnectingBridge, PreAccepting, MarkingSignaled} ==>
          !c.g.flags.signaled)
    && ((c.pc.Setup? && c.pc.setup in {AwaitingTransport, Accepting, Connected}) || c.pc.Live? ==> c.g.flags.signaled)
  }

  /** The answers tried so far, in order: all rejected, except the last once one was accepted. */
  ghost predicate AnswerInvariant(c: Call) {
    && c.g.negotiation == Sdp.AfterAnswers(c.info.offer, c.answers)
    && (forall i :: 0 <= i < |c.answers| - 1 ==> Sdp.AppliedParameters(c.info.offer, c.answers[i]).1.Some?)
    && (c.info.outbound && c.answers != [] ==>
        (c.g.transport == Absent <==> Sdp.AppliedParameters(c.info.offer, c.answers[|c.answers| - 1]).1.Some?))
    && (c.info.outbound && c.answers == [] ==> c.g.transport == Absent)
  }

  ghost predicate Inv(c: Call) {
    && FlagsInvariant(c) && VerdictInvariant(c) && TransportInvariant(c) && TerminateInvariant(c) && SocketInvariant(c)
    && StageInvariant(c) && AnswerInvariant(c)
  }

  // ------------------------------------------------------------- preservation

  /** Setup goes on, fails, ends in a connected call, or leaves because it was cancelled. */
  lemma SetupTargets(c: Call, choice: Choice)
    requires c.pc.Setup? && Enabled(c, Run(choice))
    ensures
      var pc := SetupNext(c, c.pc.setup, choice);
      pc.Setup? || pc.Failing? || (pc.Live? && c.pc.setup == Connected) || (c.cancelled && pc == Cleanup(Reporting))
  {
  }

  lemma StepKeepsFlags(c: Call, a: Action)
    requires FlagsInvariant(c) && Enabled(c, a)
    ensures FlagsInvariant(Step(c, a))
  {
    if a.Run? && c.pc.Setup? {
      SetupTargets(c, a.choice);
      hide SetupNext;
    } else if a.Connect? {
      hide Sdp.AppliedParameters, RunStep;
    } else {
      hide SetupStep, CleanupStep, Answered;
    }
  }

  lemma SetupKeepsVerdict(c: Call, choice: Choice)
    requires VerdictInvariant(c) && c.pc.Setup? && Enabled(c, Run(choice))
    ensures VerdictInvariant(SetupStep(c, c.pc.setup, choice))
  {
    SetupTargets(c, choice);
    hide SetupNext;
  }

  lemma StepKeepsVerdict(c: Call, a: Action)
    requires VerdictInvariant(c) && Enabled(c, a)
    ensures VerdictInvariant(Step(c, a))
  {
    if a.Run? && c.pc.Setup? {
      SetupKeepsVerdict(c, a.choice);
      hide SetupStep;
    } else if a.Connect? {
      hide Sdp.AppliedParameters, RunStep;
    } else {
      hide SetupStep, Answered;
    }
  }

  lemma SetupKeepsTransport(c: Call, choice: Choice)
    requires TransportInvariant(c) && c.pc.Setup? && Enabled(c, Run(choice))
    ensures TransportInvariant(SetupStep(c, c.pc.setup, choice))
  {
  }

  lemma CleanupKeepsTransport(c: Call)
    requires TransportInvariant(c) && c.pc.Cleanup?
    ensures TransportInvariant(CleanupStep(c, c.pc.cleanup))
  {
  }

  lemma StepKeepsTransport(c: Call, a: Action)
    requires TransportInvariant(c) && Enabled(c, a)
    ensures TransportInvariant(Step(c, a))
  {
    if a.Run? && c.pc.Setup? {
      hide SetupStep, TransportInvariant;
      SetupKeepsTransport(c, a.choice);
    } else if a.Run? && c.pc.Cleanup? {
      hide CleanupStep, TransportInvariant;
      CleanupKeepsTransport(c);
    } else if a.Connect? {
      hide Sdp.AppliedParameters, RunStep;
    } else {
      hide SetupStep, CleanupStep, Answered;
    }
  }

  lemma CleanupKeepsTerminate(c: Call)
    requires TerminateInvariant(c) && FlagsInvariant(c) && c.pc.Cleanup?
    ensures TerminateInvariant(CleanupStep(c, c.pc.cleanup))
  {
  }

  lemma StepKeepsTerminate(c: Call, a: Action)
    requires TerminateInvariant(c) && FlagsInvariant(c) && Enabled(c, a)
    ensures TerminateInvariant(Step(c, a))
  {
    if a.Run? && c.pc.Setup? {
      SetupTargets(c, a.choice);
      hide SetupNext, FlagsInvariant;
    } else if a.Run? && c.pc.Cleanup? {
      CleanupKeepsTerminate(c);
      hide CleanupStep, FlagsInvariant;
    } else {
      hide SetupStep, CleanupStep, Answered, FlagsInvariant;
    }
  }

  /** A Connect that makes a transport while cleanup runs does not leave the socket open. */
  lemma StepKeepsSocket(c: Call, a: Action)
    requires SocketInvariant(c) && TransportInvariant(c) && Enabled(c, a)
    ensures SocketInvariant(Step(c, a))
  {
    hide Sdp.AppliedParameters;
    if a.Run? && c.pc.Setup? {
      SetupTargets(c, a.choice);
      hide SetupNext;
    }
  }

  lemma SetupKeepsStage(c: Call, choice: Choice)
    requires StageInvariant(c) && FlagsInvariant(c) && TransportInvariant(c) && c.pc.Setup? && Enabled(c, Run(choice))
    ensures StageInvariant(SetupStep(c, c.pc.setup, choice))
  {
  }

  lemma StepKeepsStage(c: Call, a: Action)
    requires StageInvariant(c) && FlagsInvariant(c) && TransportInvariant(c) && Enabled(c, a)
    ensures StageInvariant(Step(c, a))
  {
    if a.Run? && c.pc.Setup? {
      hide SetupStep, StageInvariant;
      SetupKeepsStage(c, a.choice);
    } else if a.Connect? {
      hide Sdp.AppliedParameters, RunStep, FlagsInvariant, TransportInvariant;
    } else {
      hide SetupStep, Answered, FlagsInvariant, TransportInvariant;
    }
  }

  /** A further answer is judged as on the original offer, whatever the earlier ones left. */
  lemma ConnectKeepsAnswers(c: Call, answer: Sdp.Result<Sdp.Remote>)
    requires AnswerInvariant(c) && c.info.outbound
    ensures AnswerInvariant(Step(c, Connect(answer)))
  {
    if c.g.transport == Absent {
      hide Sdp.AppliedParameters, Sdp.AfterAnswers;
      var tried := c.answers;
      var offer := c.info.offer;
      Sdp.EarlierAnswersDoNotMatter(offer, tried, answer);
      AfterOneMore(offer, tried, answer);
      var c' := Step(c, Connect(answer));
      forall i | 0 <= i < |c'.answers| - 1 ensures Sdp.AppliedParameters(offer, c'.answers[i]).1.Some? {
        assert c'.answers[i] == tried[i];
      }
    }
  }

  lemma AfterOneMore(offer: Sdp.Neg, tried: seq<Sdp.Result<Sdp.Remote>>, answer: Sdp.Result<Sdp.Remote>)
    ensures Sdp.AfterAnswers(offer, tried + [answer]) ==
            Sdp.AppliedParameters(Sdp.AfterAnswers(offer, tried), answer).0
  {
    hide Sdp.AppliedParameters;
    assert (tried + [answer])[..|tried|] == tried;
  }

  /** Nothing else writes the negotiation; the transport only ever moves away from absent. */
  lemma OthersLeaveNegotiation(c: Call, a: Action)
    requires TransportInvariant(c) && Enabled(c, a) && !a.Connect?
    ensures
      var t := Step(c, a);
      && t.g.negotiation == c.g.negotiation && t.answers == c.answers && t.info == c.info
      && (t.g.transport == Absent <==> c.g.transport == Absent)
  {
    hide Answered, SetupNext, CleanupNext;
    if a.Run? && c.pc.Cleanup? {
      CleanupLeavesTransport(c);
      hide CleanupStep;
    }
  }

  lemma CleanupLeavesTransport(c: Call)
    requires c.pc.Cleanup? && TransportInvariant(c)
    ensures
      var t := CleanupStep(c, c.pc.cleanup);
      && t.g.negotiation == c.g.negotiation && t.answers == c.answers && t.info == c.info
      && (t.g.transport == Absent <==> c.g.transport == Absent)
  {
    hide CleanupNext;
  }

  lemma OthersKeepAnswers(c: Call, a: Action)
    requires AnswerInvariant(c) && TransportInvariant(c) && Enabled(c, a) && !a.Connect?
    ensures AnswerInvariant(Step(c, a))
  {
    hide Sdp.AppliedParameters, Sdp.AfterAnswers, Step;
    OthersLeaveNegotiation(c, a);
  }

  lemma StepKeeps(c: Call, a: Action)
    requires Inv(c) && Enabled(c, a)
    ensures Inv(Step(c, a))
  {
    hide FlagsInvariant, VerdictInvariant, TransportInvariant, TerminateInvariant, SocketInvariant, AnswerInvariant;
    hide Step, StageInvariant;
    StepKeepsFlags(c, a);
    StepKeepsVerdict(c, a);
    StepKeepsTransport(c, a);
    StepKeepsTerminate(c, a);
    StepKeepsSocket(c, a);
    StepKeepsStage(c, a);
    match a
    case Connect(answer) => ConnectKeepsAnswers(c, answer);
    case _ => OthersKeepAnswers(c, a);
  }

  lemma NewCallsAreValid(id: string, room: string, socket: nat, n: Sdp.Neg, draining: bool)
    ensures Inv(NewInbound(id, room, socket, n))
    ensures Inv(NewOutbound(id, room, socket, n, draining))
  {
  }

  // --------------------------------------------------------------- main laws

  /** Finish goes on with the manager; nothing else of the call changes. */
  function Finishing(c: Call, next: FinishPc): Call { c.(pc := Finish(next)) }

  lemma FinishKeeps(c: Call, next: FinishPc)
    requires Inv(c) && c.pc.Finish?
    ensures Inv(Finishing(c, next))
  {
    hide Sdp.AppliedParameters, Sdp.AfterAnswers;
  }

  /** What no step of a call ever takes back. */
  lemma StepFrame(c: Call, a: Action)
    requires Enabled(c, a)
    ensures
      var t := Step(c, a);
      && t.info == c.info
      && (c.cancelled ==> t.cancelled) && (c.socketClosed ==> t.socketClosed)
      && (Stopped(c.g.flags) ==> Stopped(t.g.flags))
      && (c.g.flags.userTerminated || a.StopUser? ==> t.g.flags.userTerminated)
      && (if c.pc.Finish? then t.pc == c.pc else t.pc.Finish? ==> t.pc == Finish(Released))
  {
    hide Sdp.AppliedParameters, SetupNext;
    if a.Run? && c.pc.Setup? {
      SetupTargets(c, a.choice);
    }
  }

  /** The verdict is written once: whatever happens later, every waiter gets the same answer. */
  lemma VerdictIsFinal(c: Call, a: Action)
    requires Enabled(c, a) && c.g.verdict.Some?
    ensures Step(c, a).g.verdict == c.g.verdict
  {
    hide Sdp.AppliedParameters, SetupNext, CleanupNext;
  }

  /**
   When cleanup is about to read the flags exactly one of them is set; Meta is asked to
   terminate at most once, and once the decision was taken, exactly when the call had been
   signalled and no user hang-up had been recorded.
   */
  lemma TerminateIsDecidedOnce(c: Call)
    requires Inv(c)
    ensures c.pc == Cleanup(Reading) ==> c.g.flags.terminate != c.g.flags.userTerminated
    ensures c.terminateRequests <= 1
    ensures PastTerminating(c.pc) ==>
      c.seen.Some? && (c.terminateRequests == 1 <==> c.seen.value.signaled && !c.seen.value.userTerminated)
    ensures !PastTerminating(c.pc) ==> c.terminateRequests == 0
  {
  }

  /** A connected call has its bridge and was signalled; a released one has closed its bridge. */
  lemma BridgeIsReleased(c: Call)
    requires Inv(c)
    ensures c.pc.Live? ==> c.bridgeOpen && c.g.flags.signaled
    ensures c.pc.Finish? ==> !c.bridgeOpen
  {
  }

  /** What `wait` returns: nothing while it would still block. */
  function WaitResult(c: Call): Option<Verdict> { c.g.verdict }

  /**
   Waiting succeeds exactly if the call reached `connected`, a call that has begun to
   release its resources blocks no waiter, and "no transport" is never the reason.
   */
  lemma WaitersLearnTheTruth(c: Call)
    requires Inv(c)
    ensures WaitResult(c) == Some(Success) <==> c.reached
    ensures c.pc.Finish? || (c.pc.Cleanup? && c.pc.cleanup != Reporting) ==> WaitResult(c).Some?
    ensures WaitResult(c) != Some(Failure(NoTransport)) && c.pc != Failing(NoTransport)
  {
  }

  /**
   For an outbound call the answer channel is closed exactly when the transport exists, at
   most once, and then the negotiation in force is that of the first accepted answer,
   applied to the original offer.
   */
  lemma AnswerDecidesTransport(c: Call)
    requires Inv(c) && c.info.outbound
    ensures c.g.answerCloses <= 1 && (c.g.answerCloses == 1 <==> c.g.transport != Absent)
    ensures c.g.transport != Absent ==>
      && c.answers != []
      && Sdp.AppliedParameters(c.info.offer, c.answers[|c.answers| - 1]).1.None?
      && (forall i :: 0 <= i < |c.answers| - 1 ==> Sdp.AppliedParameters(c.info.offer, c.answers[i]).1.Some?)
      && c.g.negotiation == Sdp.AppliedParameters(c.info.offer, c.answers[|c.answers| - 1]).0
  {
    if c.g.transport != Absent {
      hide Sdp.AppliedParameters, Sdp.AfterAnswers;
      var n := |c.answers| - 1;
      Sdp.EarlierAnswersDoNotMatter(c.info.offer, c.answers[..n], c.answers[n]);
      assert c.answers[..n] + [c.answers[n]] == c.answers;
    }
  }

  // ----------------------------------------------------------------- progress

  /** At least as many steps as the goroutine still takes. */
  function Distance(pc: Pc): nat {
    match pc
    case Setup(setup) =>
      (match setup
       case ConnectingBridge => 24
       case PreAccepting => 23
       case MarkingSignaled => 22
       case AwaitingAnswer => 23
       case FetchingTransport => 22
       case AwaitingTransport => 21
       case Accepting => 20
       case Connected => 19)
    case Live => 18
    case Failing(_) => 18
    case Stopping(_) => 17
    case Cancelling(_) => 16
    case Cleanup(cleanup) =>
      (match cleanup
       case Reporting => 15
       case Reading => 14
       case Terminating => 13
       case ClosingBridge => 12
       case CheckingTransport => 11
       case ClosingTransport => 10
       case ClosingSocket => 10)
    case Finish(finish) =>
      (match finish
       case Released => 3
       case Uncounting => 2
       case ClosingDone => 1
       case Finished => 0)
  }

  /** The goroutine waits for others: for the answer, or for the end of a connected call. */
  predicate Waiting(c: Call) { (c.pc == Setup(AwaitingAnswer) && c.g.answerCloses == 0) || c.pc.Live? }

  /** How it can go on: without anybody's failure, unless it waits and nobody has cancelled the call. */
  function NextChoice(c: Call): Choice {
    if !Waiting(c) then Proceed else if c.cancelled then Done else Fault
  }

  lemma SetupAdvances(c: Call, choice: Choice)
    requires c.pc.Setup? && Enabled(c, Run(choice))
    ensures Distance(SetupNext(c, c.pc.setup, choice)) < Distance(c.pc)
  {
  }

  lemma CleanupAdvances(c: Call)
    requires c.pc.Cleanup?
    ensures Distance(CleanupNext(c, c.pc.cleanup)) < Distance(c.pc)
  {
  }

  lemma StepAdvances(c: Call, a: Action)
    requires Enabled(c, a)
    ensures a.Run? ==> Distance(Step(c, a).pc) < Distance(c.pc)
    ensures !a.Run? ==> Step(c, a).pc == c.pc
  {
    if a.Run? && c.pc.Setup? {
      SetupAdvances(c, a.choice);
      hide SetupNext, Distance;
    } else if a.Run? && c.pc.Cleanup? {
      CleanupAdvances(c);
      hide CleanupNext, Distance;
    } else {
      hide SetupStep, CleanupStep, Answered;
    }
  }

  /**
   Every step of the run goroutine brings it closer to the end, nobody else moves it, and
   it is never without a step; once the call is cancelled it needs no failure or timeout.
   */
  lemma RunAdvances(c: Call, a: Action)
    requires Enabled(c, a)
    ensures a.Run? ==> Distance(Step(c, a).pc) < Distance(c.pc)
    ensures !a.Run? ==> Step(c, a).pc == c.pc
    ensures !c.pc.Finish? ==> Enabled(c, Run(NextChoice(c)))
    ensures c.cancelled ==> NextChoice(c) != Fault
  {
    StepAdvances(c, a);
    hide Step, Distance;
  }
}

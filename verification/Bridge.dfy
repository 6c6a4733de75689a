/**
 Forwarding one LiveKit audio track to Meta (internal/livekitbridge/bridge.go).

 The packets that the track yields, the clock and the outcome of each write attempt
 are given by the environment as a list of `Attempt`s; the list ends where the read
 fails.
 */
module Bridge {
  import opened Words
  import opened Rebase

  datatype Sentinel = EOF | ClosedPipe | NetClosed | Canceled | DeadlineExceeded | NotReady

  /** A write error, as the set of sentinel errors it wraps. */
  type WriteError = set<Sentinel>

  datatype WriteResult = Sent | Failed(error: WriteError)

  datatype Attempt = Attempt(header: Header, body: seq<U8>, now: int, result: WriteResult)

  predicate IsFatalWrite(error: WriteError) {
    EOF in error || ClosedPipe in error || NetClosed in error || Canceled in error || DeadlineExceeded in error
  }

  datatype Fate = Delivered | Dropped | WriteFailed | Fatal

  function FateOf(a: Attempt): Fate {
    match a.result
    case Sent => Delivered
    case Failed(e) => if IsFatalWrite(e) then Fatal else if NotReady in e then Dropped else WriteFailed
  }

  /** The write failed with an error that wraps one of the given ones. */
  predicate FailedWith(a: Attempt, sentinels: set<Sentinel>) { a.result.Failed? && a.result.error * sentinels != {} }

  /** The media path is gone for good. */
  predicate PathIsGone(a: Attempt) { FailedWith(a, {EOF, ClosedPipe, NetClosed, Canceled, DeadlineExceeded}) }

  /** Which errors mean what; an error that wraps only "not ready" costs one packet. */
  lemma FatesByError(a: Attempt)
    ensures FateOf(a) == Delivered <==> a.result == Sent
    ensures FateOf(a) == Fatal <==> PathIsGone(a)
    ensures FateOf(a) == Dropped <==> FailedWith(a, {NotReady}) && !PathIsGone(a)
    ensures FateOf(a) == WriteFailed <==> a.result.Failed? && !FailedWith(a, {NotReady}) && !PathIsGone(a)
  {
    if a.result.Failed? {
      var e, gone := a.result.error, {EOF, ClosedPipe, NetClosed, Canceled, DeadlineExceeded};
      assert IsFatalWrite(e) <==> e * gone != {} by {
        if IsFatalWrite(e) {
          var x :| x in e && x in gone;
          assert x in e * gone;
        }
      }
      assert NotReady in e <==> e * {NotReady} != {} by {
        if NotReady in e {
          assert NotReady in e * {NotReady};
        }
      }
    }
  }

  function Count(attempts: seq<Attempt>, fate: Fate): nat {
    if attempts == [] then 0
    else Count(attempts[..|attempts| - 1], fate) + if FateOf(attempts[|attempts| - 1]) == fate then 1 else 0
  }

  function Inputs(attempts: seq<Attempt>, pt: U8): (ins: seq<Input>)
    ensures |ins| == |attempts|
  {
    seq(|attempts|, i requires 0 <= i < |attempts| => Input(attempts[i].header, pt, attempts[i].now))
  }

  lemma CountAppend(attempts: seq<Attempt>, a: Attempt, fate: Fate)
    ensures Count(attempts + [a], fate) == Count(attempts, fate) + if FateOf(a) == fate then 1 else 0
  {
    assert (attempts + [a])[..|attempts|] == attempts;
  }

  /** Every attempt has exactly one fate. */
  lemma {:induction false} FatesAreExhaustive(attempts: seq<Attempt>)
    ensures |attempts| == Count(attempts, Delivered) + Count(attempts, Dropped)
                        + Count(attempts, WriteFailed) + Count(attempts, Fatal)
  {
    if attempts != [] {
      FatesAreExhaustive(attempts[..|attempts| - 1]);
    }
  }

  lemma OutputsAppend(keep: bool, ins: seq<Input>, i: Input)
    ensures
      var a := Anchored(After(keep, ins), i.header, i.now);
      && After(keep, ins + [i]) == Advanced(a, i.header)
      && Outputs(keep, ins + [i]) == Outputs(keep, ins) + [Emitted(a, i.header, i.pt)]
  {
    hide Anchored, Advanced, Emitted;
    assert (ins + [i])[..|ins|] == ins;
  }

  /** `at` lists the delivered attempts in order, and `sent` their rewritten headers. */
  ghost predicate Selected(attempts: seq<Attempt>, outs: seq<Header>, at: seq<nat>, sent: seq<Header>) {
    && |outs| == |attempts|
    && |at| == |sent| == Count(attempts, Delivered)
    && (forall k :: 0 <= k < |at| ==>
          at[k] < |attempts| && FateOf(attempts[at[k]]) == Delivered && sent[k] == outs[at[k]])
    && (forall k, l :: 0 <= k < l < |at| ==> at[k] < at[l])
  }

  lemma SelectedAppend(attempts: seq<Attempt>, outs: seq<Header>, at: seq<nat>, sent: seq<Header>,
                       a: Attempt, out: Header)
    requires Selected(attempts, outs, at, sent)
    ensures
      if FateOf(a) == Delivered then Selected(attempts + [a], outs + [out], at + [|attempts|], sent + [out])
      else Selected(attempts + [a], outs + [out], at, sent)
  {
    hide FateOf, Count;
    CountAppend(attempts, a, Delivered);
  }

  /**
   What a forwarder has carried: `fed` extends `base` by its packets in reading order, and
   the headers it sent are the outputs of the rebaser at the delivered ones.
   */
  ghost predicate Carried(base: seq<Input>, fed: seq<Input>, attempts: seq<Attempt>, pt: U8,
                          at: seq<nat>, sent: seq<Header>)
  {
    && fed == base + Inputs(attempts, pt)
    && Outputs(false, base) <= Outputs(false, fed)
    && Selected(attempts, Outputs(false, fed)[|base|..], at, sent)
  }

  lemma CarriedAppend(base: seq<Input>, fed: seq<Input>, fed': seq<Input>, attempts: seq<Attempt>, pt: U8,
                      at: seq<nat>, sent: seq<Header>, a: Attempt, out: Header)
    requires Carried(base, fed, attempts, pt, at, sent)
    requires fed' == fed + [Input(a.header, pt, a.now)]
    requires Outputs(false, fed') == Outputs(false, fed) + [out]
    ensures
      if FateOf(a) == Delivered then Carried(base, fed', attempts + [a], pt, at + [|attempts|], sent + [out])
      else Carried(base, fed', attempts + [a], pt, at, sent)
  {
    hide Outputs, Selected, FateOf;
    var outs := Outputs(false, fed)[|base|..];
    SelectedAppend(attempts, outs, at, sent, a, out);
    assert Outputs(false, fed')[|base|..] == outs + [out];
    assert Inputs(attempts + [a], pt) == Inputs(attempts, pt) + [Input(a.header, pt, a.now)];
  }

  lemma FatalAppend(run: seq<Attempt>)
    requires |run| > 1 ==> FatalOnlyLast(run[..|run| - 1]) && FateOf(run[|run| - 2]) != Fatal
    ensures FatalOnlyLast(run)
  {
    if |run| > 1 {
      var init := run[..|run| - 1];
      assert forall i :: 0 <= i < |init| - 1 ==> init[i] == run[i];
    }
  }

  lemma CarriedNothing(base: seq<Input>, pt: U8)
    ensures Carried(base, base, [], pt, [], [])
  {
  }

  datatype Counters = Counters(packets: U64, dropped: U64, writeErrors: U64)

  /** The counters after a run, wrapped at 64 bits. */
  function Tally(start: Counters, attempts: seq<Attempt>): Counters {
    Counters(
      Wrap64(start.packets + Count(attempts, Delivered)),
      Wrap64(start.dropped + Count(attempts, Dropped)),
      Wrap64(start.writeErrors + Count(attempts, WriteFailed)))
  }

  function Counted(c: Counters, fate: Fate): Counters {
    match fate
    case Delivered => c.(packets := Wrap64(c.packets + 1))
    case Dropped => c.(dropped := Wrap64(c.dropped + 1))
    case WriteFailed => c.(writeErrors := Wrap64(c.writeErrors + 1))
    case Fatal => c
  }

  lemma TallyAppend(start: Counters, attempts: seq<Attempt>, a: Attempt)
    ensures Tally(start, attempts + [a]) == Counted(Tally(start, attempts), FateOf(a))
  {
    hide Wrap64, FateOf, Count;
    CountAppend(attempts, a, Delivered);
    CountAppend(attempts, a, Dropped);
    CountAppend(attempts, a, WriteFailed);
    Sum64(start.packets + Count(attempts, Delivered), 1);
    Sum64(start.dropped + Count(attempts, Dropped), 1);
    Sum64(start.writeErrors + Count(attempts, WriteFailed), 1);
  }

  lemma TallyNothing(start: Counters)
    ensures Tally(start, []) == start
  {
  }

  /** No write before the last one read was fatal. */
  ghost predicate FatalOnlyLast(attempts: seq<Attempt>) {
    forall i :: 0 <= i < |attempts| - 1 ==> FateOf(attempts[i]) != Fatal
  }

  lemma ReadUntilGone(attempts: seq<Attempt>, read: nat)
    requires read <= |attempts| && FatalOnlyLast(attempts[..read])
    ensures forall i :: 0 <= i < read - 1 ==> !PathIsGone(attempts[i])
    ensures read > 0 ==> (FateOf(attempts[..read][read - 1]) == Fatal <==> PathIsGone(attempts[read - 1]))
  {
    hide PathIsGone;
    forall i | 0 <= i < read ensures FateOf(attempts[..read][i]) == Fatal <==> PathIsGone(attempts[i]) {
      FatesByError(attempts[i]);
    }
  }

  class Bridge {
    var activeTrack: string
    var txPackets: U64
    var txDropped: U64
    var txWriteErrors: U64
    const outbound: Rebaser
    const payloadType: U8
    /** Every packet the outbound rebaser was ever given. */
    ghost var fed: seq<Input>

    constructor (pt: U8)
      ensures Valid() && fed == [] && activeTrack == "" && payloadType == pt
      ensures txPackets == txDropped == txWriteErrors == 0
    {
      activeTrack, payloadType, fed := "", pt, [];
      txPackets, txDropped, txWriteErrors := 0, 0, 0;
      outbound := new Rebaser(false);
    }

    ghost predicate Valid()
      reads this, outbound
    {
      outbound.View() == After(false, fed)
    }

    function Totals(): Counters
      reads this
    {
      Counters(txPackets, txDropped, txWriteErrors)
    }

    method CountWriteFailure(error: WriteError)
      modifies this`txDropped, this`txWriteErrors
      ensures Totals() == Counted(old(Totals()), if NotReady in error then Dropped else WriteFailed)
    {
      if NotReady in error {
        txDropped := Wrap64(txDropped + 1);
        return;
      }
      txWriteErrors := Wrap64(txWriteErrors + 1);
    }

    /** One turn of the forwarding loop: rewrite first, then attempt the write. */
    method ForwardOne(a: Attempt) returns (fate: Fate, out: Header)
      requires Valid()
      modifies this`txPackets, this`txDropped, this`txWriteErrors, this`fed, outbound
      ensures Valid()
      ensures fate == FateOf(a)
      ensures fed == old(fed) + [Input(a.header, payloadType, a.now)]
      ensures Outputs(false, fed) == Outputs(false, old(fed)) + [out]
      ensures Totals() == Counted(old(Totals()), fate)
    {
      hide Wrap64, Anchored, Advanced, Emitted, After, Outputs;
      var p := new Packet(a.header, a.body);
      outbound.Rewrite(p, payloadType, a.now);
      out := p.View();
      ghost var input := Input(a.header, payloadType, a.now);
      OutputsAppend(false, fed, input);
      fed := fed + [input];
      match a.result
      case Sent =>
        txPackets := Wrap64(txPackets + 1);
        fate := Delivered;
      case Failed(e) =>
        if IsFatalWrite(e) {
          return Fatal, out;
        }
        CountWriteFailure(e);
        fate := if NotReady in e then Dropped else WriteFailed;
    }

    /**
     Reads until the track ends or a write is fatal. `at` are the attempts that were
     sent and `sent` the headers that went out, all of them rewritten in reading order.
     */
    method ForwardRemote(id: string, attempts: seq<Attempt>) returns (read: nat, at: seq<nat>, sent: seq<Header>)
      requires Valid()
      modifies this`activeTrack, this`txPackets, this`txDropped, this`txWriteErrors, this`fed, outbound
      ensures Valid()
      ensures activeTrack == old(activeTrack)
      ensures read <= |attempts|
      ensures old(activeTrack) != "" ==> read == 0
      ensures FatalOnlyLast(attempts[..read]) && forall i :: 0 <= i < read - 1 ==> !PathIsGone(attempts[i])
      ensures old(activeTrack) == "" && read < |attempts| ==> read > 0 && PathIsGone(attempts[read - 1])
      ensures Carried(old(fed), fed, attempts[..read], payloadType, at, sent)
      ensures Totals() == Tally(old(Totals()), attempts[..read])
    {
      hide After, Outputs, FateOf, Tally, Counted, Carried, FatalOnlyLast, PathIsGone;
      read, at, sent := 0, [], [];
      assert attempts[..0] == [];
      TallyNothing(Totals());
      CarriedNothing(fed, payloadType);
      FatalAppend([]);
      if activeTrack != "" {
        return;
      }
      activeTrack := id;
      var stop := false;
      while read < |attempts| && !stop
        invariant read <= |attempts| && Valid() && activeTrack == id
        invariant stop ==> read > 0
        invariant FatalOnlyLast(attempts[..read])
        invariant read > 0 ==> (stop <==> FateOf(attempts[..read][read - 1]) == Fatal)
        invariant Carried(old(fed), fed, attempts[..read], payloadType, at, sent)
        invariant Totals() == Tally(old(Totals()), attempts[..read])
      {
        ghost var done, before := attempts[..read], fed;
        var a := attempts[read];
        var fate, out := ForwardOne(a);
        CarriedAppend(old(fed), before, fed, done, payloadType, at, sent, a, out);
        TallyAppend(old(Totals()), done, a);
        if fate == Delivered {
          at, sent := at + [read], sent + [out];
        }
        stop := fate == Fatal;
        read := read + 1;
        assert attempts[..read] == done + [a];
        FatalAppend(done + [a]);
      }
      ReadUntilGone(attempts, read);
      if activeTrack == id {
        activeTrack := "";
      }
    }
  }

  /**
   Conservation over a whole run: every packet read was sent, dropped, failed, or was
   the one fatal packet that ended it.
   */
  lemma {:induction false} PacketsAreConserved(run: seq<Attempt>)
    requires FatalOnlyLast(run)
    ensures |run| == Count(run, Delivered) + Count(run, Dropped) + Count(run, WriteFailed) + Count(run, Fatal)
    ensures Count(run, Fatal) == if run != [] && FateOf(run[|run| - 1]) == Fatal then 1 else 0
  {
    FatesAreExhaustive(run);
    if run != [] {
      NoneFatal(run[..|run| - 1]);
    }
  }

  lemma {:induction false} NoneFatal(attempts: seq<Attempt>)
    requires forall i :: 0 <= i < |attempts| ==> FateOf(attempts[i]) != Fatal
    ensures Count(attempts, Fatal) == 0
  {
    if attempts != [] {
      NoneFatal(attempts[..|attempts| - 1]);
    }
  }

  /**
   Two packets that were sent, however many between them were dropped, keep the distance
   their sender gave them when they belong to one segment.
   */
  lemma SentPacketsKeepTheirDistance(base: seq<Input>, fed: seq<Input>, attempts: seq<Attempt>, pt: U8,
                                     at: seq<nat>, sent: seq<Header>, k: nat, l: nat)
    requires Carried(base, fed, attempts, pt, at, sent)
    requires k < l < |at|
    requires Placements(fed)[|base| + at[k]].segment == Placements(fed)[|base| + at[l]].segment
    ensures
      var x, y := attempts[at[k]].header, attempts[at[l]].header;
      && Wrap16(sent[l].number - sent[k].number) == Wrap16(y.number - x.number)
      && Wrap32(sent[l].ts - sent[k].ts) == Wrap32(y.ts - x.ts)
  {
    hide Wrap16, Wrap32, Outputs, Placements, Count, FateOf;
    var i, j := |base| + at[k], |base| + at[l];
    assert fed[i] == Inputs(attempts, pt)[at[k]] && fed[j] == Inputs(attempts, pt)[at[l]];
    assert sent[k] == Outputs(false, fed)[i] && sent[l] == Outputs(false, fed)[j];
    SegmentIsShifted(false, fed, i, j);
  }
}

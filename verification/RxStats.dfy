/**
 Reception statistics of one inbound RTP source (internal/media/rtpstats.go).

 `Rx` is the wrapping 16/32-bit state of the code. `Source` is the reference:
 the unbounded position of every arrival of the current source. The main results
 say that, over any run of arrivals and reports, the words held by the code are
 exactly the reference quantities modulo their width.
 */
module RxStats {
  import opened Words
  import opened Sequences

  datatype Rx = Rx(
    started: bool, ssrc: bv32, baseSeq: U32, maxSeq: U16, cycles: U32,
    received: U32, reorder: U64, expectedPrior: U32, receivedPrior: U32)

  const FRESH: Rx := Rx(false, 0, 0, 0, 0, 0, 0, 0, 0)

  datatype Snapshot = Snapshot(received: U32, lost: int, reordered: U64)

  datatype ReceptionReport = ReceptionReport(
    ssrc: bv32, fractionLost: U8, totalLost: U32, lastSequenceNumber: U32)

  function Updated(s: Rx, ssrc: bv32, number: U16): Rx {
    var t :=
      if !s.started || ssrc != s.ssrc then
        Rx(true, ssrc, number, number, 0, 0, 0, 0, 0)
      else if Wrap16(number - s.maxSeq) < 0x8000 then
        s.(cycles := if number < s.maxSeq then Wrap32(s.cycles + TWO_16) else s.cycles, maxSeq := number)
      else
        s.(reorder := Wrap64(s.reorder + 1));
    t.(received := Wrap32(t.received + 1))
  }

  function ExtendedMax(s: Rx): U32 { Wrap32(s.cycles + s.maxSeq) }

  function Expected(s: Rx): U32 { Wrap32(Wrap32(ExtendedMax(s) - s.baseSeq) + 1) }

  function CumulativeLost(s: Rx): int { Expected(s) - s.received }

  function ExpectedInterval(s: Rx): U32 { Wrap32(Expected(s) - s.expectedPrior) }

  function ReceivedInterval(s: Rx): U32 { Wrap32(s.received - s.receivedPrior) }

  /** The quotient that the code narrows to eight bits. */
  function RawFraction(s: Rx): int { LossFraction(ExpectedInterval(s), ReceivedInterval(s)) }

  /** floor(256 * lost / expected), or zero when nothing was lost. */
  function LossFraction(expected: int, received: int): int {
    if expected > 0 && expected > received then ((expected - received) * 0x100) / expected else 0
  }

  function Clamp24(x: int): U32 {
    if x < 0 then 0 else if x > 0xff_ffff then 0xff_ffff else x
  }

  function ReportOf(s: Rx): ReceptionReport {
    ReceptionReport(s.ssrc, Wrap8(RawFraction(s)), Clamp24(CumulativeLost(s)), ExtendedMax(s))
  }

  function AfterReport(s: Rx): Rx {
    if s.started then s.(expectedPrior := Expected(s), receivedPrior := s.received) else s
  }

  function SnapshotOf(s: Rx): Snapshot {
    if s.started then Snapshot(s.received, CumulativeLost(s), s.reorder) else Snapshot(0, 0, 0)
  }

  /** The mutable tracker: each method is one critical section of the code. */
  class Tracker {
    var started: bool
    var ssrc: bv32
    var baseSeq: U32
    var maxSeq: U16
    var cycles: U32
    var received: U32
    var reorder: U64
    var expectedPrior: U32
    var receivedPrior: U32

    constructor ()
      ensures View() == FRESH
    {
      started, ssrc, baseSeq, maxSeq, cycles := false, 0, 0, 0, 0;
      received, reorder, expectedPrior, receivedPrior := 0, 0, 0, 0;
    }

    function View(): Rx
      reads this
    {
      Rx(started, ssrc, baseSeq, maxSeq, cycles, received, reorder, expectedPrior, receivedPrior)
    }

    method Update(packetSSRC: bv32, number: U16)
      modifies this
      ensures View() == Updated(old(View()), packetSSRC, number)
    {
      if !started || packetSSRC != ssrc {
        started, ssrc, baseSeq, maxSeq, cycles := true, packetSSRC, number, number, 0;
        received, reorder, expectedPrior, receivedPrior := 0, 0, 0, 0;
      } else {
        var udelta := Wrap16(number - maxSeq);
        if udelta < 0x8000 {
          if number < maxSeq {
            cycles := Wrap32(cycles + TWO_16);
          }
          maxSeq := number;
        } else {
          reorder := Wrap64(reorder + 1);
        }
      }
      received := Wrap32(received + 1);
    }

    method Snap() returns (r: Snapshot)
      ensures r == SnapshotOf(View())
    {
      if !started {
        return Snapshot(0, 0, 0);
      }
      var expected := Wrap32(Wrap32(Wrap32(cycles + maxSeq) - baseSeq) + 1);
      return Snapshot(received, expected - received, reorder);
    }

    method Report() returns (r: Option<ReceptionReport>)
      modifies this
      ensures View() == AfterReport(old(View()))
      ensures r == if old(started) then Some(ReportOf(old(View()))) else None
    {
      hide Wrap16, Wrap32;
      if !started {
        return None;
      }
      var extMax := Wrap32(cycles + maxSeq);
      var expected := Wrap32(Wrap32(extMax - baseSeq) + 1);
      var lost: int := expected - received;
      var expInterval: int := Wrap32(expected - expectedPrior);
      var recInterval: int := Wrap32(received - receivedPrior);
      expectedPrior, receivedPrior := expected, received;
      var fraction: U8 := 0;
      var lostInterval := expInterval - recInterval;
      if expInterval > 0 && lostInterval > 0 {
        fraction := Wrap8((lostInterval * 0x100) / expInterval);
      }
      if lost < 0 {
        lost := 0;
      }
      if lost > 0xff_ffff {
        lost := 0xff_ffff;
      }
      return Some(ReceptionReport(ssrc, fraction, lost, extMax));
    }
  }

  // ---------------------------------------------------------------- reference

  datatype RawSource = Source(ssrc: bv32, arrivals: seq<int>, expectedAtReport: int, receivedAtReport: nat)

  /** The current source: the unbounded position of every packet received from it. */
  type Source = s: RawSource | |s.arrivals| > 0 witness RawSource.Source(0, [0], 0, 0)

  /** How many arrivals were below the maximum reached before them. */
  function LateCount(xs: seq<int>): nat {
    if |xs| <= 1 then 0
    else
      var init, last := xs[..|xs| - 1], xs[|xs| - 1];
      LateCount(init) + if last < Highest(init) then 1 else 0
  }

  /** How many positions lie between the first arrival and the highest one, inclusive. */
  function Span(src: Source): int { Highest(src.arrivals) - src.arrivals[0] + 1 }

  function Between(lo: int, hi: int): (vs: set<int>)
    ensures forall v :: v in vs <==> lo <= v <= hi
    ensures |vs| == Max(0, hi - lo + 1)
    decreases hi - lo
  {
    if hi < lo then {} else Between(lo, hi - 1) + {hi}
  }

  function Seen(xs: seq<int>): set<int> { set x | x in xs }

  /** The positions from the first arrival to the highest one that never arrived. */
  function Missing(src: Source): set<int> {
    Between(src.arrivals[0], Highest(src.arrivals)) - Seen(src.arrivals)
  }

  datatype Event = Arrival(ssrc: bv32, number: U16) | Report

  function Step(s: Rx, e: Event): Rx {
    match e
    case Arrival(ssrc, number) => Updated(s, ssrc, number)
    case Report => AfterReport(s)
  }

  function Run(es: seq<Event>): Rx {
    if es == [] then FRESH else Step(Run(es[..|es| - 1]), es[|es| - 1])
  }

  predicate NewSource(o: Option<Source>, e: Event) {
    e.Arrival? && (o.None? || o.value.ssrc != e.ssrc)
  }

  function IdealStep(o: Option<Source>, e: Event): Option<Source> {
    match e
    case Arrival(ssrc, number) =>
      if NewSource(o, e) then Some(RawSource.Source(ssrc, [number], 0, 0))
      else Some(o.value.(arrivals := o.value.arrivals + [Nearest(Highest(o.value.arrivals), number)]))
    case Report =>
      if o.None? then None
      else Some(o.value.(expectedAtReport := Span(o.value), receivedAtReport := |o.value.arrivals|))
  }

  function Ideal(es: seq<Event>): Option<Source> {
    if es == [] then None else IdealStep(Ideal(es[..|es| - 1]), es[|es| - 1])
  }

  /** Every word of the code is the reference quantity modulo its width. */
  ghost predicate Refines(s: Rx, o: Option<Source>) {
    match o
    case None => s == FRESH
    case Some(src) =>
      var highest := Highest(src.arrivals);
      && s.started && s.ssrc == src.ssrc
      && 0 <= src.arrivals[0] < TWO_16
      && s.baseSeq == src.arrivals[0]
      && s.maxSeq == Wrap16(highest)
      && s.cycles == Wrap32(highest - Wrap16(highest))
      && s.received == Wrap32(|src.arrivals|)
      && s.reorder == Wrap64(LateCount(src.arrivals))
      && s.expectedPrior == Wrap32(src.expectedAtReport)
      && s.receivedPrior == Wrap32(src.receivedAtReport)
  }

  // ------------------------------------------------------------------- lemmas

  lemma LateCountGrows(xs: seq<int>, x: int)
    requires |xs| > 0
    ensures LateCount(xs + [x]) == LateCount(xs) + if x < Highest(xs) then 1 else 0
  {
    assert (xs + [x])[..|xs|] == xs;
  }

  /** Moving forward by less than half the number space carries at most one cycle. */
  lemma CycleCarry(high: int, x: int)
    requires 0 <= x - high < 0x8000
    ensures x - Wrap16(x) == high - Wrap16(high) + if Wrap16(x) < Wrap16(high) then TWO_16 else 0
  {
  }

  lemma ForwardIffSmallDelta(high: int, x: int)
    requires -0x8000 <= x - high < 0x8000
    ensures Wrap16(Wrap16(x) - Wrap16(high)) < 0x8000 <==> high <= x
  {
    Difference16(x, high);
  }

  /** One arrival on the words alone: the new maximum, the cycle count and the two counters. */
  lemma WordsRefine(s: Rx, high: int, x: int, count: nat, late: nat)
    requires s.started && s.maxSeq == Wrap16(high) && s.cycles == Wrap32(high - Wrap16(high))
    requires s.received == Wrap32(count) && s.reorder == Wrap64(late)
    requires -0x8000 <= x - high < 0x8000
    ensures
      var t := Updated(s, s.ssrc, Wrap16(x));
      && t == s.(maxSeq := t.maxSeq, cycles := t.cycles, received := t.received, reorder := t.reorder)
      && t.maxSeq == Wrap16(Max(high, x))
      && t.cycles == Wrap32(Max(high, x) - Wrap16(Max(high, x)))
      && t.received == Wrap32(count + 1)
      && t.reorder == Wrap64(late + if x < high then 1 else 0)
  {
    ForwardIffSmallDelta(high, x);
    Sum32(count, 1);
    if high <= x {
      CycleCarry(high, x);
      Sum32(high - Wrap16(high), TWO_16);
    } else {
      Sum64(late, 1);
    }
  }

  lemma ArrivalRefines(s: Rx, src: Source, number: U16)
    requires Refines(s, Some(src))
    ensures Refines(Updated(s, src.ssrc, number), IdealStep(Some(src), Arrival(src.ssrc, number)))
  {
    hide Wrap16, Wrap32, Wrap64;
    var high := Highest(src.arrivals);
    var x := Nearest(high, number);
    HighestGrows(src.arrivals, x);
    LateCountGrows(src.arrivals, x);
    WordsRefine(s, high, x, |src.arrivals|, LateCount(src.arrivals));
  }

  lemma ExpectedIsSpan(s: Rx, src: Source)
    requires Refines(s, Some(src))
    ensures ExtendedMax(s) == Wrap32(Highest(src.arrivals))
    ensures Expected(s) == Wrap32(Span(src))
    ensures ExpectedInterval(s) == Wrap32(Span(src) - src.expectedAtReport)
    ensures ReceivedInterval(s) == Wrap32(|src.arrivals| - src.receivedAtReport)
  {
    hide Wrap16, Wrap32, Wrap64;
    var high, first := Highest(src.arrivals), src.arrivals[0];
    Sum32(high - Wrap16(high), Wrap16(high));
    Difference32(high, first);
    Sum32(high - first, 1);
    Difference32(Span(src), src.expectedAtReport);
    Difference32(|src.arrivals|, src.receivedAtReport);
  }

  lemma StepRefines(s: Rx, o: Option<Source>, e: Event)
    requires Refines(s, o)
    ensures Refines(Step(s, e), IdealStep(o, e))
  {
    if e.Arrival? && !NewSource(o, e) {
      ArrivalRefines(s, o.value, e.number);
    } else if e.Report? && o.Some? {
      ExpectedIsSpan(s, o.value);
    }
  }

  /** Over every run of arrivals and reports, of any number of sources. */
  lemma {:induction false} RunRefines(es: seq<Event>)
    ensures Refines(Run(es), Ideal(es))
  {
    if es != [] {
      RunRefines(es[..|es| - 1]);
      StepRefines(Run(es[..|es| - 1]), Ideal(es[..|es| - 1]), es[|es| - 1]);
    }
  }

  /** `s` and `o` are what the code and the reference hold after some run. */
  ghost predicate Reachable(s: Rx, o: Option<Source>) {
    exists es :: s == Run(es) && o == Ideal(es)
  }

  lemma ReachableRefines(s: Rx, o: Option<Source>)
    requires Reachable(s, o)
    ensures Refines(s, o) && IntervalsConsistent(o)
  {
    var es :| s == Run(es) && o == Ideal(es);
    RunRefines(es);
    RunKeepsIntervals(es);
  }

  // ------------------------------------------------- true sequence numbers

  /** Each number stays within half the 16-bit space of the maximum before it. */
  ghost predicate Windowed(xs: seq<int>) {
    && |xs| > 0
    && 0 <= xs[0] < TWO_16
    && forall i :: 0 < i < |xs| ==> -0x8000 <= xs[i] - Highest(xs[..i]) < 0x8000
  }

  function Wire(ssrc: bv32, xs: seq<int>): seq<Event> {
    if xs == [] then [] else Wire(ssrc, xs[..|xs| - 1]) + [Arrival(ssrc, Wrap16(xs[|xs| - 1]))]
  }

  lemma WireAppend(before: seq<Event>, ssrc: bv32, init: seq<int>, last: int)
    ensures
      var es := before + Wire(ssrc, init + [last]);
      && es == (before + Wire(ssrc, init)) + [Arrival(ssrc, Wrap16(last))]
      && Ideal(es) == IdealStep(Ideal(before + Wire(ssrc, init)), Arrival(ssrc, Wrap16(last)))
  {
    assert (init + [last])[..|init|] == init;
    var es := before + Wire(ssrc, init + [last]);
    assert es[..|es| - 1] == before + Wire(ssrc, init);
  }

  /**
   Whatever was received before, the sender's true unbounded numbers are recovered
   from their 16-bit images across any number of wrap-arounds.
   */
  lemma {:induction false} TrueNumbersRecovered(before: seq<Event>, ssrc: bv32, xs: seq<int>)
    requires Windowed(xs)
    requires Ideal(before).None? || Ideal(before).value.ssrc != ssrc
    ensures Ideal(before + Wire(ssrc, xs)) == Some(RawSource.Source(ssrc, xs, 0, 0))
  {
    var init, last := xs[..|xs| - 1], xs[|xs| - 1];
    assert xs == init + [last];
    WireAppend(before, ssrc, init, last);
    if init == [] {
      assert before + Wire(ssrc, init) == before;
    } else {
      assert forall i :: 0 <= i < |init| ==> init[..i] == xs[..i];
      TrueNumbersRecovered(before, ssrc, init);
      NearestRecovers(Highest(init), last);
    }
  }

  /** Extended maximum, reordering and arrival counters of any true trace. */
  lemma StatisticsOfTrueTrace(before: seq<Event>, ssrc: bv32, xs: seq<int>)
    requires Windowed(xs)
    requires Ideal(before).None? || Ideal(before).value.ssrc != ssrc
    ensures
      var s := Run(before + Wire(ssrc, xs));
      && ExtendedMax(s) == Wrap32(Highest(xs))
      && SnapshotOf(s).reordered == Wrap64(LateCount(xs))
      && SnapshotOf(s).received == Wrap32(|xs|)
  {
    TrueNumbersRecovered(before, ssrc, xs);
    var es := before + Wire(ssrc, xs);
    RunRefines(es);
    ExpectedIsSpan(Run(es), RawSource.Source(ssrc, xs, 0, 0));
  }

  // ------------------------------------------------------- loss is what is missing

  ghost predicate Distinct(xs: seq<int>) {
    forall i, j :: 0 <= i < j < |xs| ==> xs[i] != xs[j]
  }

  lemma {:induction false} SeenSize(xs: seq<int>)
    ensures |Seen(xs)| <= |xs|
    ensures |Seen(xs)| == |xs| <==> Distinct(xs)
  {
    if xs != [] {
      var init, last := xs[..|xs| - 1], xs[|xs| - 1];
      SeenSize(init);
      assert xs == init + [last];
      assert Seen(xs) == Seen(init) + {last};
      if last in init {
        assert Seen(xs) == Seen(init);
        var i :| 0 <= i < |init| && init[i] == last;
        assert xs[i] == xs[|xs| - 1];
      } else {
        assert Distinct(xs) <==> Distinct(init);
      }
    }
  }

  ghost predicate FitsWords(src: Source) {
    Span(src) < TWO_32 && |src.arrivals| < TWO_32
  }

  lemma LostIsSpanMinusReceived(s: Rx, src: Source)
    requires Refines(s, Some(src)) && FitsWords(src)
    ensures CumulativeLost(s) == Span(src) - |src.arrivals|
  {
    hide Wrap16, Wrap32, Wrap64;
    ExpectedIsSpan(s, src);
    HighestIsMaximum(src.arrivals);
    Small32(Span(src));
    Small32(|src.arrivals|);
  }

  /** The distinct arrivals between the first one and the highest one. */
  function Useful(src: Source): set<int> {
    Seen(src.arrivals) * Between(src.arrivals[0], Highest(src.arrivals))
  }

  ghost predicate NonePrecedesFirst(xs: seq<int>)
    requires |xs| > 0
  {
    forall i :: 0 <= i < |xs| ==> xs[0] <= xs[i]
  }

  lemma UsefulFillsTheSpan(src: Source)
    ensures |Missing(src)| + |Useful(src)| == Span(src)
    ensures |Useful(src)| <= |src.arrivals|
  {
    var range := Between(src.arrivals[0], Highest(src.arrivals));
    HighestIsMaximum(src.arrivals);
    SeenSize(src.arrivals);
    assert range == Missing(src) + Useful(src);
    assert Seen(src.arrivals) == Useful(src) + (Seen(src.arrivals) - range);
  }

  lemma AllUsefulIff(src: Source)
    ensures |Useful(src)| == |src.arrivals| <==> Distinct(src.arrivals) && NonePrecedesFirst(src.arrivals)
  {
    var xs := src.arrivals;
    var range := Between(xs[0], Highest(xs));
    HighestIsMaximum(xs);
    SeenSize(xs);
    assert Seen(xs) == Useful(src) + (Seen(xs) - range);
    if NonePrecedesFirst(xs) {
      assert Seen(xs) <= range;
      assert Useful(src) == Seen(xs);
    } else {
      var i :| 0 <= i < |xs| && xs[i] < xs[0];
      assert xs[i] in Seen(xs) - range;
    }
  }

  /**
   The reported loss is the number of positions that never arrived exactly when no
   packet was duplicated and none preceded the first one; otherwise it is smaller by
   the number of duplicates and early packets.
   */
  lemma LostIsMissing(s: Rx, src: Source)
    requires Reachable(s, Some(src)) && FitsWords(src)
    ensures SnapshotOf(s).lost == |Missing(src)| - (|src.arrivals| - |Useful(src)|)
    ensures SnapshotOf(s).lost == |Missing(src)| <==> Distinct(src.arrivals) && NonePrecedesFirst(src.arrivals)
  {
    hide Wrap16, Wrap32, Wrap64, Missing, Useful, Distinct, NonePrecedesFirst;
    ReachableRefines(s, Some(src));
    LostIsSpanMinusReceived(s, src);
    UsefulFillsTheSpan(src);
    AllUsefulIff(src);
  }

  /** Before the first packet there is nothing to report. */
  lemma NothingBeforeFirstPacket(es: seq<Event>)
    ensures Ideal(es).None? ==> SnapshotOf(Run(es)) == Snapshot(0, 0, 0)
    ensures Ideal(es).None? <==> forall i :: 0 <= i < |es| ==> es[i].Report?
  {
    RunRefines(es);
    NoSourceIff(es);
  }

  lemma {:induction false} NoSourceIff(es: seq<Event>)
    ensures Ideal(es).None? <==> forall i :: 0 <= i < |es| ==> es[i].Report?
  {
    if es != [] {
      NoSourceIff(es[..|es| - 1]);
    }
  }

  /** For a true trace, Lost counts the sender's numbers that are missing, under the same condition. */
  lemma LostOfTrueTrace(before: seq<Event>, ssrc: bv32, xs: seq<int>)
    requires Windowed(xs)
    requires Ideal(before).None? || Ideal(before).value.ssrc != ssrc
    requires FitsWords(RawSource.Source(ssrc, xs, 0, 0))
    ensures
      var lost := SnapshotOf(Run(before + Wire(ssrc, xs))).lost;
      lost == |Between(xs[0], Highest(xs)) - Seen(xs)| <==> Distinct(xs) && NonePrecedesFirst(xs)
  {
    TrueNumbersRecovered(before, ssrc, xs);
    var es := before + Wire(ssrc, xs);
    hide Run, Ideal, SnapshotOf;
    assert Reachable(Run(es), Ideal(es));
    LostIsMissing(Run(es), RawSource.Source(ssrc, xs, 0, 0));
  }

  lemma TwoCopies(ssrc: bv32, x: int)
    requires 0 <= x < TWO_16
    ensures Highest([x, x]) == x && Windowed([x, x])
    ensures Wire(ssrc, [x, x]) == [Arrival(ssrc, x), Arrival(ssrc, x)]
  {
    assert [x, x][..1] == [x] && [x][..0] == [];
    Small16(x);
    assert Wire(ssrc, [x]) == [] + [Arrival(ssrc, x)];
    assert Wire(ssrc, [x, x]) == Wire(ssrc, [x]) + [Arrival(ssrc, x)];
  }

  /** A duplicate alone makes the two differ: one packet received twice, nothing missing, minus one lost. */
  lemma DuplicateHidesLoss(ssrc: bv32, x: int)
    requires 0 <= x < TWO_16
    ensures
      var es, src := [Arrival(ssrc, x), Arrival(ssrc, x)], RawSource.Source(ssrc, [x, x], 0, 0);
      Ideal(es) == Some(src) && SnapshotOf(Run(es)).lost == -1 && Missing(src) == {}
  {
    var es := [Arrival(ssrc, x), Arrival(ssrc, x)];
    TwoCopies(ssrc, x);
    hide Run, Ideal, Wire, Windowed, Wrap16, Wrap32, Wrap64, Expected, ExtendedMax;
    assert [] + Wire(ssrc, [x, x]) == es;
    assert Ideal([]).None? by { EmptyRun(); }
    TrueNumbersRecovered([], ssrc, [x, x]);
    RunRefines(es);
    LostIsSpanMinusReceived(Run(es), RawSource.Source(ssrc, [x, x], 0, 0));
    assert [x, x][0] in Seen([x, x]);
  }

  lemma EmptyRun()
    ensures Ideal([]).None?
  {
  }

  // ------------------------------------------------------------ interval reports

  /** Nothing is expected in an interval in which nothing arrived. */
  ghost predicate IntervalsConsistent(o: Option<Source>) {
    o.Some? ==>
      var src := o.value;
      && src.receivedAtReport <= |src.arrivals|
      && 0 <= src.expectedAtReport <= Span(src)
      && (src.receivedAtReport == |src.arrivals| ==> src.expectedAtReport == Span(src))
  }

  lemma {:induction false} RunKeepsIntervals(es: seq<Event>)
    ensures IntervalsConsistent(Ideal(es))
  {
    if es != [] {
      var o, e := Ideal(es[..|es| - 1]), es[|es| - 1];
      RunKeepsIntervals(es[..|es| - 1]);
      if e.Arrival? && !NewSource(o, e) {
        HighestGrows(o.value.arrivals, Nearest(Highest(o.value.arrivals), e.number));
      } else if e.Report? && o.Some? {
        HighestIsMaximum(o.value.arrivals);
      }
    }
  }

  lemma LossFractionBelow(expected: int, received: int)
    requires expected > 0 ==> received > 0
    ensures 0 <= LossFraction(expected, received) < 0x100
  {
    if expected > 0 && expected > received {
      var q := (expected - received) * 0x100 / expected;
      assert q * expected <= (expected - received) * 0x100 < 0x100 * expected;
    }
  }

  lemma ReceivedIntervalIsExact(s: Rx, src: Source)
    requires Refines(s, Some(src)) && IntervalsConsistent(Some(src))
    requires |src.arrivals| - src.receivedAtReport < TWO_32
    ensures ReceivedInterval(s) == |src.arrivals| - src.receivedAtReport
  {
    hide Wrap16, Wrap32, Wrap64;
    Difference32(|src.arrivals|, src.receivedAtReport);
    Small32(|src.arrivals| - src.receivedAtReport);
  }

  lemma ExpectedIntervalIsExact(s: Rx, src: Source)
    requires Refines(s, Some(src)) && IntervalsConsistent(Some(src))
    requires Span(src) - src.expectedAtReport < TWO_32
    ensures ExpectedInterval(s) == Span(src) - src.expectedAtReport
  {
    hide Wrap16, Wrap32, Wrap64;
    ExpectedIsSpan(s, src);
    Small32(Span(src) - src.expectedAtReport);
  }

  /** The quotient is 256 times the lost share of what was expected, rounded down. */
  lemma LossFractionIsFloor(expected: int, received: int)
    ensures
      var f := LossFraction(expected, received);
      if expected > 0 && expected > received then f * expected <= 256 * (expected - received) < (f + 1) * expected
      else f == 0
  {
  }

  /** Narrowing the loss fraction to eight bits never loses anything. */
  lemma FractionNeverTruncates(s: Rx, src: Source)
    requires Reachable(s, Some(src)) && |src.arrivals| - src.receivedAtReport < TWO_32
    ensures ExpectedInterval(s) > 0 ==> ReceivedInterval(s) > 0
    ensures ReportOf(s).fractionLost == RawFraction(s) < 0x100
  {
    hide Wrap16, Wrap32, Wrap64;
    ReachableRefines(s, Some(src));
    ReceivedIntervalIsExact(s, src);
    if ReceivedInterval(s) == 0 {
      ExpectedIntervalIsExact(s, src);
    }
    LossFractionBelow(ExpectedInterval(s), ReceivedInterval(s));
  }

  /** The report carries the true loss fraction of the interval. */
  lemma FractionIsExact(s: Rx, src: Source)
    requires Reachable(s, Some(src))
    requires |src.arrivals| - src.receivedAtReport < TWO_32
    requires Span(src) - src.expectedAtReport < TWO_32
    ensures
      var expected, received := Span(src) - src.expectedAtReport, |src.arrivals| - src.receivedAtReport;
      var f := ReportOf(s).fractionLost;
      if expected > 0 && expected > received then f * expected <= 256 * (expected - received) < (f + 1) * expected
      else f == 0
  {
    hide Wrap16, Wrap32, Wrap64;
    ReachableRefines(s, Some(src));
    FractionNeverTruncates(s, src);
    ReceivedIntervalIsExact(s, src);
    ExpectedIntervalIsExact(s, src);
    LossFractionIsFloor(Span(src) - src.expectedAtReport, |src.arrivals| - src.receivedAtReport);
    hide LossFraction;
  }

  /** The report names the source and its true highest position, modulo 2^32. */
  lemma ReportNamesTheSource(s: Rx, src: Source)
    requires Reachable(s, Some(src))
    ensures ReportOf(s).ssrc == src.ssrc && ReportOf(s).lastSequenceNumber == Wrap32(Highest(src.arrivals))
  {
    hide Wrap16, Wrap32, Wrap64;
    ReachableRefines(s, Some(src));
    ExpectedIsSpan(s, src);
  }

  /** Per-interval loss, as the code computes it, summed since the source began. */
  function IntervalLossSum(es: seq<Event>): int {
    if es == [] then 0
    else
      var init, e := es[..|es| - 1], es[|es| - 1];
      if NewSource(Ideal(init), e) then 0
      else if e.Report? && Run(init).started then
        IntervalLossSum(init) + ExpectedInterval(Run(init)) - ReceivedInterval(Run(init))
      else IntervalLossSum(init)
  }

  lemma FitsShrinks(o: Option<Source>, e: Event)
    requires IdealStep(o, e).Some? && FitsWords(IdealStep(o, e).value)
    requires !NewSource(o, e)
    ensures o.Some? && FitsWords(o.value)
  {
    if e.Arrival? {
      HighestGrows(o.value.arrivals, Nearest(Highest(o.value.arrivals), e.number));
    }
  }

  /** One report adds to the sum exactly what the reference lost since the previous one. */
  lemma IntervalLossIsExact(s: Rx, src: Source)
    requires Refines(s, Some(src)) && IntervalsConsistent(Some(src)) && FitsWords(src)
    ensures ExpectedInterval(s) - ReceivedInterval(s)
         == (Span(src) - src.expectedAtReport) - (|src.arrivals| - src.receivedAtReport)
  {
    hide Wrap16, Wrap32, Wrap64;
    ReceivedIntervalIsExact(s, src);
    ExpectedIntervalIsExact(s, src);
  }

  /** The interval losses add up to the loss accumulated at the last report. */
  lemma {:induction false} IntervalLossesTelescope(es: seq<Event>)
    requires Ideal(es).Some? && FitsWords(Ideal(es).value)
    ensures IntervalLossSum(es) == Ideal(es).value.expectedAtReport - Ideal(es).value.receivedAtReport
  {
    var init, e := es[..|es| - 1], es[|es| - 1];
    if !NewSource(Ideal(init), e) {
      FitsShrinks(Ideal(init), e);
      IntervalLossesTelescope(init);
      RunRefines(init);
      if e.Report? {
        RunKeepsIntervals(init);
        IntervalLossIsExact(Run(init), Ideal(init).value);
      }
    }
  }

  /** What a report sends is the sum of all interval losses, clamped to 24 bits. */
  lemma ReportedTotalIsSumOfIntervals(es: seq<Event>)
    requires Ideal(es).Some? && FitsWords(Ideal(es).value)
    ensures
      var lost, total := IntervalLossSum(es + [Report]), ReportOf(Run(es)).totalLost;
      total == if lost < 0 then 0 else if lost > 16777215 then 16777215 else lost
    ensures IntervalLossSum(es + [Report]) == CumulativeLost(Run(es))
  {
    var fs := es + [Report];
    assert fs[..|fs| - 1] == es;
    IntervalLossesTelescope(fs);
    RunRefines(es);
    LostIsSpanMinusReceived(Run(es), Ideal(es).value);
  }
}

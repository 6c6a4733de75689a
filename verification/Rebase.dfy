/**
 The RTP rebaser (internal/livekitbridge/rebase.go).

 `State` is the wrapping state of the code. `Timeline` is the reference: unbounded
 input positions shifted by one constant per source segment. The run results relate
 every emitted header to its unbounded place on the output timeline.
 */
module Rebase {
  import opened Words
  import opened Sequences

  const SSRC_MASK: bv32 := 0x6d2b79f5
  const OPUS_FRAME_TICKS: int := 960
  const MAX_SEQ_JUMP: int := 3000
  const MAX_REBASE_FRAMES: int := 500
  const FRAME_NANOS: int := 20_000_000
  const MAX_DURATION: int := 0x7fff_ffff_ffff_ffff

  type Extension = (U8, seq<U8>)

  datatype Header = Header(
    ssrc: bv32, number: U16, ts: U32, payloadType: U8,
    extension: bool, extensionProfile: U16, extensions: seq<Extension>)

  datatype State = State(
    started: bool, outSSRC: bv32, srcSSRC: bv32, seqOff: U16, tsOff: U32,
    lastInSeq: U16, lastOutSeq: U16, lastOutTS: U32, lastAt: int, keepExtensions: bool)

  function Fresh(keepExtensions: bool): State {
    State(false, 0, 0, 0, 0, 0, 0, 0, 0, keepExtensions)
  }

  predicate SeqNewer(a: U16, b: U16) { Signed16(Wrap16(a - b)) > 0 }

  /** Time subtraction saturates at the range of a 64-bit duration. */
  function Elapsed(now: int, last: int): int {
    var d := now - last;
    if d > MAX_DURATION then MAX_DURATION else if d < -MAX_DURATION - 1 then -MAX_DURATION - 1 else d
  }

  /** Integer division truncating toward zero. */
  function Truncated(a: int, b: int): int
    requires b > 0
  {
    if a >= 0 then a / b else -((-a) / b)
  }

  function Frames(now: int, last: int): (f: int)
    ensures 1 <= f <= MAX_REBASE_FRAMES
  {
    var f := Truncated(Elapsed(now, last), FRAME_NANOS);
    if f < 1 then 1 else if f > MAX_REBASE_FRAMES then MAX_REBASE_FRAMES else f
  }

  predicate Restarts(r: State, h: Header) {
    h.ssrc != r.srcSSRC || Abs(Signed16(Wrap16(h.number - r.lastInSeq))) > MAX_SEQ_JUMP
  }

  /** Fixes the offsets for this packet: adopt, keep, or continue from the last position. */
  function Anchored(r: State, h: Header, now: int): State {
    var a :=
      if !r.started then
        r.(started := true, outSSRC := h.ssrc ^ SSRC_MASK, srcSSRC := h.ssrc,
           lastInSeq := h.number, lastOutSeq := h.number, lastOutTS := h.ts)
      else if Restarts(r, h) then
        var nextSeq := Wrap16(r.lastOutSeq + 1);
        var nextTS := Wrap32(r.lastOutTS + Frames(now, r.lastAt) * OPUS_FRAME_TICKS);
        r.(seqOff := Wrap16(nextSeq - h.number), tsOff := Wrap32(nextTS - h.ts),
           srcSSRC := h.ssrc, lastInSeq := h.number,
           lastOutSeq := Wrap16(nextSeq - 1), lastOutTS := Wrap32(nextTS - OPUS_FRAME_TICKS))
      else r;
    a.(lastAt := now)
  }

  function OutSeq(a: State, h: Header): U16 { Wrap16(h.number + a.seqOff) }

  function OutTS(a: State, h: Header): U32 { Wrap32(h.ts + a.tsOff) }

  function Advanced(a: State, h: Header): State {
    var b := if SeqNewer(h.number, a.lastInSeq) then a.(lastInSeq := h.number) else a;
    if SeqNewer(OutSeq(a, h), a.lastOutSeq)
    then b.(lastOutSeq := OutSeq(a, h), lastOutTS := OutTS(a, h))
    else b
  }

  function Emitted(a: State, h: Header, pt: U8): Header {
    var out := h.(payloadType := pt, ssrc := a.outSSRC, number := OutSeq(a, h), ts := OutTS(a, h));
    if a.keepExtensions then out else out.(extension := false, extensionProfile := 0, extensions := [])
  }

  /** A packet whose header the rebaser overwrites in place. */
  class Packet {
    var ssrc: bv32
    var number: U16
    var ts: U32
    var payloadType: U8
    var extension: bool
    var extensionProfile: U16
    var extensions: seq<Extension>
    var payload: seq<U8>

    constructor (h: Header, body: seq<U8>)
      ensures View() == h && payload == body
    {
      ssrc, number, ts, payloadType := h.ssrc, h.number, h.ts, h.payloadType;
      extension, extensionProfile, extensions := h.extension, h.extensionProfile, h.extensions;
      payload := body;
    }

    function View(): Header
      reads this
    {
      Header(ssrc, number, ts, payloadType, extension, extensionProfile, extensions)
    }
  }

  class Rebaser {
    var started: bool
    var outSSRC: bv32
    var srcSSRC: bv32
    var seqOff: U16
    var tsOff: U32
    var lastInSeq: U16
    var lastOutSeq: U16
    var lastOutTS: U32
    var lastAt: int
    var keepExtensions: bool

    constructor (keep: bool)
      ensures View() == Fresh(keep)
    {
      started, outSSRC, srcSSRC, seqOff, tsOff := false, 0, 0, 0, 0;
      lastInSeq, lastOutSeq, lastOutTS, lastAt, keepExtensions := 0, 0, 0, 0, keep;
    }

    function View(): State
      reads this
    {
      State(started, outSSRC, srcSSRC, seqOff, tsOff, lastInSeq, lastOutSeq, lastOutTS, lastAt, keepExtensions)
    }

    method FramesSince(now: int) returns (frames: int)
      ensures frames == Frames(now, lastAt)
    {
      frames := Truncated(Elapsed(now, lastAt), FRAME_NANOS);
      if frames < 1 {
        frames := 1;
      }
      if frames > MAX_REBASE_FRAMES {
        frames := MAX_REBASE_FRAMES;
      }
    }

    /** Lines 70 to 92 of the code: settle the offsets before the packet is shifted. */
    method Anchor(h: Header, now: int)
      modifies this
      ensures View() == Anchored(old(View()), h, now)
    {
      hide Wrap16, Wrap32, Signed16, Abs, Frames;
      if !started {
        started := true;
        outSSRC := h.ssrc ^ SSRC_MASK;
        srcSSRC := h.ssrc;
        lastInSeq := h.number;
        lastOutSeq, lastOutTS := h.number, h.ts;
      } else if h.ssrc != srcSSRC || Abs(Signed16(Wrap16(h.number - lastInSeq))) > MAX_SEQ_JUMP {
        var frames := FramesSince(now);
        var nextSeq := Wrap16(lastOutSeq + 1);
        var nextTS := Wrap32(lastOutTS + frames * OPUS_FRAME_TICKS);
        seqOff := Wrap16(nextSeq - h.number);
        tsOff := Wrap32(nextTS - h.ts);
        srcSSRC := h.ssrc;
        lastInSeq := h.number;
        lastOutSeq, lastOutTS := Wrap16(nextSeq - 1), Wrap32(nextTS - OPUS_FRAME_TICKS);
      }
      lastAt := now;
    }

    /** Moves the two high-water marks. */
    method Advance(h: Header, outSeq: U16, outTS: U32)
      requires outSeq == OutSeq(View(), h) && outTS == OutTS(View(), h)
      modifies this`lastInSeq, this`lastOutSeq, this`lastOutTS
      ensures View() == Advanced(old(View()), h)
    {
      hide OutSeq, OutTS, SeqNewer;
      if SeqNewer(h.number, lastInSeq) {
        lastInSeq := h.number;
      }
      if SeqNewer(outSeq, lastOutSeq) {
        lastOutSeq, lastOutTS := outSeq, outTS;
      }
    }

    method Rewrite(p: Packet, pt: U8, now: int)
      modifies this, p
      ensures View() == Advanced(Anchored(old(View()), old(p.View()), now), old(p.View()))
      ensures p.View() == Emitted(Anchored(old(View()), old(p.View()), now), old(p.View()), pt)
      ensures p.payload == old(p.payload)
    {
      hide Wrap16, Wrap32, Anchored, Advanced;
      Anchor(p.View(), now);
      var outSeq := Wrap16(p.number + seqOff);
      var outTS := Wrap32(p.ts + tsOff);
      Advance(p.View(), outSeq, outTS);
      p.payloadType, p.ssrc, p.number, p.ts := pt, outSSRC, outSeq, outTS;
      if keepExtensions {
        return;
      }
      p.extension := false;
      p.extensionProfile := 0;
      p.extensions := [];
    }
  }

  // ---------------------------------------------------------------- reference

  /**
   The current segment on unbounded positions: `inHigh` is the highest input position,
   and output positions are input positions plus `shift`.
   */
  datatype Timeline = Timeline(src: bv32, segment: nat, inHigh: int, shift: int) {
    function OutHigh(): int { inHigh + shift }
  }

  /** Where one packet lies: its segment and its input and output positions. */
  datatype Placement = Placement(segment: nat, inPos: int, outPos: int)

  predicate Breaks(t: Timeline, h: Header) {
    h.ssrc != t.src || Abs(Nearest(t.inHigh, h.number) - t.inHigh) > MAX_SEQ_JUMP
  }

  function IdealStep(o: Option<Timeline>, h: Header): Timeline {
    match o
    case None => Timeline(h.ssrc, 0, h.number, 0)
    case Some(t) =>
      if Breaks(t, h) then Timeline(h.ssrc, t.segment + 1, h.number, t.OutHigh() + 1 - h.number)
      else t.(inHigh := Max(t.inHigh, Nearest(t.inHigh, h.number)))
  }

  function Place(o: Option<Timeline>, h: Header): Placement {
    match o
    case None => Placement(0, h.number, h.number)
    case Some(t) =>
      if Breaks(t, h) then Placement(t.segment + 1, h.number, t.OutHigh() + 1)
      else
        var x := Nearest(t.inHigh, h.number);
        Placement(t.segment, x, x + t.shift)
  }

  datatype Input = Input(header: Header, pt: U8, now: int)

  function After(keep: bool, ins: seq<Input>): State {
    if ins == [] then Fresh(keep)
    else
      var i := ins[|ins| - 1];
      Advanced(Anchored(After(keep, ins[..|ins| - 1]), i.header, i.now), i.header)
  }

  function Outputs(keep: bool, ins: seq<Input>): (outs: seq<Header>)
    ensures |outs| == |ins|
  {
    if ins == [] then []
    else
      var i := ins[|ins| - 1];
      var a := Anchored(After(keep, ins[..|ins| - 1]), i.header, i.now);
      Outputs(keep, ins[..|ins| - 1]) + [Emitted(a, i.header, i.pt)]
  }

  function TimelineOf(ins: seq<Input>): Option<Timeline> {
    if ins == [] then None else Some(IdealStep(TimelineOf(ins[..|ins| - 1]), ins[|ins| - 1].header))
  }

  function Placements(ins: seq<Input>): (ps: seq<Placement>)
    ensures |ps| == |ins|
  {
    if ins == [] then []
    else Placements(ins[..|ins| - 1]) + [Place(TimelineOf(ins[..|ins| - 1]), ins[|ins| - 1].header)]
  }

  ghost predicate Refines(r: State, o: Option<Timeline>) {
    match o
    case None => !r.started && r.seqOff == 0 && r.tsOff == 0
    case Some(t) =>
      && r.started && r.srcSSRC == t.src
      && r.lastInSeq == Wrap16(t.inHigh)
      && r.seqOff == Wrap16(t.shift)
      && r.lastOutSeq == Wrap16(t.OutHigh())
  }

  // ------------------------------------------------------- one step refines

  lemma DeltaIsPosition(high: int, x: int)
    requires -0x8000 <= x - high < 0x8000
    ensures Signed16(Wrap16(Wrap16(x) - Wrap16(high))) == x - high
  {
    Difference16(x, high);
  }

  lemma {:induction false} RestartsIffBreaks(r: State, t: Timeline, h: Header)
    requires Refines(r, Some(t))
    ensures Restarts(r, h) <==> Breaks(t, h)
  {
    hide Wrap16, Signed16;
    DeltaIsPosition(t.inHigh, Nearest(t.inHigh, h.number));
  }

  /** Within a segment both high-water marks move together. */
  lemma ContinuationRefines(r: State, t: Timeline, h: Header, now: int)
    requires Refines(r, Some(t)) && !Breaks(t, h)
    ensures
      var a := Anchored(r, h, now);
      var b, t', p := Advanced(a, h), IdealStep(Some(t), h), Place(Some(t), h);
      && Refines(b, Some(t'))
      && a == r.(lastAt := now)
      && b.outSSRC == r.outSSRC && b.tsOff == r.tsOff && b.lastAt == now
      && b.lastOutTS == (if p.outPos > t.OutHigh() then OutTS(a, h) else r.lastOutTS)
      && t'.segment == t.segment && t'.shift == t.shift && t'.OutHigh() == Max(t.OutHigh(), p.outPos)
      && p.segment == t.segment && p.outPos == p.inPos + t.shift
      && h.number == Wrap16(p.inPos) && OutSeq(a, h) == Wrap16(p.outPos)
  {
    hide Wrap16, Wrap32, Signed16, Frames;
    RestartsIffBreaks(r, t, h);
    var x := Nearest(t.inHigh, h.number);
    DeltaIsPosition(t.inHigh, x);
    DeltaIsPosition(t.OutHigh(), x + t.shift);
    Sum16(x, t.shift);
  }

  /** A new segment starts one above everything emitted so far. */
  lemma RestartRefines(r: State, t: Timeline, h: Header, now: int)
    requires Refines(r, Some(t)) && Breaks(t, h)
    ensures
      var a := Anchored(r, h, now);
      var b, t', p := Advanced(a, h), IdealStep(Some(t), h), Place(Some(t), h);
      && Refines(b, Some(t'))
      && a.outSSRC == r.outSSRC && b.outSSRC == r.outSSRC && b.tsOff == a.tsOff && b.lastAt == now
      && b.lastOutTS == OutTS(a, h)
      && t'.segment == t.segment + 1 && t'.OutHigh() == t.OutHigh() + 1
      && p.segment == t'.segment && p.outPos == t'.OutHigh() == p.inPos + t'.shift
      && h.number == Wrap16(p.inPos) && OutSeq(a, h) == Wrap16(p.outPos)
      && OutTS(a, h) == Wrap32(r.lastOutTS + Frames(now, r.lastAt) * OPUS_FRAME_TICKS)
  {
    hide Wrap16, Wrap32, Signed16, Frames, Nearest;
    RestartsIffBreaks(r, t, h);
    Small16(h.number);
    NextNumber(t.OutHigh(), h.number);
    NextTimestamp(r.lastOutTS + Frames(now, r.lastAt) * OPUS_FRAME_TICKS, h.ts);
    DeltaIsPosition(h.number, h.number);
    DeltaIsPosition(t.OutHigh(), t.OutHigh() + 1);
  }

  lemma NextNumber(high: int, number: U16)
    ensures
      var next := Wrap16(Wrap16(high) + 1);
      && next == Wrap16(high + 1)
      && Wrap16(next - number) == Wrap16(high + 1 - number)
      && Wrap16(next - 1) == Wrap16(high)
      && Wrap16(number + Wrap16(next - number)) == next
      && Wrap16(number) == number
  {
    hide Wrap16;
    Small16(number);
    Sum16(1, high);
    Difference16(high + 1, number);
    Difference16(high + 1, 1);
    Sum16(number, high + 1 - number);
  }

  lemma NextTimestamp(next: int, ts: U32)
    ensures Wrap32(ts + Wrap32(Wrap32(next) - ts)) == Wrap32(next)
  {
    Difference32(next, ts);
    Sum32(ts, next - ts);
  }

  // ------------------------------------------------------------- whole runs

  /** The first packet that reached the highest output position. */
  function Peak(ps: seq<Placement>): (k: nat)
    requires |ps| > 0
    ensures k < |ps|
  {
    if |ps| == 1 then 0
    else
      var k := Peak(ps[..|ps| - 1]);
      if ps[k].outPos < ps[|ps| - 1].outPos then |ps| - 1 else k
  }

  lemma {:induction false} PeakIsFirstMaximum(ps: seq<Placement>)
    requires |ps| > 0
    ensures forall i :: 0 <= i < |ps| ==> ps[i].outPos <= ps[Peak(ps)].outPos
    ensures forall i :: 0 <= i < Peak(ps) ==> ps[i].outPos < ps[Peak(ps)].outPos
  {
    if |ps| > 1 {
      PeakIsFirstMaximum(ps[..|ps| - 1]);
    }
  }

  lemma PeakGrows(ps: seq<Placement>, p: Placement)
    requires |ps| > 0
    ensures Peak(ps + [p]) == if ps[Peak(ps)].outPos < p.outPos then |ps| else Peak(ps)
  {
    assert (ps + [p])[..|ps|] == ps;
  }

  /** What holds between the code, the reference and everything emitted so far. */
  ghost predicate RunInvariant(ins: seq<Input>, r: State, t: Timeline, ps: seq<Placement>, outs: seq<Header>) {
    && |ins| == |ps| == |outs| > 0
    && Refines(r, Some(t))
    && r.outSSRC == ins[0].header.ssrc ^ SSRC_MASK
    && r.lastAt == ins[|ins| - 1].now
    && ps[Peak(ps)].outPos == t.OutHigh()
    && r.lastOutTS == outs[Peak(ps)].ts
    && ps[|ps| - 1].segment == t.segment
    && (forall i :: 0 <= i < |ps| ==> InTimeline(ins[i], ps[i], outs[i], r, t))
  }

  ghost predicate InTimeline(i: Input, p: Placement, out: Header, r: State, t: Timeline) {
    && p.segment <= t.segment
    && Wrap16(p.inPos) == i.header.number
    && out.number == Wrap16(p.outPos)
    && out.ssrc == r.outSSRC && out.payloadType == i.pt
    && (p.segment == t.segment ==>
        p.outPos == p.inPos + t.shift && out.ts == Wrap32(i.header.ts + r.tsOff))
  }

  lemma FirstPacket(keep: bool, i: Input)
    ensures RunInvariant([i], After(keep, [i]), IdealStep(None, i.header), Placements([i]), Outputs(keep, [i]))
  {
    var h := i.header;
    var a := Anchored(Fresh(keep), h, i.now);
    assert [i][..0] == [];
    assert Outputs(keep, [i]) == [Emitted(a, h, i.pt)];
    assert Placements([i]) == [Placement(0, h.number, h.number)];
    DeltaIsPosition(h.number, h.number);
    Small16(h.number);
    assert OutSeq(a, h) == h.number && OutTS(a, h) == h.ts;
    assert Advanced(a, h) == a;
  }

  lemma ContinuationKeeps(ins: seq<Input>, r: State, t: Timeline, ps: seq<Placement>, outs: seq<Header>, i: Input)
    requires RunInvariant(ins, r, t, ps, outs) && !Breaks(t, i.header)
    ensures
      var a := Anchored(r, i.header, i.now);
      RunInvariant(ins + [i], Advanced(a, i.header), IdealStep(Some(t), i.header),
        ps + [Place(Some(t), i.header)], outs + [Emitted(a, i.header, i.pt)])
  {
    hide Wrap16, Wrap32, Peak, Anchored, Refines, Advanced, IdealStep, Place, Breaks;
    var h := i.header;
    var a := Anchored(r, h, i.now);
    var r', t', p := Advanced(a, h), IdealStep(Some(t), h), Place(Some(t), h);
    ContinuationRefines(r, t, h, i.now);
    PeakGrows(ps, p);
    forall k | 0 <= k < |ps|
      ensures InTimeline(ins[k], ps[k], outs[k], r', t')
    {
      assert InTimeline(ins[k], ps[k], outs[k], r, t);
    }
    assert InTimeline(i, p, Emitted(a, h, i.pt), r', t');
  }

  lemma RestartKeeps(ins: seq<Input>, r: State, t: Timeline, ps: seq<Placement>, outs: seq<Header>, i: Input)
    requires RunInvariant(ins, r, t, ps, outs) && Breaks(t, i.header)
    ensures
      var a := Anchored(r, i.header, i.now);
      RunInvariant(ins + [i], Advanced(a, i.header), IdealStep(Some(t), i.header),
        ps + [Place(Some(t), i.header)], outs + [Emitted(a, i.header, i.pt)])
  {
    hide Wrap16, Wrap32, Peak, Anchored, Refines, Advanced, IdealStep, Place, Breaks, Frames;
    var h := i.header;
    var a := Anchored(r, h, i.now);
    var r', t', p := Advanced(a, h), IdealStep(Some(t), h), Place(Some(t), h);
    RestartRefines(r, t, h, i.now);
    PeakGrows(ps, p);
    forall k | 0 <= k < |ps|
      ensures InTimeline(ins[k], ps[k], outs[k], r', t')
    {
      assert InTimeline(ins[k], ps[k], outs[k], r, t);
    }
    assert InTimeline(i, p, Emitted(a, h, i.pt), r', t');
  }

  lemma {:induction false} RunKeepsInvariant(keep: bool, ins: seq<Input>)
    requires ins != []
    ensures RunInvariant(ins, After(keep, ins), TimelineOf(ins).value, Placements(ins), Outputs(keep, ins))
  {
    hide RunInvariant, Anchored, Advanced, Emitted, IdealStep, Place, Breaks;
    var init, i := ins[..|ins| - 1], ins[|ins| - 1];
    if init == [] {
      assert ins == [i];
      FirstPacket(keep, i);
    } else {
      RunKeepsInvariant(keep, init);
      assert ins == init + [i];
      var r, t := After(keep, init), TimelineOf(init).value;
      if Breaks(t, i.header) {
        RestartKeeps(init, r, t, Placements(init), Outputs(keep, init), i);
      } else {
        ContinuationKeeps(init, r, t, Placements(init), Outputs(keep, init), i);
      }
    }
  }

  // --------------------------------------------------------------- main laws

  lemma {:induction false} PrefixStable(keep: bool, ins: seq<Input>, n: nat)
    requires n <= |ins|
    ensures Placements(ins[..n]) == Placements(ins)[..n]
    ensures Outputs(keep, ins[..n]) == Outputs(keep, ins)[..n]
  {
    if n == |ins| {
      assert ins[..n] == ins;
    } else {
      var init := ins[..|ins| - 1];
      PrefixStable(keep, init, n);
      assert ins[..n] == init[..n];
    }
  }

  lemma TimelineOfRun(ins: seq<Input>)
    ensures TimelineOf(ins).Some? <==> ins != []
  {
  }

  /** The i-th output and placement come from the state the first i packets left behind. */
  lemma ItemAt(keep: bool, ins: seq<Input>, i: nat)
    requires i < |ins|
    ensures Placements(ins)[i] == Place(TimelineOf(ins[..i]), ins[i].header)
    ensures Outputs(keep, ins)[i] ==
            Emitted(Anchored(After(keep, ins[..i]), ins[i].header, ins[i].now), ins[i].header, ins[i].pt)
  {
    hide Place, Emitted, Anchored, Advanced, IdealStep;
    var pre := ins[..i + 1];
    PrefixStable(keep, ins, i + 1);
    assert pre[..i] == ins[..i];
    assert Placements(ins)[i] == Placements(pre)[i];
    assert Outputs(keep, ins)[i] == Outputs(keep, pre)[i];
  }

  /** The output of every run: one SSRC, and numbers that are the placements modulo 2^16. */
  lemma OutputsArePlacements(keep: bool, ins: seq<Input>, i: nat)
    requires i < |ins|
    ensures
      var out, p := Outputs(keep, ins)[i], Placements(ins)[i];
      && out.ssrc == ins[0].header.ssrc ^ 0x6d2b79f5
      && out.payloadType == ins[i].pt
      && out.number == Wrap16(p.outPos)
      && ins[i].header.number == Wrap16(p.inPos)
  {
    RunKeepsInvariant(keep, ins);
    var r, t := After(keep, ins), TimelineOf(ins).value;
    assert InTimeline(ins[i], Placements(ins)[i], Outputs(keep, ins)[i], r, t);
  }

  lemma {:induction false} ExtensionPolicyStays(keep: bool, ins: seq<Input>)
    ensures After(keep, ins).keepExtensions == keep
  {
    hide Wrap16, Wrap32, SeqNewer, Restarts, Frames;
    if ins != [] {
      ExtensionPolicyStays(keep, ins[..|ins| - 1]);
    }
  }

  /** Towards LiveKit extensions pass unchanged; towards Meta every header is plain. */
  lemma ExtensionsKeptOrCleared(keep: bool, ins: seq<Input>, i: nat)
    requires i < |ins|
    ensures
      var out, h := Outputs(keep, ins)[i], ins[i].header;
      if keep then
        (out.extension, out.extensionProfile, out.extensions) == (h.extension, h.extensionProfile, h.extensions)
      else !out.extension && out.extensionProfile == 0 && out.extensions == []
  {
    hide Wrap16, Wrap32, Restarts, Frames, Outputs, After, Placements;
    ItemAt(keep, ins, i);
    ExtensionPolicyStays(keep, ins[..i]);
  }

  /**
   Within one segment the output is the input shifted by a constant: gaps, reordering,
   duplicates and timestamp differences survive exactly.
   */
  lemma SegmentIsShifted(keep: bool, ins: seq<Input>, i: nat, j: nat)
    requires i < j < |ins|
    requires Placements(ins)[i].segment == Placements(ins)[j].segment
    ensures
      var ps, outs := Placements(ins), Outputs(keep, ins);
      && ps[j].outPos - ps[i].outPos == ps[j].inPos - ps[i].inPos
      && Wrap16(outs[j].number - outs[i].number) == Wrap16(ins[j].header.number - ins[i].header.number)
      && Wrap32(outs[j].ts - outs[i].ts) == Wrap32(ins[j].header.ts - ins[i].header.ts)
  {
    hide After, TimelineOf, Placements, Outputs, Refines, Peak, Wrap16, Wrap32;
    var pre := ins[..j + 1];
    PrefixStable(keep, ins, j + 1);
    RunKeepsInvariant(keep, pre);
    TimelineOfRun(pre);
    var r, t, ps, outs := After(keep, pre), TimelineOf(pre).value, Placements(ins), Outputs(keep, ins);
    assert InTimeline(pre[i], Placements(pre)[i], Outputs(keep, pre)[i], r, t);
    assert InTimeline(pre[j], Placements(pre)[j], Outputs(keep, pre)[j], r, t);
    Difference16(ps[j].outPos, ps[i].outPos);
    Difference16(ps[j].inPos, ps[i].inPos);
    Difference32(ins[j].header.ts + r.tsOff, ins[i].header.ts + r.tsOff);
  }

  /** How many frames of 20 ms fit between two times in nanoseconds, taken to be at least 1 and at most 500. */
  predicate FramesBetween(last: int, now: int, f: int) {
    var elapsed := now - last;
    || (f == 1 && elapsed < 20_000_000)
    || (f == 500 && elapsed >= 10_000_000_000)
    || (1 <= f <= 500 && 20_000_000 * f <= elapsed < 20_000_000 * (f + 1))
  }

  /** There is exactly one such number, and the code computes it. */
  lemma FramesAreElapsedTime(now: int, last: int)
    ensures forall f :: FramesBetween(last, now, f) <==> f == Frames(now, last)
  {
  }

  /**
   A new segment begins exactly one above the high-water mark. Its timestamp is that of the
   packet that first reached the mark, plus 960 ticks for each of the frames that fit into
   the time since the previous packet, whatever the clock did.
   */
  lemma SegmentStart(keep: bool, ins: seq<Input>, i: nat)
    requires 0 < i < |ins|
    requires Placements(ins)[i].segment != Placements(ins)[i - 1].segment
    ensures
      var ps, outs := Placements(ins), Outputs(keep, ins);
      var peak := Peak(ps[..i]);
      && ps[i].segment == ps[i - 1].segment + 1
      && ps[i].outPos == ps[peak].outPos + 1
      && (forall f :: FramesBetween(ins[i - 1].now, ins[i].now, f) ==> outs[i].ts == Wrap32(outs[peak].ts + 960 * f))
  {
    hide Placements, Outputs, Peak, Wrap16, Wrap32, Frames, FramesBetween;
    FramesAreElapsedTime(ins[i].now, ins[i - 1].now);
    SegmentStep(keep, ins, i);
    assert FramesBetween(ins[i - 1].now, ins[i].now, Frames(ins[i].now, ins[i - 1].now));
  }

  lemma SegmentStep(keep: bool, ins: seq<Input>, i: nat)
    requires 0 < i < |ins|
    requires Placements(ins)[i].segment != Placements(ins)[i - 1].segment
    ensures
      var ps, outs := Placements(ins), Outputs(keep, ins);
      var peak, frames := Peak(ps[..i]), Frames(ins[i].now, ins[i - 1].now);
      && ps[i].segment == ps[i - 1].segment + 1
      && ps[i].outPos == ps[peak].outPos + 1
      && outs[i].ts == Wrap32(outs[peak].ts + frames * 960)
  {
    hide After, TimelineOf, Placements, Outputs, Refines, Peak, Anchored, Wrap16, Wrap32, Frames;
    var pre, h := ins[..i], ins[i].header;
    RunKeepsInvariant(keep, pre);
    PrefixStable(keep, ins, i);
    ItemAt(keep, ins, i);
    TimelineOfRun(pre);
    var r, t := After(keep, pre), TimelineOf(pre).value;
    assert Placements(pre)[i - 1] == Placements(ins)[i - 1];
    assert Breaks(t, h);
    RestartRefines(r, t, h, ins[i].now);
  }

  /** The first segment is passed on unchanged. */
  lemma FirstSegmentIsUnchanged(keep: bool, ins: seq<Input>, i: nat)
    requires i < |ins| && Placements(ins)[i].segment == Placements(ins)[0].segment
    ensures
      var out, h := Outputs(keep, ins)[i], ins[i].header;
      Placements(ins)[i].outPos == Placements(ins)[i].inPos && out.number == h.number && out.ts == h.ts
  {
    hide Placements, Outputs, Wrap16, Wrap32;
    var first := ins[..1];
    assert first == [ins[0]];
    PrefixStable(keep, ins, 1);
    FirstUnchanged(keep, ins[0]);
    assert Outputs(keep, ins)[0] == Outputs(keep, first)[0] && Placements(ins)[0] == Placements(first)[0];
    if i > 0 {
      SegmentIsShifted(keep, ins, 0, i);
      OutputsArePlacements(keep, ins, i);
      var ts := ins[i].header.ts;
      SameDistance32(Outputs(keep, ins)[i].ts, ts, ins[0].header.ts);
    }
  }

  lemma SameDistance32(x: U32, y: U32, base: U32)
    requires Wrap32(x - base) == Wrap32(y - base)
    ensures x == y
  {
  }

  lemma FirstUnchanged(keep: bool, i: Input)
    ensures Placements([i]) == [Placement(0, i.header.number, i.header.number)]
    ensures Outputs(keep, [i])[0].number == i.header.number && Outputs(keep, [i])[0].ts == i.header.ts
  {
    var a := Anchored(Fresh(keep), i.header, i.now);
    assert [i][..0] == [];
    assert Outputs(keep, [i]) == [Emitted(a, i.header, i.pt)];
    Small16(i.header.number);
  }

  /**
   A packet stays in the segment of the one before exactly if it has its SSRC and some position
   within 3000 of the highest one of that segment has its number.
   */
  lemma SameSegmentIff(ins: seq<Input>, i: nat)
    requires 0 < i < |ins|
    ensures
      var ps := Placements(ins);
      var highest := ps[Peak(ps[..i])].outPos - (ps[i - 1].outPos - ps[i - 1].inPos);
      ps[i].segment == ps[i - 1].segment <==>
        && ins[i].header.ssrc == ins[i - 1].header.ssrc
        && exists x :: -3000 <= x - highest <= 3000 && Wrap16(x) == ins[i].header.number
  {
    hide After, TimelineOf, Placements, Outputs, Refines, Peak, Wrap16;
    var pre, h := ins[..i], ins[i].header;
    RunKeepsInvariant(false, pre);
    PrefixStable(false, ins, i);
    ItemAt(false, ins, i);
    TimelineOfRun(pre);
    var r, t := After(false, pre), TimelineOf(pre).value;
    assert InTimeline(pre[i - 1], Placements(pre)[i - 1], Outputs(false, pre)[i - 1], r, t);
    assert Placements(pre)[i - 1] == Placements(ins)[i - 1];
    SegmentSource(ins, i);
    var n := Nearest(t.inHigh, h.number);
    if exists x :: -3000 <= x - t.inHigh <= 3000 && Wrap16(x) == h.number {
      var x :| -3000 <= x - t.inHigh <= 3000 && Wrap16(x) == h.number;
      CongruentClose(x, n);
    }
  }

  /** The source of the current segment is that of the last packet. */
  lemma SegmentSource(ins: seq<Input>, i: nat)
    requires 0 < i <= |ins|
    ensures TimelineOf(ins[..i]).Some? && TimelineOf(ins[..i]).value.src == ins[i - 1].header.ssrc
  {
    hide Nearest;
    var pre := ins[..i];
    TimelineOfRun(pre);
    TimelineOfRun(pre[..i - 1]);
    assert pre[i - 1] == ins[i - 1];
  }

  /** The unbounded high-water mark of the output never moves backwards. */
  lemma HighWaterNeverDecreases(keep: bool, ins: seq<Input>, m: nat, n: nat)
    requires 0 < m <= n <= |ins|
    ensures
      var ps := Placements(ins);
      && ps[Peak(ps[..m])].outPos <= ps[Peak(ps[..n])].outPos
      && After(keep, ins[..n]).lastOutSeq == Wrap16(ps[Peak(ps[..n])].outPos)
  {
    var ps := Placements(ins);
    PrefixStable(keep, ins, n);
    RunKeepsInvariant(keep, ins[..n]);
    PeakIsFirstMaximum(ps[..n]);
    assert ps[Peak(ps[..m])] == ps[..n][Peak(ps[..m])];
  }

  // ------------------------------------------------------ reuse of positions

  /** The packet at `b` is the first of its segment. */
  predicate StartsSegment(ps: seq<Placement>, b: nat)
    requires b < |ps|
  {
    b == 0 || ps[b - 1].segment != ps[b].segment
  }

  /** Packet `i` belongs to the segment that packet `b` starts. */
  predicate InSegmentOf(ps: seq<Placement>, b: nat, i: nat)
    requires b <= i < |ps|
  {
    StartsSegment(ps, b) && ps[i].segment == ps[b].segment
  }

  predicate EmittedBefore(ps: seq<Placement>, b: nat, pos: int)
    requires b <= |ps|
  {
    exists k :: 0 <= k < b && ps[k].outPos == pos
  }

  /** Segments are numbered in the order in which they come. */
  lemma SegmentsAscend(ins: seq<Input>, k: nat, b: nat)
    requires k < b < |ins|
    ensures Placements(ins)[k].segment <= Placements(ins)[b - 1].segment
  {
    hide After, TimelineOf, Placements, Outputs, Refines, Peak, Wrap16, Wrap32;
    var pre := ins[..b];
    PrefixStable(false, ins, b);
    RunKeepsInvariant(false, pre);
    TimelineOfRun(pre);
    var r, t := After(false, pre), TimelineOf(pre).value;
    assert InTimeline(pre[k], Placements(pre)[k], Outputs(false, pre)[k], r, t);
  }

  /**
   Packet `i` of the segment that `b` starts falls on a position used before that segment
   exactly if it was numbered some `d` before `b`, and the position `d` below that of `b`
   had been emitted; for `d == 1` it always had.
   */
  lemma {:induction false} ReuseIff(ins: seq<Input>, b: nat, i: nat)
    requires 0 < b <= i < |ins| && InSegmentOf(Placements(ins), b, i)
    ensures
      var ps := Placements(ins);
      var d, peak := ps[b].inPos - ps[i].inPos, ps[Peak(ps[..b])].outPos;
      && (EmittedBefore(ps, b, ps[i].outPos) <==> d > 0 && EmittedBefore(ps, b, peak + 1 - d))
      && (d == 1 ==> EmittedBefore(ps, b, ps[i].outPos))
  {
    hide Placements, Outputs, Wrap16, Wrap32;
    var ps := Placements(ins);
    SegmentStep(false, ins, b);
    if b < i {
      SegmentIsShifted(false, ins, b, i);
    }
    PeakIsFirstMaximum(ps[..b]);
    var peak := Peak(ps[..b]);
    assert ps[..b][peak] == ps[peak];
    assert forall k :: 0 <= k < b ==> ps[k] == ps[..b][k];
  }

  /** Two packets share an output position only if they are copies of one packet. */
  ghost predicate PositionsUnique(ps: seq<Placement>) {
    forall i, j :: 0 <= i < j < |ps| ==>
      (ps[i].outPos == ps[j].outPos <==> ps[i].segment == ps[j].segment && ps[i].inPos == ps[j].inPos)
  }

  /** What lies `d` below the start of a segment was not emitted, if some packet is `d` early. */
  ghost predicate EarlyOnesFallIntoGaps(ps: seq<Placement>) {
    forall b, i :: 0 < b <= i < |ps| && InSegmentOf(ps, b, i) && ps[i].inPos < ps[b].inPos ==>
      !EmittedBefore(ps, b, ps[Peak(ps[..b])].outPos + 1 - (ps[b].inPos - ps[i].inPos))
  }

  /** Where the segment of packet `j` starts. */
  lemma {:induction false} SegmentOf(ps: seq<Placement>, j: nat) returns (b: nat)
    requires j < |ps|
    ensures b <= j && InSegmentOf(ps, b, j)
    ensures forall k :: b <= k <= j ==> ps[k].segment == ps[j].segment
  {
    if StartsSegment(ps, j) {
      b := j;
    } else {
      b := SegmentOf(ps, j - 1);
    }
  }

  lemma {:induction false} GapsMakeUnique(ins: seq<Input>, i: nat, j: nat)
    requires i < j < |ins| && EarlyOnesFallIntoGaps(Placements(ins))
    ensures
      var ps := Placements(ins);
      ps[i].outPos == ps[j].outPos <==> ps[i].segment == ps[j].segment && ps[i].inPos == ps[j].inPos
  {
    hide Placements, Outputs, Wrap16, Wrap32, Peak;
    var ps := Placements(ins);
    if ps[i].segment == ps[j].segment {
      SegmentIsShifted(false, ins, i, j);
    } else {
      var b := SegmentOf(ps, j);
      assert i < b;
      ReuseIff(ins, b, j);
      assert !EmittedBefore(ps, b, ps[j].outPos);
    }
  }

  lemma {:induction false} UniqueMakesGaps(ins: seq<Input>, b: nat, i: nat)
    requires PositionsUnique(Placements(ins))
    requires 0 < b <= i < |ins| && InSegmentOf(Placements(ins), b, i)
    ensures !EmittedBefore(Placements(ins), b, Placements(ins)[i].outPos)
  {
    hide Placements, Outputs, Wrap16, Wrap32, Peak;
    var ps := Placements(ins);
    SegmentStep(false, ins, b);
    forall k | 0 <= k < b ensures ps[k].outPos != ps[i].outPos {
      SegmentsAscend(ins, k, b);
    }
  }

  /** Over a whole run no position is used twice exactly if early packets fall into gaps. */
  lemma PositionsUniqueIff(ins: seq<Input>)
    ensures PositionsUnique(Placements(ins)) <==> EarlyOnesFallIntoGaps(Placements(ins))
  {
    hide Placements, Outputs, Wrap16, Wrap32, Peak, EmittedBefore;
    var ps := Placements(ins);
    if EarlyOnesFallIntoGaps(ps) {
      forall i, j | 0 <= i < j < |ps|
        ensures ps[i].outPos == ps[j].outPos <==> ps[i].segment == ps[j].segment && ps[i].inPos == ps[j].inPos
      {
        GapsMakeUnique(ins, i, j);
      }
    }
    if PositionsUnique(ps) {
      forall b, i | 0 < b <= i < |ps| && InSegmentOf(ps, b, i) && ps[i].inPos < ps[b].inPos
        ensures !EmittedBefore(ps, b, ps[Peak(ps[..b])].outPos + 1 - (ps[b].inPos - ps[i].inPos))
      {
        ReuseIff(ins, b, i);
        UniqueMakesGaps(ins, b, i);
      }
    }
  }

  /** In particular if no packet is numbered before the first one of its segment. */
  lemma NobodyEarlyMeansUnique(ins: seq<Input>)
    requires
      var ps := Placements(ins);
      forall b, i :: 0 < b <= i < |ps| && InSegmentOf(ps, b, i) ==> ps[b].inPos <= ps[i].inPos
    ensures PositionsUnique(Placements(ins))
  {
    hide Placements, Outputs, Peak, EmittedBefore;
    PositionsUniqueIff(ins);
  }

  // -------------------------------------------------- true sequence numbers

  /** One source whose numbers each stay within the jump limit of the maximum before them. */
  ghost predicate SteadySource(ssrc: bv32, ins: seq<Input>, xs: seq<int>) {
    && |ins| == |xs| > 0
    && 0 <= xs[0] < TWO_16
    && (forall i :: 0 <= i < |ins| ==> ins[i].header.ssrc == ssrc && ins[i].header.number == Wrap16(xs[i]))
    && (forall i :: 0 < i < |xs| ==> Abs(xs[i] - Highest(xs[..i])) <= 3000)
  }

  lemma TimelineAppend(ins: seq<Input>, i: Input)
    ensures TimelineOf(ins + [i]) == Some(IdealStep(TimelineOf(ins), i.header))
    ensures Placements(ins + [i]) == Placements(ins) + [Place(TimelineOf(ins), i.header)]
  {
    assert (ins + [i])[..|ins|] == ins;
  }

  function ShiftedBy(t: Timeline, xs: seq<int>): seq<Placement> {
    seq(|xs|, k requires 0 <= k < |xs| => Placement(t.segment, xs[k], xs[k] + t.shift))
  }

  lemma ShiftedByOne(t: Timeline, x: int)
    ensures ShiftedBy(t, [x]) == [Placement(t.segment, x, x + t.shift)]
  {
  }

  lemma SteadyStep(t: Timeline, h: Header, x: int)
    requires h.ssrc == t.src && h.number == Wrap16(x) && Abs(x - t.inHigh) <= MAX_SEQ_JUMP
    ensures IdealStep(Some(t), h) == t.(inHigh := Max(t.inHigh, x))
    ensures Place(Some(t), h) == Placement(t.segment, x, x + t.shift)
  {
    NearestRecovers(t.inHigh, x);
  }

  lemma SteadyItem(ssrc: bv32, ins: seq<Input>, xs: seq<int>)
    requires SteadySource(ssrc, ins, xs)
    ensures |ins| == |xs| > 0 && 0 <= xs[0] < TWO_16
    ensures ins[|ins| - 1].header.ssrc == ssrc && ins[|ins| - 1].header.number == Wrap16(xs[|xs| - 1])
  {
  }

  lemma SteadyPrefix(ssrc: bv32, ins: seq<Input>, xs: seq<int>)
    requires SteadySource(ssrc, ins, xs) && |xs| > 1
    ensures SteadySource(ssrc, ins[..|ins| - 1], xs[..|xs| - 1])
    ensures Abs(xs[|xs| - 1] - Highest(xs[..|xs| - 1])) <= MAX_SEQ_JUMP
  {
    hide Highest, Wrap16;
    var xs' := xs[..|xs| - 1];
    assert forall k :: 0 <= k < |xs'| ==> xs'[..k] == xs[..k];
  }

  /** The last packets of a run fill one segment holding the true positions `xs`. */
  ghost predicate FillsSegment(ins: seq<Input>, from: nat, ssrc: bv32, xs: seq<int>)
    requires |xs| > 0
  {
    && |ins| == from + |xs|
    && TimelineOf(ins).Some?
    && var t := TimelineOf(ins).value;
    && t.src == ssrc && t.inHigh == Highest(xs)
    && Placements(ins)[from..] == ShiftedBy(t, xs)
  }

  lemma SegmentGrows(ins: seq<Input>, from: nat, ssrc: bv32, xs: seq<int>, i: Input, x: int)
    requires |xs| > 0 && FillsSegment(ins, from, ssrc, xs)
    requires i.header.ssrc == ssrc && i.header.number == Wrap16(x) && Abs(x - Highest(xs)) <= MAX_SEQ_JUMP
    ensures FillsSegment(ins + [i], from, ssrc, xs + [x])
  {
    hide Wrap16, TimelineOf, Placements, IdealStep, Place, Highest;
    var t := TimelineOf(ins).value;
    TimelineAppend(ins, i);
    HighestGrows(xs, x);
    SteadyStep(t, i.header, x);
    assert ShiftedBy(t, xs + [x]) == ShiftedBy(t, xs) + [Placement(t.segment, x, x + t.shift)];
  }

  lemma SegmentOpens(before: seq<Input>, ssrc: bv32, i: Input, x: U16)
    requires before == [] || TimelineOf(before).value.src != ssrc
    requires i.header.ssrc == ssrc && i.header.number == x
    ensures FillsSegment(before + [i], |before|, ssrc, [x as int])
  {
    hide Wrap16, TimelineOf, Placements, Nearest, ShiftedBy;
    TimelineAppend(before, i);
    TimelineOfRun(before);
    var o := TimelineOf(before);
    var t, p := IdealStep(o, i.header), Place(o, i.header);
    assert t.src == ssrc && t.inHigh == x && p == Placement(t.segment, x, x + t.shift);
    assert Placements(before + [i])[|before|..] == [p];
    assert ShiftedBy(t, [x as int]) == [p] by { ShiftedByOne(t, x); }
  }

  /** Such a source, after any history of other sources, is one segment of true positions. */
  lemma {:induction false} SteadySourceIsOneSegment(before: seq<Input>, ssrc: bv32, ins: seq<Input>, xs: seq<int>)
    requires SteadySource(ssrc, ins, xs)
    requires before == [] || TimelineOf(before).value.src != ssrc
    ensures |xs| > 0 && FillsSegment(before + ins, |before|, ssrc, xs)
  {
    hide SteadySource, FillsSegment, Highest, Wrap16, TimelineOf, Abs;
    SteadyItem(ssrc, ins, xs);
    var init, i, x := ins[..|ins| - 1], ins[|ins| - 1], xs[|xs| - 1];
    assert before + ins == (before + init) + [i] && xs == xs[..|xs| - 1] + [x];
    if |xs| == 1 {
      assert before + init == before && xs == [x];
      Small16(x);
      SegmentOpens(before, ssrc, i, x);
    } else {
      SteadyPrefix(ssrc, ins, xs);
      SteadySourceIsOneSegment(before, ssrc, init, xs[..|xs| - 1]);
      SegmentGrows(before + init, |before|, ssrc, xs[..|xs| - 1], i, x);
    }
  }

  /** A source change, and then a packet of the new source that overtook its first one. */
  function OvertakenRun(): seq<Input> {
    [Input(Header(1, 10, 0, 111, false, 0, []), 111, 0)]
    + [Input(Header(2, 100, 0, 111, false, 0, []), 111, 0)]
    + [Input(Header(2, 99, 0, 111, false, 0, []), 111, 0)]
  }

  /** Output numbers are not unique over a run: an early packet of a new segment reuses one. */
  lemma OutputNumberReused(keep: bool)
    ensures
      var ins := OvertakenRun();
      && Placements(ins)[0].segment != Placements(ins)[2].segment
      && Outputs(keep, ins)[0].number == Outputs(keep, ins)[2].number
  {
    hide Outputs, Placements, TimelineOf;
    var ins := OvertakenRun();
    var first, second, early := ins[0], ins[1], ins[2];
    assert ins == [first] + [second] + [early];
    SteadySourceIsOneSegment([], 1, [first], [10]);
    assert [] + [first] == [first];
    TimelineAppend([first], second);
    TimelineAppend([first] + [second], early);
    OutputsArePlacements(keep, ins, 0);
    OutputsArePlacements(keep, ins, 2);
  }
}

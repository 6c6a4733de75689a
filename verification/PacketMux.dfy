/**
 Demultiplexing one UDP flow into DTLS, SRTP and SRTCP (packetMux and endpoint in
 internal/media/transport.go).

 `Mux.ReadLoop` is the loop itself on an open mux, with the consumers of the endpoints
 free to take datagrams at any time. `State` is the protocol including the closing of
 endpoints and of the mux.
 */
module PacketMux {
  import opened Words
  import opened Sequences

  const ENDPOINT_SIZE: nat := 128

  type Datagram = seq<U8>

  datatype Class = DtlsRecord | SrtpPacket | SrtcpPacket

  /** Lines 606 to 621 of the code: empty and unknown datagrams are skipped. */
  function Classify(d: Datagram): Option<Class> {
    if d == [] then None
    else if 20 <= d[0] <= 63 then Some(DtlsRecord)
    else if 128 <= d[0] <= 191 then
      if |d| > 1 && 192 <= d[1] <= 223 then Some(SrtcpPacket) else Some(SrtpPacket)
    else None
  }

  function Of(c: Class): Datagram -> bool { (d: Datagram) => Classify(d) == Some(c) }

  /**
   RTP version 2 with marker `m` and payload type `pt` reaches SRTP, except that a marked
   packet whose payload type lies in 64..95 is taken for RTCP.
   */
  lemma RtpGoesToSrtp(d: Datagram, m: bool, pt: int)
    requires |d| >= 2 && 128 <= d[0] <= 191
    requires 0 <= pt < 128 && d[1] == (if m then 128 else 0) + pt
    ensures Classify(d) == Some(SrtpPacket) <==> !(m && 64 <= pt <= 95)
    ensures Classify(d) == Some(SrtcpPacket) <==> m && 64 <= pt <= 95
  {
  }

  /** The three classes by the first two bytes; everything else, and an empty datagram, goes nowhere. */
  lemma ClassesByBytes(d: Datagram)
    ensures Classify(d) == Some(DtlsRecord) <==> d != [] && 20 <= d[0] <= 63
    ensures Classify(d) == Some(SrtcpPacket) <==> |d| >= 2 && 128 <= d[0] <= 191 && 192 <= d[1] <= 223
    ensures Classify(d) == Some(SrtpPacket) <==>
      d != [] && 128 <= d[0] <= 191 && (|d| == 1 || d[1] < 192 || d[1] > 223)
  {
  }

  // ------------------------------------------------------------ the open mux

  /** One endpoint: what waits in its channel and what its reader has taken, in order. */
  datatype Lane = Lane(queue: seq<Datagram>, consumed: seq<Datagram>, closed: bool, lost: bool) {
    function All(): seq<Datagram> { consumed + queue }

    function Take(): Lane
      requires queue != []
    {
      this.(consumed := consumed + [queue[0]], queue := queue[1..])
    }
  }

  class Mux {
    var dtls: Lane
    var srtp: Lane
    var srtcp: Lane

    constructor ()
      ensures forall c: Class :: At(c) == Lane([], [], false, false)
    {
      dtls, srtp, srtcp := Lane([], [], false, false), Lane([], [], false, false), Lane([], [], false, false);
    }

    function At(c: Class): Lane
      reads this
    {
      match c
      case DtlsRecord => dtls
      case SrtpPacket => srtp
      case SrtcpPacket => srtcp
    }

    method Set(c: Class, lane: Lane)
      modifies this
      ensures At(c) == lane
      ensures forall c': Class :: c' != c ==> At(c') == old(At(c'))
    {
      match c
      case DtlsRecord => dtls := lane;
      case SrtpPacket => srtp := lane;
      case SrtcpPacket => srtcp := lane;
    }

    /** Blocks, in the sense of waiting for the reader of `c`, until there is room. */
    method Send(c: Class, d: Datagram)
      modifies this
      ensures At(c).All() == old(At(c).All()) + [d]
      ensures |At(c).queue| <= ENDPOINT_SIZE
      ensures forall c': Class :: c' != c ==> At(c') == old(At(c'))
    {
      var lane := At(c);
      while |lane.queue| >= ENDPOINT_SIZE
        invariant lane.All() == old(At(c).All())
        decreases |lane.queue|
      {
        lane := lane.Take();
      }
      Set(c, lane.(queue := lane.queue + [d]));
    }

    /** Each endpoint receives exactly the datagrams of its class, in their order. */
    method ReadLoop(datagrams: seq<Datagram>)
      modifies this
      ensures forall c: Class :: At(c).All() == old(At(c).All()) + Filter(Of(c), datagrams)
    {
      var i := 0;
      while i < |datagrams|
        invariant 0 <= i <= |datagrams|
        invariant forall c: Class :: At(c).All() == old(At(c).All()) + Filter(Of(c), datagrams[..i])
      {
        var d := datagrams[i];
        assert datagrams[..i + 1] == datagrams[..i] + [d];
        forall c: Class
          ensures Filter(Of(c), datagrams[..i + 1]) == Filter(Of(c), datagrams[..i]) + if Of(c)(d) then [d] else []
        {
          FilterAppend(Of(c), datagrams[..i], d);
        }
        var target := Classify(d);
        if target.Some? {
          Send(target.value, d);
        }
        i := i + 1;
      }
      assert datagrams[..i] == datagrams;
    }
  }

  // --------------------------------------------- the protocol, closing included

  datatype Lanes = Lanes(dtls: Lane, srtp: Lane, srtcp: Lane) {
    function At(c: Class): Lane {
      match c
      case DtlsRecord => dtls
      case SrtpPacket => srtp
      case SrtcpPacket => srtcp
    }

    function Put(c: Class, lane: Lane): (r: Lanes)
      ensures r.At(c) == lane
      ensures forall c' :: c' != c ==> r.At(c') == At(c')
    {
      match c
      case DtlsRecord => this.(dtls := lane)
      case SrtpPacket => this.(srtp := lane)
      case SrtcpPacket => this.(srtcp := lane)
    }
  }

  datatype State = State(
    input: seq<Datagram>, hand: Option<Datagram>, lanes: Lanes, closed: bool, returned: bool)

  const EMPTY_LANE: Lane := Lane([], [], false, false)

  const INITIAL: State := State([], None, Lanes(EMPTY_LANE, EMPTY_LANE, EMPTY_LANE), false, false)

  /**
   `Read` is the loop receiving a datagram; `Send`, `Skip` and `Stop` are the three ways
   its select can proceed; `Fail` is a read error, on which the loop closes the mux.
   */
  datatype Action = Read(d: Datagram) | Send | Skip | Stop | Fail | Take(c: Class) | CloseEndpoint(c: Class) | CloseMux

  function Target(d: Datagram): Class {
    if Classify(d).Some? then Classify(d).value else SrtpPacket
  }

  predicate Enabled(s: State, a: Action) {
    match a
    case Read(_) => !s.returned && s.hand.None?
    case Fail => !s.returned && s.hand.None?
    case Send => s.hand.Some? && |s.lanes.At(Target(s.hand.value)).queue| < ENDPOINT_SIZE
    case Skip => s.hand.Some? && s.lanes.At(Target(s.hand.value)).closed
    case Stop => s.hand.Some? && s.closed
    case Take(c) => s.lanes.At(c).queue != []
    case _ => true
  }

  function WithLane(s: State, c: Class, lane: Lane): State { s.(lanes := s.lanes.Put(c, lane)) }

  function Step(s: State, a: Action): State
    requires Enabled(s, a)
  {
    match a
    case Read(d) => s.(input := s.input + [d], hand := if Classify(d).Some? then Some(d) else None)
    case Send =>
      var d := s.hand.value;
      var lane := s.lanes.At(Target(d));
      WithLane(s, Target(d), lane.(queue := lane.queue + [d])).(hand := None)
    case Skip =>
      var c := Target(s.hand.value);
      WithLane(s, c, s.lanes.At(c).(lost := true)).(hand := None)
    case Stop =>
      var c := Target(s.hand.value);
      WithLane(s, c, s.lanes.At(c).(lost := true)).(hand := None, returned := true)
    case Fail => s.(closed := true, returned := true)
    case Take(c) => WithLane(s, c, s.lanes.At(c).Take())
    case CloseEndpoint(c) => WithLane(s, c, s.lanes.At(c).(closed := true))
    case CloseMux => s.(closed := true)
  }

  function Exec(actions: seq<Action>): Option<State> {
    if actions == [] then Some(INITIAL)
    else
      var before, a := Exec(actions[..|actions| - 1]), actions[|actions| - 1];
      if before.Some? && Enabled(before.value, a) then Some(Step(before.value, a)) else None
  }

  ghost predicate Reachable(s: State) { exists actions :: Exec(actions) == Some(s) }

  /** The datagram in hand, if it belongs to `c`. */
  function InHand(s: State, c: Class): seq<Datagram> {
    if s.hand.Some? && Classify(s.hand.value) == Some(c) then [s.hand.value] else []
  }

  /** Everything that reached endpoint `c`, and then what is about to. */
  function Arrived(s: State, c: Class): seq<Datagram> {
    s.lanes.At(c).All() + InHand(s, c)
  }

  ghost predicate LaneInvariant(s: State, c: Class) {
    && |s.lanes.At(c).queue| <= ENDPOINT_SIZE
    && Subsequence(Arrived(s, c), Filter(Of(c), s.input))
    && (!s.lanes.At(c).lost ==> Arrived(s, c) == Filter(Of(c), s.input))
    && (s.lanes.At(c).lost ==> s.lanes.At(c).closed || s.closed)
  }

  ghost predicate Inv(s: State) {
    && (s.hand.Some? ==> Classify(s.hand.value).Some?)
    && forall c: Class :: LaneInvariant(s, c)
  }

  lemma ReadKeepsLane(s: State, d: Datagram, c: Class)
    requires LaneInvariant(s, c) && Enabled(s, Read(d))
    ensures LaneInvariant(Step(s, Read(d)), c)
  {
    hide Subsequence, Filter, Classify;
    var t := Step(s, Read(d));
    FilterAppend(Of(c), s.input, d);
    SubsequenceAppend(Arrived(s, c), Filter(Of(c), s.input), d);
    assert Arrived(t, c) == Arrived(s, c) + if Of(c)(d) then [d] else [];
  }

  lemma DropLast<T>(sub: seq<T>, x: T, s: seq<T>)
    requires Subsequence(sub + [x], s)
    ensures Subsequence(sub, s)
  {
    var at: seq<nat> :| Selects(at, sub + [x], s);
    assert Selects(at[..|sub|], sub, s);
  }

  lemma LoseKeepsLane(s: State, a: Action, c: Class)
    requires Inv(s) && Enabled(s, a) && (a.Skip? || a.Stop?)
    ensures LaneInvariant(Step(s, a), c)
  {
    assert LaneInvariant(s, c);
    hide Inv, Subsequence, Filter, Classify;
    var d := s.hand.value;
    if c == Target(d) {
      assert Arrived(s, c) == s.lanes.At(c).All() + [d];
      DropLast(s.lanes.At(c).All(), d, Filter(Of(c), s.input));
      assert Arrived(Step(s, a), c) == s.lanes.At(c).All();
    } else {
      assert Arrived(Step(s, a), c) == Arrived(s, c);
    }
  }

  lemma SameArrivals(s: State, t: State, c: Class)
    requires LaneInvariant(s, c) && t.input == s.input && Arrived(t, c) == Arrived(s, c)
    requires |t.lanes.At(c).queue| <= ENDPOINT_SIZE && t.lanes.At(c).lost == s.lanes.At(c).lost
    requires s.closed ==> t.closed
    requires s.lanes.At(c).closed ==> t.lanes.At(c).closed
    ensures LaneInvariant(t, c)
  {
    hide Filter, Subsequence, Arrived;
  }

  /** Sending moves the datagram from the hand to the end of its queue. */
  lemma SendMoves(s: State, c: Class)
    requires Enabled(s, Send) && Classify(s.hand.value).Some?
    ensures Arrived(Step(s, Send), c) == Arrived(s, c)
  {
    hide Classify;
    var d, lane := s.hand.value, s.lanes.At(c);
    if c == Target(d) {
      assert Arrived(Step(s, Send), c) == (lane.consumed + (lane.queue + [d])) + [];
    }
  }

  lemma SendKeepsLane(s: State, c: Class)
    requires Inv(s) && Enabled(s, Send)
    ensures LaneInvariant(Step(s, Send), c)
  {
    assert LaneInvariant(s, c);
    LaneBounded(s, c);
    hide LaneInvariant, Classify, Arrived;
    SendMoves(s, c);
    SameArrivals(s, Step(s, Send), c);
  }

  lemma LaneBounded(s: State, c: Class)
    requires LaneInvariant(s, c)
    ensures |s.lanes.At(c).queue| <= ENDPOINT_SIZE
  {
  }

  lemma TakeKeepsLane(s: State, from: Class, c: Class)
    requires Inv(s) && Enabled(s, Take(from))
    ensures LaneInvariant(Step(s, Take(from)), c)
  {
    hide LaneInvariant, Classify;
    var t, lane := Step(s, Take(from)), s.lanes.At(from);
    assert lane.queue == [lane.queue[0]] + lane.queue[1..];
    assert lane.Take().All() == lane.All();
    LaneBounded(s, c);
    SameArrivals(s, t, c);
  }

  lemma CloseKeepsLane(s: State, a: Action, c: Class)
    requires Inv(s) && Enabled(s, a) && (a.Fail? || a.CloseEndpoint? || a.CloseMux?)
    ensures LaneInvariant(Step(s, a), c)
  {
    hide LaneInvariant;
    LaneBounded(s, c);
    SameArrivals(s, Step(s, a), c);
  }

  lemma StepKeeps(s: State, a: Action)
    requires Inv(s) && Enabled(s, a)
    ensures Inv(Step(s, a))
  {
    forall c: Class ensures LaneInvariant(Step(s, a), c) {
      hide LaneInvariant, Step;
      if a.Read? {
        ReadKeepsLane(s, a.d, c);
      } else if a.Skip? || a.Stop? {
        LoseKeepsLane(s, a, c);
      } else if a.Send? {
        SendKeepsLane(s, c);
      } else if a.Take? {
        TakeKeepsLane(s, a.c, c);
      } else {
        CloseKeepsLane(s, a, c);
      }
    }
    hide LaneInvariant;
  }

  lemma {:induction false} ExecKeeps(actions: seq<Action>)
    ensures Exec(actions).Some? ==> Inv(Exec(actions).value)
  {
    if actions == [] {
      forall c: Class ensures LaneInvariant(INITIAL, c) {
        assert Selects([], Arrived(INITIAL, c), []);
      }
    } else {
      hide Inv, Enabled, Step;
      ExecKeeps(actions[..|actions| - 1]);
      var before, a := Exec(actions[..|actions| - 1]), actions[|actions| - 1];
      if before.Some? && Enabled(before.value, a) {
        StepKeeps(before.value, a);
      }
    }
  }

  /**
   While the mux and the endpoint are open, what the endpoint handed out, what waits in it
   and what is in hand are together exactly the datagrams of its class, in order.
   */
  lemma OpenEndpointGetsEverything(s: State, c: Class)
    requires Reachable(s) && !s.closed && !s.lanes.At(c).closed
    ensures s.lanes.At(c).consumed + s.lanes.At(c).queue + InHand(s, c) == Filter(Of(c), s.input)
    ensures |s.lanes.At(c).queue| <= 128
  {
    var actions :| Exec(actions) == Some(s);
    ExecKeeps(actions);
    assert LaneInvariant(s, c);
  }

  /** Whatever was closed, nothing is reordered, duplicated or delivered to the wrong class. */
  lemma EndpointsStayInOrder(s: State, c: Class)
    requires Reachable(s)
    ensures Subsequence(s.lanes.At(c).consumed + s.lanes.At(c).queue + InHand(s, c), Filter(Of(c), s.input))
  {
    var actions :| Exec(actions) == Some(s);
    ExecKeeps(actions);
    assert LaneInvariant(s, c);
  }

  lemma {:induction false} FilterHolds(c: Class, input: seq<Datagram>)
    ensures forall d :: d in Filter(Of(c), input) <==> d in input && Classify(d) == Some(c)
  {
    if input != [] {
      var init, last := input[..|input| - 1], input[|input| - 1];
      FilterHolds(c, init);
      assert input == init + [last];
      hide Classify;
    }
  }

  /**
   What an endpoint has handed out or holds was received and carries the bytes of its class, and
   while mux and endpoint are open whatever was received with those bytes is there or in hand.
   */
  lemma EndpointsHoldTheirBytes(s: State, c: Class, d: Datagram)
    requires Reachable(s)
    ensures
      var lane := s.lanes.At(c);
      var fits := match c
        case DtlsRecord => d != [] && 20 <= d[0] <= 63
        case SrtcpPacket => |d| >= 2 && 128 <= d[0] <= 191 && 192 <= d[1] <= 223
        case SrtpPacket => d != [] && 128 <= d[0] <= 191 && (|d| == 1 || d[1] < 192 || d[1] > 223);
      && (d in lane.consumed + lane.queue ==> d in s.input && fits)
      && (!s.closed && !lane.closed && d in s.input && fits ==> d in lane.consumed + lane.queue || s.hand == Some(d))
  {
    ClassesByBytes(d);
    FilterHolds(c, s.input);
    hide Reachable, Classify, Filter;
    EndpointsStayInOrder(s, c);
    var lane := s.lanes.At(c);
    var all := lane.consumed + lane.queue + InHand(s, c);
    if d in lane.consumed + lane.queue {
      SubsequenceIn(all, Filter(Of(c), s.input), d);
    }
    if !s.closed && !lane.closed {
      OpenEndpointGetsEverything(s, c);
    }
  }

  lemma SubsequenceIn<T>(sub: seq<T>, s: seq<T>, x: T)
    requires Subsequence(sub, s) && x in sub
    ensures x in s
  {
    var at: seq<nat> :| Selects(at, sub, s);
    var i :| 0 <= i < |sub| && sub[i] == x;
    assert s[at[i]] == x;
  }
}

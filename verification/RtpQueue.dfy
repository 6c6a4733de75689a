/**
 The bounded drop-oldest queue between the SRTP stream readers and the single consumer
 (readStream and ReadRTP in internal/media/transport.go).

 `Inbox.ReadStream` is the reader loop itself, with the consumer free to take packets
 between its channel attempts. `State` is the protocol for any number of readers, where
 every attempt on the channel is one atomic step.
 */
module RtpQueue {
  import opened Words
  import opened Sequences

  const QUEUE_SIZE: nat := 256

  type Bytes = seq<U8>

  /** The `index`-th valid packet of stream `stream`. */
  datatype Packet = Packet(stream: nat, index: nat, data: Bytes)

  // --------------------------------------------------------- one stream reader

  /** The newest accepted packet is the newest kept one. */
  ghost predicate NewestKept(accepted: seq<Bytes>, kept: seq<Bytes>) {
    accepted != [] ==> kept != [] && kept[|kept| - 1] == accepted[|accepted| - 1]
  }

  class Inbox {
    var queue: seq<Bytes>
    var rxDropped: U64
    ghost var accepted: seq<Bytes>
    ghost var delivered: seq<Bytes>
    ghost var dropped: nat

    constructor ()
      ensures Valid() && queue == [] && accepted == [] && delivered == []
    {
      queue, rxDropped, accepted, delivered, dropped := [], 0, [], [], 0;
      new;
      assert Selects([], delivered + queue, accepted);
    }

    ghost predicate Valid()
      reads this
    {
      && |queue| <= QUEUE_SIZE
      && rxDropped == Wrap64(dropped)
      && |accepted| == |delivered| + |queue| + dropped
      && Subsequence(delivered + queue, accepted)
    }

    /** The consumer takes any number of packets, in order, at any time. */
    method Consume()
      requires |queue| <= QUEUE_SIZE
      modifies this`queue, this`delivered
      ensures delivered + queue == old(delivered + queue)
      ensures |queue| <= |old(queue)|
    {
      var n :| 0 <= n <= |queue|;
      delivered := delivered + queue[..n];
      queue := queue[n..];
    }

    method TrySend(p: Bytes) returns (ok: bool)
      modifies this`queue
      ensures ok == (|old(queue)| < QUEUE_SIZE)
      ensures queue == if ok then old(queue) + [p] else old(queue)
    {
      ok := |queue| < QUEUE_SIZE;
      if ok {
        queue := queue + [p];
      }
    }

    /** Enqueues one packet, evicting the oldest one if the queue is full. */
    method Enqueue(p: Bytes)
      requires Valid()
      modifies this
      ensures Valid()
      ensures accepted == old(accepted) + [p]
      ensures delivered + queue != [] && (delivered + queue)[|delivered + queue| - 1] == p
      ensures dropped <= old(dropped) + 1
      ensures |old(queue)| < 256 ==> dropped == old(dropped) && delivered + queue == old(delivered + queue) + [p]
    {
      ghost var before := accepted;
      accepted := accepted + [p];
      SubsequenceAppend(delivered + queue, before, p);
      var ok := TrySend(p);
      if ok {
        assert delivered + queue == old(delivered + queue) + [p];
        return;
      }
      Consume();
      if |queue| > 0 {
        EvictionSelects(delivered, queue, before);
        queue := queue[1..];
        rxDropped := Wrap64(rxDropped + 1);
        Sum64(dropped, 1);
        dropped := dropped + 1;
      }
      Consume();
      SubsequenceAppend(delivered + queue, before, p);
      ghost var kept := delivered + queue;
      ok := TrySend(p);
      // With one reader nothing refills the queue, so the packet is never dropped here.
      assert ok && delivered + queue == kept + [p];
    }

    /** The loop over one stream's reads; `None` is a datagram that is not valid RTP. */
    method ReadStream(frames: seq<Option<Bytes>>)
      requires Valid() && NewestKept(accepted, delivered + queue)
      modifies this
      ensures Valid() && NewestKept(accepted, delivered + queue)
      ensures accepted == old(accepted) + ValidFrames(frames)
    {
      hide Subsequence, Wrap64;
      var i := 0;
      while i < |frames|
        invariant 0 <= i <= |frames| && Valid() && NewestKept(accepted, delivered + queue)
        invariant accepted == old(accepted) + ValidFrames(frames[..i])
      {
        assert frames[..i + 1][..i] == frames[..i];
        if frames[i].Some? {
          Enqueue(frames[i].value);
        }
        Consume();
        i := i + 1;
      }
      assert frames[..i] == frames;
    }
  }

  function ValidFrames(frames: seq<Option<Bytes>>): seq<Bytes> {
    if frames == [] then []
    else
      var init, last := frames[..|frames| - 1], frames[|frames| - 1];
      if last.Some? then ValidFrames(init) + [last.value] else ValidFrames(init)
  }

  lemma EvictionSelects(delivered: seq<Bytes>, queue: seq<Bytes>, accepted: seq<Bytes>)
    requires queue != [] && Subsequence(delivered + queue, accepted)
    ensures Subsequence(delivered + queue[1..], accepted)
  {
    var at: seq<nat> :| Selects(at, delivered + queue, accepted);
    var n := |delivered|;
    assert Selects(at[..n] + at[n + 1..], delivered + queue[1..], accepted);
  }

  // ------------------------------------------------------ any number of readers

  /** Where a reader is between its non-blocking attempts on the channel. */
  datatype ReaderPc = Reading | Offering | Evicting | Retrying

  /** `read` is every valid packet of the stream; while not `Reading` the last one is in hand. */
  datatype Reader = Reader(read: seq<Bytes>, pc: ReaderPc)

  datatype State = State(
    queue: seq<Packet>, delivered: seq<Packet>, dropped: seq<Packet>, rxDropped: U64,
    readers: map<nat, Reader>, accepted: seq<Packet>)

  const INITIAL: State := State([], [], [], 0, map[], [])

  datatype Action = Spawn(r: nat) | Accept(r: nat, data: Bytes) | Attempt(r: nat) | Consume

  predicate Enabled(s: State, a: Action) {
    match a
    case Spawn(r) => r !in s.readers
    case Accept(r, _) => r in s.readers && s.readers[r].pc == Reading
    case Attempt(r) => r in s.readers && s.readers[r].pc != Reading && s.readers[r].read != []
    case Consume => s.queue != []
  }

  function InHand(s: State, r: nat): Packet
    requires r in s.readers && s.readers[r].read != []
  {
    var n := |s.readers[r].read| - 1;
    Packet(r, n, s.readers[r].read[n])
  }

  function Moved(s: State, r: nat, pc: ReaderPc): State
    requires r in s.readers
  {
    s.(readers := s.readers[r := s.readers[r].(pc := pc)])
  }

  function Dropping(s: State, p: Packet): State {
    s.(dropped := s.dropped + [p], rxDropped := Wrap64(s.rxDropped + 1))
  }

  function Attempted(s: State, r: nat): State
    requires Enabled(s, Attempt(r))
  {
    var p := InHand(s, r);
    match s.readers[r].pc
    case Offering =>
      if |s.queue| < QUEUE_SIZE then Moved(s, r, Reading).(queue := s.queue + [p]) else Moved(s, r, Evicting)
    case Evicting =>
      if s.queue != [] then Moved(Dropping(s, s.queue[0]), r, Retrying).(queue := s.queue[1..])
      else Moved(s, r, Retrying)
    case Retrying =>
      if |s.queue| < QUEUE_SIZE then Moved(s, r, Reading).(queue := s.queue + [p])
      else Moved(Dropping(s, p), r, Reading)
  }

  function Step(s: State, a: Action): State
    requires Enabled(s, a)
  {
    match a
    case Spawn(r) => s.(readers := s.readers[r := Reader([], Reading)])
    case Accept(r, data) =>
      var reader := s.readers[r];
      s.(readers := s.readers[r := Reader(reader.read + [data], Offering)],
         accepted := s.accepted + [Packet(r, |reader.read|, data)])
    case Attempt(r) => Attempted(s, r)
    case Consume => s.(delivered := s.delivered + [s.queue[0]], queue := s.queue[1..])
  }

  function Exec(actions: seq<Action>): Option<State> {
    if actions == [] then Some(INITIAL)
    else
      var before, a := Exec(actions[..|actions| - 1]), actions[|actions| - 1];
      if before.Some? && Enabled(before.value, a) then Some(Step(before.value, a)) else None
  }

  ghost predicate Reachable(s: State) { exists actions :: Exec(actions) == Some(s) }

  // --------------------------------------------------------------- invariants

  predicate Busy(s: State, r: nat) {
    r in s.readers && s.readers[r].pc != Reading && s.readers[r].read != []
  }

  /** The packets that readers hold between two attempts. */
  function Held(s: State): set<Packet> {
    set r | r in s.readers && Busy(s, r) :: InHand(s, r)
  }

  ghost predicate Conserved(s: State) {
    multiset(s.accepted) == multiset(s.delivered) + multiset(s.queue) + multiset(s.dropped) + multiset(Held(s))
  }

  /** `p` is a packet its stream really read, and no newer than the one in hand. */
  predicate Genuine(s: State, p: Packet) {
    && p.stream in s.readers
    && p.index < |s.readers[p.stream].read|
    && s.readers[p.stream].read[p.index] == p.data
    && (Busy(s, p.stream) ==> p.index < |s.readers[p.stream].read| - 1)
  }

  ghost predicate Ordered(ps: seq<Packet>) {
    forall i, j :: 0 <= i < j < |ps| && ps[i].stream == ps[j].stream ==> ps[i].index < ps[j].index
  }

  /** What was delivered, followed by what is queued. */
  function Trail(s: State): seq<Packet> { s.delivered + s.queue }

  ghost predicate AllGenuine(s: State, ps: seq<Packet>) {
    forall i :: 0 <= i < |ps| ==> Genuine(s, ps[i])
  }

  ghost predicate Inv(s: State) {
    && |s.queue| <= QUEUE_SIZE
    && s.rxDropped == Wrap64(|s.dropped|)
    && (forall r :: r in s.readers && s.readers[r].pc != Reading ==> s.readers[r].read != [])
    && AllGenuine(s, Trail(s))
    && Ordered(Trail(s))
    && Conserved(s)
  }

  // ------------------------------------------------------- every interleaving

  lemma HeldAfterAccept(s: State, r: nat, data: Bytes)
    requires Enabled(s, Accept(r, data))
    ensures
      var p := Packet(r, |s.readers[r].read|, data);
      p !in Held(s) && Held(Step(s, Accept(r, data))) == Held(s) + {p}
  {
    var t, p := Step(s, Accept(r, data)), Packet(r, |s.readers[r].read|, data);
    assert Busy(t, r) && InHand(t, r) == p;
    forall q ensures q in Held(t) <==> q in Held(s) || q == p {
      if q in Held(s) {
        var r' :| r' in s.readers && Busy(s, r') && InHand(s, r') == q;
        assert r' != r && Busy(t, r') && InHand(t, r') == q;
      }
    }
  }

  lemma HeldAfterMove(s: State, t: State, r: nat)
    requires Busy(s, r) && r in t.readers && t.readers == Moved(s, r, t.readers[r].pc).readers
    ensures InHand(s, r) in Held(s)
    ensures t.readers[r].pc != Reading ==> Held(t) == Held(s)
    ensures t.readers[r].pc == Reading ==> Held(t) == Held(s) - {InHand(s, r)}
  {
    forall q: Packet | q.stream != r ensures q in Held(t) <==> q in Held(s) {
      if q in Held(s) {
        var r' :| r' in s.readers && Busy(s, r') && InHand(s, r') == q;
        assert Busy(t, r') && InHand(t, r') == q;
      }
      if q in Held(t) {
        var r' :| r' in t.readers && Busy(t, r') && InHand(t, r') == q;
        assert Busy(s, r') && InHand(s, r') == q;
      }
    }
  }

  lemma HeldAfterSpawn(s: State, r: nat)
    requires Enabled(s, Spawn(r))
    ensures Held(Step(s, Spawn(r))) == Held(s)
  {
    var t := Step(s, Spawn(r));
    forall q ensures q in Held(t) <==> q in Held(s) {
      if q in Held(s) {
        var r' :| r' in s.readers && Busy(s, r') && InHand(s, r') == q;
        assert Busy(t, r') && InHand(t, r') == q;
      }
      if q in Held(t) {
        var r' :| r' in t.readers && Busy(t, r') && InHand(t, r') == q;
        assert Busy(s, r') && InHand(s, r') == q;
      }
    }
  }

  lemma RemoveOne(h: set<Packet>, p: Packet)
    requires p in h
    ensures multiset(h) == multiset(h - {p}) + multiset{p}
  {
    assert h == (h - {p}) + {p};
  }

  lemma TakeHead(q: seq<Packet>)
    requires q != []
    ensures multiset(q) == multiset{q[0]} + multiset(q[1..])
  {
    assert q == [q[0]] + q[1..];
  }

  lemma AttemptConserves(s: State, r: nat)
    requires Conserved(s) && Enabled(s, Attempt(r))
    ensures Conserved(Attempted(s, r))
  {
    hide Held, Wrap64;
    var t, p := Attempted(s, r), InHand(s, r);
    HeldAfterMove(s, t, r);
    hide Busy;
    if t.readers[r].pc == Reading {
      RemoveOne(Held(s), p);
    } else if s.readers[r].pc == Evicting && s.queue != [] {
      TakeHead(s.queue);
    }
  }

  lemma AcceptConserves(s: State, r: nat, data: Bytes)
    requires Conserved(s) && Enabled(s, Accept(r, data))
    ensures Conserved(Step(s, Accept(r, data)))
  {
    HeldAfterAccept(s, r, data);
    hide Held;
    var t, p := Step(s, Accept(r, data)), Packet(r, |s.readers[r].read|, data);
    RemoveOne(Held(t), p);
    assert Held(t) - {p} == Held(s);
  }

  lemma ConsumeConserves(s: State)
    requires Conserved(s) && s.queue != []
    ensures Conserved(Step(s, Consume))
  {
    assert Held(Step(s, Consume)) == Held(s);
    hide Held;
    TakeHead(s.queue);
  }

  lemma StepConserves(s: State, a: Action)
    requires Conserved(s) && Enabled(s, a)
    ensures Conserved(Step(s, a))
  {
    match a
    case Spawn(r) => HeldAfterSpawn(s, r);
    case Accept(r, data) => AcceptConserves(s, r, data);
    case Attempt(r) => AttemptConserves(s, r);
    case Consume => ConsumeConserves(s);
  }

  lemma GenuineStays(s: State, a: Action, p: Packet)
    requires Genuine(s, p) && Enabled(s, a)
    ensures Genuine(Step(s, a), p)
  {
    hide Held;
  }

  lemma PushKeepsTrail(s: State, ps: seq<Packet>, r: nat)
    requires AllGenuine(s, ps) && Ordered(ps) && Busy(s, r)
    ensures AllGenuine(Moved(s, r, Reading), ps + [InHand(s, r)])
    ensures Ordered(ps + [InHand(s, r)])
  {
    var t, p := Moved(s, r, Reading), InHand(s, r);
    forall i | 0 <= i < |ps| ensures Genuine(t, ps[i]) {
      assert Genuine(s, ps[i]);
    }
    forall i | 0 <= i < |ps| && ps[i].stream == r ensures ps[i].index < p.index {
      assert Genuine(s, ps[i]);
    }
  }

  lemma EvictKeepsTrail(s: State, d: seq<Packet>, q: seq<Packet>)
    requires q != [] && AllGenuine(s, d + q) && Ordered(d + q)
    ensures AllGenuine(s, d + q[1..]) && Ordered(d + q[1..])
  {
    var n := |d|;
    assert forall i :: 0 <= i < |d + q[1..]| ==> (d + q[1..])[i] == (d + q)[if i < n then i else i + 1];
  }

  lemma AllGenuineStays(s: State, a: Action, ps: seq<Packet>)
    requires AllGenuine(s, ps) && Enabled(s, a)
    ensures AllGenuine(Step(s, a), ps)
  {
    hide Genuine, Step;
    forall i | 0 <= i < |ps| ensures Genuine(Step(s, a), ps[i]) {
      assert Genuine(s, ps[i]);
      GenuineStays(s, a, ps[i]);
    }
  }

  lemma GenuineIgnoresQueue(s: State, t: State, ps: seq<Packet>)
    requires AllGenuine(s, ps) && t.readers == s.readers
    ensures AllGenuine(t, ps)
  {
    forall i | 0 <= i < |ps| ensures Genuine(t, ps[i]) {
      assert Genuine(s, ps[i]);
    }
  }

  lemma AttemptKeepsTrail(s: State, r: nat)
    requires Inv(s) && Enabled(s, Attempt(r))
    ensures AllGenuine(Attempted(s, r), Trail(Attempted(s, r))) && Ordered(Trail(Attempted(s, r)))
  {
    var t, p, pc := Attempted(s, r), InHand(s, r), s.readers[r].pc;
    if pc == Evicting && s.queue != [] {
      EvictKeepsTrail(s, s.delivered, s.queue);
      AllGenuineStays(s, Attempt(r), Trail(t));
    } else if t.queue == s.queue + [p] {
      PushKeepsTrail(s, Trail(s), r);
      assert Trail(t) == Trail(s) + [p];
      GenuineIgnoresQueue(Moved(s, r, Reading), t, Trail(t));
    } else {
      assert Trail(t) == Trail(s);
      AllGenuineStays(s, Attempt(r), Trail(t));
    }
  }

  lemma StepKeepsTrail(s: State, a: Action)
    requires Inv(s) && Enabled(s, a)
    ensures AllGenuine(Step(s, a), Trail(Step(s, a))) && Ordered(Trail(Step(s, a)))
  {
    hide Genuine, Conserved, Ordered;
    if a.Attempt? {
      AttemptKeepsTrail(s, a.r);
    } else {
      assert Trail(Step(s, a)) == Trail(s);
      AllGenuineStays(s, a, Trail(s));
    }
  }

  lemma StepKeepsBounds(s: State, a: Action)
    requires |s.queue| <= QUEUE_SIZE && s.rxDropped == Wrap64(|s.dropped|) && Enabled(s, a)
    requires forall r :: r in s.readers && s.readers[r].pc != Reading ==> s.readers[r].read != []
    ensures
      var t := Step(s, a);
      && |t.queue| <= QUEUE_SIZE && t.rxDropped == Wrap64(|t.dropped|)
      && forall r :: r in t.readers && t.readers[r].pc != Reading ==> t.readers[r].read != []
  {
    hide Wrap64;
    Sum64(|s.dropped|, 1);
  }

  lemma StepKeeps(s: State, a: Action)
    requires Inv(s) && Enabled(s, a)
    ensures Inv(Step(s, a))
  {
    hide Conserved, AllGenuine, Ordered, Step;
    StepKeepsTrail(s, a);
    StepConserves(s, a);
    StepKeepsBounds(s, a);
  }

  lemma {:induction false} ExecKeeps(actions: seq<Action>)
    ensures Exec(actions).Some? ==> Inv(Exec(actions).value)
  {
    if actions == [] {
      assert Held(INITIAL) == {};
    } else {
      hide Inv, Enabled, Step;
      ExecKeeps(actions[..|actions| - 1]);
      var before, a := Exec(actions[..|actions| - 1]), actions[|actions| - 1];
      if before.Some? && Enabled(before.value, a) {
        StepKeeps(before.value, a);
      }
    }
  }

  lemma ReachableKeeps(s: State)
    requires Reachable(s)
    ensures Inv(s)
  {
    var actions :| Exec(actions) == Some(s);
    ExecKeeps(actions);
  }

  /**
   Nothing is lost or invented: every accepted packet is delivered, queued, dropped and
   counted, or in the hands of its reader, and the queue is bounded.
   */
  lemma PacketsAreConserved(s: State)
    requires Reachable(s)
    ensures |s.queue| <= 256
    ensures s.rxDropped == Wrap64(|s.dropped|)
    ensures multiset(s.accepted) == multiset(s.delivered) + multiset(s.queue) + multiset(s.dropped) + multiset(Held(s))
    ensures |s.accepted| == |s.delivered| + |s.queue| + |s.dropped| + |Held(s)|
  {
    ReachableKeeps(s);
    var places := multiset(s.delivered) + multiset(s.queue) + multiset(s.dropped) + multiset(Held(s));
    assert |multiset(s.accepted)| == |places|;
  }

  function OfStream(r: nat): Packet -> bool { (p: Packet) => p.stream == r }

  function Payloads(ps: seq<Packet>): seq<Bytes> {
    seq(|ps|, i requires 0 <= i < |ps| => ps[i].data)
  }

  lemma {:induction false} FilterKeepsOrder(s: State, ps: seq<Packet>, r: nat)
    requires AllGenuine(s, ps) && Ordered(ps)
    ensures
      var fs := Filter(OfStream(r), ps);
      && AllGenuine(s, fs) && Ordered(fs)
      && (forall i :: 0 <= i < |fs| ==> fs[i].stream == r && fs[i] in ps)
  {
    if ps != [] {
      hide Genuine;
      var init, last := ps[..|ps| - 1], ps[|ps| - 1];
      FilterKeepsOrder(s, init, r);
      var fs := Filter(OfStream(r), init);
      assert Genuine(s, last);
      if last.stream == r {
        forall i | 0 <= i < |fs| ensures fs[i].index < last.index {
          var j :| 0 <= j < |init| && init[j] == fs[i];
          assert ps[j] == fs[i];
        }
        assert Filter(OfStream(r), ps) == fs + [last];
      }
    }
  }

  /** The consumer receives each stream in order: a subsequence of what the stream read. */
  lemma StreamsStayInOrder(s: State, r: nat)
    requires Reachable(s) && r in s.readers
    ensures Subsequence(Payloads(Filter(OfStream(r), s.delivered)), s.readers[r].read)
  {
    ReachableKeeps(s);
    assert s.delivered == Trail(s)[..|s.delivered|];
    assert AllGenuine(s, s.delivered) && Ordered(s.delivered);
    FilterKeepsOrder(s, s.delivered, r);
    var fs := Filter(OfStream(r), s.delivered);
    var at := seq(|fs|, i requires 0 <= i < |fs| => fs[i].index);
    forall i | 0 <= i < |fs| ensures at[i] < |s.readers[r].read| && s.readers[r].read[at[i]] == Payloads(fs)[i] {
      assert Genuine(s, fs[i]);
    }
    assert Selects(at, Payloads(fs), s.readers[r].read);
  }

  // ------------------------------------------------------------ a single reader

  /** Only reader `r` exists; each dropped packet is older than every kept one. */
  ghost predicate DropsOldest(s: State, r: nat) {
    && s.readers.Keys <= {r}
    && (Busy(s, r) && s.readers[r].pc == Retrying ==> |s.queue| < QUEUE_SIZE)
    && (forall i :: 0 <= i < |s.dropped| ==> OlderThanKept(s, r, s.dropped[i]))
  }

  /** `d` is older than everything queued and than the newest packet its stream read. */
  ghost predicate OlderThanKept(s: State, r: nat, d: Packet) {
    && r in s.readers
    && d.index < |s.readers[r].read| - 1
    && (forall j :: 0 <= j < |s.queue| ==> d.index < s.queue[j].index)
  }

  lemma AttemptDropsOldest(s: State, r: nat)
    requires Inv(s) && DropsOldest(s, r) && Enabled(s, Attempt(r))
    ensures DropsOldest(Attempted(s, r), r)
  {
    var t, p := Attempted(s, r), InHand(s, r);
    forall i | 0 <= i < |t.dropped| ensures OlderThanKept(t, r, t.dropped[i]) {
      if i < |s.dropped| {
        assert OlderThanKept(s, r, s.dropped[i]);
      } else {
        EvictedIsOldest(s, r);
      }
    }
  }

  lemma EvictedIsOldest(s: State, r: nat)
    requires Inv(s) && s.readers.Keys == {r} && Busy(s, r) && s.queue != []
    ensures s.queue[0].index < |s.readers[r].read| - 1
    ensures forall j :: 0 < j < |s.queue| ==> s.queue[0].index < s.queue[j].index
  {
    var n := |s.delivered|;
    assert forall j :: 0 <= j < |s.queue| ==> s.queue[j] == Trail(s)[n + j];
    assert Genuine(s, Trail(s)[n]);
  }

  lemma StepDropsOldest(s: State, a: Action, r: nat)
    requires Inv(s) && DropsOldest(s, r) && Enabled(s, a)
    requires Step(s, a).readers.Keys <= {r}
    ensures DropsOldest(Step(s, a), r)
  {
    if a.Attempt? {
      AttemptDropsOldest(s, r);
    } else {
      var t := Step(s, a);
      forall i | 0 <= i < |t.dropped| ensures OlderThanKept(t, r, t.dropped[i]) {
        assert OlderThanKept(s, r, s.dropped[i]);
      }
    }
  }

  lemma {:induction false} SoloRunDropsOldest(actions: seq<Action>, r: nat)
    requires Exec(actions).Some? && Exec(actions).value.readers.Keys <= {r}
    ensures DropsOldest(Exec(actions).value, r)
  {
    if actions != [] {
      var init, a := actions[..|actions| - 1], actions[|actions| - 1];
      var s := Exec(init).value;
      assert s.readers.Keys <= Step(s, a).readers.Keys;
      hide DropsOldest, Inv, Step;
      SoloRunDropsOldest(init, r);
      ExecKeeps(init);
      StepDropsOldest(s, a, r);
    }
  }

  /**
   With one reader, the newest packet is never dropped and every dropped packet is older
   than all that are still queued or in hand.
   */
  lemma OneReaderDropsOnlyTheOldest(s: State, r: nat)
    requires Reachable(s) && s.readers.Keys == {r}
    ensures forall d :: d in s.dropped ==>
      && d.index < |s.readers[r].read| - 1
      && (forall q :: q in s.queue ==> d.index < q.index)
  {
    var actions :| Exec(actions) == Some(s);
    SoloRunDropsOldest(actions, r);
    forall d | d in s.dropped
      ensures d.index < |s.readers[r].read| - 1 && (forall q :: q in s.queue ==> d.index < q.index)
    {
      var i :| 0 <= i < |s.dropped| && s.dropped[i] == d;
      assert OlderThanKept(s, r, s.dropped[i]);
    }
  }

  // ------------------------------------------- two readers can lose the newest

  lemma ExecAppend(actions: seq<Action>, a: Action)
    requires Exec(actions).Some? && Enabled(Exec(actions).value, a)
    ensures Exec(actions + [a]) == Some(Step(Exec(actions).value, a))
  {
    assert (actions + [a])[..|actions|] == actions;
  }

  /** Since it read the packet in hand, reader `r` has offered it to a queue that held 256 packets. */
  predicate OfferedToFull(actions: seq<Action>, r: nat) {
    actions != []
    && var init, a := actions[..|actions| - 1], actions[|actions| - 1];
       || (Exec(init).Some? && MeetsFull(Exec(init).value, a, r))
       || (!(a.Accept? && a.r == r) && OfferedToFull(init, r))
  }

  predicate MeetsFull(s: State, a: Action, r: nat) {
    a == Attempt(r) && r in s.readers && s.readers[r].pc == Offering && |s.queue| == 256
  }

  predicate MayDrop(s: State, r: nat) {
    r in s.readers && (s.readers[r].pc == Evicting || s.readers[r].pc == Retrying)
  }

  lemma StepMayDrop(s: State, a: Action, r: nat)
    requires Enabled(s, a) && |s.queue| <= 256 && MayDrop(Step(s, a), r)
    ensures MeetsFull(s, a, r) || (MayDrop(s, r) && !(a.Accept? && a.r == r))
  {
  }

  lemma {:induction false} EvictorsMetFull(actions: seq<Action>, r: nat)
    requires Exec(actions).Some? && MayDrop(Exec(actions).value, r)
    ensures OfferedToFull(actions, r)
  {
    if actions != [] {
      var init, a := actions[..|actions| - 1], actions[|actions| - 1];
      ExecKeeps(init);
      hide Step, Enabled, MayDrop, MeetsFull, AllGenuine, Ordered, Conserved;
      StepMayDrop(Exec(init).value, a, r);
      if MayDrop(Exec(init).value, r) {
        EvictorsMetFull(init, r);
      }
    } else {
      assert false;
    }
  }

  /** A packet is dropped only on behalf of a reader whose offer found 256 packets in the queue. */
  lemma DropsNeedAFullQueue(actions: seq<Action>, a: Action)
    requires Exec(actions + [a]).Some? && Exec(actions).Some?
    requires Exec(actions + [a]).value.dropped != Exec(actions).value.dropped
    ensures a.Attempt? && OfferedToFull(actions, a.r)
    ensures |Exec(actions + [a]).value.dropped| == |Exec(actions).value.dropped| + 1
  {
    assert (actions + [a])[..|actions|] == actions;
    var s := Exec(actions).value;
    assert a.Attempt? && MayDrop(s, a.r);
    hide Exec, OfferedToFull;
    EvictorsMetFull(actions, a.r);
  }

  /** Only the readers of the set exist, all of them idle, with `n` packets queued. */
  predicate IdleReaders(s: State, streams: set<nat>, n: nat) {
    && |s.queue| == n && s.dropped == [] && s.readers.Keys == streams
    && forall r :: r in s.readers ==> s.readers[r].pc == Reading
  }

  lemma {:induction false} SpawnAll(streams: set<nat>) returns (actions: seq<Action>)
    ensures Exec(actions).Some? && IdleReaders(Exec(actions).value, streams, 0)
  {
    if streams == {} {
      actions := [];
    } else {
      var r :| r in streams;
      var before := SpawnAll(streams - {r});
      ExecAppend(before, Spawn(r));
      actions := before + [Spawn(r)];
    }
  }

  /** Any number of packets up to the limit can be queued while every reader is idle. */
  lemma {:induction false} Fill(streams: set<nat>, a: nat, n: nat) returns (actions: seq<Action>)
    requires a in streams && n <= QUEUE_SIZE
    ensures Exec(actions).Some? && IdleReaders(Exec(actions).value, streams, n)
  {
    if n == 0 {
      actions := SpawnAll(streams);
    } else {
      var before := Fill(streams, a, n - 1);
      hide Exec;
      ExecAppend(before, Accept(a, []));
      ExecAppend(before + [Accept(a, [])], Attempt(a));
      actions := before + [Accept(a, [])] + [Attempt(a)];
    }
  }

  /** Reader `a` has made room for its packet and is about to offer it again; reader `b` is idle. */
  predicate MadeRoom(s: State, streams: set<nat>, a: nat, b: nat) {
    && s.readers.Keys == streams && a in s.readers && b in s.readers && a != b
    && s.readers[a].pc == Retrying && s.readers[a].read != [] && s.readers[b].pc == Reading
  }

  lemma MakeRoom(s: State, streams: set<nat>, a: nat, b: nat)
    requires IdleReaders(s, streams, QUEUE_SIZE) && a in streams && b in streams && a != b
    ensures Enabled(s, Accept(a, []))
    ensures
      var s1 := Step(s, Accept(a, []));
      && Enabled(s1, Attempt(a)) && Enabled(Step(s1, Attempt(a)), Attempt(a))
      && var s3 := Step(Step(s1, Attempt(a)), Attempt(a));
         MadeRoom(s3, streams, a, b) && |s3.queue| == QUEUE_SIZE - 1
  {
  }

  lemma FillRoom(s: State, streams: set<nat>, a: nat, b: nat)
    requires MadeRoom(s, streams, a, b) && |s.queue| == QUEUE_SIZE - 1
    ensures Enabled(s, Accept(b, []))
    ensures
      var s1 := Step(s, Accept(b, []));
      && Enabled(s1, Attempt(b))
      && var s2 := Step(s1, Attempt(b));
         MadeRoom(s2, streams, a, b) && |s2.queue| == QUEUE_SIZE
  {
  }

  lemma LoseNewest(s: State, streams: set<nat>, a: nat, b: nat) returns (d: Packet)
    requires MadeRoom(s, streams, a, b) && |s.queue| == QUEUE_SIZE
    ensures Enabled(s, Attempt(a))
    ensures
      var t := Step(s, Attempt(a));
      && t.readers.Keys == streams && a in t.readers && d in t.dropped
      && d.stream == a && d.index == |t.readers[a].read| - 1
  {
    d := InHand(s, a);
    var t := Step(s, Attempt(a));
    assert t.dropped[|t.dropped| - 1] == d;
  }

  lemma ReachableStep(s: State, a: Action)
    requires Reachable(s) && Enabled(s, a)
    ensures Reachable(Step(s, a))
  {
    hide Exec, Step, Enabled;
    var actions :| Exec(actions) == Some(s);
    ExecAppend(actions, a);
  }

  lemma FullIsReachable(streams: set<nat>, a: nat) returns (s: State)
    requires a in streams
    ensures Reachable(s) && IdleReaders(s, streams, QUEUE_SIZE)
  {
    hide Exec, IdleReaders;
    var full := Fill(streams, a, QUEUE_SIZE);
    s := Exec(full).value;
    assert Exec(full) == Some(s);
  }

  /** Two readers: one refills the slot the other freed, whose newest packet is then lost. */
  lemma TwoReadersCanDropTheNewest(streams: set<nat>, a: nat, b: nat) returns (s: State, d: Packet)
    requires a in streams && b in streams && a != b
    ensures Reachable(s) && s.readers.Keys == streams
    ensures d in s.dropped && d.stream == a && d.index == |s.readers[a].read| - 1
  {
    hide Reachable, Enabled, Step, IdleReaders, MadeRoom;
    var s0 := FullIsReachable(streams, a);
    MakeRoom(s0, streams, a, b);
    ReachableStep(s0, Accept(a, []));
    var s1 := Step(s0, Accept(a, []));
    ReachableStep(s1, Attempt(a));
    var s2 := Step(s1, Attempt(a));
    ReachableStep(s2, Attempt(a));
    var s3 := Step(s2, Attempt(a));
    FillRoom(s3, streams, a, b);
    ReachableStep(s3, Accept(b, []));
    var s4 := Step(s3, Accept(b, []));
    ReachableStep(s4, Attempt(b));
    var s5 := Step(s4, Attempt(b));
    d := LoseNewest(s5, streams, a, b);
    ReachableStep(s5, Attempt(a));
    s := Step(s5, Attempt(a));
  }

  /** No stream has lost the newest packet it read. */
  ghost predicate KeepsNewest(s: State) {
    forall d :: d in s.dropped && d.stream in s.readers ==> d.index < |s.readers[d.stream].read| - 1
  }

  /** The queue always keeps the newest packet of each stream if and only if there is at most one. */
  lemma NewestKeptIffOneReader(streams: set<nat>)
    ensures (forall s :: Reachable(s) && s.readers.Keys == streams ==> KeepsNewest(s)) <==> |streams| <= 1
  {
    hide Reachable;
    if |streams| <= 1 {
      forall s | Reachable(s) && s.readers.Keys == streams ensures KeepsNewest(s) {
        AtMostOneReaderKeeps(s);
      }
    } else {
      var a :| a in streams;
      assert |streams - {a}| > 0;
      var b :| b in streams - {a};
      var s, d := TwoReadersCanDropTheNewest(streams, a, b);
      assert !KeepsNewest(s);
    }
  }

  lemma AtMostOneReaderKeeps(s: State)
    requires Reachable(s) && |s.readers.Keys| <= 1
    ensures KeepsNewest(s)
  {
    hide Reachable;
    forall d | d in s.dropped && d.stream in s.readers ensures d.index < |s.readers[d.stream].read| - 1 {
      var r := d.stream;
      assert |s.readers.Keys - {r}| == 0;
      assert s.readers.Keys == {r};
      OneReaderDropsOnlyTheOldest(s, r);
    }
  }
}

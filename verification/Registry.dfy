/**
 The manager as an object (type Manager in internal/call/manager.go): its fields and, one
 method each, the critical sections of its mutex, done in place on the registered calls.
 Each method is proved to do what the step of the protocol in Manager.dfy does.
 */
module Registry {
  import opened Sequences
  import opened Manager
  import opened Progress
  import Call

  class CallManager {
    var calls: map<string, Call.Record>
    var draining: bool
    var wg: int

    constructor ()
      ensures Matches(INITIAL, map[])
    {
      calls, draining, wg := map[], false, 0;
    }

    /** The object is in state `s`, where `records` tells which record is which call. */
    ghost predicate Matches(s: State, records: map<nat, Call.Record>)
      reads this, records.Values
    {
      Books(s, records) && Contents(s, records)
    }

    /** The fields are those of state `s`. */
    ghost predicate Books(s: State, records: map<nat, Call.Record>)
      reads this
    {
      && draining == s.draining && wg == s.wg
      && calls.Keys == s.registry.Keys
      && (forall id :: id in calls ==> s.registry[id] in records && calls[id] == records[s.registry[id]])
    }

    /** The first critical section of Accept: refuse, join the registered call, or go on. */
    method AdmitInbound(
      id: string, ghost s: State, ghost records: map<nat, Call.Record>, ghost op: nat, ghost room: string)
      returns (refused: bool, prior: Option<Call.Record>)
      requires Matches(s, records) && Enabled(s, BeginAccept(op, id, room))
      ensures
        var d := Step(s, BeginAccept(op, id, room)).desk;
        if refused then prior.None? && op in d.outcomes && d.outcomes[op] == Refused
        else if prior.Some? then
          op in d.outcomes && d.outcomes[op].Joined? && prior.value == records[d.outcomes[op].call]
        else op in d.ops && d.ops[op] == AcceptListening(id, room)
    {
      if draining {
        return true, None;
      }
      if id in calls {
        return false, Some(calls[id]);
      }
      return false, None;
    }

    /** The second critical section of Accept: it looks for the identifier again, not at `draining`. */
    method RegisterInbound(id: string, c: Call.Record, ghost s: State, ghost records: map<nat, Call.Record>,
                           ghost op: nat, ghost call: nat)
      returns (prior: Option<Call.Record>)
      requires Matches(s, records) && Enabled(s, Register(op, call)) && s.desk.ops[op].AcceptRegistering?
      requires s.desk.ops[op].id == id && c !in records.Values && !c.cancelled
      requires c.View() == Call.NewInbound(id, s.desk.ops[op].room, s.desk.ops[op].socket, s.desk.ops[op].n).g
      modifies this`calls, this`wg
      ensures
        var t := Step(s, Register(op, call));
        if prior.Some? then
          && Matches(t, records) && op in t.desk.ops && t.desk.ops[op].AcceptDiscarding?
          && t.desk.ops[op].prior in records && prior.value == records[t.desk.ops[op].prior]
        else Matches(t, records[call := c])
    {
      hide Enabled, Step, Contents, Call.NewInbound, Call.NewOutbound;
      InboundEffect(s, op, call);
      if id in calls {
        SameContents(s, Step(s, Register(op, call)), records);
        return Some(calls[id]);
      }
      NewContents(s, Step(s, Register(op, call)), records, call, c);
      calls, wg := calls[id := c], wg + 1;
      return None;
    }

    /** The second critical section of Dial: it looks at `draining` again, not for the identifier. */
    method RegisterOutbound(id: string, c: Call.Record, ghost s: State, ghost records: map<nat, Call.Record>,
                            ghost op: nat, ghost call: nat)
      returns (ok: bool)
      requires Matches(s, records) && Enabled(s, Register(op, call)) && s.desk.ops[op].DialRegistering?
      requires s.desk.ops[op].id == id && c !in records.Values && !c.cancelled
      requires
        var o := s.desk.ops[op];
        c.View() == Call.NewOutbound(id, o.room, o.socket, o.n, s.draining).g
      modifies this`calls, this`wg
      ensures Matches(Step(s, Register(op, call)), records[call := c])
      ensures ok == !s.draining
    {
      hide Enabled, Step, Contents, Call.NewInbound, Call.NewOutbound;
      OutboundEffect(s, op, call);
      NewContents(s, Step(s, Register(op, call)), records, call, c);
      if draining {
        return false;
      }
      calls, wg := calls[id := c], wg + 1;
      return true;
    }

    /** What Connect and Disconnect look up. */
    method Find(id: string, ghost s: State, ghost records: map<nat, Call.Record>) returns (c: Option<Call.Record>)
      requires Matches(s, records)
      ensures c == if id in s.registry then Some(records[s.registry[id]]) else None
    {
      c := if id in calls then Some(calls[id]) else None;
    }

    /** Hangs up the registered call, on behalf of the user or of the business; an unknown call is ignored. */
    method Disconnect(id: string, user: bool, ghost s: State, ghost records: map<nat, Call.Record>)
      returns (ghost actions: seq<Action>)
      requires Matches(s, records)
      modifies calls.Values
      ensures
        var stop := if user then Call.StopUser else Call.StopBusiness;
        actions == if id !in s.registry then [] else [OnCall(s.registry[id], stop), OnCall(s.registry[id], Call.Cancel)]
      ensures Runs(s, actions).Some? && Matches(Runs(s, actions).value, records)
    {
      hide Runs, Contents, Call.UserStopped, Call.BusinessStopped;
      if id !in calls {
        RunsNothing(s);
        return [];
      }
      ghost var k := s.registry[id];
      MatchedExists(s, records, k);
      actions := [OnCall(k, if user then Call.StopUser else Call.StopBusiness), OnCall(k, Call.Cancel)];
      ghost var u := HangUpRun(s, k, user);
      HangUp(calls[id], user, s, u, records, k);
    }

    /** The critical section of finish. */
    method Unregister(id: string, ghost s: State, ghost records: map<nat, Call.Record>, ghost call: nat)
      requires Matches(s, records) && Enabled(s, Manager.Unregister(call)) && s.heap[call].info.id == id
      modifies this`calls
      ensures Matches(Step(s, Manager.Unregister(call)), records)
    {
      hide Step, Enabled, Contents;
      UnregisterEffect(s, call);
      SameContents(s, Step(s, Manager.Unregister(call)), records);
      calls := calls - {id};
    }

    /** The wait group's Done, after it. */
    method Uncount(ghost s: State, ghost records: map<nat, Call.Record>, ghost call: nat)
      requires Matches(s, records) && Enabled(s, Manager.Uncount(call))
      modifies this`wg
      ensures Matches(Step(s, Manager.Uncount(call)), records)
    {
      hide Step, Enabled, Contents;
      UncountEffect(s, call);
      SameContents(s, Step(s, Manager.Uncount(call)), records);
      wg := wg - 1;
    }

    /**
     The critical section of Shutdown: `actions` is the run of the protocol that it performs,
     which stops and cancels each registered call once, in some order.
     */
    method Shutdown(ghost s: State, ghost records: map<nat, Call.Record>) returns (ghost actions: seq<Action>)
      requires Matches(s, records) && Inv(s) && s.lock.Free?
      modifies this`draining, calls.Values
      ensures Runs(s, actions).Some? && Matches(Runs(s, actions).value, records)
      ensures Runs(s, actions).value.lock.Free? && draining && calls == old(calls) && wg == old(wg)
      ensures exists order ::
        Enumerates(order, s.registry.Values) && actions == [Manager.Shutdown] + Stops(order) + [ShutdownRelease]
    {
      hide Inv, Step, Enabled, Runs, Contents, Stopping, Stops, Enumerates;
      StoppingBegins(s);
      ghost var t, order := Step(s, Manager.Shutdown), [];
      SameContents(s, t, records);
      draining := true;
      order, t := StopAll(calls, s, records);
      StoppingState(s, t, order, {});
      StoppingEnds(s, t, order);
      actions := [Manager.Shutdown] + Stops(order) + [ShutdownRelease];
      SameContents(t, t.(lock := Free), records);
    }
  }

  /** The loop of Shutdown: each call is stopped and cancelled, in some order. */
  method StopAll(calls: map<string, Call.Record>, ghost s: State, ghost records: map<nat, Call.Record>)
    returns (ghost order: seq<nat>, ghost t: State)
    requires Inv(s) && s.lock.Free? && Enabled(s, Manager.Shutdown) && Contents(Step(s, Manager.Shutdown), records)
    requires calls.Keys == s.registry.Keys
    requires forall id :: id in calls ==> s.registry[id] in records && calls[id] == records[s.registry[id]]
    modifies calls.Values
    ensures Stopping(s, t, order, {}) && Contents(t, records)
  {
    hide Inv, Step, Enabled, Runs, Contents, Stopping, Handles, Call.BusinessStopped;
    StoppingBegins(s);
    t, order := Step(s, Manager.Shutdown), [];
    var todo := calls.Keys;
    AllHandles(s);
    while todo != {}
      invariant todo <= calls.Keys
      invariant Contents(t, records) && Stopping(s, t, order, Handles(s, todo))
      decreases todo
    {
      var id :| id in todo;
      ghost var k := s.registry[id];
      HandlesShrink(s, todo, id);
      ghost var u := StoppingGoesOn(s, t, order, Handles(s, todo), k);
      StopOne(calls[id], t, u, records, k);
      todo := todo - {id};
      t, order := u, order + [k];
    }
    NoHandles(s);
  }

  lemma MatchedExists(s: State, records: map<nat, Call.Record>, k: nat)
    requires Contents(s, records) && k in records
    ensures k in s.heap
  {
  }

  /** The two steps of a hang-up. */
  lemma HangUpRun(s: State, k: nat, user: bool) returns (u: State)
    requires k in s.heap
    ensures
      Runs(s, [OnCall(k, if user then Call.StopUser else Call.StopBusiness), OnCall(k, Call.Cancel)]) == Some(u)
    ensures k in u.heap && u == s.(heap := s.heap[k := u.heap[k]]) && u.heap[k].cancelled
    ensures u.heap[k].g == if user then Call.UserStopped(s.heap[k].g) else Call.BusinessStopped(s.heap[k].g)
  {
    var a := OnCall(k, if user then Call.StopUser else Call.StopBusiness);
    var b := OnCall(k, Call.Cancel);
    var t := Step(s, a);
    assert Enabled(t, b);
    u := Step(t, b);
    assert u.heap == s.heap[k := u.heap[k]];
    hide Step, Enabled, Runs;
    RunsNothing(u);
    RunsFirst(t, b, []);
    RunsFirst(s, a, [b] + []);
    assert [a] + ([b] + []) == [a, b];
  }

  /** What Disconnect does to one call. */
  method HangUp(c: Call.Record, user: bool, ghost t: State, ghost u: State,
                ghost records: map<nat, Call.Record>, ghost k: nat)
    requires Contents(t, records) && k in records && records[k] == c && k in t.heap && k in u.heap
    requires u.heap == t.heap[k := u.heap[k]] && u.heap[k].cancelled
    requires u.heap[k].g == if user then Call.UserStopped(t.heap[k].g) else Call.BusinessStopped(t.heap[k].g)
    modifies c`terminate, c`userTerminated, c`cancelled
    ensures Contents(u, records)
  {
    hide Call.BusinessStopped, Call.UserStopped;
    if user {
      c.StopUser();
    } else {
      c.StopBusiness();
    }
    c.Cancel();
    forall d | d in records
      ensures records[d].View() == u.heap[d].g && records[d].cancelled == u.heap[d].cancelled
    {
      if d != k {
        assert records[d] != c;
        assert records[d].View() == old(records[d].View()) && old(records[d].View()) == t.heap[d].g;
      }
    }
  }

  /** What Shutdown does to one call. */
  method StopOne(c: Call.Record, ghost t: State, ghost u: State, ghost records: map<nat, Call.Record>, ghost k: nat)
    requires Contents(t, records) && k in records && records[k] == c && k in t.heap && k in u.heap
    requires u.heap == t.heap[k := u.heap[k]]
    requires u.heap[k].cancelled && u.heap[k].g == Call.BusinessStopped(t.heap[k].g)
    modifies c`terminate, c`cancelled
    ensures Contents(u, records)
  {
    hide Call.BusinessStopped;
    c.StopBusiness();
    c.Cancel();
    forall d | d in records
      ensures records[d].View() == u.heap[d].g && records[d].cancelled == u.heap[d].cancelled
    {
      if d != k {
        assert records[d] != c;
        assert records[d].View() == old(records[d].View()) && old(records[d].View()) == t.heap[d].g;
      }
    }
  }

  /** Different calls have different records, and each record holds what its call does. */
  ghost predicate Contents(s: State, records: map<nat, Call.Record>)
    reads records.Values
  {
    && records.Keys == s.heap.Keys
    && (forall c, d :: c in records && d in records && records[c] == records[d] ==> c == d)
    && (forall c :: c in records ==> records[c].View() == s.heap[c].g && records[c].cancelled == s.heap[c].cancelled)
  }

  lemma SameContents(s: State, t: State, records: map<nat, Call.Record>)
    requires Contents(s, records) && t.heap.Keys == s.heap.Keys
    requires forall c :: c in s.heap ==> t.heap[c].g == s.heap[c].g && t.heap[c].cancelled == s.heap[c].cancelled
    ensures Contents(t, records)
  {
  }

  lemma NewContents(s: State, t: State, records: map<nat, Call.Record>, call: nat, c: Call.Record)
    requires Contents(s, records) && call !in s.heap && c !in records.Values
    requires call in t.heap && t.heap == s.heap[call := t.heap[call]]
    requires c.View() == t.heap[call].g && c.cancelled == t.heap[call].cancelled
    ensures call !in records && Contents(t, records[call := c])
  {
    var after := records[call := c];
    forall d | d in after ensures after[d].View() == t.heap[d].g && after[d].cancelled == t.heap[d].cancelled {
      if d != call {
        assert records[d] in records.Values;
      }
    }
    forall d | d in records ensures records[d] != c {
      assert records[d] in records.Values;
    }
  }

  // ------------------------------------------------------- Shutdown as a run

  /** Each element of the set once. */
  ghost predicate Enumerates(order: seq<nat>, calls: set<nat>) {
    && (forall k :: k in order <==> k in calls)
    && (forall i, j :: 0 <= i < j < |order| ==> order[i] != order[j])
  }

  /** Stopping and cancelling one call after the other. */
  function Stops(order: seq<nat>): seq<Action> {
    if order == [] then [] else Stops(order[..|order| - 1]) + [ShutdownStop(order[|order| - 1])] + [ShutdownCancel]
  }

  function Handles(s: State, ids: set<string>): set<nat> { set id | id in ids && id in s.registry :: s.registry[id] }

  lemma AllHandles(s: State)
    ensures Handles(s, s.registry.Keys) == s.registry.Values
  {
  }

  lemma NoHandles(s: State)
    ensures Handles(s, {}) == {}
  {
  }

  lemma HandlesShrink(s: State, ids: set<string>, id: string)
    requires Inv(s) && id in ids && id in s.registry
    ensures s.registry[id] in Handles(s, ids) && Handles(s, ids - {id}) == Handles(s, ids) - {s.registry[id]}
  {
    hide CallsValid, CountValid, SocketsValid, OpsValid, DrainValid, OnRegistry;
    assert forall i :: i in s.registry ==> Holds(s, i, s.registry[i]);
  }

  /** Shutdown, begun in `s`, has dealt with the calls of `order` and has those of `left` before it. */
  ghost predicate Stopping(s: State, t: State, order: seq<nat>, left: set<nat>) {
    && Inv(s) && Inv(t) && Runs(s, [Manager.Shutdown] + Stops(order)) == Some(t)
    && t.registry == s.registry && t.wg == s.wg && t.draining && t.lock == Draining(left, None)
    && left <= s.registry.Values && Enumerates(order, s.registry.Values - left)
  }

  lemma StoppingState(s: State, t: State, order: seq<nat>, left: set<nat>)
    requires Stopping(s, t, order, left)
    ensures Inv(s) && t.registry == s.registry && t.wg == s.wg && t.draining && t.lock == Draining(left, None)
  {
    hide Inv, Runs, Enumerates;
  }

  lemma StoppingBegins(s: State)
    requires Inv(s) && s.lock.Free?
    ensures Enabled(s, Manager.Shutdown) && Step(s, Manager.Shutdown).heap == s.heap
    ensures Stopping(s, Step(s, Manager.Shutdown), [], s.registry.Values)
    ensures var t := Step(s, Manager.Shutdown); t.registry == s.registry && t.wg == s.wg && t.draining
  {
    hide Inv;
    ShutdownKeeps(s);
    RunsFirst(s, Manager.Shutdown, []);
    assert Enumerates([], s.registry.Values - s.registry.Values);
  }

  /** One more call is stopped and cancelled. */
  lemma StoppingGoesOn(s: State, t: State, order: seq<nat>, left: set<nat>, k: nat) returns (u: State)
    requires Stopping(s, t, order, left) && k in left
    ensures Stopping(s, u, order + [k], left - {k})
    ensures k in t.heap && k in u.heap && u.heap == t.heap[k := u.heap[k]]
    ensures u.heap[k].cancelled && u.heap[k].g == Call.BusinessStopped(t.heap[k].g)
  {
    hide Inv, Runs, Stops, Enumerates;
    u := StopThenCancel(t, k);
    OneMore(s, t, u, order, k);
    EnumeratesMore(order, s.registry.Values - left, k);
    assert s.registry.Values - left + {k} == s.registry.Values - (left - {k});
  }

  lemma EnumeratesMore(order: seq<nat>, calls: set<nat>, k: nat)
    requires Enumerates(order, calls) && k !in calls
    ensures Enumerates(order + [k], calls + {k})
  {
  }

  /** The two steps of Shutdown on one call. */
  lemma StopThenCancel(t: State, k: nat) returns (u: State)
    requires Inv(t) && t.lock.Draining? && t.lock.cancelling.None? && k in t.lock.todo
    ensures Inv(u) && Runs(t, [ShutdownStop(k)] + [ShutdownCancel]) == Some(u)
    ensures u.registry == t.registry && u.wg == t.wg && u.draining == t.draining
    ensures u.lock == Draining(t.lock.todo - {k}, None)
    ensures k in t.heap && k in u.heap && u.heap == t.heap[k := u.heap[k]]
    ensures u.heap[k].cancelled && u.heap[k].g == Call.BusinessStopped(t.heap[k].g)
  {
    hide Inv, Runs;
    ShutdownList(t);
    var a := ShutdownStop(k);
    StopEffect(t, k);
    var v := Step(t, a);
    StepKeeps(t, a);
    ShutdownList(v);
    CancelEffect(v, k);
    StepKeeps(v, ShutdownCancel);
    u := Step(v, ShutdownCancel);
    hide Step, Enabled;
    RunsNothing(u);
    RunsFirst(v, ShutdownCancel, []);
    RunsFirst(t, a, [ShutdownCancel]);
    assert [ShutdownCancel] + [] == [ShutdownCancel];
    assert u.heap == t.heap[k := u.heap[k]];
  }

  lemma StopEffect(t: State, k: nat)
    requires Enabled(t, ShutdownStop(k))
    ensures
      var u := Step(t, ShutdownStop(k));
      && k in t.heap && k in u.heap && u.heap == t.heap[k := u.heap[k]]
      && u.heap[k].g == Call.BusinessStopped(t.heap[k].g)
      && u == t.(heap := u.heap, lock := Draining(t.lock.todo, Some(k)))
  {
  }

  lemma CancelEffect(t: State, k: nat)
    requires Enabled(t, ShutdownCancel) && t.lock.cancelling == Some(k)
    ensures
      var u := Step(t, ShutdownCancel);
      && k in t.heap && k in u.heap && u.heap == t.heap[k := u.heap[k]]
      && u.heap[k].cancelled && u.heap[k].g == t.heap[k].g
      && u == t.(heap := u.heap, lock := Draining(t.lock.todo - {k}, None))
  {
  }

  lemma OneMore(s: State, t: State, u: State, order: seq<nat>, k: nat)
    requires Runs(s, [Manager.Shutdown] + Stops(order)) == Some(t)
    requires Runs(t, [ShutdownStop(k)] + [ShutdownCancel]) == Some(u)
    ensures Runs(s, [Manager.Shutdown] + Stops(order + [k])) == Some(u)
  {
    hide Runs;
    RunsAppend(s, [Manager.Shutdown] + Stops(order), [ShutdownStop(k)] + [ShutdownCancel]);
    assert (order + [k])[..|order|] == order;
    assert [Manager.Shutdown] + Stops(order + [k]) ==
      [Manager.Shutdown] + Stops(order) + ([ShutdownStop(k)] + [ShutdownCancel]);
  }

  lemma StoppingEnds(s: State, t: State, order: seq<nat>)
    requires Stopping(s, t, order, {})
    ensures Runs(s, [Manager.Shutdown] + Stops(order) + [ShutdownRelease]) == Some(t.(lock := Free))
    ensures Enumerates(order, s.registry.Values)
  {
    hide Inv, Runs, Stops, Enumerates;
    assert Enabled(t, ShutdownRelease) && Step(t, ShutdownRelease) == t.(lock := Free);
    hide Step, Enabled;
    RunsNothing(t.(lock := Free));
    RunsFirst(t, ShutdownRelease, []);
    assert [ShutdownRelease] + [] == [ShutdownRelease];
    RunsAppend(s, [Manager.Shutdown] + Stops(order), [ShutdownRelease]);
    assert s.registry.Values - {} == s.registry.Values;
  }

  lemma InboundEffect(s: State, op: nat, call: nat)
    requires Enabled(s, Register(op, call)) && s.desk.ops[op].AcceptRegistering?
    ensures call !in s.heap
    ensures
      var AcceptRegistering(id, room, socket, n) := s.desk.ops[op];
      var t := Step(s, Register(op, call));
      && t.draining == s.draining
      && if id in s.registry
         then
           && t == s.(desk := t.desk)
           && op in t.desk.ops && t.desk.ops[op] == AcceptDiscarding(id, socket, s.registry[id])
         else
           && t.heap == s.heap[call := Call.NewInbound(id, room, socket, n)] && !t.heap[call].cancelled
           && t.registry == s.registry[id := call] && t.wg == s.wg + 1
  {
  }

  lemma OutboundEffect(s: State, op: nat, call: nat)
    requires Enabled(s, Register(op, call)) && s.desk.ops[op].DialRegistering?
    ensures call !in s.heap
    ensures
      var DialRegistering(id, room, socket, n) := s.desk.ops[op];
      var t := Step(s, Register(op, call));
      && t.draining == s.draining && t.heap == s.heap[call := Call.NewOutbound(id, room, socket, n, s.draining)]
      && !t.heap[call].cancelled
      && if s.draining then t.registry == s.registry && t.wg == s.wg
         else t.registry == s.registry[id := call] && t.wg == s.wg + 1
  {
  }

  lemma UnregisterEffect(s: State, call: nat)
    requires Enabled(s, Unregister(call))
    ensures call in s.heap
    ensures
      var t := Step(s, Unregister(call));
      && t.draining == s.draining && t.wg == s.wg && t.registry == s.registry - {s.heap[call].info.id}
      && t.heap == s.heap[call := Call.Finishing(s.heap[call], Call.Uncounting)]
  {
  }

  lemma UncountEffect(s: State, call: nat)
    requires Enabled(s, Uncount(call))
    ensures call in s.heap
    ensures
      var t := Step(s, Uncount(call));
      && t.draining == s.draining && t.wg == s.wg - 1 && t.registry == s.registry
      && t.heap == s.heap[call := Call.Finishing(s.heap[call], Call.ClosingDone)]
  {
  }
}

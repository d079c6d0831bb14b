/** Waiting for probe responses: callers register a one-slot channel under an id, the
    dispatcher takes the entry out of the map and then sends, and a caller that has its
    answer, or has waited long enough, deletes its id. Every interleaving of those steps. */
module ProbeWaiters {
  import opened Common

  datatype Message = Message(id: string, body: string)

  datatype Status =
    | Waiting                 // in the select
    | Answered(data: Message) // select took the channel
    | TimedOut                // select took the timer
    | Over                    // the deferred delete has run

  /** A call of `WaitForProbeResponse`: its channel holds at most one message; `sends` counts what was sent to it. */
  datatype Call = Call(id: string, status: Status, slot: Option<Message>, sends: nat)

  /** A dispatcher between releasing the map and finishing its send. */
  datatype Flight = Flight(call: nat, data: Message)

  datatype State = State(waiters: map<string, nat>, calls: seq<Call>, flights: multiset<Flight>)

  datatype Action =
    | Register(id: string)
    | Lookup(data: Message)
    | Send(flight: Flight)
    | Receive(c: nat)
    | Expire(c: nat)
    | Forget(c: nat)

  const INITIAL := State(map[], [], multiset{})

  predicate Enabled(s: State, a: Action) {
    match a
    case Register(_) => true
    case Lookup(_) => true
    case Send(f) => f in s.flights && f.call < |s.calls| && s.calls[f.call].slot.None?
    case Receive(c) => c < |s.calls| && s.calls[c].status == Waiting && s.calls[c].slot.Some?
    case Expire(c) => c < |s.calls| && s.calls[c].status == Waiting
    case Forget(c) => c < |s.calls| && (s.calls[c].status == TimedOut || s.calls[c].status.Answered?)
  }

  function Step(s: State, a: Action): State
    requires Enabled(s, a)
  {
    match a
    case Register(id) =>
      s.(waiters := s.waiters[id := |s.calls|], calls := s.calls + [Call(id, Waiting, None, 0)])
    case Lookup(m) =>
      if m.id == "" || m.id !in s.waiters then s
      else s.(waiters := s.waiters - {m.id}, flights := s.flights + multiset{Flight(s.waiters[m.id], m)})
    case Send(f) =>
      var c := s.calls[f.call];
      s.(flights := s.flights - multiset{f},
         calls := s.calls[f.call := c.(slot := Some(f.data), sends := c.sends + 1)])
    case Receive(c) =>
      var call := s.calls[c];
      s.(calls := s.calls[c := call.(status := Answered(call.slot.value), slot := None)])
    case Expire(c) =>
      s.(calls := s.calls[c := s.calls[c].(status := TimedOut)])
    case Forget(c) =>
      s.(waiters := s.waiters - {s.calls[c].id}, calls := s.calls[c := s.calls[c].(status := Over)])
  }

  predicate IsRun(s: State, run: seq<Action>)
    decreases |run|
  {
    run == [] || (Enabled(s, run[0]) && IsRun(Step(s, run[0]), run[1..]))
  }

  function After(s: State, run: seq<Action>): State
    requires IsRun(s, run)
    decreases |run|
  {
    if run == [] then s else After(Step(s, run[0]), run[1..])
  }

  // ---- the invariant ----

  /** A registered call is still in progress, under its own id, and nothing was sent to it. */
  ghost predicate EntriesInProgress(s: State) {
    forall id :: id in s.waiters ==>
      && s.waiters[id] < |s.calls|
      && s.calls[s.waiters[id]].id == id && s.calls[s.waiters[id]].status != Over
      && s.calls[s.waiters[id]].sends == 0
  }

  /** A message on its way is the only one for its call, whose slot is free and whose entry is gone. */
  ghost predicate FlightsAlone(s: State) {
    && (forall f :: f in s.flights ==>
          && s.flights[f] == 1 && f.call < |s.calls| && s.calls[f.call].sends == 0
          && s.calls[f.call].id == f.data.id
          && !(f.data.id in s.waiters && s.waiters[f.data.id] == f.call))
    && (forall f, g :: f in s.flights && g in s.flights && f.call == g.call ==> f == g)
  }

  ghost predicate CallsSound(s: State) {
    forall c :: 0 <= c < |s.calls| ==>
      && s.calls[c].sends <= 1
      && (s.calls[c].slot.Some? ==> s.calls[c].sends == 1 && s.calls[c].slot.value.id == s.calls[c].id)
      && (s.calls[c].status.Answered? ==> s.calls[c].status.data.id == s.calls[c].id)
  }

  ghost predicate Inv(s: State) {
    EntriesInProgress(s) && FlightsAlone(s) && CallsSound(s)
  }

  lemma StepEntries(s: State, a: Action)
    requires Inv(s) && Enabled(s, a)
    ensures EntriesInProgress(Step(s, a))
  {
  }

  lemma LookupFlights(s: State, m: Message)
    requires Inv(s) && Enabled(s, Lookup(m))
    ensures FlightsAlone(Step(s, Lookup(m)))
  {
    var n := Step(s, Lookup(m));
    if m.id != "" && m.id in s.waiters {
      var added := Flight(s.waiters[m.id], m);
      forall f | f in s.flights ensures f.call != added.call {
        assert s.calls[f.call].id == f.data.id;
      }
    }
  }

  lemma SendFlights(s: State, f: Flight)
    requires Inv(s) && Enabled(s, Send(f))
    ensures FlightsAlone(Step(s, Send(f)))
  {
    var n := Step(s, Send(f));
    forall g | g in n.flights
      ensures g != f && g in s.flights && g.call != f.call && n.flights[g] == s.flights[g]
    {
      assert s.flights[f] == 1;
    }
  }

  lemma StepFlights(s: State, a: Action)
    requires Inv(s) && Enabled(s, a)
    ensures FlightsAlone(Step(s, a))
  {
    match a
    case Lookup(m) => LookupFlights(s, m);
    case Send(f) => SendFlights(s, f);
    case _ => assert Step(s, a).flights == s.flights;
  }

  lemma StepCalls(s: State, a: Action)
    requires Inv(s) && Enabled(s, a)
    ensures CallsSound(Step(s, a))
  {
  }

  lemma {:induction false} RunInv(s: State, run: seq<Action>)
    requires Inv(s) && IsRun(s, run)
    ensures Inv(After(s, run))
    decreases |run|
  {
    if run != [] {
      StepEntries(s, run[0]);
      StepFlights(s, run[0]);
      StepCalls(s, run[0]);
      RunInv(Step(s, run[0]), run[1..]);
    }
  }

  // ---- what every run keeps ----

  /** No dispatcher is ever stuck in its send: each channel is sent to at most once, and when a
      message is on its way the slot it goes to is free. */
  lemma SendsNeverBlock(run: seq<Action>, f: Flight)
    requires IsRun(INITIAL, run)
    ensures var s := After(INITIAL, run);
      && (forall c :: 0 <= c < |s.calls| ==> s.calls[c].sends <= 1)
      && (f in s.flights ==> Enabled(s, Send(f)))
  {
    RunInv(INITIAL, run);
  }

  /** Every key of the waiter map belongs to a call still in progress, and a call only ever returns
      a response that carries its own id, even when ids repeat. */
  lemma WaitersSound(run: seq<Action>)
    requires IsRun(INITIAL, run)
    ensures var s := After(INITIAL, run);
      && EntriesInProgress(s)
      && (forall c :: 0 <= c < |s.calls| && s.calls[c].status.Answered? ==> s.calls[c].status.data.id == s.calls[c].id)
  {
    RunInv(INITIAL, run);
  }

  /** The life of a call: it waits until it takes the message out of its own channel or its timer fires, and
      then takes itself and its entry away; nobody else changes how it stands. */
  lemma CallLife(s: State, a: Action, c: nat)
    requires Inv(s) && Enabled(s, a) && c < |s.calls|
    ensures var was, now := s.calls[c], Step(s, a).calls[c];
      && now.id == was.id
      && (a == Receive(c) ==> was.status == Waiting && was.slot.Some? && now.status == Answered(was.slot.value)
                              && now.slot.None?)
      && (a == Expire(c) ==> was.status == Waiting && now.status == TimedOut)
      && (a == Forget(c) ==> (was.status == TimedOut || was.status.Answered?) && now.status == Over
                             && now.id !in Step(s, a).waiters)
      && (a != Receive(c) && a != Expire(c) && a != Forget(c) ==> now.status == was.status)
      && (now.slot != was.slot ==>
            a == Receive(c) || (a.Send? && a.flight.call == c && now.slot == Some(a.flight.data)))
  {
    hide FlightsAlone, EntriesInProgress, CallsSound;
  }

  // ---- reachability of a waiting call ----

  /** A response can still reach the call, or is already there or on its way. */
  ghost predicate Attached(s: State, c: nat)
    requires c < |s.calls|
  {
    || (s.calls[c].id in s.waiters && s.waiters[s.calls[c].id] == c)
    || s.calls[c].slot.Some?
    || exists f :: f in s.flights && f.call == c
  }

  /** Another call takes the id over, or gives it up. */
  predicate Displaces(s: State, a: Action, c: nat)
    requires c < |s.calls| && Enabled(s, a)
  {
    && s.calls[c].id in s.waiters && s.waiters[s.calls[c].id] == c
    && ((a.Register? && a.id == s.calls[c].id) || (a.Forget? && a.c != c && s.calls[a.c].id == s.calls[c].id))
  }

  lemma LookupKeepsAttached(s: State, m: Message, c: nat)
    requires c < |s.calls| && Attached(s, c)
    ensures Attached(Step(s, Lookup(m)), c)
  {
    var n := Step(s, Lookup(m));
    if m.id != "" && m.id in s.waiters {
      assert Flight(s.waiters[m.id], m) in n.flights;
      assert forall g :: g in s.flights ==> g in n.flights;
    }
  }

  lemma SendKeepsAttached(s: State, f: Flight, c: nat)
    requires Enabled(s, Send(f)) && c < |s.calls| && Attached(s, c)
    ensures Attached(Step(s, Send(f)), c)
  {
    var n := Step(s, Send(f));
    if c != f.call {
      assert forall g :: g in s.flights && g.call == c ==> g in n.flights;
    }
  }

  lemma CallerKeepsAttached(s: State, a: Action, c: nat)
    requires Inv(s) && Enabled(s, a) && c < |s.calls| && (a.Register? || a.Receive? || a.Expire? || a.Forget?)
    requires s.calls[c].status == Waiting && Step(s, a).calls[c].status == Waiting
    requires Attached(s, c)
    ensures Attached(Step(s, a), c) <==> !Displaces(s, a, c)
  {
    var n := Step(s, a);
    assert n.calls[c] == s.calls[c] && n.flights == s.flights;
    if s.calls[c].id in s.waiters && s.waiters[s.calls[c].id] == c {
      assert s.calls[c].slot.None?;
      assert forall f :: f in s.flights ==> f.call != c;
    }
  }

  /** A waiting call stays attached across a step exactly when no other call of the same id
      registers or finishes while it is registered. */
  lemma StaysAttached(s: State, a: Action, c: nat)
    requires Inv(s) && Enabled(s, a) && c < |s.calls|
    requires s.calls[c].status == Waiting && Step(s, a).calls[c].status == Waiting
    requires Attached(s, c)
    ensures Attached(Step(s, a), c) <==> !Displaces(s, a, c)
  {
    match a
    case Lookup(m) => LookupKeepsAttached(s, m, c);
    case Send(f) => SendKeepsAttached(s, f, c);
    case _ => CallerKeepsAttached(s, a, c);
  }

  lemma DetachedForGood(s: State, a: Action, c: nat)
    requires Inv(s) && Enabled(s, a) && c < |s.calls| && !Attached(s, c)
    ensures !Attached(Step(s, a), c)
  {
  }

  ghost predicate InProgress(s: State, c: nat) {
    c < |s.calls| && s.calls[c].status != Over
  }

  /** No two calls in progress share an id. */
  ghost predicate Distinct(s: State) {
    forall c: nat, d: nat :: InProgress(s, c) && InProgress(s, d) && s.calls[c].id == s.calls[d].id ==> c == d
  }

  ghost predicate DistinctThroughout(s: State, run: seq<Action>)
    requires IsRun(s, run)
    decreases |run|
  {
    Distinct(s) && (run != [] ==> DistinctThroughout(Step(s, run[0]), run[1..]))
  }

  ghost predicate AllAttached(s: State) {
    forall c :: 0 <= c < |s.calls| && s.calls[c].status == Waiting ==> Attached(s, c)
  }

  lemma StepAttaches(s: State, a: Action)
    requires Inv(s) && Enabled(s, a) && AllAttached(s) && Distinct(s) && Distinct(Step(s, a))
    ensures AllAttached(Step(s, a))
  {
    var n := Step(s, a);
    forall c | 0 <= c < |n.calls| && n.calls[c].status == Waiting ensures Attached(n, c) {
      if c < |s.calls| {
        assert s.calls[c].status == Waiting;
        NotDisplaced(s, a, c);
        StaysAttached(s, a, c);
      }
    }
  }

  lemma NotDisplaced(s: State, a: Action, c: nat)
    requires Enabled(s, a) && c < |s.calls| && s.calls[c].status == Waiting
    requires Distinct(s) && Distinct(Step(s, a))
    ensures !Displaces(s, a, c)
  {
    var n := Step(s, a);
    if a.Register? && a.id == s.calls[c].id {
      assert InProgress(n, c) && InProgress(n, |s.calls|);
    }
    if a.Forget? && a.c != c && s.calls[a.c].id == s.calls[c].id {
      assert InProgress(s, c) && InProgress(s, a.c);
    }
  }

  /** While no two outstanding calls share an id, no waiting call is ever out of reach: a response
      with its id that is dispatched now goes to it, unless one already has. */
  lemma {:induction false} DistinctNeverLost(s: State, run: seq<Action>)
    requires Inv(s) && AllAttached(s) && IsRun(s, run) && DistinctThroughout(s, run)
    ensures AllAttached(After(s, run))
    decreases |run|
  {
    if run != [] {
      var a := run[0];
      assert Distinct(Step(s, a)) by { assert DistinctThroughout(Step(s, a), run[1..]); }
      StepAttaches(s, a);
      StepEntries(s, a);
      StepFlights(s, a);
      StepCalls(s, a);
      DistinctNeverLost(Step(s, a), run[1..]);
    }
  }

  lemma DispatchReaches(run: seq<Action>, c: nat, m: Message)
    requires IsRun(INITIAL, run) && DistinctThroughout(INITIAL, run)
    requires var s := After(INITIAL, run); c < |s.calls| && s.calls[c].status == Waiting && s.calls[c].id == m.id != ""
    ensures var s := After(INITIAL, run);
      s.calls[c].slot.Some? || exists f :: f in Step(s, Lookup(m)).flights && f.call == c
  {
    DistinctNeverLost(INITIAL, run);
    RunInv(INITIAL, run);
    var s := After(INITIAL, run);
    assert Attached(s, c);
    var n := Step(s, Lookup(m));
    if m.id in s.waiters && s.waiters[m.id] == c {
      assert Flight(c, m) in n.flights;
    } else if f :| f in s.flights && f.call == c {
      assert f in n.flights;
    }
  }

  /** With a repeated id a call can be cut off: the second caller takes the entry over, and the
      first one's deferred delete removes it. A response to the second is then dropped. */
  lemma RepeatedIdCutsOff(id: string, body: string)
    requires id != ""
    ensures var run := [Register(id), Register(id), Expire(0), Forget(0)];
      && IsRun(INITIAL, run)
      && var s := After(INITIAL, run);
         |s.calls| == 2 && s.calls[1].status == Waiting && !Attached(s, 1) && Step(s, Lookup(Message(id, body))) == s
  {
    var s1 := Step(INITIAL, Register(id));
    var s2 := Step(s1, Register(id));
    var s3 := Step(s2, Expire(0));
    var s4 := Step(s3, Forget(0));
    var run := [Register(id), Register(id), Expire(0), Forget(0)];
    assert run[1..] == [Register(id), Expire(0), Forget(0)];
    assert run[1..][1..] == [Expire(0), Forget(0)];
    assert run[1..][1..][1..] == [Forget(0)];
    assert run[1..][1..][1..][1..] == [];
    assert IsRun(s3, [Forget(0)]) && After(s3, [Forget(0)]) == s4;
    assert IsRun(s2, [Expire(0), Forget(0)]) && After(s2, [Expire(0), Forget(0)]) == s4;
    assert IsRun(s1, run[1..]) && After(s1, run[1..]) == s4;
    assert IsRun(INITIAL, run) && After(INITIAL, run) == s4;
  }

  // ---- the monitor's own methods ----

  /** The first message that carries the id, which is what a call made under it returns. */
  function FirstFor(id: string, arrivals: seq<Message>): Option<Message> {
    if arrivals == [] || id == "" then None
    else if arrivals[0].id == id then Some(arrivals[0])
    else FirstFor(id, arrivals[1..])
  }

  lemma {:induction false} FirstForAppend(id: string, before: seq<Message>, m: Message)
    ensures FirstFor(id, before + [m]) ==
            (if FirstFor(id, before).Some? then FirstFor(id, before)
             else if m.id == id != "" then Some(m) else None)
  {
    if before != [] {
      assert (before + [m])[1..] == before[1..] + [m];
      FirstForAppend(id, before[1..], m);
    }
  }

  /** The ids under which the arrivals are dispatched. */
  function Ids(arrivals: seq<Message>): set<string> {
    if arrivals == [] then {}
    else
      var m := arrivals[|arrivals| - 1];
      Ids(arrivals[..|arrivals| - 1]) + (if m.id == "" then {} else {m.id})
  }

  lemma {:induction false} IdsExactly(arrivals: seq<Message>, id: string)
    ensures id in Ids(arrivals) <==> id != "" && exists i :: 0 <= i < |arrivals| && arrivals[i].id == id
  {
    if arrivals != [] {
      var front := arrivals[..|arrivals| - 1];
      IdsExactly(front, id);
      assert forall i :: 0 <= i < |front| ==> front[i] == arrivals[i];
    }
  }

  lemma {:induction false} FirstForExactly(id: string, arrivals: seq<Message>, i: nat)
    requires i < |arrivals|
    ensures (forall k :: 0 <= k < |arrivals| ==> arrivals[k].id != id) || id == "" ==> FirstFor(id, arrivals) == None
    ensures id != "" && arrivals[i].id == id && (forall k :: 0 <= k < i ==> arrivals[k].id != id) ==>
              FirstFor(id, arrivals) == Some(arrivals[i])
  {
    assert forall k :: 0 <= k < |arrivals| - 1 ==> arrivals[1..][k] == arrivals[k + 1];
    if |arrivals| > 1 {
      FirstForExactly(id, arrivals[1..], if i > 0 then i - 1 else 0);
    }
  }

  lemma StepInv(s: State, a: Action)
    requires Inv(s) && Enabled(s, a)
    ensures Inv(Step(s, a))
  {
    StepEntries(s, a);
    StepFlights(s, a);
    StepCalls(s, a);
  }

  /** The waiter map, the channels and the sends under way; every method is one or more steps of the machine. */
  class ProbeMonitor {
    var waiters: map<string, nat>
    var calls: seq<Call>
    var flights: multiset<Flight>

    function View(): State
      reads this
    {
      State(waiters, calls, flights)
    }

    constructor ()
      ensures View() == INITIAL && Inv(View())
    {
      waiters, calls, flights := map[], [], multiset{};
    }

    method Register(id: string) returns (c: nat)
      requires Inv(View())
      modifies this
      ensures View() == Step(old(View()), Action.Register(id)) && Inv(View())
      ensures c == |old(calls)|
    {
      StepInv(View(), Action.Register(id));
      c := |calls|;
      calls := calls + [Call(id, Waiting, None, 0)];
      waiters := waiters[id := c];
    }

    method Lookup(data: Message) returns (flight: Option<Flight>)
      requires Inv(View())
      modifies this
      ensures View() == Step(old(View()), Action.Lookup(data)) && Inv(View())
      ensures flight.Some? <==> data.id != "" && data.id in old(waiters)
      ensures flight.Some? ==> flight.value == Flight(old(waiters)[data.id], data) && flight.value in flights
    {
      StepInv(View(), Action.Lookup(data));
      flight := None;
      if data.id == "" {
        return;
      }
      if data.id in waiters {
        flight := Some(Flight(waiters[data.id], data));
        waiters := waiters - {data.id};
        flights := flights + multiset{flight.value};
      }
    }

    /** Never waits: the slot is free whenever a send is under way. */
    method Send(flight: Flight)
      requires Inv(View()) && flight in flights
      modifies this
      ensures Enabled(old(View()), Action.Send(flight))
      ensures View() == Step(old(View()), Action.Send(flight)) && Inv(View())
    {
      StepInv(View(), Action.Send(flight));
      var call := calls[flight.call];
      calls := calls[flight.call := call.(slot := Some(flight.data), sends := call.sends + 1)];
      flights := flights - multiset{flight};
    }

    /** A dispatch nobody interrupts: the message lands in the channel registered under its id, or nowhere. */
    method DispatchProbeResponse(data: Message)
      requires Inv(View())
      modifies this
      ensures Inv(View()) && flights == old(flights) && |calls| == |old(calls)|
      ensures waiters == if data.id == "" then old(waiters) else old(waiters) - {data.id}
      ensures forall c :: 0 <= c < |calls| ==>
                calls[c] == (if data.id != "" && data.id in old(waiters) && old(waiters)[data.id] == c
                             then old(calls)[c].(slot := Some(data), sends := 1) else old(calls)[c])
      ensures data.id in old(waiters) ==> old(waiters)[data.id] < |calls| && calls[old(waiters)[data.id]].id == data.id
    {
      hide FlightsAlone, CallsSound;
      var flight := Lookup(data);
      if flight.Some? {
        Send(flight.value);
        assert flights == old(flights);
      }
    }

    method Receive(c: nat) returns (data: Message)
      requires Inv(View()) && Enabled(View(), Action.Receive(c))
      modifies this
      ensures View() == Step(old(View()), Action.Receive(c)) && Inv(View())
      ensures Some(data) == old(calls)[c].slot && data.id == calls[c].id
    {
      StepInv(View(), Action.Receive(c));
      data := calls[c].slot.value;
      calls := calls[c := calls[c].(status := Answered(data), slot := None)];
    }

    method Expire(c: nat)
      requires Inv(View()) && Enabled(View(), Action.Expire(c))
      modifies this
      ensures View() == Step(old(View()), Action.Expire(c)) && Inv(View())
    {
      StepInv(View(), Action.Expire(c));
      calls := calls[c := calls[c].(status := TimedOut)];
    }

    method Forget(c: nat)
      requires Inv(View()) && Enabled(View(), Action.Forget(c))
      modifies this
      ensures View() == Step(old(View()), Action.Forget(c)) && Inv(View())
    {
      StepInv(View(), Action.Forget(c));
      waiters := waiters - {calls[c].id};
      calls := calls[c := calls[c].(status := Over)];
    }

    /** Dispatches the arrivals one after another while call `c` waits. */
    method DispatchAll(c: nat, arrivals: seq<Message>)
      requires Inv(View()) && c < |calls| && calls[c].status == Waiting && calls[c].slot.None?
      requires calls[c].id in waiters && waiters[calls[c].id] == c
      modifies this
      ensures Inv(View()) && |calls| == |old(calls)|
      ensures calls[c].id == old(calls)[c].id && calls[c].status == Waiting
      ensures calls[c].slot == FirstFor(calls[c].id, arrivals)
      ensures waiters == old(waiters) - Ids(arrivals)
    {
      hide EntriesInProgress, FlightsAlone, CallsSound;
      var id := calls[c].id;
      for i := 0 to |arrivals|
        invariant Inv(View()) && |calls| == |old(calls)|
        invariant calls[c].id == id && calls[c].status == Waiting && calls[c].slot == FirstFor(id, arrivals[..i])
        invariant calls[c].slot.None? ==> id in waiters && waiters[id] == c
        invariant waiters == old(waiters) - Ids(arrivals[..i])
        invariant calls[c].slot.Some? ==> id in Ids(arrivals[..i])
      {
        FirstForAppend(id, arrivals[..i], arrivals[i]);
        assert arrivals[..i + 1] == arrivals[..i] + [arrivals[i]];
        DispatchProbeResponse(arrivals[i]);
      }
      assert arrivals[..|arrivals|] == arrivals;
    }

    /** One call from registration to deferred delete, while `arrivals` are dispatched before its
        timer fires: it returns the first response under its id, or times out if there is none.
        Of the other entries exactly those the arrivals name are gone. */
    method WaitForProbeResponse(id: string, arrivals: seq<Message>) returns (data: Option<Message>)
      requires Inv(View())
      modifies this
      ensures Inv(View())
      ensures data == FirstFor(id, arrivals)
      ensures waiters == old(waiters) - Ids(arrivals) - {id}
      ensures |calls| == |old(calls)| + 1 && calls[|old(calls)|].status == Over
    {
      hide EntriesInProgress, FlightsAlone, CallsSound;
      var c := Register(id);
      DispatchAll(c, arrivals);
      if calls[c].slot.Some? {
        var answer := Receive(c);
        data := Some(answer);
      } else {
        Expire(c);
        data := None;
      }
      Forget(c);
    }
  }
}

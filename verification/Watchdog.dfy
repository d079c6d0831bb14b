/** The heartbeat watchdog: feeds against periodic ticks, with a latch so that one
    silence raises one alarm. Times are in an arbitrary unit. */
module Watchdog {
  import opened Common

  type Time = int

  /** What happens to a running watchdog, in the order in which its mutex sees it. */
  datatype Event = Feed(at: Time) | Tick(at: Time)

  const DEFAULT_TIMEOUT: Time := 60_000_000_000

  function EffectiveTimeout(requested: Time): Time {
    if requested <= 0 then DEFAULT_TIMEOUT else requested
  }

  // ---- the loop, one event at a time ----

  datatype State = State(lastFeed: Option<Time>, expired: bool)

  function Overdue(timeout: Time, s: State, now: Time): bool {
    s.lastFeed.Some? && now - s.lastFeed.value > timeout
  }

  function Next(timeout: Time, s: State, e: Event): State {
    match e
    case Feed(at) => s.(lastFeed := Some(at))
    case Tick(at) => if s.lastFeed.None? then s else s.(expired := Overdue(timeout, s, at))
  }

  /** The state after the first `n` events. */
  function After(timeout: Time, events: seq<Event>, n: nat): State
    requires n <= |events|
  {
    if n == 0 then State(None, false) else Next(timeout, After(timeout, events, n - 1), events[n - 1])
  }

  /** Event `i` makes the watchdog call `onExpire`. */
  predicate Fires(timeout: Time, events: seq<Event>, i: nat)
    requires i < |events|
  {
    var s := After(timeout, events, i);
    events[i].Tick? && Overdue(timeout, s, events[i].at) && !s.expired
  }

  class Watchdog {
    const timeout: Time
    var lastFeed: Option<Time>

    constructor (requested: Time)
      ensures requested > 0 ==> timeout == requested
      ensures requested <= 0 ==> timeout == 60_000_000_000
      ensures lastFeed == None
    {
      timeout := EffectiveTimeout(requested);
      lastFeed := None;
    }

    method FeedNow(now: Time)
      modifies this`lastFeed
      ensures lastFeed == Some(now)
    {
      lastFeed := Some(now);
    }

    /** What the loop does on one tick, given its latch: whether it calls `onExpire`, and the latch after. */
    method Check(now: Time, expired: bool) returns (fire: bool, latch: bool)
      ensures State(lastFeed, latch) == Next(timeout, State(lastFeed, expired), Tick(now))
      ensures fire <==> Overdue(timeout, State(lastFeed, expired), now) && !expired
    {
      fire, latch := false, expired;
      if lastFeed.None? {
        return; // never fed, nothing to watch
      }
      if now - lastFeed.value > timeout {
        if !expired {
          latch := true;
          fire := true;
        }
      } else {
        latch := false;
      }
    }

    /** The check loop, with the feeds that other goroutines make between its ticks, until `done`
        is closed after the last event. Returns which events called `onExpire`, in order. */
    method Run(events: seq<Event>) returns (fired: seq<nat>)
      requires lastFeed == None
      modifies this`lastFeed
      ensures forall i: nat :: i in fired <==> i < |events| && Fires(timeout, events, i)
      ensures forall a, b :: 0 <= a < b < |fired| ==> fired[a] < fired[b]
      ensures lastFeed == After(timeout, events, |events|).lastFeed
    {
      var expired := false;
      fired := [];
      for n := 0 to |events|
        invariant State(lastFeed, expired) == After(timeout, events, n)
        invariant forall i: nat :: i in fired <==> i < n && Fires(timeout, events, i)
        invariant forall a, b :: 0 <= a < b < |fired| ==> fired[a] < fired[b]
      {
        assert Fires(timeout, events, n) <==>
          events[n].Tick? && Overdue(timeout, State(lastFeed, expired), events[n].at) && !expired;
        ghost var before := fired;
        match events[n]
        case Feed(at) => FeedNow(at);
        case Tick(at) =>
          var fire;
          fire, expired := Check(at, expired);
          if fire {
            assert forall a :: 0 <= a < |fired| ==> fired[a] in fired;
            fired := fired + [n];
            assert forall i :: i in fired <==> i in before || i == n;
          }
      }
    }
  }

  // ---- what a tick can see, from the history alone ----

  function LastFeed(events: seq<Event>, i: nat): (r: Option<nat>)
    requires i <= |events|
    ensures r.Some? ==> r.value < i && events[r.value].Feed? && forall k :: r.value < k < i ==> events[k].Tick?
    ensures r.None? ==> forall k :: 0 <= k < i ==> events[k].Tick?
  {
    if i == 0 then None else if events[i - 1].Feed? then Some(i - 1) else LastFeed(events, i - 1)
  }

  function LastTick(events: seq<Event>, i: nat): (r: Option<nat>)
    requires i <= |events|
    ensures r.Some? ==> r.value < i && events[r.value].Tick? && forall k :: r.value < k < i ==> events[k].Feed?
    ensures r.None? ==> forall k :: 0 <= k < i ==> events[k].Feed?
  {
    if i == 0 then None else if events[i - 1].Tick? then Some(i - 1) else LastTick(events, i - 1)
  }

  /** Event `i` is a tick that finds the last heartbeat more than `timeout` old. */
  predicate Late(timeout: Time, events: seq<Event>, i: nat)
    requires i < |events|
  {
    var f := LastFeed(events, i);
    events[i].Tick? && f.Some? && events[i].at - events[f.value].at > timeout
  }

  lemma {:induction false} StateIsHistory(timeout: Time, events: seq<Event>, n: nat)
    requires n <= |events|
    ensures var s, f, t := After(timeout, events, n), LastFeed(events, n), LastTick(events, n);
      && s.lastFeed == (if f.None? then None else Some(events[f.value].at))
      && (s.expired <==> t.Some? && Late(timeout, events, t.value))
  {
    if n > 0 {
      StateIsHistory(timeout, events, n - 1);
    }
  }

  /** The latch turns lateness into edges: a tick fires exactly when it is late and the tick before it was not. */
  lemma FiresOnEdge(timeout: Time, events: seq<Event>, i: nat)
    requires i < |events|
    ensures Fires(timeout, events, i) <==>
      Late(timeout, events, i) && (LastTick(events, i).Some? ==> !Late(timeout, events, LastTick(events, i).value))
  {
    StateIsHistory(timeout, events, i);
  }

  lemma NeverBeforeFirstFeed(timeout: Time, events: seq<Event>, i: nat)
    requires i < |events| && forall k :: 0 <= k < i ==> events[k].Tick?
    ensures !Fires(timeout, events, i)
  {
    FiresOnEdge(timeout, events, i);
  }

  // ---- gaps between feeds, ticks delayed at will ----

  ghost predicate Ordered(events: seq<Event>) {
    forall i, j :: 0 <= i <= j < |events| ==> events[i].at <= events[j].at
  }

  /** `i` lies in the gap that the feed `f` opens: `f` is the last feed before it. */
  predicate InGap(events: seq<Event>, f: nat, i: nat) {
    f < i < |events| && events[i].Tick? && LastFeed(events, i) == Some(f)
  }

  /** Within a gap lateness is for good. */
  lemma LateStays(timeout: Time, events: seq<Event>, f: nat, i: nat, k: nat)
    requires Ordered(events) && InGap(events, f, i) && InGap(events, f, k) && i <= k
    requires Late(timeout, events, i)
    ensures Late(timeout, events, k)
  {
  }

  lemma TickBetween(events: seq<Event>, f: nat, i: nat, k: nat)
    requires InGap(events, f, i) && InGap(events, f, k) && i < k
    ensures LastTick(events, k).Some? && i <= LastTick(events, k).value && InGap(events, f, LastTick(events, k).value)
  {
    var j := LastTick(events, k).value;
    SameGap(events, f, j, k);
  }

  lemma {:induction false} SameGap(events: seq<Event>, f: nat, j: nat, k: nat)
    requires f < j <= k < |events| && LastFeed(events, k) == Some(f)
    ensures LastFeed(events, j) == Some(f)
    decreases k
  {
    if j < k {
      SameGap(events, f, j, k - 1);
    }
  }

  /** However late the ticks come, a gap raises at most one alarm. */
  lemma AtMostOncePerGap(timeout: Time, events: seq<Event>, f: nat, i: nat, k: nat)
    requires Ordered(events) && InGap(events, f, i) && InGap(events, f, k)
    requires Fires(timeout, events, i) && Fires(timeout, events, k)
    ensures i == k
  {
    var lo, hi := if i <= k then i else k, if i <= k then k else i;
    FiresOnEdge(timeout, events, lo);
    FiresOnEdge(timeout, events, hi);
    if lo < hi {
      TickBetween(events, f, lo, hi);
      LateStays(timeout, events, f, lo, LastTick(events, hi).value);
    }
  }

  /** Two alarms are more than the timeout apart. */
  lemma FiringsApart(timeout: Time, events: seq<Event>, i: nat, k: nat)
    requires Ordered(events) && i < k < |events|
    requires Fires(timeout, events, i) && Fires(timeout, events, k)
    ensures events[k].at - events[i].at > timeout
  {
    FiresOnEdge(timeout, events, i);
    FiresOnEdge(timeout, events, k);
    var f := LastFeed(events, k).value;
    if f < i {
      SameGap(events, f, i, k);
      AtMostOncePerGap(timeout, events, f, i, k);
    }
    assert events[i].at <= events[f].at;
  }

  /** The gap after feed `f` is entered with the latch set: the last tick before it was late. */
  predicate EnteredLatched(timeout: Time, events: seq<Event>, f: nat)
    requires f < |events|
  {
    var t := LastTick(events, f);
    t.Some? && Late(timeout, events, t.value)
  }

  ghost predicate GapFires(timeout: Time, events: seq<Event>, f: nat) {
    exists i :: InGap(events, f, i) && Fires(timeout, events, i)
  }

  ghost predicate GapLate(timeout: Time, events: seq<Event>, f: nat) {
    exists i :: InGap(events, f, i) && Late(timeout, events, i)
  }

  ghost predicate GapRearmed(timeout: Time, events: seq<Event>, f: nat) {
    exists i :: InGap(events, f, i) && !Late(timeout, events, i)
  }

  lemma {:induction false} FirstLate(timeout: Time, events: seq<Event>, f: nat, i: nat) returns (k: nat)
    requires InGap(events, f, i) && Late(timeout, events, i)
    ensures k <= i && InGap(events, f, k) && Late(timeout, events, k)
    ensures forall j: nat :: j < k && InGap(events, f, j) ==> !Late(timeout, events, j)
    decreases i
  {
    if j :| 0 <= j < i && InGap(events, f, j) && Late(timeout, events, j) {
      k := FirstLate(timeout, events, f, j);
    } else {
      k := i;
    }
  }

  lemma TickBeforeGap(events: seq<Event>, f: nat, k: nat)
    requires InGap(events, f, k) && events[f].Feed?
    requires forall j: nat :: j < k ==> !InGap(events, f, j)
    ensures LastTick(events, k) == LastTick(events, f)
  {
    SameGap(events, f, f + 1, k);
    assert InGap(events, f, f + 1);
    assert k == f + 1;
  }

  /** With ticks delayed at will, a gap raises its alarm exactly when some tick in it is late and
      the latch was clear: clear on entry, or cleared by a tick of the gap that was still in time. */
  lemma GapFiresIff(timeout: Time, events: seq<Event>, f: nat)
    requires Ordered(events) && f < |events| && events[f].Feed?
    ensures GapFires(timeout, events, f) <==>
      GapLate(timeout, events, f) && (!EnteredLatched(timeout, events, f) || GapRearmed(timeout, events, f))
  {
    if GapLate(timeout, events, f) {
      var i :| InGap(events, f, i) && Late(timeout, events, i);
      var k := FirstLate(timeout, events, f, i);
      FiresOnEdge(timeout, events, k);
      if j :| 0 <= j < k && InGap(events, f, j) {
        TickBetween(events, f, j, k);
        assert Fires(timeout, events, k);
      } else {
        TickBeforeGap(events, f, k);
        OnlyFirstLateFires(timeout, events, f, k);
        forall j | InGap(events, f, j) ensures Late(timeout, events, j) {
          LateStays(timeout, events, f, k, j);
        }
      }
    } else if GapFires(timeout, events, f) {
      var i :| InGap(events, f, i) && Fires(timeout, events, i);
      FiresOnEdge(timeout, events, i);
      assert false;
    }
  }

  lemma OnlyFirstLateFires(timeout: Time, events: seq<Event>, f: nat, k: nat)
    requires Ordered(events) && InGap(events, f, k) && Late(timeout, events, k)
    requires forall j: nat :: j < k ==> !InGap(events, f, j)
    ensures forall i :: InGap(events, f, i) && Fires(timeout, events, i) ==> i == k
  {
    forall i | InGap(events, f, i) && Fires(timeout, events, i) ensures i == k {
      FiresOnEdge(timeout, events, i);
      if k < i {
        TickBetween(events, f, k, i);
        LateStays(timeout, events, f, k, LastTick(events, i).value);
      }
    }
  }

  /** Delayed ticks can swallow an alarm: a heartbeat comes back, stops again, and no tick
      happens to look while it is fresh. */
  lemma SwallowedAlarm(timeout: Time)
    requires timeout > 0
    ensures var events := [Feed(0), Tick(timeout + 1), Feed(timeout + 2), Tick(2 * timeout + 3)];
      && Ordered(events) && GapLate(timeout, events, 2) && !GapFires(timeout, events, 2)
  {
    var events := [Feed(0), Tick(timeout + 1), Feed(timeout + 2), Tick(2 * timeout + 3)];
    assert LastFeed(events, 1) == Some(0) && LastFeed(events, 2) == Some(0) && LastFeed(events, 3) == Some(2);
    assert LastTick(events, 3) == Some(1) && LastTick(events, 2) == Some(1);
    assert InGap(events, 2, 3) && Late(timeout, events, 3);
    FiresOnEdge(timeout, events, 3);
    forall i | InGap(events, 2, i) ensures !Fires(timeout, events, i) {
      assert i == 3;
    }
  }

  // ---- ticks at the ticker's own period ----

  /** Every tick comes one period after the one before it, and the first at most one period after
      anything else happened. */
  ghost predicate Punctual(timeout: Time, events: seq<Event>) {
    forall i :: 0 <= i < |events| && events[i].Tick? ==>
      var t := LastTick(events, i);
      if t.Some? then events[i].at == events[t.value].at + timeout / 4
      else events[i].at <= events[0].at + timeout / 4
  }

  /** With punctual ticks the alarm is raised in exactly those gaps in which some tick is late:
      every feed re-arms the watchdog. */
  lemma PunctualGapFiresIff(timeout: Time, events: seq<Event>, f: nat)
    requires timeout >= 4 && Ordered(events) && Punctual(timeout, events)
    requires f < |events| && events[f].Feed?
    ensures GapFires(timeout, events, f) <==> GapLate(timeout, events, f)
  {
    GapFiresIff(timeout, events, f);
    if GapLate(timeout, events, f) && !GapRearmed(timeout, events, f) {
      var i :| InGap(events, f, i) && Late(timeout, events, i);
      var k := FirstLate(timeout, events, f, i);
      PunctualLate(timeout, events, f, k);
    }
  }

  /** A first late tick has a tick in time before it, in the same gap. */
  lemma PunctualLate(timeout: Time, events: seq<Event>, f: nat, k: nat)
    requires timeout >= 4 && Ordered(events) && Punctual(timeout, events)
    requires InGap(events, f, k) && Late(timeout, events, k)
    requires forall j: nat :: j < k && InGap(events, f, j) ==> !Late(timeout, events, j)
    ensures LastTick(events, k).Some? && InGap(events, f, LastTick(events, k).value)
    ensures events[k].at - events[f].at <= timeout + timeout / 4
  {
    hide LastFeed, LastTick;
    var t := LastTick(events, k);
    if t.Some? && f < t.value {
      SameGap(events, f, t.value, k);
    }
  }

  /** The alarm comes more than the timeout, and at most the timeout and one period, after the last heartbeat. */
  lemma PunctualLatency(timeout: Time, events: seq<Event>, f: nat, k: nat)
    requires timeout >= 4 && Ordered(events) && Punctual(timeout, events)
    requires InGap(events, f, k) && Fires(timeout, events, k)
    ensures timeout < events[k].at - events[f].at <= timeout + timeout / 4
  {
    FiresOnEdge(timeout, events, k);
    forall j: nat | j < k && InGap(events, f, j) ensures !Late(timeout, events, j) {
      TickBetween(events, f, j, k);
      if Late(timeout, events, j) {
        LateStays(timeout, events, f, j, LastTick(events, k).value);
      }
    }
    PunctualLate(timeout, events, f, k);
  }

  /** The first tick after feed `f` that lies beyond the timeout. */
  lemma {:induction false} FirstBeyond(timeout: Time, events: seq<Event>, f: nat, i: nat) returns (k: nat)
    requires f < i < |events| && events[i].Tick? && events[i].at - events[f].at > timeout
    ensures f < k <= i && events[k].Tick? && events[k].at - events[f].at > timeout
    ensures forall j :: f < j < k && events[j].Tick? ==> events[j].at - events[f].at <= timeout
    decreases i
  {
    if j :| f < j < i && events[j].Tick? && events[j].at - events[f].at > timeout {
      k := FirstBeyond(timeout, events, f, j);
    } else {
      k := i;
    }
  }

  /** Ticks are dense enough to see an age of at most the timeout and one period first. */
  lemma BeyondSoon(timeout: Time, events: seq<Event>, f: nat, k: nat)
    requires timeout >= 4 && Ordered(events) && Punctual(timeout, events)
    requires f < k < |events| && events[k].Tick?
    requires forall j :: f < j < k && events[j].Tick? ==> events[j].at - events[f].at <= timeout
    ensures events[k].at - events[f].at <= timeout + timeout / 4
  {
    var t := LastTick(events, k);
    hide LastTick;
    if t.Some? {
      assert events[k].at == events[t.value].at + timeout / 4;
      assert t.value <= f ==> events[t.value].at <= events[f].at;
    } else {
      assert events[0].at <= events[f].at;
    }
  }

  /** Nothing but ticks comes between a feed and an event within the silence after it. */
  lemma OnlyTicks(events: seq<Event>, f: nat, k: nat, silence: Time)
    requires Ordered(events) && f < k < |events| && events[k].at - events[f].at <= silence
    requires forall j :: f < j < |events| && events[j].Feed? ==> events[j].at - events[f].at > silence
    ensures forall j :: f < j <= k ==> events[j].Tick?
  {
    forall j | f < j <= k ensures events[j].Tick? {
      assert events[j].at <= events[k].at;
    }
  }

  lemma LateInGap(timeout: Time, events: seq<Event>, f: nat, k: nat)
    requires f < k < |events| && events[f].Feed? && (forall j :: f < j <= k ==> events[j].Tick?)
    requires events[k].at - events[f].at > timeout
    ensures InGap(events, f, k) && Late(timeout, events, k)
  {
  }

  /** With punctual ticks a silence of the timeout and one period raises the alarm, if the watchdog
      still runs by then: no feed comes within it, and some tick lies beyond the timeout. */
  lemma SilenceRaises(timeout: Time, events: seq<Event>, f: nat, i: nat)
    requires timeout >= 4 && Ordered(events) && Punctual(timeout, events)
    requires f < i < |events| && events[f].Feed? && events[i].Tick? && events[i].at - events[f].at > timeout
    requires forall j :: f < j < |events| && events[j].Feed? ==> events[j].at - events[f].at > timeout + timeout / 4
    ensures GapFires(timeout, events, f)
  {
    hide Punctual, Ordered, Late, InGap, GapFires, LastFeed, LastTick;
    var k := FirstBeyond(timeout, events, f, i);
    BeyondSoon(timeout, events, f, k);
    OnlyTicks(events, f, k, timeout + timeout / 4);
    LateInGap(timeout, events, f, k);
    PunctualGapFiresIff(timeout, events, f);
  }
}

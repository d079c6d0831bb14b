/** The run function of a device, with its poll loop and its stack of deferred calls. Its ghost state
    records it as a run of the machine in `DeviceLifecycle`, so what is proved there holds of it. */
module ManagedDevice {
  import opened Common
  import opened DeviceLifecycle

  /** What happens to one generation: the errors of its steps, whether the retry delay is cut short,
      the results of its polls, and whether the stop comes in the wait after the last of them. */
  datatype World = World(find: Option<string>, connect: Option<string>, retryCancelled: bool, init: Option<string>,
                         load: Option<string>, polls: seq<Poll>, stopInWait: bool)

  /** A generation that starts when the device is already cancelled does not retry and does not poll. */
  function Under(cancelled: bool, world: World): World {
    if cancelled then world.(retryCancelled := true, polls := []) else world
  }

  predicate Possible(world: World) {
    forall p :: p in world.polls ==> Converts(p)
  }

  function StopExit(polls: seq<Poll>, stopInWait: bool): Exit {
    if polls == [] || !stopInWait then StoppedPolling else if Up(polls) then StoppedAsleep else StoppedBackingOff
  }

  function ExitOf(world: World): Exit {
    if world.find.Some? then DriverMissing
    else if world.connect.Some? then (if world.retryCancelled then RetryCancelled else HandedOver)
    else if world.init.Some? then InitFailed
    else if world.load.Some? then LoadFailed
    else StopExit(world.polls, world.stopInWait)
  }

  /** The error the status shows when the generation has returned. */
  function FinalErr(world: World): string {
    if world.find.Some? then world.find.value
    else if world.connect.Some? then world.connect.value
    else if world.init.Some? then world.init.value
    else if world.load.Some? then world.load.value
    else LastErr(world.polls)
  }

  /** After each poll the wait that the polls so far demand. */
  predicate WaitsFor(waits: seq<int>, polls: seq<Poll>) {
    |waits| == |polls| && forall i :: 0 <= i < |polls| ==> waits[i] == Wait(polls[..i + 1])
  }

  /** The pace, poll by poll: a minute after ten failures in a row, ten seconds after fewer; after a good
      poll what the last accepted poll asked for, 5 seconds before there is one. */
  predicate PacedBy(waits: seq<int>, polls: seq<Poll>) {
    && |waits| == |polls|
    && (forall k :: 0 <= k < |polls| && polls[k].Failed? ==>
          waits[k] == if k >= 9 && (forall i :: k - 9 <= i <= k ==> polls[i].Failed?) then 60 * SECOND else 10 * SECOND)
    && (forall k, i :: 0 <= i <= k < |polls| && !polls[k].Failed? && LastAccepted(polls, i, k) ==>
          waits[k] == NewInterval(polls[i]).value)
    && (forall k :: 0 <= k < |polls| && !polls[k].Failed? && (forall i :: 0 <= i <= k ==> NewInterval(polls[i]).None?)
          ==> waits[k] == 5 * SECOND)
  }

  /** Of the polls up to the `k`-th, the `i`-th is the last whose request is accepted. */
  predicate LastAccepted(polls: seq<Poll>, i: nat, k: nat)
    requires i <= k < |polls|
  {
    NewInterval(polls[i]).Some? && forall j :: i < j <= k ==> NewInterval(polls[j]).None?
  }

  lemma WaitsPaced(waits: seq<int>, polls: seq<Poll>)
    requires WaitsFor(waits, polls)
    ensures PacedBy(waits, polls)
  {
    hide Wait, NewInterval;
    forall k | 0 <= k < |polls|
      ensures polls[k].Failed? ==>
                waits[k] == if k >= 9 && (forall i :: k - 9 <= i <= k ==> polls[i].Failed?) then 60 * SECOND
                            else 10 * SECOND
      ensures !polls[k].Failed? ==> forall i :: 0 <= i <= k && LastAccepted(polls, i, k) ==>
                waits[k] == NewInterval(polls[i]).value
      ensures !polls[k].Failed? && (forall i :: 0 <= i <= k ==> NewInterval(polls[i]).None?) ==>
                waits[k] == 5 * SECOND
    {
      WaitAfter(polls, k);
    }
  }

  lemma WaitAfter(polls: seq<Poll>, k: nat)
    requires k < |polls|
    ensures polls[k].Failed? ==>
              Wait(polls[..k + 1]) ==
              if k >= 9 && (forall i :: k - 9 <= i <= k ==> polls[i].Failed?) then 60 * SECOND else 10 * SECOND
    ensures !polls[k].Failed? ==> forall i :: 0 <= i <= k && LastAccepted(polls, i, k) ==>
              Wait(polls[..k + 1]) == NewInterval(polls[i]).value
    ensures !polls[k].Failed? && (forall i :: 0 <= i <= k ==> NewInterval(polls[i]).None?) ==>
              Wait(polls[..k + 1]) == 5 * SECOND
  {
    hide Wait, NewInterval;
    var history := polls[..k + 1];
    if polls[k].Failed? {
      WaitAfterFailures(history);
      assert forall i :: 0 <= i <= k ==> history[i] == polls[i];
    } else {
      WaitAfterSuccess(history);
      forall i | 0 <= i <= k && LastAccepted(polls, i, k)
        ensures Wait(history) == NewInterval(polls[i]).value
      {
        assert history[i] == polls[i];
        assert forall j :: i < j < |history| ==> history[j] == polls[j];
      }
    }
  }

  lemma WaitsGrow(waits: seq<int>, wait: int, polls: seq<Poll>, p: Poll)
    requires WaitsFor(waits, polls) && wait == Wait(polls + [p])
    ensures WaitsFor(waits + [wait], polls + [p])
  {
    hide Wait;
    forall i | 0 <= i < |polls| ensures (waits + [wait])[i] == Wait((polls + [p])[..i + 1]) {
      assert (polls + [p])[..i + 1] == polls[..i + 1];
    }
    assert (polls + [p])[..|polls| + 1] == polls + [p];
  }

  /** What the outcome of a generation says of the world it ran in, and the error that is left. */
  lemma OutcomeExactly(cancelled: bool, world: World)
    ensures var exit, err := ExitOf(Under(cancelled, world)), FinalErr(Under(cancelled, world));
      var polled := !cancelled && world.polls != [];
      var up := world.find.None? && world.connect.None? && world.init.None? && world.load.None?;
      && (exit.DriverMissing? <==> world.find.Some?)
      && (exit.HandedOver? <==> world.find.None? && world.connect.Some? && !world.retryCancelled && !cancelled)
      && (exit.RetryCancelled? <==> world.find.None? && world.connect.Some? && (world.retryCancelled || cancelled))
      && (exit.InitFailed? <==> world.find.None? && world.connect.None? && world.init.Some?)
      && (exit.LoadFailed? <==> world.find.None? && world.connect.None? && world.init.None? && world.load.Some?)
      && (exit.StoppedPolling? <==> up && !(polled && world.stopInWait))
      && (exit.StoppedBackingOff? <==>
          up && polled && world.stopInWait && world.polls[|world.polls| - 1].Failed?)
      && (exit.StoppedAsleep? <==>
          up && polled && world.stopInWait && !world.polls[|world.polls| - 1].Failed?)
      && (!up ==> Some(err) == if world.find.Some? then world.find else if world.connect.Some? then world.connect
                               else if world.init.Some? then world.init else world.load)
      && (up ==> err == if polled && world.polls[|world.polls| - 1].Failed? then world.polls[|world.polls| - 1].err
                        else "")
  {
  }

  class ManagedDevice {
    var connected: bool
    var lastErr: string
    /** Of the context the generations share. */
    var cancelled: bool
    ghost var run: seq<Action>
    ghost var device: Device

    /** `run` leads to `device`, whose last generation is `gen`. */
    ghost predicate At(gen: Generation)
      reads `run, `device
    {
      After(run) == Some(device) && device.gens != [] && device.gens[|device.gens| - 1] == gen
    }

    /** The fields are what the machine shows its readers. */
    ghost predicate Shown()
      reads this
    {
      connected == device.connected && lastErr == device.lastErr && cancelled == device.cancelled
    }

    constructor ()
      ensures At(FRESH) && Shown() && device == INITIAL
    {
      connected, lastErr, cancelled, run, device := false, "", false, [], INITIAL;
    }

    lemma Reached(gen: Generation)
      requires At(gen)
      ensures StackOk(gen)
    {
      RunInv(run);
      LastOk(device.gens);
    }

    ghost method Do(e: Event, gen: Generation)
      requires At(gen) && EventEnabled(device, gen, e) && !e.RetryTimer?
      modifies `run, `device
      ensures At(Advance(gen, e)) && |device.gens| == old(|device.gens|) && device.cancelled == old(device.cancelled)
      ensures (device.connected, device.lastErr) ==
              StatusAfter(old(device.connected), old(device.lastErr), gen.phase, e)
    {
      var a := Act(|device.gens| - 1, e);
      run, device := Take(run, device, a);
    }

    ghost method CancelNow(gen: Generation)
      requires At(gen)
      modifies `run, `device
      ensures At(gen) && device == old(device).(cancelled := true)
    {
      run, device := Take(run, device, Cancel);
    }

    ghost method StartNext(gen: Generation)
      requires At(gen) && gen.phase == Retrying
      modifies `run, `device
      ensures At(FRESH) && |device.gens| == old(|device.gens|) + 1
      ensures device.connected == old(device.connected) && device.lastErr == old(device.lastErr)
      ensures device.cancelled == old(device.cancelled)
      ensures device.gens[|device.gens| - 2] == gen.(phase := Leaving(HandedOver))
    {
      run, device := Take(run, device, Act(|device.gens| - 1, RetryTimer));
    }

    /** In the loop, after the polls of `history`. */
    ghost predicate InLoop(gen: Generation, phase: Phase, history: seq<Poll>)
      reads this
    {
      && At(gen) && Shown() && gen.phase == phase && gen.history == history
      && gen.interval == Interval(history) && gen.errors == Errors(history)
      && connected == Up(history) && lastErr == LastErr(history)
    }

    /** One pass through the loop, up to its wait. */
    method PollOnce(p: Poll, interval: int, consecutiveErrors: nat, ghost history: seq<Poll>, ghost gen: Generation)
      returns (nextInterval: int, nextErrors: nat, wait: int, ghost end: Generation)
      requires InLoop(gen, Polling, history) && !cancelled && Converts(p)
      requires gen.interval == interval && gen.errors == consecutiveErrors
      modifies this
      ensures InLoop(end, if p.Failed? then BackingOff else Asleep, history + [p])
      ensures |device.gens| == old(|device.gens|) && !cancelled
      ensures end.defers == gen.defers && end.released == gen.released
      ensures end.interval == nextInterval && end.errors == nextErrors
      ensures wait == Wait(history + [p])
      ensures !p.Failed? ==> wait == if NewInterval(p).Some? then NewInterval(p).value else interval
      ensures p.Failed? ==> wait == if consecutiveErrors >= 9 then 60 * SECOND else 10 * SECOND
    {
      HistoryGrows(history, p);
      hide At, Interval, Errors, Converts, Up, LastErr;
      Do(Pass, gen);
      Do(Polled(p), Advance(gen, Pass));
      end := Advance(Advance(gen, Pass), Polled(p));
      nextInterval := interval;
      if p.Failed? {
        nextErrors := consecutiveErrors + 1;
        connected, lastErr := false, p.err;
        wait := if nextErrors >= 10 then 60 * SECOND else 10 * SECOND;
        return;
      }
      nextErrors := 0;
      connected, lastErr := true, "";
      if p.Number? && p.value > 0.0 {
        var newInterval := Wrap64(p.converted * 1_000_000);
        if 100 * MILLISECOND <= newInterval <= 60 * SECOND {
          nextInterval := newInterval;
        }
      }
      wait := nextInterval;
    }

    ghost method WakeUp(phase: Phase, history: seq<Poll>, gen: Generation) returns (end: Generation)
      requires InLoop(gen, phase, history) && (phase == BackingOff || phase == Asleep)
      modifies `run, `device
      ensures InLoop(end, Polling, history) && |device.gens| == old(|device.gens|)
      ensures end == gen.(phase := Polling)
    {
      Do(Wake, gen);
      end := Advance(gen, Wake);
    }

    /** The cancellation arrives, if it has not yet, and the loop notices it where it is. */
    method StopHere(exit: Exit, ghost phase: Phase, ghost history: seq<Poll>, ghost gen: Generation)
      returns (ghost end: Generation)
      requires InLoop(gen, phase, history)
      requires || (phase == Polling && exit == StoppedPolling)
               || (phase == BackingOff && exit == StoppedBackingOff && !Up(history))
               || (phase == Asleep && exit == StoppedAsleep && Up(history))
      modifies this
      ensures At(end) && Shown() && |device.gens| == old(|device.gens|)
      ensures end == Generation(Leaving(exit), gen.defers, gen.released, Interval(history), Errors(history), history)
      ensures connected == exit.StoppedAsleep? && lastErr == LastErr(history)
    {
      CancelNow(gen);
      cancelled := true;
      Do(Stop, gen);
      end := Advance(gen, Stop);
      if exit == StoppedPolling {
        connected := false;
      }
    }

    /** Polls until a cancellation is noticed, at the top of the loop or in the wait after the last poll;
        after each poll it waits as long as the polls so far demand. */
    method PollUntilStop(polls: seq<Poll>, stopInWait: bool, ghost start: Generation)
      returns (exit: Exit, waits: seq<int>, ghost phase: Phase, ghost end: Generation)
      requires InLoop(start, Polling, []) && (forall p :: p in polls ==> Converts(p))
      modifies this
      ensures |device.gens| == old(|device.gens|)
      ensures end.defers == start.defers && end.released == start.released
      ensures var done := if old(cancelled) then [] else polls;
        && InLoop(end, phase, done) && exit == StopExit(done, stopInWait) && WaitsFor(waits, done)
        && phase == (if exit == StoppedPolling then Polling else if exit == StoppedAsleep then Asleep else BackingOff)
    {
      EmptyHistory();
      assert start.interval == 5 * SECOND && start.errors == 0;
      hide At, Shown, InLoop, Wait, Converts, Interval, Errors, LastErr;
      var interval, consecutiveErrors := 5 * SECOND, 0;
      waits, end, phase := [], start, Polling;
      var i := 0;
      while i < |polls| && !cancelled
        invariant 0 <= i <= |polls| && cancelled == old(cancelled) && (cancelled ==> i == 0)
        invariant InLoop(end, Polling, polls[..i]) && |device.gens| == old(|device.gens|)
        invariant end.defers == start.defers && end.released == start.released
        invariant end.interval == interval && end.errors == consecutiveErrors
        invariant WaitsFor(waits, polls[..i])
        invariant i == |polls| ==> polls == [] || !stopInWait
      {
        var p := polls[i];
        assert polls[..i + 1] == polls[..i] + [p];
        var wait;
        interval, consecutiveErrors, wait, end := PollOnce(p, interval, consecutiveErrors, polls[..i], end);
        WaitsGrow(waits, wait, polls[..i], p);
        waits := waits + [wait];
        i := i + 1;
        phase := if p.Failed? then BackingOff else Asleep;
        if i == |polls| && stopInWait {
          assert polls[..i] == polls;
          exit := if p.Failed? then StoppedBackingOff else StoppedAsleep;
          return;
        }
        end := WakeUp(phase, polls[..i], end);
      }
      assert polls[..i] == if cancelled then [] else polls;
      exit, phase := StoppedPolling, Polling;
    }

    method PollLoop(polls: seq<Poll>, stopInWait: bool, ghost start: Generation)
      returns (exit: Exit, waits: seq<int>, ghost end: Generation)
      requires InLoop(start, Polling, []) && (forall p :: p in polls ==> Converts(p))
      modifies this
      ensures At(end) && Shown() && |device.gens| == old(|device.gens|)
      ensures var done := if old(cancelled) then [] else polls;
        && end == Generation(Leaving(exit), start.defers, start.released, Interval(done), Errors(done), done)
        && exit == StopExit(done, stopInWait)
        && WaitsFor(waits, done)
        && connected == exit.StoppedAsleep? && lastErr == LastErr(done)
    {
      hide At, Shown, InLoop, WaitsFor, Interval, Errors, LastErr;
      ghost var phase, done := Polling, if cancelled then [] else polls;
      exit, waits, phase, end := PollUntilStop(polls, stopInWait, start);
      end := StopHere(exit, phase, done, end);
    }

    /** Runs the deferred calls, the latest first. */
    method RunDefers(defers: seq<Resource>, ghost gen: Generation)
      returns (released: seq<Resource>, ghost end: Generation)
      requires At(gen) && Shown() && gen.phase.Leaving? && gen.defers == defers && gen.released == []
      modifies `run, `device
      ensures At(end) && Shown() && |device.gens| == old(|device.gens|)
      ensures end == gen.(defers := [], released := released)
      ensures |defers| == Depth(gen.phase) <= 4 && released == TEARDOWN[4 - |defers|..]
    {
      Reached(gen);
      var rest := defers;
      released, end := [], gen;
      while rest != []
        invariant At(end) && Shown() && |device.gens| == old(|device.gens|)
        invariant end == gen.(defers := rest, released := released) && StackOk(end)
        decreases |rest|
      {
        ReleaseStack(Depth(gen.phase), rest, released);
        Do(RunDefer, end);
        released, rest := released + [rest[|rest| - 1]], rest[..|rest| - 1];
        end := gen.(defers := rest, released := released);
      }
      assert TEARDOWN[4 - Depth(gen.phase)..4 - 0] == TEARDOWN[4 - Depth(gen.phase)..];
    }

    /** The driver is found and loaded into a VM behind its bridge, or the first error ends it. */
    method LoadDriver(world: World) returns (exit: Option<Exit>, defers: seq<Resource>, ghost gen: Generation)
      requires At(FRESH) && Shown() && !connected && world.connect.None?
      modifies this
      ensures At(gen) && Shown() && !connected && |device.gens| == old(|device.gens|)
      ensures device.cancelled == old(device.cancelled)
      ensures gen == FRESH.(phase := if exit.Some? then Leaving(exit.value) else Loaded, defers := defers)
      ensures exit.Some? <==> world.find.Some? || world.init.Some? || world.load.Some?
      ensures exit.Some? ==> exit.value == ExitOf(world) && lastErr == FinalErr(world)
      ensures exit.None? ==> defers == [Bridge, Vm]
    {
      hide At;
      gen, defers := FRESH, [];
      Do(Find(world.find), gen);
      if world.find.Some? {
        lastErr := world.find.value;
        gen := FRESH.(phase := Leaving(DriverMissing));
        return Some(DriverMissing), defers, gen;
      }
      gen := FRESH.(phase := Connecting);
      Do(Connect(None), gen);
      defers := defers + [Bridge];
      gen := FRESH.(phase := Bridged, defers := defers);
      Do(InitVm(world.init), gen);
      if world.init.Some? {
        lastErr := world.init.value;
        gen := FRESH.(phase := Leaving(InitFailed), defers := defers);
        return Some(InitFailed), defers, gen;
      }
      defers := defers + [Vm];
      gen := FRESH.(phase := Opened, defers := defers);
      Do(LoadSource(world.load), gen);
      if world.load.Some? {
        lastErr := world.load.value;
        gen := FRESH.(phase := Leaving(LoadFailed), defers := defers);
        return Some(LoadFailed), defers, gen;
      }
      gen := FRESH.(phase := Loaded, defers := defers);
      exit := None;
    }

    /** The device is connected, then its control subscriptions and their watchdogs start. */
    method GetReady(held: seq<Resource>, ghost start: Generation) returns (defers: seq<Resource>, ghost gen: Generation)
      requires At(start) && start == FRESH.(phase := Loaded, defers := held) && cancelled == device.cancelled
      modifies this
      ensures InLoop(gen, Polling, []) && |device.gens| == old(|device.gens|)
      ensures device.cancelled == old(device.cancelled)
      ensures gen.defers == defers && gen.released == []
    {
      hide At;
      EmptyHistory();
      Do(MarkConnected, start);
      connected, lastErr := true, "";
      gen := start.(phase := Ready);
      Do(Subscribe, gen);
      defers := held + [Watchdogs, Subscriptions];
      gen := start.(phase := Polling, defers := defers);
    }

    /** The connection fails: wait, then start a new generation, or give up if the device is or gets cancelled. */
    method RetryLoop(err: string, cancelledNow: bool) returns (exit: Exit, ghost end: Generation)
      requires At(FRESH) && Shown() && !connected
      modifies this
      ensures At(end) && Shown() && !connected && lastErr == err
      ensures cancelled == (old(cancelled) || cancelledNow)
      ensures exit == if cancelled then RetryCancelled else HandedOver
      ensures end == if cancelled then FRESH.(phase := Leaving(RetryCancelled)) else FRESH
      ensures |device.gens| == old(|device.gens|) + (if cancelled then 0 else 1)
    {
      end := FRESH;
      Do(Find(None), end);
      end := Advance(end, Find(None));
      Do(Connect(Some(err)), end);
      end := Advance(end, Connect(Some(err)));
      lastErr := err;
      if cancelledNow {
        CancelNow(end);
        cancelled := true;
      }
      if cancelled {
        Do(RetryCancel, end);
        end := Advance(end, RetryCancel);
        return RetryCancelled, end;
      }
      StartNext(end);
      exit, end := HandedOver, FRESH;
    }

    /** A generation whose connection succeeds, up to its return. */
    method RunConnected(world: World)
      returns (exit: Exit, defers: seq<Resource>, waits: seq<int>, ghost gen: Generation)
      requires At(FRESH) && Shown() && !connected && Possible(world)
      requires world.find.Some? || world.connect.None?
      modifies this
      ensures At(gen) && Shown() && gen.phase == Leaving(exit) && gen.defers == defers && gen.released == []
      ensures var w := Under(old(cancelled), world);
        && exit == ExitOf(w) && lastErr == FinalErr(w) && connected == exit.StoppedAsleep?
        && WaitsFor(waits, if PassedSetup(Leaving(exit)) then w.polls else [])
    {
      waits := [];
      assert WaitsFor(waits, []);
      hide At, WaitsFor, Up, LastErr, Converts;
      var early;
      early, defers, gen := LoadDriver(world.(connect := None));
      if early.Some? {
        exit := early.value;
        return;
      }
      defers, gen := GetReady(defers, gen);
      exit, waits, gen := PollLoop(world.polls, world.stopInWait, gen);
    }

    /** One generation from its start to its return, under a context that may be cancelled already. */
    method RunDevice(world: World)
      returns (exit: Exit, released: seq<Resource>, waits: seq<int>, ghost end: Generation)
      requires At(FRESH) && Shown() && !connected && Possible(world)
      modifies this
      ensures At(end) && Shown()
      ensures var w := Under(old(cancelled), world);
        && exit == ExitOf(w) && lastErr == FinalErr(w) && connected == exit.StoppedAsleep?
        && PacedBy(waits, if exit.StoppedPolling? || exit.StoppedBackingOff? || exit.StoppedAsleep? then w.polls
                          else [])
      ensures old(cancelled) ==> exit != HandedOver && waits == []
      ensures released == TEARDOWN[4 - Depth(Leaving(exit))..]
      ensures exit.HandedOver? ==> end == FRESH && cancelled == old(cancelled)
      ensures !exit.HandedOver? ==> end.phase == Leaving(exit) && end.defers == []
    {
      hide At, WaitsFor, Up, LastErr, Possible;
      if world.find.None? && world.connect.Some? {
        released, waits := [], [];
        exit, end := RetryLoop(world.connect.value, world.retryCancelled);
        assert PacedBy(waits, []);
        return;
      }
      ghost var gen;
      var defers;
      exit, defers, waits, gen := RunConnected(world);
      WaitsPaced(waits, if PassedSetup(Leaving(exit)) then Under(old(cancelled), world).polls else []);
      assert old(cancelled) ==> |waits| == 0;
      hide PacedBy;
      released, end := RunDefers(defers, gen);
    }

    /** Generation after generation, until one does not hand over. */
    method Manage(worlds: seq<World>) returns (served: nat, exit: Exit)
      requires At(FRESH) && Shown() && !connected
      requires worlds != [] && (forall w :: w in worlds ==> Possible(w))
      modifies this
      ensures Shown() && 1 <= served <= |worlds|
      ensures forall i :: 0 <= i < served - 1 ==> ExitOf(Under(old(cancelled), worlds[i])) == HandedOver
      ensures var last := Under(old(cancelled), worlds[served - 1]);
        && exit == ExitOf(last) && (served < |worlds| ==> exit != HandedOver)
        && connected == exit.StoppedAsleep? && lastErr == FinalErr(last)
    {
      hide At, Under, ExitOf, FinalErr;
      served, exit := 0, HandedOver;
      while served < |worlds| && exit == HandedOver
        invariant served <= |worlds| && Shown()
        invariant served == 0 ==> !connected && exit == HandedOver
        invariant forall i :: 0 <= i < served - 1 ==> ExitOf(Under(old(cancelled), worlds[i])) == HandedOver
        invariant served > 0 ==>
                    var last := Under(old(cancelled), worlds[served - 1]);
                    exit == ExitOf(last) && connected == exit.StoppedAsleep? && lastErr == FinalErr(last)
        invariant exit == HandedOver ==> At(FRESH) && cancelled == old(cancelled)
      {
        var released, waits;
        ghost var end;
        exit, released, waits, end := RunDevice(worlds[served]);
        served := served + 1;
      }
    }
  }
}

/** The life of one device: generations of its run function, which start up, hand over to a new
    generation when the connection fails, poll, wait and tear down, in every interleaving with
    cancellation and with readers of the status. Durations are in nanoseconds. */
module DeviceLifecycle {
  import opened Common

  const MILLISECOND := 1_000_000
  const SECOND := 1_000_000_000

  // ---- one poll and what it does to the pace ----

  /** What a poll of the driver gives: an error, nothing, or a number and its conversion to a 64-bit integer. */
  datatype Poll = Failed(err: string) | Quiet | Number(value: real, converted: int)

  /** The conversion truncates; for a number out of range the platform decides. */
  predicate Converts(p: Poll) {
    p.Number? ==>
      && -0x8000_0000_0000_0000 <= p.converted < 0x8000_0000_0000_0000
      && (0.0 < p.value < 9223372036854775808.0 ==> p.converted == p.value.Floor)
  }

  /** The interval a poll asks for, if it is accepted. */
  function NewInterval(p: Poll): Option<int> {
    if p.Number? && p.value > 0.0 && 100 * MILLISECOND <= Wrap64(p.converted * 1_000_000) <= 60 * SECOND
    then Some(Wrap64(p.converted * 1_000_000)) else None
  }

  /** The last accepted interval, 5 seconds before the first. */
  function Interval(history: seq<Poll>): int {
    if history == [] then 5 * SECOND
    else
      var asked := NewInterval(history[|history| - 1]);
      if asked.Some? then asked.value else Interval(history[..|history| - 1])
  }

  /** How many polls at the end of the history failed. */
  function Errors(history: seq<Poll>): (n: nat)
    ensures n <= |history|
  {
    if history == [] || !history[|history| - 1].Failed? then 0 else 1 + Errors(history[..|history| - 1])
  }

  function Backoff(errors: nat): int {
    if errors >= 10 then 60 * SECOND else 10 * SECOND
  }

  /** How long the loop waits after the last poll. */
  function Wait(history: seq<Poll>): int {
    if Errors(history) > 0 then Backoff(Errors(history)) else Interval(history)
  }

  predicate Up(history: seq<Poll>) {
    history == [] || !history[|history| - 1].Failed?
  }

  function LastErr(history: seq<Poll>): string {
    if Up(history) then "" else history[|history| - 1].err
  }

  lemma {:induction false} ErrorsExactly(history: seq<Poll>)
    ensures forall i :: |history| - Errors(history) <= i < |history| ==> history[i].Failed?
    ensures Errors(history) < |history| ==> !history[|history| - 1 - Errors(history)].Failed?
    decreases |history|
  {
    if history != [] {
      ErrorsExactly(history[..|history| - 1]);
    }
  }

  /** The wait is a minute after at least ten failures in a row, ten seconds after fewer, and never
      shorter than 100 ms or longer than a minute. */
  lemma {:induction false} WaitAfterFailures(history: seq<Poll>)
    ensures !Up(history) ==>
              Wait(history) ==
              if |history| >= 10 && (forall i :: |history| - 10 <= i < |history| ==> history[i].Failed?)
              then 60 * SECOND else 10 * SECOND
    ensures 100 * MILLISECOND <= Wait(history) <= 60 * SECOND
  {
    ErrorsExactly(history);
    IntervalExactly(history);
    if Errors(history) < 10 && Errors(history) < |history| {
      assert !history[|history| - 1 - Errors(history)].Failed?;
    }
  }

  /** A poll that fails, says nothing or asks for too much or too little leaves the interval as it was. */
  lemma {:induction false} IntervalExactly(history: seq<Poll>)
    ensures 100 * MILLISECOND <= Interval(history) <= 60 * SECOND
    ensures (forall p :: p in history ==> NewInterval(p).None?) ==> Interval(history) == 5 * SECOND
    ensures forall i :: 0 <= i < |history| && NewInterval(history[i]).Some?
                        && (forall j :: i < j < |history| ==> NewInterval(history[j]).None?)
                        ==> Interval(history) == NewInterval(history[i]).value
    decreases |history|
  {
    if history != [] {
      var before := history[..|history| - 1];
      IntervalExactly(before);
      assert NewInterval(history[|history| - 1]).None? ==> Interval(history) == Interval(before);
      assert forall p :: p in before ==> p in history;
    }
  }

  /** After a good poll the loop waits what the last accepted poll asked for, 5 seconds if none was accepted. */
  lemma WaitAfterSuccess(history: seq<Poll>)
    requires Up(history)
    ensures forall i :: 0 <= i < |history| && NewInterval(history[i]).Some?
                        && (forall j :: i < j < |history| ==> NewInterval(history[j]).None?)
                        ==> Wait(history) == NewInterval(history[i]).value
    ensures (forall p :: p in history ==> NewInterval(p).None?) ==> Wait(history) == 5 * SECOND
  {
    hide NewInterval;
    assert Errors(history) == 0;
    IntervalExactly(history);
  }

  /** The product in nanoseconds, reduced to 64 bits, lies where intervals are accepted. */
  predicate InWindow(p: Poll)
    requires p.Number?
  {
    100 * MILLISECOND <= (p.converted * 1_000_000) % 0x1_0000_0000_0000_0000 <= 60 * SECOND
  }

  /** Every poll there is: it sets the interval exactly when it is a positive number whose 64-bit product
      lies in the window, and then to that product. It is as it was meant exactly for 100 to 60000 whole
      milliseconds, and otherwise than meant exactly when the product wraps around into the window. */
  lemma RequestAcceptedIff(p: Poll)
    requires Converts(p)
    ensures NewInterval(p).Some? <==> p.Number? && p.value > 0.0 && InWindow(p)
    ensures NewInterval(p).Some? ==>
              NewInterval(p).value == (p.converted * 1_000_000) % 0x1_0000_0000_0000_0000
    ensures p.Number? && p.value > 0.0 ==>
              (NewInterval(p) == Some(p.converted * 1_000_000) <==> 100 <= p.converted <= 60_000)
    ensures p.Number? && p.value > 0.0 ==>
              (NewInterval(p).Some? && NewInterval(p).value != p.converted * 1_000_000 <==>
               !(0 <= p.converted <= 60_000) && InWindow(p))
  {
    if p.Number? {
      Wrap64Residue(p.converted * 1_000_000);
      var ns := p.converted * 1_000_000;
      if 0 <= p.converted <= 60_000 {
        assert ns % 0x1_0000_0000_0000_0000 == ns;
      }
    }
  }

  /** The least positive request accepted otherwise than meant: 18446744073810 ms are taken as about 100 ms. */
  lemma FirstWrap(p: Poll)
    requires p.Number? && p.value > 0.0
    ensures NewInterval(p).Some? && p.converted > 60_000 ==> p.converted >= 18446744073810
    ensures p.converted == 18446744073810 ==> NewInterval(p) == Some(100_448_384)
  {
    var ns := p.converted * 1_000_000;
    Wrap64Residue(ns);
  }

  // ---- generations ----

  /** What a generation holds and gives back when it returns. */
  datatype Resource = Bridge | Vm | Watchdogs | Subscriptions

  /** In the order they are acquired; `TEARDOWN` is the order they are given back. */
  const ACQUIRED := [Bridge, Vm, Watchdogs, Subscriptions]
  const TEARDOWN := [Subscriptions, Watchdogs, Vm, Bridge]

  datatype Exit =
    | DriverMissing
    | HandedOver         // to a new generation, after the retry delay
    | RetryCancelled
    | InitFailed
    | LoadFailed
    | StoppedPolling     // cancellation seen at the top of the loop
    | StoppedBackingOff  // seen in the wait after a failed poll
    | StoppedAsleep      // seen in the wait after a good one

  datatype Phase =
    | Starting
    | Connecting
    | Retrying
    | Bridged
    | Opened
    | Loaded
    | Ready
    | Polling
    | Calling
    | BackingOff
    | Asleep
    | Leaving(exit: Exit)

  /** `defers` is the stack of deferred calls, `interval` and `errors` are the loop's variables. */
  datatype Generation = Generation(phase: Phase, defers: seq<Resource>, released: seq<Resource>,
                                   interval: int, errors: nat, history: seq<Poll>)

  datatype Device = Device(connected: bool, lastErr: string, cancelled: bool, gens: seq<Generation>)

  const FRESH := Generation(Starting, [], [], 5 * SECOND, 0, [])
  const INITIAL := Device(false, "", false, [FRESH])

  datatype Event =
    | Find(err: Option<string>)
    | Connect(err: Option<string>)
    | RetryTimer
    | RetryCancel
    | InitVm(err: Option<string>)
    | LoadSource(err: Option<string>)
    | MarkConnected
    | Subscribe
    | Pass               // the loop's check finds no cancellation
    | Polled(p: Poll)
    | Wake
    | Stop
    | RunDefer

  datatype Action = Cancel | Act(g: nat, event: Event)

  predicate Enabled(d: Device, a: Action) {
    a.Cancel? || (a.g < |d.gens| && EventEnabled(d, d.gens[a.g], a.event))
  }

  predicate EventEnabled(d: Device, gen: Generation, e: Event) {
    match e
    case Find(_) => gen.phase == Starting
    case Connect(_) => gen.phase == Connecting
    case RetryTimer => gen.phase == Retrying
    case RetryCancel => gen.phase == Retrying && d.cancelled
    case InitVm(_) => gen.phase == Bridged
    case LoadSource(_) => gen.phase == Opened
    case MarkConnected => gen.phase == Loaded
    case Subscribe => gen.phase == Ready
    case Pass => gen.phase == Polling && !d.cancelled
    case Polled(p) => gen.phase == Calling && Converts(p)
    case Wake => gen.phase == BackingOff || gen.phase == Asleep
    case Stop => (gen.phase == Polling || gen.phase == BackingOff || gen.phase == Asleep) && d.cancelled
    case RunDefer => gen.phase.Leaving? && gen.defers != []
  }

  /** The generation after its own event. */
  function Advance(gen: Generation, e: Event): Generation {
    match e
    case Find(err) => gen.(phase := if err.None? then Connecting else Leaving(DriverMissing))
    case Connect(err) =>
      if err.None? then gen.(phase := Bridged, defers := gen.defers + [Bridge]) else gen.(phase := Retrying)
    case RetryTimer => gen.(phase := Leaving(HandedOver))
    case RetryCancel => gen.(phase := Leaving(RetryCancelled))
    case InitVm(err) =>
      if err.None? then gen.(phase := Opened, defers := gen.defers + [Vm]) else gen.(phase := Leaving(InitFailed))
    case LoadSource(err) => gen.(phase := if err.None? then Loaded else Leaving(LoadFailed))
    case MarkConnected => gen.(phase := Ready)
    case Subscribe =>
      gen.(phase := Polling, defers := gen.defers + [Watchdogs, Subscriptions], interval := 5 * SECOND, errors := 0)
    case Pass => gen.(phase := Calling)
    case Polled(p) =>
      if p.Failed? then gen.(phase := BackingOff, errors := gen.errors + 1, history := gen.history + [p])
      else gen.(phase := Asleep, errors := 0, history := gen.history + [p],
                interval := if NewInterval(p).Some? then NewInterval(p).value else gen.interval)
    case Wake => gen.(phase := Polling)
    case Stop =>
      gen.(phase := Leaving(if gen.phase == Polling then StoppedPolling
                            else if gen.phase == BackingOff then StoppedBackingOff else StoppedAsleep))
    case RunDefer =>
      if gen.defers == [] then gen
      else gen.(defers := gen.defers[..|gen.defers| - 1], released := gen.released + [gen.defers[|gen.defers| - 1]])
  }

  /** The pair the readers see, written in one critical section per event. */
  function StatusAfter(connected: bool, lastErr: string, phase: Phase, e: Event): (bool, string) {
    match e
    case Find(err) => (connected, if err.Some? then err.value else lastErr)
    case Connect(err) => (connected, if err.Some? then err.value else lastErr)
    case InitVm(err) => (connected, if err.Some? then err.value else lastErr)
    case LoadSource(err) => (connected, if err.Some? then err.value else lastErr)
    case MarkConnected => (true, "")
    case Polled(p) => if p.Failed? then (false, p.err) else (true, "")
    case Stop => (if phase == Polling then false else connected, lastErr)
    case _ => (connected, lastErr)
  }

  function Step(d: Device, a: Action): Device
    requires Enabled(d, a)
  {
    match a
    case Cancel => d.(cancelled := true)
    case Act(g, e) =>
      var status := StatusAfter(d.connected, d.lastErr, d.gens[g].phase, e);
      var gens := d.gens[g := Advance(d.gens[g], e)];
      Device(status.0, status.1, d.cancelled, if e.RetryTimer? then gens + [FRESH] else gens)
  }

  /** The state a sequence of actions leads to, if every one of them can be taken. */
  function After(run: seq<Action>): Option<Device>
    decreases |run|
  {
    if run == [] then Some(INITIAL)
    else
      var before := After(run[..|run| - 1]);
      var a := run[|run| - 1];
      if before.Some? && Enabled(before.value, a) then Some(Step(before.value, a)) else None
  }

  // ---- the invariant ----

  /** How many of `ACQUIRED` a generation holds, or held when it left. */
  function Depth(phase: Phase): nat {
    match phase
    case Starting => 0
    case Connecting => 0
    case Retrying => 0
    case Bridged => 1
    case Opened => 2
    case Loaded => 2
    case Ready => 2
    case Leaving(exit) =>
      if exit.DriverMissing? || exit.HandedOver? || exit.RetryCancelled? then 0
      else if exit.InitFailed? then 1 else if exit.LoadFailed? then 2 else 4
    case _ => 4
  }

  predicate PassedSetup(phase: Phase) {
    || phase.Ready? || phase.Polling? || phase.Calling? || phase.BackingOff? || phase.Asleep?
    || (phase.Leaving? && (phase.exit.StoppedPolling? || phase.exit.StoppedBackingOff? || phase.exit.StoppedAsleep?))
  }

  /** Held is a prefix of `ACQUIRED`, and of the first `depth` the rest is given back in the order of `TEARDOWN`. */
  predicate StackAt(depth: nat, defers: seq<Resource>, released: seq<Resource>) {
    && |defers| <= depth <= 4
    && defers == ACQUIRED[..|defers|]
    && released == TEARDOWN[4 - depth..4 - |defers|]
  }

  predicate StackOk(gen: Generation) {
    && StackAt(Depth(gen.phase), gen.defers, gen.released)
    && (!gen.phase.Leaving? ==> |gen.defers| == Depth(gen.phase))
  }

  /** The loop's variables are what its history says. */
  predicate LoopOk(gen: Generation) {
    && gen.interval == Interval(gen.history) && gen.errors == Errors(gen.history)
    && (gen.phase == BackingOff || gen.phase == Leaving(StoppedBackingOff) ==> !Up(gen.history))
    && (gen.phase == Asleep || gen.phase == Leaving(StoppedAsleep) ==> Up(gen.history))
    && (!PassedSetup(gen.phase) || gen.phase.Ready? ==> gen.history == [])
  }

  /** The status is that of the last generation's last poll, but for a stop noticed at the top of the loop. */
  predicate StatusOk(connected: bool, lastErr: string, gen: Generation) {
    if PassedSetup(gen.phase) then
      && connected == (Up(gen.history) && gen.phase != Leaving(StoppedPolling))
      && lastErr == LastErr(gen.history)
    else !connected
  }

  /** Every generation but the latest has handed over and holds nothing. */
  predicate GensOk(gens: seq<Generation>) {
    && (forall g :: 0 <= g < |gens| - 1 ==> gens[g].phase == Leaving(HandedOver) && gens[g].defers == [])
    && (forall g :: 0 <= g < |gens| ==> StackOk(gens[g]) && LoopOk(gens[g]))
  }

  predicate Inv(d: Device) {
    && d.gens != [] && GensOk(d.gens)
    && StatusOk(d.connected, d.lastErr, d.gens[|d.gens| - 1])
  }

  lemma Opposite(n: nat)
    requires 1 <= n <= 4
    ensures ACQUIRED[n - 1] == TEARDOWN[4 - n]
  {
    if n == 1 {
    } else if n == 2 {
    } else if n == 3 {
    } else {
    }
  }

  lemma ReleaseStack(depth: nat, defers: seq<Resource>, released: seq<Resource>)
    requires StackAt(depth, defers, released) && defers != []
    ensures StackAt(depth, defers[..|defers| - 1], released + [defers[|defers| - 1]])
  {
    Opposite(|defers|);
    SlideBy(ACQUIRED, TEARDOWN, |defers|, 4 - depth);
  }

  lemma SlideBy(acquired: seq<Resource>, teardown: seq<Resource>, n: nat, from: nat)
    requires |acquired| == |teardown| == 4 && 1 <= n && from + n <= 4
    ensures acquired[..n][..n - 1] == acquired[..n - 1] && acquired[..n][n - 1] == acquired[n - 1]
    ensures teardown[from..4 - n] + [teardown[4 - n]] == teardown[from..4 - (n - 1)]
  {
  }

  /** The stacks of the phases before the return. */
  lemma FullStacks()
    ensures StackAt(0, [], []) && StackAt(1, [Bridge], []) && StackAt(2, [Bridge, Vm], []) && StackAt(4, ACQUIRED, [])
  {
    assert ACQUIRED[..1] == [Bridge] && ACQUIRED[..2] == [Bridge, Vm] && ACQUIRED[..4] == ACQUIRED;
    assert TEARDOWN[4..4] == TEARDOWN[3..3] == TEARDOWN[2..2] == TEARDOWN[0..0] == [];
  }

  lemma FullStackIs(gen: Generation)
    requires StackOk(gen) && !gen.phase.Leaving?
    ensures gen.defers == ACQUIRED[..Depth(gen.phase)] && gen.released == []
  {
  }

  lemma ConnectStack(gen: Generation, err: Option<string>)
    requires StackOk(gen) && gen.phase == Connecting
    ensures StackOk(Advance(gen, Connect(err)))
  {
    FullStacks();
    FullStackIs(gen);
    assert gen.defers == [] && [] + [Bridge] == [Bridge];
    hide StackAt, ACQUIRED;
  }

  lemma InitStack(gen: Generation, err: Option<string>)
    requires StackOk(gen) && gen.phase == Bridged
    ensures StackOk(Advance(gen, InitVm(err)))
  {
    FullStacks();
    FullStackIs(gen);
    assert gen.defers == [Bridge] && [Bridge] + [Vm] == [Bridge, Vm];
    hide StackAt, ACQUIRED;
  }

  lemma SubscribeStack(gen: Generation)
    requires StackOk(gen) && gen.phase == Ready
    ensures StackOk(Advance(gen, Subscribe))
  {
    FullStacks();
    FullStackIs(gen);
    assert gen.defers == [Bridge, Vm] && [Bridge, Vm] + [Watchdogs, Subscriptions] == ACQUIRED;
    hide StackAt;
  }

  /** The other events neither acquire nor release. */
  lemma KeepStack(d: Device, gen: Generation, e: Event)
    requires EventEnabled(d, gen, e) && !e.RunDefer? && !e.Connect? && !e.InitVm? && !e.Subscribe?
    ensures var next := Advance(gen, e);
            Depth(next.phase) == Depth(gen.phase) && next.defers == gen.defers && next.released == gen.released
            && !gen.phase.Leaving?
  {
  }

  lemma AdvanceStack(d: Device, gen: Generation, e: Event)
    requires EventEnabled(d, gen, e) && StackOk(gen)
    ensures StackOk(Advance(gen, e))
  {
    hide StackAt;
    if e.RunDefer? {
      ReleaseStack(Depth(gen.phase), gen.defers, gen.released);
    } else if e.Connect? {
      ConnectStack(gen, e.err);
    } else if e.InitVm? {
      InitStack(gen, e.err);
    } else if e.Subscribe? {
      SubscribeStack(gen);
    } else {
      KeepStack(d, gen, e);
      hide Advance, Depth, EventEnabled;
    }
  }

  lemma HistoryGrows(history: seq<Poll>, p: Poll)
    ensures Errors(history + [p]) == if p.Failed? then Errors(history) + 1 else 0
    ensures Interval(history + [p]) == if NewInterval(p).Some? then NewInterval(p).value else Interval(history)
    ensures Up(history + [p]) == !p.Failed?
    ensures LastErr(history + [p]) == if p.Failed? then p.err else ""
  {
    assert (history + [p])[..|history|] == history;
  }

  lemma EmptyHistory()
    ensures Interval([]) == 5 * SECOND && Errors([]) == 0
  {
  }

  lemma PolledLoop(d: Device, gen: Generation, p: Poll)
    requires EventEnabled(d, gen, Polled(p)) && LoopOk(gen)
    ensures LoopOk(Advance(gen, Polled(p)))
  {
    hide Errors, Interval, Up, NewInterval, Converts;
    AsksNothing(p);
    HistoryGrows(gen.history, p);
  }

  lemma AsksNothing(p: Poll)
    ensures !p.Number? ==> NewInterval(p).None? && Converts(p)
  {
  }

  lemma AdvanceLoop(d: Device, gen: Generation, e: Event)
    requires EventEnabled(d, gen, e) && LoopOk(gen)
    ensures LoopOk(Advance(gen, e))
  {
    if e.Polled? {
      PolledLoop(d, gen, e.p);
    } else {
      EmptyHistory();
      hide Errors, Interval, Up, NewInterval, Converts;
    }
  }

  lemma AdvanceStatus(d: Device, gen: Generation, e: Event)
    requires EventEnabled(d, gen, e) && LoopOk(gen) && StatusOk(d.connected, d.lastErr, gen) && !e.RetryTimer?
    ensures var status := StatusAfter(d.connected, d.lastErr, gen.phase, e);
            StatusOk(status.0, status.1, Advance(gen, e))
  {
  }

  lemma HandOver(d: Device, gen: Generation)
    requires EventEnabled(d, gen, RetryTimer) && StackOk(gen) && StatusOk(d.connected, d.lastErr, gen)
    ensures Advance(gen, RetryTimer).phase == Leaving(HandedOver) && Advance(gen, RetryTimer).defers == []
    ensures StackOk(FRESH) && LoopOk(FRESH) && StatusOk(d.connected, d.lastErr, FRESH)
  {
  }

  lemma OnlyLastActs(d: Device, a: Action)
    requires GensOk(d.gens) && Enabled(d, a) && a.Act?
    ensures a.g == |d.gens| - 1
  {
    hide StackOk, LoopOk;
  }

  lemma ReplaceLast(gens: seq<Generation>, next: Generation)
    requires gens != [] && GensOk(gens) && StackOk(next) && LoopOk(next)
    ensures GensOk(gens[|gens| - 1 := next])
  {
    hide StackOk, LoopOk;
  }

  lemma AppendFresh(gens: seq<Generation>)
    requires gens != [] && GensOk(gens) && StackOk(FRESH) && LoopOk(FRESH)
    requires gens[|gens| - 1].phase == Leaving(HandedOver) && gens[|gens| - 1].defers == []
    ensures GensOk(gens + [FRESH])
  {
    hide StackOk, LoopOk;
  }

  lemma StepInv(d: Device, a: Action)
    requires Inv(d) && Enabled(d, a)
    ensures Inv(Step(d, a))
  {
    hide StackOk, LoopOk, StatusOk, GensOk, Advance, EventEnabled, StatusAfter, FRESH;
    if a.Act? {
      OnlyLastActs(d, a);
      var gen := d.gens[a.g];
      assert StackOk(gen) && LoopOk(gen) by { LastOk(d.gens); }
      AdvanceStack(d, gen, a.event);
      AdvanceLoop(d, gen, a.event);
      ReplaceLast(d.gens, Advance(gen, a.event));
      if a.event.RetryTimer? {
        HandOver(d, gen);
        AppendFresh(d.gens[a.g := Advance(gen, a.event)]);
        TimerKeepsStatus(d, a.g);
      } else {
        AdvanceStatus(d, gen, a.event);
      }
    }
  }

  lemma LastOk(gens: seq<Generation>)
    requires gens != [] && GensOk(gens)
    ensures StackOk(gens[|gens| - 1]) && LoopOk(gens[|gens| - 1])
  {
    hide StackOk, LoopOk;
  }

  lemma TimerKeepsStatus(d: Device, g: nat)
    requires Enabled(d, Act(g, RetryTimer))
    ensures Step(d, Act(g, RetryTimer)).connected == d.connected && Step(d, Act(g, RetryTimer)).lastErr == d.lastErr
  {
  }

  lemma {:induction false} RunInv(run: seq<Action>)
    requires After(run).Some?
    ensures Inv(After(run).value)
    decreases |run|
  {
    hide Inv;
    if run != [] {
      RunInv(run[..|run| - 1]);
      StepInv(After(run[..|run| - 1]).value, run[|run| - 1]);
    } else {
      InitInv();
    }
  }

  lemma InitInv()
    ensures Inv(INITIAL)
  {
  }

  // ---- what every run keeps ----

  /** At most one generation holds a VM, a bridge, subscriptions or watchdogs: the latest. */
  lemma OneGenerationHolds(run: seq<Action>, d: Device, g: nat, r: Resource)
    requires After(run) == Some(d) && g < |d.gens| && r in d.gens[g].defers
    ensures g == |d.gens| - 1
  {
    RunInv(run);
    hide After;
  }

  /** In every state a reader can see, connected goes with an empty error and a latest generation that passed setup. */
  lemma ConnectedIsClean(run: seq<Action>, d: Device)
    requires After(run) == Some(d) && d.connected
    ensures d.lastErr == "" && d.gens != [] && PassedSetup(d.gens[|d.gens| - 1].phase)
  {
    RunInv(run);
    hide After, StackOk;
  }

  /** A generation gives back what it had acquired in teardown order, all of it once it has returned,
      and its VM before the bridge the VM uses. */
  lemma TeardownInOrder(run: seq<Action>, d: Device, g: nat)
    requires After(run) == Some(d) && g < |d.gens|
    ensures var gen := d.gens[g];
      && gen.released <= TEARDOWN[4 - Depth(gen.phase)..]
      && (gen.phase.Leaving? && gen.defers == [] ==> gen.released == TEARDOWN[4 - Depth(gen.phase)..])
      && (Vm in gen.defers ==> Bridge in gen.defers)
  {
    RunInv(run);
    var gen := d.gens[g];
    assert StackOk(gen);
    hide After, Inv;
    assert |gen.defers| >= 1 ==> gen.defers[0] == Bridge;
  }

  /** A deferred call gives back what was acquired last. */
  lemma DeferGivesBack(d: Device, g: nat)
    requires Enabled(d, Act(g, RunDefer))
    ensures var was, now := d.gens[g], Step(d, Act(g, RunDefer)).gens[g];
      exists r :: now.defers + [r] == was.defers && now.released == was.released + [r]
  {
    var was := d.gens[g];
    var r := was.defers[|was.defers| - 1];
    assert was.defers == was.defers[..|was.defers| - 1] + [r];
  }

  /** What a generation that returned has given back, by its exit. */
  lemma ReturnedGivesBack(run: seq<Action>, d: Device, g: nat)
    requires After(run) == Some(d) && g < |d.gens|
    requires d.gens[g].phase.Leaving? && d.gens[g].defers == []
    ensures d.gens[g].released ==
            match d.gens[g].phase.exit
            case InitFailed => [Bridge]
            case LoadFailed => [Vm, Bridge]
            case StoppedPolling => [Subscriptions, Watchdogs, Vm, Bridge]
            case StoppedBackingOff => [Subscriptions, Watchdogs, Vm, Bridge]
            case StoppedAsleep => [Subscriptions, Watchdogs, Vm, Bridge]
            case _ => []
  {
    TeardownInOrder(run, d, g);
    TeardownLists(d.gens[g].phase.exit);
    hide After, Depth;
  }

  lemma TeardownLists(exit: Exit)
    ensures TEARDOWN[4 - Depth(Leaving(exit))..] ==
            match exit
            case InitFailed => [Bridge]
            case LoadFailed => [Vm, Bridge]
            case StoppedPolling => [Subscriptions, Watchdogs, Vm, Bridge]
            case StoppedBackingOff => [Subscriptions, Watchdogs, Vm, Bridge]
            case StoppedAsleep => [Subscriptions, Watchdogs, Vm, Bridge]
            case _ => []
  {
    assert TEARDOWN[3..] == [Bridge] && TEARDOWN[2..] == [Vm, Bridge];
    assert TEARDOWN[4..] == [] && TEARDOWN[0..] == TEARDOWN;
  }

  /** While it polls, calls or waits a generation holds everything and has given back nothing. */
  lemma LoopHoldsAll(run: seq<Action>, d: Device, g: nat)
    requires After(run) == Some(d) && g < |d.gens|
    requires var phase := d.gens[g].phase;
      phase == Polling || phase == Calling || phase == BackingOff || phase == Asleep
    ensures d.gens[g].defers == [Bridge, Vm, Watchdogs, Subscriptions] && d.gens[g].released == []
  {
    RunInv(run);
    var gen := d.gens[g];
    assert StackOk(gen);
    FullStackIs(gen);
    hide After, Inv, StackOk;
    assert ACQUIRED[..4] == ACQUIRED;
  }

  /** Any step that fails shows its error at once, on a device that then reads as not connected, and where
      the generation goes depends on which it was. */
  lemma ErrorShown(run: seq<Action>, d: Device, g: nat, e: Event, err: string)
    requires After(run) == Some(d) && Enabled(d, Act(g, e))
    requires || e == Find(Some(err)) || e == Connect(Some(err)) || e == InitVm(Some(err)) || e == LoadSource(Some(err))
             || e == Polled(Failed(err))
    ensures !Step(d, Act(g, e)).connected && Step(d, Act(g, e)).lastErr == err
    ensures Step(d, Act(g, e)).gens[g].phase ==
            (if e.Find? then Leaving(DriverMissing) else if e.Connect? then Retrying
             else if e.InitVm? then Leaving(InitFailed) else if e.LoadSource? then Leaving(LoadFailed)
             else BackingOff)
  {
    RunInv(run);
    hide After, GensOk, StatusOk, Step, EventEnabled;
    assert !d.gens[g].phase.Leaving? by { FailsBeforeLeaving(d, d.gens[g], e); }
    LatestActs(d.gens, g);
    FailedStep(d, g, e, err);
  }

  lemma FailsBeforeLeaving(d: Device, gen: Generation, e: Event)
    requires EventEnabled(d, gen, e) && (e.Find? || e.Connect? || e.InitVm? || e.LoadSource? || e.Polled?)
    ensures !gen.phase.Leaving?
  {
    hide Converts;
  }

  lemma FailedStep(d: Device, g: nat, e: Event, err: string)
    requires g < |d.gens| && EventEnabled(d, d.gens[g], e) && StatusOk(d.connected, d.lastErr, d.gens[g])
    requires || e == Find(Some(err)) || e == Connect(Some(err)) || e == InitVm(Some(err)) || e == LoadSource(Some(err))
             || e == Polled(Failed(err))
    ensures !Step(d, Act(g, e)).connected && Step(d, Act(g, e)).lastErr == err
    ensures Step(d, Act(g, e)).gens[g].phase ==
            (if e.Find? then Leaving(DriverMissing) else if e.Connect? then Retrying
             else if e.InitVm? then Leaving(InitFailed) else if e.LoadSource? then Leaving(LoadFailed)
             else BackingOff)
  {
    hide Converts, Up, LastErr;
  }

  /** The retry wait ends with a new generation after this one, or, by cancellation, with none. */
  lemma RetryEnds(d: Device, g: nat, e: Event)
    requires Enabled(d, Act(g, e)) && d.gens[g].phase == Retrying
    ensures e == RetryTimer || (e == RetryCancel && d.cancelled)
    ensures var gens := Step(d, Act(g, e)).gens;
      if e == RetryTimer then
        |gens| == |d.gens| + 1 && gens[|d.gens|] == Generation(Starting, [], [], 5 * SECOND, 0, [])
        && gens[g].phase == Leaving(HandedOver)
      else |gens| == |d.gens| && gens[g].phase == Leaving(RetryCancelled)
  {
    hide Converts;
  }

  lemma LatestActs(gens: seq<Generation>, g: nat)
    requires GensOk(gens) && g < |gens| && !gens[g].phase.Leaving?
    ensures g == |gens| - 1
  {
    hide StackOk, LoopOk;
  }

  /** A generation that has left leaves the device connected exactly when the stop reached it while
      it slept after a good poll. */
  lemma ConnectedAfterStop(run: seq<Action>, d: Device)
    requires After(run) == Some(d) && d.gens != [] && d.gens[|d.gens| - 1].phase.Leaving?
    ensures d.connected <==> d.gens[|d.gens| - 1].phase.exit == StoppedAsleep
  {
    RunInv(run);
    var gen := d.gens[|d.gens| - 1];
    assert StatusOk(d.connected, d.lastErr, gen) && LoopOk(gen);
    hide After, Inv;
  }

  const SLEEPING := Generation(Asleep, ACQUIRED, [], 5 * SECOND, 0, [Quiet])

  lemma ReachesBridged() returns (run: seq<Action>, d: Device)
    ensures After(run) == Some(d) && d.gens == [FRESH.(phase := Bridged, defers := [Bridge])] && !d.cancelled
  {
    assert After([]) == Some(INITIAL);
    hide After;
    assert [] + [Bridge] == [Bridge];
    run, d := Take([], INITIAL, Act(0, Find(None)));
    assert d.gens == [FRESH.(phase := Connecting)];
    run, d := Take(run, d, Act(0, Connect(None)));
  }

  lemma ReachesLoaded() returns (run: seq<Action>, d: Device)
    ensures After(run) == Some(d) && d.gens == [FRESH.(phase := Loaded, defers := [Bridge, Vm])] && !d.cancelled
  {
    hide After;
    assert [Bridge] + [Vm] == [Bridge, Vm];
    run, d := ReachesBridged();
    run, d := Take(run, d, Act(0, InitVm(None)));
    assert d.gens == [FRESH.(phase := Opened, defers := [Bridge, Vm])];
    run, d := Take(run, d, Act(0, LoadSource(None)));
  }

  lemma ReachesPolling() returns (run: seq<Action>, d: Device)
    ensures After(run) == Some(d) && d.gens == [FRESH.(phase := Polling, defers := ACQUIRED)] && !d.cancelled
  {
    hide After;
    assert [Bridge, Vm] + [Watchdogs, Subscriptions] == ACQUIRED;
    run, d := ReachesLoaded();
    run, d := Take(run, d, Act(0, MarkConnected));
    assert d.gens == [FRESH.(phase := Ready, defers := [Bridge, Vm])] && !d.cancelled;
    run, d := Take(run, d, Act(0, Subscribe));
  }

  /** A device that starts without trouble and polls once. */
  lemma ReachesSleep() returns (run: seq<Action>, d: Device)
    ensures After(run) == Some(d) && d.gens == [SLEEPING] && d.connected
  {
    hide After, NewInterval, Converts;
    AsksNothing(Quiet);
    assert [] + [Quiet] == [Quiet];
    run, d := ReachesPolling();
    run, d := Take(run, d, Act(0, Pass));
    assert d.gens == [FRESH.(phase := Calling, defers := ACQUIRED)];
    run, d := Take(run, d, Act(0, Polled(Quiet)));
  }

  /** Such a stop can happen, and the status then stays as it was. */
  lemma ConnectedForever()
    ensures exists run :: After(run).Some? && After(run).value.connected && After(run).value.cancelled
                          && After(run).value.gens == [SLEEPING.(phase := Leaving(StoppedAsleep))]
  {
    var run, d := ReachesSleep();
    run, d := Take(run, d, Cancel);
    assert d.gens == [SLEEPING];
    run, d := Take(run, d, Act(0, Stop));
  }

  lemma Take(run: seq<Action>, d: Device, a: Action) returns (run': seq<Action>, d': Device)
    requires After(run) == Some(d) && Enabled(d, a)
    ensures run' == run + [a] && d' == Step(d, a) && After(run') == Some(d')
  {
    run', d' := run + [a], Step(d, a);
    assert run'[..|run|] == run;
  }
}

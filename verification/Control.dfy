/** Control of one DER over messages: commands, their acknowledgments, heartbeats, and the watchdog
    that falls back to the driver's default mode. Command callback, heartbeat callback and watchdog
    loop are separate goroutines; each may have to wait for the VM before it can call the driver. */
module Control {
  import opened Common
  import Subjects
  import W = Watchdog

  datatype Command = Command(id: string, source: string, action: string, powerW: int, durationMs: int, expiresAt: int)

  /** How the driver answered `driver_command`. */
  datatype Outcome = CallFailed(error: string) | ReturnedFalse | ReturnedOther

  datatype Ack = Ack(ref: string, status: string, error: string)

  /** A call into the driver; a command's call is recorded with the time of its expiry check. */
  datatype Call =
    | DriverCommand(command: Command, checkedAt: int, at: int)
    | DefaultMode(alarm: W.Time)

  /** A command that has passed the expiry check and waits for the VM. */
  datatype Pending = Pending(command: Command, checkedAt: int)

  /** What happens to a control subscriber, in order. A command's callback runs in two parts, for it
      may wait for the VM in between; so may the watchdog's callback, after the tick that raised the
      alarm. A message carries what JSON decoding made of it; `up` says whether the link is up when an
      acknowledgment may be published. */
  datatype Event =
    | Received(command: Option<Command>, now: int, up: bool)
    | Called(at: int, outcome: Outcome, up: bool)
    | Heartbeat(at: W.Time)
    | Tick(at: W.Time)
    | Defaulted

  const ACK := "ack"
  const EXECUTED := "executed"
  const FAILED := "failed"

  predicate Expired(c: Command, now: int) {
    c.expiresAt > 0 && now > c.expiresAt
  }

  // ---- the protocol, per event ----

  /** Command callbacks follow one another, and the watchdog loop stands still during its own callback. */
  predicate Allowed(pending: Option<Pending>, alarm: Option<W.Time>, e: Event) {
    match e
    case Received(_, _, _) => pending.None?
    case Called(_, _, _) => pending.Some?
    case Heartbeat(_) => true
    case Tick(_) => alarm.None?
    case Defaulted => alarm.Some?
  }

  function NextPending(pending: Option<Pending>, e: Event): Option<Pending> {
    match e
    case Received(command, now, _) =>
      if command.None? || Expired(command.value, now) then pending else Some(Pending(command.value, now))
    case Called(_, _, _) => None
    case _ => pending
  }

  function NextAlarm(timeout: W.Time, watch: W.State, alarm: Option<W.Time>, e: Event): Option<W.Time> {
    match e
    case Tick(at) => if W.Overdue(timeout, watch, at) && !watch.expired then Some(at) else alarm
    case Defaulted => None
    case _ => alarm
  }

  function Verdict(c: Command, outcome: Outcome): Ack {
    match outcome
    case CallFailed(error) => Ack(c.id, FAILED, error)
    case ReturnedFalse => Ack(c.id, FAILED, "driver returned false")
    case ReturnedOther => Ack(c.id, EXECUTED, "")
  }

  /** The acknowledgment an event asks for, the link permitting. */
  function Asked(pending: Option<Pending>, e: Event): seq<Ack> {
    match e
    case Received(command, now, _) =>
      if command.None? then []
      else if Expired(command.value, now) then [Ack(command.value.id, FAILED, "command expired")]
      else [Ack(command.value.id, ACK, "")]
    case Called(_, outcome, _) => if pending.None? then [] else [Verdict(pending.value.command, outcome)]
    case _ => []
  }

  predicate IsUp(e: Event) {
    match e
    case Received(_, _, up) => up
    case Called(_, _, up) => up
    case _ => true
  }

  function Delivered(pending: Option<Pending>, e: Event): seq<Ack> {
    if IsUp(e) then Asked(pending, e) else []
  }

  /** The driver calls one event makes. */
  function CallsAt(pending: Option<Pending>, alarm: Option<W.Time>, e: Event): seq<Call> {
    match e
    case Called(at, _, _) =>
      if pending.None? then [] else [DriverCommand(pending.value.command, pending.value.checkedAt, at)]
    case Defaulted => if alarm.None? then [] else [DefaultMode(alarm.value)]
    case _ => []
  }

  /** What the watchdog sees: heartbeats and ticks, never commands. */
  function Seen(e: Event): seq<W.Event> {
    match e
    case Heartbeat(at) => [W.Feed(at)]
    case Tick(at) => [W.Tick(at)]
    case _ => []
  }

  function NextWatch(timeout: W.Time, watch: W.State, e: Event): W.State {
    match e
    case Heartbeat(at) => W.Next(timeout, watch, W.Feed(at))
    case Tick(at) => W.Next(timeout, watch, W.Tick(at))
    case _ => watch
  }

  // ---- whole runs ----

  function PendingAfter(events: seq<Event>): Option<Pending> {
    if events == [] then None else NextPending(PendingAfter(events[..|events| - 1]), events[|events| - 1])
  }

  function Watched(events: seq<Event>): seq<W.Event> {
    if events == [] then [] else Watched(events[..|events| - 1]) + Seen(events[|events| - 1])
  }

  function WatchState(timeout: W.Time, events: seq<Event>): W.State {
    W.After(timeout, Watched(events), |Watched(events)|)
  }

  function AlarmAfter(timeout: W.Time, events: seq<Event>): Option<W.Time> {
    if events == [] then None
    else
      var before := events[..|events| - 1];
      NextAlarm(timeout, WatchState(timeout, before), AlarmAfter(timeout, before), events[|events| - 1])
  }

  /** An interleaving of the three goroutines. */
  predicate IsRun(timeout: W.Time, events: seq<Event>) {
    events == [] ||
    var before := events[..|events| - 1];
    IsRun(timeout, before) && Allowed(PendingAfter(before), AlarmAfter(timeout, before), events[|events| - 1])
  }

  /** The acknowledgments a run asks for. */
  function Stream(events: seq<Event>): seq<Ack> {
    if events == [] then []
    else
      var before := events[..|events| - 1];
      Stream(before) + Asked(PendingAfter(before), events[|events| - 1])
  }

  function Published(events: seq<Event>): seq<Ack> {
    if events == [] then []
    else
      var before := events[..|events| - 1];
      Published(before) + Delivered(PendingAfter(before), events[|events| - 1])
  }

  /** The calls into the driver, in order. */
  function Calls(timeout: W.Time, events: seq<Event>): seq<Call> {
    if events == [] then []
    else
      var before := events[..|events| - 1];
      Calls(timeout, before) + CallsAt(PendingAfter(before), AlarmAfter(timeout, before), events[|events| - 1])
  }

  // ---- the subscriber ----

  class Broker {
    var live: multiset<string>

    constructor ()
      ensures live == multiset{}
    {
      live := multiset{};
    }

    method Subscribe(subject: string, accepted: bool)
      modifies this
      ensures live == if accepted then old(live) + multiset{subject} else old(live)
    {
      if accepted { live := live + multiset{subject}; }
    }

    method Unsubscribe(subject: string)
      modifies this
      ensures live == old(live) - multiset{subject}
    {
      live := live - multiset{subject};
    }
  }

  class ControlSubscriber {
    const broker: Broker
    const watchdog: W.Watchdog
    var subs: seq<string>
    var published: seq<Ack>
    var calls: seq<Call>
    /** Where the command callback stands while it waits for the VM. */
    var pending: Option<Pending>

    constructor (broker: Broker)
      ensures this.broker == broker && fresh(watchdog)
      ensures watchdog.timeout == W.DEFAULT_TIMEOUT && watchdog.lastFeed == None
      ensures subs == [] && published == [] && calls == [] && pending == None
    {
      this.broker := broker;
      watchdog := new W.Watchdog(W.DEFAULT_TIMEOUT);
      subs, published, calls, pending := [], [], [], None;
    }

    /** Subscribes to commands and heartbeats: to both, or, if the broker refuses either, to neither. */
    method Setup(serial: string, device: string, der: string, commandsAccepted: bool, heartbeatAccepted: bool)
      returns (ok: bool)
      requires subs == []
      modifies this`subs, broker
      ensures ok <==> commandsAccepted && heartbeatAccepted
      ensures broker.live == old(broker.live) + multiset(if ok then subs else [])
      ensures ok ==> subs == [Subjects.ControlCommandsSubject(serial, device, der),
                              Subjects.ControlHeartbeatSubject(serial, device, der)]
    {
      hide Subjects.ControlCommandsSubject, Subjects.ControlHeartbeatSubject;
      var commands := Subjects.ControlCommandsSubject(serial, device, der);
      var heartbeat := Subjects.ControlHeartbeatSubject(serial, device, der);
      ok := SubscribeBoth(commands, heartbeat, commandsAccepted, heartbeatAccepted);
    }

    method SubscribeBoth(commands: string, heartbeat: string, commandsAccepted: bool, heartbeatAccepted: bool)
      returns (ok: bool)
      requires subs == []
      modifies this`subs, broker
      ensures ok <==> commandsAccepted && heartbeatAccepted
      ensures broker.live == old(broker.live) + multiset(if ok then subs else [])
      ensures ok ==> subs == [commands, heartbeat]
    {
      broker.Subscribe(commands, commandsAccepted);
      if !commandsAccepted {
        return false;
      }
      subs := subs + [commands];
      broker.Subscribe(heartbeat, heartbeatAccepted);
      if !heartbeatAccepted {
        broker.Unsubscribe(commands);
        return false;
      }
      subs := subs + [heartbeat];
      ok := true;
    }

    /** Gives back every subscription that `Setup` took. */
    method Close()
      requires multiset(subs) <= broker.live
      modifies broker
      ensures broker.live == old(broker.live) - multiset(subs)
    {
      ghost var start := broker.live;
      for i := 0 to |subs|
        invariant subs == old(subs)
        invariant broker.live == start - multiset(subs[..i])
      {
        assert subs[..i + 1] == subs[..i] + [subs[i]];
        broker.Unsubscribe(subs[i]);
      }
      assert subs[..|subs|] == subs;
    }

    method PublishAck(ref: string, status: string, error: string, up: bool)
      modifies this`published
      ensures published == old(published) + if up then [Ack(ref, status, error)] else []
    {
      if !up {
        return;
      }
      published := published + [Ack(ref, status, error)];
    }

    /** The command callback up to the point where it needs the VM. */
    method ReceiveCommand(command: Option<Command>, now: int, up: bool)
      requires pending == None
      modifies this`published, this`pending
      ensures published == old(published) + Delivered(None, Received(command, now, up))
      ensures pending == NextPending(None, Received(command, now, up))
    {
      if command.None? {
        return;
      }
      var cmd := command.value;
      if cmd.expiresAt > 0 && now > cmd.expiresAt {
        PublishAck(cmd.id, FAILED, "command expired", up);
        return;
      }
      PublishAck(cmd.id, ACK, "", up);
      pending := Some(Pending(cmd, now));
    }

    /** The rest of the callback, from the driver call on; expiry is not checked again. */
    method CallDriver(at: int, outcome: Outcome, up: bool)
      requires pending.Some?
      modifies this`published, this`calls, this`pending
      ensures published == old(published) + Delivered(old(pending), Called(at, outcome, up))
      ensures calls == old(calls) + [DriverCommand(old(pending).value.command, old(pending).value.checkedAt, at)]
      ensures pending == None
    {
      var cmd := pending.value.command;
      calls := calls + [DriverCommand(cmd, pending.value.checkedAt, at)];
      match outcome {
        case CallFailed(error) => PublishAck(cmd.id, FAILED, error, up);
        case ReturnedFalse => PublishAck(cmd.id, FAILED, "driver returned false", up);
        case ReturnedOther => PublishAck(cmd.id, EXECUTED, "", up);
      }
      pending := None;
    }

    /** A whole callback that nothing interrupts: the command is refused, or called and answered. */
    method HandleCommand(command: Option<Command>, now: int, upFirst: bool, at: int, outcome: Outcome, upSecond: bool)
      requires pending == None
      modifies this`published, this`calls, this`pending
      ensures pending == None
      ensures command.None? ==> published == old(published) && calls == old(calls)
      ensures command.Some? && 0 < command.value.expiresAt < now ==>
                && published == old(published)
                                + (if upFirst then [Ack(command.value.id, "failed", "command expired")] else [])
                && calls == old(calls)
      ensures command.Some? && !(0 < command.value.expiresAt < now) ==>
                && published == old(published)
                                + (if upFirst then [Ack(command.value.id, "ack", "")] else [])
                                + (if !upSecond then []
                                   else if outcome.CallFailed? then [Ack(command.value.id, "failed", outcome.error)]
                                   else if outcome.ReturnedFalse? then
                                     [Ack(command.value.id, "failed", "driver returned false")]
                                   else [Ack(command.value.id, "executed", "")])
                && calls == old(calls) + [DriverCommand(command.value, now, at)]
    {
      ReceiveCommand(command, now, upFirst);
      if pending.Some? {
        CallDriver(at, outcome, upSecond);
      }
    }

    /** One event, whichever goroutine it belongs to; `expired` and `alarm` are the watchdog loop's own. */
    method HandleEvent(e: Event, expired: bool, alarm: Option<W.Time>)
      returns (nextExpired: bool, nextAlarm: Option<W.Time>)
      requires Allowed(pending, alarm, e)
      modifies this`published, this`calls, this`pending, watchdog`lastFeed
      ensures published == old(published) + Delivered(old(pending), e)
      ensures calls == old(calls) + CallsAt(old(pending), alarm, e)
      ensures pending == NextPending(old(pending), e)
      ensures nextAlarm == NextAlarm(watchdog.timeout, W.State(old(watchdog.lastFeed), expired), alarm, e)
      ensures W.State(watchdog.lastFeed, nextExpired) ==
              NextWatch(watchdog.timeout, W.State(old(watchdog.lastFeed), expired), e)
    {
      nextExpired, nextAlarm := expired, alarm;
      match e {
        case Received(command, now, up) =>
          ReceiveCommand(command, now, up);
        case Called(at, outcome, up) =>
          CallDriver(at, outcome, up);
        case Heartbeat(at) =>
          watchdog.FeedNow(at);
        case Tick(at) =>
          var fire;
          fire, nextExpired := watchdog.Check(at, expired);
          if fire {
            nextAlarm := Some(at);
          }
        case Defaulted =>
          calls := calls + [DefaultMode(alarm.value)];
          nextAlarm := None;
      }
    }

    /** A whole run of the three goroutines. */
    method Run(events: seq<Event>)
      requires watchdog.lastFeed == None && published == [] && calls == [] && pending == None
      requires IsRun(watchdog.timeout, events)
      modifies this`published, this`calls, this`pending, watchdog`lastFeed
      ensures published == Published(events)
      ensures calls == Calls(watchdog.timeout, events)
      ensures pending == PendingAfter(events)
    {
      hide Delivered, WatchState, NextPending, NextAlarm, CallsAt, Allowed;
      var expired := false;
      var alarm: Option<W.Time> := None;
      StartState(watchdog.timeout);
      for n := 0 to |events|
        invariant published == Published(events[..n])
        invariant calls == Calls(watchdog.timeout, events[..n])
        invariant pending == PendingAfter(events[..n]) && alarm == AlarmAfter(watchdog.timeout, events[..n])
        invariant W.State(watchdog.lastFeed, expired) == WatchState(watchdog.timeout, events[..n])
      {
        assert events[..n + 1][..n] == events[..n];
        RunPrefix(watchdog.timeout, events, n);
        WatchStep(watchdog.timeout, events, n);
        expired, alarm := HandleEvent(events[n], expired, alarm);
      }
      assert events[..|events|] == events;
    }
  }

  lemma {:induction false} RunPrefix(timeout: W.Time, events: seq<Event>, n: nat)
    requires IsRun(timeout, events) && n < |events|
    ensures Allowed(PendingAfter(events[..n]), AlarmAfter(timeout, events[..n]), events[n])
    decreases |events|
  {
    hide Allowed, AlarmAfter, PendingAfter;
    var front := events[..|events| - 1];
    if n < |front| {
      RunPrefix(timeout, front, n);
      assert front[..n] == events[..n];
    }
  }

  lemma StartState(timeout: W.Time)
    ensures WatchState(timeout, []) == W.State(None, false)
  {
  }

  lemma WatchStep(timeout: W.Time, events: seq<Event>, n: nat)
    requires n < |events|
    ensures WatchState(timeout, events[..n + 1]) == NextWatch(timeout, WatchState(timeout, events[..n]), events[n])
  {
    assert events[..n + 1][..n] == events[..n];
    var before, now := Watched(events[..n]), Watched(events[..n + 1]);
    AfterPrefix(timeout, before, now, |before|);
  }

  lemma {:induction false} AfterPrefix(timeout: W.Time, a: seq<W.Event>, b: seq<W.Event>, n: nat)
    requires a <= b && n <= |a|
    ensures W.After(timeout, a, n) == W.After(timeout, b, n)
  {
    if n > 0 {
      AfterPrefix(timeout, a, b, n - 1);
    }
  }

  // ---- the acknowledgment stream ----

  lemma {:induction false} ConnectedPublishesAll(events: seq<Event>)
    requires forall e :: e in events ==> IsUp(e)
    ensures Published(events) == Stream(events)
  {
    if events != [] {
      ConnectedPublishesAll(events[..|events| - 1]);
    }
  }

  /** What an event asks for is published exactly if the link is up then, and is not made up for later. */
  lemma PublishedIffUp(events: seq<Event>, e: Event)
    requires e.Received? || e.Called?
    ensures Stream(events) <= Stream(events + [e])
    ensures Published(events + [e]) ==
            Published(events) + (if e.up then Stream(events + [e])[|Stream(events)|..] else [])
    ensures e.Called? && PendingAfter(events).Some? ==> |Stream(events + [e])| == |Stream(events)| + 1
    ensures e.Received? && e.command.Some? ==> |Stream(events + [e])| == |Stream(events)| + 1
  {
    OneMore(events, e);
    hide Stream, Published, PendingAfter, Verdict, Expired;
    AsksOnce(PendingAfter(events), e);
    hide Asked;
  }

  lemma OneMore(events: seq<Event>, e: Event)
    ensures Stream(events + [e]) == Stream(events) + Asked(PendingAfter(events), e)
    ensures Published(events + [e]) == Published(events) + Delivered(PendingAfter(events), e)
  {
    hide Asked, Delivered;
    assert (events + [e])[..|events|] == events;
  }

  lemma AsksOnce(pending: Option<Pending>, e: Event)
    ensures e.Called? && pending.Some? ==> |Asked(pending, e)| == 1
    ensures e.Received? && e.command.Some? ==> |Asked(pending, e)| == 1
  {
  }

  /** Whatever the link does, what is published is the full stream with acknowledgments missing. */
  lemma {:induction false} PublishedIsSubsequence(events: seq<Event>)
    ensures Subsequence(Published(events), Stream(events))
  {
    if events != [] {
      var before, e := events[..|events| - 1], events[|events| - 1];
      var p := PendingAfter(before);
      PublishedIsSubsequence(before);
      DeliveredIsSubsequence(p, e);
      SubsequenceAppend(Published(before), Stream(before), Delivered(p, e), Asked(p, e));
    }
  }

  lemma DeliveredIsSubsequence(pending: Option<Pending>, e: Event)
    ensures Subsequence(Delivered(pending, e), Asked(pending, e))
  {
    var asked := Asked(pending, e);
    if asked != [] {
      assert asked[1..] == [];
    }
  }

  /** The block that an event completes. */
  function Block(pending: Option<Pending>, e: Event): seq<Ack> {
    if e.Received? && e.command.Some? && Expired(e.command.value, e.now) then
      [Ack(e.command.value.id, FAILED, "command expired")]
    else if e.Called? && pending.Some? then
      [Ack(pending.value.command.id, ACK, ""), Verdict(pending.value.command, e.outcome)]
    else []
  }

  function Whole(events: seq<Event>): seq<Ack> {
    if events == [] then []
    else
      var before := events[..|events| - 1];
      Whole(before) + Block(PendingAfter(before), events[|events| - 1])
  }

  /** The block of a command that still waits for the VM has only begun. */
  function Begun(pending: Option<Pending>): seq<Ack> {
    if pending.None? then [] else [Ack(pending.value.command.id, ACK, "")]
  }

  /** Blocks do not mix: the stream is the completed blocks, and perhaps the start of one more. */
  lemma {:induction false} StreamIsBlocks(timeout: W.Time, events: seq<Event>)
    requires IsRun(timeout, events)
    ensures Stream(events) == Whole(events) + Begun(PendingAfter(events))
  {
    hide Asked, Block, Begun, NextPending, Allowed, AlarmAfter;
    if events == [] {
      NothingBegun();
    } else {
      var before, e := events[..|events| - 1], events[|events| - 1];
      var p := PendingAfter(before);
      StreamIsBlocks(timeout, before);
      BlockGrows(p, AlarmAfter(timeout, before), e);
      var whole, begun, asked := Whole(before), Begun(p), Asked(p, e);
      var block, next := Block(p, e), Begun(NextPending(p, e));
      assert (whole + begun) + asked == whole + (begun + asked);
      assert (whole + block) + next == whole + (block + next);
    }
  }

  lemma NothingBegun()
    ensures Begun(None) == []
  {
  }

  lemma BlockGrows(pending: Option<Pending>, alarm: Option<W.Time>, e: Event)
    requires Allowed(pending, alarm, e)
    ensures Begun(pending) + Asked(pending, e) == Block(pending, e) + Begun(NextPending(pending, e))
  {
  }

  /** What the receiver of the stream learns about one command. */
  datatype Report = Refused(ref: string) | Answered(ref: string, verdict: Ack)

  /** The receiver's reading of the stream: a leading failure stands alone, anything else is
      followed by its verdict. */
  function Parse(acks: seq<Ack>): Option<seq<Report>> {
    if acks == [] then Some([])
    else if !StartsBlock(acks) then None
    else
      match Parse(acks[HeadLength(acks)..])
      case None => None
      case Some(rest) => Some([Head(acks)] + rest)
  }

  predicate StartsBlock(acks: seq<Ack>) {
    acks != [] && (acks[0].status == FAILED || (acks[0].status == ACK && |acks| >= 2 && acks[1].ref == acks[0].ref))
  }

  function HeadLength(acks: seq<Ack>): (n: nat)
    requires StartsBlock(acks)
    ensures 1 <= n <= |acks|
  {
    if acks[0].status == FAILED then 1 else 2
  }

  function Head(acks: seq<Ack>): Report
    requires StartsBlock(acks)
  {
    if acks[0].status == FAILED then Refused(acks[0].ref) else Answered(acks[0].ref, acks[1])
  }

  lemma HeadExtends(acks: seq<Ack>, more: seq<Ack>)
    requires StartsBlock(acks)
    ensures StartsBlock(acks + more)
    ensures HeadLength(acks + more) == HeadLength(acks) && Head(acks + more) == Head(acks)
    ensures (acks + more)[HeadLength(acks)..] == acks[HeadLength(acks)..] + more
  {
  }

  function ReportOf(pending: Option<Pending>, e: Event): seq<Report> {
    if e.Received? && e.command.Some? && Expired(e.command.value, e.now) then [Refused(e.command.value.id)]
    else if e.Called? && pending.Some? then
      [Answered(pending.value.command.id, Verdict(pending.value.command, e.outcome))]
    else []
  }

  /** One report per command that has been refused or answered. */
  function Reports(events: seq<Event>): seq<Report> {
    if events == [] then []
    else
      var before := events[..|events| - 1];
      Reports(before) + ReportOf(PendingAfter(before), events[|events| - 1])
  }

  lemma ParseOne(pending: Option<Pending>, e: Event)
    ensures Parse(Block(pending, e)) == Some(ReportOf(pending, e))
  {
    var b := Block(pending, e);
    assert |ACK| != |FAILED|;
    if |b| == 1 {
      assert b[1..] == [];
      assert Parse(b) == Some([Refused(b[0].ref)] + []);
      assert [Refused(b[0].ref)] + [] == ReportOf(pending, e);
    } else if |b| == 2 {
      assert b[2..] == [];
      assert Parse(b) == Some([Answered(b[0].ref, b[1])] + []);
      assert [Answered(b[0].ref, b[1])] + [] == ReportOf(pending, e);
    }
  }

  lemma {:induction false} ParseBlock(acks: seq<Ack>, pending: Option<Pending>, e: Event)
    requires Parse(acks).Some?
    ensures Parse(acks + Block(pending, e)) == Some(Parse(acks).value + ReportOf(pending, e))
    decreases |acks|
  {
    hide Block, ReportOf, StartsBlock, Head, HeadLength;
    var b, r := Block(pending, e), ReportOf(pending, e);
    if acks == [] {
      assert acks + b == b;
      ParseOne(pending, e);
      assert Parse(acks).value + r == r;
    } else {
      var all, n := acks + b, HeadLength(acks);
      ParseBlock(acks[n..], pending, e);
      HeadExtends(acks, b);
      assert [Head(acks)] + (Parse(acks[n..]).value + r) == Parse(acks).value + r;
    }
  }

  /** The ids of the well-formed commands received, in order. */
  function ReceivedIds(events: seq<Event>): seq<string> {
    if events == [] then [] else ReceivedIds(events[..|events| - 1]) + IdOf(events[|events| - 1])
  }

  function IdOf(e: Event): seq<string> {
    if e.Received? && e.command.Some? then [e.command.value.id] else []
  }

  function Refs(reports: seq<Report>): seq<string> {
    if reports == [] then [] else Refs(reports[..|reports| - 1]) + [reports[|reports| - 1].ref]
  }

  function PendingId(pending: Option<Pending>): seq<string> {
    if pending.None? then [] else [pending.value.command.id]
  }

  lemma RefsGrow(reports: seq<Report>, pending: Option<Pending>, e: Event)
    ensures var more := ReportOf(pending, e);
      |more| <= 1 && Refs(reports + more) == Refs(reports) + if more == [] then [] else [more[0].ref]
  {
    var more := ReportOf(pending, e);
    assert more == [] ==> reports + more == reports;
    assert more != [] ==> (reports + more)[..|reports|] == reports;
  }

  lemma IdsGrow(pending: Option<Pending>, alarm: Option<W.Time>, e: Event)
    requires Allowed(pending, alarm, e)
    ensures var more := ReportOf(pending, e);
      (if more == [] then [] else [more[0].ref]) + PendingId(NextPending(pending, e)) == PendingId(pending) + IdOf(e)
  {
  }

  /** Every well-formed command that is received gets its report, in the order of receipt, but for the
      one that still waits for the VM; and nothing else is reported. */
  lemma {:induction false} EveryCommandReported(timeout: W.Time, events: seq<Event>)
    requires IsRun(timeout, events)
    ensures Refs(Reports(events)) + PendingId(PendingAfter(events)) == ReceivedIds(events)
  {
    hide Allowed, AlarmAfter, NextPending, ReportOf, IdOf, Refs, PendingId;
    if events == [] {
      NothingReported();
    } else {
      var before, e := events[..|events| - 1], events[|events| - 1];
      var p := PendingAfter(before);
      EveryCommandReported(timeout, before);
      RefsGrow(Reports(before), p, e);
      IdsGrow(p, AlarmAfter(timeout, before), e);
      var more := if ReportOf(p, e) == [] then [] else [ReportOf(p, e)[0].ref];
      Regroup(Refs(Reports(before)), more, PendingId(NextPending(p, e)), PendingId(p), IdOf(e));
    }
  }

  lemma NothingReported()
    ensures Refs([]) + PendingId(None) == []
  {
  }

  lemma Regroup(refs: seq<string>, more: seq<string>, next: seq<string>, pending: seq<string>, id: seq<string>)
    requires more + next == pending + id
    ensures (refs + more) + next == (refs + pending) + id
  {
    assert (refs + more) + next == refs + (more + next);
    assert (refs + pending) + id == refs + (pending + id);
  }

  /** The stream is a concatenation of blocks, one per well-formed command and in order, whatever
      heartbeats, ticks and default-mode calls come in between; reading it back gives each command's
      reference and verdict. Only the block of a command that waits for the VM is incomplete. */
  lemma {:induction false} StreamRoundTrip(timeout: W.Time, events: seq<Event>)
    requires IsRun(timeout, events)
    ensures Stream(events) == Whole(events) + Begun(PendingAfter(events))
    ensures Parse(Whole(events)) == Some(Reports(events))
    ensures Refs(Reports(events)) + PendingId(PendingAfter(events)) == ReceivedIds(events)
  {
    StreamIsBlocks(timeout, events);
    EveryCommandReported(timeout, events);
    if events != [] {
      var before := events[..|events| - 1];
      StreamRoundTrip(timeout, before);
      ParseBlock(Whole(before), PendingAfter(before), events[|events| - 1]);
    }
  }

  // ---- the driver calls ----

  function Commanded(calls: seq<Call>): seq<string> {
    if calls == [] then []
    else
      var last := calls[|calls| - 1];
      Commanded(calls[..|calls| - 1]) + if last.DriverCommand? then [last.command.id] else []
  }

  function AnsweredRefs(reports: seq<Report>): seq<string> {
    if reports == [] then []
    else
      var last := reports[|reports| - 1];
      AnsweredRefs(reports[..|reports| - 1]) + if last.Answered? then [last.ref] else []
  }

  function DefaultTimes(calls: seq<Call>): seq<W.Time> {
    if calls == [] then []
    else DefaultTimes(calls[..|calls| - 1]) + if calls[|calls| - 1].DefaultMode? then [calls[|calls| - 1].alarm] else []
  }

  lemma CallSnoc(calls: seq<Call>, c: Call)
    ensures Commanded(calls + [c]) == Commanded(calls) + if c.DriverCommand? then [c.command.id] else []
    ensures DefaultTimes(calls + [c]) == DefaultTimes(calls) + if c.DefaultMode? then [c.alarm] else []
  {
    assert (calls + [c])[..|calls|] == calls;
  }

  lemma ReportSnoc(reports: seq<Report>, r: Report)
    ensures AnsweredRefs(reports + [r]) == AnsweredRefs(reports) + if r.Answered? then [r.ref] else []
  {
    assert (reports + [r])[..|reports|] == reports;
  }

  /** `driver_command` runs for exactly the commands that are answered with two acknowledgments, in
      the same order, and so for none that was expired when it was checked (`CheckedBeforeCalled`). */
  lemma {:induction false} CommandedAreAnswered(timeout: W.Time, events: seq<Event>)
    ensures Commanded(Calls(timeout, events)) == AnsweredRefs(Reports(events))
  {
    if events != [] {
      var before, e := events[..|events| - 1], events[|events| - 1];
      CommandedAreAnswered(timeout, before);
      EventSnoc(Calls(timeout, before), Reports(before), PendingAfter(before), AlarmAfter(timeout, before), e);
      hide CallsAt, ReportOf;
    }
  }

  /** One event adds the same id on both sides, or none. */
  lemma EventSnoc(calls: seq<Call>, reports: seq<Report>, pending: Option<Pending>, alarm: Option<W.Time>, e: Event)
    ensures var added := if e.Called? && pending.Some? then [pending.value.command.id] else [];
      && Commanded(calls + CallsAt(pending, alarm, e)) == Commanded(calls) + added
      && AnsweredRefs(reports + ReportOf(pending, e)) == AnsweredRefs(reports) + added
  {
    NothingAdded(calls, reports);
    if ReportOf(pending, e) != [] {
      ReportSnoc(reports, ReportOf(pending, e)[0]);
    }
    if CallsAt(pending, alarm, e) != [] {
      CallSnoc(calls, CallsAt(pending, alarm, e)[0]);
    }
  }

  lemma NothingAdded(calls: seq<Call>, reports: seq<Report>)
    ensures calls + [] == calls && reports + [] == reports
    ensures Commanded(calls) + [] == Commanded(calls) && AnsweredRefs(reports) + [] == AnsweredRefs(reports)
  {
  }

  // ---- expiry ----

  /** Event `i` received and accepted the command of the call, at the time the call records. */
  predicate Accepts(events: seq<Event>, i: nat, command: Command, checkedAt: int) {
    && i < |events| && events[i].Received? && events[i].command == Some(command) && events[i].now == checkedAt
    && !Expired(command, checkedAt)
  }

  lemma AcceptsLater(events: seq<Event>, i: nat, command: Command, checkedAt: int)
    requires events != []
    ensures Accepts(events[..|events| - 1], i, command, checkedAt) ==> Accepts(events, i, command, checkedAt)
  {
  }

  lemma {:induction false} PendingAccepted(events: seq<Event>) returns (i: nat)
    requires PendingAfter(events).Some?
    ensures var p := PendingAfter(events).value; Accepts(events, i, p.command, p.checkedAt)
  {
    var before, e := events[..|events| - 1], events[|events| - 1];
    var p := PendingAfter(events).value;
    if e.Received? && e.command.Some? && !Expired(e.command.value, e.now) {
      i := |events| - 1;
    } else {
      i := PendingAccepted(before);
      AcceptsLater(events, i, p.command, p.checkedAt);
    }
  }

  /** Every call was made for a command that was well formed, received before it, and unexpired when it was checked. */
  lemma {:induction false} CheckedBeforeCalled(timeout: W.Time, events: seq<Event>)
    ensures forall c :: c in Calls(timeout, events) && c.DriverCommand? ==>
                          exists i: nat :: Accepts(events, i, c.command, c.checkedAt)
  {
    if events != [] {
      var before := events[..|events| - 1];
      CheckedBeforeCalled(timeout, before);
      forall c | c in Calls(timeout, events) && c.DriverCommand?
        ensures exists i: nat :: Accepts(events, i, c.command, c.checkedAt)
      {
        var i: nat;
        if c in Calls(timeout, before) {
          i :| Accepts(before, i, c.command, c.checkedAt);
        } else {
          i := PendingAccepted(before);
        }
        AcceptsLater(events, i, c.command, c.checkedAt);
        assert Accepts(events, i, c.command, c.checkedAt);
      }
    }
  }

  /** The driver is called after a command's expiry exactly when the command expired while its
      callback waited for the VM. */
  lemma ExpiredAtCallIff(timeout: W.Time, events: seq<Event>, c: Call)
    requires c in Calls(timeout, events) && c.DriverCommand?
    ensures Expired(c.command, c.at) <==>
            0 < c.command.expiresAt && c.checkedAt <= c.command.expiresAt < c.at
  {
    CheckedBeforeCalled(timeout, events);
    var i: nat :| Accepts(events, i, c.command, c.checkedAt);
  }

  /** Such a call: the command is in time when it is checked, and late when the VM is free. */
  lemma LateCall(timeout: W.Time, command: Command, outcome: Outcome, delay: nat)
    requires command.expiresAt > 0 && delay > 0
    ensures var events := [Received(Some(command), command.expiresAt, true),
                           Called(command.expiresAt + delay, outcome, true)];
      && IsRun(timeout, events)
      && Calls(timeout, events) == [DriverCommand(command, command.expiresAt, command.expiresAt + delay)]
      && Expired(command, command.expiresAt + delay)
  {
    var first := Received(Some(command), command.expiresAt, true);
    var events := [first, Called(command.expiresAt + delay, outcome, true)];
    assert events[..1] == [first] && [first][..0] == [];
    assert IsRun(timeout, []) && IsRun(timeout, [first]);
    assert PendingAfter([first]) == Some(Pending(command, command.expiresAt));
    assert Calls(timeout, [first]) == [];
  }

  // ---- default mode ----

  /** The ticks at which the watchdog fires, from its own events alone. */
  function Alarms(timeout: W.Time, watched: seq<W.Event>, n: nat): seq<W.Time>
    requires n <= |watched|
  {
    if n == 0 then []
    else Alarms(timeout, watched, n - 1) + if W.Fires(timeout, watched, n - 1) then [watched[n - 1].at] else []
  }

  lemma {:induction false} AlarmsPrefix(timeout: W.Time, a: seq<W.Event>, b: seq<W.Event>, n: nat)
    requires a <= b && n <= |a|
    ensures Alarms(timeout, a, n) == Alarms(timeout, b, n)
  {
    if n > 0 {
      AlarmsPrefix(timeout, a, b, n - 1);
      AfterPrefix(timeout, a, b, n - 1);
    }
  }

  function AlarmAt(timeout: W.Time, watch: W.State, e: Event): seq<W.Time> {
    if e.Tick? && W.Overdue(timeout, watch, e.at) && !watch.expired then [e.at] else []
  }

  /** An alarm whose callback waits for the VM. */
  function Waiting(alarm: Option<W.Time>): seq<W.Time> {
    if alarm.None? then [] else [alarm.value]
  }

  lemma DefaultsStep(timeout: W.Time, calls: seq<Call>, pending: Option<Pending>, alarm: Option<W.Time>,
                     watch: W.State, e: Event)
    requires Allowed(pending, alarm, e)
    ensures DefaultTimes(calls + CallsAt(pending, alarm, e)) + Waiting(NextAlarm(timeout, watch, alarm, e)) ==
            DefaultTimes(calls) + Waiting(alarm) + AlarmAt(timeout, watch, e)
  {
    var more := CallsAt(pending, alarm, e);
    if more == [] {
      assert calls + more == calls;
    } else {
      CallSnoc(calls, more[0]);
      assert calls + more == calls + [more[0]];
    }
  }

  lemma AlarmsStep(timeout: W.Time, before: seq<W.Event>, e: Event)
    ensures var now, watch := before + Seen(e), W.After(timeout, before, |before|);
      Alarms(timeout, now, |now|) == Alarms(timeout, before, |before|) + AlarmAt(timeout, watch, e)
  {
    var now := before + Seen(e);
    AlarmsPrefix(timeout, before, now, |before|);
    AfterPrefix(timeout, before, now, |before|);
  }

  /** The default-mode calls, with one whose callback may still wait, are the watchdog's alarms over
      heartbeats and ticks. */
  lemma {:induction false} DefaultsAreAlarms(timeout: W.Time, events: seq<Event>)
    requires IsRun(timeout, events)
    ensures DefaultTimes(Calls(timeout, events)) + Waiting(AlarmAfter(timeout, events)) ==
            Alarms(timeout, Watched(events), |Watched(events)|)
  {
    hide CallsAt, AlarmAt, Seen, Alarms, DefaultTimes, NextAlarm, Waiting, Allowed;
    if events == [] {
      NoAlarms(timeout);
    } else {
      var before, e := events[..|events| - 1], events[|events| - 1];
      DefaultsAreAlarms(timeout, before);
      DefaultsStep(timeout, Calls(timeout, before), PendingAfter(before), AlarmAfter(timeout, before),
                   WatchState(timeout, before), e);
      AlarmsStep(timeout, Watched(before), e);
    }
  }

  lemma NoAlarms(timeout: W.Time)
    ensures DefaultTimes([]) + Waiting(None) == Alarms(timeout, [], 0)
  {
  }

  lemma WatchedDecides(timeout: W.Time, a: seq<Event>, b: seq<Event>)
    requires IsRun(timeout, a) && IsRun(timeout, b) && Watched(a) == Watched(b)
    ensures DefaultTimes(Calls(timeout, a)) + Waiting(AlarmAfter(timeout, a)) ==
            DefaultTimes(Calls(timeout, b)) + Waiting(AlarmAfter(timeout, b))
  {
    DefaultsAreAlarms(timeout, a);
    DefaultsAreAlarms(timeout, b);
  }

  // ---- default mode, by the events alone ----

  /** The heartbeats and ticks of a run. */
  function Beats(events: seq<Event>): (beats: seq<Event>)
    ensures forall e :: e in beats ==> e.Heartbeat? || e.Tick?
    ensures forall e :: e in events && (e.Heartbeat? || e.Tick?) ==> e in beats
  {
    if events == [] then []
    else
      var last := events[|events| - 1];
      Beats(events[..|events| - 1]) + if last.Heartbeat? || last.Tick? then [last] else []
  }

  lemma {:induction false} WatchedBeats(events: seq<Event>)
    ensures Watched(Beats(events)) == Watched(events)
  {
    if events != [] {
      var before, e := events[..|events| - 1], events[|events| - 1];
      WatchedBeats(before);
      if e.Heartbeat? || e.Tick? {
        assert (Beats(before) + [e])[..|Beats(before)|] == Beats(before);
      } else {
        assert Beats(before) + [] == Beats(before);
      }
    }
  }

  /** Commands never feed the watchdog: two runs that differ only in their commands, driver calls and
      callbacks enter default mode for the same alarms; at most the last alarm's callback waits in one
      and not in the other. */
  lemma CommandsDoNotFeed(timeout: W.Time, a: seq<Event>, b: seq<Event>)
    requires IsRun(timeout, a) && IsRun(timeout, b) && Beats(a) == Beats(b)
    ensures DefaultTimes(Calls(timeout, a)) + Waiting(AlarmAfter(timeout, a)) ==
            DefaultTimes(Calls(timeout, b)) + Waiting(AlarmAfter(timeout, b))
  {
    WatchedBeats(a);
    WatchedBeats(b);
    WatchedDecides(timeout, a, b);
  }

  /** The last heartbeat before event `n`. */
  function LastBeat(events: seq<Event>, n: nat): (r: Option<nat>)
    requires n <= |events|
    ensures r.Some? ==> r.value < n && events[r.value].Heartbeat?
                        && forall k :: r.value < k < n ==> !events[k].Heartbeat?
    ensures r.None? ==> forall k :: 0 <= k < n ==> !events[k].Heartbeat?
  {
    if n == 0 then None else if events[n - 1].Heartbeat? then Some(n - 1) else LastBeat(events, n - 1)
  }

  /** The last tick before event `n`. */
  function LastLook(events: seq<Event>, n: nat): (r: Option<nat>)
    requires n <= |events|
    ensures r.Some? ==> r.value < n && events[r.value].Tick? && forall k :: r.value < k < n ==> !events[k].Tick?
    ensures r.None? ==> forall k :: 0 <= k < n ==> !events[k].Tick?
  {
    if n == 0 then None else if events[n - 1].Tick? then Some(n - 1) else LastLook(events, n - 1)
  }

  /** Event `i` is a tick that finds the last heartbeat more than the timeout old. */
  predicate FindsSilence(timeout: W.Time, events: seq<Event>, i: nat)
    requires i < |events|
  {
    var b := LastBeat(events, i);
    events[i].Tick? && b.Some? && events[i].at - events[b.value].at > timeout
  }

  /** It finds that, and the tick before it did not. */
  predicate Raises(timeout: W.Time, events: seq<Event>, i: nat)
    requires i < |events|
  {
    var t := LastLook(events, i);
    FindsSilence(timeout, events, i) && (t.Some? ==> !FindsSilence(timeout, events, t.value))
  }

  /** The times at which an alarm is raised among the first `n` events. */
  function RaisedTimes(timeout: W.Time, events: seq<Event>, n: nat): seq<W.Time>
    requires n <= |events|
  {
    if n == 0 then []
    else RaisedTimes(timeout, events, n - 1) + if Raises(timeout, events, n - 1) then [events[n - 1].at] else []
  }

  /** What the watchdog loop knows is what heartbeats and ticks say, whatever commands come in between. */
  lemma {:induction false} WatchHistory(timeout: W.Time, events: seq<Event>, n: nat)
    requires n <= |events|
    ensures var b, t, watch := LastBeat(events, n), LastLook(events, n), WatchState(timeout, events[..n]);
      && watch.lastFeed == (if b.None? then None else Some(events[b.value].at))
      && (watch.expired <==> t.Some? && FindsSilence(timeout, events, t.value))
  {
    hide WatchState;
    if n == 0 {
      StartState(timeout);
    } else {
      WatchHistory(timeout, events, n - 1);
      WatchStep(timeout, events, n - 1);
    }
  }

  lemma AlarmByHistory(timeout: W.Time, events: seq<Event>, n: nat)
    requires n < |events|
    ensures AlarmAt(timeout, WatchState(timeout, events[..n]), events[n]) ==
            if Raises(timeout, events, n) then [events[n].at] else []
  {
    hide WatchState;
    WatchHistory(timeout, events, n);
  }

  /** A tick raises an alarm exactly when the last heartbeat before it is more than the timeout old and
      the tick before it did not find that. */
  lemma TickRaisesIff(timeout: W.Time, events: seq<Event>, n: nat)
    requires IsRun(timeout, events) && n < |events| && events[n].Tick?
    ensures AlarmAfter(timeout, events[..n + 1]) == (if Raises(timeout, events, n) then Some(events[n].at) else None)
  {
    hide WatchState;
    RunPrefix(timeout, events, n);
    AlarmByHistory(timeout, events, n);
    assert events[..n + 1][..n] == events[..n];
    hide Raises;
  }

  /** The default-mode calls, with one whose callback may still wait, are made for exactly the ticks that
      raise an alarm. */
  lemma {:induction false} DefaultsExactly(timeout: W.Time, events: seq<Event>, n: nat)
    requires IsRun(timeout, events) && n <= |events|
    ensures DefaultTimes(Calls(timeout, events[..n])) + Waiting(AlarmAfter(timeout, events[..n])) ==
            RaisedTimes(timeout, events, n)
  {
    hide WatchState, AlarmAt, Raises, CallsAt, NextAlarm, DefaultTimes, Waiting, Allowed;
    if n == 0 {
      NoAlarms(timeout);
    } else {
      var before, e := events[..n - 1], events[n - 1];
      DefaultsExactly(timeout, events, n - 1);
      RunPrefix(timeout, events, n - 1);
      AlarmByHistory(timeout, events, n - 1);
      assert events[..n][..n - 1] == before;
      DefaultsStep(timeout, Calls(timeout, before), PendingAfter(before), AlarmAfter(timeout, before),
                   WatchState(timeout, before), e);
    }
  }

  // ---- outcomes ----

  /** The status each driver call's outcome asks for. */
  function CalledStatuses(events: seq<Event>): seq<string> {
    if events == [] then []
    else
      var last := events[|events| - 1];
      CalledStatuses(events[..|events| - 1]) +
      if !last.Called? then []
      else if last.outcome.CallFailed? || last.outcome.ReturnedFalse? then ["failed"] else ["executed"]
  }

  /** The statuses of the second acknowledgments. */
  function AnsweredStatuses(reports: seq<Report>): seq<string> {
    if reports == [] then []
    else
      var last := reports[|reports| - 1];
      AnsweredStatuses(reports[..|reports| - 1]) + if last.Answered? then [last.verdict.status] else []
  }

  /** A command is reported as executed exactly when its driver call returned neither an error nor false. */
  lemma {:induction false} ExecutedIff(timeout: W.Time, events: seq<Event>)
    requires IsRun(timeout, events)
    ensures AnsweredStatuses(Reports(events)) == CalledStatuses(events)
  {
    if events != [] {
      var before, e := events[..|events| - 1], events[|events| - 1];
      ExecutedIff(timeout, before);
      StatusGrows(Reports(before), PendingAfter(before), AlarmAfter(timeout, before), e);
      hide ReportOf, Allowed, AlarmAfter;
    }
  }

  lemma StatusGrows(reports: seq<Report>, pending: Option<Pending>, alarm: Option<W.Time>, e: Event)
    requires Allowed(pending, alarm, e)
    ensures AnsweredStatuses(reports + ReportOf(pending, e)) ==
            AnsweredStatuses(reports) +
            if !e.Called? then []
            else if e.outcome.CallFailed? || e.outcome.ReturnedFalse? then ["failed"] else ["executed"]
  {
    var more := ReportOf(pending, e);
    if more == [] {
      assert reports + more == reports;
    } else {
      assert (reports + more)[..|reports|] == reports;
    }
  }

  /** The goroutines do overlap: while a command waits for the VM a silence is noticed and the default
      mode entered first. */
  lemma Overlap(timeout: W.Time, command: Command, now: int, outcome: Outcome)
    requires timeout > 0 && !Expired(command, now)
    ensures IsRun(timeout, [Heartbeat(0), Received(Some(command), now, true), Tick(timeout + 1), Defaulted,
                            Called(now, outcome, true)])
  {
    var events := [Heartbeat(0), Received(Some(command), now, true), Tick(timeout + 1), Defaulted,
                   Called(now, outcome, true)];
    hide WatchState;
    WatchHistory(timeout, events, 2);
    assert LastBeat(events, 2) == Some(0);
    assert events[..5] == events && events[..5][..4] == events[..4] && events[..4][..3] == events[..3];
    assert events[..3][..2] == events[..2] && events[..2][..1] == events[..1] && events[..1][..0] == [];
    assert IsRun(timeout, events[..1]) && AlarmAfter(timeout, events[..1]) == None && PendingAfter(events[..1]) == None;
    assert IsRun(timeout, events[..2]) && AlarmAfter(timeout, events[..2]) == None;
    assert PendingAfter(events[..2]) == Some(Pending(command, now));
    assert IsRun(timeout, events[..3]) && AlarmAfter(timeout, events[..3]) == Some(timeout + 1);
    assert PendingAfter(events[..3]) == PendingAfter(events[..2]);
    assert IsRun(timeout, events[..4]) && PendingAfter(events[..4]) == PendingAfter(events[..2]);
  }
}

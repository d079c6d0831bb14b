/** The fleet as a value: what one message does to it, and what a whole message log
    has made of it, told from the log alone. */
module FleetLog {
  import opened Common
  import opened Subjects
  import Text

  type Json = string
  type Time = int

  /** A received message: its subject, what JSON decoding made of its data, and the clock at the
      three moments the handler reads it. */
  datatype Message = Message(subject: string, data: Option<map<string, Json>>,
                             gatewaySeen: Time, deviceSeen: Time, stamped: Time)

  datatype DerView = DerView(derType: string, data: map<string, Json>, timestamp: Time)
  datatype DeviceView = DeviceView(id: string, lastSeen: Option<Time>, ders: map<string, DerView>)
  datatype GatewayView = GatewayView(serial: string, lastSeen: Option<Time>, devices: map<string, DeviceView>)
  type FleetView = map<string, GatewayView>

  // ---- the updates ----

  function WithGateway(v: FleetView, g: string): FleetView {
    if g in v then v else v[g := GatewayView(g, None, map[])]
  }

  function GatewaySeen(v: FleetView, g: string, at: Time): FleetView
    requires g in v
  {
    v[g := v[g].(lastSeen := Some(at))]
  }

  function SetDevice(v: FleetView, g: string, d: string, dev: DeviceView): FleetView
    requires g in v
  {
    v[g := v[g].(devices := v[g].devices[d := dev])]
  }

  function WithDevice(v: FleetView, g: string, d: string): FleetView
    requires g in v
  {
    if d in v[g].devices then v else SetDevice(v, g, d, DeviceView(d, None, map[]))
  }

  function DeviceSeen(v: FleetView, g: string, d: string, at: Time): FleetView
    requires g in v && d in v[g].devices
  {
    SetDevice(v, g, d, v[g].devices[d].(lastSeen := Some(at)))
  }

  function Stored(v: FleetView, g: string, d: string, t: string, der: DerView): FleetView
    requires g in v && d in v[g].devices
  {
    SetDevice(v, g, d, v[g].devices[d].(ders := v[g].devices[d].ders[t := der]))
  }

  /** What one message does: every message that names another gateway leaves an entry for it,
      whatever else its subject says. */
  function Apply(own: string, v: FleetView, m: Message): FleetView {
    match RouteOf(m.subject, own)
    case Ignored => v
    case Response => v
    case Noted(g) => WithGateway(v, g)
    case State(g) => GatewaySeen(WithGateway(v, g), g, m.gatewaySeen)
    case Reading(g, d, t) => Recorded(WithGateway(v, g), g, d, t, m)
  }

  /** A telemetry message: gateway and device are seen, and decodable data replaces the DER's reading. */
  function Recorded(v: FleetView, g: string, d: string, t: string, m: Message): FleetView
    requires g in v
  {
    var seen := DeviceSeen(WithDevice(GatewaySeen(v, g, m.gatewaySeen), g, d), g, d, m.deviceSeen);
    if m.data.None? then seen
    else Stored(seen, g, d, t, DerView(t, m.data.value, m.stamped))
  }

  function ApplyAll(own: string, v: FleetView, messages: seq<Message>): FleetView {
    if messages == [] then v
    else Apply(own, ApplyAll(own, v, messages[..|messages| - 1]), messages[|messages| - 1])
  }

  function Fleet(own: string, log: seq<Message>): FleetView {
    ApplyAll(own, map[], log)
  }

  // ---- the history ----

  /** The kinds of message a part of the fleet is made from. */
  datatype Query =
    | Naming(g: string)                        // names the gateway at all
    | Touching(g: string)                      // state or telemetry of the gateway
    | About(g: string, d: string)              // telemetry of the device
    | Carrying(g: string, d: string, t: string) // telemetry of the DER with decodable data

  predicate Matches(own: string, m: Message, q: Query) {
    var r := RouteOf(m.subject, own);
    match q
    case Naming(g) => (r.State? || r.Reading? || r.Noted?) && r.gateway == g
    case Touching(g) => (r.State? || r.Reading?) && r.gateway == g
    case About(g, d) => r.Reading? && r.gateway == g && r.device == d
    case Carrying(g, d, t) => r == Reading(g, d, t) && m.data.Some?
  }

  /** The last message of the log that matches. */
  function Last(own: string, log: seq<Message>, q: Query): (r: Option<Message>)
    ensures r.Some? ==> Matches(own, r.value, q)
  {
    if log == [] then None
    else if Matches(own, log[|log| - 1], q) then Some(log[|log| - 1])
    else Last(own, log[..|log| - 1], q)
  }

  predicate IsLast(own: string, log: seq<Message>, q: Query, i: int) {
    0 <= i < |log| && Matches(own, log[i], q) && forall k :: i < k < |log| ==> !Matches(own, log[k], q)
  }

  /** `Last` is the message at the one index after which nothing matches, or none if nothing does. */
  lemma {:induction false} LastIsLast(own: string, log: seq<Message>, q: Query)
    ensures forall i :: IsLast(own, log, q, i) ==> Last(own, log, q) == Some(log[i])
    ensures Last(own, log, q).Some? ==> exists i :: IsLast(own, log, q, i)
    ensures Last(own, log, q).None? ==> forall i :: 0 <= i < |log| ==> !Matches(own, log[i], q)
  {
    hide Matches;
    if log != [] {
      var n, front := |log| - 1, log[..|log| - 1];
      LastIsLast(own, front, q);
      assert forall k :: 0 <= k < n ==> front[k] == log[k];
      if Matches(own, log[n], q) {
        assert IsLast(own, log, q, n);
      } else {
        assert forall i :: IsLast(own, log, q, i) <==> IsLast(own, front, q, i);
      }
    }
  }

  /** What the history says about one DER, one device, one gateway. */
  ghost predicate DerIsHistory(own: string, log: seq<Message>, g: string, d: string, t: string,
                               ders: map<string, DerView>)
  {
    var m := Last(own, log, Carrying(g, d, t));
    && (t in ders <==> m.Some?)
    && (m.Some? ==> ders[t] == DerView(t, m.value.data.value, m.value.stamped))
  }

  ghost predicate DeviceIsHistory(own: string, log: seq<Message>, g: string, d: string,
                                  devices: map<string, DeviceView>)
  {
    var m := Last(own, log, About(g, d));
    && (d in devices <==> m.Some?)
    && (m.Some? ==>
          && devices[d].id == d && devices[d].lastSeen == Some(m.value.deviceSeen)
          && forall t :: DerIsHistory(own, log, g, d, t, devices[d].ders))
  }

  ghost predicate GatewayIsHistory(own: string, log: seq<Message>, g: string, v: FleetView) {
    var m, s := Last(own, log, Naming(g)), Last(own, log, Touching(g));
    && (g in v <==> m.Some?)
    && (m.Some? ==>
          && v[g].serial == g
          && v[g].lastSeen == (if s.Some? then Some(s.value.gatewaySeen) else None)
          && forall d :: DeviceIsHistory(own, log, g, d, v[g].devices))
  }

  lemma NoReadingNoDer(own: string, log: seq<Message>, g: string, d: string, t: string)
    ensures Last(own, log, Carrying(g, d, t)).Some? ==> Last(own, log, About(g, d)).Some?
    ensures Last(own, log, About(g, d)).Some? ==> Last(own, log, Touching(g)).Some?
    ensures Last(own, log, Touching(g)).Some? ==> Last(own, log, Naming(g)).Some?
  {
    hide RouteOf;
    if log != [] {
      NoReadingNoDer(own, log[..|log| - 1], g, d, t);
    }
  }

  lemma LastSnoc(own: string, log: seq<Message>, m: Message, q: Query)
    ensures Last(own, log + [m], q) == if Matches(own, m, q) then Some(m) else Last(own, log, q)
  {
    hide Matches;
    assert (log + [m])[..|log|] == log;
  }

  // ---- one message, part by part ----

  function Devices(v: FleetView, g: string): map<string, DeviceView> {
    if g in v then v[g].devices else map[]
  }

  function Ders(v: FleetView, g: string, d: string): map<string, DerView> {
    if d in Devices(v, g) then Devices(v, g)[d].ders else map[]
  }

  lemma ApplyGateway(own: string, v: FleetView, m: Message, g: string)
    ensures var n := Apply(own, v, m);
      && (g in n <==> g in v || Matches(own, m, Naming(g)))
      && (g in n ==> n[g].serial == if g in v then v[g].serial else g)
      && (g in n ==> n[g].lastSeen == if Matches(own, m, Touching(g)) then Some(m.gatewaySeen)
                                      else if g in v then v[g].lastSeen else None)
  {
    hide RouteOf;
  }

  lemma GatewaySeenDevices(v: FleetView, g': string, at: Time, g: string)
    requires g' in v
    ensures Devices(GatewaySeen(v, g', at), g) == Devices(v, g)
  {
  }

  lemma SetDeviceDevices(v: FleetView, g': string, d': string, dev: DeviceView, g: string)
    requires g' in v
    ensures Devices(SetDevice(v, g', d', dev), g) == if g == g' then Devices(v, g)[d' := dev] else Devices(v, g)
  {
  }

  /** What a reading does to the devices of a gateway. */
  lemma RecordedDevices(v: FleetView, g': string, d': string, t': string, m: Message, g: string)
    requires g' in v
    ensures var was := Devices(v, g);
      var dev := if d' in was then was[d'] else DeviceView(d', None, map[]);
      var ders := if m.data.None? then dev.ders else dev.ders[t' := DerView(t', m.data.value, m.stamped)];
      Devices(Recorded(v, g', d', t', m), g) ==
      if g == g' then was[d' := DeviceView(dev.id, Some(m.deviceSeen), ders)] else was
  {
    var v1 := GatewaySeen(v, g', m.gatewaySeen);
    var v2 := WithDevice(v1, g', d');
    var v3 := DeviceSeen(v2, g', d', m.deviceSeen);
    GatewaySeenDevices(v, g', m.gatewaySeen, g);
    GatewaySeenDevices(v, g', m.gatewaySeen, g');
    if d' !in v1[g'].devices {
      SetDeviceDevices(v1, g', d', DeviceView(d', None, map[]), g);
    }
    SetDeviceDevices(v2, g', d', v2[g'].devices[d'].(lastSeen := Some(m.deviceSeen)), g);
    if m.data.Some? {
      var der := DerView(t', m.data.value, m.stamped);
      SetDeviceDevices(v3, g', d', v3[g'].devices[d'].(ders := v3[g'].devices[d'].ders[t' := der]), g);
    }
    hide GatewaySeen, SetDevice;
  }

  lemma WithGatewayDevices(v: FleetView, g': string, g: string)
    ensures Devices(WithGateway(v, g'), g) == Devices(v, g)
  {
  }

  /** What any message does to the devices of a gateway. */
  lemma ApplyDevices(own: string, v: FleetView, m: Message, g: string)
    ensures var r := RouteOf(m.subject, own);
      Devices(Apply(own, v, m), g) ==
      if r.Reading? && r.gateway == g then Devices(Recorded(WithGateway(v, g), g, r.device, r.der, m), g)
      else Devices(v, g)
  {
    hide RouteOf;
    match RouteOf(m.subject, own)
    case Ignored =>
    case Response =>
    case Noted(h) => WithGatewayDevices(v, h, g);
    case State(h) =>
      WithGatewayDevices(v, h, g);
      GatewaySeenDevices(WithGateway(v, h), h, m.gatewaySeen, g);
    case Reading(h, d, t) =>
      WithGatewayDevices(v, h, g);
      RecordedDevices(WithGateway(v, h), h, d, t, m, g);
      hide Recorded, WithGateway, Devices;
  }

  lemma ApplyDevice(own: string, v: FleetView, m: Message, g: string, d: string)
    ensures var was, now := Devices(v, g), Devices(Apply(own, v, m), g);
      && (d in now <==> d in was || Matches(own, m, About(g, d)))
      && (d in now ==> now[d].id == if d in was then was[d].id else d)
      && (d in now ==> now[d].lastSeen == if Matches(own, m, About(g, d)) then Some(m.deviceSeen)
                                          else was[d].lastSeen)
  {
    hide RouteOf, Apply, Recorded, WithGateway, Devices;
    ApplyDevices(own, v, m, g);
    WithGatewayDevices(v, g, g);
    var r := RouteOf(m.subject, own);
    if r.Reading? && r.gateway == g {
      GatewayPresent(v, g);
      RecordedDevices(WithGateway(v, g), g, r.device, r.der, m, g);
    }
  }

  lemma GatewayPresent(v: FleetView, g: string)
    ensures g in WithGateway(v, g)
  {
  }

  lemma ApplyDer(own: string, v: FleetView, m: Message, g: string, d: string, t: string)
    ensures var was, now := Ders(v, g, d), Ders(Apply(own, v, m), g, d);
      && (t in now <==> t in was || Matches(own, m, Carrying(g, d, t)))
      && (t in now ==> now[t] == if Matches(own, m, Carrying(g, d, t)) then DerView(t, m.data.value, m.stamped)
                                 else was[t])
  {
    hide RouteOf, Apply, Recorded, WithGateway, Devices;
    ApplyDevices(own, v, m, g);
    WithGatewayDevices(v, g, g);
    var r := RouteOf(m.subject, own);
    if r.Reading? && r.gateway == g {
      GatewayPresent(v, g);
      RecordedDevices(WithGateway(v, g), g, r.device, r.der, m, g);
    }
  }

  // ---- the history across one message ----

  lemma DerStep(own: string, log: seq<Message>, m: Message, g: string, d: string, t: string)
    requires DerIsHistory(own, log, g, d, t, Ders(Fleet(own, log), g, d))
    ensures DerIsHistory(own, log + [m], g, d, t, Ders(Apply(own, Fleet(own, log), m), g, d))
  {
    hide Apply, Ders, Last;
    ApplyDer(own, Fleet(own, log), m, g, d, t);
    LastSnoc(own, log, m, Carrying(g, d, t));
  }

  lemma HistoryOfDers(own: string, log: seq<Message>, g: string, d: string, t: string)
    requires GatewayIsHistory(own, log, g, Fleet(own, log))
    ensures DerIsHistory(own, log, g, d, t, Ders(Fleet(own, log), g, d))
  {
    hide RouteOf, Last;
    NoReadingNoDer(own, log, g, d, t);
    var v := Fleet(own, log);
    if g in v {
      assert DeviceIsHistory(own, log, g, d, v[g].devices);
    }
  }

  lemma HistoryOfDevices(own: string, log: seq<Message>, g: string, d: string)
    requires GatewayIsHistory(own, log, g, Fleet(own, log))
    ensures DeviceIsHistory(own, log, g, d, Devices(Fleet(own, log), g))
  {
    hide RouteOf, Last, DerIsHistory;
    NoReadingNoDer(own, log, g, d, "");
    var v := Fleet(own, log);
    if g in v {
      assert DeviceIsHistory(own, log, g, d, v[g].devices);
    }
  }

  lemma DeviceStep(own: string, log: seq<Message>, m: Message, g: string, d: string)
    requires GatewayIsHistory(own, log, g, Fleet(own, log))
    ensures DeviceIsHistory(own, log + [m], g, d, Devices(Apply(own, Fleet(own, log), m), g))
  {
    hide Apply, Last, DerIsHistory, GatewayIsHistory;
    var now := Devices(Apply(own, Fleet(own, log), m), g);
    HistoryOfDevices(own, log, g, d);
    ApplyDevice(own, Fleet(own, log), m, g, d);
    LastSnoc(own, log, m, About(g, d));
    if d in now {
      forall t ensures DerIsHistory(own, log + [m], g, d, t, now[d].ders) {
        HistoryOfDers(own, log, g, d, t);
        DerStep(own, log, m, g, d, t);
      }
    }
  }

  lemma GatewayStep(own: string, log: seq<Message>, m: Message, g: string)
    requires GatewayIsHistory(own, log, g, Fleet(own, log))
    ensures GatewayIsHistory(own, log + [m], g, Apply(own, Fleet(own, log), m))
  {
    hide Apply, Last, DeviceIsHistory;
    var v := Apply(own, Fleet(own, log), m);
    ApplyGateway(own, Fleet(own, log), m, g);
    LastSnoc(own, log, m, Naming(g));
    LastSnoc(own, log, m, Touching(g));
    NoReadingNoDer(own, log, g, "", "");
    if g in v {
      forall d ensures DeviceIsHistory(own, log + [m], g, d, v[g].devices) {
        DeviceStep(own, log, m, g, d);
      }
    }
  }

  lemma EmptyHistory(own: string, g: string)
    ensures GatewayIsHistory(own, [], g, map[])
  {
  }

  /** After any log of messages: which gateways there are, when each was last seen, which devices
      it has, and the data of each DER are all read off the last matching message. */
  lemma {:induction false} FleetIsHistory(own: string, log: seq<Message>, g: string)
    ensures GatewayIsHistory(own, log, g, Fleet(own, log))
  {
    hide Apply, GatewayIsHistory;
    if log == [] {
      EmptyHistory(own, g);
    } else {
      var front := log[..|log| - 1];
      FleetIsHistory(own, front, g);
      GatewayStep(own, front, log[|log| - 1], g);
      assert log == front + [log[|log| - 1]];
    }
  }

  /** The node itself never appears. */
  lemma {:induction false} OwnNeverAppears(own: string, log: seq<Message>)
    ensures own !in Fleet(own, log)
  {
    FleetIsHistory(own, log, own);
    if log != [] {
      OwnNeverAppears(own, log[..|log| - 1]);
    }
  }

  /** A gateway was last seen with the last message of its state or telemetry. */
  lemma SeenWithLast(own: string, log: seq<Message>, g: string, i: int)
    requires IsLast(own, log, Touching(g), i)
    ensures g in Fleet(own, log) && Fleet(own, log)[g].lastSeen == Some(log[i].gatewaySeen)
  {
    FleetIsHistory(own, log, g);
    NoReadingNoDer(own, log, g, "", "");
    LastIsLast(own, log, Touching(g));
    hide Matches, Last, Fleet;
  }

  /** A DER holds the data of the last telemetry message about it that could be decoded. */
  lemma HoldsLast(own: string, log: seq<Message>, g: string, d: string, t: string, i: int)
    requires IsLast(own, log, Carrying(g, d, t), i)
    ensures var ders := Ders(Fleet(own, log), g, d);
            t in ders && ders[t] == DerView(t, log[i].data.value, log[i].stamped)
  {
    FleetIsHistory(own, log, g);
    HistoryOfDers(own, log, g, d, t);
    LastIsLast(own, log, Carrying(g, d, t));
    hide Last, Fleet, Ders, GatewayIsHistory;
  }

  // ---- what one message does, by the pieces of its subject ----

  function GatewayIn(v: FleetView, g: string): GatewayView {
    if g in v then v[g] else GatewayView(g, None, map[])
  }

  function DeviceIn(v: FleetView, g: string, d: string): DeviceView {
    if d in GatewayIn(v, g).devices then GatewayIn(v, g).devices[d] else DeviceView(d, None, map[])
  }

  ghost predicate IsSubject(m: Message, pieces: seq<string>) {
    pieces != [] && (forall p :: p in pieces ==> Text.DotFree(p)) && Text.Join(pieces) == m.subject
  }

  /** Short subjects, the node's own and probe responses change nothing. */
  lemma PassedOver(own: string, v: FleetView, m: Message, pieces: seq<string>)
    requires IsSubject(m, pieces)
    requires |pieces| == 1 || pieces[1] == own || (|pieces| >= 4 && pieces[2] == "hugin" && pieces[3] == "responses")
    ensures Apply(own, v, m) == v
  {
    hide RouteOf;
    RouteJoined(pieces, own);
  }

  /** A state message: the gateway is there and was seen. */
  lemma StateApplied(own: string, v: FleetView, m: Message, pieces: seq<string>)
    requires IsSubject(m, pieces) && |pieces| >= 3 && pieces[1] != own && pieces[2] == "state"
    ensures var g := pieces[1];
            Apply(own, v, m) == v[g := GatewayIn(v, g).(lastSeen := Some(m.gatewaySeen))]
  {
    hide RouteOf;
    RouteJoined(pieces, own);
  }

  predicate TelemetryPieces(pieces: seq<string>) {
    |pieces| >= 7 && pieces[2] == "devices" && pieces[4] == "ders" && pieces[6] == "telemetry"
  }

  /** Telemetry: gateway and device were seen, and data that can be decoded replace those of the DER. */
  lemma TelemetryApplied(own: string, v: FleetView, m: Message, pieces: seq<string>)
    requires IsSubject(m, pieces) && TelemetryPieces(pieces) && pieces[1] != own
    ensures var g, d, t := pieces[1], pieces[3], pieces[5];
      var dev := DeviceIn(v, g, d);
      var ders := if m.data.None? then dev.ders else dev.ders[t := DerView(t, m.data.value, m.stamped)];
      Apply(own, v, m) ==
      v[g := GatewayIn(v, g).(lastSeen := Some(m.gatewaySeen),
                              devices := GatewayIn(v, g).devices[d := dev.(lastSeen := Some(m.deviceSeen),
                                                                           ders := ders)])]
  {
    hide RouteOf;
    RouteJoined(pieces, own);
    var g := pieces[1];
    RecordedWhole(WithGateway(v, g), g, pieces[3], pieces[5], m);
    hide Recorded;
  }

  lemma RecordedWhole(v: FleetView, g: string, d: string, t: string, m: Message)
    requires g in v
    ensures var dev := DeviceIn(v, g, d);
      var ders := if m.data.None? then dev.ders else dev.ders[t := DerView(t, m.data.value, m.stamped)];
      Recorded(v, g, d, t, m) ==
      v[g := v[g].(lastSeen := Some(m.gatewaySeen),
                   devices := v[g].devices[d := dev.(lastSeen := Some(m.deviceSeen), ders := ders)])]
  {
    var dev := DeviceIn(v, g, d);
    var gw := v[g].(lastSeen := Some(m.gatewaySeen));
    var seen := dev.(lastSeen := Some(m.deviceSeen));
    var v1 := GatewaySeen(v, g, m.gatewaySeen);
    var v2 := WithDevice(v1, g, d);
    var v3 := DeviceSeen(v2, g, d, m.deviceSeen);
    assert v1 == v[g := gw];
    assert v2[g].devices[d] == dev && v2 == v[g := gw.(devices := v2[g].devices)];
    assert v2[g].devices[d := seen] == v[g].devices[d := seen];
    assert v3 == v[g := gw.(devices := v[g].devices[d := seen])];
    if m.data.Some? {
      var stored := seen.(ders := dev.ders[t := DerView(t, m.data.value, m.stamped)]);
      assert v3[g].devices[d := stored] == v[g].devices[d := stored];
    }
  }

  /** Any other message of another node leaves an entry for it and nothing else: no time, no device. */
  lemma OthersNoted(own: string, v: FleetView, m: Message, pieces: seq<string>)
    requires IsSubject(m, pieces) && |pieces| >= 2 && pieces[1] != own && !TelemetryPieces(pieces)
    requires |pieces| < 3 || pieces[2] != "state"
    requires |pieces| < 4 || pieces[2] != "hugin" || pieces[3] != "responses"
    ensures Apply(own, v, m) == v[pieces[1] := GatewayIn(v, pieces[1])]
  {
    hide RouteOf;
    RouteJoined(pieces, own);
  }

  // ---- probe responses ----

  /** The message is a probe response of another node. */
  predicate IsResponse(own: string, m: Message) {
    var p := Text.Split(m.subject);
    |p| >= 4 && p[1] != own && p[2] == "hugin" && p[3] == "responses"
  }

  function Responses(own: string, log: seq<Message>): seq<Message> {
    if log == [] then []
    else
      var last := log[|log| - 1];
      Responses(own, log[..|log| - 1]) + if IsResponse(own, last) then [last] else []
  }

  lemma ResponseRoute(own: string, m: Message)
    ensures RouteOf(m.subject, own) == Response <==> IsResponse(own, m)
  {
    hide RouteOf;
    var pieces := Text.Split(m.subject);
    Text.SplitUnique(m.subject, pieces);
    RouteJoined(pieces, own);
  }

  /** The responses are the log's, in its order, none left out and none added. */
  lemma {:induction false} ResponsesExactly(own: string, log: seq<Message>, m: Message)
    ensures Subsequence(Responses(own, log), log)
    ensures multiset(Responses(own, log))[m] == if IsResponse(own, m) then multiset(log)[m] else 0
  {
    hide IsResponse;
    if log != [] {
      var front, last := log[..|log| - 1], log[|log| - 1];
      assert log == front + [last];
      ResponsesExactly(own, front, m);
      SubsequenceAppend(Responses(own, front), front, if IsResponse(own, last) then [last] else [], [last]);
    }
  }
}

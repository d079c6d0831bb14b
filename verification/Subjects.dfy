/** The subjects the gateway publishes on, and the way the fleet monitor takes a
    subject apart again. */
module Subjects {
  import opened Text

  // ---- builders ----

  function DeviceSubject(gateway: string, device: string, der: string, channel: string): string {
    "gateways." + gateway + ".devices." + device + ".ders." + der + "." + channel
  }

  function TelemetrySubject(gateway: string, device: string, der: string): string {
    DeviceSubject(gateway, device, der, "telemetry.json.v1")
  }

  function ControlCommandsSubject(gateway: string, device: string, der: string): string {
    DeviceSubject(gateway, device, der, "control.ems.commands")
  }

  function ControlAckSubject(gateway: string, device: string, der: string): string {
    DeviceSubject(gateway, device, der, "control.ems.ack")
  }

  function ControlHeartbeatSubject(gateway: string, device: string, der: string): string {
    DeviceSubject(gateway, device, der, "control.ems.heartbeat")
  }

  function GatewayStateSubject(gateway: string): string {
    "gateways." + gateway + ".state.json.v1"
  }

  function GatewayEventsSubject(gateway: string): string {
    "gateways." + gateway + ".events"
  }

  function HuginProbeSubject(gateway: string): string {
    "gateways." + gateway + ".hugin.probe"
  }

  /** One call of one of the builders. */
  datatype Subject =
    | Telemetry(gateway: string, device: string, der: string)
    | Commands(gateway: string, device: string, der: string)
    | Ack(gateway: string, device: string, der: string)
    | Heartbeat(gateway: string, device: string, der: string)
    | GatewayState(gateway: string)
    | Events(gateway: string)
    | Probe(gateway: string)

  function Print(s: Subject): string {
    match s
    case Telemetry(g, d, t) => TelemetrySubject(g, d, t)
    case Commands(g, d, t) => ControlCommandsSubject(g, d, t)
    case Ack(g, d, t) => ControlAckSubject(g, d, t)
    case Heartbeat(g, d, t) => ControlHeartbeatSubject(g, d, t)
    case GatewayState(g) => GatewayStateSubject(g)
    case Events(g) => GatewayEventsSubject(g)
    case Probe(g) => HuginProbeSubject(g)
  }

  predicate PerDevice(s: Subject) {
    s.Telemetry? || s.Commands? || s.Ack? || s.Heartbeat?
  }

  /** The tokens put into the subject contain no dot. */
  predicate Plain(s: Subject) {
    DotFree(s.gateway) && (PerDevice(s) ==> DotFree(s.device) && DotFree(s.der))
  }

  // ---- routing ----

  /** The branch of the monitor's message handler that a subject selects. `Noted` is the
      fall-through: the gateway gets an entry and nothing else happens. */
  datatype Route =
    | Ignored
    | Response
    | State(gateway: string)
    | Reading(gateway: string, device: string, der: string)
    | Noted(gateway: string)

  function RouteOf(subject: string, own: string): Route {
    var parts := Split(subject);
    if |parts| < 2 then Ignored
    else if parts[1] == own then Ignored
    else if |parts| >= 4 && parts[2] == "hugin" && parts[3] == "responses" then Response
    else if |parts| >= 3 && parts[2] == "state" then State(parts[1])
    else if |parts| < 7 || parts[2] != "devices" || parts[4] != "ders" || parts[6] != "telemetry" then Noted(parts[1])
    else Reading(parts[1], parts[3], parts[5])
  }

  // ---- taking subjects apart ----

  lemma SplitDeviceSubject(g: string, d: string, t: string, channel: string)
    ensures Split(DeviceSubject(g, d, t, channel))
         == ["gateways"] + Split(g) + ["devices"] + Split(d) + ["ders"] + Split(t) + Split(channel)
  {
    hide Split;
    var afterDer := t + "." + channel;
    var afterDevice := d + "." + ("ders" + "." + afterDer);
    var afterGateway := g + "." + ("devices" + "." + afterDevice);
    assert DeviceSubject(g, d, t, channel) == "gateways" + "." + afterGateway;
    SplitAtDot("gateways", afterGateway);
    SplitAtDot(g, "devices" + "." + afterDevice);
    SplitAtDot("devices", afterDevice);
    SplitAtDot(d, "ders" + "." + afterDer);
    SplitAtDot("ders", afterDer);
    SplitAtDot(t, channel);
    SplitDotFree("gateways");
    SplitDotFree("devices");
    SplitDotFree("ders");
  }

  lemma SplitGatewaySubject(g: string, rest: string)
    ensures Split("gateways." + g + "." + rest) == ["gateways"] + Split(g) + Split(rest)
  {
    hide Split;
    assert "gateways." + g + "." + rest == "gateways" + "." + (g + "." + rest);
    SplitAtDot("gateways", g + "." + rest);
    SplitAtDot(g, rest);
    SplitDotFree("gateways");
  }

  lemma SplitThree(a: string, b: string, c: string, rest: string)
    requires DotFree(a) && DotFree(b) && DotFree(c) && rest == a + "." + b + "." + c
    ensures Split(rest) == [a, b, c]
  {
    SplitAtDot(a + "." + b, c);
    SplitAtDot(a, b);
    SplitDotFree(a);
    SplitDotFree(b);
    SplitDotFree(c);
  }

  lemma SplitTwo(a: string, b: string, rest: string)
    requires DotFree(a) && DotFree(b) && rest == a + "." + b
    ensures Split(rest) == [a, b]
  {
    SplitAtDot(a, b);
    SplitDotFree(a);
    SplitDotFree(b);
  }

  /** What follows the last token in the subjects of each kind. */
  function Ending(s: Subject): seq<string> {
    match s
    case Telemetry(_, _, _) => ["telemetry", "json", "v1"]
    case Commands(_, _, _) => ["control", "ems", "commands"]
    case Ack(_, _, _) => ["control", "ems", "ack"]
    case Heartbeat(_, _, _) => ["control", "ems", "heartbeat"]
    case GatewayState(_) => ["state", "json", "v1"]
    case Events(_) => ["events"]
    case Probe(_) => ["hugin", "probe"]
  }

  function Channel(s: Subject): string
    requires PerDevice(s)
  {
    match s
    case Telemetry(_, _, _) => "telemetry.json.v1"
    case Commands(_, _, _) => "control.ems.commands"
    case Ack(_, _, _) => "control.ems.ack"
    case Heartbeat(_, _, _) => "control.ems.heartbeat"
  }

  lemma SplitControlChannel(word: string)
    requires DotFree(word)
    ensures Split("control.ems." + word) == ["control", "ems", word]
  {
    hide Split;
    assert "control.ems." + word == "control" + "." + "ems" + "." + word;
    SplitThree("control", "ems", word, "control.ems." + word);
  }

  lemma SplitChannel(s: Subject)
    requires PerDevice(s)
    ensures Split(Channel(s)) == Ending(s)
  {
    hide Split;
    match s
    case Telemetry(_, _, _) => SplitThree("telemetry", "json", "v1", "telemetry.json.v1");
    case Commands(_, _, _) =>
      SplitControlChannel("commands");
      assert Channel(s) == "control.ems." + "commands";
    case Ack(_, _, _) =>
      SplitControlChannel("ack");
      assert Channel(s) == "control.ems." + "ack";
    case Heartbeat(_, _, _) =>
      SplitControlChannel("heartbeat");
      assert Channel(s) == "control.ems." + "heartbeat";
  }

  lemma PrintsDevice(s: Subject)
    requires PerDevice(s)
    ensures Print(s) == DeviceSubject(s.gateway, s.device, s.der, Channel(s))
  {
    hide DeviceSubject;
  }

  lemma SplitPrintDevice(s: Subject)
    requires PerDevice(s)
    ensures Split(Print(s))
         == ["gateways"] + Split(s.gateway) + ["devices"] + Split(s.device) + ["ders"] + Split(s.der) + Ending(s)
  {
    hide Split, Print, DeviceSubject, Channel, Ending;
    PrintsDevice(s);
    SplitDeviceSubject(s.gateway, s.device, s.der, Channel(s));
    SplitChannel(s);
  }

  lemma SplitPrintGateway(s: Subject)
    requires !PerDevice(s)
    ensures Split(Print(s)) == ["gateways"] + Split(s.gateway) + Ending(s)
  {
    hide Split;
    match s
    case GatewayState(g) =>
      SplitThree("state", "json", "v1", "state.json.v1");
      SplitGatewaySubject(g, "state.json.v1");
      assert Print(s) == "gateways." + g + "." + "state.json.v1";
    case Events(g) =>
      SplitDotFree("events");
      SplitGatewaySubject(g, "events");
      assert Print(s) == "gateways." + g + "." + "events";
    case Probe(g) =>
      SplitTwo("hugin", "probe", "hugin.probe");
      SplitGatewaySubject(g, "hugin.probe");
      assert Print(s) == "gateways." + g + "." + "hugin.probe";
  }

  function Tokens(s: Subject): seq<string> {
    if PerDevice(s) then ["gateways", s.gateway, "devices", s.device, "ders", s.der] + Ending(s)
    else ["gateways", s.gateway] + Ending(s)
  }

  /** For plain tokens, splitting a subject gives back exactly what was put in. */
  lemma SplitPlain(s: Subject)
    requires Plain(s)
    ensures Split(Print(s)) == Tokens(s)
  {
    hide Split, Print, Ending;
    SplitDotFree(s.gateway);
    if PerDevice(s) {
      SplitPrintDevice(s);
      SplitDotFree(s.device);
      SplitDotFree(s.der);
    } else {
      SplitPrintGateway(s);
    }
  }

  /** A telemetry subject gives its three tokens back to the monitor exactly when none of them contains a dot. */
  lemma TelemetryRoundTrip(g: string, d: string, t: string)
    ensures var parts := Split(TelemetrySubject(g, d, t));
      && |parts| >= 9
      && (parts[1] == g && parts[3] == d && parts[5] == t <==> DotFree(g) && DotFree(d) && DotFree(t))
  {
    hide Split;
    SplitPrintDevice(Telemetry(g, d, t));
    SplitDotFree(g);
    SplitDotFree(d);
    SplitDotFree(t);
    var parts := Split(TelemetrySubject(g, d, t));
    assert parts[1] == Split(g)[0];
    if DotFree(g) {
      assert parts[3] == Split(d)[0];
      if DotFree(d) {
        assert parts[5] == Split(t)[0];
      }
    }
  }

  /** The pieces of a subject between its dots, whatever its tokens. */
  function Pieces(s: Subject): seq<string> {
    if PerDevice(s) then
      ["gateways"] + Split(s.gateway) + ["devices"] + Split(s.device) + ["ders"] + Split(s.der) + Ending(s)
    else ["gateways"] + Split(s.gateway) + Ending(s)
  }

  /** Two calls, with any tokens, print the same subject exactly when their pieces are the same. */
  lemma PrintSame(a: Subject, b: Subject)
    ensures Print(a) == Print(b) <==> Pieces(a) == Pieces(b)
  {
    hide Split, Print, Ending;
    SplitIsPieces(a);
    SplitIsPieces(b);
    JoinSplit(Print(a));
    JoinSplit(Print(b));
  }

  lemma SplitIsPieces(s: Subject)
    ensures Split(Print(s)) == Pieces(s)
  {
    hide Split, Print, Ending;
    if PerDevice(s) {
      SplitPrintDevice(s);
    } else {
      SplitPrintGateway(s);
    }
  }

  /** Dots let different calls collide. */
  lemma DottedCollision(channel: string)
    ensures DeviceSubject("a.devices.b", "c", "d", channel) == DeviceSubject("a", "b.devices.c", "d", channel)
    ensures TelemetrySubject("a.devices.b", "c", "d") == TelemetrySubject("a", "b.devices.c", "d")
  {
    assert "gateways." + "a.devices.b" + ".devices." + "c" == "gateways." + "a" + ".devices." + "b.devices.c";
  }

  /** No two different calls, of one builder or of two, print the same subject under dot-free tokens. */
  lemma PrintInjective(a: Subject, b: Subject)
    requires Plain(a) && Plain(b) && Print(a) == Print(b)
    ensures a == b
  {
    hide Split, Print;
    SplitPlain(a);
    SplitPlain(b);
    var u, v := Tokens(a), Tokens(b);
    assert u == v;
    assert |u| == (if PerDevice(a) then 9 else 2 + |Ending(a)|);
    assert |v| == (if PerDevice(b) then 9 else 2 + |Ending(b)|);
    assert u[1] == v[1] && u[|u| - 1] == v[|v| - 1] && u[2] == v[2];
    if PerDevice(a) {
      assert u[3] == v[3] && u[5] == v[5] && u[6] == v[6];
    }
  }

  /** The branch each subject is meant for. */
  function Meant(s: Subject): Route {
    match s
    case Telemetry(g, d, t) => Reading(g, d, t)
    case GatewayState(g) => State(g)
    case _ => Noted(s.gateway)
  }

  predicate IsControl(s: Subject) {
    s.Commands? || s.Ack? || s.Heartbeat?
  }

  /** The pieces of device and DER put the words of a telemetry subject where the monitor looks for them. */
  predicate LooksLikeTelemetry(device: string, der: string) {
    var p := Split(device) + ["ders"] + Split(der);
    |p| >= 4 && p[1] == "ders" && p[3] == "telemetry"
  }

  /** Among everything the gateway publishes under dot-free tokens, only telemetry reaches the telemetry
      branch, with its own tokens, and only gateway state the state branch; the node's own is ignored. */
  lemma RoutePlain(s: Subject, own: string)
    requires Plain(s)
    ensures RouteOf(Print(s), own) == if s.gateway == own then Ignored else Meant(s)
  {
    hide Split, Print;
    SplitPlain(s);
  }

  /** A gateway with a dot is never what the monitor reads. */
  lemma DottedGateway(s: Subject, own: string)
    requires !DotFree(s.gateway)
    ensures RouteOf(Print(s), own) != Meant(s)
  {
    hide Split, Print;
    SplitPieces(s.gateway);
    if PerDevice(s) {
      SplitPrintDevice(s);
    } else {
      SplitPrintGateway(s);
    }
    assert Split(Print(s))[1] == Split(s.gateway)[0];
    assert Split(s.gateway)[0] in Split(s.gateway);
  }

  lemma RouteControl(s: Subject, own: string)
    requires IsControl(s) && DotFree(s.gateway) && s.gateway != own
    ensures RouteOf(Print(s), own) == Meant(s) <==> !LooksLikeTelemetry(s.device, s.der)
  {
    hide Split, Print;
    SplitPrintDevice(s);
    SplitDotFree(s.gateway);
    var parts, p := Split(Print(s)), Split(s.device) + ["ders"] + Split(s.der);
    assert parts == ["gateways", s.gateway, "devices"] + p + Ending(s);
    assert parts[4] == p[1] && parts[6] == (if |p| >= 4 then p[3] else "control");
  }

  /** Every subject there is reaches the branch it is meant for exactly when its gateway has no dot and
      is not the node's own, telemetry has dot-free tokens, and the tokens of a control subject do not
      look like telemetry. */
  lemma RoutePrinted(s: Subject, own: string)
    ensures RouteOf(Print(s), own) == Meant(s) <==>
            && DotFree(s.gateway) && s.gateway != own
            && (s.Telemetry? ==> DotFree(s.device) && DotFree(s.der))
            && (IsControl(s) ==> !LooksLikeTelemetry(s.device, s.der))
  {
    hide Split, Print, LooksLikeTelemetry;
    if !DotFree(s.gateway) {
      DottedGateway(s, own);
    } else if s.Telemetry? {
      RouteTelemetry(s, own);
    } else if IsControl(s) {
      if s.gateway == own {
        OwnIgnored(s);
      } else {
        RouteControl(s, own);
      }
    } else {
      RoutePlain(s, own);
    }
  }

  lemma RouteTelemetry(s: Subject, own: string)
    requires s.Telemetry?
    ensures RouteOf(Print(s), own) == Meant(s) <==>
            DotFree(s.gateway) && DotFree(s.device) && DotFree(s.der) && s.gateway != own
  {
    assert Print(s) == TelemetrySubject(s.gateway, s.device, s.der);
    TelemetryRoundTrip(s.gateway, s.device, s.der);
    hide Split, Print;
    if Plain(s) {
      RoutePlain(s, own);
    }
  }

  lemma OwnIgnored(s: Subject)
    requires PerDevice(s) && DotFree(s.gateway)
    ensures RouteOf(Print(s), s.gateway) == Ignored
  {
    hide Split, Print;
    SplitPrintDevice(s);
    SplitDotFree(s.gateway);
    assert Split(Print(s))[1] == s.gateway;
  }

  /** Which control subjects, with any tokens at all, reach the telemetry branch. */
  lemma ControlReadAsTelemetry(s: Subject, own: string)
    requires IsControl(s)
    ensures var q := Split(s.gateway) + ["devices"] + Split(s.device) + ["ders"] + Split(s.der);
      RouteOf(Print(s), own).Reading? <==>
      q[0] != own && q[1] == "devices" && q[3] == "ders" && |q| >= 6 && q[5] == "telemetry"
  {
    hide Split, Print;
    SplitPrintDevice(s);
    var parts := Split(Print(s));
    var q := Split(s.gateway) + ["devices"] + Split(s.device) + ["ders"] + Split(s.der);
    assert parts == ["gateways"] + q + Ending(s);
    assert parts[1] == q[0] && parts[2] == q[1] && parts[4] == q[3];
    assert parts[6] == (if |q| >= 6 then q[5] else "control");
  }

  /** A dotted serial can turn telemetry into another gateway's state. */
  lemma DottedSerialMisroutes()
    ensures RouteOf(TelemetrySubject("a.state", "d", "meter"), "own") == State("a")
  {
    hide Split;
    SplitPrintDevice(Telemetry("a.state", "d", "meter"));
    SplitTwo("a", "state", "a.state");
  }

  /** A device name with dots can turn its commands into readings of another device. */
  lemma DottedDeviceMisroutes(g: string, d: string, x: string, y: string, t: string, own: string)
    requires DotFree(g) && DotFree(d) && DotFree(x) && DotFree(y) && g != own
    ensures RouteOf(Print(Commands(g, d + ".ders." + x + ".telemetry." + y, t)), own) == Reading(g, d, x)
  {
    hide Split, Print;
    var s := Commands(g, d + ".ders." + x + ".telemetry." + y, t);
    SplitPrintDevice(s);
    SplitDotFree(g);
    SplitTelemetryLike(d, x, y);
    var parts := Split(Print(s));
    assert parts[..8] == ["gateways", g, "devices", d, "ders", x, "telemetry", y];
  }

  lemma SplitTelemetryLike(d: string, x: string, y: string)
    requires DotFree(d) && DotFree(x) && DotFree(y)
    ensures Split(d + ".ders." + x + ".telemetry." + y) == [d, "ders", x, "telemetry", y]
  {
    hide Split;
    var tail := x + "." + "telemetry" + "." + y;
    assert d + ".ders." + x + ".telemetry." + y == (d + "." + "ders") + "." + tail;
    SplitAtDot(d + "." + "ders", tail);
    SplitTwo(d, "ders", d + "." + "ders");
    SplitThree(x, "telemetry", y, tail);
  }

  // ---- any subject ----

  /** The branch of every subject there is, by the pieces it is joined from. */
  lemma RouteJoined(pieces: seq<string>, own: string)
    requires pieces != [] && (forall p :: p in pieces ==> DotFree(p))
    ensures var n, route := |pieces|, RouteOf(Join(pieces), own);
      && (route == Ignored <==> n == 1 || pieces[1] == own)
      && (route == Response <==> n >= 4 && pieces[1] != own && pieces[2] == "hugin" && pieces[3] == "responses")
      && (route.State? <==> n >= 3 && pieces[1] != own && pieces[2] == "state")
      && (route.Reading? <==> n >= 7 && pieces[1] != own
                              && pieces[2] == "devices" && pieces[4] == "ders" && pieces[6] == "telemetry")
      && (route.State? || route.Noted? || route.Reading? ==> route.gateway == pieces[1])
      && (route.Reading? ==> route.device == pieces[3] && route.der == pieces[5])
  {
    SplitJoin(pieces);
    BranchesApart();
    hide Split, Join;
    var n, route := |pieces|, RouteOf(Join(pieces), own);
    if n == 1 || pieces[1] == own {
      assert route == Ignored;
    } else if n >= 4 && pieces[2] == "hugin" && pieces[3] == "responses" {
      assert route == Response;
    } else if n >= 3 && pieces[2] == "state" {
      assert route == State(pieces[1]);
    }
  }

  lemma BranchesApart()
    ensures "state" != "hugin" && "state" != "devices" && "hugin" != "devices"
  {
    assert |"state"| != |"devices"| && |"hugin"| != |"devices"|;
    assert "state"[0] != "hugin"[0];
  }

  /** A remote node's responses are dispatched, and the node's own are not. */
  lemma ResponsesDispatched(g: string, own: string)
    requires DotFree(g)
    ensures RouteOf("gateways." + g + ".hugin.responses", own) == if g == own then Ignored else Response
  {
    hide Split;
    SplitTwo("hugin", "responses", "hugin.responses");
    SplitGatewaySubject(g, "hugin.responses");
    SplitDotFree(g);
    assert "gateways." + g + ".hugin.responses" == "gateways." + g + "." + "hugin.responses";
  }
}

/** The fleet monitor's shared state: gateways, their devices, their DERs, updated in place
    message by message, and the snapshots taken of it. */
module Fleet {
  import opened Common
  import opened Subjects
  import opened FleetLog
  import Text

  /** A decoded JSON object. Go maps are references: whoever holds one sees every change made to it. */
  class DataMap {
    var entries: map<string, Json>

    constructor (entries: map<string, Json>)
      ensures this.entries == entries
    {
      this.entries := entries;
    }
  }

  /** The latest reading of a DER. It is replaced as a whole and never changed. */
  datatype DerState = DerState(derType: string, data: DataMap, timestamp: Time)

  class DeviceState {
    ghost const gateway: string
    const id: string
    var lastSeen: Option<Time>
    var ders: map<string, DerState>

    constructor (ghost gateway: string, id: string)
      ensures this.gateway == gateway && this.id == id && lastSeen == None && ders == map[]
    {
      this.gateway, this.id, lastSeen, ders := gateway, id, None, map[];
    }
  }

  class GatewayState {
    const serial: string
    var lastSeen: Option<Time>
    var devices: map<string, DeviceState>

    constructor (serial: string)
      ensures this.serial == serial && lastSeen == None && devices == map[]
    {
      this.serial, lastSeen, devices := serial, None, map[];
    }
  }

  // ---- the value of the object graph, and where it may reach ----

  ghost predicate DersWithin(ders: map<string, DerState>, data: set<DataMap>) {
    forall t :: t in ders ==> ders[t].data in data
  }

  ghost function DersValue(ders: map<string, DerState>, data: set<DataMap>): (v: map<string, DerView>)
    requires DersWithin(ders, data)
    reads data
    ensures v.Keys == ders.Keys
    ensures forall t :: t in ders ==> v[t] == DerView(ders[t].derType, ders[t].data.entries, ders[t].timestamp)
  {
    map t | t in ders :: DerView(ders[t].derType, ders[t].data.entries, ders[t].timestamp)
  }

  lemma DersValueGrows(ders: map<string, DerState>, data0: set<DataMap>, data: set<DataMap>)
    requires DersWithin(ders, data0) && data0 <= data
    ensures DersValue(ders, data) == DersValue(ders, data0)
  {
  }

  ghost function DeviceValue(dev: DeviceState, data: set<DataMap>): DeviceView
    requires DersWithin(dev.ders, data)
    reads dev, data
  {
    DeviceView(dev.id, dev.lastSeen, DersValue(dev.ders, data))
  }

  // ---- the updates, place by place ----

  lemma SeenPointwise(v: FleetView, g: string, at: Time)
    requires g in v
    ensures var n := GatewaySeen(v, g, at);
      && n.Keys == v.Keys
      && (forall h :: h in v ==> n[h].serial == v[h].serial && n[h].devices == v[h].devices)
      && (forall h :: h in v ==> n[h].lastSeen == if h == g then Some(at) else v[h].lastSeen)
  {
  }

  lemma AddedPointwise(v: FleetView, g: string)
    requires g !in v
    ensures var n := WithGateway(v, g);
      && n.Keys == v.Keys + {g} && n[g] == GatewayView(g, None, map[])
      && (forall h :: h in v ==> n[h] == v[h])
  {
  }

  lemma SetDevicePointwise(v: FleetView, g: string, d: string, dev: DeviceView)
    requires g in v
    ensures var n := SetDevice(v, g, d, dev);
      && n.Keys == v.Keys
      && (forall h :: h in v ==> n[h].serial == v[h].serial && n[h].lastSeen == v[h].lastSeen)
      && (forall h :: h in v ==> n[h].devices.Keys == v[h].devices.Keys + if h == g then {d} else {})
      && (forall h, e :: h in v && e in n[h].devices ==>
            n[h].devices[e] == if h == g && e == d then dev else v[h].devices[e])
  {
  }

  class FleetMonitor {
    const serial: string
    var gateways: map<string, GatewayState>
    /** Messages handed to the probe dispatcher. */
    var dispatched: seq<Message>
    ghost var gws: set<GatewayState>
    ghost var devs: set<DeviceState>
    ghost var data: set<DataMap>

    /** Every gateway and every device has its one place. */
    ghost predicate Placed()
      reads this`gateways, this`gws, this`devs, gws
    {
      && (forall g :: g in gateways ==> gateways[g] in gws && gateways[g].serial == g)
      && (forall g, d :: g in gateways && d in gateways[g].devices ==>
            && gateways[g].devices[d] in devs
            && gateways[g].devices[d].gateway == g && gateways[g].devices[d].id == d)
    }

    ghost predicate Valid()
      reads this`gateways, this`gws, this`devs, this`data, gws, devs
    {
      Placed() && forall dev :: dev in devs ==> DersWithin(dev.ders, data)
    }

    ghost function Value(): FleetView
      requires Valid()
      reads this`gateways, this`gws, this`devs, this`data, gws, devs, data
    {
      map g | g in gateways ::
        GatewayView(g, gateways[g].lastSeen,
                    map d | d in gateways[g].devices :: DeviceValue(gateways[g].devices[d], data))
    }

    /** `v` records what the objects hold. */
    ghost predicate Shows(v: FleetView)
      requires Valid()
      reads this`gateways, this`gws, this`devs, this`data, gws, devs, data
    {
      && v.Keys == gateways.Keys
      && (forall g :: g in gateways ==>
            && v[g].serial == g && v[g].lastSeen == gateways[g].lastSeen
            && v[g].devices.Keys == gateways[g].devices.Keys)
      && (forall g, d :: g in gateways && d in gateways[g].devices ==>
            v[g].devices[d] == DeviceValue(gateways[g].devices[d], data))
    }

    lemma ShowsValue(v: FleetView)
      requires Valid()
      ensures Shows(v) <==> v == Value()
    {
      hide DersWithin, DeviceValue;
      var now := Value();
      if Shows(v) {
        forall g | g in gateways ensures v[g] == now[g] {
          assert v[g].devices == now[g].devices;
        }
      }
    }

    constructor (serial: string)
      ensures Valid() && this.serial == serial && Value() == map[]
      ensures dispatched == [] && gws == {} && devs == {} && data == {}
    {
      this.serial := serial;
      gateways, dispatched, gws, devs, data := map[], [], {}, {}, {};
    }

    method FindGateway(g: string) returns (gw: GatewayState)
      requires Valid()
      modifies this`gateways, this`gws
      ensures Valid() && fresh(gws - old(gws)) && gws >= old(gws)
      ensures g in gateways && gw == gateways[g] && gw in gws
      ensures Value() == WithGateway(old(Value()), g)
    {
      hide Value, DersWithin, DeviceValue;
      ghost var before := Value();
      ShowsValue(before);
      if g !in gateways {
        gw := new GatewayState(g);
        AddGateway(g, gw);
      }
      gw := gateways[g];
    }

    /** Nothing but an empty gateway is new to what `before` shows. */
    lemma NewGatewayShown(before: FleetView, g: string, gw: GatewayState)
      requires Valid() && g in gateways && gateways[g] == gw && gw.lastSeen == None && gw.devices == map[]
      requires g !in before && gateways.Keys == before.Keys + {g}
      requires forall h :: h in before ==>
        && before[h].serial == h && before[h].lastSeen == gateways[h].lastSeen
        && before[h].devices.Keys == gateways[h].devices.Keys
      requires forall h, e :: h in before && e in gateways[h].devices ==>
        before[h].devices[e] == DeviceValue(gateways[h].devices[e], data)
      ensures Value() == WithGateway(before, g)
    {
      hide Value, DersWithin, DeviceValue;
      AddedPointwise(before, g);
      hide WithGateway;
      ShowsValue(WithGateway(before, g));
    }

    method InsertGateway(g: string, gw: GatewayState)
      requires Valid() && g !in gateways
      requires gw.serial == g && gw.devices == map[]
      modifies this`gateways, this`gws
      ensures Valid() && gws == old(gws) + {gw} && gateways == old(gateways)[g := gw]
    {
      hide DersWithin;
      gws := gws + {gw};
      gateways := gateways[g := gw];
      assert Placed();
    }

    method AddGateway(g: string, gw: GatewayState)
      requires Valid() && g !in gateways
      requires gw.serial == g && gw.lastSeen == None && gw.devices == map[]
      modifies this`gateways, this`gws
      ensures Valid() && gws == old(gws) + {gw} && gateways == old(gateways)[g := gw]
      ensures g !in old(Value()) && Value() == WithGateway(old(Value()), g)
    {
      hide Value, DersWithin, DeviceValue;
      ghost var before := Value();
      ShowsValue(before);
      InsertGateway(g, gw);
      hide Placed, WithGateway;
      NewGatewayShown(before, g, gw);
    }

    /** Only the time of one gateway differs from what `before` shows. */
    lemma GatewaySeenShown(before: FleetView, g: string, at: Time)
      requires Valid() && g in gateways && gateways[g].lastSeen == Some(at)
      requires before.Keys == gateways.Keys
      requires forall h :: h in gateways ==>
        && before[h].serial == h && (h != g ==> before[h].lastSeen == gateways[h].lastSeen)
        && before[h].devices.Keys == gateways[h].devices.Keys
      requires forall h, e :: h in gateways && e in gateways[h].devices ==>
        before[h].devices[e] == DeviceValue(gateways[h].devices[e], data)
      ensures Value() == GatewaySeen(before, g, at)
    {
      hide Value, DersWithin, DeviceValue;
      SeenPointwise(before, g, at);
      hide GatewaySeen;
      ShowsValue(GatewaySeen(before, g, at));
    }

    method SetSeen(g: string, gw: GatewayState, at: Time)
      requires Valid() && g in gateways && gateways[g] == gw
      modifies gw`lastSeen
      ensures Valid() && gw.lastSeen == Some(at)
      ensures forall h :: h in gateways && h != g ==> gateways[h].lastSeen == old(gateways[h].lastSeen)
      ensures forall dev :: dev in devs ==> DeviceValue(dev, data) == old(DeviceValue(dev, data))
    {
      hide DersWithin, DeviceValue;
      gw.lastSeen := Some(at);
    }

    method TouchGateway(g: string, gw: GatewayState, at: Time)
      requires Valid() && g in gateways && gateways[g] == gw
      modifies gw`lastSeen
      ensures Valid()
      ensures g in old(Value()) && Value() == GatewaySeen(old(Value()), g, at)
    {
      hide Value, DersWithin, DeviceValue, GatewaySeen;
      ghost var before := Value();
      ShowsValue(before);
      SetSeen(g, gw, at);
      GatewaySeenShown(before, g, at);
    }

    method FindDevice(g: string, gw: GatewayState, d: string) returns (dev: DeviceState)
      requires Valid() && g in gateways && gateways[g] == gw
      modifies gw`devices, this`devs
      ensures Valid() && fresh(devs - old(devs)) && devs >= old(devs)
      ensures d in gw.devices && dev == gw.devices[d] && dev in devs
      ensures g in old(Value()) && Value() == WithDevice(old(Value()), g, d)
    {
      hide Value, DersValue;
      ghost var before := Value();
      ShowsValue(before);
      if d !in gw.devices {
        dev := new DeviceState(g, d);
        EnrollDevice(dev);
        AddDevice(g, gw, d, dev);
        assert DeviceValue(dev, data) == DeviceView(d, None, map[]);
      }
      dev := gw.devices[d];
    }

    /** If only `dev` differs from what `before` shows, or is new to it, only its place in the value changes. */
    lemma OneDeviceShown(before: FleetView, g: string, d: string, dev: DeviceState)
      requires Valid() && g in gateways && d in gateways[g].devices && gateways[g].devices[d] == dev
      requires before.Keys == gateways.Keys
      requires forall h :: h in gateways ==>
        && before[h].serial == h && before[h].lastSeen == gateways[h].lastSeen
        && before[h].devices.Keys + (if h == g then {d} else {}) == gateways[h].devices.Keys
      requires forall h, e :: h in gateways && e in gateways[h].devices && !(h == g && e == d) ==>
        before[h].devices[e] == DeviceValue(gateways[h].devices[e], data)
      ensures Value() == SetDevice(before, g, d, DeviceValue(dev, data))
    {
      hide Value, DersWithin, DersValue, DeviceValue;
      SetDevicePointwise(before, g, d, DeviceValue(dev, data));
      hide SetDevice;
      ShowsValue(SetDevice(before, g, d, DeviceValue(dev, data)));
    }

    ghost method EnrollDevice(dev: DeviceState)
      requires Valid() && DersWithin(dev.ders, data)
      modifies this`devs
      ensures Valid() && devs == old(devs) + {dev} && Value() == old(Value())
    {
      hide Value, DersWithin, DersValue, DeviceValue;
      ghost var before := Value();
      ShowsValue(before);
      devs := devs + {dev};
      assert Shows(before) by {
        forall h, e | h in gateways && e in gateways[h].devices
          ensures before[h].devices[e] == DeviceValue(gateways[h].devices[e], data)
        {
          assert before[h].devices[e] == old(DeviceValue(gateways[h].devices[e], data));
        }
      }
      ShowsValue(before);
    }

    method AddDevice(g: string, gw: GatewayState, d: string, dev: DeviceState)
      requires Valid() && g in gateways && gateways[g] == gw && d !in gw.devices && dev in devs
      requires dev.gateway == g && dev.id == d
      modifies gw`devices
      ensures Valid() && gw.devices == old(gw.devices)[d := dev]
      ensures g in old(Value()) && Value() == SetDevice(old(Value()), g, d, DeviceValue(dev, data))
    {
      hide Value, DersWithin, DersValue, DeviceValue;
      ghost var before := Value();
      ShowsValue(before);
      gw.devices := gw.devices[d := dev];
      assert Valid();
      forall h, e | h in gateways && e in gateways[h].devices && !(h == g && e == d)
        ensures before[h].devices[e] == DeviceValue(gateways[h].devices[e], data)
      {
        assert before[h].devices[e] == old(DeviceValue(gateways[h].devices[e], data));
      }
      OneDeviceShown(before, g, d, dev);
    }

    /** No other place shows the device. */
    lemma OnlyHere(g: string, d: string, dev: DeviceState)
      requires Valid() && g in gateways && d in gateways[g].devices && gateways[g].devices[d] == dev
      ensures forall h, e :: h in gateways && e in gateways[h].devices && !(h == g && e == d) ==>
        gateways[h].devices[e] != dev
    {
    }

    method TouchDevice(g: string, d: string, dev: DeviceState, at: Time)
      requires Valid() && g in gateways && d in gateways[g].devices && gateways[g].devices[d] == dev
      modifies dev`lastSeen
      ensures Valid()
      ensures g in old(Value()) && d in old(Value())[g].devices && Value() == DeviceSeen(old(Value()), g, d, at)
    {
      hide Value, DersWithin, DersValue;
      ghost var before := Value();
      ShowsValue(before);
      OnlyHere(g, d, dev);
      dev.lastSeen := Some(at);
      assert Valid();
      assert DeviceValue(dev, data) == before[g].devices[d].(lastSeen := Some(at));
      hide DeviceValue, DersWithin, DersValue;
      forall h, e | h in gateways && e in gateways[h].devices && !(h == g && e == d)
        ensures before[h].devices[e] == DeviceValue(gateways[h].devices[e], data)
      {
        assert before[h].devices[e] == old(DeviceValue(gateways[h].devices[e], data));
      }
      OneDeviceShown(before, g, d, dev);
    }

    method AddPayload(content: map<string, Json>) returns (payload: DataMap)
      requires Valid()
      modifies this`data
      ensures Valid() && fresh(payload) && payload.entries == content && data == old(data) + {payload}
      ensures Value() == old(Value())
    {
      hide Value, Placed;
      ghost var before := Value();
      ShowsValue(before);
      payload := new DataMap(content);
      ghost var was := data;
      data := data + {payload};
      assert Valid();
      forall dev | dev in devs ensures DeviceValue(dev, data) == DeviceValue(dev, was) {
        DersValueGrows(dev.ders, was, data);
      }
      ShowsGrown(before, was);
    }

    lemma ShowsGrown(v: FleetView, was: set<DataMap>)
      requires Valid() && was <= data && forall dev :: dev in devs ==> DersWithin(dev.ders, was)
      requires v.Keys == gateways.Keys
      requires forall g :: g in gateways ==>
        && v[g].serial == g && v[g].lastSeen == gateways[g].lastSeen
        && v[g].devices.Keys == gateways[g].devices.Keys
      requires forall g, d :: g in gateways && d in gateways[g].devices ==>
        v[g].devices[d] == DeviceValue(gateways[g].devices[d], was)
      requires forall dev :: dev in devs ==> DeviceValue(dev, data) == DeviceValue(dev, was)
      ensures v == Value()
    {
      hide DersWithin, DeviceValue;
      ShowsValue(v);
    }

    method StoreDer(g: string, d: string, dev: DeviceState, t: string, content: map<string, Json>, at: Time)
      requires Valid() && g in gateways && d in gateways[g].devices && gateways[g].devices[d] == dev
      modifies dev`ders, this`data
      ensures Valid() && fresh(data - old(data)) && data >= old(data)
      ensures g in old(Value()) && d in old(Value())[g].devices
      ensures Value() == Stored(old(Value()), g, d, t, DerView(t, content, at))
    {
      hide Value;
      ghost var before := Value();
      ShowsValue(before);
      var payload := AddPayload(content);
      PlaceDer(g, d, dev, DerState(t, payload, at));
    }

    method SetDer(dev: DeviceState, der: DerState)
      requires Valid() && dev in devs && der.data in data
      modifies dev`ders
      ensures Valid() && dev.ders == old(dev.ders)[der.derType := der]
      ensures DeviceValue(dev, data) ==
              old(DeviceValue(dev, data)).(ders := old(DeviceValue(dev, data)).ders
                [der.derType := DerView(der.derType, der.data.entries, der.timestamp)])
      ensures forall other :: other in devs && other != dev ==>
                DeviceValue(other, data) == old(DeviceValue(other, data))
    {
      dev.ders := dev.ders[der.derType := der];
    }

    method PlaceDer(g: string, d: string, dev: DeviceState, der: DerState)
      requires Valid() && g in gateways && d in gateways[g].devices && gateways[g].devices[d] == dev
      requires der.data in data
      modifies dev`ders
      ensures Valid()
      ensures g in old(Value()) && d in old(Value())[g].devices
      ensures Value() == Stored(old(Value()), g, d, der.derType, DerView(der.derType, der.data.entries, der.timestamp))
    {
      hide Value, DeviceValue, DersWithin, DersValue;
      ghost var before := Value();
      ShowsValue(before);
      OnlyHere(g, d, dev);
      SetDer(dev, der);
      OneDeviceShown(before, g, d, dev);
    }

    method RecordReading(m: Message, g: string, gw: GatewayState, d: string, t: string)
      requires Valid() && g in gateways && gateways[g] == gw && gw in gws
      modifies this`devs, this`data, gw, devs
      ensures Valid() && fresh(devs - old(devs)) && fresh(data - old(data))
      ensures g in old(Value()) && Value() == Recorded(old(Value()), g, d, t, m)
    {
      hide Valid, Value, GatewaySeen, WithDevice, DeviceSeen, Stored;
      TouchGateway(g, gw, m.gatewaySeen);
      var dev := FindDevice(g, gw, d);
      TouchDevice(g, d, dev, m.deviceSeen);
      if m.data.Some? {
        StoreDer(g, d, dev, t, m.data.value, m.stamped);
      }
    }

    /** The message handler. Its frame has no `DataMap`: no message changes data that is already stored. */
    method HandleMessage(m: Message)
      requires Valid()
      modifies this, gws, devs
      ensures Valid() && fresh(gws - old(gws)) && fresh(devs - old(devs)) && fresh(data - old(data))
      ensures Value() == Apply(serial, old(Value()), m)
      ensures dispatched == old(dispatched) + if RouteOf(m.subject, serial) == Response then [m] else []
    {
      hide Valid, Value, WithGateway, GatewaySeen, Recorded, Text.Split;
      var parts := Text.Split(m.subject);
      if |parts| < 2 {
        return;
      }
      var gwSerial := parts[1];
      if gwSerial == serial {
        return;
      }
      if |parts| >= 4 && parts[2] == "hugin" && parts[3] == "responses" {
        dispatched := dispatched + [m];
        return;
      }
      var gw := FindGateway(gwSerial);
      if |parts| >= 3 && parts[2] == "state" {
        TouchGateway(gwSerial, gw, m.gatewaySeen);
        return;
      }
      if |parts| < 7 || parts[2] != "devices" || parts[4] != "ders" || parts[6] != "telemetry" {
        return;
      }
      RecordReading(m, gwSerial, gw, parts[3], parts[5]);
    }

    // ---- snapshots ----

    /** A deep copy of the gateways, their devices and their DERs; only the data maps are shared. */
    method Snapshot() returns (result: seq<GatewayState>, ghost keys: seq<string>, ghost own: set<DeviceState>)
      requires Valid()
      ensures fresh(result) && fresh(own)
      ensures SnapshotShows(result, keys, own, data, Value())
    {
      hide Valid, Placed, DersWithin, DersValue, DeviceValue, Value;
      ghost var v := Value();
      result, keys, own := [], [], {};
      var left := gateways.Keys;
      KeysOfValue();
      while left != {}
        invariant fresh(result) && fresh(own)
        invariant left <= gateways.Keys && forall k :: k in keys <==> k in v && k !in left
        invariant SnapshotRows(result, keys, own, data, v)
      {
        var g :| g in left;
        left := left - {g};
        ghost var more;
        var copy;
        copy, more := CopyGateway(g, gateways[g]);
        ghost var sofar := own;
        own := own + more;
        RowsKeep(result, keys, sofar, own, data, v);
        result := result + [copy];
        keys := keys + [g];
      }
    }

    lemma KeysOfValue()
      requires Valid()
      ensures Value().Keys == gateways.Keys
    {
    }

    method CopyGateway(g: string, gw: GatewayState) returns (copy: GatewayState, ghost own: set<DeviceState>)
      requires Valid() && g in gateways && gateways[g] == gw
      ensures fresh(copy) && fresh(own)
      ensures g in Value() && CopyShows(copy, own, data, Value()[g])
    {
      hide Value, DersValue, DersWithin, DeviceValue;
      ShowsValue(Value());
      hide CopyShows;
      copy, own := CopyAs(g, gw, Value()[g]);
    }

    /** Copies a gateway that `view` shows. */
    method CopyAs(g: string, gw: GatewayState, ghost view: GatewayView)
      returns (copy: GatewayState, ghost own: set<DeviceState>)
      requires Valid() && g in gateways && gateways[g] == gw
      requires view.serial == g && view.lastSeen == gw.lastSeen && view.devices.Keys == gw.devices.Keys
      requires forall d :: d in gw.devices ==> view.devices[d] == DeviceValue(gw.devices[d], data)
      ensures fresh(copy) && fresh(own) && CopyShows(copy, own, data, view)
    {
      hide DersValue, DersWithin, DeviceValue, Placed;
      copy := new GatewayState(g);
      copy.lastSeen := gw.lastSeen;
      var devices;
      devices, own := CopyDevices(g, gw);
      assert forall d :: d in devices ==> DeviceValue(devices[d], data) == view.devices[d];
      copy.devices := devices;
    }

    method CopyDevices(g: string, gw: GatewayState)
      returns (devices: map<string, DeviceState>, ghost own: set<DeviceState>)
      requires Valid() && g in gateways && gateways[g] == gw
      ensures fresh(own) && devices.Keys == gw.devices.Keys
      ensures forall d :: d in devices ==>
        && devices[d] in own && DersWithin(devices[d].ders, data)
        && DeviceValue(devices[d], data) == DeviceValue(gw.devices[d], data)
    {
      hide Value, DersValue, DersWithin, DeviceValue;
      devices, own := map[], {};
      var left := gw.devices.Keys;
      while left != {}
        invariant left <= gw.devices.Keys && fresh(own)
        invariant devices.Keys == gw.devices.Keys - left
        invariant forall d :: d in devices ==>
          && devices[d] in own && DersWithin(devices[d].ders, data)
          && DeviceValue(devices[d], data) == DeviceValue(gw.devices[d], data)
      {
        var d :| d in left;
        left := left - {d};
        var dev := CopyDevice(gw.devices[d]);
        own := own + {dev};
        devices := devices[d := dev];
      }
    }

    method CopyDevice(dev: DeviceState) returns (copy: DeviceState)
      requires Valid() && dev in devs
      ensures fresh(copy) && DersWithin(copy.ders, data)
      ensures DeviceValue(copy, data) == DeviceValue(dev, data)
    {
      copy := new DeviceState(dev.gateway, dev.id);
      copy.lastSeen := dev.lastSeen;
      copy.ders := dev.ders;
    }

    /** A snapshot keeps showing the fleet as it was when taken, through any messages that follow,
        although it shares its data maps with the live fleet. */
    method SnapshotStays(messages: seq<Message>)
      returns (result: seq<GatewayState>, ghost keys: seq<string>, ghost own: set<DeviceState>)
      requires Valid()
      modifies this, gws, devs
      ensures Valid()
      ensures old(allocated(data)) && SnapshotShows(result, keys, own, old(data), old(Value()))
      ensures Value() == ApplyAll(serial, old(Value()), messages)
    {
      hide Valid, Value, SnapshotRows, Apply;
      result, keys, own := Snapshot();
      ghost var taken, shared := Value(), data;
      for n := 0 to |messages|
        invariant Valid()
        invariant fresh(gws - old(gws)) && fresh(devs - old(devs))
        invariant (forall gw :: gw in result ==> gw !in gws) && own !! devs
        invariant SnapshotShows(result, keys, own, shared, taken)
        invariant Value() == ApplyAll(serial, taken, messages[..n])
      {
        label before:
        HandleMessage(messages[n]);
        assert messages[..n + 1][..n] == messages[..n];
        assert forall gw :: gw in result ==> old@before(allocated(gw));
      }
      assert messages[..|messages|] == messages;
    }
  }

  /** A monitor that has handled a log holds, gateway by gateway, what the log's last matching messages say. */
  method Observe(serial: string, log: seq<Message>) returns (fm: FleetMonitor)
    ensures fresh(fm) && fm.Valid() && fm.Value() == Fleet(serial, log)
    ensures forall g :: GatewayIsHistory(serial, log, g, fm.Value())
    ensures serial !in fm.Value()
    ensures fm.dispatched == Responses(serial, log)
  {
    hide FleetMonitor.Valid, FleetMonitor.Value, Apply, GatewayIsHistory, RouteOf, IsResponse;
    fm := new FleetMonitor(serial);
    for n := 0 to |log|
      invariant fresh(fm) && fm.Valid() && fm.serial == serial
      invariant fresh(fm.gws) && fresh(fm.devs)
      invariant fm.Value() == Fleet(serial, log[..n])
      invariant fm.dispatched == Responses(serial, log[..n])
    {
      ResponseRoute(serial, log[n]);
      assert log[..n + 1][..n] == log[..n];
      fm.HandleMessage(log[n]);
    }
    assert log[..|log|] == log;
    forall g ensures GatewayIsHistory(serial, log, g, fm.Value()) {
      FleetIsHistory(serial, log, g);
    }
    OwnNeverAppears(serial, log);
  }

  /** A copied gateway shows `v`. */
  ghost predicate CopyShows(copy: GatewayState, own: set<DeviceState>, data: set<DataMap>, v: GatewayView)
    reads copy, own, data
  {
    && copy.serial == v.serial && copy.lastSeen == v.lastSeen && copy.devices.Keys == v.devices.Keys
    && (forall d :: d in copy.devices ==>
          && copy.devices[d] in own && DersWithin(copy.devices[d].ders, data)
          && DeviceValue(copy.devices[d], data) == v.devices[d])
  }

  lemma RowsKeep(result: seq<GatewayState>, keys: seq<string>, own: set<DeviceState>, more: set<DeviceState>,
                 data: set<DataMap>, v: FleetView)
    requires SnapshotRows(result, keys, own, data, v) && own <= more
    ensures SnapshotRows(result, keys, more, data, v)
  {
    hide DersWithin, DeviceValue;
  }

  ghost predicate SnapshotRows(result: seq<GatewayState>, keys: seq<string>, own: set<DeviceState>,
                               data: set<DataMap>, v: FleetView)
    reads result, own, data
  {
    && |result| == |keys|
    && (forall i, k :: 0 <= i < k < |keys| ==> keys[i] != keys[k])
    && (forall i :: 0 <= i < |keys| ==> keys[i] in v && CopyShows(result[i], own, data, v[keys[i]]))
  }

  /** One row per gateway of `v`, each showing it. */
  ghost predicate SnapshotShows(result: seq<GatewayState>, keys: seq<string>, own: set<DeviceState>,
                                data: set<DataMap>, v: FleetView)
    reads result, own, data
  {
    SnapshotRows(result, keys, own, data, v) && forall k :: k in keys <==> k in v
  }
}

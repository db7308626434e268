/**
 * `SensorDataCollector`: the connection state (connected flag and reconnect
 * delay), the device registry, the message router and the fan-out of every
 * handler to each storage sink in order.
 */
module Ingest {

  import opened Common
  import opened Topics
  import opened Payloads
  import opened Backoff
  import opened StorageSpec
  import opened Storage

  /** One `client.subscribe(pattern, qos)` call. */
  datatype Subscription = Subscription(pattern: string, qos: int)

  /** The subscriptions made on every successful connect: acknowledged delivery except for data. */
  const Subscriptions: seq<Subscription> := [
    Subscription("devices/+/capabilities", 1),
    Subscription("devices/+/sensors/+/data", 0),
    Subscription("devices/+/status", 1),
    Subscription("devices/+/error", 1)
  ]

  /** A sink call made by `handle_capabilities`: `ensure_device_exists` or `ensure_sensor_exists` for a declared position. */
  datatype SinkCall = RegisterDevice(sink: nat) | RegisterSensor(position: nat, kind: string, sink: nat)

  /** `ensure_device_exists` on sinks 0 .. n-1. */
  function DeviceCalls(n: nat): seq<SinkCall>
  {
    if n == 0 then [] else DeviceCalls(n - 1) + [RegisterDevice(n - 1)]
  }

  /** `ensure_sensor_exists` for one declared kind on sinks 0 .. n-1. */
  function KindCalls(position: nat, kind: string, n: nat): seq<SinkCall>
  {
    if n == 0 then [] else KindCalls(position, kind, n - 1) + [RegisterSensor(position, kind, n - 1)]
  }

  /** `ensure_sensor_exists` for every declared kind, kind by kind, sink by sink. */
  function SensorCalls(kinds: seq<string>, n: nat): seq<SinkCall>
    decreases |kinds|
  {
    if |kinds| == 0 then [] else SensorCalls(kinds[..|kinds| - 1], n) + KindCalls(|kinds| - 1, kinds[|kinds| - 1], n)
  }

  /** The calls of `handle_capabilities`, in the order it makes them. */
  function CapabilityCalls(kinds: seq<string>, n: nat): seq<SinkCall> {
    DeviceCalls(n) + SensorCalls(kinds, n)
  }

  lemma {:induction false} DeviceCallsShape(n: nat)
    ensures |DeviceCalls(n)| == n
    ensures forall p :: 0 <= p < n ==> DeviceCalls(n)[p] == RegisterDevice(p)
  {
    if n > 0 {
      DeviceCallsShape(n - 1);
    }
  }

  lemma {:induction false} KindCallsShape(position: nat, kind: string, n: nat)
    ensures |KindCalls(position, kind, n)| == n
    ensures forall p :: 0 <= p < n ==> KindCalls(position, kind, n)[p] == RegisterSensor(position, kind, p)
  {
    if n > 0 {
      KindCallsShape(position, kind, n - 1);
    }
  }

  /** A well-formed sensor call names a declared position, its kind and an existing sink. */
  predicate DeclaredCall(kinds: seq<string>, n: nat, c: SinkCall) {
    c.RegisterSensor? && c.position < |kinds| && c.kind == kinds[c.position] && c.sink < n
  }

  /**
   * The sensor calls are exactly one per (declared position, sink) pair: every
   * call is declared, every pair is called, and no call repeats.
   */
  lemma {:induction false} SensorCallsExact(kinds: seq<string>, n: nat)
    ensures forall c :: c in SensorCalls(kinds, n) ==> DeclaredCall(kinds, n, c)
    ensures forall j, s :: 0 <= j < |kinds| && 0 <= s < n ==> RegisterSensor(j, kinds[j], s) in SensorCalls(kinds, n)
    ensures forall p, q :: 0 <= p < q < |SensorCalls(kinds, n)| ==> SensorCalls(kinds, n)[p] != SensorCalls(kinds, n)[q]
    decreases |kinds|
  {
    if |kinds| > 0 {
      var m := |kinds| - 1;
      var init := kinds[..m];
      SensorCallsExact(init, n);
      KindCallsShape(m, kinds[m], n);
      var head := SensorCalls(init, n);
      var tail := KindCalls(m, kinds[m], n);
      var all := SensorCalls(kinds, n);
      assert all == head + tail;
      forall c | c in all ensures DeclaredCall(kinds, n, c) {
        if c in head {
          assert DeclaredCall(init, n, c);
          assert kinds[c.position] == init[c.position];
        } else {
          var p :| 0 <= p < |tail| && tail[p] == c;
        }
      }
      forall j, s | 0 <= j < |kinds| && 0 <= s < n ensures RegisterSensor(j, kinds[j], s) in all {
        if j < m {
          assert kinds[j] == init[j];
          assert RegisterSensor(j, init[j], s) in head;
        } else {
          assert tail[s] == RegisterSensor(j, kinds[j], s);
        }
      }
      forall p, q | 0 <= p < q < |all| ensures all[p] != all[q] {
        if q < |head| {
          assert all[p] == head[p] && all[q] == head[q];
        } else if p < |head| {
          assert all[p] == head[p] && all[p] in head;
          assert DeclaredCall(init, n, all[p]);
          assert all[q] == tail[q - |head|];
        } else {
          assert all[p] == tail[p - |head|] && all[q] == tail[q - |head|];
        }
      }
    }
  }

  /**
   * `handle_capabilities` registers the device with every sink before any
   * sensor: the first n calls are the device registrations, in sink order,
   * and no later call registers a device.
   */
  lemma CapabilityCallsDevicesFirst(kinds: seq<string>, n: nat)
    ensures |CapabilityCalls(kinds, n)| == n + |SensorCalls(kinds, n)|
    ensures forall p :: 0 <= p < n ==> CapabilityCalls(kinds, n)[p] == RegisterDevice(p)
    ensures forall p :: n <= p < |CapabilityCalls(kinds, n)| ==> DeclaredCall(kinds, n, CapabilityCalls(kinds, n)[p])
  {
    DeviceCallsShape(n);
    SensorCallsExact(kinds, n);
    var sensors := SensorCalls(kinds, n);
    forall p | n <= p < |CapabilityCalls(kinds, n)|
      ensures DeclaredCall(kinds, n, CapabilityCalls(kinds, n)[p])
    {
      assert CapabilityCalls(kinds, n)[p] == sensors[p - n];
      assert sensors[p - n] in sensors;
    }
  }

  /**
   * After the device registrations, every (declared position, sink) pair is
   * registered, and none twice.
   */
  lemma CapabilityCallsSensorsOnce(kinds: seq<string>, n: nat)
    ensures |CapabilityCalls(kinds, n)| >= n
    ensures forall j, s :: 0 <= j < |kinds| && 0 <= s < n ==> RegisterSensor(j, kinds[j], s) in CapabilityCalls(kinds, n)[n..]
    ensures forall p, q :: n <= p < q < |CapabilityCalls(kinds, n)| ==> CapabilityCalls(kinds, n)[p] != CapabilityCalls(kinds, n)[q]
  {
    DeviceCallsShape(n);
    SensorCallsExact(kinds, n);
    assert CapabilityCalls(kinds, n)[n..] == SensorCalls(kinds, n);
  }

  /** Which database calls fail while one message is handled (all others succeed). */
  datatype Faults = Faults(
    deviceFails: set<nat>,            // sinks whose `ensure_device_exists` fails
    sensorFails: set<(nat, nat)>,     // (declared position, sink) pairs whose `ensure_sensor_exists` fails
    storeFaults: map<nat, StoreFaults>) // per sink, the failing calls of `store_sensor_data`

  /** The declared positions whose sensor registration fails on one sink. */
  function SensorFailsOf(faults: Faults, sink: nat): (s: set<nat>)
    ensures forall j :: j in s <==> (j, sink) in faults.sensorFails
  {
    set p | p in faults.sensorFails && p.1 == sink :: p.0
  }

  function StoreFaultsOf(faults: Faults, sink: nat): StoreFaults {
    if sink in faults.storeFaults then faults.storeFaults[sink] else NoFaults
  }

  /** What `handle_sensor_data` leaves in one sink: nothing when the timestamp raises, else one `store_sensor_data`. */
  function AfterData(st: SinkState, layout: Layout, device: string, kind: string, doc: Doc, now: int, faults: StoreFaults): SinkState {
    match EventTime(doc.timestamp, now)
    case None => st
    case Some(time) => StoreData(st, layout, device, kind, time, doc.values, faults)
  }

  class Collector {
    const sinks: seq<Sink>
    var devices: map<string, Doc>
    var reconnectDelay: int
    var connected: bool

    /** The sinks are distinct objects and the reconnect delay is one the back-off can reach. */
    ghost predicate Valid()
      reads this
    {
      && (forall i, j :: 0 <= i < j < |sinks| ==> sinks[i] != sinks[j])
      && Reachable(reconnectDelay)
    }

    /** Every sink keeps its invariant (distinct positive ids, a cache that names stored sensors). */
    ghost predicate SinksCoherent()
      reads sinks
    {
      forall i :: 0 <= i < |sinks| ==> sinks[i].Valid()
    }

    /** A disconnected collector with the initial delay and no known devices (the MQTT client is not modelled). */
    constructor (sinks: seq<Sink>)
      requires forall i, j :: 0 <= i < j < |sinks| ==> sinks[i] != sinks[j]
      ensures Valid()
      ensures this.sinks == sinks && devices == map[]
      ensures reconnectDelay == InitialDelay && !connected
    {
      this.sinks := sinks;
      devices := map[];
      reconnectDelay := InitialDelay;
      connected := false;
    }

    /** `on_connect`: reason code 0 connects, resets the delay and subscribes to the four patterns. */
    method OnConnect(reasonCode: int) returns (subscribed: seq<Subscription>)
      requires Valid()
      modifies this
      ensures Valid()
      ensures reasonCode == 0 ==> connected && reconnectDelay == InitialDelay && subscribed == Subscriptions
      ensures reasonCode != 0 ==> !connected && reconnectDelay == old(reconnectDelay) && subscribed == []
      ensures devices == old(devices)
    {
      if reasonCode == 0 {
        connected := true;
        reconnectDelay := InitialDelay;
        subscribed := Subscriptions;
      } else {
        connected := false;
        subscribed := [];
      }
    }

    /** `on_disconnect`: whatever the reason code, the collector is no longer connected. */
    method OnDisconnect(reasonCode: int)
      modifies this`connected
      ensures !connected
    {
      connected := false;
    }

    /**
     * `connect_with_retry` over the outcomes of successive connect attempts:
     * returns at the first success; after each failure it sleeps for the
     * current delay and backs off. When the given attempts run out without a
     * success the model stops (the source would keep trying).
     */
    method ConnectWithRetry(attempts: seq<bool>) returns (ok: bool, sleeps: seq<int>)
      requires Valid()
      modifies this`reconnectDelay
      ensures Valid()
      ensures ok <==> true in attempts
      ensures ok ==> |sleeps| < |attempts| && attempts[|sleeps|]
      ensures !ok ==> |sleeps| == |attempts|
      ensures forall j :: 0 <= j < |sleeps| ==> !attempts[j]
      ensures sleeps == Sleeps(old(reconnectDelay), |sleeps|)
      ensures reconnectDelay == DelayAfter(old(reconnectDelay), |sleeps|)
    {
      ghost var start := reconnectDelay;
      sleeps := [];
      var i := 0;
      while i < |attempts|
        invariant 0 <= i <= |attempts|
        invariant forall j :: 0 <= j < i ==> !attempts[j]
        invariant |sleeps| == i
        invariant sleeps == Sleeps(start, i)
        invariant reconnectDelay == DelayAfter(start, i)
        invariant Reachable(reconnectDelay)
      {
        if attempts[i] {
          return true, sleeps;
        }
        OneMoreFailure(start, i);
        ReachableClosed(reconnectDelay, 0);
        sleeps := sleeps + [reconnectDelay];
        reconnectDelay := NextDelay(reconnectDelay);
        i := i + 1;
      }
      return false, sleeps;
    }

    /** The device step of `handle_capabilities`: `ensure_device_exists` on every sink in order. */
    method RegisterDeviceWithSinks(device: string, doc: Doc, faults: Faults) returns (calls: seq<SinkCall>)
      requires Valid()
      modifies sinks
      ensures forall j :: 0 <= j < |sinks| ==>
        sinks[j].State() == EnsureDevice(old(sinks[j].State()), device, doc, j in faults.deviceFails)
      ensures calls == DeviceCalls(|sinks|)
    {
      calls := [];
      var i := 0;
      while i < |sinks|
        invariant 0 <= i <= |sinks|
        invariant forall j :: 0 <= j < i ==>
          sinks[j].State() == EnsureDevice(old(sinks[j].State()), device, doc, j in faults.deviceFails)
        invariant forall j :: i <= j < |sinks| ==> sinks[j].State() == old(sinks[j].State())
        invariant calls == DeviceCalls(i)
      {
        label before:
        sinks[i].EnsureDeviceExists(device, doc, i in faults.deviceFails);
        forall j | 0 <= j < |sinks| && j != i
          ensures sinks[j].State() == old@before(sinks[j].State())
        {
          assert sinks[j] != sinks[i];
        }
        calls := calls + [RegisterDevice(i)];
        i := i + 1;
      }
    }

    /** One sensor step of `handle_capabilities`: `ensure_sensor_exists` for the kind at `position` on every sink. */
    method RegisterKindWithSinks(device: string, position: nat, kind: string, metadata: map<string, SensorMeta>,
                                 faults: Faults) returns (calls: seq<SinkCall>)
      requires Valid()
      modifies sinks
      ensures forall j :: 0 <= j < |sinks| ==>
        sinks[j].State() == EnsureSensor(old(sinks[j].State()), device, kind, metadata, (position, j) in faults.sensorFails)
      ensures calls == KindCalls(position, kind, |sinks|)
    {
      calls := [];
      var i := 0;
      while i < |sinks|
        invariant 0 <= i <= |sinks|
        invariant forall j :: 0 <= j < i ==>
          sinks[j].State() == EnsureSensor(old(sinks[j].State()), device, kind, metadata, (position, j) in faults.sensorFails)
        invariant forall j :: i <= j < |sinks| ==> sinks[j].State() == old(sinks[j].State())
        invariant calls == KindCalls(position, kind, i)
      {
        label before:
        sinks[i].EnsureSensorExists(device, kind, metadata, (position, i) in faults.sensorFails);
        forall j | 0 <= j < |sinks| && j != i
          ensures sinks[j].State() == old@before(sinks[j].State())
        {
          assert sinks[j] != sinks[i];
        }
        calls := calls + [RegisterSensor(position, kind, i)];
        i := i + 1;
      }
    }

    /** The sensor steps of `handle_capabilities`: each declared kind in turn, on every sink. */
    method RegisterSensorsWithSinks(device: string, doc: Doc, faults: Faults) returns (calls: seq<SinkCall>)
      requires Valid()
      modifies sinks
      ensures forall j :: 0 <= j < |sinks| ==>
        sinks[j].State() == RegisterSensors(old(sinks[j].State()), device, doc.sensors, doc.metadata, SensorFailsOf(faults, j))
      ensures calls == SensorCalls(doc.sensors, |sinks|)
    {
      calls := [];
      var k := 0;
      while k < |doc.sensors|
        invariant 0 <= k <= |doc.sensors|
        invariant forall j :: 0 <= j < |sinks| ==>
          sinks[j].State() == RegisterSensors(old(sinks[j].State()), device, doc.sensors[..k], doc.metadata, SensorFailsOf(faults, j))
        invariant calls == SensorCalls(doc.sensors[..k], |sinks|)
      {
        assert doc.sensors[..k + 1][..k] == doc.sensors[..k];
        var more := RegisterKindWithSinks(device, k, doc.sensors[k], doc.metadata, faults);
        calls := calls + more;
        k := k + 1;
      }
      assert doc.sensors[..k] == doc.sensors;
    }

    /**
     * `handle_capabilities`: records the payload, registers the device with
     * every sink, then each declared sensor with every sink. Each sink ends
     * announced with its own faults, whatever happens on the other sinks.
     */
    method HandleCapabilities(device: string, doc: Doc, faults: Faults) returns (calls: seq<SinkCall>)
      requires Valid()
      modifies this, sinks
      ensures Valid()
      ensures devices == old(devices)[device := doc]
      ensures reconnectDelay == old(reconnectDelay) && connected == old(connected)
      ensures forall i :: 0 <= i < |sinks| ==>
        sinks[i].State() == Announce(old(sinks[i].State()), device, doc, i in faults.deviceFails, SensorFailsOf(faults, i))
      ensures calls == CapabilityCalls(doc.sensors, |sinks|)
      ensures old(SinksCoherent()) ==> SinksCoherent()
    {
      devices := devices[device := doc];
      var first := RegisterDeviceWithSinks(device, doc, faults);
      var rest := RegisterSensorsWithSinks(device, doc, faults);
      calls := first + rest;
      forall i | 0 <= i < |sinks| && old(sinks[i].Valid())
        ensures sinks[i].Valid()
      {
        AnnounceCoherent(old(sinks[i].State()), device, doc, i in faults.deviceFails, SensorFailsOf(faults, i));
      }
    }

    /** The loop of `handle_sensor_data`: `store_sensor_data` on every sink in order. */
    method StoreWithSinks(device: string, kind: string, time: int, values: seq<Metric>, faults: Faults)
      requires Valid()
      modifies sinks
      ensures forall j :: 0 <= j < |sinks| ==>
        sinks[j].State() == StoreData(old(sinks[j].State()), sinks[j].layout, device, kind, time, values, StoreFaultsOf(faults, j))
    {
      var i := 0;
      while i < |sinks|
        invariant 0 <= i <= |sinks|
        invariant forall j :: 0 <= j < i ==>
          sinks[j].State() == StoreData(old(sinks[j].State()), sinks[j].layout, device, kind, time, values, StoreFaultsOf(faults, j))
        invariant forall j :: i <= j < |sinks| ==> sinks[j].State() == old(sinks[j].State())
      {
        label before:
        sinks[i].StoreSensorData(device, kind, time, values, StoreFaultsOf(faults, i));
        forall j | 0 <= j < |sinks| && j != i
          ensures sinks[j].State() == old@before(sinks[j].State())
        {
          assert sinks[j] != sinks[i];
        }
        i := i + 1;
      }
    }

    /**
     * `handle_sensor_data`: converts the timestamp (a raise skips every sink)
     * and hands the reading to each sink in turn; each sink handles its own
     * failures, so one failing sink does not stop the others.
     */
    method HandleSensorData(device: string, kind: string, doc: Doc, now: int, faults: Faults)
      requires Valid()
      modifies sinks
      ensures forall i :: 0 <= i < |sinks| ==>
        sinks[i].State() == AfterData(old(sinks[i].State()), sinks[i].layout, device, kind, doc, now, StoreFaultsOf(faults, i))
      ensures old(SinksCoherent()) ==> SinksCoherent()
    {
      var time := EventTime(doc.timestamp, now);
      if time.None? {
        return;
      }
      StoreWithSinks(device, kind, time.value, doc.values, faults);
      forall j | 0 <= j < |sinks| && old(sinks[j].Valid())
        ensures sinks[j].Valid()
      {
        StoreDataCoherent(old(sinks[j].State()), sinks[j].layout, device, kind, time.value, doc.values, StoreFaultsOf(faults, j));
      }
    }

    /**
     * `on_message`: routes one message (topic, decoded payload or None when it
     * is not JSON) and runs the selected handler. Status messages are only
     * logged; an error message yields the log line of `handle_error`, or None
     * when it raises. Dropped and ignored messages change nothing.
     */
    method OnMessage(topic: string, payload: Option<Doc>, now: int, faults: Faults) returns (route: Route, report: Option<ErrorLog>)
      requires Valid()
      modifies this, sinks
      ensures Valid()
      ensures route == Classify(topic, payload.Some?)
      ensures reconnectDelay == old(reconnectDelay) && connected == old(connected)
      ensures route.ToCapabilities? ==>
        && devices == old(devices)[route.device := payload.value]
        && forall i :: 0 <= i < |sinks| ==>
             sinks[i].State() == Announce(old(sinks[i].State()), route.device, payload.value,
                                          i in faults.deviceFails, SensorFailsOf(faults, i))
      ensures route.ToSensors? ==>
        && devices == old(devices)
        && forall i :: 0 <= i < |sinks| ==>
             sinks[i].State() == AfterData(old(sinks[i].State()), sinks[i].layout, route.device, route.sensorKind,
                                           payload.value, now, StoreFaultsOf(faults, i))
      ensures !route.ToCapabilities? && !route.ToSensors? ==>
        devices == old(devices) && forall i :: 0 <= i < |sinks| ==> sinks[i].State() == old(sinks[i].State())
      ensures report == if route.ToError? then HandleError(route.device, payload.value, now) else None
      ensures old(SinksCoherent()) ==> SinksCoherent()
    {
      route := Classify(topic, payload.Some?);
      report := None;
      match route
      case ToCapabilities(device) =>
        var _ := HandleCapabilities(device, payload.value, faults);
      case ToSensors(device, kind) =>
        HandleSensorData(device, kind, payload.value, now, faults);
      case ToError(device) =>
        report := HandleError(device, payload.value, now);
      case _ =>
    }
  }
}

/**
 * The storage sinks of the collector as values. A sink is its identity cache
 * (`sensor_id_cache`, keyed by the string `device + "_" + kind`) together with
 * an abstract in-memory database: the devices table, the sensors table keyed by
 * (device, kind) with a serial id counter, and the measurement rows. Every
 * database call carries a `fails` flag; a failing call rolls back, so the
 * database (and the cache) are left as they were.
 */
module StorageSpec {

  import opened Common
  import opened Payloads

  datatype DeviceRow = DeviceRow(name: Option<string>, location: Option<string>, firmware: Option<string>)

  /**
   * A sensors-table row: the serial id and the metadata announced for the
   * sensor; the location and metadata columns are derived from the latter.
   */
  datatype SensorRow = SensorRow(id: int, meta: SensorMeta) {
    /** The location column: the metadata's 'location', or 'unknown'. */
    function Location(): string
    {
      if "location" in meta then meta["location"] else "unknown"
    }

    /** The JSONB metadata column: SQL NULL when the announced metadata is empty. */
    function MetadataColumn(): Option<SensorMeta>
    {
      if meta == map[] then None else Some(meta)
    }
  }

  /** The two sensor-specific tables of the columnar database. */
  datatype Table = Scd30 | Bmp280

  datatype Row =
    | MetricRow(time: int, sensorId: int, metric: string, value: real)             // flexible: one row per metric
    | WideRow(table: Table, time: int, sensorId: int, readings: seq<Option<real>>) // columnar: one row per reading

  datatype Store = Store(
    devices: map<string, DeviceRow>,
    sensors: map<(string, string), SensorRow>,
    nextId: int,
    rows: seq<Row>)

  datatype SinkState = SinkState(cache: map<string, int>, store: Store)

  /** `FlexibleDatabaseStorage` or `ColumnarDatabaseStorage`: they differ only in how data is written. */
  datatype Layout = Flexible | Columnar

  /** Which database calls of one `store_sensor_data` fail: first lookup, auto-create, second lookup, write. */
  datatype StoreFaults = StoreFaults(lookup: bool, create: bool, relookup: bool, write: bool)

  const NoFaults: StoreFaults := StoreFaults(false, false, false, false)

  /** A fresh sink: empty cache, empty tables, serial ids starting at 1. */
  const Empty: SinkState := SinkState(map[], Store(map[], map[], 1, []))

  /** The cache key `f"{device_id}_{sensor_type}"`. */
  function CacheKey(device: string, kind: string): string {
    device + "_" + kind
  }

  /** Python truthiness of a looked-up id: `not sensor_id` holds for None and for 0. */
  predicate Truthy(id: Option<int>) {
    id.Some? && id.value != 0
  }

  /** Some stored sensor whose cache key is `key` has id `id`. */
  ghost predicate NamesSensor(store: Store, key: string, id: int) {
    exists p :: p in store.sensors && CacheKey(p.0, p.1) == key && store.sensors[p].id == id
  }

  /** Some stored sensor has id `id`. */
  ghost predicate HasSensorId(store: Store, id: int) {
    exists p :: p in store.sensors && store.sensors[p].id == id
  }

  /**
   * The invariant every sink keeps: serial ids are positive, below the counter
   * and distinct; every cache entry is the id of a stored sensor with that key;
   * every measurement row refers to a stored sensor.
   */
  ghost predicate Coherent(st: SinkState) {
    && st.store.nextId >= 1
    && (forall p :: p in st.store.sensors ==> 1 <= st.store.sensors[p].id < st.store.nextId)
    && (forall p, q :: p in st.store.sensors && q in st.store.sensors && p != q ==>
          st.store.sensors[p].id != st.store.sensors[q].id)
    && (forall key :: key in st.cache ==> NamesSensor(st.store, key, st.cache[key]))
    && (forall i :: 0 <= i < |st.store.rows| ==> HasSensorId(st.store, st.store.rows[i].sensorId))
  }

  lemma EmptyCoherent()
    ensures Coherent(Empty)
  {
  }

  /** `ensure_device_exists`: an upsert, the last announcement wins on name, location and firmware. */
  function EnsureDevice(st: SinkState, device: string, doc: Doc, fails: bool): (r: SinkState)
    ensures fails ==> r == st
    ensures !fails ==> r.store.devices == st.store.devices[device := DeviceRow(doc.deviceName, doc.deviceLocation, doc.firmwareVersion)]
    ensures r.cache == st.cache && r.store.sensors == st.store.sensors
    ensures r.store.nextId == st.store.nextId && r.store.rows == st.store.rows
  {
    if fails then st
    else st.(store := st.store.(devices := st.store.devices[device := DeviceRow(doc.deviceName, doc.deviceLocation, doc.firmwareVersion)]))
  }

  /** The row `ensure_sensor_exists` inserts: the sensor's own entry of the announced metadata, or none. */
  function NewSensorRow(id: int, kind: string, metadata: map<string, SensorMeta>): (row: SensorRow)
    ensures row.id == id
    ensures kind !in metadata ==> row.Location() == "unknown" && row.MetadataColumn() == None
    ensures kind in metadata ==> row.meta == metadata[kind]
  {
    SensorRow(id, if kind in metadata then metadata[kind] else map[])
  }

  /**
   * `ensure_sensor_exists`: inserts a row only when none exists for
   * (device, kind), then caches the store's id; a failure changes nothing.
   */
  function EnsureSensor(st: SinkState, device: string, kind: string, metadata: map<string, SensorMeta>, fails: bool): (r: SinkState)
    ensures fails ==> r == st
    ensures !fails ==>
      && (device, kind) in r.store.sensors
      && r.cache == st.cache[CacheKey(device, kind) := r.store.sensors[(device, kind)].id]
    ensures r.store.devices == st.store.devices && r.store.rows == st.store.rows
  {
    if fails then st
    else if (device, kind) in st.store.sensors then
      st.(cache := st.cache[CacheKey(device, kind) := st.store.sensors[(device, kind)].id])
    else
      var id := st.store.nextId;
      SinkState(
        st.cache[CacheKey(device, kind) := id],
        st.store.(sensors := st.store.sensors[(device, kind) := NewSensorRow(id, kind, metadata)], nextId := id + 1))
  }

  /** The state after a lookup, and the id it returned. */
  datatype Lookup = Lookup(state: SinkState, id: Option<int>)

  /**
   * `get_sensor_id`: a cache hit answers without touching the store; a miss
   * queries the store and caches a found id; a miss without a row (or a failed
   * query) returns None and leaves the cache as it was.
   */
  function GetSensorId(st: SinkState, device: string, kind: string, fails: bool): (r: Lookup)
    ensures r.state.store == st.store
    ensures CacheKey(device, kind) in st.cache ==> r == Lookup(st, Some(st.cache[CacheKey(device, kind)]))
    ensures CacheKey(device, kind) !in st.cache && !fails && (device, kind) in st.store.sensors ==>
      && r.id == Some(st.store.sensors[(device, kind)].id)
      && r.state.cache == st.cache[CacheKey(device, kind) := r.id.value]
    ensures CacheKey(device, kind) !in st.cache && (fails || (device, kind) !in st.store.sensors) ==> r == Lookup(st, None)
    ensures forall k :: k in st.cache ==> k in r.state.cache && r.state.cache[k] == st.cache[k]
  {
    var key := CacheKey(device, kind);
    if key in st.cache then Lookup(st, Some(st.cache[key]))
    else if fails || (device, kind) !in st.store.sensors then Lookup(st, None)
    else
      var id := st.store.sensors[(device, kind)].id;
      Lookup(st.(cache := st.cache[key := id]), Some(id))
  }

  /** The rows the flexible sink writes: one per metric whose reading is not null, in payload order. */
  function FlexibleRows(time: int, id: int, values: seq<Metric>): seq<Row>
    decreases |values|
  {
    if |values| == 0 then []
    else
      var m := values[|values| - 1];
      FlexibleRows(time, id, values[..|values| - 1]) +
        (if m.field.Reading? && m.field.reading.Some? then [MetricRow(time, id, m.name, m.field.reading.value)] else [])
  }

  /** Every metric is an object, so `field_data.get('reading')` does not raise. */
  predicate AllObjects(values: seq<Metric>) {
    forall i :: 0 <= i < |values| ==> values[i].field.Reading?
  }

  /** The number of metrics with a non-null reading. */
  function NonNullCount(values: seq<Metric>): nat
    decreases |values|
  {
    if |values| == 0 then 0
    else
      var m := values[|values| - 1];
      NonNullCount(values[..|values| - 1]) + (if m.field.Reading? && m.field.reading.Some? then 1 else 0)
  }

  /** The table and columns `ColumnarDatabaseStorage` writes for a sensor kind; no other kind is written. */
  function ColumnsOf(kind: string): (c: Option<(Table, seq<string>)>)
    ensures c.Some? <==> kind == "scd30" || kind == "bmp280"
  {
    if kind == "scd30" then Some((Scd30, ["co2", "temperature", "humidity"]))
    else if kind == "bmp280" then Some((Bmp280, ["pressure", "temperature", "humidity"]))
    else None
  }

  /** `values.get(name, {}).get('reading')`: None when it raises (the entry is not an object). */
  function ColumnReading(values: seq<Metric>, name: string): Option<Option<real>>
    decreases |values|
  {
    if |values| == 0 then Some(None)
    else if values[0].name == name then (if values[0].field.Reading? then Some(values[0].field.reading) else None)
    else ColumnReading(values[1..], name)
  }

  /** The readings of all columns, or None when one of them raises. */
  function WideReadings(values: seq<Metric>, columns: seq<string>): (r: Option<seq<Option<real>>>)
    ensures r.Some? ==> |r.value| == |columns|
    decreases |columns|
  {
    if |columns| == 0 then Some([])
    else match (ColumnReading(values, columns[0]), WideReadings(values, columns[1..]))
      case (Some(x), Some(xs)) => Some([x] + xs)
      case _ => None
  }

  /**
   * The write step of `store_sensor_data` for a resolved sensor id, inside one
   * transaction: a failure (or an entry that is not an object) rolls back all
   * rows of the call.
   */
  function Write(st: SinkState, layout: Layout, kind: string, id: int, time: int, values: seq<Metric>, fails: bool): (r: SinkState)
    ensures r.cache == st.cache && r.store.sensors == st.store.sensors
    ensures r.store.devices == st.store.devices && r.store.nextId == st.store.nextId
    ensures fails ==> r == st
    ensures st.store.rows <= r.store.rows
  {
    match layout
    case Flexible =>
      if fails || !AllObjects(values) then st
      else st.(store := st.store.(rows := st.store.rows + FlexibleRows(time, id, values)))
    case Columnar =>
      match ColumnsOf(kind)
      case None => st
      case Some((table, columns)) =>
        match WideReadings(values, columns)
        case None => st
        case Some(readings) =>
          if fails then st
          else st.(store := st.store.(rows := st.store.rows + [WideRow(table, time, id, readings)]))
  }

  /**
   * The resolution stage of `store_sensor_data`: look the sensor up; on a miss
   * create it with empty metadata and look it up once more.
   */
  function Resolve(st: SinkState, device: string, kind: string, faults: StoreFaults): (r: Lookup)
    ensures r.state.store.devices == st.store.devices && r.state.store.rows == st.store.rows
  {
    var first := GetSensorId(st, device, kind, faults.lookup);
    if Truthy(first.id) then first
    else GetSensorId(EnsureSensor(first.state, device, kind, map[], faults.create), device, kind, faults.relookup)
  }

  /**
   * `store_sensor_data`: resolve the sensor; give up silently if there is
   * still no id; otherwise write.
   */
  function StoreData(st: SinkState, layout: Layout, device: string, kind: string, time: int,
                     values: seq<Metric>, faults: StoreFaults): (r: SinkState)
    ensures r.store.devices == st.store.devices
  {
    var resolved := Resolve(st, device, kind, faults);
    if Truthy(resolved.id) then Write(resolved.state, layout, kind, resolved.id.value, time, values, faults.write)
    else resolved.state
  }

  // ---------------------------------------------------------------------------
  // The invariant is kept by every operation
  // ---------------------------------------------------------------------------

  lemma EnsureDeviceCoherent(st: SinkState, device: string, doc: Doc, fails: bool)
    requires Coherent(st)
    ensures Coherent(EnsureDevice(st, device, doc, fails))
  {
  }

  /** Caching the id of a stored sensor under its own key keeps the invariant. */
  lemma CacheStoredIdCoherent(st: SinkState, p: (string, string))
    requires Coherent(st) && p in st.store.sensors
    ensures Coherent(st.(cache := st.cache[CacheKey(p.0, p.1) := st.store.sensors[p].id]))
  {
    var r := st.(cache := st.cache[CacheKey(p.0, p.1) := st.store.sensors[p].id]);
    forall key | key in r.cache ensures NamesSensor(r.store, key, r.cache[key]) {
      if key != CacheKey(p.0, p.1) {
        assert r.cache[key] == st.cache[key];
      }
    }
  }

  /** Inserting a row with the next serial id keeps the invariant. */
  lemma InsertCoherent(st: SinkState, p: (string, string), row: SensorRow)
    requires Coherent(st) && p !in st.store.sensors && row.id == st.store.nextId
    ensures Coherent(st.(store := st.store.(sensors := st.store.sensors[p := row], nextId := row.id + 1)))
  {
    var r := st.(store := st.store.(sensors := st.store.sensors[p := row], nextId := row.id + 1));
    forall q | q in r.store.sensors ensures 1 <= r.store.sensors[q].id < r.store.nextId {
      if q != p {
        assert r.store.sensors[q] == st.store.sensors[q];
      }
    }
    forall q1, q2 | q1 in r.store.sensors && q2 in r.store.sensors && q1 != q2
      ensures r.store.sensors[q1].id != r.store.sensors[q2].id
    {
      if q1 != p && q2 != p {
        assert r.store.sensors[q1] == st.store.sensors[q1] && r.store.sensors[q2] == st.store.sensors[q2];
      }
    }
    forall key | key in r.cache ensures NamesSensor(r.store, key, r.cache[key]) {
      var q :| q in st.store.sensors && CacheKey(q.0, q.1) == key && st.store.sensors[q].id == st.cache[key];
      assert q in r.store.sensors && r.store.sensors[q] == st.store.sensors[q];
    }
    forall i | 0 <= i < |r.store.rows| ensures HasSensorId(r.store, r.store.rows[i].sensorId) {
      var q :| q in st.store.sensors && st.store.sensors[q].id == st.store.rows[i].sensorId;
      assert q in r.store.sensors && r.store.sensors[q] == st.store.sensors[q];
    }
  }

  lemma EnsureSensorCoherent(st: SinkState, device: string, kind: string, metadata: map<string, SensorMeta>, fails: bool)
    requires Coherent(st)
    ensures Coherent(EnsureSensor(st, device, kind, metadata, fails))
  {
    var p := (device, kind);
    if !fails {
      if p in st.store.sensors {
        CacheStoredIdCoherent(st, p);
      } else {
        var row := NewSensorRow(st.store.nextId, kind, metadata);
        var mid := st.(store := st.store.(sensors := st.store.sensors[p := row], nextId := row.id + 1));
        InsertCoherent(st, p, row);
        CacheStoredIdCoherent(mid, p);
        assert EnsureSensor(st, device, kind, metadata, fails) == mid.(cache := mid.cache[CacheKey(p.0, p.1) := mid.store.sensors[p].id]);
      }
    }
  }

  /** A lookup keeps the invariant, and an id it returns names a stored sensor under the asked key. */
  lemma GetSensorIdCoherent(st: SinkState, device: string, kind: string, fails: bool)
    requires Coherent(st)
    ensures var r := GetSensorId(st, device, kind, fails);
      && Coherent(r.state)
      && (r.id.Some? ==> NamesSensor(st.store, CacheKey(device, kind), r.id.value) && r.id.value >= 1)
  {
    var key := CacheKey(device, kind);
    var r := GetSensorId(st, device, kind, fails);
    if key in st.cache {
      var p :| p in st.store.sensors && CacheKey(p.0, p.1) == key && st.store.sensors[p].id == st.cache[key];
    } else if r.id.Some? {
      var p := (device, kind);
      assert p in st.store.sensors && CacheKey(p.0, p.1) == key && st.store.sensors[p].id == r.id.value;
      forall k | k in r.state.cache ensures NamesSensor(r.state.store, k, r.state.cache[k]) {
        if k != key {
          assert r.state.cache[k] == st.cache[k];
        }
      }
    }
  }

  /** Each flexible row is the row of one metric with a non-null reading. */
  ghost predicate RowOf(time: int, id: int, m: Metric, row: Row) {
    m.field.Reading? && m.field.reading.Some? && row == MetricRow(time, id, m.name, m.field.reading.value)
  }

  lemma {:induction false} FlexibleRowsCount(time: int, id: int, values: seq<Metric>)
    ensures |FlexibleRows(time, id, values)| == NonNullCount(values)
    decreases |values|
  {
    if |values| > 0 {
      FlexibleRowsCount(time, id, values[..|values| - 1]);
    }
  }

  /** Every flexible row is the row of one metric with a non-null reading. */
  lemma {:induction false} FlexibleRowsSound(time: int, id: int, values: seq<Metric>)
    ensures forall j :: 0 <= j < |FlexibleRows(time, id, values)| ==>
      exists i :: 0 <= i < |values| && RowOf(time, id, values[i], FlexibleRows(time, id, values)[j])
    decreases |values|
  {
    if |values| > 0 {
      var n := |values|;
      var init := values[..n - 1];
      FlexibleRowsSound(time, id, init);
      var head := FlexibleRows(time, id, init);
      var rows := FlexibleRows(time, id, values);
      var m := values[n - 1];
      var tail := if m.field.Reading? && m.field.reading.Some? then [MetricRow(time, id, m.name, m.field.reading.value)] else [];
      assert rows == head + tail;
      forall j | 0 <= j < |rows| ensures exists i :: 0 <= i < n && RowOf(time, id, values[i], rows[j]) {
        if j < |head| {
          assert rows[j] == head[j];
          var i :| 0 <= i < |init| && RowOf(time, id, init[i], head[j]);
          assert values[i] == init[i];
        } else {
          assert RowOf(time, id, values[n - 1], rows[j]);
        }
      }
      assert forall j :: 0 <= j < |rows| ==> exists i :: 0 <= i < |values| && RowOf(time, id, values[i], rows[j]);
    } else {
      assert FlexibleRows(time, id, values) == [];
    }
  }

  /** A metric whose reading is present and not null. */
  predicate NonNull(m: Metric) {
    m.field.Reading? && m.field.reading.Some?
  }

  /** `rows` holds the row of metric `m`. */
  ghost predicate HasRowFor(rows: seq<Row>, time: int, id: int, m: Metric) {
    exists j :: 0 <= j < |rows| && RowOf(time, id, m, rows[j])
  }

  /** Every metric with a non-null reading has its row. */
  lemma {:induction false} FlexibleRowsComplete(time: int, id: int, values: seq<Metric>)
    ensures forall i :: 0 <= i < |values| && NonNull(values[i]) ==> HasRowFor(FlexibleRows(time, id, values), time, id, values[i])
    decreases |values|
  {
    if |values| > 0 {
      var n := |values|;
      var init := values[..n - 1];
      FlexibleRowsComplete(time, id, init);
      var head := FlexibleRows(time, id, init);
      var rows := FlexibleRows(time, id, values);
      var m := values[n - 1];
      var tail := if NonNull(m) then [MetricRow(time, id, m.name, m.field.reading.value)] else [];
      assert rows == head + tail;
      forall i | 0 <= i < n && NonNull(values[i]) ensures HasRowFor(rows, time, id, values[i]) {
        if i < n - 1 {
          assert values[i] == init[i];
          var j :| 0 <= j < |head| && RowOf(time, id, init[i], head[j]);
          assert rows[j] == head[j];
        } else {
          assert RowOf(time, id, values[i], rows[|head|]);
        }
      }
    }
  }

  /** A write appends rows that all refer to the written sensor. */
  lemma WriteCoherent(st: SinkState, layout: Layout, kind: string, id: int, time: int, values: seq<Metric>, fails: bool)
    requires Coherent(st) && HasSensorId(st.store, id)
    ensures Coherent(Write(st, layout, kind, id, time, values, fails))
  {
    var r := Write(st, layout, kind, id, time, values, fails);
    var old_ := st.store.rows;
    if r != st {
      var extra := r.store.rows[|old_|..];
      assert r.store.rows == old_ + extra;
      if layout.Flexible? {
        FlexibleRowsSound(time, id, values);
        assert extra == FlexibleRows(time, id, values);
      }
      forall i | 0 <= i < |r.store.rows| ensures HasSensorId(r.store, r.store.rows[i].sensorId) {
        if i >= |old_| {
          if layout.Flexible? {
            var k :| 0 <= k < |values| && RowOf(time, id, values[k], extra[i - |old_|]);
          }
          assert r.store.rows[i].sensorId == id;
        } else {
          assert r.store.rows[i] == old_[i];
        }
      }
    }
  }

  /** Resolution keeps the invariant, and an id it returns names a stored sensor. */
  lemma ResolveCoherent(st: SinkState, device: string, kind: string, faults: StoreFaults)
    requires Coherent(st)
    ensures var r := Resolve(st, device, kind, faults);
      Coherent(r.state) && (r.id.Some? ==> HasSensorId(r.state.store, r.id.value))
  {
    var first := GetSensorId(st, device, kind, faults.lookup);
    GetSensorIdCoherent(st, device, kind, faults.lookup);
    if !Truthy(first.id) {
      var created := EnsureSensor(first.state, device, kind, map[], faults.create);
      EnsureSensorCoherent(first.state, device, kind, map[], faults.create);
      GetSensorIdCoherent(created, device, kind, faults.relookup);
    }
  }

  lemma StoreDataCoherent(st: SinkState, layout: Layout, device: string, kind: string, time: int,
                          values: seq<Metric>, faults: StoreFaults)
    requires Coherent(st)
    ensures Coherent(StoreData(st, layout, device, kind, time, values, faults))
  {
    var resolved := Resolve(st, device, kind, faults);
    ResolveCoherent(st, device, kind, faults);
    if Truthy(resolved.id) {
      WriteCoherent(resolved.state, layout, kind, resolved.id.value, time, values, faults.write);
    }
  }

  // ---------------------------------------------------------------------------
  // The identity cache and its string key
  // ---------------------------------------------------------------------------

  /** No other stored sensor shares the cache key of (device, kind). */
  ghost predicate KeyUnambiguous(store: Store, device: string, kind: string) {
    forall p :: p in store.sensors && CacheKey(p.0, p.1) == CacheKey(device, kind) ==> p == (device, kind)
  }

  /**
   * Cache correctness: when no other stored sensor shares the key, a lookup
   * agrees with the store (a returned id is the store's id for the pair, and
   * with a working store an id is returned exactly when the row exists).
   */
  lemma ResolveAgreesWithStore(st: SinkState, device: string, kind: string, fails: bool)
    requires Coherent(st) && KeyUnambiguous(st.store, device, kind)
    ensures var r := GetSensorId(st, device, kind, fails);
      && (r.id.Some? ==> (device, kind) in st.store.sensors && r.id.value == st.store.sensors[(device, kind)].id)
      && (!fails ==> (r.id.Some? <==> (device, kind) in st.store.sensors))
  {
    var key := CacheKey(device, kind);
    if key in st.cache {
      var p :| p in st.store.sensors && CacheKey(p.0, p.1) == key && st.store.sensors[p].id == st.cache[key];
      assert p == (device, kind);
    }
  }

  /** Keys of one device differ whenever the kinds differ. */
  lemma SameDeviceKeysInjective(device: string, kind1: string, kind2: string)
    requires CacheKey(device, kind1) == CacheKey(device, kind2)
    ensures kind1 == kind2
  {
    assert kind1 == CacheKey(device, kind1)[|device| + 1..];
    assert kind2 == CacheKey(device, kind2)[|device| + 1..];
  }

  /** When device ids carry no underscore the key determines the (device, kind) pair. */
  lemma UnderscoreFreeKeysInjective(device1: string, kind1: string, device2: string, kind2: string)
    requires '_' !in device1 && '_' !in device2
    requires CacheKey(device1, kind1) == CacheKey(device2, kind2)
    ensures device1 == device2 && kind1 == kind2
  {
    var key := CacheKey(device1, kind1);
    assert key == CacheKey(device2, kind2);
    assert forall i :: 0 <= i < |device1| ==> key[i] == device1[i] != '_';
    assert forall i :: 0 <= i < |device2| ==> key[i] == device2[i] != '_';
    assert key[|device1|] == '_' && key[|device2|] == '_';
    assert device1 == key[..|device1|] == device2;
    assert kind1 == key[|device1| + 1..] == kind2;
  }

  /**
   * The string key is ambiguous: once ("a_b", "c") is registered, a lookup of
   * ("a", "b_c") is a cache hit that returns the other sensor's id, although
   * the store has no row for ("a", "b_c").
   */
  lemma CacheKeyCollision()
    ensures CacheKey("a_b", "c") == CacheKey("a", "b_c")
    ensures var st := EnsureSensor(Empty, "a_b", "c", map[], false);
      var r := GetSensorId(st, "a", "b_c", false);
      && ("a", "b_c") !in r.state.store.sensors
      && r.id == Some(st.store.sensors[("a_b", "c")].id)
  {
    assert CacheKey("a_b", "c") == "a_b_c";
    assert CacheKey("a", "b_c") == "a_b_c";
    var st := EnsureSensor(Empty, "a_b", "c", map[], false);
    assert st.store.sensors.Keys == {("a_b", "c")};
    assert ("a", "b_c") != ("a_b", "c");
  }

  // ---------------------------------------------------------------------------
  // store_sensor_data
  // ---------------------------------------------------------------------------

  /**
   * Resolution with a working database, when no other stored sensor shares
   * the key: it returns the store's id for (device, kind), creating the sensor
   * (empty metadata, location 'unknown') when it was missing.
   */
  lemma ResolveHealthy(st: SinkState, device: string, kind: string)
    requires Coherent(st) && KeyUnambiguous(st.store, device, kind)
    ensures var r := Resolve(st, device, kind, NoFaults);
      && (device, kind) in r.state.store.sensors
      && r.id == Some(r.state.store.sensors[(device, kind)].id) && Truthy(r.id)
      && ((device, kind) !in st.store.sensors ==>
            r.state.store.sensors == st.store.sensors[(device, kind) := NewSensorRow(st.store.nextId, kind, map[])])
      && ((device, kind) in st.store.sensors ==> r.state.store.sensors == st.store.sensors)
  {
    var first := GetSensorId(st, device, kind, false);
    GetSensorIdCoherent(st, device, kind, false);
    ResolveAgreesWithStore(st, device, kind, false);
    if (device, kind) !in st.store.sensors {
      assert CacheKey(device, kind) !in st.cache;
      var created := EnsureSensor(st, device, kind, map[], false);
      assert GetSensorId(created, device, kind, false).id == Some(st.store.nextId);
    }
  }

  /**
   * A flexible sink whose database calls all succeed, given a payload whose
   * entries are objects: the sensor exists afterwards (auto-created with empty
   * metadata, location 'unknown', when it was missing) and exactly the rows of
   * the non-null metrics are appended for it.
   */
  lemma StoreDataHealthyFlexible(st: SinkState, device: string, kind: string, time: int, values: seq<Metric>)
    requires Coherent(st) && KeyUnambiguous(st.store, device, kind) && AllObjects(values)
    ensures var r := StoreData(st, Flexible, device, kind, time, values, NoFaults);
      && (device, kind) in r.store.sensors
      && ((device, kind) !in st.store.sensors ==>
            r.store.sensors == st.store.sensors[(device, kind) := NewSensorRow(st.store.nextId, kind, map[])])
      && ((device, kind) in st.store.sensors ==> r.store.sensors == st.store.sensors)
      && r.store.rows == st.store.rows + FlexibleRows(time, r.store.sensors[(device, kind)].id, values)
  {
    ResolveHealthy(st, device, kind);
  }

  /** A failing write leaves the rows as they were: the call's rows are rolled back together. */
  lemma StoreDataWriteFailure(st: SinkState, layout: Layout, device: string, kind: string, time: int,
                              values: seq<Metric>, faults: StoreFaults)
    requires faults.write
    ensures StoreData(st, layout, device, kind, time, values, faults).store.rows == st.store.rows
  {
  }

  /**
   * When the sensor cannot be resolved (no cached key, no row, and the
   * auto-create fails) the call gives up: nothing is cached or written.
   */
  lemma StoreDataGivesUpWithoutId(st: SinkState, layout: Layout, device: string, kind: string, time: int,
                                  values: seq<Metric>, faults: StoreFaults)
    requires CacheKey(device, kind) !in st.cache && (device, kind) !in st.store.sensors && faults.create
    ensures StoreData(st, layout, device, kind, time, values, faults) == st
  {
  }

  /** The columnar sink writes only for the kinds `scd30` and `bmp280`. */
  lemma ColumnarWritesOnlyKnownKinds(st: SinkState, device: string, kind: string, time: int,
                                     values: seq<Metric>, faults: StoreFaults)
    requires kind != "scd30" && kind != "bmp280"
    ensures StoreData(st, Columnar, device, kind, time, values, faults).store.rows == st.store.rows
  {
  }

  /**
   * A columnar sink whose calls all succeed, for a kind it has a table for and
   * columns that are objects: exactly one wide row is appended for the sensor.
   */
  lemma StoreDataHealthyColumnar(st: SinkState, device: string, kind: string, time: int, values: seq<Metric>)
    requires Coherent(st) && KeyUnambiguous(st.store, device, kind)
    requires ColumnsOf(kind).Some? && WideReadings(values, ColumnsOf(kind).value.1).Some?
    ensures var r := StoreData(st, Columnar, device, kind, time, values, NoFaults);
      && (device, kind) in r.store.sensors
      && r.store.rows == st.store.rows + [WideRow(ColumnsOf(kind).value.0, time, r.store.sensors[(device, kind)].id,
                                                  WideReadings(values, ColumnsOf(kind).value.1).value)]
  {
    ResolveHealthy(st, device, kind);
  }

  // ---------------------------------------------------------------------------
  // Capabilities as one sink sees them
  // ---------------------------------------------------------------------------

  /**
   * The sensor part of `handle_capabilities` for one sink: `ensure_sensor_exists`
   * for each declared kind in order; `failing` holds the positions whose call fails.
   */
  function RegisterSensors(st: SinkState, device: string, kinds: seq<string>, metadata: map<string, SensorMeta>,
                           failing: set<nat>): (r: SinkState)
    ensures r.store.devices == st.store.devices && r.store.rows == st.store.rows
    ensures forall p :: p in st.store.sensors ==> p in r.store.sensors && r.store.sensors[p] == st.store.sensors[p]
    decreases |kinds|
  {
    if |kinds| == 0 then st
    else
      var n := |kinds| - 1;
      EnsureSensor(RegisterSensors(st, device, kinds[..n], metadata, failing), device, kinds[n], metadata, n in failing)
  }

  /** `handle_capabilities` for one sink: the device first, then its sensors. */
  function Announce(st: SinkState, device: string, doc: Doc, deviceFails: bool, failing: set<nat>): SinkState {
    RegisterSensors(EnsureDevice(st, device, doc, deviceFails), device, doc.sensors, doc.metadata, failing)
  }

  lemma {:induction false} RegisterSensorsCoherent(st: SinkState, device: string, kinds: seq<string>,
                                                   metadata: map<string, SensorMeta>, failing: set<nat>)
    requires Coherent(st)
    ensures Coherent(RegisterSensors(st, device, kinds, metadata, failing))
    decreases |kinds|
  {
    if |kinds| > 0 {
      var n := |kinds| - 1;
      RegisterSensorsCoherent(st, device, kinds[..n], metadata, failing);
      EnsureSensorCoherent(RegisterSensors(st, device, kinds[..n], metadata, failing), device, kinds[n], metadata, n in failing);
    }
  }

  /** The cache holds the store's id for every declared kind of the device. */
  ghost predicate Registered(st: SinkState, device: string, kinds: seq<string>) {
    forall j :: 0 <= j < |kinds| ==>
      && (device, kinds[j]) in st.store.sensors
      && CacheKey(device, kinds[j]) in st.cache
      && st.cache[CacheKey(device, kinds[j])] == st.store.sensors[(device, kinds[j])].id
  }

  /** Without failures, registration caches the store's id of every declared kind. */
  lemma {:induction false} RegisterSensorsRegistersAll(st: SinkState, device: string, kinds: seq<string>,
                                                       metadata: map<string, SensorMeta>)
    ensures Registered(RegisterSensors(st, device, kinds, metadata, {}), device, kinds)
    decreases |kinds|
  {
    if |kinds| > 0 {
      var n := |kinds| - 1;
      var init := kinds[..n];
      RegisterSensorsRegistersAll(st, device, init, metadata);
      var mid := RegisterSensors(st, device, init, metadata, {});
      var last := CacheKey(device, kinds[n]);
      var r := EnsureSensor(mid, device, kinds[n], metadata, false);
      assert r == RegisterSensors(st, device, kinds, metadata, {});
      assert r.cache == mid.cache[last := r.store.sensors[(device, kinds[n])].id];
      forall j | 0 <= j < |kinds| && kinds[j] != kinds[n]
        ensures (device, kinds[j]) in r.store.sensors
        ensures CacheKey(device, kinds[j]) in r.cache
        ensures r.cache[CacheKey(device, kinds[j])] == r.store.sensors[(device, kinds[j])].id
      {
        assert kinds[j] == init[j];
        var key := CacheKey(device, kinds[j]);
        if key == last {
          SameDeviceKeysInjective(device, kinds[j], kinds[n]);
        }
        assert r.cache[key] == mid.cache[key];
        assert r.store.sensors[(device, kinds[j])] == mid.store.sensors[(device, kinds[j])];
      }
    }
  }

  /** Registration adds exactly the missing (device, kind) rows: one per declared kind, none for anything else. */
  lemma {:induction false} RegisterSensorsRows(st: SinkState, device: string, kinds: seq<string>,
                                               metadata: map<string, SensorMeta>)
    ensures forall p :: p in RegisterSensors(st, device, kinds, metadata, {}).store.sensors <==>
      p in st.store.sensors || (p.0 == device && p.1 in kinds)
    decreases |kinds|
  {
    if |kinds| > 0 {
      var n := |kinds| - 1;
      var init := kinds[..n];
      RegisterSensorsRows(st, device, init, metadata);
      assert kinds == init + [kinds[n]];
    }
  }

  /** Registering kinds that are all registered already changes nothing. */
  lemma {:induction false} RegisterSensorsNoop(st: SinkState, device: string, kinds: seq<string>,
                                               metadata: map<string, SensorMeta>, failing: set<nat>)
    requires Registered(st, device, kinds)
    ensures RegisterSensors(st, device, kinds, metadata, failing) == st
    decreases |kinds|
  {
    if |kinds| > 0 {
      var n := |kinds| - 1;
      assert Registered(st, device, kinds[..n]) by {
        forall j | 0 <= j < n ensures kinds[..n][j] == kinds[j] { }
      }
      RegisterSensorsNoop(st, device, kinds[..n], metadata, failing);
      var key := CacheKey(device, kinds[n]);
      assert st.cache[key := st.cache[key]] == st.cache;
    }
  }

  /** Announcing a device, with any failures, keeps the invariant. */
  lemma AnnounceCoherent(st: SinkState, device: string, doc: Doc, deviceFails: bool, failing: set<nat>)
    requires Coherent(st)
    ensures Coherent(Announce(st, device, doc, deviceFails, failing))
  {
    EnsureDeviceCoherent(st, device, doc, deviceFails);
    RegisterSensorsCoherent(EnsureDevice(st, device, doc, deviceFails), device, doc.sensors, doc.metadata, failing);
  }

  /**
   * Re-announcing a device with the same payload (all calls succeeding) leaves
   * the sink as the first announcement left it: no second device row, no
   * second sensor row, no cache change.
   */
  lemma AnnounceIdempotent(st: SinkState, device: string, doc: Doc)
    ensures var once := Announce(st, device, doc, false, {});
      Announce(once, device, doc, false, {}) == once
  {
    var dev := EnsureDevice(st, device, doc, false);
    var once := Announce(st, device, doc, false, {});
    RegisterSensorsRegistersAll(dev, device, doc.sensors, doc.metadata);
    assert EnsureDevice(once, device, doc, false) == once by {
      assert once.store.devices == dev.store.devices;
      assert once.store.devices[device := DeviceRow(doc.deviceName, doc.deviceLocation, doc.firmwareVersion)] == once.store.devices;
    }
    RegisterSensorsNoop(once, device, doc.sensors, doc.metadata, {});
  }

  /**
   * The announce-then-publish scenario on a fresh flexible sink: one device
   * row, one sensor row with id 1 for the announced kind, and the reading's
   * non-null metrics stored against it.
   */
  lemma AnnounceThenStore(device: string, kind: string, doc: Doc, time: int, values: seq<Metric>)
    requires doc.sensors == [kind] && AllObjects(values)
    ensures var announced := Announce(Empty, device, doc, false, {});
      var r := StoreData(announced, Flexible, device, kind, time, values, NoFaults);
      && r.store.devices.Keys == {device}
      && r.store.sensors.Keys == {(device, kind)}
      && r.store.sensors[(device, kind)].id == 1
      && r.store.rows == FlexibleRows(time, 1, values)
  {
    var dev := EnsureDevice(Empty, device, doc, false);
    var announced := Announce(Empty, device, doc, false, {});
    assert doc.sensors[..0] == [];
    assert RegisterSensors(dev, device, doc.sensors[..0], doc.metadata, {}) == dev;
    assert announced == EnsureSensor(dev, device, kind, doc.metadata, false);
    assert announced.store.sensors.Keys == {(device, kind)};
    assert announced.cache == map[CacheKey(device, kind) := 1];
  }
}

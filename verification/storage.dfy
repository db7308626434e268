/**
 * `DatabaseStorage` and its two subclasses as one class: an identity cache
 * updated in place and the sink's database, both fields that the methods
 * reassign. Each method is specified by the function of StorageSpec that
 * gives its effect on the pair (cache, store), and keeps `Coherent`.
 */
module Storage {

  import opened Common
  import opened Payloads
  import opened StorageSpec

  class Sink {
    const layout: Layout
    var cache: map<string, int>
    var store: Store

    ghost function State(): SinkState
      reads this
    {
      SinkState(cache, store)
    }

    ghost predicate Valid()
      reads this
    {
      Coherent(State())
    }

    /** A sink over an empty database (the connection pool is not modelled). */
    constructor (layout: Layout)
      ensures Valid() && this.layout == layout && State() == Empty
    {
      this.layout := layout;
      cache := map[];
      store := Empty.store;
      EmptyCoherent();
    }

    /** `ensure_device_exists`: upsert of the device row, or rollback. */
    method EnsureDeviceExists(device: string, doc: Doc, fails: bool)
      modifies this
      ensures old(Valid()) ==> Valid()
      ensures State() == EnsureDevice(old(State()), device, doc, fails)
    {
      ghost var st := State();
      if !fails {
        store := store.(devices := store.devices[device := DeviceRow(doc.deviceName, doc.deviceLocation, doc.firmwareVersion)]);
      }
      if Coherent(st) {
        EnsureDeviceCoherent(st, device, doc, fails);
      }
    }

    /** `ensure_sensor_exists`: insert the row if absent, then cache the store's id; or rollback. */
    method EnsureSensorExists(device: string, kind: string, metadata: map<string, SensorMeta>, fails: bool)
      modifies this
      ensures old(Valid()) ==> Valid()
      ensures State() == EnsureSensor(old(State()), device, kind, metadata, fails)
    {
      ghost var st := State();
      ghost var r := EnsureSensor(st, device, kind, metadata, fails);
      if Coherent(st) {
        EnsureSensorCoherent(st, device, kind, metadata, fails);
      }
      if fails {
        return;
      }
      if (device, kind) !in store.sensors {
        var id := store.nextId;
        store := store.(sensors := store.sensors[(device, kind) := NewSensorRow(id, kind, metadata)], nextId := id + 1);
        cache := cache[CacheKey(device, kind) := id];
      } else {
        cache := cache[CacheKey(device, kind) := store.sensors[(device, kind)].id];
      }
      assert State() == r;
    }

    /** `get_sensor_id`: the cache first, the store only on a miss. */
    method GetSensorId(device: string, kind: string, fails: bool) returns (id: Option<int>)
      modifies this
      ensures old(Valid()) ==> Valid()
      ensures Lookup(State(), id) == StorageSpec.GetSensorId(old(State()), device, kind, fails)
      ensures old(Valid()) && id.Some? ==> id.value >= 1 && HasSensorId(store, id.value)
    {
      ghost var st := State();
      if Coherent(st) {
        GetSensorIdCoherent(st, device, kind, fails);
      }
      var key := CacheKey(device, kind);
      if key in cache {
        return Some(cache[key]);
      }
      if !fails && (device, kind) in store.sensors {
        id := Some(store.sensors[(device, kind)].id);
        cache := cache[key := id.value];
        return;
      }
      return None;
    }

    /**
     * The flexible write: one pending row per metric with a non-null reading,
     * committed together; an entry that is not an object, or a failing
     * database, rolls all of them back.
     */
    method WriteMetrics(id: int, time: int, values: seq<Metric>, fails: bool)
      modifies this
      ensures State() == Write(old(State()), Flexible, "", id, time, values, fails)
    {
      var pending: seq<Row> := [];
      var i := 0;
      while i < |values|
        invariant 0 <= i <= |values|
        invariant AllObjects(values[..i])
        invariant pending == FlexibleRows(time, id, values[..i])
      {
        assert values[..i + 1][..i] == values[..i];
        match values[i].field
        case NotAnObject =>
          return;
        case Reading(reading) =>
          if reading.Some? {
            pending := pending + [MetricRow(time, id, values[i].name, reading.value)];
          }
        i := i + 1;
      }
      assert values[..i] == values;
      if fails {
        return;
      }
      store := store.(rows := store.rows + pending);
    }

    /** `_store_scd30` / `_store_bmp280`: one wide row for the kinds that have a table. */
    method WriteColumns(kind: string, id: int, time: int, values: seq<Metric>, fails: bool)
      modifies this
      ensures State() == Write(old(State()), Columnar, kind, id, time, values, fails)
    {
      match ColumnsOf(kind)
      case None =>
        return;
      case Some((table, columns)) =>
        var readings := WideReadings(values, columns);
        if readings.None? || fails {
          return;
        }
        store := store.(rows := store.rows + [WideRow(table, time, id, readings.value)]);
    }

    /** The resolution stage of `store_sensor_data`: look up, auto-create on a miss, look up again. */
    method ResolveSensor(device: string, kind: string, faults: StoreFaults) returns (id: Option<int>)
      modifies this
      ensures Lookup(State(), id) == Resolve(old(State()), device, kind, faults)
    {
      id := GetSensorId(device, kind, faults.lookup);
      if !Truthy(id) {
        EnsureSensorExists(device, kind, map[], faults.create);
        id := GetSensorId(device, kind, faults.relookup);
      }
    }

    /**
     * `store_sensor_data`: resolve the sensor, give up when there is still no
     * id, else write with this sink's layout.
     */
    method StoreSensorData(device: string, kind: string, time: int, values: seq<Metric>, faults: StoreFaults)
      modifies this
      ensures State() == StoreData(old(State()), layout, device, kind, time, values, faults)
    {
      ghost var st := State();
      if Coherent(st) {
        StoreDataCoherent(st, layout, device, kind, time, values, faults);
      }
      var id := ResolveSensor(device, kind, faults);
      if !Truthy(id) {
        return;
      }
      match layout
      case Flexible =>
        WriteMetrics(id.value, time, values, faults.write);
      case Columnar =>
        WriteColumns(kind, id.value, time, values, faults.write);
    }
  }
}

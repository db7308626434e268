# Sensor platform core, modelled in Dafny

This project models the core of a small IoT sensor platform.

- **The sensor collector** (`sensor_collector.py`). It receives MQTT messages from devices and routes each one on its topic.
  - Capability announcements register the device, and each sensor it declares, with every storage sink.
  - Readings are stored by every sink.
  - Error reports are turned into a log line with a severity label.
  - When a connect fails, the collector backs off exponentially.
- **The storage sinks** in the same file: the flexible sink, which writes one row per metric, and the columnar sink, which writes one wide row per reading.
  - Each sink keeps an identity cache from `device_kind` to sensor id.
  - Every database call either commits or rolls back.
- **The query gate of the local MCP server** (`mcp_server_local.py`):
  - the read-only test applied to SQL;
  - the sensor dictionary built from a result set;
  - the cache of query results.
- **The clean-up job** (`cleanup_old_files.py`). It unlinks regular files older than a maximum age and reports what it did.
- **The device activity inspector** (`device_activity_inspector.py`):
  - its configuration check;
  - the latest message time of a device;
  - the per-device decision to notify.

## How the model is built

- **Sinks are objects.** `Storage.Sink` is a class whose fields are the identity cache and an abstract database: a devices table, a sensors table keyed by (device, kind) with a serial id counter, and the measurement rows.
  - Each method is specified by a function in `StorageSpec` that gives the new (cache, database) pair.
  - The lemmas in `StorageSpec` prove that every operation keeps the sink's invariant `Coherent`: ids are positive, distinct and below the counter, every cache entry names a stored sensor, and every row refers to one.
  - They also prove what the operations mean: which rows a write appends, which sensors registration creates, and when the cache agrees with the store.
- **Failures are flags.** Each database call takes a `fails` flag. A failing call rolls back, so it changes nothing.
- **The collector is an object.** `Ingest.Collector` holds the devices dictionary, the reconnect delay and the connected flag, and fans each message out to its sinks in order.
  - Each sink ends in the state its own specification function gives, whatever happens to the other sinks.
  - The order of calls made by `handle_capabilities` is returned as a call log.
- **Pure computations are functions.** Routing, the timestamp, the severity label, the back-off schedule, the SQL gate, the sensor dictionary, the clean-up tally and the inactivity decision are functions with lemmas. The loops the source has are methods proved against them.

### Where the code is followed over its own comments and documentation

- **Unreadable timestamp.** A timestamp that is present but not a number is not replaced by the arrival time. `fromtimestamp` raises, and the whole reading (or error report) is dropped. The arrival time replaces only a missing timestamp.
- **Topic segments.** The router never checks the first segment (`devices`) or the fifth (`data`). Any topic whose third segment is `sensors` and which has a fourth segment is routed as a reading.
- **Unrecognised kind.** A message whose third segment names no kind is dropped silently, after its payload has been decoded.
- **Negative severity.** Severities above 3 are clamped to CRITICAL. A negative severity, however, indexes the label list from its end (-1 is CRITICAL, -4 is INFO), and a severity below -4 raises. The report is then dropped.
- **Columnar rows.** The columnar sink does not normalise readings into narrow rows. It writes one wide row for `scd30` and `bmp280` readings and nothing for any other kind.
- **Cache-key collision.** The cache key is the string `device + "_" + kind`, which is ambiguous when device ids contain `_`. `StorageSpec.CacheKeyCollision` exhibits a lookup that returns another sensor's id. Cache correctness (`StorageSpec.ResolveAgreesWithStore`) is proved only when no other stored sensor shares the key.

## Model

| member | source | states |
|---|---|---|
| Topics.Split | sensor_collector.py:350 | `split('/')` always yields at least one segment |
| Topics.SplitShape | sensor_collector.py:350-353 | there is one more segment than there are '/' in the topic, and no segment contains '/' |
| Topics.JoinSplit | sensor_collector.py:350 | splitting loses nothing: joining the segments with '/' gives back the topic |
| Topics.SplitJoin | sensor_collector.py:350-356 | a topic built from separator-free segments splits back into exactly those segments |
| Topics.KindOf | sensor_collector.py:360-369 | a selected kind is the one whose name the segment is, and a segment that names no kind selects none |
| Topics.Classify | sensor_collector.py:347-374 | a payload that is not JSON never reaches a handler |
| Topics.ShortTopicIgnored | sensor_collector.py:350-353 | a topic with fewer than two '/' is ignored before its payload is decoded |
| Topics.RouteOfJoin | sensor_collector.py:350-369 | routing of `ns/device/kind/...`: capabilities, status and error go to the device's handler; a sensors topic is routed with its fourth segment, or fails without one; an unknown kind reaches no handler; an undecodable payload is dropped |
| Payloads.SeverityLabel | sensor_collector.py:418-423 | a missing severity or 0 gives INFO, 1 WARNING, 2 ERROR, 3 and above CRITICAL; -4..-1 wrap from the end; below -4 raises |
| Payloads.HandleError | sensor_collector.py:413-425 | the log line exists exactly when neither the timestamp nor the label raises; it carries the device, the defaults `unknown` and `No message`, and the label |
| Backoff.NextDelay | sensor_collector.py:441 | the next delay is the smaller of the doubled delay and the 60-second cap, so never above either, and never below a delay in [0, 60] |
| Backoff.Sleeps | sensor_collector.py:429-441 | n consecutive failures sleep n times |
| Backoff.ReachableClosed | sensor_collector.py:441 | from 5, 10, 20, 40 or 60 the delay stays in that set after any number of failures |
| Backoff.SleepsAreDelays | sensor_collector.py:436-441 | the i-th sleep is the delay reached after i failures, and the delay left behind is the back-off of the last sleep |
| Backoff.SleepsMonotoneAndCapped | sensor_collector.py:438-441 | starting from a delay in [0, 60], sleeps never decrease, never exceed 60 and never fall below the start |
| Backoff.InitialSchedule | sensor_collector.py:438-441 | an always-failing broker sees sleeps of 5, 10, 20, 40, 60, 60 |
| Backoff.CapIsStable | sensor_collector.py:441 | once at 60 the delay stays at 60 |
| Backoff.OneMoreFailure | sensor_collector.py:436-441 | one more failure appends the current delay to the sleeps and backs off once more |
| StorageSpec.EmptyCoherent | sensor_collector.py:52-61 | a new sink (empty cache, empty tables) satisfies the sink invariant |
| StorageSpec.EnsureDevice | sensor_collector.py:63-91 | the device upsert overwrites name, location and firmware and touches nothing else; a failure changes nothing |
| StorageSpec.NewSensorRow | sensor_collector.py:106-115 | an inserted sensor takes its own entry of the announced metadata, or none (location `unknown`, NULL metadata) |
| StorageSpec.EnsureSensor | sensor_collector.py:93-130 | afterwards the sensor row exists and its id is cached under the key; devices and rows are untouched; a failure changes nothing |
| StorageSpec.GetSensorId | sensor_collector.py:132-159 | a cache hit answers from the cache and changes nothing, even with a failing database; a miss with the row present and a working database returns its id and caches exactly that key; any other miss returns None and changes nothing; cache entries are only ever added, and the database is never changed |
| StorageSpec.ColumnsOf | sensor_collector.py:189-195 | only `scd30` and `bmp280` have a table |
| StorageSpec.WideReadings | sensor_collector.py:203-205 | a wide row has one reading per column |
| StorageSpec.Write | sensor_collector.py:197-287 | a write only appends rows: the old rows stay a prefix, cache, sensors, devices and counter are untouched, and a failing write appends nothing |
| StorageSpec.Resolve | sensor_collector.py:178-187 | resolving a sensor id never touches the devices table or the rows |
| StorageSpec.StoreData | sensor_collector.py:253-287 | storing a reading never touches the devices table |
| StorageSpec.EnsureDeviceCoherent | sensor_collector.py:63-91 | the device upsert keeps the sink invariant |
| StorageSpec.CacheStoredIdCoherent | sensor_collector.py:121-123 | caching a stored sensor's id under its key keeps the invariant |
| StorageSpec.InsertCoherent | sensor_collector.py:111-117 | inserting a sensor with the next serial id keeps the invariant |
| StorageSpec.EnsureSensorCoherent | sensor_collector.py:93-130 | `ensure_sensor_exists` keeps the invariant, with or without a failure |
| StorageSpec.GetSensorIdCoherent | sensor_collector.py:132-159 | a lookup keeps the invariant, and a returned id is positive and names a stored sensor under that key |
| StorageSpec.FlexibleRowsCount | sensor_collector.py:271-277 | the flexible sink writes exactly as many rows as there are metrics with a non-null reading |
| StorageSpec.FlexibleRowsSound | sensor_collector.py:271-277 | every flexible row is the (time, sensor, metric, value) row of one metric with a non-null reading |
| StorageSpec.FlexibleRowsComplete | sensor_collector.py:271-277 | every metric with a non-null reading has its row |
| StorageSpec.WriteCoherent | sensor_collector.py:197-287 | writing for a stored sensor keeps the invariant |
| StorageSpec.ResolveCoherent | sensor_collector.py:178-187 | resolution (lookup, auto-create, lookup) keeps the invariant and returns only ids of stored sensors |
| StorageSpec.StoreDataCoherent | sensor_collector.py:253-287 | `store_sensor_data` keeps the invariant, whatever fails |
| StorageSpec.ResolveAgreesWithStore | sensor_collector.py:132-159 | when no other sensor shares the key, a returned id is the store's id for (device, kind), and with a working database an id is returned exactly when the row exists |
| StorageSpec.SameDeviceKeysInjective | sensor_collector.py:134 | within one device, different kinds never share a cache key |
| StorageSpec.UnderscoreFreeKeysInjective | sensor_collector.py:134 | when device ids contain no `_`, the key determines the (device, kind) pair |
| StorageSpec.CacheKeyCollision | sensor_collector.py:121-137 | after registering (`a_b`, `c`), a lookup of (`a`, `b_c`) returns the other sensor's id although no such row exists |
| StorageSpec.ResolveHealthy | sensor_collector.py:255-264 | with a working database and an unambiguous key, resolution returns the store's id, auto-creating the sensor with empty metadata exactly when it was missing |
| StorageSpec.StoreDataHealthyFlexible | sensor_collector.py:253-287 | with a working database, the flexible sink ends with the sensor registered and exactly the rows of the non-null metrics appended for its id |
| StorageSpec.StoreDataWriteFailure | sensor_collector.py:283-287 | a failing write rolls back every row of the call |
| StorageSpec.StoreDataGivesUpWithoutId | sensor_collector.py:257-264 | when the sensor is unknown and the auto-create fails, nothing is cached or written |
| StorageSpec.ColumnarWritesOnlyKnownKinds | sensor_collector.py:189-195 | the columnar sink writes no row for a kind other than `scd30` and `bmp280` |
| StorageSpec.StoreDataHealthyColumnar | sensor_collector.py:176-245 | with a working database, the columnar sink appends exactly one wide row, with the readings of its table's columns, for the sensor |
| StorageSpec.RegisterSensors | sensor_collector.py:386-388 | registering sensors never changes devices or rows, and never changes or removes a stored sensor |
| StorageSpec.RegisterSensorsCoherent | sensor_collector.py:386-388 | registering the declared sensors keeps the invariant, with any failures |
| StorageSpec.RegisterSensorsRegistersAll | sensor_collector.py:386-388 | without failures, every declared kind ends with a row, and its id cached under its key |
| StorageSpec.RegisterSensorsRows | sensor_collector.py:386-388 | registration creates rows for exactly the declared kinds of the device that were missing |
| StorageSpec.RegisterSensorsNoop | sensor_collector.py:386-388 | registering kinds that are all registered changes nothing |
| StorageSpec.AnnounceCoherent | sensor_collector.py:376-388 | a capabilities announcement keeps the invariant |
| StorageSpec.AnnounceIdempotent | sensor_collector.py:376-388 | announcing the same payload again leaves the sink as the first announcement left it |
| StorageSpec.AnnounceThenStore | sensor_collector.py:376-401 | announce then publish on a fresh flexible sink: one device, one sensor with id 1, and the reading's non-null metrics stored against it |
| Storage.Sink.constructor | sensor_collector.py:52-61 | a new sink is empty and satisfies its invariant |
| Storage.Sink.EnsureDeviceExists | sensor_collector.py:63-91 | the sink's new state is `EnsureDevice` of the old one, and the invariant is kept |
| Storage.Sink.EnsureSensorExists | sensor_collector.py:93-130 | the sink's new state is `EnsureSensor` of the old one, and the invariant is kept |
| Storage.Sink.GetSensorId | sensor_collector.py:132-159 | state and answer as `StorageSpec.GetSensorId` gives them (hit, cached miss, plain miss); a returned id is positive and names a stored sensor |
| Storage.Sink.WriteMetrics | sensor_collector.py:266-287 | the loop appends `FlexibleRows` in one commit, or nothing when an entry is not an object or the database fails |
| Storage.Sink.WriteColumns | sensor_collector.py:189-245 | the new state is the columnar `Write` of the old one |
| Storage.Sink.ResolveSensor | sensor_collector.py:178-187 | state and id as `Resolve` gives them |
| Storage.Sink.StoreSensorData | sensor_collector.py:253-287 | the new state is `StoreData` of the old one, for this sink's layout |
| Ingest.SensorFailsOf | sensor_collector.py:386-388 | the failing declared positions of one sink are exactly those paired with it |
| Ingest.DeviceCallsShape | sensor_collector.py:382-383 | the device step calls `ensure_device_exists` once per sink, in sink order |
| Ingest.KindCallsShape | sensor_collector.py:387-388 | one sensor step calls `ensure_sensor_exists` once per sink, in sink order |
| Ingest.SensorCallsExact | sensor_collector.py:386-388 | the sensor steps make exactly one call per (declared position, sink) pair |
| Ingest.CapabilityCallsDevicesFirst | sensor_collector.py:376-388 | every sink registers the device before any sensor call is made |
| Ingest.CapabilityCallsSensorsOnce | sensor_collector.py:376-388 | after the device calls, every (declared kind, sink) pair is registered exactly once |
| Ingest.Collector.constructor | sensor_collector.py:293-302 | a new collector is disconnected, with a 5-second delay and no known devices |
| Ingest.Collector.OnConnect | sensor_collector.py:313-335 | reason code 0 connects, resets the delay and subscribes to the four patterns with their QoS; any other code disconnects and subscribes to nothing |
| Ingest.Collector.OnDisconnect | sensor_collector.py:337-345 | any disconnect clears the connected flag |
| Ingest.Collector.ConnectWithRetry | sensor_collector.py:427-441 | returns at the first successful attempt; each earlier failure sleeps the current delay, and the sleeps and final delay are the back-off schedule |
| Ingest.Collector.RegisterDeviceWithSinks | sensor_collector.py:381-383 | each sink ends with `EnsureDevice` applied, with its own failure flag |
| Ingest.Collector.RegisterKindWithSinks | sensor_collector.py:387-388 | each sink ends with `EnsureSensor` for the kind applied, with its own failure flag |
| Ingest.Collector.RegisterSensorsWithSinks | sensor_collector.py:385-388 | each sink ends with `RegisterSensors` applied to the declared kinds |
| Ingest.Collector.HandleCapabilities | sensor_collector.py:376-388 | records the payload; each sink ends announced with its own failures, whatever the other sinks do; calls are made devices first; every sink keeps its invariant |
| Ingest.Collector.StoreWithSinks | sensor_collector.py:400-401 | each sink ends with `StoreData` applied, with its own failures |
| Ingest.Collector.HandleSensorData | sensor_collector.py:390-404 | a timestamp that raises skips every sink; otherwise every sink stores the reading independently and keeps its invariant |
| Ingest.Collector.OnMessage | sensor_collector.py:347-374 | the route is the topic's classification; only capabilities and readings change sinks or the devices dictionary; an error report yields its log line; connection state is untouched; sink invariants are kept |
| QueryGate.Upper | mcp_server_local.py:61 | the upper-cased query has the same length, is upper-cased character by character, and holds no lower-case letter |
| QueryGate.OccursIff | mcp_server_local.py:62-64 | the substring test succeeds exactly when the keyword sits at some position |
| QueryGate.IsSafeQuery | mcp_server_local.py:42-66 | a query passes exactly when it parses to at least one statement, the first is a SELECT, and none of the nine keywords occurs in its upper-cased text |
| QueryGate.CreatedAtColumnIsRefused | mcp_server_local.py:61-64 | any query naming a `created_at` column is refused, because CREATE occurs in it |
| QueryGate.SensorDict | mcp_server_local.py:68-75 | the dictionary exists exactly when every row has an id and a value for every described column, and its keys are the rows' ids |
| QueryGate.RowInfoSpec | mcp_server_local.py:73 | an entry holds exactly the column names after the first, each with the value of its last column of that name |
| QueryGate.IdColumnExcluded | mcp_server_local.py:73 | the id column is not copied into the entry |
| QueryGate.SensorDictLastRowWins | mcp_server_local.py:71-74 | the entry under an id is built from the last row with that id |
| QueryGate.EmptyResultsEmptyDict | mcp_server_local.py:68-75 | no rows give an empty dictionary |
| QueryGate.MessageIdentifiesReport | mcp_server_local.py:82-89 | different outcomes give different answer texts: the text tells a removed entry, a missing entry and a full clear apart, and names the id it was given |
| QueryGate.QueryCache.constructor | mcp_server_local.py:112 | the cache starts empty |
| QueryGate.QueryCache.Put | mcp_server_local.py:112 | storing a result adds or replaces exactly that id |
| QueryGate.QueryCache.Clear | mcp_server_local.py:78-89 | a non-empty id removes only that entry, or reports it missing and changes nothing; no id or an empty one empties the cache |
| Cleanup.OutcomeOf | cleanup_old_files.py:59-78 | non-files are skipped; a file whose stat fails is a failure; a file strictly older than the maximum age is deleted, freeing its size, or is a failure when unlink fails; a file not older is kept |
| Cleanup.CleanupResult | cleanup_old_files.py:22-86 | a missing path and a non-directory give their error with zero counters; a directory gives the statistics |
| Cleanup.CleanupOldFiles | cleanup_old_files.py:22-86 | the loop's report is `CleanupResult` |
| Cleanup.Names | cleanup_old_files.py:74 | the names of the entries, position by position |
| Cleanup.FailureLines | cleanup_old_files.py:78 | one `name: error` line per entry, position by position |
| Cleanup.SweepCounts | cleanup_old_files.py:72-78 | `deleted` and `failed` equal the lengths of `deleted_files` and `failed_files` |
| Cleanup.SweepDeleted | cleanup_old_files.py:69-74 | `deleted_files` names exactly the deleted entries in directory order, and `total_size_freed` is the sum of their sizes |
| Cleanup.SweepFailed | cleanup_old_files.py:76-78 | `failed_files` holds the line of exactly the failed entries, in directory order |
| Cleanup.AtMostOneList | cleanup_old_files.py:59-78 | an entry is deleted or failed, never both; the lists hold only entries of the directory |
| Cleanup.NonFilesSkipped | cleanup_old_files.py:60-61 | an entry that is not a regular file changes no counter and no list |
| Cleanup.ExactMaximumAgeKept | cleanup_old_files.py:69 | a file exactly as old as the maximum age is kept |
| Inspector.MissingNames | device_activity_inspector.py:45 | nothing is missing exactly when every value is present (neither None nor empty) |
| Inspector.ValidateEnv | device_activity_inspector.py:30-48 | the check fails exactly when one of the five settings is missing, and lists the missing names in declaration order |
| Inspector.MissingNamesMembers | device_activity_inspector.py:45 | a name is listed exactly when a setting of that name is missing |
| Inspector.MissingNamesInOrder | device_activity_inspector.py:45 | the missing names keep the order of the settings |
| Inspector.LatestMessageTime | device_activity_inspector.py:110 | None exactly when every time is null; otherwise one of the times, and no smaller than any of them |
| Inspector.MinutesTruncated | device_activity_inspector.py:131 | whole minutes truncated toward zero |
| Inspector.Decide | device_activity_inspector.py:123-132 | "never sent" exactly when there is no latest time; "inactive" exactly when the latest time is strictly before now minus the threshold, with the truncated minutes since; a device seen at or after that time gets nothing |
| Inspector.Emitted | device_activity_inspector.py:128-132 | at most one notification per device |
| Inspector.CheckDeviceActivity | device_activity_inspector.py:112-134 | the loop sends `Notifications`: each device's decision, in device order |
| Inspector.NotificationsSnoc | device_activity_inspector.py:125-132 | one more device adds its own decision and nothing else |
| Inspector.NotificationsInOrder | device_activity_inspector.py:125-132 | the notifications of a device list are those of its parts, in order |
| Inspector.AtMostOnePerDevice | device_activity_inspector.py:125-132 | no more notifications than devices |
| Inspector.AtThresholdNotReported | device_activity_inspector.py:130 | a device silent for exactly the threshold is not reported |

## Left out

- MQTT transport: the paho client, `loop_forever`, `start`, `stop` and the subscriptions' effect on the broker are not modelled. `OnConnect` returns the subscription list instead.
- Database access: connection pools, SQL text, commits and cursors are abstracted into one in-memory store per sink, with a failure flag per call. A rollback is "no change".
- Pool exhaustion: `getconn` raising outside the `try` of a sink method would abort the remaining sinks. This is not modelled; every sink is always reached.
- `close` and the pool set-up in `DatabaseStorage.__init__` are not modelled.
- JSON decoding: a payload is given already decoded (a `Doc`), or None when it is not JSON.
- Duplicate metric names in a reading are not modelled: the decoded `value` object has distinct keys.
- Non-integer severities (null, a float, a string) are not modelled. The severity is an optional integer.
- Payloads of the wrong JSON shape are not modelled (`Doc` is always an object with typed fields): a capabilities payload that is a list or a number is still recorded in `devices` before `payload.get` raises (sensor_collector.py:378-379); a reading that is present but not a number makes the INSERT raise and roll back (sensor_collector.py:272-277); an error report whose `value` is not an object makes `error.get` raise (sensor_collector.py:415-418).
- Each sink's database is written only by that sink. The invariant `StorageSpec.Coherent` relies on this; the real database can also be written by other clients, such as another collector.
- Time is whole seconds: sub-second timestamps, time zones and `fromtimestamp`'s range errors are not modelled. The arrival time and the clock are parameters.
- Logging, and the body of `handle_status`, which only logs: a status message changes nothing in the model.
- Ingest.Collector.ConnectWithRetry: it runs over a finite sequence of attempt outcomes and stops when they run out. The source retries forever, and real sleeping is not modelled.
- Storage.Sink.StoreSensorData, `Storage.Sink.WriteMetrics`, `Storage.Sink.WriteColumns` and `Storage.Sink.ResolveSensor` state only the new state. That the invariant is kept is the separate lemma `StorageSpec.StoreDataCoherent`, which the collector uses.
- Ingest.Collector.HandleCapabilities, `Ingest.Collector.HandleSensorData` and `Ingest.Collector.OnMessage` state sink coherence as "kept if it held", not as a precondition.
- QueryGate.IsSafeQuery: `sqlparse` is not modelled. Its answer, the types of the parsed statements, is a parameter.
- QueryGate.Upper: `str.upper` is modelled on ASCII letters only; other Unicode case mappings are not modelled.
- `execute_sql_query`, `list_sensors`, `get_database_schema`, `execute_pandas` and `execute_matplotlib` (SQL, pandas, file output) are not modelled. Only the cache insertion of `execute_sql_query` is (`QueryGate.QueryCache.Put`).
- `python_executor.py`, `client.py`, `mcp_server_http.py` and `mcp_sensor_Server.py` are not part of this model.
- Clean-up: the file system is a list of entries describing what `stat` and `unlink` do. The directory's state after the unlinks, `format_size` (floating point) and `main` are not modelled.
- Inspector: `send_notification` (HTTP), the SQL of `get_devices` and `get_latest_message_time`, and the `main` loop with its sleep are not modelled. Each device's `last_seen` column is given as a function from device id to rows.

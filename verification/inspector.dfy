/**
 * The device activity inspector: its start-up check of the configuration,
 * the latest message time of a device, and the decision, device by device,
 * to notify that a device never sent data or has gone quiet. Times are whole
 * seconds; the database answers and the clock are parameters.
 */
module Inspector {

  import opened Common

  // ---------------------------------------------------------------------------
  // validate_env_variables
  // ---------------------------------------------------------------------------

  /** Python truthiness of a configuration value: None and "" are missing. */
  predicate Present(value: Option<string>) {
    value.Some? && value.value != ""
  }

  /** The names of the missing values, in the order given. */
  function MissingNames(vars: seq<(string, Option<string>)>): (names: seq<string>)
    ensures |names| == 0 <==> forall i :: 0 <= i < |vars| ==> Present(vars[i].1)
    decreases |vars|
  {
    if |vars| == 0 then []
    else (if Present(vars[0].1) then [] else [vars[0].0]) + MissingNames(vars[1..])
  }

  /** The five required settings, in declaration order. */
  function RequiredVars(pushoverUser: Option<string>, pushoverToken: Option<string>,
                        dbHost: Option<string>, dbUser: Option<string>, dbPassword: Option<string>): seq<(string, Option<string>)>
  {
    [("PUSHOVER_USER", pushoverUser), ("PUSHOVER_TOKEN", pushoverToken),
     ("DB_HOST", dbHost), ("DB_USER", dbUser), ("DB_PASSWORD", dbPassword)]
  }

  /** `", ".join(names)`. */
  function JoinComma(names: seq<string>): string
    decreases |names|
  {
    if |names| == 0 then "" else if |names| == 1 then names[0] else names[0] + ", " + JoinComma(names[1..])
  }

  /** The outcome of the check: every setting loaded, or the ValueError it raises. */
  datatype EnvCheck = Loaded | MissingSettings(names: seq<string>) {
    /** The text of the ValueError. */
    function Message(): (text: string)
      requires MissingSettings?
    {
      "Missing required environment variables: " + JoinComma(names)
    }
  }

  /** `validate_env_variables()`: raises exactly when some required value is missing, naming all of them. */
  function ValidateEnv(pushoverUser: Option<string>, pushoverToken: Option<string>,
                       dbHost: Option<string>, dbUser: Option<string>, dbPassword: Option<string>): (r: EnvCheck)
    ensures r.MissingSettings? <==>
      !Present(pushoverUser) || !Present(pushoverToken) || !Present(dbHost) || !Present(dbUser) || !Present(dbPassword)
    ensures r.MissingSettings? ==> r.names == MissingNames(RequiredVars(pushoverUser, pushoverToken, dbHost, dbUser, dbPassword))
  {
    var vars := RequiredVars(pushoverUser, pushoverToken, dbHost, dbUser, dbPassword);
    var missing := MissingNames(vars);
    assert (forall i :: 0 <= i < |vars| ==> Present(vars[i].1)) <==>
      Present(vars[0].1) && Present(vars[1].1) && Present(vars[2].1) && Present(vars[3].1) && Present(vars[4].1);
    if |missing| == 0 then Loaded else MissingSettings(missing)
  }

  /** A name is listed exactly when some setting of that name is missing. */
  lemma {:induction false} MissingNamesMembers(vars: seq<(string, Option<string>)>, name: string)
    ensures name in MissingNames(vars) <==> exists i :: 0 <= i < |vars| && vars[i].0 == name && !Present(vars[i].1)
    decreases |vars|
  {
    if |vars| > 0 {
      MissingNamesMembers(vars[1..], name);
      if exists i :: 0 <= i < |vars| && vars[i].0 == name && !Present(vars[i].1) {
        var i :| 0 <= i < |vars| && vars[i].0 == name && !Present(vars[i].1);
        if i > 0 {
          assert vars[1..][i - 1] == vars[i];
        }
      }
      if name in MissingNames(vars[1..]) {
        var i :| 0 <= i < |vars[1..]| && vars[1..][i].0 == name && !Present(vars[1..][i].1);
        assert vars[i + 1] == vars[1..][i];
      }
    }
  }

  /** Order is kept: the missing names of earlier settings come before those of later ones. */
  lemma {:induction false} MissingNamesInOrder(front: seq<(string, Option<string>)>, back: seq<(string, Option<string>)>)
    ensures MissingNames(front + back) == MissingNames(front) + MissingNames(back)
    decreases |front|
  {
    if |front| == 0 {
      assert front + back == back;
    } else {
      assert (front + back)[1..] == front[1..] + back;
      MissingNamesInOrder(front[1..], back);
      var head := if Present(front[0].1) then [] else [front[0].0];
      assert MissingNames(front + back) == head + (MissingNames(front[1..]) + MissingNames(back));
    }
  }

  // ---------------------------------------------------------------------------
  // get_latest_message_time
  // ---------------------------------------------------------------------------

  /**
   * `max((r[2] for r in results if r[2]), default=None)` over the `last_seen`
   * column: the greatest non-null time, None when there is none.
   */
  function LatestMessageTime(lastSeen: seq<Option<int>>): (latest: Option<int>)
    ensures latest.None? <==> forall i :: 0 <= i < |lastSeen| ==> lastSeen[i].None?
    ensures latest.Some? ==> exists i :: 0 <= i < |lastSeen| && lastSeen[i] == latest
    ensures latest.Some? ==> forall i :: 0 <= i < |lastSeen| && lastSeen[i].Some? ==> lastSeen[i].value <= latest.value
    decreases |lastSeen|
  {
    if |lastSeen| == 0 then None
    else
      var rest := LatestMessageTime(lastSeen[1..]);
      assert forall i :: 1 <= i < |lastSeen| ==> lastSeen[i] == lastSeen[1..][i - 1];
      match lastSeen[0]
      case None => rest
      case Some(t) =>
        if rest.Some? && rest.value >= t then rest else Some(t)
  }

  // ---------------------------------------------------------------------------
  // check_device_activity
  // ---------------------------------------------------------------------------

  /** A row of `get_devices`. */
  datatype Device = Device(id: string, name: string)

  /** A notification the inspector sends. */
  datatype Notification =
    | NeverSent(id: string, name: string)
    | Inactive(id: string, name: string, minutesAgo: int)

  /** `int(seconds / 60)`: Python's `int` truncates toward zero. */
  function MinutesTruncated(seconds: int): (m: int)
    ensures seconds >= 0 ==> 0 <= m && m * 60 <= seconds < m * 60 + 60
    ensures seconds < 0 ==> m <= 0 && m * 60 >= seconds > m * 60 - 60
  {
    if seconds >= 0 then seconds / 60 else -((-seconds) / 60)
  }

  /**
   * The decision for one device with latest message time `latest`: never
   * sent, inactive when strictly before `now - inactivityThreshold`, else
   * nothing.
   */
  function Decide(device: Device, latest: Option<int>, now: int, inactivityThreshold: int): (n: Option<Notification>)
    ensures latest.None? <==> n == Some(NeverSent(device.id, device.name))
    ensures (n.Some? && n.value.Inactive?) <==> latest.Some? && latest.value < now - inactivityThreshold
    ensures n.Some? && n.value.Inactive? ==>
      n.value == Inactive(device.id, device.name, MinutesTruncated(now - latest.value))
    ensures latest.Some? && latest.value >= now - inactivityThreshold ==> n.None?
  {
    match latest
    case None => Some(NeverSent(device.id, device.name))
    case Some(t) =>
      if t < now - inactivityThreshold then Some(Inactive(device.id, device.name, MinutesTruncated(now - t)))
      else None
  }

  /** What the inspector sends for one device: its decision, if any. */
  function Emitted(device: Device, rowsOf: string -> seq<Option<int>>, now: int, inactivityThreshold: int): (sent: seq<Notification>)
    ensures |sent| <= 1
  {
    match Decide(device, LatestMessageTime(rowsOf(device.id)), now, inactivityThreshold)
    case None => []
    case Some(n) => [n]
  }

  /** The notifications for `devices`, in order, given each device's `last_seen` rows. */
  function Notifications(devices: seq<Device>, rowsOf: string -> seq<Option<int>>, now: int, inactivityThreshold: int): seq<Notification>
    decreases |devices|
  {
    if |devices| == 0 then []
    else
      Notifications(devices[..|devices| - 1], rowsOf, now, inactivityThreshold)
        + Emitted(devices[|devices| - 1], rowsOf, now, inactivityThreshold)
  }

  /**
   * `check_device_activity()`: for each device in the order returned, look up
   * its latest message time and send at most one notification.
   */
  method CheckDeviceActivity(devices: seq<Device>, rowsOf: string -> seq<Option<int>>, now: int, inactivityThreshold: int)
    returns (sent: seq<Notification>)
    ensures sent == Notifications(devices, rowsOf, now, inactivityThreshold)
  {
    sent := [];
    var i := 0;
    while i < |devices|
      invariant 0 <= i <= |devices|
      invariant sent == Notifications(devices[..i], rowsOf, now, inactivityThreshold)
    {
      var device := devices[i];
      assert devices[..i + 1] == devices[..i] + [device];
      NotificationsSnoc(devices[..i], device, rowsOf, now, inactivityThreshold);
      var latest := LatestMessageTime(rowsOf(device.id));
      var decision := Decide(device, latest, now, inactivityThreshold);
      if decision.Some? {
        sent := sent + [decision.value];
      }
      i := i + 1;
    }
    assert devices[..i] == devices;
  }

  /** Appending a device appends its own decision and nothing else. */
  lemma NotificationsSnoc(devices: seq<Device>, device: Device, rowsOf: string -> seq<Option<int>>, now: int, inactivityThreshold: int)
    ensures Notifications(devices + [device], rowsOf, now, inactivityThreshold) ==
      Notifications(devices, rowsOf, now, inactivityThreshold) + Emitted(device, rowsOf, now, inactivityThreshold)
  {
    assert (devices + [device])[..|devices|] == devices;
  }

  /** One decision per device, in device order: the notifications of a list are those of its parts, joined. */
  lemma {:induction false} NotificationsInOrder(front: seq<Device>, back: seq<Device>, rowsOf: string -> seq<Option<int>>,
                                               now: int, inactivityThreshold: int)
    ensures Notifications(front + back, rowsOf, now, inactivityThreshold) ==
      Notifications(front, rowsOf, now, inactivityThreshold) + Notifications(back, rowsOf, now, inactivityThreshold)
    decreases |back|
  {
    if |back| == 0 {
      assert front + back == front;
    } else {
      var init, last := back[..|back| - 1], back[|back| - 1];
      assert back == init + [last];
      assert front + back == (front + init) + [last];
      NotificationsInOrder(front, init, rowsOf, now, inactivityThreshold);
      NotificationsSnoc(front + init, last, rowsOf, now, inactivityThreshold);
      NotificationsSnoc(init, last, rowsOf, now, inactivityThreshold);
      var head := Notifications(front, rowsOf, now, inactivityThreshold);
      var mid := Notifications(init, rowsOf, now, inactivityThreshold);
      var tail := Emitted(last, rowsOf, now, inactivityThreshold);
      assert (head + mid) + tail == head + (mid + tail);
    }
  }

  /** At most one notification per device. */
  lemma {:induction false} AtMostOnePerDevice(devices: seq<Device>, rowsOf: string -> seq<Option<int>>, now: int, inactivityThreshold: int)
    ensures |Notifications(devices, rowsOf, now, inactivityThreshold)| <= |devices|
    decreases |devices|
  {
    if |devices| > 0 {
      AtMostOnePerDevice(devices[..|devices| - 1], rowsOf, now, inactivityThreshold);
    }
  }

  /**
   * A device whose latest message is exactly `now - inactivityThreshold`
   * old is not reported: the comparison is strict.
   */
  lemma AtThresholdNotReported(device: Device, latest: int, now: int, inactivityThreshold: int)
    requires latest == now - inactivityThreshold
    ensures Decide(device, Some(latest), now, inactivityThreshold) == None
  {
  }
}

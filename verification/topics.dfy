/**
 * The topic router of the sensor collector: an MQTT topic is split on '/'
 * and its third segment chooses one of four handlers.
 */
module Topics {

  import opened Common

  /** Python's `topic.split('/')`: always at least one piece, none holding a '/'. */
  function Split(s: string): (parts: seq<string>)
    ensures |parts| >= 1
    decreases |s|
  {
    if |s| == 0 then [""]
    else if s[0] == '/' then [""] + Split(s[1..])
    else
      var rest := Split(s[1..]);
      [[s[0]] + rest[0]] + rest[1..]
  }

  /** `'/'.join(parts)`, the inverse of Split. */
  function Join(parts: seq<string>): string
    requires |parts| >= 1
    decreases |parts|
  {
    if |parts| == 1 then parts[0] else parts[0] + "/" + Join(parts[1..])
  }

  /** Number of occurrences of `c` in `s`. */
  function Count(s: string, c: char): nat
    decreases |s|
  {
    if |s| == 0 then 0 else (if s[0] == c then 1 else 0) + Count(s[1..], c)
  }

  /** The pieces carry no separator, and there is one more piece than there are separators. */
  lemma {:induction false} SplitShape(s: string)
    ensures |Split(s)| == Count(s, '/') + 1
    ensures forall i :: 0 <= i < |Split(s)| ==> '/' !in Split(s)[i]
    decreases |s|
  {
    if |s| > 0 {
      SplitShape(s[1..]);
    }
  }

  /** Joining the pieces gives back the topic. */
  lemma {:induction false} JoinSplit(s: string)
    ensures Join(Split(s)) == s
    decreases |s|
  {
    if |s| > 0 {
      JoinSplit(s[1..]);
      var rest := Split(s[1..]);
      if s[0] == '/' {
        assert Split(s)[1..] == rest;
      } else {
        var parts := Split(s);
        assert parts[0] == [s[0]] + rest[0];
        if |rest| > 1 {
          assert parts[1..] == rest[1..];
        }
      }
    }
  }

  /** Splitting a join of separator-free pieces gives back the pieces. */
  lemma {:induction false} SplitJoin(parts: seq<string>)
    requires |parts| >= 1
    requires forall i :: 0 <= i < |parts| ==> '/' !in parts[i]
    ensures Split(Join(parts)) == parts
    decreases |parts|, |parts[0]|
  {
    var p := parts[0];
    if |p| == 0 {
      if |parts| > 1 {
        SplitJoin(parts[1..]);
        assert Join(parts) == "/" + Join(parts[1..]);
        assert Join(parts)[1..] == Join(parts[1..]);
      }
    } else {
      var shorter := [p[1..]] + parts[1..];
      assert shorter[1..] == parts[1..];
      SplitJoin(shorter);
      assert Join(parts) == [p[0]] + Join(shorter);
      assert Join(parts)[1..] == Join(shorter);
      assert p[0] != '/' by { assert p[0] in p; }
      assert [p[0]] + p[1..] == p;
    }
  }

  /** The four message kinds the collector subscribes to. */
  datatype Kind = Capabilities | Sensors | Status | Error

  /** What `on_message` does with one message before any handler runs. */
  datatype Route =
    | Ignored                                   // fewer than three segments: silent return
    | Undecodable                               // the payload is not JSON: logged and dropped
    | Unrouted                                  // third segment names no handler: nothing happens
    | MissingSensorKind                         // a `sensors` topic without a fourth segment: IndexError, logged
    | ToCapabilities(device: string)
    | ToSensors(device: string, sensorKind: string)
    | ToStatus(device: string)
    | ToError(device: string)

  /** The topic segment that names each kind. */
  function NameOf(k: Kind): string {
    match k
    case Capabilities => "capabilities"
    case Sensors => "sensors"
    case Status => "status"
    case Error => "error"
  }

  /** The handler a third segment selects, if any: the kind whose name the segment is. */
  function KindOf(segment: string): (k: Option<Kind>)
    ensures k.Some? ==> NameOf(k.value) == segment
    ensures k.None? ==> forall kind: Kind :: NameOf(kind) != segment
  {
    if segment == "capabilities" then Some(Capabilities)
    else if segment == "sensors" then Some(Sensors)
    else if segment == "status" then Some(Status)
    else if segment == "error" then Some(Error)
    else None
  }

  /**
   * Routing of `on_message`: the segment count is checked first, then the
   * payload is decoded (for every kind, known or not), then the third segment
   * selects the handler. Segments 0 and 4 are never inspected.
   */
  function Classify(topic: string, decoded: bool): (r: Route)
    ensures !decoded ==> r.Ignored? || r.Undecodable?
  {
    var parts := Split(topic);
    if |parts| < 3 then Ignored
    else if !decoded then Undecodable
    else match KindOf(parts[2])
      case None => Unrouted
      case Some(Capabilities) => ToCapabilities(parts[1])
      case Some(Sensors) => if |parts| < 4 then MissingSensorKind else ToSensors(parts[1], parts[3])
      case Some(Status) => ToStatus(parts[1])
      case Some(Error) => ToError(parts[1])
  }

  /** A topic with fewer than three '/'-separated segments reaches no handler, whatever its payload. */
  lemma ShortTopicIgnored(topic: string, decoded: bool)
    requires Count(topic, '/') < 2
    ensures Classify(topic, decoded) == Ignored
  {
    SplitShape(topic);
  }

  /** The segments of a routed topic, written out: `ns/device/kind[/sensor[/rest...]]`. */
  lemma {:induction false} RouteOfJoin(ns: string, device: string, kind: string, tail: seq<string>, decoded: bool)
    requires '/' !in ns && '/' !in device && '/' !in kind
    requires forall i :: 0 <= i < |tail| ==> '/' !in tail[i]
    ensures var r := Classify(Join([ns, device, kind] + tail), decoded);
      && (!decoded ==> r == Undecodable)
      && (decoded && kind == "capabilities" ==> r == ToCapabilities(device))
      && (decoded && kind == "sensors" && |tail| == 0 ==> r == MissingSensorKind)
      && (decoded && kind == "sensors" && |tail| >= 1 ==> r == ToSensors(device, tail[0]))
      && (decoded && kind == "status" ==> r == ToStatus(device))
      && (decoded && kind == "error" ==> r == ToError(device))
      && (decoded && KindOf(kind) == None ==> r == Unrouted)
  {
    var parts := [ns, device, kind] + tail;
    forall i | 0 <= i < |parts| ensures '/' !in parts[i] {
      if i >= 3 { assert parts[i] == tail[i - 3]; }
    }
    SplitJoin(parts);
  }
}

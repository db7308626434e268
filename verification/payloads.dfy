/**
 * Decoded MQTT payloads as the collector's handlers read them, and the two
 * small computations the handlers make on them: the event time and the
 * severity label of an error report.
 */
module Payloads {

  import opened Common

  /** The `timestamp` entry: missing, a number of seconds, or something `fromtimestamp` rejects. */
  datatype Stamp = Absent | Seconds(seconds: int) | NotNumeric

  /** One entry of a reading's `value` object: `{"reading": ...}` (the reading may be null) or a bare non-object. */
  datatype Field = Reading(reading: Option<real>) | NotAnObject

  /** One metric of a wide reading, in the order of the payload's `value` object. */
  datatype Metric = Metric(name: string, field: Field)

  /** Per-sensor metadata of a capabilities announcement (`metadata[kind]`). */
  type SensorMeta = map<string, string>

  /**
   * A decoded JSON object, seen through the keys the handlers read with
   * `.get(...)`. A missing key is `None`, an empty sequence or map. `values`
   * is the `value` object of a reading; `errorType`, `message` and `severity`
   * are the entries of the `value` object of an error report.
   */
  datatype Doc = Doc(
    deviceName: Option<string>,
    firmwareVersion: Option<string>,
    deviceLocation: Option<string>,
    sensors: seq<string>,
    metadata: map<string, SensorMeta>,
    timestamp: Stamp,
    values: seq<Metric>,
    errorType: Option<string>,
    message: Option<string>,
    severity: Option<int>)

  /**
   * `fromtimestamp(payload.get('timestamp', time.time()))` in whole seconds:
   * the arrival time `now` replaces only a MISSING timestamp; a timestamp that
   * is present but not a number makes the conversion raise (None).
   */
  function EventTime(stamp: Stamp, now: int): Option<int>
  {
    match stamp
    case Absent => Some(now)
    case Seconds(s) => Some(s)
    case NotNumeric => None
  }

  const SeverityLabels: seq<string> := ["INFO", "WARNING", "ERROR", "CRITICAL"]

  /** Python list indexing: negative indices count from the end; out of range raises (None). */
  function PyIndex<T>(s: seq<T>, i: int): Option<T>
  {
    if 0 <= i < |s| then Some(s[i])
    else if -|s| <= i < 0 then Some(s[|s| + i])
    else None
  }

  /**
   * `severity_labels[min(payload severity or 0, 3)]`: severities 0, 1, 2 name
   * INFO, WARNING, ERROR, anything from 3 up is CRITICAL and a missing severity
   * counts as 0. A negative severity indexes from the end of the list, and one
   * below -4 raises.
   */
  function SeverityLabel(severity: Option<int>): (tag: Option<string>)
    ensures severity.None? ==> tag == Some("INFO")
    ensures severity == Some(0) ==> tag == Some("INFO")
    ensures severity == Some(1) ==> tag == Some("WARNING")
    ensures severity == Some(2) ==> tag == Some("ERROR")
    ensures severity.Some? && severity.value >= 3 ==> tag == Some("CRITICAL")
    ensures severity.Some? && -4 <= severity.value < 0 ==> tag == Some(SeverityLabels[4 + severity.value])
    ensures tag.None? <==> severity.Some? && severity.value < -4
  {
    var s := severity.GetOr(0);
    PyIndex(SeverityLabels, if s < 3 then s else 3)
  }

  /** The line `handle_error` logs. */
  datatype ErrorLog = ErrorLog(device: string, level: string, errorType: string, message: string)

  /**
   * `handle_error`: reads the error fields with their defaults, converts the
   * timestamp (which may raise) and picks the label (which may raise). None
   * stands for the exception that `on_message` then catches and logs.
   */
  function HandleError(device: string, doc: Doc, now: int): (log: Option<ErrorLog>)
    ensures log.Some? <==> !doc.timestamp.NotNumeric? && SeverityLabel(doc.severity).Some?
    ensures log.Some? ==>
              && log.value.device == device
              && log.value.errorType == doc.errorType.GetOr("unknown")
              && log.value.message == doc.message.GetOr("No message")
              && Some(log.value.level) == SeverityLabel(doc.severity)
  {
    var errorType := doc.errorType.GetOr("unknown");
    var message := doc.message.GetOr("No message");
    match EventTime(doc.timestamp, now)
    case None => None
    case Some(_) =>
      match SeverityLabel(doc.severity)
      case None => None
      case Some(tag) => Some(ErrorLog(device, tag, errorType, message))
  }
}

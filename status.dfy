/**
  GET /devices/<device_id>/status: looks the device up and reports it
  "online" or "offline" from a one-packet ping of its stored IP address.
  The route only reads the collection; the ping is a foreign network call,
  given here as the outcome it would have for each address.
 */
module Status {
  import opened Wrappers
  import opened Text
  import opened ObjectIds
  import opened Store
  import opened Responses

  /** What `pythonping.ping(ip, count=1, timeout=1)` did: replied with its `success()` value, or raised. */
  datatype ProbeOutcome = Replied(success: bool) | Raised

  /** `_ping`: false when pinging is disabled, and any exception counts as false. */
  function Ping(enabled: bool, outcome: ProbeOutcome): (online: bool)
    ensures online <==> enabled && outcome == Replied(true)
  {
    if !enabled then false
    else match outcome
      case Raised => false
      case Replied(success) => success
  }

  function StatusText(online: bool): (s: string)
    ensures s == "online" || s == "offline"
    ensures s == "online" <==> online
  {
    if online then "online" else "offline"
  }

  /**
    The status route. `probe` gives the ping outcome per address, `now` the
    clock reading for `last_checked`; the lookup is outside any try, so a
    database failure (`fault`) ends in the generic 500 response.
   */
  function DeviceStatusGet(docs: Collection, deviceId: string, pingEnabled: bool,
                           probe: string -> ProbeOutcome, now: Timestamp, fault: bool): (r: Response)
    ensures ParseObjectId(deviceId).None? ==> r == Error(InvalidId, InvalidIdMessage)
    ensures ParseObjectId(deviceId).Some? && fault ==> r == InternalError
    ensures ParseObjectId(deviceId).Some? && !fault && ParseObjectId(deviceId).value !in docs ==>
      r == Error(NotFound, NotFoundMessage)
    ensures r.Ok? ==> r.status == 200 && r.body.DeviceStatus? && r.body.report.lastChecked == now
  {
    match ParseObjectId(deviceId)
    case None => Error(InvalidId, InvalidIdMessage)
    case Some(oid) =>
      if fault then InternalError
      else if oid !in docs then Error(NotFound, NotFoundMessage)
      else
        var online := Ping(pingEnabled, probe(docs[oid].ipAddress));
        Ok(200, DeviceStatus(StatusReport(IdString(oid), StatusText(online), now)))
  }

  /**
    For a stored device the report carries the id's canonical text (the
    request's id, lower-cased) and is "online" exactly when pinging is on and
    the ping of the stored address succeeded.
   */
  lemma StatusOfStoredDevice(docs: Collection, deviceId: string, pingEnabled: bool,
                             probe: string -> ProbeOutcome, now: Timestamp)
    requires ParseObjectId(deviceId).Some? && ParseObjectId(deviceId).value in docs
    ensures var r := DeviceStatusGet(docs, deviceId, pingEnabled, probe, now, false);
      && r.Ok? && r.body.DeviceStatus?
      && r.body.report.id == Lower(deviceId)
      && (r.body.report.status == "online" || r.body.report.status == "offline")
      && (r.body.report.status == "online" <==>
            pingEnabled && probe(docs[ParseObjectId(deviceId).value].ipAddress) == Replied(true))
  {
    IdStringOfParse(deviceId);
  }

  /** With pinging disabled every stored device is reported offline, whatever the network would say. */
  lemma DisabledMeansOffline(docs: Collection, deviceId: string, probe: string -> ProbeOutcome, now: Timestamp)
    requires ParseObjectId(deviceId).Some? && ParseObjectId(deviceId).value in docs
    ensures DeviceStatusGet(docs, deviceId, false, probe, now, false).body.report.status == "offline"
  {
  }
}

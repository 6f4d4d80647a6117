/**
 * The main-process message handlers: each live-timing topic is forwarded to
 * the renderer on its own IPC channel. The two compressed topics are first
 * decoded (base64, then gzip or, failing that, raw DEFLATE, then JSON); the
 * decoders are parameters of the model.
 */
module MessageHandlers {
  import opened Wrappers
  import opened Json

  /** How a topic is handled: forwarded as it is, or decoded first. */
  datatype Handler = Direct(channel: string) | Compressed(channel: string)

  /** `processMessage`'s switch: the handler of each of the sixteen topics;
    * any other topic has none. */
  function Route(dataType: string): Option<Handler> {
    match dataType
    case "Heartbeat" => Some(Direct("f1-heartbeat-update"))
    case "CarData.z" => Some(Compressed("f1-cardata-update"))
    case "Position.z" => Some(Compressed("f1-position-update"))
    case "ExtrapolatedClock" => Some(Direct("f1-extrapolatedclock-update"))
    case "TopThree" => Some(Direct("f1-topthree-update"))
    case "RcmSeries" => Some(Direct("f1-rcmseries-update"))
    case "TimingStats" => Some(Direct("f1-timingstats-update"))
    case "TimingAppData" => Some(Direct("f1-timingappdata-update"))
    case "WeatherData" => Some(Direct("f1-weatherdata-update"))
    case "TrackStatus" => Some(Direct("f1-trackstatus-update"))
    case "DriverList" => Some(Direct("f1-driverlist-update"))
    case "RaceControlMessages" => Some(Direct("f1-racecontrolmessages-update"))
    case "SessionInfo" => Some(Direct("f1-sessioninfo-update"))
    case "SessionData" => Some(Direct("f1-sessiondata-update"))
    case "LapCount" => Some(Direct("f1-lapcount-update"))
    case "TimingData" => Some(Direct("f1-timingdata-update"))
    case _ => None
  }

  /** The topics the switch knows. */
  const Topics: set<string> := {
    "Heartbeat", "CarData.z", "Position.z", "ExtrapolatedClock", "TopThree", "RcmSeries",
    "TimingStats", "TimingAppData", "WeatherData", "TrackStatus", "DriverList",
    "RaceControlMessages", "SessionInfo", "SessionData", "LapCount", "TimingData"
  }

  /** Exactly the sixteen known topics are routed, and distinct topics go to distinct channels. */
  lemma RouteExactlyKnown(dataType: string)
    ensures Route(dataType).Some? <==> dataType in Topics
  {
  }

  lemma RouteInjective(t1: string, t2: string)
    requires Route(t1).Some? && Route(t2).Some? && t1 != t2
    ensures Route(t1).value.channel != Route(t2).value.channel
  {
    ChannelNamesTopic(t1);
    ChannelNamesTopic(t2);
  }

  /** The topic whose updates a channel carries. */
  function ChannelTopic(channel: string): Option<string> {
    match channel
    case "f1-heartbeat-update" => Some("Heartbeat")
    case "f1-cardata-update" => Some("CarData.z")
    case "f1-position-update" => Some("Position.z")
    case "f1-extrapolatedclock-update" => Some("ExtrapolatedClock")
    case "f1-topthree-update" => Some("TopThree")
    case "f1-rcmseries-update" => Some("RcmSeries")
    case "f1-timingstats-update" => Some("TimingStats")
    case "f1-timingappdata-update" => Some("TimingAppData")
    case "f1-weatherdata-update" => Some("WeatherData")
    case "f1-trackstatus-update" => Some("TrackStatus")
    case "f1-driverlist-update" => Some("DriverList")
    case "f1-racecontrolmessages-update" => Some("RaceControlMessages")
    case "f1-sessioninfo-update" => Some("SessionInfo")
    case "f1-sessiondata-update" => Some("SessionData")
    case "f1-lapcount-update" => Some("LapCount")
    case "f1-timingdata-update" => Some("TimingData")
    case _ => None
  }

  /** A routed topic's channel names that topic back. */
  lemma ChannelNamesTopic(t: string)
    requires Route(t).Some?
    ensures ChannelTopic(Route(t).value.channel) == Some(t)
  {
  }

  /** Only the two `.z` topics are decoded. */
  lemma CompressedTopics(dataType: string)
    ensures Route(dataType).Some? && Route(dataType).value.Compressed? <==> dataType == "CarData.z" || dataType == "Position.z"
  {
  }

  /** The foreign decoders, each `None` where it throws: `Buffer.from(data,
    * 'base64')`, `gunzipSync` followed by `JSON.parse`, and `inflateRaw`
    * followed by `JSON.parse`. */
  datatype Decoders = Decoders(
    base64: Json -> Option<seq<bv8>>,
    gunzipParse: seq<bv8> -> Option<Json>,
    inflateRawParse: seq<bv8> -> Option<Json>)

  /** One IPC message to the renderer. */
  datatype IpcMessage = IpcMessage(channel: string, payload: Json)

  /** The renderer window; `sent` is what `webContents.send` has sent, in order. */
  class Window {
    var sent: seq<IpcMessage>

    constructor()
      ensures sent == []
    {
      sent := [];
    }

    method Send(channel: string, payload: Json)
      modifies this
      ensures sent == old(sent) + [IpcMessage(channel, payload)]
    {
      sent := sent + [IpcMessage(channel, payload)];
    }
  }

  /** The value a compressed payload decodes to: gzip first, raw DEFLATE when
    * gzip or its parse fails, nothing when the base64 step or both fail. */
  function Decoded(dec: Decoders, data: Json): (r: Option<Json>)
    ensures dec.base64(data).None? ==> r.None?
    ensures dec.base64(data).Some? && dec.gunzipParse(dec.base64(data).value).Some?
      ==> r == dec.gunzipParse(dec.base64(data).value)
    ensures dec.base64(data).Some? && dec.gunzipParse(dec.base64(data).value).None?
      ==> r == dec.inflateRawParse(dec.base64(data).value)
  {
    match dec.base64(data)
    case None => None
    case Some(buf) =>
      match dec.gunzipParse(buf)
      case Some(v) => Some(v)
      case None => dec.inflateRawParse(buf)
  }

  /** `handleCarData` / `handlePosition`: decodes, then sends on `channel`;
    * a failure of both decoders sends nothing and is swallowed. */
  method HandleCompressed(window: Window, dec: Decoders, channel: string, data: Json)
    modifies window
    ensures Decoded(dec, data).Some? ==> window.sent == old(window.sent) + [IpcMessage(channel, Decoded(dec, data).value)]
    ensures Decoded(dec, data).None? ==> window.sent == old(window.sent)
  {
    var base64Buf := dec.base64(data);
    if base64Buf.None? {
      return;
    }
    var decoded: Option<Json>;
    var viaGzip := dec.gunzipParse(base64Buf.value);
    if viaGzip.Some? {
      decoded := viaGzip;
    } else {
      decoded := dec.inflateRawParse(base64Buf.value);
    }
    if decoded.Some? {
      window.Send(channel, decoded.value);
    }
  }

  /** What `processMessage(dataType, dataPayload)` sends. */
  function Sends(dec: Decoders, dataType: string, dataPayload: Json): (r: seq<IpcMessage>)
    ensures |r| <= 1
    ensures Route(dataType).None? ==> r == []
    ensures Route(dataType).Some? && Route(dataType).value.Direct? ==> r == [IpcMessage(Route(dataType).value.channel, dataPayload)]
  {
    match Route(dataType)
    case None => []
    case Some(Direct(channel)) => [IpcMessage(channel, dataPayload)]
    case Some(Compressed(channel)) =>
      match Decoded(dec, dataPayload)
      case Some(v) => [IpcMessage(channel, v)]
      case None => []
  }

  /** `processMessage`: dispatches to the topic's handler; an unknown topic sends nothing. */
  method ProcessMessage(window: Window, dec: Decoders, dataType: string, dataPayload: Json)
    modifies window
    ensures window.sent == old(window.sent) + Sends(dec, dataType, dataPayload)
  {
    var handler := Route(dataType);
    match handler
    case None =>
    case Some(Direct(channel)) =>
      window.Send(channel, dataPayload);
    case Some(Compressed(channel)) =>
      HandleCompressed(window, dec, channel, dataPayload);
  }

  /** Everything sent for a topic goes on that topic's own channel. */
  lemma SendsOnOwnChannel(dec: Decoders, dataType: string, dataPayload: Json)
    ensures forall m :: m in Sends(dec, dataType, dataPayload) ==> Route(dataType).Some? && m.channel == Route(dataType).value.channel
  {
  }

  /** The topic and payload a parsed debug message routes, when both are truthy. */
  function DebugRoute(parsed: Option<Json>): (r: Option<(Json, Json)>)
    ensures r.Some? <==> (parsed.Some? && parsed.value.JObj?
                          && FieldTruthy(parsed.value.fields, "type") && FieldTruthy(parsed.value.fields, "payload"))
  {
    match parsed
    case Some(JObj(fields)) =>
      if FieldTruthy(fields, "type") && FieldTruthy(fields, "payload") then Some((fields["type"], fields["payload"])) else None
    case _ => None
  }

  /** The sends of a routed debug message: a topic that is not a string matches no case. */
  function DebugSends(dec: Decoders, routed: Option<(Json, Json)>): seq<IpcMessage> {
    match routed
    case Some((JStr(dataType), dataPayload)) => Sends(dec, dataType, dataPayload)
    case _ => []
  }

  /** `processDebugMessage`: forwards the raw text first, then routes the
    * parsed message; text that does not parse routes nothing. `parse` is
    * `JSON.parse`, `None` where it throws. */
  method ProcessDebugMessage(window: Window, dec: Decoders, parse: string -> Option<Json>, data: string)
    modifies window
    ensures |window.sent| >= |old(window.sent)| + 1
    ensures window.sent[|old(window.sent)|] == IpcMessage("debug-websocket-message", JStr(data))
    ensures window.sent == old(window.sent) + [IpcMessage("debug-websocket-message", JStr(data))] + DebugSends(dec, DebugRoute(parse(data)))
  {
    window.Send("debug-websocket-message", JStr(data));
    var parsedData := parse(data);
    var routed := DebugRoute(parsedData);
    if routed.Some? && routed.value.0.JStr? {
      ProcessMessage(window, dec, routed.value.0.s, routed.value.1);
    }
  }

  /** Text that does not parse as JSON is forwarded raw and nothing else is sent. */
  lemma DebugUnparsable(dec: Decoders, parse: string -> Option<Json>, data: string)
    requires parse(data).None?
    ensures DebugSends(dec, DebugRoute(parse(data))) == []
  {
  }
}

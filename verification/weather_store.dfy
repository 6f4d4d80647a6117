/**
 * The weather store: the latest reading of each weather field, plus a
 * history of timestamped readings that keeps only the most recent 100.
 */
module WeatherStore {
  import opened Wrappers

  /** A weather reading from the feed; a field the message leaves out is `None`. */
  datatype WeatherData = WeatherData(
    AirTemp: Option<string>,
    Humidity: Option<string>,
    Pressure: Option<string>,
    Rainfall: Option<string>,
    TrackTemp: Option<string>,
    WindDirection: Option<string>,
    WindSpeed: Option<string>,
    kf: Option<bool>)

  /** The string fields a history can be charted by. */
  datatype WeatherField = AirTemp | Humidity | Pressure | Rainfall | TrackTemp | WindDirection | WindSpeed

  function FieldOf(d: WeatherData, field: WeatherField): Option<string> {
    match field
    case AirTemp => d.AirTemp
    case Humidity => d.Humidity
    case Pressure => d.Pressure
    case Rainfall => d.Rainfall
    case TrackTemp => d.TrackTemp
    case WindDirection => d.WindDirection
    case WindSpeed => d.WindSpeed
  }

  /** A reading stamped with the time it was stored. */
  datatype HistoryEntry = HistoryEntry(data: WeatherData, timestamp: int)

  /** One point of a chart. */
  datatype FieldPoint = FieldPoint(timestamp: int, value: string)

  /** The most readings the history keeps. */
  const HISTORY_LIMIT := 100

  /** `s.slice(-n)`: the last `n` elements, or all of them. */
  function LastN<T>(s: seq<T>, n: nat): (r: seq<T>)
    requires n > 0
    ensures |r| <= n
    ensures |r| == if |s| <= n then |s| else n
    ensures r == s[|s| - |r|..]
  {
    if |s| <= n then s else s[|s| - n..]
  }

  /** The history after storing one more reading. */
  function Appended(history: seq<HistoryEntry>, entry: HistoryEntry): seq<HistoryEntry> {
    LastN(history + [entry], HISTORY_LIMIT)
  }

  /** The new reading is last; below the cap the history grows by one and
    * keeps every earlier reading; at the cap exactly the oldest is dropped. */
  lemma AppendedShape(history: seq<HistoryEntry>, entry: HistoryEntry)
    requires |history| <= HISTORY_LIMIT
    ensures var r := Appended(history, entry);
      && |r| <= HISTORY_LIMIT
      && r[|r| - 1] == entry
      && (|history| < HISTORY_LIMIT ==> r == history + [entry])
      && (|history| == HISTORY_LIMIT ==> r == history[1..] + [entry])
  {
  }

  /** Whatever the history held, the appended one is at most 100 long and
    * ends with the readings it kept, in their order. */
  lemma AppendedKeepsOrder(history: seq<HistoryEntry>, entry: HistoryEntry)
    ensures var r := Appended(history, entry);
      && |r| <= HISTORY_LIMIT
      && r[..|r| - 1] == history[|history| - (|r| - 1)..]
  {
  }

  /** `entry[field] !== undefined && entry[field] !== '0'`. */
  predicate Charted(entry: HistoryEntry, field: WeatherField) {
    FieldOf(entry.data, field).Some? && FieldOf(entry.data, field).value != "0"
  }

  /** `getHistoryForField`'s filter and map. */
  function FieldHistory(history: seq<HistoryEntry>, field: WeatherField): seq<FieldPoint> {
    if |history| == 0 then []
    else
      var last := history[|history| - 1];
      FieldHistory(history[..|history| - 1], field)
        + if Charted(last, field) then [FieldPoint(last.timestamp, FieldOf(last.data, field).value)] else []
  }

  /** The chart of a concatenation is the concatenation of the charts: with
    * the definition on one entry this makes the chart exactly the readings
    * whose field is set and not "0", in order, with their timestamps. */
  lemma {:induction false} FieldHistoryAppend(a: seq<HistoryEntry>, b: seq<HistoryEntry>, field: WeatherField)
    ensures FieldHistory(a + b, field) == FieldHistory(a, field) + FieldHistory(b, field)
  {
    if |b| == 0 {
      assert a + b == a;
    } else {
      var init := b[..|b| - 1];
      assert (a + b)[..|a + b| - 1] == a + init;
      FieldHistoryAppend(a, init, field);
    }
  }

  /** Every charted point comes from a reading in the history with a set,
    * non-"0" field, and the chart is never longer than the history. */
  lemma {:induction false} FieldHistorySound(history: seq<HistoryEntry>, field: WeatherField)
    ensures |FieldHistory(history, field)| <= |history|
    ensures forall pt :: pt in FieldHistory(history, field) ==>
      exists e :: e in history && Charted(e, field) && pt == FieldPoint(e.timestamp, FieldOf(e.data, field).value)
  {
    if |history| > 0 {
      var init := history[..|history| - 1];
      FieldHistorySound(init, field);
      assert forall e :: e in init ==> e in history;
    }
  }

  /** Every reading whose field is set and not "0" is charted. */
  lemma {:induction false} FieldHistoryComplete(history: seq<HistoryEntry>, field: WeatherField)
    ensures forall e :: e in history && Charted(e, field) ==>
      FieldPoint(e.timestamp, FieldOf(e.data, field).value) in FieldHistory(history, field)
  {
    if |history| > 0 {
      var init := history[..|history| - 1];
      FieldHistoryComplete(init, field);
      assert forall e :: e in history ==> e in init || e == history[|history| - 1];
    }
  }

  class WeatherStore {
    var AirTemp: Option<string>
    var Humidity: Option<string>
    var Pressure: Option<string>
    var Rainfall: Option<string>
    var TrackTemp: Option<string>
    var WindDirection: Option<string>
    var WindSpeed: Option<string>
    var kf: Option<bool>
    var history: seq<HistoryEntry>

    /** The history never holds more than 100 readings. */
    ghost predicate Valid()
      reads this
    {
      |history| <= HISTORY_LIMIT
    }

    /** The current reading, as the store's fields hold it. */
    function Current(): WeatherData
      reads this
    {
      WeatherData(AirTemp, Humidity, Pressure, Rainfall, TrackTemp, WindDirection, WindSpeed, kf)
    }

    /** Every field "0", `_kf` false, no history. */
    constructor()
      ensures Valid()
      ensures Current() == WeatherData(Some("0"), Some("0"), Some("0"), Some("0"), Some("0"), Some("0"), Some("0"), Some(false))
      ensures history == []
    {
      AirTemp, Humidity, Pressure, Rainfall := Some("0"), Some("0"), Some("0"), Some("0");
      TrackTemp, WindDirection, WindSpeed := Some("0"), Some("0"), Some("0");
      kf := Some(false);
      history := [];
    }

    /** `updateWeather` with `Date.now()` given as `timestamp`: the fields take
      * the reading's values and the stamped reading joins the capped history. */
    method UpdateWeather(weatherData: WeatherData, timestamp: int)
      modifies this
      ensures Valid()
      ensures Current() == weatherData
      ensures history == Appended(old(history), HistoryEntry(weatherData, timestamp))
    {
      var newEntry := HistoryEntry(weatherData, timestamp);
      AirTemp, Humidity, Pressure, Rainfall := weatherData.AirTemp, weatherData.Humidity, weatherData.Pressure, weatherData.Rainfall;
      TrackTemp, WindDirection, WindSpeed := weatherData.TrackTemp, weatherData.WindDirection, weatherData.WindSpeed;
      kf := weatherData.kf;
      history := LastN(history + [newEntry], HISTORY_LIMIT);
    }

    /** `getHistoryForField`: a point for each stored reading whose field is
      * set and not "0", and nothing else; so a chart has at most 100 points. */
    function GetHistoryForField(field: WeatherField): (r: seq<FieldPoint>)
      requires Valid()
      reads this
      ensures |r| <= |history| <= HISTORY_LIMIT
      ensures forall pt :: pt in r ==>
        exists e :: e in history && Charted(e, field) && pt == FieldPoint(e.timestamp, FieldOf(e.data, field).value)
      ensures forall e :: e in history && Charted(e, field) ==> FieldPoint(e.timestamp, FieldOf(e.data, field).value) in r
    {
      FieldHistorySound(history, field);
      FieldHistoryComplete(history, field);
      FieldHistory(history, field)
    }
  }
}

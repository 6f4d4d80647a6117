/**
 * Track geometry for the map view: which session to take the outline from,
 * which driver's final lap to trace (trying P1 to P10), and how the traced
 * samples are cut into three sectors. The OpenF1 lookups are parameters:
 * each either returns a value or throws.
 */
module TrackMap {
  import opened Wrappers

  datatype Session = Session(session_key: int, session_type: string)
  datatype SessionResult = SessionResult(driver_number: int, number_of_laps: int)
  /** `date_start` as epoch milliseconds, `None` when it is not a valid date;
    * `lap_duration` in seconds, `None` when it is `null`. */
  datatype LapData = LapData(date_start: Option<int>, lap_duration: Option<real>)
  datatype LocationData = LocationData(x: int, y: int, z: int, date: string)
  datatype TrackPosition = TrackPosition(x: int, y: int, z: int, timestamp: string)
  datatype SectorBoundary = SectorBoundary(sector: int, start: TrackPosition, end: TrackPosition)
  datatype TrackMapData = TrackMapData(
    circuit_key: int,
    positions: seq<TrackPosition>,
    sector_boundaries: seq<SectorBoundary>,
    start_line: TrackPosition)

  /** Why `getTrackMap` throws: no session in either year, or a session lookup threw. */
  datatype TrackMapError = NoSessions(circuitKey: int, year: int) | LookupFailed

  /** The number of finishing positions tried. */
  const MAX_ATTEMPTS := 10

  /** Added on each side of the lap window, in seconds. */
  const BUFFER_SECONDS := 0

  // ---------------------------------------------------------------------
  // Sector boundaries
  // ---------------------------------------------------------------------

  /** `positions[k] || positions[0]`: an index outside the list falls back to the first sample. */
  function SampleOr0(positions: seq<TrackPosition>, k: int): TrackPosition
    requires |positions| > 0
  {
    if 0 <= k < |positions| then positions[k] else positions[0]
  }

  /** `calculateSectorBoundaries`: no boundaries for no samples, otherwise three
    * sectors cut at floor(n/3) and floor(2n/3). */
  function CalculateSectorBoundaries(positions: seq<TrackPosition>): (r: seq<SectorBoundary>)
    ensures |positions| == 0 <==> r == []
    ensures |positions| > 0 ==> |r| == 3 && r[0].sector == 1 && r[1].sector == 2 && r[2].sector == 3
  {
    if |positions| == 0 then []
    else
      var totalPositions := |positions|;
      var sector1End := totalPositions / 3;
      var sector2End := (totalPositions * 2) / 3;
      [ SectorBoundary(1, positions[0], SampleOr0(positions, sector1End - 1)),
        SectorBoundary(2, SampleOr0(positions, sector1End), SampleOr0(positions, sector2End - 1)),
        SectorBoundary(3, SampleOr0(positions, sector2End), positions[totalPositions - 1]) ]
  }

  /** The cut points floor(n/3) <= floor(2n/3) split n samples into three
    * groups whose sizes are floor(n/3) or floor(n/3) + 1. */
  lemma ThirdsBalanced(n: nat)
    ensures var c1, c2 := n / 3, (n * 2) / 3;
      && 0 <= c1 <= c2 <= n
      && n / 3 <= c1 - 0 <= n / 3 + 1
      && n / 3 <= c2 - c1 <= n / 3 + 1
      && n / 3 <= n - c2 <= n / 3 + 1
  {
    var q, r := n / 3, n % 3;
    assert n == 3 * q + r;
    if r == 2 {
      assert n * 2 == 3 * (2 * q + 1) + 1;
    } else {
      assert n * 2 == 3 * (2 * q) + 2 * r;
    }
  }

  /** Sector 1 starts at the first sample and sector 3 ends at the last; sector
    * 2 starts at sample floor(n/3) and sector 3 at sample floor(2n/3); the
    * ends of sectors 1 and 2 are the samples before the next cut, or the
    * first sample when that index does not exist. */
  lemma SectorBoundariesAt(positions: seq<TrackPosition>)
    requires |positions| > 0
    ensures var n, r := |positions|, CalculateSectorBoundaries(positions);
      && r[0].start == positions[0]
      && r[2].end == positions[n - 1]
      && r[1].start == positions[n / 3]
      && r[2].start == positions[(n * 2) / 3]
      && r[0].end == (if n / 3 >= 1 then positions[n / 3 - 1] else positions[0])
      && r[1].end == (if (n * 2) / 3 >= 1 then positions[(n * 2) / 3 - 1] else positions[0])
  {
    ThirdsBalanced(|positions|);
  }

  /** Nine samples split into 0–2, 3–5 and 6–8. */
  lemma NineSamples(positions: seq<TrackPosition>)
    requires |positions| == 9
    ensures CalculateSectorBoundaries(positions) ==
      [ SectorBoundary(1, positions[0], positions[2]),
        SectorBoundary(2, positions[3], positions[5]),
        SectorBoundary(3, positions[6], positions[8]) ]
  {
  }

  /** A single sample is every boundary. */
  lemma OneSample(positions: seq<TrackPosition>)
    requires |positions| == 1
    ensures forall b :: b in CalculateSectorBoundaries(positions) ==> b.start == positions[0] && b.end == positions[0]
  {
  }

  // ---------------------------------------------------------------------
  // Session choice
  // ---------------------------------------------------------------------

  /** `sessions.find(s => s.session_type === 'Race')`, as an index. */
  function FindRace(sessions: seq<Session>): (r: Option<nat>)
    ensures r.Some? ==> (r.value < |sessions| && sessions[r.value].session_type == "Race"
      && forall i :: 0 <= i < r.value ==> sessions[i].session_type != "Race")
    ensures r.None? ==> forall i :: 0 <= i < |sessions| ==> sessions[i].session_type != "Race"
  {
    if |sessions| == 0 then None
    else if sessions[0].session_type == "Race" then Some(0)
    else
      match FindRace(sessions[1..])
      case None => None
      case Some(i) => Some(i + 1)
  }

  /** The key of the session `getTrackMap` traces: the latest session of the
    * current year; failing that, last year's first race, or last year's
    * first session when it had no race; none when both years are empty. */
  function TargetKey(currentYearSessions: seq<Session>, lastYearSessions: seq<Session>): (r: Option<int>)
    ensures r.None? <==> |currentYearSessions| == 0 && |lastYearSessions| == 0
    ensures |currentYearSessions| > 0 ==> r == Some(currentYearSessions[|currentYearSessions| - 1].session_key)
    ensures |currentYearSessions| == 0 && |lastYearSessions| > 0 ==>
      if exists i :: 0 <= i < |lastYearSessions| && lastYearSessions[i].session_type == "Race"
      then exists i :: 0 <= i < |lastYearSessions| && lastYearSessions[i].session_type == "Race"
             && r == Some(lastYearSessions[i].session_key)
             && forall j :: 0 <= j < i ==> lastYearSessions[j].session_type != "Race"
      else r == Some(lastYearSessions[0].session_key)
  {
    if |currentYearSessions| > 0 then Some(currentYearSessions[|currentYearSessions| - 1].session_key)
    else if |lastYearSessions| == 0 then None
    else
      match FindRace(lastYearSessions)
      case None => Some(lastYearSessions[0].session_key)
      case Some(i) => Some(lastYearSessions[i].session_key)
  }

  /** The session `getTrackMap` traces, given the sessions the lookups return
    * for the current year and for the year before. */
  method TargetSession(circuitKey: int, currentYear: int, currentYearSessions: seq<Session>,
                       lastYearSessions: seq<Session>) returns (r: Result<int, TrackMapError>)
    ensures |currentYearSessions| > 0 ==>
      r == Success(currentYearSessions[|currentYearSessions| - 1].session_key)
    ensures |currentYearSessions| == 0 && |lastYearSessions| == 0 ==> r.Failure?
    ensures |currentYearSessions| == 0 && |lastYearSessions| > 0 ==> (r.Success? &&
      if exists i :: 0 <= i < |lastYearSessions| && lastYearSessions[i].session_type == "Race"
       then exists i :: 0 <= i < |lastYearSessions| && lastYearSessions[i].session_type == "Race"
              && r.value == lastYearSessions[i].session_key
              && forall j :: 0 <= j < i ==> lastYearSessions[j].session_type != "Race"
       else r.value == lastYearSessions[0].session_key)
    ensures r.Success? <==> TargetKey(currentYearSessions, lastYearSessions).Some?
    ensures r.Success? ==> r.value == TargetKey(currentYearSessions, lastYearSessions).value
  {
    var targetSessionKey: int;
    if |currentYearSessions| == 0 {
      if |lastYearSessions| == 0 {
        return Failure(NoSessions(circuitKey, currentYear));
      }
      var lastYearRace := FindRace(lastYearSessions);
      if lastYearRace.None? {
        targetSessionKey := lastYearSessions[0].session_key;
      } else {
        targetSessionKey := lastYearSessions[lastYearRace.value].session_key;
      }
    } else {
      targetSessionKey := currentYearSessions[|currentYearSessions| - 1].session_key;
    }
    return Success(targetSessionKey);
  }

  // ---------------------------------------------------------------------
  // Tracing the fastest lap
  // ---------------------------------------------------------------------

  /** `new Date(t)` for a time value in milliseconds: the fraction is truncated toward zero. */
  function TruncateMs(t: real): int {
    if t >= 0.0 then t.Floor else -((-t).Floor)
  }

  /** The end of the lap window: start plus the lap's duration in milliseconds,
    * plus the buffer; `null * 1000` is 0. */
  function LapWindowEnd(start: int, lapDuration: Option<real>): int {
    TruncateMs(start as real + lapDuration.GetOr(0.0) * 1000.0) + BUFFER_SECONDS * 1000
  }

  /** One location record as a track sample: coordinates kept, `date` as the timestamp. */
  function AsTrackPosition(pos: LocationData): TrackPosition {
    TrackPosition(pos.x, pos.y, pos.z, pos.date)
  }

  /** The traced samples of a location result, in order. */
  function AsTrackPositions(locations: seq<LocationData>): seq<TrackPosition> {
    seq(|locations|, i requires 0 <= i < |locations| => AsTrackPosition(locations[i]))
  }

  /** The lookups `getTrackMap` and `getFastestLapOfSession` make, each of
    * which may throw: the sessions at a circuit in a year, the results at a
    * position, the laps of a driver, the locations of a driver in a time window
    * (start and end in milliseconds). A `null` results or laps answer reads as
    * an empty one; a `null` sessions or locations answer throws at `.length`,
    * so it is `Threw`. */
  datatype Api = Api(
    sessions: (int, int) -> Outcome<seq<Session>>,
    results: (int, int) -> Outcome<seq<SessionResult>>,
    laps: (int, int, int) -> Outcome<seq<LapData>>,
    location: (int, int, int, int) -> Outcome<seq<LocationData>>)

  /** What the attempt at finishing position `position` yields: the traced
    * samples when the location lookup returns, nothing when the attempt is
    * skipped (empty results, empty laps, an invalid lap date or any lookup throwing). */
  function AttemptAt(api: Api, sessionKey: int, position: int): Option<seq<TrackPosition>> {
    match api.results(sessionKey, position)
    case Threw => None
    case Returned(driverResult) =>
      if |driverResult| == 0 then None
      else
        var driver := driverResult[0];
        match api.laps(sessionKey, driver.driver_number, driver.number_of_laps)
        case Threw => None
        case Returned(lapData) =>
          if |lapData| == 0 || lapData[0].date_start.None? then None
          else
            var lapStartTime := lapData[0].date_start.value;
            var lapEndTime := LapWindowEnd(lapStartTime, lapData[0].lap_duration);
            match api.location(sessionKey, driver.driver_number, lapStartTime - BUFFER_SECONDS * 1000, lapEndTime)
            case Threw => None
            case Returned(locationData) => Some(AsTrackPositions(locationData))
  }

  /** The samples of the first attempt from `position` to P10 that yields
    * some, or none when every one of them is skipped. */
  function FastestLapFrom(api: Api, sessionKey: int, position: int): seq<TrackPosition>
    decreases MAX_ATTEMPTS + 1 - position
  {
    if position > MAX_ATTEMPTS then []
    else
      match AttemptAt(api, sessionKey, position)
      case Some(samples) => samples
      case None => FastestLapFrom(api, sessionKey, position + 1)
  }

  /** The lap `getFastestLapOfSession` traces: the first of P1 to P10 whose
    * attempt yields samples, or none. */
  function FastestLap(api: Api, sessionKey: int): seq<TrackPosition> {
    FastestLapFrom(api, sessionKey, 1)
  }

  /** `FastestLap` is the attempt of the first position that yields samples,
    * or empty exactly when all ten attempts are skipped. */
  lemma {:induction false} FastestLapFromFirst(api: Api, sessionKey: int, position: int)
    requires 1 <= position
    ensures (exists p :: position <= p <= MAX_ATTEMPTS && AttemptAt(api, sessionKey, p).Some?
               && FastestLapFrom(api, sessionKey, position) == AttemptAt(api, sessionKey, p).value
               && forall q :: position <= q < p ==> AttemptAt(api, sessionKey, q).None?)
         || ((forall p :: position <= p <= MAX_ATTEMPTS ==> AttemptAt(api, sessionKey, p).None?)
               && FastestLapFrom(api, sessionKey, position) == [])
    decreases MAX_ATTEMPTS + 1 - position
  {
    if position <= MAX_ATTEMPTS && AttemptAt(api, sessionKey, position).None? {
      FastestLapFromFirst(api, sessionKey, position + 1);
    }
  }

  /** The location lookup is `getLocation`, which throws rather than
    * return an empty array. */
  ghost predicate LocationNeverEmpty(api: Api) {
    forall sessionKey, driverNumber, dateStart, dateEnd ::
      api.location(sessionKey, driverNumber, dateStart, dateEnd) != Returned([])
  }

  /** With such a location lookup, an attempt that is not skipped yields samples. */
  lemma AttemptNonEmpty(api: Api, sessionKey: int, position: int)
    requires LocationNeverEmpty(api)
    ensures AttemptAt(api, sessionKey, position).Some? ==> |AttemptAt(api, sessionKey, position).value| > 0
  {
  }

  /** With such a location lookup, the traced lap is empty exactly when all
    * ten attempts are skipped. */
  lemma EmptyIffAllSkipped(api: Api, sessionKey: int)
    requires LocationNeverEmpty(api)
    ensures FastestLap(api, sessionKey) == [] <==>
      forall p :: 1 <= p <= MAX_ATTEMPTS ==> AttemptAt(api, sessionKey, p).None?
  {
    FastestLapFromFirst(api, sessionKey, 1);
    if exists p :: 1 <= p <= MAX_ATTEMPTS && AttemptAt(api, sessionKey, p).Some?
                   && FastestLap(api, sessionKey) == AttemptAt(api, sessionKey, p).value {
      var p :| 1 <= p <= MAX_ATTEMPTS && AttemptAt(api, sessionKey, p).Some?
               && FastestLap(api, sessionKey) == AttemptAt(api, sessionKey, p).value;
      AttemptNonEmpty(api, sessionKey, p);
    }
  }

  /** `for (const pos of locationData) lapPosition.push({...})`. */
  method ConvertLocations(locationData: seq<LocationData>) returns (lapPosition: seq<TrackPosition>)
    ensures |lapPosition| == |locationData|
    ensures forall i :: 0 <= i < |locationData| ==>
      lapPosition[i] == TrackPosition(locationData[i].x, locationData[i].y, locationData[i].z, locationData[i].date)
  {
    lapPosition := [];
    for i := 0 to |locationData|
      invariant |lapPosition| == i
      invariant forall j :: 0 <= j < i ==> lapPosition[j] == AsTrackPosition(locationData[j])
    {
      var pos := locationData[i];
      lapPosition := lapPosition + [TrackPosition(pos.x, pos.y, pos.z, pos.date)];
    }
  }

  /** `getFastestLapOfSession`: tries P1 to P10 in order; the first attempt
    * whose location lookup returns ends the search with its samples, and when
    * every attempt is skipped the result is empty. */
  method GetFastestLapOfSession(api: Api, sessionKey: int) returns (r: seq<TrackPosition>)
    ensures (exists p :: 1 <= p <= MAX_ATTEMPTS && AttemptAt(api, sessionKey, p).Some?
               && r == AttemptAt(api, sessionKey, p).value
               && forall q :: 1 <= q < p ==> AttemptAt(api, sessionKey, q).None?)
         || ((forall p :: 1 <= p <= MAX_ATTEMPTS ==> AttemptAt(api, sessionKey, p).None?) && r == [])
    ensures r == FastestLap(api, sessionKey)
  {
    FastestLapFromFirst(api, sessionKey, 1);
    var position := 1;
    while position <= MAX_ATTEMPTS
      invariant 1 <= position <= MAX_ATTEMPTS + 1
      invariant forall q :: 1 <= q < position ==> AttemptAt(api, sessionKey, q).None?
      invariant FastestLap(api, sessionKey) == FastestLapFrom(api, sessionKey, position)
    {
      var results := api.results(sessionKey, position);
      if results.Threw? || |results.value| == 0 {
        position := position + 1;
        continue;
      }
      var driver := results.value[0];
      var laps := api.laps(sessionKey, driver.driver_number, driver.number_of_laps);
      if laps.Threw? || |laps.value| == 0 || laps.value[0].date_start.None? {
        position := position + 1;
        continue;
      }
      var lapStartTime := laps.value[0].date_start.value;
      var lapEndTime := LapWindowEnd(lapStartTime, laps.value[0].lap_duration);
      var locations := api.location(sessionKey, driver.driver_number, lapStartTime - BUFFER_SECONDS * 1000, lapEndTime);
      if locations.Threw? {
        position := position + 1;
        continue;
      }
      r := ConvertLocations(locations.value);
      assert r == AsTrackPositions(locations.value);
      assert AttemptAt(api, sessionKey, position) == Some(r);
      return;
    }
    return [];
  }

  /** With no buffer the window runs from the lap's start for exactly its
    * duration, in whole milliseconds (for a lap that starts after the epoch);
    * a `null` duration gives the empty window at the start. */
  lemma LapWindowSpan(start: int, lapDuration: Option<real>)
    requires start >= 0
    requires lapDuration.Some? ==> lapDuration.value >= 0.0
    ensures lapDuration.Some? ==> LapWindowEnd(start, lapDuration) == start + (lapDuration.value * 1000.0).Floor
    ensures lapDuration.None? ==> LapWindowEnd(start, lapDuration) == start
    ensures start - BUFFER_SECONDS * 1000 == start <= LapWindowEnd(start, lapDuration)
  {
    var x := lapDuration.GetOr(0.0) * 1000.0;
    assert x.Floor as real <= x < x.Floor as real + 1.0;
    assert (start as real + x).Floor == start + x.Floor;
  }

  /** Where the start line is drawn: the first sample, or the origin when there are none. */
  function StartLine(positions: seq<TrackPosition>): TrackPosition {
    if |positions| > 0 then positions[0] else TrackPosition(0, 0, 0, "")
  }

  /** What the session lookups return for the two years: the year before is
    * only asked when the current year has no session. */
  function LastYearSessions(api: Api, circuitKey: int, currentYear: int): seq<Session> {
    match api.sessions(circuitKey, currentYear - 1)
    case Returned(sessions) => sessions
    case Threw => []
  }

  /** `getTrackMap`: choose the session, trace its fastest lap, cut the trace
    * into sectors. Fails, rethrowing, when a session lookup throws or neither
    * year has a session. */
  method GetTrackMap(api: Api, circuitKey: int, currentYear: int) returns (r: Result<TrackMapData, TrackMapError>)
    ensures var current := api.sessions(circuitKey, currentYear);
            var last := api.sessions(circuitKey, currentYear - 1);
      r.Failure? <==> current.Threw? || (|current.value| == 0 && (last.Threw? || |last.value| == 0))
    ensures r.Success? ==>
      var current := api.sessions(circuitKey, currentYear).value;
      var key := TargetKey(current, LastYearSessions(api, circuitKey, currentYear));
      && key.Some?
      && r.value.positions == FastestLap(api, key.value)
    ensures r.Success? ==>
      && r.value.circuit_key == circuitKey
      && r.value.sector_boundaries == CalculateSectorBoundaries(r.value.positions)
      && r.value.start_line == StartLine(r.value.positions)
      && (|r.value.positions| == 0 ==> r.value.sector_boundaries == [] && r.value.start_line == TrackPosition(0, 0, 0, ""))
  {
    var currentYearSessions := api.sessions(circuitKey, currentYear);
    if currentYearSessions.Threw? {
      return Failure(LookupFailed);
    }
    var lastYearSessions: seq<Session> := [];
    if |currentYearSessions.value| == 0 {
      var fetched := api.sessions(circuitKey, currentYear - 1);
      if fetched.Threw? {
        return Failure(LookupFailed);
      }
      lastYearSessions := fetched.value;
    }
    var target := TargetSession(circuitKey, currentYear, currentYearSessions.value, lastYearSessions);
    if target.Failure? {
      return Failure(target.error);
    }
    var positions := GetFastestLapOfSession(api, target.value);
    var sectorBoundaries := CalculateSectorBoundaries(positions);
    return Success(TrackMapData(circuitKey, positions, sectorBoundaries, StartLine(positions)));
  }
}

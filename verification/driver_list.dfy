/**
 * The driver list's ordering: drivers sorted by their race position from the
 * timing data, or by their `Line` in the driver list when the timing has no
 * position yet.
 */
module DriverList {
  import opened Wrappers
  import opened Json
  import opened JsText
  import opened Sorting
  import opened DriverStore
  import DT = DriverTimingStore

  /** The sort key as JavaScript computes it; `None` is NaN. */
  function Position(d: Driver, timing: map<string, DT.DriverTiming>): (r: Option<int>)
    ensures (var t := DT.Lookup(timing, RacingNumberOf(d));
             t.Some? && FieldTruthy(t.value.Fields, "Position") && t.value.Fields["Position"].JStr?
             ==> r == ParseInt(t.value.Fields["Position"].s))
    ensures (var t := DT.Lookup(timing, RacingNumberOf(d));
             !(t.Some? && FieldTruthy(t.value.Fields, "Position")) && "Line" in d && d["Line"].JNum?
             ==> r == Some(d["Line"].n))
  {
    var timingOfDriver := DT.Lookup(timing, RacingNumberOf(d));
    if timingOfDriver.Some? && FieldTruthy(timingOfDriver.value.Fields, "Position") then
      match timingOfDriver.value.Fields["Position"]
      case JStr(s) => ParseInt(s)
      case JNum(n) => Some(n)
      case _ => None
    else if "Line" in d && d["Line"].JNum? then Some(d["Line"].n)
    else None
  }

  /** The key the comparator subtracts, NaN read as 0. */
  function SortKey(timing: map<string, DT.DriverTiming>): Driver -> int {
    d => Position(d, timing).GetOr(0)
  }

  /** `sortedDrivers`: `Object.values(Drivers)` sorted by position. */
  function SortedDrivers(drivers: seq<Driver>, timing: map<string, DT.DriverTiming>): (r: seq<Driver>)
    ensures SortedBy(r, SortKey(timing))
    ensures multiset(r) == multiset(drivers)
  {
    SortBy(drivers, SortKey(timing))
  }

  /** What the list shows: the placeholder, or one row per driver in order. */
  datatype View = NoDriversPlaceholder | Rows(drivers: seq<Driver>)

  function Render(drivers: seq<Driver>, timing: map<string, DT.DriverTiming>): (v: View)
    ensures v == NoDriversPlaceholder <==> |drivers| == 0
    ensures v.Rows? ==> SortedBy(v.drivers, SortKey(timing)) && multiset(v.drivers) == multiset(drivers)
  {
    if |drivers| == 0 then NoDriversPlaceholder else Rows(SortedDrivers(drivers, timing))
  }

  /** The sort is stable: of two drivers holding the same position, the one
    * earlier in `Object.values(Drivers)` is shown first. */
  lemma TiesKeepOrder(drivers: seq<Driver>, timing: map<string, DT.DriverTiming>, i: int, j: int)
    requires 0 <= i < j < |drivers|
    requires SortKey(timing)(drivers[i]) == SortKey(timing)(drivers[j])
    ensures Before(SortedDrivers(drivers, timing), drivers[i], drivers[j])
  {
    SortByStable(drivers, SortKey(timing), i, j);
  }
}

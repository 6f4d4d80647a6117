/**
 * The driver-comparison panel: the selected racing numbers resolved to
 * drivers, and the lap table built from their timing-app stints: one row per
 * lap number, holding each driver's lap time and compound on that lap, the
 * latest lap first.
 */
module DriverComparisonPanel {
  import opened Wrappers
  import opened Json
  import opened Sorting
  import opened DriverStore
  import opened LapHistoryStore

  /** `selectedDriverNumbers.map(num => Drivers[num]).filter(d => d !== undefined)`. */
  function SelectedDrivers(selectedDriverNumbers: seq<string>, drivers: map<string, Driver>): (r: seq<Driver>)
    ensures |r| <= |selectedDriverNumbers|
    ensures forall d :: d in r <==> exists n :: n in selectedDriverNumbers && n in drivers && drivers[n] == d
  {
    if selectedDriverNumbers == [] then []
    else
      var init := selectedDriverNumbers[..|selectedDriverNumbers| - 1];
      var num := selectedDriverNumbers[|selectedDriverNumbers| - 1];
      assert forall n :: n in selectedDriverNumbers <==> n in init || n == num;
      SelectedDrivers(init, drivers) + (if num in drivers then [drivers[num]] else [])
  }

  /** Resolving keeps the selection order: a split selection resolves part by part. */
  lemma {:induction false} SelectedDriversAppend(a: seq<string>, b: seq<string>, drivers: map<string, Driver>)
    ensures SelectedDrivers(a + b, drivers) == SelectedDrivers(a, drivers) + SelectedDrivers(b, drivers)
  {
    if b != [] {
      var init := b[..|b| - 1];
      assert (a + b)[..|a + b| - 1] == a + init;
      assert (a + b)[|a + b| - 1] == b[|b| - 1];
      SelectedDriversAppend(a, init, drivers);
    } else {
      assert a + b == a;
    }
  }

  /** A number without a driver entry is dropped; one with an entry yields that driver. */
  lemma SelectedDriverOne(num: string, drivers: map<string, Driver>)
    ensures num !in drivers ==> SelectedDrivers([num], drivers) == []
    ensures num in drivers ==> SelectedDrivers([num], drivers) == [drivers[num]]
  {
    assert [num][..0] == [];
  }

  /** One row of the lap table. `compounds` holds `undefined` for a stint
    * without a compound, which is `None` here. */
  datatype LapData = LapData(lapNumber: int, times: map<string, string>, compounds: map<string, Option<string>>)

  function LapNumberOfRow(row: LapData): int { row.lapNumber }

  /** `stint.LapNumber && stint.LapTime`: both present and truthy. */
  predicate Contributes(stint: Stint) {
    stint.LapNumber.Some? && stint.LapNumber.value != 0 && stint.LapTime.Some? && stint.LapTime.value != ""
  }

  /** `timingAppData[rn]?.Stints || {}`, the stints taken in their key order. */
  function StintsOf(timing: map<string, seq<Stint>>, racingNumber: string): seq<Stint> {
    if racingNumber in timing then timing[racingNumber] else []
  }

  /** The lap map after one stint of driver `rn`: a contributing stint creates
    * its row when missing and sets the driver's time and compound in it. */
  function AddStint(lapMap: map<int, LapData>, rn: string, stint: Stint): map<int, LapData> {
    if !Contributes(stint) then lapMap
    else
      var lapNum := stint.LapNumber.value;
      var row := if lapNum in lapMap then lapMap[lapNum] else LapData(lapNum, map[], map[]);
      lapMap[lapNum := row.(times := row.times[rn := stint.LapTime.value], compounds := row.compounds[rn := stint.Compound])]
  }

  function AddStints(lapMap: map<int, LapData>, rn: string, stints: seq<Stint>): map<int, LapData> {
    if stints == [] then lapMap
    else AddStint(AddStints(lapMap, rn, stints[..|stints| - 1]), rn, stints[|stints| - 1])
  }

  function AddDrivers(lapMap: map<int, LapData>, drivers: seq<Driver>, timing: map<string, seq<Stint>>): map<int, LapData> {
    if drivers == [] then lapMap
    else
      var d := drivers[|drivers| - 1];
      AddStints(AddDrivers(lapMap, drivers[..|drivers| - 1], timing), RacingNumberOf(d), StintsOf(timing, RacingNumberOf(d)))
  }

  /** `lapMap` once every selected driver's stints have been visited. */
  function LapMap(drivers: seq<Driver>, timing: map<string, seq<Stint>>): map<int, LapData> {
    AddDrivers(map[], drivers, timing)
  }

  /** Every row sits under its own lap number and has a compound entry for
    * exactly the drivers it has a time for. */
  predicate WellKeyed(lapMap: map<int, LapData>) {
    forall l :: l in lapMap ==> lapMap[l].lapNumber == l && lapMap[l].compounds.Keys == lapMap[l].times.Keys
  }

  /** A contributing stint on lap `l`. */
  predicate HasLap(stints: seq<Stint>, l: int) {
    exists k :: 0 <= k < |stints| && Contributes(stints[k]) && stints[k].LapNumber.value == l
  }

  /** Some selected driver has a contributing stint on lap `l`. */
  predicate AnyHasLap(drivers: seq<Driver>, timing: map<string, seq<Stint>>, l: int) {
    exists i :: 0 <= i < |drivers| && HasLap(StintsOf(timing, RacingNumberOf(drivers[i])), l)
  }

  /** Some selected driver with racing number `rn` has a contributing stint on lap `l`. */
  predicate DriverHasLap(drivers: seq<Driver>, timing: map<string, seq<Stint>>, rn: string, l: int) {
    exists i :: 0 <= i < |drivers| && RacingNumberOf(drivers[i]) == rn && HasLap(StintsOf(timing, rn), l)
  }

  lemma AddStintFacts(lapMap: map<int, LapData>, rn: string, stint: Stint)
    requires WellKeyed(lapMap)
    ensures WellKeyed(AddStint(lapMap, rn, stint))
    ensures forall l :: l in AddStint(lapMap, rn, stint) <==> l in lapMap || (Contributes(stint) && stint.LapNumber.value == l)
    ensures forall l, n :: l in AddStint(lapMap, rn, stint) ==>
      (n in AddStint(lapMap, rn, stint)[l].times <==>
         (l in lapMap && n in lapMap[l].times) || (n == rn && Contributes(stint) && stint.LapNumber.value == l))
  {
  }

  /** What visiting one driver's stints does: rows stay keyed by their own
    * lap number; row `l` exists afterwards iff it did before or one of the
    * stints contributes lap `l`; driver `n` has a time in row `l` iff it did
    * before or `n` is this driver and one of its stints contributes lap `l`. */
  lemma {:induction false} AddStintsFacts(lapMap: map<int, LapData>, rn: string, stints: seq<Stint>)
    requires WellKeyed(lapMap)
    ensures WellKeyed(AddStints(lapMap, rn, stints))
    ensures forall l :: l in AddStints(lapMap, rn, stints) <==> l in lapMap || HasLap(stints, l)
    ensures forall l, n :: l in AddStints(lapMap, rn, stints) ==>
      (n in AddStints(lapMap, rn, stints)[l].times <==>
         (l in lapMap && n in lapMap[l].times) || (n == rn && HasLap(stints, l)))
  {
    if stints != [] {
      var init := stints[..|stints| - 1];
      var last := stints[|stints| - 1];
      AddStintsFacts(lapMap, rn, init);
      AddStintFacts(AddStints(lapMap, rn, init), rn, last);
      forall l
        ensures HasLap(stints, l) <==> HasLap(init, l) || (Contributes(last) && last.LapNumber.value == l)
      {
        if HasLap(init, l) {
          var k :| 0 <= k < |init| && Contributes(init[k]) && init[k].LapNumber.value == l;
          assert stints[k] == init[k];
        }
        if HasLap(stints, l) {
          var k :| 0 <= k < |stints| && Contributes(stints[k]) && stints[k].LapNumber.value == l;
          if k < |init| {
            assert init[k] == stints[k];
          }
        }
      }
    }
  }

  /** The lap map of the selected drivers: there is a row for lap `l` iff some
    * selected driver has a contributing stint on lap `l`, and row `l` holds a
    * time (and a compound) for racing number `n` iff a selected driver with
    * that number has a contributing stint on lap `l`. */
  lemma {:induction false} LapMapFacts(drivers: seq<Driver>, timing: map<string, seq<Stint>>)
    ensures WellKeyed(LapMap(drivers, timing))
    ensures forall l :: l in LapMap(drivers, timing) <==> AnyHasLap(drivers, timing, l)
    ensures forall l, n :: l in LapMap(drivers, timing) ==>
      (n in LapMap(drivers, timing)[l].times <==> DriverHasLap(drivers, timing, n, l))
  {
    if drivers != [] {
      var init := drivers[..|drivers| - 1];
      var d := drivers[|drivers| - 1];
      var rn := RacingNumberOf(d);
      LapMapFacts(init, timing);
      AddStintsFacts(LapMap(init, timing), rn, StintsOf(timing, rn));
      AnyHasLapStep(drivers, timing);
      DriverHasLapStep(drivers, timing);
    }
  }

  lemma AnyHasLapStep(drivers: seq<Driver>, timing: map<string, seq<Stint>>)
    requires drivers != []
    ensures forall l :: AnyHasLap(drivers, timing, l) <==>
      AnyHasLap(drivers[..|drivers| - 1], timing, l) || HasLap(StintsOf(timing, RacingNumberOf(drivers[|drivers| - 1])), l)
  {
    var init := drivers[..|drivers| - 1];
    forall l
      ensures AnyHasLap(drivers, timing, l) <==>
        AnyHasLap(init, timing, l) || HasLap(StintsOf(timing, RacingNumberOf(drivers[|drivers| - 1])), l)
    {
      if AnyHasLap(init, timing, l) {
        var i :| 0 <= i < |init| && HasLap(StintsOf(timing, RacingNumberOf(init[i])), l);
        assert drivers[i] == init[i];
      }
      if AnyHasLap(drivers, timing, l) {
        var i :| 0 <= i < |drivers| && HasLap(StintsOf(timing, RacingNumberOf(drivers[i])), l);
        if i < |init| {
          assert init[i] == drivers[i];
        }
      }
    }
  }

  lemma DriverHasLapStep(drivers: seq<Driver>, timing: map<string, seq<Stint>>)
    requires drivers != []
    ensures forall l, n :: DriverHasLap(drivers, timing, n, l) <==>
      DriverHasLap(drivers[..|drivers| - 1], timing, n, l)
      || (n == RacingNumberOf(drivers[|drivers| - 1]) && HasLap(StintsOf(timing, n), l))
  {
    var init := drivers[..|drivers| - 1];
    var rn := RacingNumberOf(drivers[|drivers| - 1]);
    forall l, n
      ensures DriverHasLap(drivers, timing, n, l) <==> DriverHasLap(init, timing, n, l) || (n == rn && HasLap(StintsOf(timing, n), l))
    {
      if DriverHasLap(init, timing, n, l) {
        var i :| 0 <= i < |init| && RacingNumberOf(init[i]) == n && HasLap(StintsOf(timing, n), l);
        assert drivers[i] == init[i];
      }
      if DriverHasLap(drivers, timing, n, l) {
        var i :| 0 <= i < |drivers| && RacingNumberOf(drivers[i]) == n && HasLap(StintsOf(timing, n), l);
        if i < |init| {
          assert init[i] == drivers[i];
        }
      }
    }
  }

  /** A later stint overwrites an earlier one: the time and compound a driver
    * shows on lap `l` come from its last contributing stint on that lap. */
  lemma {:induction false} LastStintWins(lapMap: map<int, LapData>, rn: string, stints: seq<Stint>, k: nat)
    requires k < |stints| && Contributes(stints[k])
    requires forall j :: k < j < |stints| && Contributes(stints[j]) ==> stints[j].LapNumber.value != stints[k].LapNumber.value
    ensures (var l := stints[k].LapNumber.value;
             var m := AddStints(lapMap, rn, stints);
             l in m && rn in m[l].times && rn in m[l].compounds
             && m[l].times[rn] == stints[k].LapTime.value && m[l].compounds[rn] == stints[k].Compound)
  {
    var init := stints[..|stints| - 1];
    if k < |init| {
      assert forall j :: k < j < |init| ==> init[j] == stints[j];
      LastStintWins(lapMap, rn, init, k);
    }
  }

  /** Rows ordered by lap number, the latest lap first, no lap twice. */
  predicate Descending(rows: seq<LapData>) {
    forall i, j :: 0 <= i < j < |rows| ==> rows[i].lapNumber > rows[j].lapNumber
  }

  /** `Object.values(lapMap)`: every row once, in an order left open. */
  method ObjectValues(lapMap: map<int, LapData>) returns (values: seq<LapData>)
    requires WellKeyed(lapMap)
    ensures forall row :: row in values <==> row in lapMap.Values
    ensures DistinctKeys(values, LapNumberOfRow)
  {
    values := [];
    var pending := lapMap.Values;
    while pending != {}
      invariant pending <= lapMap.Values
      invariant forall row :: row in values <==> row in lapMap.Values && row !in pending
      invariant DistinctKeys(values, LapNumberOfRow)
      decreases |pending|
    {
      var row :| row in pending;
      forall i | 0 <= i < |values|
        ensures values[i].lapNumber != row.lapNumber
      {
        RowAtOwnKey(lapMap, values[i]);
        RowAtOwnKey(lapMap, row);
      }
      values := values + [row];
      pending := pending - {row};
    }
  }

  /** A row of a well-keyed map is the one stored under its lap number. */
  lemma RowAtOwnKey(lapMap: map<int, LapData>, row: LapData)
    requires WellKeyed(lapMap) && row in lapMap.Values
    ensures row.lapNumber in lapMap && lapMap[row.lapNumber] == row
  {
    assert forall l :: l in lapMap && lapMap[l] == row ==> l == row.lapNumber;
  }

  /** `lapHistoryData`: one row per lap number on which a selected driver has
    * a contributing stint, each row the one the lap map holds, ordered from
    * the latest lap to the earliest. `timing` maps a racing number to its
    * timing-app stints. */
  method LapHistoryData(selectedDrivers: seq<Driver>, timing: map<string, seq<Stint>>) returns (rows: seq<LapData>)
    ensures Descending(rows)
    ensures forall row :: row in rows <==> row in LapMap(selectedDrivers, timing).Values
    ensures forall i :: 0 <= i < |rows| ==> AnyHasLap(selectedDrivers, timing, rows[i].lapNumber)
    ensures forall l :: AnyHasLap(selectedDrivers, timing, l) ==> exists i :: 0 <= i < |rows| && rows[i].lapNumber == l
  {
    var lapMap := BuildLapMap(selectedDrivers, timing);
    LapMapFacts(selectedDrivers, timing);
    var values := ObjectValues(lapMap);
    SortByStrict(values, LapNumberOfRow);
    var ascending := SortBy(values, LapNumberOfRow);
    rows := Reverse(ascending);
    RowsOfReverse(ascending, rows, lapMap);
  }

  /** The outer `forEach` over the selected drivers. */
  method BuildLapMap(selectedDrivers: seq<Driver>, timing: map<string, seq<Stint>>) returns (lapMap: map<int, LapData>)
    ensures lapMap == LapMap(selectedDrivers, timing)
  {
    lapMap := map[];
    for i := 0 to |selectedDrivers|
      invariant lapMap == LapMap(selectedDrivers[..i], timing)
    {
      var driver := selectedDrivers[i];
      var rn := RacingNumberOf(driver);
      lapMap := AddDriverStints(lapMap, rn, StintsOf(timing, rn));
      assert selectedDrivers[..i + 1][..i] == selectedDrivers[..i];
    }
    assert selectedDrivers[..|selectedDrivers|] == selectedDrivers;
  }

  /** The inner `forEach` over one driver's stints. */
  method AddDriverStints(lapMap: map<int, LapData>, rn: string, stints: seq<Stint>) returns (updated: map<int, LapData>)
    ensures updated == AddStints(lapMap, rn, stints)
  {
    updated := lapMap;
    for j := 0 to |stints|
      invariant updated == AddStints(lapMap, rn, stints[..j])
    {
      var stint := stints[j];
      if stint.LapNumber.Some? && stint.LapNumber.value != 0 && stint.LapTime.Some? && stint.LapTime.value != "" {
        var lapNum := stint.LapNumber.value;
        if lapNum !in updated {
          updated := updated[lapNum := LapData(lapNum, map[], map[])];
        }
        updated := updated[lapNum := updated[lapNum].(times := updated[lapNum].times[rn := stint.LapTime.value])];
        updated := updated[lapNum := updated[lapNum].(compounds := updated[lapNum].compounds[rn := stint.Compound])];
      }
      assert stints[..j + 1][..j] == stints[..j];
    }
    assert stints[..|stints|] == stints;
  }

  lemma RowsOfReverse(ascending: seq<LapData>, rows: seq<LapData>, lapMap: map<int, LapData>)
    requires StrictlySortedBy(ascending, LapNumberOfRow)
    requires forall row :: row in multiset(ascending) <==> row in lapMap.Values
    requires WellKeyed(lapMap)
    requires |rows| == |ascending| && forall i :: 0 <= i < |ascending| ==> rows[i] == ascending[|ascending| - 1 - i]
    ensures Descending(rows)
    ensures forall row :: row in rows <==> row in lapMap.Values
    ensures forall i :: 0 <= i < |rows| ==> rows[i].lapNumber in lapMap
    ensures forall l :: l in lapMap ==> exists i :: 0 <= i < |rows| && rows[i].lapNumber == l
  {
    forall i | 0 <= i < |rows|
      ensures rows[i] in lapMap.Values
    {
      assert ascending[|ascending| - 1 - i] in multiset(ascending);
    }
    forall row | row in lapMap.Values
      ensures row in rows
    {
      assert row in multiset(ascending);
      var k :| 0 <= k < |ascending| && ascending[k] == row;
      assert rows[|ascending| - 1 - k] == row;
    }
    forall l | l in lapMap
      ensures exists i :: 0 <= i < |rows| && rows[i].lapNumber == l
    {
      assert lapMap[l] in lapMap.Values;
      assert lapMap[l] in rows;
      var i :| 0 <= i < |rows| && rows[i] == lapMap[l];
    }
  }

  /** The table as the component is written: it selects `TimingAppData` from
    * the timing-app store, whose state field is `timingAppData`, so the
    * selected value is `undefined` and indexing it throws as soon as one
    * selected driver exists. */
  function LapTableAsWritten(selectedDrivers: seq<Driver>): (r: Outcome<seq<LapData>>)
    ensures r.Threw? <==> |selectedDrivers| > 0
    ensures r.Returned? ==> r.value == []
  {
    if selectedDrivers == [] then Returned([]) else Threw
  }

  /** One selected driver with one timed lap: the component as written throws,
    * where the table over the stints has a row for that lap. */
  lemma AsWrittenLosesLaps()
    ensures (var d: Driver := map["RacingNumber" := JStr("1")];
             var timing := map["1" := [Stint(Some("1:31.456"), Some(5), Some("SOFT"), None, None)]];
             LapTableAsWritten([d]).Threw? && 5 in LapMap([d], timing)
             && LapMap([d], timing)[5].times == map["1" := "1:31.456"])
  {
    var d: Driver := map["RacingNumber" := JStr("1")];
    var timing := map["1" := [Stint(Some("1:31.456"), Some(5), Some("SOFT"), None, None)]];
    assert RacingNumberOf(d) == "1";
    assert [d][..0] == [];
    var stints := timing["1"];
    assert StintsOf(timing, "1") == stints;
    assert stints[..0] == [];
    assert AddStints(map[], "1", stints[..0]) == map[];
    assert AddStints(map[], "1", stints) == AddStint(map[], "1", stints[0]);
    assert AddDrivers(map[], [d][..0], timing) == map[];
    assert LapMap([d], timing) == AddStints(AddDrivers(map[], [d][..0], timing), RacingNumberOf(d), StintsOf(timing, RacingNumberOf(d)));
  }
}

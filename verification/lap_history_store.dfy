/**
 * Per-driver lap history: laps recorded by lap number, upserted one at a time
 * or from a driver's stints, kept in ascending lap-number order, and soft
 * deleted through a `deleted` flag the visible history filters out.
 */
module LapHistoryStore {
  import opened Wrappers
  import opened JsText
  import opened Sorting

  /** One recorded lap. `compound` is `None` when the stint carried none;
    * the optional fields are `None` when the object has no such key. */
  datatype LapHistory = LapHistory(
    lapNumber: int,
    lapTime: string,
    compound: Option<string>,
    isNew: bool,
    sectors: Option<seq<string>>,
    personalFastest: Option<bool>,
    deleted: Option<bool>,
    stintNumber: Option<int>)

  /** A `Partial<LapHistory>`: each field `None` when the update leaves it out. */
  datatype LapPatch = LapPatch(
    lapNumber: Option<int>,
    lapTime: Option<string>,
    compound: Option<Option<string>>,
    isNew: Option<bool>,
    sectors: Option<seq<string>>,
    personalFastest: Option<bool>,
    deleted: Option<bool>,
    stintNumber: Option<Option<int>>)

  /** A stint of the timing-app feed, as far as lap history reads it. */
  datatype Stint = Stint(
    LapTime: Option<string>,
    LapNumber: Option<int>,
    Compound: Option<string>,
    New: Option<string>,
    LapFlags: Option<int>)

  function LapNumberOf(l: LapHistory): int { l.lapNumber }

  /** `{...prior, ...lap}` for a whole lap: every field the lap has wins. */
  function MergeLap(prior: LapHistory, lap: LapHistory): (r: LapHistory)
    ensures r.lapNumber == lap.lapNumber && r.lapTime == lap.lapTime && r.compound == lap.compound
    ensures r.isNew == lap.isNew && r.stintNumber == lap.stintNumber
    ensures r.sectors == (if lap.sectors.Some? then lap.sectors else prior.sectors)
    ensures r.personalFastest == (if lap.personalFastest.Some? then lap.personalFastest else prior.personalFastest)
    ensures r.deleted == (if lap.deleted.Some? then lap.deleted else prior.deleted)
  {
    LapHistory(lap.lapNumber, lap.lapTime, lap.compound, lap.isNew,
      if lap.sectors.Some? then lap.sectors else prior.sectors,
      if lap.personalFastest.Some? then lap.personalFastest else prior.personalFastest,
      if lap.deleted.Some? then lap.deleted else prior.deleted,
      lap.stintNumber)
  }

  /** `{...lap, ...updates}`. */
  function ApplyPatch(lap: LapHistory, p: LapPatch): LapHistory {
    LapHistory(
      p.lapNumber.GetOr(lap.lapNumber), p.lapTime.GetOr(lap.lapTime), p.compound.GetOr(lap.compound),
      p.isNew.GetOr(lap.isNew),
      if p.sectors.Some? then p.sectors else lap.sectors,
      if p.personalFastest.Some? then p.personalFastest else lap.personalFastest,
      if p.deleted.Some? then p.deleted else lap.deleted,
      p.stintNumber.GetOr(lap.stintNumber))
  }

  /** `laps.findIndex(l => l.lapNumber === n)`. */
  function FindLapIndex(laps: seq<LapHistory>, n: int): (r: int)
    ensures -1 <= r < |laps|
    ensures r >= 0 ==> laps[r].lapNumber == n && forall i :: 0 <= i < r ==> laps[i].lapNumber != n
    ensures r == -1 ==> forall i :: 0 <= i < |laps| ==> laps[i].lapNumber != n
  {
    if |laps| == 0 then -1
    else if laps[0].lapNumber == n then 0
    else
      var k := FindLapIndex(laps[1..], n);
      if k < 0 then -1 else k + 1
  }

  /** No two laps of a history share a lap number. */
  predicate DistinctLapNumbers(laps: seq<LapHistory>) {
    DistinctKeys(laps, LapNumberOf)
  }

  /** The set of lap numbers a history holds. */
  function LapNumbers(laps: seq<LapHistory>): set<int> {
    set i | 0 <= i < |laps| :: laps[i].lapNumber
  }

  /** The upsert both `addLap` and `updateFromStints` perform: merge into the
    * entry with the same lap number in place, or append. */
  function Upsert(laps: seq<LapHistory>, lap: LapHistory): seq<LapHistory> {
    var existingIndex := FindLapIndex(laps, lap.lapNumber);
    if existingIndex >= 0 then laps[existingIndex := MergeLap(laps[existingIndex], lap)]
    else laps + [lap]
  }

  /** An upsert keeps lap numbers distinct and adds exactly the lap's number. */
  lemma UpsertDistinct(laps: seq<LapHistory>, lap: LapHistory)
    requires DistinctLapNumbers(laps)
    ensures DistinctLapNumbers(Upsert(laps, lap))
    ensures LapNumbers(Upsert(laps, lap)) == LapNumbers(laps) + {lap.lapNumber}
  {
    var r := Upsert(laps, lap);
    var existingIndex := FindLapIndex(laps, lap.lapNumber);
    if existingIndex >= 0 {
      assert forall i :: 0 <= i < |r| ==> r[i].lapNumber == laps[i].lapNumber;
      assert LapNumbers(r) == LapNumbers(laps);
    } else {
      assert forall i :: 0 <= i < |laps| ==> r[i] == laps[i];
      assert r[|laps|] == lap;
      assert LapNumbers(r) == LapNumbers(laps) + {lap.lapNumber} by {
        forall n | n in LapNumbers(r)
          ensures n in LapNumbers(laps) + {lap.lapNumber}
        {
          var i :| 0 <= i < |r| && r[i].lapNumber == n;
          if i < |laps| {
            assert n in LapNumbers(laps);
          }
        }
      }
    }
  }

  /** Every lap number of `a` is one of `b`'s when `b` holds every entry of `a`. */
  lemma LapNumbersSub(a: seq<LapHistory>, b: seq<LapHistory>)
    requires multiset(a) <= multiset(b)
    ensures LapNumbers(a) <= LapNumbers(b)
  {
    forall n | n in LapNumbers(a)
      ensures n in LapNumbers(b)
    {
      var i :| 0 <= i < |a| && a[i].lapNumber == n;
      assert a[i] in multiset(b);
      var j :| 0 <= j < |b| && b[j] == a[i];
    }
  }

  /** Appending a lap adds its number. */
  lemma LapNumbersAppend(laps: seq<LapHistory>, lap: LapHistory)
    ensures LapNumbers(laps + [lap]) == LapNumbers(laps) + {lap.lapNumber}
  {
    var r := laps + [lap];
    assert r[|laps|] == lap;
    forall n | n in LapNumbers(r)
      ensures n in LapNumbers(laps) + {lap.lapNumber}
    {
      var i :| 0 <= i < |r| && r[i].lapNumber == n;
      if i < |laps| {
        assert r[i] == laps[i];
      }
    }
    forall n | n in LapNumbers(laps)
      ensures n in LapNumbers(r)
    {
      var i :| 0 <= i < |laps| && laps[i].lapNumber == n;
      assert r[i] == laps[i];
    }
  }

  /** Replacing an entry by one with the same lap number keeps the numbers. */
  lemma LapNumbersReplace(laps: seq<LapHistory>, k: int, lap: LapHistory)
    requires 0 <= k < |laps| && laps[k].lapNumber == lap.lapNumber
    ensures LapNumbers(laps[k := lap]) == LapNumbers(laps)
  {
    var r := laps[k := lap];
    assert forall i :: 0 <= i < |r| ==> r[i].lapNumber == laps[i].lapNumber;
  }

  /** What `addLap` stores for a driver whose history was `driverHistory`:
    * the lap's number is added and no other number appears or disappears;
    * the history grows by one exactly when the number is new. */
  function AddedLap(driverHistory: seq<LapHistory>, lap: LapHistory): (r: seq<LapHistory>)
    ensures LapNumbers(r) == LapNumbers(driverHistory) + {lap.lapNumber}
    ensures |r| == |driverHistory| <==> lap.lapNumber in LapNumbers(driverHistory)
    ensures |r| == |driverHistory| || |r| == |driverHistory| + 1
  {
    var existingIndex := FindLapIndex(driverHistory, lap.lapNumber);
    if existingIndex >= 0 then
      LapNumbersReplace(driverHistory, existingIndex, MergeLap(driverHistory[existingIndex], lap));
      driverHistory[existingIndex := MergeLap(driverHistory[existingIndex], lap)]
    else
      var sorted := SortBy(driverHistory + [lap], LapNumberOf);
      LapNumbersSub(sorted, driverHistory + [lap]);
      LapNumbersSub(driverHistory + [lap], sorted);
      LapNumbersAppend(driverHistory, lap);
      sorted
  }

  /** `addLap` with a new lap number: the lap is added, nothing is lost, the
    * history is sorted and grows by exactly one. */
  lemma AddNewLap(driverHistory: seq<LapHistory>, lap: LapHistory)
    requires forall i :: 0 <= i < |driverHistory| ==> driverHistory[i].lapNumber != lap.lapNumber
    ensures var r := AddedLap(driverHistory, lap);
      && |r| == |driverHistory| + 1
      && multiset(r) == multiset(driverHistory) + multiset{lap}
      && SortedBy(r, LapNumberOf)
  {
  }

  /** `addLap` with a known lap number merges into that entry in place: the
    * length and every other entry stay, and a sorted history stays sorted.
    * The lap numbers are distinct in every history built by `addLap` alone;
    * an `updateLap` patch that sets `lapNumber` can make two entries share one. */
  lemma AddKnownLap(driverHistory: seq<LapHistory>, lap: LapHistory, k: int)
    requires 0 <= k < |driverHistory| && driverHistory[k].lapNumber == lap.lapNumber
    requires DistinctLapNumbers(driverHistory)
    ensures var r := AddedLap(driverHistory, lap);
      && |r| == |driverHistory|
      && r[k] == MergeLap(driverHistory[k], lap)
      && (forall i :: 0 <= i < |r| && i != k ==> r[i] == driverHistory[i])
      && (SortedBy(driverHistory, LapNumberOf) ==> SortedBy(r, LapNumberOf))
  {
    assert forall i :: 0 <= i < |driverHistory| && i != k ==>
      LapNumberOf(driverHistory[i]) != LapNumberOf(driverHistory[k]);
  }

  /** `addLap` keeps a history's lap numbers distinct. */
  lemma AddLapDistinct(driverHistory: seq<LapHistory>, lap: LapHistory)
    requires DistinctLapNumbers(driverHistory)
    ensures DistinctLapNumbers(AddedLap(driverHistory, lap))
  {
    if FindLapIndex(driverHistory, lap.lapNumber) >= 0 {
      UpsertDistinct(driverHistory, lap);
    } else {
      UpsertDistinct(driverHistory, lap);
      SortByStrict(driverHistory + [lap], LapNumberOf);
    }
  }

  /** `updateLap`'s map: matching entries take the update's fields. */
  function UpdatedLaps(laps: seq<LapHistory>, lapNumber: int, updates: LapPatch): (r: seq<LapHistory>)
    ensures |r| == |laps|
    ensures forall i :: 0 <= i < |laps| && laps[i].lapNumber != lapNumber ==> r[i] == laps[i]
    ensures forall i :: 0 <= i < |laps| && laps[i].lapNumber == lapNumber ==> r[i] == ApplyPatch(laps[i], updates)
  {
    seq(|laps|, i requires 0 <= i < |laps| =>
      if laps[i].lapNumber == lapNumber then ApplyPatch(laps[i], updates) else laps[i])
  }

  function IsDeleted(lap: LapHistory): bool { lap.deleted == Some(true) }

  /** `laps.filter(lap => !lap.deleted)`. */
  function Visible(laps: seq<LapHistory>): seq<LapHistory> {
    if |laps| == 0 then []
    else (if IsDeleted(laps[0]) then [] else [laps[0]]) + Visible(laps[1..])
  }

  /** The visible history of a concatenation is the concatenation of the
    * visible histories; with the single-lap case this fixes `Visible` as the
    * order-preserving filter. */
  lemma {:induction false} VisibleAppend(a: seq<LapHistory>, b: seq<LapHistory>)
    ensures Visible(a + b) == Visible(a) + Visible(b)
  {
    if |a| > 0 {
      assert (a + b)[1..] == a[1..] + b;
      VisibleAppend(a[1..], b);
    } else {
      assert a + b == b;
    }
  }

  /** A lap is visible exactly when it is in the history and not deleted. */
  lemma {:induction false} VisibleMembers(laps: seq<LapHistory>)
    ensures forall l :: l in Visible(laps) <==> l in laps && !IsDeleted(l)
    ensures |Visible(laps)| <= |laps|
  {
    if |laps| > 0 {
      VisibleMembers(laps[1..]);
      assert laps == [laps[0]] + laps[1..];
    }
  }

  /** The lap `updateFromStints` builds from stint `stintNumber`. */
  function FromStint(stintNumber: string, stint: Stint): LapHistory
    requires stint.LapTime.Some? && stint.LapNumber.Some?
  {
    LapHistory(
      stint.LapNumber.value, stint.LapTime.value, stint.Compound,
      stint.New == Some("true"), None, Some(false), Some(stint.LapFlags == Some(0)),
      ParseInt(stintNumber))
  }

  /** `stint.LapTime && stint.LapNumber`. */
  predicate Convertible(stint: Stint) {
    stint.LapTime.Some? && stint.LapTime.value != "" && stint.LapNumber.Some? && stint.LapNumber.value != 0
  }

  /** The history after the stints' laps are upserted in order, before sorting. */
  function ApplyStints(history: seq<LapHistory>, stints: seq<(string, Stint)>): seq<LapHistory>
    decreases |stints|
  {
    if |stints| == 0 then history
    else
      var (key, stint) := stints[|stints| - 1];
      var before := ApplyStints(history, stints[..|stints| - 1]);
      if Convertible(stint) then Upsert(before, FromStint(key, stint)) else before
  }

  /** A converted lap: `isNew` iff `New` is "true", deleted iff `LapFlags` is 0,
    * the stint key as its stint number, never personal-fastest. */
  lemma FromStintFields(stintNumber: string, stint: Stint)
    requires Convertible(stint)
    ensures var lap := FromStint(stintNumber, stint);
      && lap.lapNumber == stint.LapNumber.value && lap.lapTime == stint.LapTime.value
      && (lap.isNew <==> stint.New == Some("true"))
      && (IsDeleted(lap) <==> stint.LapFlags == Some(0))
      && lap.stintNumber == ParseInt(stintNumber)
      && lap.personalFastest == Some(false)
  {
  }

  /** Upserting stints keeps lap numbers distinct and adds exactly the lap
    * numbers of the convertible stints. */
  lemma {:induction false} ApplyStintsDistinct(history: seq<LapHistory>, stints: seq<(string, Stint)>)
    requires DistinctLapNumbers(history)
    ensures DistinctLapNumbers(ApplyStints(history, stints))
    ensures LapNumbers(ApplyStints(history, stints)) ==
      LapNumbers(history) + (set i | 0 <= i < |stints| && Convertible(stints[i].1) :: stints[i].1.LapNumber.value)
  {
    if |stints| > 0 {
      var init := stints[..|stints| - 1];
      ApplyStintsDistinct(history, init);
      var (key, stint) := stints[|stints| - 1];
      var before := ApplyStints(history, init);
      if Convertible(stint) {
        UpsertDistinct(before, FromStint(key, stint));
      }
      assert forall i :: 0 <= i < |init| ==> init[i] == stints[i];
    }
  }

  /** The last stint that converts decides the fields of its lap in the result. */
  lemma LastStintWins(history: seq<LapHistory>, stints: seq<(string, Stint)>)
    requires |stints| > 0 && Convertible(stints[|stints| - 1].1)
    ensures var (key, stint) := stints[|stints| - 1]; var r := ApplyStints(history, stints);
      exists i :: 0 <= i < |r|
        && r[i].lapNumber == stint.LapNumber.value && r[i].lapTime == stint.LapTime.value
        && r[i].compound == stint.Compound && r[i].isNew == (stint.New == Some("true"))
        && r[i].deleted == Some(stint.LapFlags == Some(0)) && r[i].personalFastest == Some(false)
        && r[i].stintNumber == ParseInt(key)
  {
    var (key, stint) := stints[|stints| - 1];
    var before := ApplyStints(history, stints[..|stints| - 1]);
    var lap := FromStint(key, stint);
    var r := Upsert(before, lap);
    assert r == ApplyStints(history, stints);
    var idx := FindLapIndex(before, lap.lapNumber);
    if idx >= 0 {
      assert r[idx] == MergeLap(before[idx], lap);
    } else {
      assert r[|before|] == lap;
    }
  }

  class LapHistoryStore {
    var lapHistory: map<string, seq<LapHistory>>

    constructor()
      ensures lapHistory == map[]
    {
      lapHistory := map[];
    }

    /** `state.lapHistory[racingNumber] || []`. */
    function DriverHistory(racingNumber: string): seq<LapHistory>
      reads this
    {
      if racingNumber in lapHistory then lapHistory[racingNumber] else []
    }

    /** `addLap`: upserts the lap; a new lap number is appended and the
      * history re-sorted by lap number. */
    method AddLap(racingNumber: string, lap: LapHistory)
      modifies this
      ensures lapHistory == old(lapHistory)[racingNumber := AddedLap(old(DriverHistory(racingNumber)), lap)]
    {
      var driverHistory := DriverHistory(racingNumber);
      lapHistory := lapHistory[racingNumber := AddedLap(driverHistory, lap)];
    }

    /** `updateLap`: every entry with the lap number takes the update's
      * fields; an unknown driver gets an empty history. */
    method UpdateLap(racingNumber: string, lapNumber: int, updates: LapPatch)
      modifies this
      ensures lapHistory == old(lapHistory)[racingNumber := UpdatedLaps(old(DriverHistory(racingNumber)), lapNumber, updates)]
    {
      var driverHistory := DriverHistory(racingNumber);
      lapHistory := lapHistory[racingNumber := UpdatedLaps(driverHistory, lapNumber, updates)];
    }

    /** `getLapHistory`: the laps not marked deleted, in order. */
    function GetLapHistory(racingNumber: string): (r: seq<LapHistory>)
      reads this
      ensures r == Visible(GetAllLapHistory(racingNumber))
      ensures racingNumber !in lapHistory ==> r == []
    {
      Visible(DriverHistory(racingNumber))
    }

    /** `getAllLapHistory`: every stored lap, `[]` for an unknown driver. */
    function GetAllLapHistory(racingNumber: string): (r: seq<LapHistory>)
      reads this
      ensures racingNumber in lapHistory ==> r == lapHistory[racingNumber]
      ensures racingNumber !in lapHistory ==> r == []
    {
      DriverHistory(racingNumber)
    }

    /** `updateFromStints`: upserts each convertible stint's lap in entry
      * order, then sorts the history by lap number. */
    method UpdateFromStints(racingNumber: string, stints: seq<(string, Stint)>)
      modifies this
      ensures lapHistory == old(lapHistory)[racingNumber :=
        SortBy(ApplyStints(old(DriverHistory(racingNumber)), stints), LapNumberOf)]
    {
      var driverHistory := DriverHistory(racingNumber);
      ghost var original := driverHistory;
      for n := 0 to |stints|
        invariant driverHistory == ApplyStints(original, stints[..n])
      {
        var (stintNumber, stint) := stints[n];
        assert stints[..n + 1][..n] == stints[..n];
        if stint.LapTime.Some? && stint.LapTime.value != "" && stint.LapNumber.Some? && stint.LapNumber.value != 0 {
          var lap := FromStint(stintNumber, stint);
          var existingIndex := FindLapIndex(driverHistory, lap.lapNumber);
          if existingIndex >= 0 {
            driverHistory := driverHistory[existingIndex := MergeLap(driverHistory[existingIndex], lap)];
          } else {
            driverHistory := driverHistory + [lap];
          }
        }
      }
      assert stints[..|stints|] == stints;
      lapHistory := lapHistory[racingNumber := SortBy(driverHistory, LapNumberOf)];
    }
  }

  /** After `updateFromStints` a history with distinct lap numbers is strictly
    * increasing by lap number. */
  lemma StintsSorted(history: seq<LapHistory>, stints: seq<(string, Stint)>)
    requires DistinctLapNumbers(history)
    ensures StrictlySortedBy(SortBy(ApplyStints(history, stints), LapNumberOf), LapNumberOf)
  {
    ApplyStintsDistinct(history, stints);
    SortByStrict(ApplyStints(history, stints), LapNumberOf);
  }
}

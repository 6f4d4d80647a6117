/**
 * The position store: keeps the latest car-position snapshot. The feed sends
 * either a bare array of snapshots, an object whose `Position` member is that
 * array, or a single snapshot object; only the last snapshot of an array is kept.
 */
module PositionStore {
  import opened Wrappers
  import opened Json

  /** A snapshot: its timestamp (absent when the message has none) and the per-car entries. */
  datatype PositionData = PositionData(Timestamp: Option<Json>, Entries: Json)

  /** The snapshot array of the input, if it is an array or has an array `Position` member. */
  function PositionArray(positionData: Json): (r: Option<seq<Json>>)
    ensures positionData.JArr? ==> r == Some(positionData.items)
    ensures r.Some? && !positionData.JArr? ==> Field(positionData, "Position") == Some(JArr(r.value))
    ensures r.None? ==> !positionData.JArr? && !(Field(positionData, "Position").Some? && Field(positionData, "Position").value.JArr?)
  {
    if positionData.JArr? then Some(positionData.items)
    else match Field(positionData, "Position")
      case Some(JArr(items)) => Some(items)
      case _ => None
  }

  /** The snapshot `v` describes, when it carries truthy `Entries`. */
  function Snapshot(v: Json): (r: Option<PositionData>)
    ensures r.Some? <==> v.JObj? && FieldTruthy(v.fields, "Entries")
    ensures r.Some? ==> r.value.Entries == v.fields["Entries"] && r.value.Timestamp == Field(v, "Timestamp")
  {
    if v.JObj? && FieldTruthy(v.fields, "Entries") then Some(PositionData(Field(v, "Timestamp"), v.fields["Entries"]))
    else None
  }

  /** The snapshot an update selects, if any: the last element of a non-empty
    * array, otherwise the input itself. */
  function Latest(positionData: Json): Option<PositionData> {
    var positionArray := PositionArray(positionData);
    if positionArray.Some? && |positionArray.value| > 0 then Snapshot(positionArray.value[|positionArray.value| - 1])
    else Snapshot(positionData)
  }

  class PositionStore {
    var positionData: Option<PositionData>

    constructor()
      ensures positionData == None
    {
      positionData := None;
    }

    /** `updatePositionData`: selects the latest snapshot and stores it when it
      * differs from the stored one; `changed` tells whether a new state was set. */
    method UpdatePositionData(input: Json) returns (changed: bool)
      modifies this
      ensures Latest(input).None? ==> positionData == old(positionData) && !changed
      ensures Latest(input).Some? ==> positionData == Latest(input)
      ensures changed <==> Latest(input).Some? && old(positionData) != Latest(input)
    {
      var latestData: Option<PositionData> := None;
      var positionArray: Option<seq<Json>> := None;
      if input.JArr? {
        positionArray := Some(input.items);
      } else if Field(input, "Position").Some? && Field(input, "Position").value.JArr? {
        positionArray := Some(Field(input, "Position").value.items);
      }
      if positionArray.Some? && |positionArray.value| > 0 {
        var latestEntry := positionArray.value[|positionArray.value| - 1];
        if latestEntry.JObj? && FieldTruthy(latestEntry.fields, "Entries") {
          latestData := Some(PositionData(Field(latestEntry, "Timestamp"), latestEntry.fields["Entries"]));
        }
      } else if input.JObj? && FieldTruthy(input.fields, "Entries") {
        latestData := Some(PositionData(Field(input, "Timestamp"), input.fields["Entries"]));
      }
      changed := false;
      if latestData.Some? {
        if positionData != latestData {
          positionData := latestData;
          changed := true;
        }
      }
    }
  }

  /** From a non-empty array only the last element counts. */
  lemma LastElementOnly(items: seq<Json>, others: seq<Json>)
    requires |items| > 0
    ensures Latest(JArr(others + [items[|items| - 1]])) == Latest(JArr(items))
  {
  }

  /** An object whose `Position` member is a non-empty array behaves exactly like the bare array. */
  lemma WrappedLikeBare(r: Record, items: seq<Json>)
    requires |items| > 0 && "Position" in r && r["Position"] == JArr(items)
    ensures Latest(JObj(r)) == Latest(JArr(items))
  {
  }

  /** If the last element lacks truthy `Entries`, nothing is selected, whatever the earlier elements hold. */
  lemma LastWithoutEntries(items: seq<Json>)
    requires |items| > 0
    requires !(items[|items| - 1].JObj? && FieldTruthy(items[|items| - 1].fields, "Entries"))
    ensures Latest(JArr(items)) == None
    ensures forall r: Record :: "Position" in r && r["Position"] == JArr(items) ==> Latest(JObj(r)) == None
  {
  }

  /** Without a non-empty snapshot array, an object with truthy `Entries` is
    * itself the snapshot (an empty `Position` array falls through to it). */
  lemma SingleEntry(r: Record)
    requires !("Position" in r && r["Position"].JArr? && |r["Position"].items| > 0)
    requires FieldTruthy(r, "Entries")
    ensures Latest(JObj(r)) == Some(PositionData(if "Timestamp" in r then Some(r["Timestamp"]) else None, r["Entries"]))
  {
  }

  /** Inputs of no recognised shape select nothing: scalars, an empty array,
    * and objects with neither a non-empty `Position` array nor `Entries`. */
  lemma NoShapeNoSnapshot(input: Json)
    requires input.JNull? || input.JBool? || input.JNum? || input.JStr? || input == JArr([])
      || (input.JObj? && !FieldTruthy(input.fields, "Entries")
          && !("Position" in input.fields && input.fields["Position"].JArr? && |input.fields["Position"].items| > 0))
    ensures Latest(input) == None
  {
  }
}

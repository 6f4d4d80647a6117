/**
 * The lap-count store: the current lap and the race distance in laps. An
 * update may carry either number; a missing or `null` one keeps its value.
 */
module LapCountStore {
  import opened Wrappers

  /** A `Partial<LapCount>`: `None` is an absent or `null` field. */
  datatype LapCountUpdate = LapCountUpdate(CurrentLap: Option<int>, TotalLaps: Option<int>)

  class LapCountStore {
    var CurrentLap: int
    var TotalLaps: int

    constructor()
      ensures CurrentLap == 0 && TotalLaps == 0
    {
      CurrentLap := 0;
      TotalLaps := 0;
    }

    /** `updateLapCount`: each field given (0 included) replaces the stored
      * one; each field left out keeps it; the two are independent. */
    method UpdateLapCount(lapCount: LapCountUpdate)
      modifies this
      ensures lapCount.CurrentLap.Some? ==> CurrentLap == lapCount.CurrentLap.value
      ensures lapCount.CurrentLap.None? ==> CurrentLap == old(CurrentLap)
      ensures lapCount.TotalLaps.Some? ==> TotalLaps == lapCount.TotalLaps.value
      ensures lapCount.TotalLaps.None? ==> TotalLaps == old(TotalLaps)
    {
      CurrentLap, TotalLaps := lapCount.CurrentLap.GetOr(CurrentLap), lapCount.TotalLaps.GetOr(TotalLaps);
    }
  }
}

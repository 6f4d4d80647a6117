/**
 * The driver list store: one record per racing number, shallow-merged with
 * each update, with the state left as it was when nothing changes.
 */
module DriverStore {
  import opened Wrappers
  import opened Json

  /** A driver entry (`RacingNumber`, `Tla`, `Line`, `TeamColour`, …). */
  type Driver = Record

  /** `driver.RacingNumber`; a missing or non-string value reads as the key "undefined". */
  function RacingNumberOf(d: Driver): string {
    if "RacingNumber" in d && d["RacingNumber"].JStr? then d["RacingNumber"].s else "undefined"
  }

  /** The stored driver after an update: merged into an existing entry, or the update itself. */
  function MergeDriver(existing: Option<Driver>, update: Driver): Driver {
    match existing
    case Some(e) => e + update
    case None => update
  }

  function Lookup(m: map<string, Driver>, racingNumber: string): Option<Driver> {
    if racingNumber in m then Some(m[racingNumber]) else None
  }

  /** The drivers after `updateDrivers(drivers)` once the racing numbers in
    * `done` are merged against the state before the call. */
  function UpdatedDrivers(state: map<string, Driver>, drivers: map<string, Driver>, done: set<string>): map<string, Driver>
    requires done <= drivers.Keys
  {
    state + map k | k in done :: MergeDriver(Lookup(state, k), drivers[k])
  }

  /** Racing number `k` of the update is new, or its merged driver differs from the stored one. */
  predicate Changes(state: map<string, Driver>, drivers: map<string, Driver>, k: string)
    requires k in drivers
  {
    k !in state || state[k] != MergeDriver(Lookup(state, k), drivers[k])
  }

  /** Some racing number in `done` is new or would change. */
  predicate ChangedIn(state: map<string, Driver>, drivers: map<string, Driver>, done: set<string>)
    requires done <= drivers.Keys
  {
    exists k :: k in done && Changes(state, drivers, k)
  }

  /** Some racing number of the update is new or would change. */
  predicate AnyChange(state: map<string, Driver>, drivers: map<string, Driver>) {
    ChangedIn(state, drivers, drivers.Keys)
  }

  /** Merging one more racing number is one more assignment. */
  lemma UpdatedDriversStep(state: map<string, Driver>, drivers: map<string, Driver>, done: set<string>, k: string)
    requires done <= drivers.Keys && k in drivers
    ensures UpdatedDrivers(state, drivers, done + {k})
         == UpdatedDrivers(state, drivers, done)[k := MergeDriver(Lookup(state, k), drivers[k])]
  {
  }

  /** A racing number that does not change leaves the merged drivers as they were. */
  lemma UnchangedStep(state: map<string, Driver>, drivers: map<string, Driver>, done: set<string>, k: string)
    requires done <= drivers.Keys && k in drivers
    requires !Changes(state, drivers, k)
    ensures UpdatedDrivers(state, drivers, done + {k}) == UpdatedDrivers(state, drivers, done)
  {
    UpdatedDriversStep(state, drivers, done, k);
    var before := UpdatedDrivers(state, drivers, done);
    assert k in before && before[k] == state[k];
  }

  /** The change flag after one more racing number. */
  lemma ChangedInStep(state: map<string, Driver>, drivers: map<string, Driver>, done: set<string>, k: string)
    requires done <= drivers.Keys && k in drivers
    ensures ChangedIn(state, drivers, done + {k}) <==> ChangedIn(state, drivers, done) || Changes(state, drivers, k)
  {
    if ChangedIn(state, drivers, done + {k}) {
      var j :| j in done + {k} && Changes(state, drivers, j);
      assert j == k || (j in done && Changes(state, drivers, j));
    }
  }

  /** Racing numbers not in the update are unchanged; a new racing number is
    * stored exactly as given; an existing one takes the update's fields and
    * keeps the others. */
  lemma UpdatedDriversEffect(state: map<string, Driver>, drivers: map<string, Driver>)
    ensures var r := UpdatedDrivers(state, drivers, drivers.Keys);
      && r.Keys == state.Keys + drivers.Keys
      && (forall k :: k in state && k !in drivers ==> r[k] == state[k])
      && (forall k :: k in drivers && k !in state ==> r[k] == drivers[k])
      && (forall k, f :: k in drivers && k in state && f in drivers[k] ==> r[k][f] == drivers[k][f])
      && (forall k, f :: k in drivers && k in state && f in state[k] && f !in drivers[k] ==> r[k][f] == state[k][f])
  {
  }

  /** When nothing changes, the merged drivers are the stored ones. */
  lemma NoChangeSameDrivers(state: map<string, Driver>, drivers: map<string, Driver>)
    requires !AnyChange(state, drivers)
    ensures UpdatedDrivers(state, drivers, drivers.Keys) == state
  {
    var r := UpdatedDrivers(state, drivers, drivers.Keys);
    assert forall k :: k in drivers ==> !Changes(state, drivers, k);
    assert forall k :: k in drivers ==> k in state && r[k] == state[k];
  }

  /** Applying the same update twice gives the same drivers as applying it once. */
  lemma UpdateIdempotent(state: map<string, Driver>, drivers: map<string, Driver>)
    ensures var once := UpdatedDrivers(state, drivers, drivers.Keys);
      UpdatedDrivers(once, drivers, drivers.Keys) == once
  {
    var once := UpdatedDrivers(state, drivers, drivers.Keys);
    var twice := UpdatedDrivers(once, drivers, drivers.Keys);
    forall k | k in drivers
      ensures twice[k] == once[k]
    {
      var m := MergeDriver(Lookup(state, k), drivers[k]);
      assert once[k] == m;
      assert twice[k] == m + drivers[k];
      assert m + drivers[k] == m;
    }
    assert twice.Keys == once.Keys;
  }

  class DriverStore {
    var Drivers: map<string, Driver>

    constructor()
      ensures Drivers == map[]
    {
      Drivers := map[];
    }

    /** `updateDrivers`: merges every racing number of the update against the
      * state before the call; `changed` tells whether a new state was set. */
    method UpdateDrivers(drivers: map<string, Driver>) returns (changed: bool)
      modifies this
      ensures changed <==> AnyChange(old(Drivers), drivers)
      ensures changed ==> Drivers == UpdatedDrivers(old(Drivers), drivers, drivers.Keys)
      ensures !changed ==> Drivers == old(Drivers)
    {
      var state := Drivers;
      var newDrivers := state;
      var hasChanged := false;
      var pending := drivers.Keys;
      ghost var done: set<string> := {};
      assert state == UpdatedDrivers(state, drivers, {});
      while pending != {}
        invariant Drivers == state
        invariant done == drivers.Keys - pending
        invariant newDrivers == UpdatedDrivers(state, drivers, done)
        invariant hasChanged <==> ChangedIn(state, drivers, done)
        decreases pending
      {
        var racingNumber :| racingNumber in pending;
        var existingDriver := Lookup(state, racingNumber);
        var mergedDriver := MergeDriver(existingDriver, drivers[racingNumber]);
        ChangedInStep(state, drivers, done, racingNumber);
        if existingDriver.None? || existingDriver.value != mergedDriver {
          UpdatedDriversStep(state, drivers, done, racingNumber);
          newDrivers := newDrivers[racingNumber := mergedDriver];
          hasChanged := true;
        } else {
          UnchangedStep(state, drivers, done, racingNumber);
        }
        done := done + {racingNumber};
        pending := pending - {racingNumber};
      }
      assert done == drivers.Keys;
      if hasChanged {
        Drivers := newDrivers;
      } else {
        NoChangeSameDrivers(state, drivers);
      }
      changed := hasChanged;
    }

    /** `getDriver`: the stored driver, `null` as `None`. */
    function GetDriver(racingNumber: string): (r: Option<Driver>)
      reads this
      ensures r.Some? <==> racingNumber in Drivers
      ensures r.Some? ==> r.value == Drivers[racingNumber]
    {
      Lookup(Drivers, racingNumber)
    }
  }
}

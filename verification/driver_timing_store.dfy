/**
 * The per-driver timing store. The live feed sends partial timing deltas per
 * racing number; a delta's `Sectors`, and each sector's `Segments`, arrive
 * either as an array (with holes or nulls) or as an object keyed "0", "1", ….
 * The store merges each delta into what it holds: fields shallowly, sectors
 * into exactly three slots, segments padded with `{Status: 0}`.
 */
module DriverTimingStore {
  import opened Wrappers
  import opened Json

  /** A list that arrives either as an array or as an object keyed by the
    * (already parsed) index; `None` is a hole, `null` or another falsy value. */
  datatype Indexed<T> = Arr(items: seq<Option<T>>) | Keyed(entries: map<int, Option<T>>)

  /** The element the update carries at index `i`, if it carries a truthy one. */
  function Slot<T>(u: Indexed<T>, i: int): Option<T> {
    match u
    case Arr(items) => if 0 <= i < |items| then items[i] else None
    case Keyed(entries) => if i in entries then entries[i] else None
  }

  /** One segment, `{Status: n}` plus whatever else the feed sends. */
  type Segment = Record

  /** A stored sector: its scalar fields and its segment list. */
  datatype Sector = Sector(Fields: Record, Segments: seq<Segment>)

  /** A sector as it appears in a delta: fields to spread and, maybe, segments. */
  datatype SectorPatch = SectorPatch(Fields: Record, Segments: Option<Indexed<Segment>>)

  /** A stored driver timing line: its fields and, maybe, its sectors. */
  datatype DriverTiming = DriverTiming(Fields: Record, Sectors: Option<seq<Sector>>)

  /** A timing delta for one driver: fields to spread and, maybe, sectors. */
  datatype TimingPatch = TimingPatch(Fields: Record, Sectors: Option<Indexed<SectorPatch>>)

  /** The filler segment `{Status: 0}`. */
  const ZeroSegment: Segment := map["Status" := JNum(0)]

  /** The fields every freshly initialised sector starts from. */
  const DefaultSectorFields: Record :=
    map["Stopped" := JBool(false), "Value" := JStr(""), "Status" := JNum(0),
        "OverallFastest" := JBool(false), "PersonalFastest" := JBool(false)]

  function Max(a: int, b: int): int { if a < b then b else a }

  /** A non-empty set has an element (for picking keys with `:|`). */
  lemma Pick(s: set<int>)
    requires s != {}
    ensures exists x :: x in s
  {
    if forall x :: x !in s {
      assert false;
    }
  }

  // ---------------------------------------------------------------------
  // Specification of the segment merge
  // ---------------------------------------------------------------------

  /** The non-negative indices at which the update carries an element. */
  ghost function PresentIndices<T>(u: Indexed<T>): (s: set<int>)
    ensures forall i :: i in s <==> 0 <= i && Slot(u, i).Some?
  {
    match u
    case Arr(items) => set i | 0 <= i < |items| && items[i].Some?
    case Keyed(entries) => set i | i in entries && 0 <= i && entries[i].Some?
  }

  /** One more than the largest element of a set of naturals, 0 for the empty set. */
  ghost function SetReach(s: set<int>): (r: nat)
    requires forall i :: i in s ==> 0 <= i
    ensures forall i :: i in s ==> i < r
    ensures r == 0 || r - 1 in s
    decreases s
  {
    if s == {} then 0
    else
      Pick(s);
      var x :| x in s;
      var rest := SetReach(s - {x});
      assert forall i :: i in s ==> i == x || i in s - {x};
      if rest <= x then x + 1 else rest
  }

  /** 1 + the highest non-negative index carrying an element, or 0 if none does. */
  ghost function Reach<T>(u: Indexed<T>): (r: nat)
    ensures forall i :: 0 <= i && Slot(u, i).Some? ==> i < r
    ensures r == 0 || Slot(u, r - 1).Some?
  {
    SetReach(PresentIndices(u))
  }

  /** What index `j` of the working list starts from: the existing segment, or the filler. */
  function BaseSegment(existing: seq<Segment>, j: int): Segment {
    if 0 <= j < |existing| then existing[j] else ZeroSegment
  }

  /** `{...base, ...patch}` when the update carries a patch, `base` otherwise. */
  function Patched(base: Record, patch: Option<Record>): Record {
    match patch
    case Some(p) => base + p
    case None => base
  }

  /** The merged segment list, element by element: as long as the longer of the
    * existing list and the update's reach, each element the existing one (or the
    * filler) shallow-merged with the update's element at that index. */
  ghost function MergedSegments(existing: seq<Segment>, u: Indexed<Segment>): seq<Segment> {
    seq(Max(|existing|, Reach(u)), j => Patched(BaseSegment(existing, j), Slot(u, j)))
  }

  /** `mergeSegmentData(existing, update)`: with no update the existing list. */
  ghost function SegmentMerge(existing: seq<Segment>, update: Option<Indexed<Segment>>): seq<Segment> {
    match update
    case None => existing
    case Some(u) => MergedSegments(existing, u)
  }

  /** The loop invariant of the segment merge: `segments` is `existing` merged
    * with the part `done` of the update that has been applied so far. */
  ghost predicate MergedSoFar(existing: seq<Segment>, segments: seq<Segment>, done: Indexed<Segment>) {
    && |existing| <= |segments|
    && (forall i :: 0 <= i && Slot(done, i).Some? ==> i < |segments|)
    && (|segments| == |existing| || Slot(done, |segments| - 1).Some?)
    && (forall j :: 0 <= j < |segments| ==> segments[j] == Patched(BaseSegment(existing, j), Slot(done, j)))
  }

  /** Once the whole update is applied, the invariant pins the list down. */
  lemma MergedSoFarIsMerge(existing: seq<Segment>, segments: seq<Segment>, u: Indexed<Segment>)
    requires MergedSoFar(existing, segments, u)
    ensures segments == MergedSegments(existing, u)
  {
    var r := Reach(u);
    if r > 0 {
      assert r - 1 < |segments|;
    }
    if |segments| != |existing| {
      assert |segments| - 1 < r;
    }
  }

  /** One loop step: padding to index `i` and merging `p` into it extends the
    * applied part by the slot `i`. */
  lemma ApplySegment(existing: seq<Segment>, segments: seq<Segment>, done: Indexed<Segment>,
                     done': Indexed<Segment>, i: int, p: Segment, padded: seq<Segment>)
    requires MergedSoFar(existing, segments, done)
    requires 0 <= i && Slot(done, i).None?
    requires forall j :: Slot(done', j) == if j == i then Some(p) else Slot(done, j)
    requires |padded| == Max(|segments|, i + 1) && padded[..|segments|] == segments
    requires forall j :: |segments| <= j < |padded| ==> padded[j] == ZeroSegment
    ensures MergedSoFar(existing, padded[i := padded[i] + p], done')
  {
    var written := padded[i := padded[i] + p];
    forall j | 0 <= j < |written|
      ensures written[j] == Patched(BaseSegment(existing, j), Slot(done', j))
    {
      if j < |segments| {
        assert padded[j] == segments[j];
      }
    }
  }

  /** Applying slots the merge ignores (negative or falsy) keeps the invariant. */
  lemma SkipSegment(existing: seq<Segment>, segments: seq<Segment>, done: Indexed<Segment>,
                    done': Indexed<Segment>, i: int)
    requires MergedSoFar(existing, segments, done)
    requires Slot(done, i).None? && (i < 0 || Slot(done', i).None?)
    requires forall j :: Slot(done', j) == if j == i then Slot(done', i) else Slot(done, j)
    ensures MergedSoFar(existing, segments, done')
  {
    assert forall j :: 0 <= j ==> Slot(done', j) == Slot(done, j);
  }

  /** The part of a keyed update whose keys have been visited. */
  function KeyedDone<T>(entries: map<int, Option<T>>, pending: set<int>): Indexed<T> {
    Keyed(map k | k in entries && k !in pending :: entries[k])
  }

  /** `mergeSegmentData` for a stored (array) segment list: copies the existing
    * segments, then for every truthy element of the update, in either shape,
    * pads with `{Status: 0}` up to its index and shallow-merges it there. */
  method MergeSegmentData(existing: seq<Segment>, update: Option<Indexed<Segment>>) returns (segments: seq<Segment>)
    ensures segments == SegmentMerge(existing, update)
  {
    if update.None? {
      return existing;
    }
    match update.value {
      case Arr(items) =>
        segments := MergeArraySegments(existing, items);
      case Keyed(entries) =>
        segments := MergeKeyedSegments(existing, entries);
    }
  }

  /** `while (segments.length <= i) segments.push({ Status: 0 })`. */
  method PadWithFiller(segments: seq<Segment>, i: nat) returns (padded: seq<Segment>)
    ensures |padded| == Max(|segments|, i + 1) && padded[..|segments|] == segments
    ensures forall j :: |segments| <= j < |padded| ==> padded[j] == ZeroSegment
  {
    padded := segments;
    while |padded| <= i
      invariant |segments| <= |padded| <= Max(|segments|, i + 1)
      invariant padded[..|segments|] == segments
      invariant forall j :: |segments| <= j < |padded| ==> padded[j] == ZeroSegment
    {
      padded := padded + [ZeroSegment];
    }
  }

  /** The array branch of the segment merge: `update.forEach((segment, i) => …)`. */
  method MergeArraySegments(existing: seq<Segment>, items: seq<Option<Segment>>) returns (segments: seq<Segment>)
    ensures segments == MergedSegments(existing, Arr(items))
  {
    segments := existing;
    for i := 0 to |items|
      invariant MergedSoFar(existing, segments, Arr(items[..i]))
    {
      if items[i].Some? {
        var p := items[i].value;
        var padded := PadWithFiller(segments, i);
        ApplySegment(existing, segments, Arr(items[..i]), Arr(items[..i + 1]), i, p, padded);
        segments := padded[i := padded[i] + p];
      } else {
        SkipSegment(existing, segments, Arr(items[..i]), Arr(items[..i + 1]), i);
      }
    }
    assert items[..|items|] == items;
    MergedSoFarIsMerge(existing, segments, Arr(items));
  }

  /** The object branch of the segment merge: `Object.entries(update).forEach(…)`,
    * in an unspecified key order. */
  method MergeKeyedSegments(existing: seq<Segment>, entries: map<int, Option<Segment>>) returns (segments: seq<Segment>)
    ensures segments == MergedSegments(existing, Keyed(entries))
  {
    segments := existing;
    var pending := entries.Keys;
    while pending != {}
      invariant pending <= entries.Keys
      invariant MergedSoFar(existing, segments, KeyedDone(entries, pending))
      decreases pending
    {
      Pick(pending);
      var i :| i in pending;
      var after := pending - {i};
      if 0 <= i && entries[i].Some? {
        var p := entries[i].value;
        var padded := PadWithFiller(segments, i);
        ApplySegment(existing, segments, KeyedDone(entries, pending), KeyedDone(entries, after), i, p, padded);
        segments := padded[i := padded[i] + p];
      } else {
        SkipSegment(existing, segments, KeyedDone(entries, pending), KeyedDone(entries, after), i);
      }
      pending := after;
    }
    assert KeyedDone(entries, {}) == Keyed(entries);
    MergedSoFarIsMerge(existing, segments, Keyed(entries));
  }

  // ---------------------------------------------------------------------
  // Sectors
  // ---------------------------------------------------------------------

  /** Slot `i` of the freshly initialised three sectors: the defaults, overridden
    * by whatever the existing sector `i` holds. */
  function BaseSector(existing: Option<seq<Sector>>, i: int): Sector {
    if existing.Some? && 0 <= i < |existing.value| then
      Sector(DefaultSectorFields + existing.value[i].Fields, existing.value[i].Segments)
    else
      Sector(DefaultSectorFields, [])
  }

  /** `{...sector, ...patch, Segments: mergeSegmentData(sector.Segments, patch.Segments)}`. */
  ghost function PatchSector(s: Sector, p: SectorPatch): Sector {
    Sector(s.Fields + p.Fields, SegmentMerge(s.Segments, p.Segments))
  }

  /** A slot's sector after the update: patched when the update carries a sector there. */
  ghost function PatchedSector(s: Sector, p: Option<SectorPatch>): Sector {
    match p
    case Some(q) => PatchSector(s, q)
    case None => s
  }

  /** `mergeSectorData(existing, update)`, slot by slot: three sectors, each the
    * initialised one patched with the update's sector at that index. */
  ghost function MergedSectors(existing: Option<seq<Sector>>, u: Indexed<SectorPatch>): seq<Sector> {
    seq(3, i => PatchedSector(BaseSector(existing, i), Slot(u, i)))
  }

  /** The loop invariant of the sector merge. */
  ghost predicate SectorsSoFar(existing: Option<seq<Sector>>, sectors: seq<Sector>, done: Indexed<SectorPatch>) {
    |sectors| == 3 &&
    forall j :: 0 <= j < 3 ==> sectors[j] == PatchedSector(BaseSector(existing, j), Slot(done, j))
  }

  /** One loop step of the sector merge: patching slot `i` with `p`. */
  lemma ApplySector(existing: Option<seq<Sector>>, sectors: seq<Sector>, done: Indexed<SectorPatch>,
                    done': Indexed<SectorPatch>, i: int, p: SectorPatch, segs: seq<Segment>)
    requires SectorsSoFar(existing, sectors, done)
    requires 0 <= i < 3 && Slot(done, i).None? && Slot(done', i) == Some(p)
    requires forall j :: 0 <= j < 3 && j != i ==> Slot(done', j) == Slot(done, j)
    requires segs == SegmentMerge(sectors[i].Segments, p.Segments)
    ensures SectorsSoFar(existing, sectors[i := Sector(sectors[i].Fields + p.Fields, segs)], done')
  {
  }

  /** A loop step that patches nothing: the slot is falsy or outside 0..2. */
  lemma SkipSector(existing: Option<seq<Sector>>, sectors: seq<Sector>, done: Indexed<SectorPatch>,
                   done': Indexed<SectorPatch>, i: int)
    requires SectorsSoFar(existing, sectors, done)
    requires !(0 <= i < 3) || (Slot(done, i).None? && Slot(done', i).None?)
    requires forall j :: 0 <= j < 3 && j != i ==> Slot(done', j) == Slot(done, j)
    ensures SectorsSoFar(existing, sectors, done')
  {
  }

  /** `mergeSectorData`: initialises three sectors from the defaults and the
    * existing ones, then patches every truthy sector of the update whose index
    * is in 0..2, in either shape. */
  method MergeSectorData(existing: Option<seq<Sector>>, update: Indexed<SectorPatch>) returns (sectors: seq<Sector>)
    ensures |sectors| == 3
    ensures sectors == MergedSectors(existing, update)
  {
    sectors := [BaseSector(existing, 0), BaseSector(existing, 1), BaseSector(existing, 2)];
    assert SectorsSoFar(existing, sectors, Arr([]));
    match update {
      case Arr(items) =>
        sectors := PatchArraySectors(existing, sectors, items);
      case Keyed(entries) =>
        assert KeyedDone(entries, entries.Keys) == Keyed(map[]);
        sectors := PatchKeyedSectors(existing, sectors, entries);
    }
  }

  /** `sectors[i] = {...sectors[i], ...sector, Segments: mergeSegmentData(…)}`. */
  method PatchSectorAt(ghost existing: Option<seq<Sector>>, sectors: seq<Sector>, ghost done: Indexed<SectorPatch>,
                       ghost done': Indexed<SectorPatch>, i: int, p: SectorPatch) returns (patched: seq<Sector>)
    requires SectorsSoFar(existing, sectors, done)
    requires 0 <= i < 3 && Slot(done, i).None? && Slot(done', i) == Some(p)
    requires forall j :: 0 <= j < 3 && j != i ==> Slot(done', j) == Slot(done, j)
    ensures SectorsSoFar(existing, patched, done')
  {
    var segs := MergeSegmentData(sectors[i].Segments, p.Segments);
    ApplySector(existing, sectors, done, done', i, p, segs);
    patched := sectors[i := Sector(sectors[i].Fields + p.Fields, segs)];
  }

  /** The array branch of the sector merge: `update.forEach((sector, i) => …)`. */
  method PatchArraySectors(ghost existing: Option<seq<Sector>>, initial: seq<Sector>, items: seq<Option<SectorPatch>>)
    returns (sectors: seq<Sector>)
    requires SectorsSoFar(existing, initial, Arr([]))
    ensures sectors == MergedSectors(existing, Arr(items))
  {
    sectors := initial;
    assert items[..0] == [];
    for i := 0 to |items|
      invariant SectorsSoFar(existing, sectors, Arr(items[..i]))
    {
      if i < 3 && items[i].Some? {
        sectors := PatchSectorAt(existing, sectors, Arr(items[..i]), Arr(items[..i + 1]), i, items[i].value);
      } else {
        SkipSector(existing, sectors, Arr(items[..i]), Arr(items[..i + 1]), i);
      }
    }
    assert items[..|items|] == items;
  }

  /** The object branch of the sector merge: `Object.entries(update).forEach(…)`,
    * in an unspecified key order. */
  method PatchKeyedSectors(ghost existing: Option<seq<Sector>>, initial: seq<Sector>, entries: map<int, Option<SectorPatch>>)
    returns (sectors: seq<Sector>)
    requires SectorsSoFar(existing, initial, KeyedDone(entries, entries.Keys))
    ensures sectors == MergedSectors(existing, Keyed(entries))
  {
    sectors := initial;
    var pending := entries.Keys;
    while pending != {}
      invariant pending <= entries.Keys
      invariant SectorsSoFar(existing, sectors, KeyedDone(entries, pending))
      decreases pending
    {
      Pick(pending);
      var i :| i in pending;
      var after := pending - {i};
      if 0 <= i < 3 && entries[i].Some? {
        sectors := PatchSectorAt(existing, sectors, KeyedDone(entries, pending), KeyedDone(entries, after), i, entries[i].value);
      } else {
        SkipSector(existing, sectors, KeyedDone(entries, pending), KeyedDone(entries, after), i);
      }
      pending := after;
    }
    assert KeyedDone(entries, {}) == Keyed(entries);
  }

  // ---------------------------------------------------------------------
  // Driver timing lines and the store
  // ---------------------------------------------------------------------

  /** `mergeDriverTiming(existing, update)` with `Date.now()` given as `now`:
    * the fields spread in order existing, update, `_timestamp`; the sectors
    * merged when the delta carries some, the existing ones otherwise. */
  ghost function MergedTiming(existing: Option<DriverTiming>, update: TimingPatch, now: int): DriverTiming {
    var prior := if existing.Some? then existing.value.Fields else map[];
    var priorSectors := if existing.Some? then existing.value.Sectors else None;
    DriverTiming(
      prior + update.Fields + map["_timestamp" := JNum(now)],
      if update.Sectors.Some? then Some(MergedSectors(priorSectors, update.Sectors.value)) else priorSectors)
  }

  /** `mergeDriverTiming`. */
  method MergeDriverTiming(existing: Option<DriverTiming>, update: TimingPatch, now: int) returns (r: DriverTiming)
    ensures r == MergedTiming(existing, update, now)
  {
    var prior := if existing.Some? then existing.value.Fields else map[];
    var priorSectors := if existing.Some? then existing.value.Sectors else None;
    r := DriverTiming(prior + update.Fields + map["_timestamp" := JNum(now)], priorSectors);
    if update.Sectors.Some? {
      var sectors := MergeSectorData(priorSectors, update.Sectors.value);
      r := r.(Sectors := Some(sectors));
    }
  }

  /** `state.DriverTiming[racingNumber]`, `undefined` as `None`. */
  function Lookup(m: map<string, DriverTiming>, racingNumber: string): Option<DriverTiming> {
    if racingNumber in m then Some(m[racingNumber]) else None
  }

  /** The store after `updateDriverTiming(drivers)`, once the racing numbers in
    * `done` have been merged against the state before the call; every other
    * racing number keeps its stored line. `clock(k)` is what `Date.now()`
    * reads while racing number `k` is merged. */
  ghost function UpdatedTimings(state: map<string, DriverTiming>, drivers: map<string, TimingPatch>,
                                done: set<string>, clock: string -> int): map<string, DriverTiming>
    requires done <= drivers.Keys
  {
    map k | k in state.Keys + done :: if k in done then MergedTiming(Lookup(state, k), drivers[k], clock(k)) else state[k]
  }

  /** Merging one more racing number is one more assignment. */
  lemma UpdatedTimingsStep(state: map<string, DriverTiming>, drivers: map<string, TimingPatch>,
                           done: set<string>, k: string, clock: string -> int)
    requires done <= drivers.Keys && k in drivers
    ensures UpdatedTimings(state, drivers, done + {k}, clock)
         == UpdatedTimings(state, drivers, done, clock)[k := MergedTiming(Lookup(state, k), drivers[k], clock(k))]
  {
    var after := UpdatedTimings(state, drivers, done + {k}, clock);
    var stepped := UpdatedTimings(state, drivers, done, clock)[k := MergedTiming(Lookup(state, k), drivers[k], clock(k))];
    assert after.Keys == stepped.Keys;
    forall x | x in after
      ensures after[x] == stepped[x]
    {
      if x != k {
        assert after[x] == UpdatedTimings(state, drivers, done, clock)[x];
      }
    }
  }

  class DriverTimingStore {
    var DriverTiming: map<string, DriverTiming>

    constructor()
      ensures DriverTiming == map[]
    {
      DriverTiming := map[];
    }

    /** `updateDriverTiming`: copies the record, then merges each racing number's
      * delta against the state as it was before the call, reading the clock
      * once per racing number. */
    method UpdateDriverTiming(drivers: map<string, TimingPatch>, clock: string -> int)
      modifies this
      ensures DriverTiming == UpdatedTimings(old(DriverTiming), drivers, drivers.Keys, clock)
    {
      var state := DriverTiming;
      var newDriverTiming := state;
      var pending := drivers.Keys;
      ghost var done: set<string> := {};
      assert state == UpdatedTimings(state, drivers, {}, clock);
      while pending != {}
        invariant done == drivers.Keys - pending
        invariant newDriverTiming == UpdatedTimings(state, drivers, done, clock)
        decreases pending
      {
        var racingNumber :| racingNumber in pending;
        var merged := MergeDriverTiming(Lookup(state, racingNumber), drivers[racingNumber], clock(racingNumber));
        UpdatedTimingsStep(state, drivers, done, racingNumber, clock);
        newDriverTiming := newDriverTiming[racingNumber := merged];
        done := done + {racingNumber};
        pending := pending - {racingNumber};
      }
      assert done == drivers.Keys;
      DriverTiming := newDriverTiming;
    }

    /** `getDriverTiming`: the stored line, `null` as `None` (a stored object is
      * always truthy). */
    function GetDriverTiming(racingNumber: string): (r: Option<DriverTiming>)
      reads this
      ensures r.Some? <==> racingNumber in DriverTiming
      ensures r.Some? ==> r.value == DriverTiming[racingNumber]
    {
      Lookup(DriverTiming, racingNumber)
    }
  }

  // ---------------------------------------------------------------------
  // Properties of the merge
  // ---------------------------------------------------------------------

  /** The two characterising properties of `Reach` determine it. */
  lemma ReachUnique<T>(u: Indexed<T>, r: nat)
    requires forall i :: 0 <= i && Slot(u, i).Some? ==> i < r
    requires r == 0 || Slot(u, r - 1).Some?
    ensures r == Reach(u)
  {
    var reach := Reach(u);
    if reach > 0 {
      assert reach - 1 < r;
    }
    if r > 0 {
      assert r - 1 < reach;
    }
  }

  /** With an update, the merged segment list is exactly as long as the longer
    * of the existing list and 1 + the highest index the update fills (it covers
    * both, and its last element is either an existing one or a filled one);
    * named segments are the prior one (or the filler) shallow-merged with the
    * update's, every other segment is kept, and every gap past the old end is
    * `{Status: 0}`. */
  lemma MergedSegmentsShape(existing: seq<Segment>, u: Indexed<Segment>)
    ensures var r := MergedSegments(existing, u);
      && |existing| <= |r|
      && (forall i :: 0 <= i && Slot(u, i).Some? ==> i < |r|)
      && (|r| == |existing| || Slot(u, |r| - 1).Some?)
      && (forall j :: 0 <= j < |existing| && Slot(u, j).None? ==> r[j] == existing[j])
      && (forall j :: |existing| <= j < |r| && Slot(u, j).None? ==> r[j] == ZeroSegment)
      && (forall j :: 0 <= j < |r| && Slot(u, j).Some? ==> r[j] == BaseSegment(existing, j) + Slot(u, j).value)
  {
  }

  /** Two updates that carry the same segments at the same indices, whatever
    * their shapes, give the same merged list. */
  lemma SameSlotsSameSegments(existing: seq<Segment>, u: Indexed<Segment>, v: Indexed<Segment>)
    requires forall i :: 0 <= i ==> Slot(u, i) == Slot(v, i)
    ensures MergedSegments(existing, u) == MergedSegments(existing, v)
  {
    ReachUnique(v, Reach(u));
  }

  /** `(b + p) + p == b + p`: spreading the same patch twice is spreading it once. */
  lemma PatchedTwice(base: Record, p: Option<Record>)
    ensures Patched(Patched(base, p), p) == Patched(base, p)
  {
    if p.Some? {
      assert (base + p.value) + p.value == base + p.value;
    }
  }

  /** Merging the same segment delta twice gives the same list as merging it once. */
  lemma SegmentMergeIdempotent(existing: seq<Segment>, update: Option<Indexed<Segment>>)
    ensures SegmentMerge(SegmentMerge(existing, update), update) == SegmentMerge(existing, update)
  {
    if update.Some? {
      var u := update.value;
      var once := MergedSegments(existing, u);
      var twice := MergedSegments(once, u);
      assert |twice| == |once|;
      forall j | 0 <= j < |once|
        ensures twice[j] == once[j]
      {
        PatchedTwice(BaseSegment(existing, j), Slot(u, j));
      }
    }
  }

  /** A sector slot that the update does not touch (index absent, sector falsy
    * or, in either shape, index outside 0..2 — which no slot 0..2 can be) keeps
    * the existing sector over the defaults, or is the default sector. */
  lemma UntouchedSectorKept(existing: Option<seq<Sector>>, u: Indexed<SectorPatch>, i: int)
    requires 0 <= i < 3 && Slot(u, i).None?
    ensures var r := MergedSectors(existing, u);
      && (existing.Some? && i < |existing.value| ==>
            r[i].Fields == DefaultSectorFields + existing.value[i].Fields && r[i].Segments == existing.value[i].Segments)
      && (existing.None? || i >= |existing.value| ==> r[i] == Sector(DefaultSectorFields, []))
  {
  }

  /** Within an updated sector, the update's fields win, all other prior fields
    * (defaults included) are kept, and the segments are the segment merge. */
  lemma UpdatedSectorFields(existing: Option<seq<Sector>>, u: Indexed<SectorPatch>, i: int)
    requires 0 <= i < 3 && Slot(u, i).Some?
    ensures var r := MergedSectors(existing, u); var p := Slot(u, i).value; var base := BaseSector(existing, i);
      && (forall k :: k in p.Fields ==> k in r[i].Fields && r[i].Fields[k] == p.Fields[k])
      && (forall k :: k in base.Fields && k !in p.Fields ==> k in r[i].Fields && r[i].Fields[k] == base.Fields[k])
      && r[i].Fields.Keys == base.Fields.Keys + p.Fields.Keys
      && r[i].Segments == SegmentMerge(base.Segments, p.Segments)
  {
  }

  /** Two sector patches carry the same content: the same fields and segments
    * that agree index by index, whatever shape each uses. */
  ghost predicate SamePatch(a: Option<SectorPatch>, b: Option<SectorPatch>) {
    if a.None? || b.None? then a.None? && b.None?
    else
      var p, q := a.value, b.value;
      && p.Fields == q.Fields
      && p.Segments.Some? == q.Segments.Some?
      && (p.Segments.Some? ==> forall i :: 0 <= i ==> Slot(p.Segments.value, i) == Slot(q.Segments.value, i))
  }

  /** Patching a sector with two patches of the same content gives the same sector. */
  lemma SamePatchSameSector(base: Sector, a: Option<SectorPatch>, b: Option<SectorPatch>)
    requires SamePatch(a, b)
    ensures PatchedSector(base, a) == PatchedSector(base, b)
  {
    if a.Some? && a.value.Segments.Some? {
      SameSlotsSameSegments(base.Segments, a.value.Segments.value, b.value.Segments.value);
    }
  }

  /** The merge does not depend on the shape of the delta: sector updates
    * that carry the same sectors (with segments in any shape) at the same
    * indices 0..2 give the same three sectors. */
  lemma ShapeIndependent(existing: Option<seq<Sector>>, u: Indexed<SectorPatch>, v: Indexed<SectorPatch>)
    requires forall i :: 0 <= i < 3 ==> SamePatch(Slot(u, i), Slot(v, i))
    ensures MergedSectors(existing, u) == MergedSectors(existing, v)
  {
    SamePatchSameSector(BaseSector(existing, 0), Slot(u, 0), Slot(v, 0));
    SamePatchSameSector(BaseSector(existing, 1), Slot(u, 1), Slot(v, 1));
    SamePatchSameSector(BaseSector(existing, 2), Slot(u, 2), Slot(v, 2));
  }

  /** An array update and the object keyed by its indices carry the same elements. */
  lemma ArrayAsKeyed<T>(items: seq<Option<T>>)
    ensures forall i :: 0 <= i ==> Slot(Arr(items), i) == Slot(Keyed(map i | 0 <= i < |items| :: items[i]), i)
  {
  }

  /** A sector delta sent as an array merges exactly like the object keyed
    * by its indices. */
  lemma ArrayMergesAsKeyed(existing: Option<seq<Sector>>, items: seq<Option<SectorPatch>>)
    ensures MergedSectors(existing, Arr(items)) == MergedSectors(existing, Keyed(map i | 0 <= i < |items| :: items[i]))
  {
    var keyed := Keyed(map i | 0 <= i < |items| :: items[i]);
    ArrayAsKeyed(items);
    ShapeIndependent(existing, Arr(items), keyed);
  }

  /** `{...d, ...(d + x)} == d + x`: re-spreading the defaults under fields that already hold them. */
  lemma DefaultsAbsorbed(fields: Record)
    ensures DefaultSectorFields + (DefaultSectorFields + fields) == DefaultSectorFields + fields
  {
  }

  /** Merging the same sector delta twice yields the same sectors as merging it once. */
  lemma SectorMergeIdempotent(existing: Option<seq<Sector>>, u: Indexed<SectorPatch>)
    ensures MergedSectors(Some(MergedSectors(existing, u)), u) == MergedSectors(existing, u)
  {
    var once := MergedSectors(existing, u);
    var twice := MergedSectors(Some(once), u);
    forall i | 0 <= i < 3
      ensures twice[i] == once[i]
    {
      var base := BaseSector(existing, i);
      BaseHoldsDefaults(existing, i);
      assert once[i] == PatchedSector(base, Slot(u, i));
      assert BaseSector(Some(once), i) == Sector(DefaultSectorFields + once[i].Fields, once[i].Segments);
      SlotIdempotent(base, Slot(u, i));
    }
  }

  /** An initialised sector already holds the defaults underneath its own fields. */
  lemma BaseHoldsDefaults(existing: Option<seq<Sector>>, i: int)
    ensures DefaultSectorFields + BaseSector(existing, i).Fields == BaseSector(existing, i).Fields
  {
    if existing.Some? && 0 <= i < |existing.value| {
      DefaultsAbsorbed(existing.value[i].Fields);
    } else {
      DefaultsAbsorbed(map[]);
      assert DefaultSectorFields + map[] == DefaultSectorFields;
    }
  }

  /** One slot of the sector merge applied twice: re-initialising a merged
    * sector over the defaults and patching it again changes nothing. */
  lemma SlotIdempotent(base: Sector, p: Option<SectorPatch>)
    requires DefaultSectorFields + base.Fields == base.Fields
    ensures var once := PatchedSector(base, p);
      PatchedSector(Sector(DefaultSectorFields + once.Fields, once.Segments), p) == once
  {
    match p {
      case None =>
      case Some(q) =>
        var fields := base.Fields + q.Fields;
        assert DefaultSectorFields + fields == fields;
        assert fields + q.Fields == fields;
        SegmentMergeIdempotent(base.Segments, q.Segments);
    }
  }

  /** A timing line's `Sectors` after the same delta twice are those after it once. */
  lemma TimingMergeIdempotent(existing: Option<DriverTiming>, update: TimingPatch, t1: int, t2: int)
    ensures MergedTiming(Some(MergedTiming(existing, update, t1)), update, t2).Sectors
         == MergedTiming(existing, update, t1).Sectors
  {
    if update.Sectors.Some? {
      var priorSectors := if existing.Some? then existing.value.Sectors else None;
      SectorMergeIdempotent(priorSectors, update.Sectors.value);
    }
  }

  /** `updateDriverTiming` leaves racing numbers absent from the update as they
    * were and adds the new ones. */
  lemma UpdateKeepsOthers(state: map<string, DriverTiming>, drivers: map<string, TimingPatch>, clock: string -> int)
    ensures var r := UpdatedTimings(state, drivers, drivers.Keys, clock);
      && r.Keys == state.Keys + drivers.Keys
      && (forall k :: k in state && k !in drivers ==> r[k] == state[k])
  {
  }

  /** An updated racing number holds the merge of its delta into its prior line. */
  lemma UpdatedLine(state: map<string, DriverTiming>, drivers: map<string, TimingPatch>, clock: string -> int, k: string)
    requires k in drivers
    ensures UpdatedTimings(state, drivers, drivers.Keys, clock)[k] == MergedTiming(Lookup(state, k), drivers[k], clock(k))
  {
  }

  /** A merged line carries the delta's fields and the timestamp, keeps the
    * prior fields the delta does not name, keeps its sectors when the delta
    * has none and has exactly three otherwise. */
  lemma MergedTimingEffect(existing: Option<DriverTiming>, update: TimingPatch, now: int)
    ensures var r := MergedTiming(existing, update, now);
      && r.Fields["_timestamp"] == JNum(now)
      && (forall f :: f in update.Fields && f != "_timestamp" ==> r.Fields[f] == update.Fields[f])
      && (forall f :: existing.Some? && f in existing.value.Fields && f !in update.Fields && f != "_timestamp" ==>
            r.Fields[f] == existing.value.Fields[f])
      && (update.Sectors.None? ==> r.Sectors == if existing.Some? then existing.value.Sectors else None)
      && (update.Sectors.Some? ==> r.Sectors.Some? && |r.Sectors.value| == 3)
  {
  }
}

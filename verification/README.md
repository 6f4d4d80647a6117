# F1 dashboard core, modelled in Dafny

This project models the core of an F1 live-timing dashboard. The dashboard is an Electron app. Its main process does two things:

- it connects to the Formula 1 live-timing SignalR feed;
- it forwards every topic of that feed to the renderer on an IPC channel of its own.

The renderer keeps one store per topic. Each store merges the partial updates the feed sends. The components read these stores to build the screen: the classification, the driver comparison table, the weather panel and the session countdown. The track map is built from the OpenF1 REST API instead of the feed. It picks a session, traces the lap of one driver from their location samples, and cuts the trace into three sectors.

The project has one Dafny module per source file of the core. There are four shared helper modules:

- `Wrappers`: `Option`, and `Outcome` for a call that returns or throws;
- `Json`: JSON values and JavaScript truthiness;
- `JsText`: `parseInt`, `Number` on integer text, `toString`, `padStart`, `split` and `join`;
- `Sorting`: the stable sort that `Array.prototype.sort` performs.

The stores are classes. Their fields are the store state, and their methods are the store actions, with `modifies` clauses. Each action is specified by a pure function of the old state. The lemmas about those functions state what the dashboard relies on:

- how a timing delta merges into a driver's timing line;
- that merging the same delta twice changes nothing;
- that lap histories keep one entry per lap and stay sorted;
- that the weather history never exceeds 100 readings;
- that toggling a driver keeps the comparison selection duplicate-free;
- that a formatted countdown time parses back to the same number of seconds;
- that every feed topic reaches the renderer on its own channel.

Things outside the process are parameters of the model:

- the clock (each `Date.now()` read becomes an integer argument, or a function when a loop reads it once per item);
- the network (negotiation, the socket opening, REST lookups that return or throw);
- the decoders (base64, gzip, raw DEFLATE, `JSON.parse`).

## Model

| member | source | states |
|---|---|---|
| DriverTimingStore.DriverTimingStore.UpdateDriverTiming | src/renderer/src/stores/driverTimingStore.ts:15-28 | The new timing map is the old one with each racing number in the delta replaced by the merge of its stored line (if any) with its delta, stamped with the clock read for that racing number. |
| DriverTimingStore.UpdateKeepsOthers | src/renderer/src/stores/driverTimingStore.ts:15-28 | After an update the store holds exactly the old racing numbers plus the updated ones. A line the delta does not mention is unchanged. |
| DriverTimingStore.UpdatedLine | src/renderer/src/stores/driverTimingStore.ts:19-25 | An updated racing number holds the merge of its previous line with its delta, whatever order the numbers are visited in. |
| DriverTimingStore.UpdatedTimingsStep | src/renderer/src/stores/driverTimingStore.ts:19-25 | Visiting one more racing number of the delta sets exactly that number's line to its merge. |
| DriverTimingStore.DriverTimingStore.GetDriverTiming | src/renderer/src/stores/driverTimingStore.ts:30-33 | A line is returned iff the racing number is stored, and it is the stored line. |
| DriverTimingStore.MergeDriverTiming | src/renderer/src/stores/driverTimingStore.ts:37-50 | Computes the merged timing line, the partner of `MergedTimingEffect`. |
| DriverTimingStore.MergedTimingEffect | src/renderer/src/stores/driverTimingStore.ts:37-50 | `_timestamp` is the time of the update. Every field of the delta wins, and every other stored field is kept. Without `Sectors` in the delta the stored sectors are kept; with them there are exactly three. |
| DriverTimingStore.TimingMergeIdempotent | src/renderer/src/stores/driverTimingStore.ts:37-93 | Merging the same delta a second time, at any time, leaves the sectors as the first merge made them. |
| DriverTimingStore.MergeSectorData | src/renderer/src/stores/driverTimingStore.ts:53-93 | The result always has three sectors and equals the sector merge of the stored sectors with the update, whether the update is an array or an object keyed by index. |
| DriverTimingStore.PatchArraySectors | src/renderer/src/stores/driverTimingStore.ts:69-78 | The array loop produces the sector merge of the update array. |
| DriverTimingStore.PatchKeyedSectors | src/renderer/src/stores/driverTimingStore.ts:79-90 | The keyed loop produces the sector merge of the keyed update, in any key order. |
| DriverTimingStore.UntouchedSectorKept | src/renderer/src/stores/driverTimingStore.ts:58-66 | A slot the update does not touch keeps the stored sector's fields over the defaults, and its segments. With no stored sector it is the default sector with no segments. |
| DriverTimingStore.UpdatedSectorFields | src/renderer/src/stores/driverTimingStore.ts:69-90 | In an updated slot the patch's fields win and the base fields are kept. The key set is their union, and the segments are the segment merge of the base segments with the patch's segments. |
| DriverTimingStore.ShapeIndependent | src/renderer/src/stores/driverTimingStore.ts:69-90 | Two updates that carry the same patch in each of the three slots give the same sectors, whether they are arrays or keyed objects. |
| DriverTimingStore.SectorMergeIdempotent | src/renderer/src/stores/driverTimingStore.ts:53-93 | Merging the same sector update into the result again gives the same sectors. |
| DriverTimingStore.MergeSegmentData | src/renderer/src/stores/driverTimingStore.ts:96-138 | The result is the segment merge. With no update the stored segments are returned unchanged. |
| DriverTimingStore.MergeArraySegments | src/renderer/src/stores/driverTimingStore.ts:120-126 | The array loop produces the segment merge of the update array. |
| DriverTimingStore.MergeKeyedSegments | src/renderer/src/stores/driverTimingStore.ts:128-136 | The keyed loop produces the segment merge of the keyed update, in any key order. |
| DriverTimingStore.PadWithFiller | src/renderer/src/stores/driverTimingStore.ts:121-124 | The list grows to cover index `i`. The old prefix is kept and every new slot is `{Status: 0}`. |
| DriverTimingStore.MergedSegmentsShape | src/renderer/src/stores/driverTimingStore.ts:102-137 | The result is at least as long as the stored list and reaches exactly the last updated index. An untouched stored segment is kept, an untouched gap is `{Status: 0}`, and an updated slot is its base spread with the patch. |
| DriverTimingStore.SameSlotsSameSegments | src/renderer/src/stores/driverTimingStore.ts:120-136 | An array update and a keyed update with the same present segments merge alike. |
| DriverTimingStore.SegmentMergeIdempotent | src/renderer/src/stores/driverTimingStore.ts:96-138 | Merging the same segment update twice equals merging it once. |
| DriverTimingStore.PatchedTwice | src/renderer/src/stores/driverTimingStore.ts:124 | Spreading the same patch twice equals spreading it once. |
| DriverTimingStore.ArrayAsKeyed | src/renderer/src/stores/driverTimingStore.ts:69-90 | An array reads, index by index, like the object keyed by its indices. |
| DriverTimingStore.ArrayMergesAsKeyed | src/renderer/src/stores/driverTimingStore.ts:69-90 | A sector delta sent as an array gives the same three sectors as the object keyed by its indices. |
| DriverTimingStore.DefaultsAbsorbed | src/renderer/src/stores/driverTimingStore.ts:58-66 | Spreading the default sector fields under a sector that already holds them changes nothing. |
| TrackMap.TargetKey | src/f1-client/trackMap/getTrackMap.ts:22-50 | There is no session key exactly when both years are empty. With current-year sessions the key is the last of them. Otherwise it is the key of last year's first race, or of last year's first session when no session is a race. |
| TrackMap.TargetSession | src/f1-client/trackMap/getTrackMap.ts:22-50 | If the current year has sessions, the last of them is chosen. Otherwise last year's first race is chosen, or last year's first session when it has no race. With no session in either year the result is a failure. The result agrees with `TargetKey`. |
| TrackMap.FindRace | src/f1-client/trackMap/getTrackMap.ts:32 | Returns the first session whose type is "Race", or none when there is no race. |
| TrackMap.GetTrackMap | src/f1-client/trackMap/getTrackMap.ts:11-93 | Fails exactly when the current-year lookup throws, or it is empty and the last-year lookup throws or is empty. The last year is only looked up when the current year is empty. Otherwise the positions are `FastestLap` of the `TargetKey` session, and the result holds the circuit key, the sector boundaries of those positions, and the first position as start line. With no positions these are no sectors and the zero start line. |
| TrackMap.GetFastestLapOfSession | src/f1-client/trackMap/getTrackMap.ts:94-180 | The result comes from the first position (P1 to P10) whose three lookups succeed, every earlier attempt having been skipped. When all ten attempts are skipped the result is empty. The result is `FastestLap` of the session (see `EmptyIffAllSkipped` for the converse). |
| TrackMap.FastestLapFromFirst | src/f1-client/trackMap/getTrackMap.ts:101-176 | `FastestLapFrom` a position is the samples of the first attempt from there to P10 that is not skipped, every earlier one being skipped. When every attempt is skipped it is empty. |
| TrackMap.AttemptNonEmpty | src/main/openf1/openf1Client.ts:224-234 | When the location lookup never returns an empty array, as `getLocation` guarantees, an attempt that is not skipped yields at least one sample. |
| TrackMap.EmptyIffAllSkipped | src/f1-client/trackMap/getTrackMap.ts:101-176 | When the location lookup never returns an empty array, the traced lap is empty exactly when all ten attempts are skipped. |
| TrackMap.ConvertLocations | src/f1-client/trackMap/getTrackMap.ts:150-158 | One track sample per location record, in order, each with the record's coordinates and its date as timestamp. |
| TrackMap.LapWindowSpan | src/f1-client/trackMap/getTrackMap.ts:131-137 | With a zero buffer the location window starts at the lap start and ends after the lap's duration in whole milliseconds. A `null` duration gives the window that ends at the start. |
| TrackMap.CalculateSectorBoundaries | src/f1-client/trackMap/getTrackMap.ts:182-207 | No samples give no sectors. Otherwise there are exactly three sectors, numbered 1, 2 and 3. |
| TrackMap.SectorBoundariesAt | src/f1-client/trackMap/getTrackMap.ts:182-207 | The three sectors start at samples 0, n/3 and 2n/3. Each ends just before the next one starts (or at sample 0 when that index is 0), and the last ends at the last sample. |
| TrackMap.ThirdsBalanced | src/f1-client/trackMap/getTrackMap.ts:186-188 | The cut points split n samples into three parts whose sizes differ by at most one. |
| TrackMap.NineSamples | src/f1-client/trackMap/getTrackMap.ts:182-207 | Nine samples give the sectors 0-2, 3-5 and 6-8. |
| TrackMap.OneSample | src/f1-client/trackMap/getTrackMap.ts:182-207 | With a single sample every sector starts and ends at it. |
| OpenF1Client.LocationQuery | src/main/openf1/openf1Client.ts:211-219 | When both dates are truthy, `start_date` and `end_date` are replaced by the range filters `date>` and `date<` and every other parameter is kept. Otherwise the parameters go through unchanged, and no parameters give an empty query. |
| OpenF1Client.GetLocation | src/main/openf1/openf1Client.ts:203-237 | An empty location array throws, and so does a failed request. Any other answer is returned unchanged, so a returned value is never empty. |
| LapHistoryStore.LapHistoryStore.AddLap | src/renderer/src/stores/lapHistoryStore.ts:27-48 | Only the driver's history changes, and it becomes the history with the lap added. |
| LapHistoryStore.AddedLap | src/renderer/src/stores/lapHistoryStore.ts:31-39 | The history with the lap added holds the old lap numbers plus the lap's, and no other. It has the same length exactly when the number was already there, and otherwise one more entry. |
| LapHistoryStore.AddNewLap | src/renderer/src/stores/lapHistoryStore.ts:37-39 | A lap with a new number grows the history by exactly that lap, and the result is sorted by lap number. |
| LapHistoryStore.AddKnownLap | src/renderer/src/stores/lapHistoryStore.ts:34-36 | A lap whose number is stored replaces only that entry with the merge, leaving every other entry and sortedness unchanged. |
| LapHistoryStore.AddLapDistinct | src/renderer/src/stores/lapHistoryStore.ts:27-48 | Adding a lap keeps the lap numbers distinct. |
| LapHistoryStore.UpsertDistinct | src/renderer/src/stores/lapHistoryStore.ts:93-98 | An upsert keeps lap numbers distinct and adds exactly the lap's number to the set of numbers. |
| LapHistoryStore.MergeLap | src/renderer/src/stores/lapHistoryStore.ts:36 | Every field the new lap sets wins, and optional fields it leaves out keep their old values. |
| LapHistoryStore.FindLapIndex | src/renderer/src/stores/lapHistoryStore.ts:31 | Returns the first index holding the lap number, or -1 iff no entry holds it. |
| LapHistoryStore.LapHistoryStore.UpdateLap | src/renderer/src/stores/lapHistoryStore.ts:50-64 | Only the driver's history changes, to `UpdatedLaps`. |
| LapHistoryStore.UpdatedLaps | src/renderer/src/stores/lapHistoryStore.ts:53-55 | Same length; entries with the lap number are patched and every other entry is unchanged. |
| LapHistoryStore.LapHistoryStore.GetLapHistory | src/renderer/src/stores/lapHistoryStore.ts:66-69 | The stored history without deleted laps; an unknown driver gives none. |
| LapHistoryStore.VisibleMembers | src/renderer/src/stores/lapHistoryStore.ts:68 | A lap is shown iff it is stored and not deleted. |
| LapHistoryStore.VisibleAppend | src/renderer/src/stores/lapHistoryStore.ts:68 | Filtering keeps order: the filter of a concatenation is the concatenation of the filters. |
| LapHistoryStore.LapHistoryStore.GetAllLapHistory | src/renderer/src/stores/lapHistoryStore.ts:71-74 | The stored history, deleted laps included; an unknown driver gives none. |
| LapHistoryStore.LapHistoryStore.UpdateFromStints | src/renderer/src/stores/lapHistoryStore.ts:76-109 | Only the driver's history changes: every convertible stint is upserted, then the history is sorted by lap number. |
| LapHistoryStore.FromStintFields | src/renderer/src/stores/lapHistoryStore.ts:83-91 | A converted stint keeps its lap number and time. It is new iff `New` is "true", deleted iff `LapFlags` is 0, has the parsed stint key as stint number, and is not a personal best. |
| LapHistoryStore.ApplyStintsDistinct | src/renderer/src/stores/lapHistoryStore.ts:80-103 | Lap numbers stay distinct, and the new set of numbers is the old one plus those of the convertible stints. |
| LapHistoryStore.LastStintWins | src/renderer/src/stores/lapHistoryStore.ts:93-98 | After the stints are applied, the last convertible stint is present with its fields. |
| LapHistoryStore.StintsSorted | src/renderer/src/stores/lapHistoryStore.ts:105 | For a history whose lap numbers are distinct, the history after the stints is strictly ascending by lap number. |
| WeatherStore.WeatherStore.constructor | src/renderer/src/stores/weatherStore.ts:15-23 | Every field starts at "0", `_kf` false, with an empty history. |
| WeatherStore.WeatherStore.UpdateWeather | src/renderer/src/stores/weatherStore.ts:24-43 | The fields take the reading's values, and the stamped reading joins the history, capped at 100. |
| WeatherStore.LastN | src/renderer/src/stores/weatherStore.ts:41 | Keeps the last n elements, or all of them when there are fewer. |
| WeatherStore.AppendedShape | src/renderer/src/stores/weatherStore.ts:41 | The new reading is last and the history stays within 100. Below the cap it grows by one; at the cap exactly the oldest reading is dropped. |
| WeatherStore.AppendedKeepsOrder | src/renderer/src/stores/weatherStore.ts:41 | Whatever the history's length, the earlier readings kept are its most recent ones, in order. |
| WeatherStore.WeatherStore.GetHistoryForField | src/renderer/src/stores/weatherStore.ts:44-52 | There is one point for each stored reading whose field is set and not "0", with that reading's timestamp and value, and no other point. Since the store keeps at most 100 readings (`Valid`, set by the constructor and kept by `UpdateWeather`), a chart has at most 100 points. |
| WeatherStore.FieldHistoryAppend | src/renderer/src/stores/weatherStore.ts:46-51 | The chart keeps the order of the history: the chart of a concatenation is the concatenation of the charts. |
| WeatherStore.FieldHistorySound | src/renderer/src/stores/weatherStore.ts:46-51 | Every point comes from a reading whose field is set and not "0". |
| WeatherStore.FieldHistoryComplete | src/renderer/src/stores/weatherStore.ts:46-51 | Every reading whose field is set and not "0" is charted. |
| DriverStore.DriverStore.UpdateDrivers | src/renderer/src/stores/driverStore.ts:13-37 | The store changes iff some driver's merged record differs from the stored one, or the driver is new. It then holds the merged drivers; otherwise it is unchanged. |
| DriverStore.UpdatedDriversEffect | src/renderer/src/stores/driverStore.ts:15-31 | The drivers are the old plus the updated ones. Untouched drivers are kept, new drivers are taken as sent, and for a known driver the update's fields win while its other fields are kept. |
| DriverStore.NoChangeSameDrivers | src/renderer/src/stores/driverStore.ts:27-35 | When no driver changes, the merge gives back the stored drivers. |
| DriverStore.UpdateIdempotent | src/renderer/src/stores/driverStore.ts:15-30 | Applying the same update again changes nothing. |
| DriverStore.UpdatedDriversStep | src/renderer/src/stores/driverStore.ts:17-30 | Visiting one more racing number sets exactly that driver to its merge. |
| DriverStore.UnchangedStep | src/renderer/src/stores/driverStore.ts:27-30 | A driver whose merge equals the stored record leaves the map as it is. |
| DriverStore.ChangedInStep | src/renderer/src/stores/driverStore.ts:27-30 | The change flag after one more driver is the old flag or that driver's change. |
| DriverStore.DriverStore.GetDriver | src/renderer/src/stores/driverStore.ts:39-42 | Returns a driver iff the number is stored, and it is the stored driver. |
| RaceControlMessagesStore.RaceControlMessagesStore.AddRaceControlMessage | src/renderer/src/stores/raceControlMessagesStore.ts:12-28 | The messages under `Messages` are set in order into the insertion-ordered map; with no `Messages` member nothing changes. |
| RaceControlMessagesStore.Set | src/renderer/src/stores/raceControlMessagesStore.ts:22 | `Map.set`: the value is replaced. A known key keeps its place and a new key goes last. |
| RaceControlMessagesStore.SetAllValid | src/renderer/src/stores/raceControlMessagesStore.ts:20-23 | Setting a batch keeps the key order duplicate-free and in step with the values. |
| RaceControlMessagesStore.SetAllValues | src/renderer/src/stores/raceControlMessagesStore.ts:20-23 | After a batch the values are the old ones overridden by the batch's last value per key. |
| RaceControlMessagesStore.SetAllKeys | src/renderer/src/stores/raceControlMessagesStore.ts:20-23 | The old keys keep their order at the front, and only keys that were new are appended. |
| RaceControlMessagesStore.LastValues | src/renderer/src/stores/raceControlMessagesStore.ts:20-23 | A key has a value iff some entry of the batch carries it. |
| RaceControlMessagesStore.DistinctEntriesStored | src/renderer/src/stores/raceControlMessagesStore.ts:20-23 | With distinct keys, every message of the batch is stored under its key. |
| RaceControlMessagesStore.LastValuesDistinct | src/renderer/src/stores/raceControlMessagesStore.ts:20-23 | With distinct keys, each key maps to its own entry. |
| PositionStore.PositionStore.UpdatePositionData | src/renderer/src/stores/positionStore.ts:24-61 | With no usable snapshot nothing changes. Otherwise the store holds the latest snapshot, and it reports a change iff that snapshot differs from what was stored. |
| PositionStore.PositionArray | src/renderer/src/stores/positionStore.ts:29-35 | A bare array is taken as the position list, and so is the `Position` member of a wrapper. Nothing else is. |
| PositionStore.Snapshot | src/renderer/src/stores/positionStore.ts:39-44 | An element gives a snapshot iff it is an object with truthy `Entries`. The snapshot holds its `Entries` and `Timestamp`. |
| PositionStore.LastElementOnly | src/renderer/src/stores/positionStore.ts:36-44 | Only the last element of the list matters. |
| PositionStore.WrappedLikeBare | src/renderer/src/stores/positionStore.ts:29-35 | A wrapped list gives the same snapshot as the bare list. |
| PositionStore.LastWithoutEntries | src/renderer/src/stores/positionStore.ts:36-44 | A last element without `Entries` gives no snapshot, wrapped or bare; earlier elements are not consulted. |
| PositionStore.SingleEntry | src/renderer/src/stores/positionStore.ts:45-51 | An object without a usable position list but with `Entries` is itself the snapshot. |
| PositionStore.NoShapeNoSnapshot | src/renderer/src/stores/positionStore.ts:24-51 | Scalars, the empty array and objects with neither shape give no snapshot. |
| DriverComparisonStore.DriverComparisonStore.ToggleDriver | src/renderer/src/stores/driverComparisonStore.ts:14-23 | A selected number is removed everywhere; an unselected one is appended. |
| DriverComparisonStore.RemoveAll | src/renderer/src/stores/driverComparisonStore.ts:19 | The removed number is gone, exactly the other numbers remain, and the list does not grow. |
| DriverComparisonStore.RemoveKeepsOthers | src/renderer/src/stores/driverComparisonStore.ts:19 | Every other number keeps all its occurrences, and the length drops by the removed number's count. |
| DriverComparisonStore.RemoveAbsent | src/renderer/src/stores/driverComparisonStore.ts:19 | Removing an unselected number changes nothing. |
| DriverComparisonStore.RemoveNoDuplicates | src/renderer/src/stores/driverComparisonStore.ts:19 | Removing keeps a duplicate-free selection duplicate-free. |
| DriverComparisonStore.ToggleNoDuplicates | src/renderer/src/stores/driverComparisonStore.ts:14-23 | Toggling keeps the selection duplicate-free. |
| DriverComparisonStore.ToggleTwice | src/renderer/src/stores/driverComparisonStore.ts:14-23 | Toggling an unselected number twice restores the selection; toggling a selected one twice moves it to the end. |
| DriverComparisonStore.RemoveAppended | src/renderer/src/stores/driverComparisonStore.ts:19 | Removing a number that was just appended undoes the append. |
| DriverComparisonStore.DriverComparisonStore.ClearSelection | src/renderer/src/stores/driverComparisonStore.ts:25-27 | The selection becomes empty. |
| DriverComparisonStore.DriverComparisonStore.IsDriverSelected | src/renderer/src/stores/driverComparisonStore.ts:29-31 | True iff some entry of the selection is the number. |
| DriverComparisonStore.DriverComparisonStore.GetSelectedCount | src/renderer/src/stores/driverComparisonStore.ts:33-35 | The count is the length of the selection. Because the selection stays duplicate-free (`Valid`, kept by the constructor, `ToggleDriver` and `ClearSelection`), it is also the number of distinct selected drivers. |
| DriverComparisonStore.DistinctCount | src/renderer/src/stores/driverComparisonStore.ts:33-35 | A duplicate-free list has as many entries as distinct values. |
| LapCountStore.LapCountStore.constructor | src/renderer/src/stores/lapCountStore.ts:9-10 | Both counts start at 0. |
| LapCountStore.LapCountStore.UpdateLapCount | src/renderer/src/stores/lapCountStore.ts:11-15 | Each count that is given, 0 included, replaces the stored one. Each count left out or `null` keeps its value, independently of the other. |
| CountdownTimer.DisplayTime | src/renderer/src/hooks/useCountdownTimer.ts:8-47 | No clock shows "00:00:00". A clock that is not extrapolating shows its `Remaining` text as is. An extrapolating clock shows a time that parses to the clamped remaining seconds. |
| CountdownTimer.RemainingSeconds | src/renderer/src/hooks/useCountdownTimer.ts:44-45 | Never negative; either 0 or the initial seconds minus the whole elapsed seconds. |
| CountdownTimer.RemainingNonIncreasing | src/renderer/src/hooks/useCountdownTimer.ts:44-45 | The countdown never goes up as time passes. |
| CountdownTimer.FormatTime | src/renderer/src/hooks/useCountdownTimer.ts:23-31 | Zero or negative seconds format as "00:00:00". |
| CountdownTimer.FormatTimeRoundTrip | src/renderer/src/hooks/useCountdownTimer.ts:15-31 | Parsing a formatted time gives back the seconds (0 for non-positive input). |
| CountdownTimer.PositiveRoundTrip | src/renderer/src/hooks/useCountdownTimer.ts:15-31 | For positive seconds, parse after format is the identity. |
| CountdownTimer.ParseFormatted | src/renderer/src/hooks/useCountdownTimer.ts:15-31 | The three padded fields of a time parse back to its seconds. |
| CountdownTimer.ParseTwoDigitFields | src/renderer/src/hooks/useCountdownTimer.ts:15-21 | Padded h, m and s joined by ':' parse to h*3600 + m*60 + s. |
| CountdownTimer.ParseHms | src/renderer/src/hooks/useCountdownTimer.ts:15-21 | "h:m:s" parses to h*3600 + m*60 + s. |
| CountdownTimer.ParseMissingParts | src/renderer/src/hooks/useCountdownTimer.ts:17-19 | Missing minutes or seconds count as 0. |
| CountdownTimer.ParseJoined | src/renderer/src/hooks/useCountdownTimer.ts:15-21 | Three colon-free numerals joined by ':' parse to their weighted sum. |
| CountdownTimer.ParseOnePart | src/renderer/src/hooks/useCountdownTimer.ts:15-21 | A single numeral is read as hours. |
| CountdownTimer.ParseTwoParts | src/renderer/src/hooks/useCountdownTimer.ts:15-21 | Two numerals are read as hours and minutes. |
| CountdownTimer.TwoDigitsShape | src/renderer/src/hooks/useCountdownTimer.ts:30 | A padded field has at least two characters, no ':', and parses back to its number. |
| CountdownTimer.SplitSeconds | src/renderer/src/hooks/useCountdownTimer.ts:26-28 | Hours, minutes and seconds recombine to the total. |
| CountdownTimer.ZeroRoundTrip | src/renderer/src/hooks/useCountdownTimer.ts:24 | "00:00:00" parses to 0. |
| MessageHandlers.ProcessMessage | src/f1-client/messageHandlers.ts:225-282 | What is sent is exactly `Sends` for the topic. |
| MessageHandlers.Sends | src/f1-client/messageHandlers.ts:225-282 | At most one message. An unknown topic sends nothing, and a direct topic sends its payload on its channel. |
| MessageHandlers.RouteExactlyKnown | src/f1-client/messageHandlers.ts:230-280 | A topic has a handler iff it is one of the sixteen known topics. |
| MessageHandlers.RouteInjective | src/f1-client/messageHandlers.ts:230-278 | Distinct topics go to distinct channels. |
| MessageHandlers.ChannelNamesTopic | src/f1-client/messageHandlers.ts:230-278 | A routed topic's channel names that topic back. |
| MessageHandlers.CompressedTopics | src/f1-client/messageHandlers.ts:234-239 | Exactly `CarData.z` and `Position.z` are decoded before sending. |
| MessageHandlers.SendsOnOwnChannel | src/f1-client/messageHandlers.ts:225-282 | Everything sent for a topic goes on that topic's channel. |
| MessageHandlers.Decoded | src/f1-client/messageHandlers.ts:34-54 | A bad base64 payload decodes to nothing. Otherwise gzip is used when it succeeds, and raw DEFLATE when it fails. |
| MessageHandlers.HandleCompressed | src/f1-client/messageHandlers.ts:34-80 | A decoded payload is sent once on the channel; a failure of both decoders sends nothing. |
| MessageHandlers.ProcessDebugMessage | src/f1-client/messageHandlers.ts:289-301 | The raw text is always forwarded first. It is then routed iff it parses to an object with truthy `type` and `payload`. |
| MessageHandlers.DebugRoute | src/f1-client/messageHandlers.ts:294-297 | A message is routed iff it parses to an object with truthy `type` and `payload`. |
| MessageHandlers.DebugUnparsable | src/f1-client/messageHandlers.ts:293-300 | Text that does not parse routes nothing. |
| MessageHandlers.Window.Send | src/f1-client/messageHandlers.ts:27 | One message is appended to what the window has received. |
| LiveTimingClient.LiveTimingClient.constructor | src/f1-client/liveTimingClient.ts:20-34 | Disconnected, with no socket; the log is open iff logging is enabled, and empty. |
| LiveTimingClient.LiveTimingClient.Status | src/f1-client/liveTimingClient.ts:48-52 | Connecting iff a start is under way. Connected iff not connecting and the socket is open. Disconnected otherwise. |
| LiveTimingClient.LiveTimingClient.Start | src/f1-client/liveTimingClient.ts:58-80 | Does nothing unless disconnected. A failed negotiation or socket error ends disconnected and rethrows; an opened socket ends connected. In debug mode the status is sent. |
| LiveTimingClient.LiveTimingClient.Stop | src/f1-client/liveTimingClient.ts:85-95 | Drops the socket, closes the log and leaves the client disconnected. |
| LiveTimingClient.LiveTimingClient.OnOpen | src/f1-client/liveTimingClient.ts:126-130 | Ends connecting; in debug mode "connected" is sent. |
| LiveTimingClient.LiveTimingClient.OnError | src/f1-client/liveTimingClient.ts:132-136 | Ends connecting; in debug mode "error" is sent. |
| LiveTimingClient.LiveTimingClient.OnClose | src/f1-client/liveTimingClient.ts:179-183 | Drops the socket and leaves the client disconnected; in debug mode "closed" is sent. |
| LiveTimingClient.LiveTimingClient.OnMessage | src/f1-client/liveTimingClient.ts:138-177 | The raw frame is logged when logging, whether or not it parses. The frame's `processMessage` calls are then made in order, and the connection state is untouched. |
| LiveTimingClient.LiveTimingClient.DispatchFrame | src/f1-client/liveTimingClient.ts:144-176 | Sends exactly what the frame's snapshot calls, then its feed calls, send. |
| LiveTimingClient.LiveTimingClient.DispatchFeed | src/f1-client/liveTimingClient.ts:164-173 | The feed loop sends what the feed's calls send, stopping at the first element that throws. |
| LiveTimingClient.LiveTimingClient.DispatchAll | src/f1-client/liveTimingClient.ts:148-173 | A sequence of calls sends the concatenation of their sends. |
| LiveTimingClient.SnapshotCalls | src/f1-client/liveTimingClient.ts:148-161 | One call per snapshot topic whose member is truthy, and no other call. |
| LiveTimingClient.DebugSnapshotTopics | src/f1-client/liveTimingClient.ts:256-260 | The debug connection dispatches only `DriverList` and `SessionInfo` from a snapshot. |
| LiveTimingClient.FirstAbort | src/f1-client/liveTimingClient.ts:165-172 | The index of the first feed element that throws, or the length when none does. |
| LiveTimingClient.FeedInOrder | src/f1-client/liveTimingClient.ts:164-173 | Without a throwing element every feed call is made, in order, and each comes from an element of the feed. |
| LiveTimingClient.AbortStops | src/f1-client/liveTimingClient.ts:164-176 | A throwing element ends the frame: only the calls before it are made. |
| LiveTimingClient.StepCallsSound | src/f1-client/liveTimingClient.ts:165-172 | Each feed call comes from a feed element that dispatches it. |
| LiveTimingClient.FeedMessageDispatches | src/f1-client/liveTimingClient.ts:166-170 | A `Streaming`/`feed` message with at least two arguments calls `processMessage(A[0], A[1])`. |
| LiveTimingClient.FrameDispatchesOf | src/f1-client/liveTimingClient.ts:148-173 | A parsed frame dispatches its snapshot calls, then its feed calls. |
| LiveTimingClient.NoFeed | src/f1-client/liveTimingClient.ts:164 | A frame whose `M` is not a non-empty array makes no feed calls. |
| LiveTimingClient.UnparsableFrame | src/f1-client/liveTimingClient.ts:174-176 | A frame that does not parse makes no calls. |
| LiveTimingClient.SendsAllAppend | src/f1-client/liveTimingClient.ts:148-173 | The sends of consecutive calls concatenate. |
| DriverComparisonPanel.SelectedDrivers | src/renderer/src/components/DriverComparison/DriverComparisonPanel.tsx:19-21 | A driver is listed iff some selected number has a driver entry, and it is that entry. The list is never longer than the selection. |
| DriverComparisonPanel.SelectedDriversAppend | src/renderer/src/components/DriverComparison/DriverComparisonPanel.tsx:19-21 | Resolving keeps the selection order. |
| DriverComparisonPanel.SelectedDriverOne | src/renderer/src/components/DriverComparison/DriverComparisonPanel.tsx:20-21 | A number without a driver entry is dropped; one with an entry yields that driver. |
| DriverComparisonPanel.LapHistoryData | src/renderer/src/components/DriverComparison/DriverComparisonPanel.tsx:24-50 | Exactly one row per lap on which a selected driver has a timed stint, each row the one the lap map holds, ordered from the latest lap to the earliest. |
| DriverComparisonPanel.BuildLapMap | src/renderer/src/components/DriverComparison/DriverComparisonPanel.tsx:27-45 | The outer loop builds the lap map of the selected drivers. |
| DriverComparisonPanel.AddDriverStints | src/renderer/src/components/DriverComparison/DriverComparisonPanel.tsx:31-44 | The inner loop adds one driver's stints to the lap map. |
| DriverComparisonPanel.LapMapFacts | src/renderer/src/components/DriverComparison/DriverComparisonPanel.tsx:27-45 | A row exists for a lap iff some selected driver has a timed stint on it. It holds a time and a compound for a number iff a selected driver with that number has a timed stint on that lap. |
| DriverComparisonPanel.AddStintsFacts | src/renderer/src/components/DriverComparison/DriverComparisonPanel.tsx:31-44 | One driver's stints create exactly the rows of their timed laps and set only that driver's entries. |
| DriverComparisonPanel.LastStintWins | src/renderer/src/components/DriverComparison/DriverComparisonPanel.tsx:41-42 | A driver's time and compound on a lap come from their last timed stint on that lap. |
| DriverComparisonPanel.ObjectValues | src/renderer/src/components/DriverComparison/DriverComparisonPanel.tsx:47 | Every row of the lap map exactly once, with distinct lap numbers. |
| DriverComparisonPanel.RowsOfReverse | src/renderer/src/components/DriverComparison/DriverComparisonPanel.tsx:47-49 | Reversing the ascending rows gives strictly descending lap numbers and keeps every row. |
| DriverComparisonPanel.LapTableAsWritten | src/renderer/src/components/DriverComparison/DriverComparisonPanel.tsx:17-28 | As written, the table throws iff a driver is selected, and otherwise is empty. |
| DriverComparisonPanel.AsWrittenLosesLaps | src/renderer/src/components/DriverComparison/DriverComparisonPanel.tsx:17-42 | One selected driver with one timed lap: the component as written throws, where the intended lap map has that lap's row. |
| DriverList.Position | src/renderer/src/components/DriverList.tsx:14-18 | A truthy string `Position` in the driver's timing line is parsed with `parseInt`, and a numeric one is used as it is. Without a truthy `Position` the driver's numeric `Line` is used. |
| DriverList.SortedDrivers | src/renderer/src/components/DriverList.tsx:12-22 | The drivers are sorted by position, and the result is a permutation of the input. |
| DriverList.Render | src/renderer/src/components/DriverList.tsx:12-30 | The placeholder is shown iff there are no drivers. Otherwise the rows are the sorted permutation. |
| DriverList.TiesKeepOrder | src/renderer/src/components/DriverList.tsx:12-22 | The sort is stable: of any two drivers with the same position, the one earlier in `Object.values(Drivers)` is shown before the other. |
| Sorting.SortBy | src/renderer/src/components/DriverList.tsx:12-22 | The result is sorted by key and is a permutation of the input. |
| Sorting.SortByStrict | src/renderer/src/stores/lapHistoryStore.ts:105 | With distinct keys the sort is strictly ascending. |
| Sorting.InsertAfterTies | src/renderer/src/components/DriverList.tsx:12-22 | An inserted element goes after every element with an equal key. |
| WeatherInfo.WindDirectionText | src/renderer/src/components/WeatherInfo.tsx:9-39 | An absent or empty direction shows "N/A", and every result is "N/A" or a compass point. |
| WeatherInfo.IntegerDirection | src/renderer/src/components/WeatherInfo.tsx:9-39 | Whole degrees 0-337 name the compass point of their nearest 45° bucket. |
| WeatherInfo.NorthOfNorthWestIsUnnamed | src/renderer/src/components/WeatherInfo.tsx:10-37 | As written, whole degrees 338-360 round to the 360° bucket and show "N/A". |
| WeatherInfo.ZeroIsNorth | src/renderer/src/components/WeatherInfo.tsx:9-21 | "0" shows N, and an empty direction shows "N/A". |
| WeatherInfo.IntegerBucket | src/renderer/src/components/WeatherInfo.tsx:10 | The bucket is a multiple of 45 within 22.5° of the direction. |
| WeatherInfo.CompassPoint | src/renderer/src/components/WeatherInfo.tsx:18-39 | The eight buckets 0-315 name N to NW. Any other bucket shows "N/A". |
| WeatherInfo.Round | src/renderer/src/components/WeatherInfo.tsx:10 | `Math.round`: the integer within half a unit, halves rounding up. |
| WeatherInfo.WindDirectionTextWrapped | src/renderer/src/components/WeatherInfo.tsx:9-39 | The corrected text: the 360° bucket wraps to N. An absent or empty direction still shows "N/A". |
| WeatherInfo.WrappedNamesEveryDirection | src/renderer/src/components/WeatherInfo.tsx:9-39 | Corrected, every whole direction 0-360 is named, by the point within 22.5° of it, and 338-360 show N. |
| WeatherInfo.WholeDegrees | src/renderer/src/components/WeatherInfo.tsx:9-39 | For whole degrees, the text is the compass point of the bucket, unwrapped as written and wrapped when corrected. |

## Left out

- I/O is not modelled: the message log file's creation and content, `console` output, and the `setInterval` timer that refreshes the countdown. The countdown is modelled as a function of the clock, the start time and the current time, rather than as the hook's `displayTime` state.
- Network I/O (the SignalR negotiation, the subscription, URLs, REST requests) is a parameter: each lookup either returns a value or throws. The client's reconnection is not part of this model.
- Socket events that arrive after `stop` are not modelled.
- Base64, gzip, raw DEFLATE and `JSON.parse` are parameters of the model, each of which may fail.
- Outside the renderer (no `window.api`) the session lookup throws. The model covers this as a session lookup that throws, so `GetTrackMap` fails. The same check in `getFastestLapOfSession` cannot fail once the session lookup has returned, so it is not modelled.
- Numbers are integers, except a lap's duration, which is a real. Floating-point rounding, `NaN`, `Infinity` and the exponent and hexadecimal forms of `Number` are not modelled.
- `parseInt` is not modelled on text with leading whitespace, or on a value that is neither a string nor a number, such as an array.
- DriverList.Position: a `Position` that is neither a string nor a number, or a `Line` that is missing or not a number, yields no position, and a missing position sorts as 0. JavaScript would give `NaN`, for which the comparator is inconsistent.
- WeatherInfo.DecimalNumeral: `Number` trims surrounding whitespace, and reads text that is only whitespace as 0. The model reads such text as not a number. A `WindDirection` of " " therefore shows "N" in JavaScript but "N/A" in the model.
- RaceControlMessagesStore.RaceControlMessagesStore.AddRaceControlMessage: a `Messages` member that is `null` makes `Object.keys` throw inside `set`. The store is then left as it was and the error reaches the caller. The model reads `null` like an absent member, so it also leaves the store unchanged, but it raises no error.
- LiveTimingClient.StepOf: JavaScript also dispatches a feed message whose `A` is an object with a numeric `length` above 1, passing its members "0" and "1". The model skips such a message.
- LapHistoryStore.StintsSorted, LapHistoryStore.AddKnownLap, LapHistoryStore.AddLapDistinct: distinct lap numbers are kept by `addLap` and `updateFromStints`, but not by `updateLap`. An `updateLap` patch that sets `lapNumber` can give two stored laps the same number, and the history after the stints is then sorted only non-strictly.
- DriverStore.RacingNumberOf: a `RacingNumber` that is not a string is treated as the key "undefined", where JavaScript would use its string form.
- Object key order (`Object.keys`, `Object.entries`, `Object.values`, `for … in`) is not fixed by the model. The merges are proved for every visiting order, and `Object.values` is specified as any order, because the rows are sorted afterwards.
- `JSON.stringify` comparison in the driver and position stores is modelled as structural equality. This differs only where key order differs.
- Only array-shaped stored sectors and segments are modelled. Every stored sector list and segment list comes out of the merge as an array. So the keyed-existing branches are not modelled: `existing?.[i.toString()]` in `mergeSectorData` (src/renderer/src/stores/driverTimingStore.ts:65), and its counterpart in `mergeSegmentData`.
- A negative segment or sector index is not modelled: JavaScript would write it as a named property, not as an element.
- A falsy `Sectors` value in a delta is modelled as an absent one.
- LapHistoryStore.LapHistoryStore.UpdateFromStints: the in-place aliasing between the laps it builds and the stored history is not modelled; the model works on values.
- Each `Date.now()` read is a parameter: an integer where it is read once, and a function of the racing number in `updateDriverTiming`, which reads it once per driver. ISO date strings are epoch milliseconds, and the location window is a pair of integers.
- Weather: `_kf` is an `Option<bool>` field. The Fahrenheit conversion (`toFixed`) and the rain icon are presentation only and are not modelled.
- The stores that only assign what they receive, and the presentational parts of the components, are not modelled.

## Findings

| source | as written | input that shows it | evidently intended | confidence | as-written member | corrected member |
|---|---|---|---|---|---|---|
| src/renderer/src/components/DriverComparison/DriverComparisonPanel.tsx:17 | Selects `state.TimingAppData`, but the timing-app store's field is `timingAppData` (src/renderer/src/stores/timingAppDataStore.ts:5). The selection is therefore `undefined`, and line 28 throws a TypeError once any driver is selected. | Driver "1" selected, with a stint on lap 5 with lap time "1:31.456" | The table lists every timed lap of the selected drivers, latest first | not executed | DriverComparisonPanel.LapTableAsWritten, DriverComparisonPanel.AsWrittenLosesLaps | DriverComparisonPanel.LapHistoryData |
| src/renderer/src/components/WeatherInfo.tsx:10 | Directions of 337.5° and above round to the bucket "360°", which no case of the switch at lines 18-39 names, so the text is "N/A" | Wind direction "350" | Bucket 360° is north, so "N" is shown | not executed | WeatherInfo.WindDirectionText, WeatherInfo.NorthOfNorthWestIsUnnamed | WeatherInfo.WindDirectionTextWrapped, WeatherInfo.WrappedNamesEveryDirection |

A feed frame whose elements are dispatched one by one is abandoned at the first element that fails, by the `catch` at src/f1-client/liveTimingClient.ts:174-176. The calls already made for earlier elements stay made. `LiveTimingClient.AbortStops` states this.

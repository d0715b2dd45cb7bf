# Tracker-Dashboard, modelled in Dafny

A model of the client-side bookkeeping of the fleet-tracking dashboard
c-njoro/Tracker-Dashboard. It covers:

- the live technician page (`src/pages/index.tsx`): the initial snapshot
  turned into a record keyed by `_id`, the merge of each flat stream event
  into the technician it names, the connection status, and the array handed
  to the map, list and counters;
- the vehicle stream hook (`src/hooks/useVehicleSSE.ts`), whose merge is a
  shallow spread that also creates unknown vehicles;
- the trip mini-map (`src/components/MiniMap.tsx`): stable time sort, the
  greedy distance filter `cleanPings`, speed colours, the drawn segments and
  the zoom-driven map-type switch;
- the live map (`src/components/LiveMap.tsx`): the 32-bit string hash behind
  each technician's colour, the icon choice, the marker dictionary the marker
  effect creates, moves and deletes, the tile-layer switch, and the fly-to
  guard;
- the trip-history figures (`src/components/TripHistory.tsx`), the top-bar
  counters (`src/components/StatsBar.tsx`), the freshness rules of both list
  views (`src/components/TechniciansList.tsx`,
  `src/components/VehicleList.tsx`), and the filters and guards of the shift
  page (`src/pages/shifts.tsx`).

Each source file has its own module:

| file | module |
|---|---|
| `src/pages/index.tsx` | `Dashboard` (class `DashboardState`) |
| `src/hooks/useVehicleSSE.ts` | `VehicleSse` (class `VehicleFeed`) |
| `src/components/MiniMap.tsx` | `MiniMap` |
| `src/components/LiveMap.tsx` | `LiveMap` (class `MarkerLayer`) |
| `src/components/TripHistory.tsx` | `TripHistory` |
| `src/components/StatsBar.tsx` | `StatsBar` |
| `src/components/TechniciansList.tsx` | `TechniciansList` |
| `src/components/VehicleList.tsx` | `VehicleList` |
| `src/pages/shifts.tsx` | `Shifts` |

Shared modules hold the JavaScript semantics the code relies on:

- `Js`: `undefined`/`null`/value, `??`, and truthiness.
- `Seqs`: `filter`, `find`, and order-preserving subsequences.
- `Records`: an object filled from an array, where the last duplicate key
  wins and `Object.values` follows first insertion.
- `Fleet`: the technician shape.
- `EventStream`: the three-state connection status.
- `Pings`: the history ping shape.

The state that React keeps in state cells and refs is modelled as classes:

- `DashboardState` for the technician page;
- `VehicleFeed` for the vehicle hook;
- `MarkerLayer` for the map's marker dictionary, layer references and
  map-ready flag.

Each stream callback, each fetch result and each effect run is a method call
on these classes. Loops in the source are `while` loops proved against
specification functions:

- `cleanPings` → `CleanPings`;
- `hashStringToIndex` → `HashStringToIndex`;
- the vehicle snapshot `forEach` → `BuildSnapshot`;
- the two loops of the marker effect → `UpsertLoop` and `RemoveMissing`.

The code's other computations are functions.

Parameters stand in for everything foreign:

- the haversine distance (`dist`);
- the equirectangular leg of the trip distance (`leg`);
- `JSON.parse` (`parse`, `None` where it throws);
- `new Date(ts).getTime()` (`parseTime`);
- `new Date(s).toISOString()` (`toIso`);
- the clock, in integer milliseconds. Each source reading is its own parameter: the trip-history window reads it twice (`nowFrom`, `nowTo`), and each list row reads it once (`clock(i)` for row `i`).

Timestamps of history pings are held as integer milliseconds.

Where the specification of the system and the code differ, the model follows the code:

- Cleaning keeps the first ping but not necessarily the last. The track's
  "first and last point preserved" invariant holds only for the first point.
  In the three-ping history scenario, the first ping is kept and the second is
  dropped.
- The trip-history figures are computed over the raw fetched pings: unsorted,
  not noise-filtered, with an equirectangular leg and not haversine.
- The vehicle hook creates entries for unknown ids. Only the technician page
  drops them (ids that are own keys of the record; inherited names are under
  "## Left out").
- The array passed to the map, list and counters is set by the snapshot load
  alone. Stream merges change only the record, which only the selected-panel
  lookup reads.

## Model

| member | source | states |
|---|---|---|
| Dashboard.Merge | src/pages/index.tsx:74-91 | `_id` and `isActive` are kept. Each of name, employeeId, userId and inShift is replaced exactly when the event carries a non-null value for it. `lastSeen` becomes an object, and each of its five fields is the event's value when present, else the prior value. |
| Dashboard.RecordKey | src/pages/index.tsx:70 | `prev[update.technicianId]` looks up a string id as itself, `null` as the key "null" and a missing id as "undefined". |
| Dashboard.ApplyUpdate | src/pages/index.tsx:69-97 | An event whose `technicianId` is not a key leaves the record unchanged. Otherwise the key set and every other entry are unchanged, and the named entry is the merge. |
| Dashboard.ApplyUpdateKeepsKeying | src/pages/index.tsx:93-96 | Every entry stays stored under its own `_id` after a merge. |
| Dashboard.MergeIdempotent | src/pages/index.tsx:69-97 | Applying the same event twice gives the same technician and the same record as applying it once. |
| Dashboard.FalsyValuesOverwrite | src/pages/index.tsx:81-89 | A present `0` speed and a present `false` `inUse` do overwrite, because the merge uses `??` and not `\|\|`. |
| Dashboard.SpeedOnlyScenario | src/pages/index.tsx:83-90 | A technician at (1, 1) with speed 0 that receives a speed-only event of 12 changes only its speed. Heading and timestamp stay absent. |
| Dashboard.SnapshotRecord | src/pages/index.tsx:38-40 | The snapshot record stores each technician under its own `_id`. Every fetched technician's id is a key, and every entry is one of the fetched technicians. |
| Dashboard.SnapshotLaterDuplicateWins | src/pages/index.tsx:38-40 | When `_id`s repeat, the last technician with that `_id` is the one stored. |
| Dashboard.SnapshotList | src/pages/index.tsx:41 | `Object.values(record)` has one entry per key, with pairwise distinct ids, and each is the record's entry for its id. |
| Dashboard.DashboardState.constructor | src/pages/index.tsx:20-28 | The page starts with an empty record, an empty array and status `connecting`. |
| Dashboard.DashboardState.LoadSnapshot | src/pages/index.tsx:32-46 | A settled fetch replaces the record with the snapshot record and the array with its values. A failed fetch changes nothing. The status is untouched. |
| Dashboard.DashboardState.OnOpen | src/pages/index.tsx:62 | The status becomes `live`. The record and the array are unchanged. |
| Dashboard.DashboardState.OnError | src/pages/index.tsx:63 | The status becomes `error`. The record is kept: stale data is preferred over none. |
| Dashboard.DashboardState.OnMessage | src/pages/index.tsx:64-101 | Empty or `:`-prefixed data, and data that does not parse, leave the record unchanged. Otherwise the record becomes `ApplyUpdate` of the parsed event. The array and the status never change. |
| Dashboard.DashboardState.SelectedTechnician | src/pages/index.tsx:107 | The side panel's technician exists exactly for a non-empty selected id that is a key of the record, and is read from the record. |
| EventStream.Transition | src/pages/index.tsx:62-63 | An open signal leads to `live` and an error signal to `error`, from any status. The status never returns to `connecting`. |
| EventStream.IsContentFree | src/pages/index.tsx:65 | A message is skipped exactly when its data is empty or starts with `:`. The same test is at src/hooks/useVehicleSSE.ts:39. |
| EventStream.StatusAfterLatest | src/hooks/useVehicleSSE.ts:11-36 | The status is `connecting` exactly when no signal has arrived. Otherwise it is determined by the latest signal alone. |
| Records.IndexBy | src/hooks/useVehicleSSE.ts:21-22 | The filled object's keys are exactly the keys of the array's elements. Each entry is an element of the array stored under its own key. |
| Records.IndexByLastWins | src/hooks/useVehicleSSE.ts:21-22 | The last element with a given key is the one stored under it. |
| Records.InsertionKeys | src/pages/index.tsx:41 | The keys in first-insertion order are duplicate-free and are exactly the object's keys. |
| Records.DistinctCardinality | src/pages/index.tsx:41 | A duplicate-free key list has as many members as its set. |
| Records.Values | src/pages/index.tsx:41 | `Object.values` has one element per key, taken in insertion order. |
| VehicleSse.ApplyVehicleUpdate | src/hooks/useVehicleSSE.ts:42-45 | The keys become the old keys plus the event's `vehicleId` key, and an unknown id gets exactly the event's fields. For a known id, the event's fields win and the fields it lacks keep their values. All other vehicles are unchanged. |
| VehicleSse.ToPropertyKey | src/hooks/useVehicleSSE.ts:22 | `String(v)` as a property key: a string is itself, and a number is its text. `null`, booleans and objects give "null", "true"/"false" and "[object Object]", and an empty array gives "". |
| VehicleSse.VehicleKey | src/hooks/useVehicleSSE.ts:44 | An update without `vehicleId` is stored under "undefined". A string or number `vehicleId` is the key, as written. |
| VehicleSse.ApplyVehicleUpdateIdempotent | src/hooks/useVehicleSSE.ts:42-45 | Applying the same event twice equals applying it once. |
| VehicleSse.NullOverwrites | src/hooks/useVehicleSSE.ts:44 | An explicit `null` in an event replaces the stored value, because the spread copies it. |
| VehicleSse.BuildSnapshot | src/hooks/useVehicleSSE.ts:20-24 | The `forEach` loop builds the keyed object: a later element with the same `vehicleId` overwrites, and every element's key is present. |
| VehicleSse.VehicleFeed.constructor | src/hooks/useVehicleSSE.ts:10-11 | The hook starts with no vehicles and status `connecting`. |
| VehicleSse.VehicleFeed.LoadSnapshot | src/hooks/useVehicleSSE.ts:15-26 | A settled fetch replaces the vehicles with the keyed snapshot. A failed fetch changes nothing. |
| VehicleSse.VehicleFeed.OnOpen | src/hooks/useVehicleSSE.ts:35 | The status becomes `live`. The vehicles are unchanged. |
| VehicleSse.VehicleFeed.OnError | src/hooks/useVehicleSSE.ts:36 | The status becomes `error`. The vehicles are unchanged. |
| VehicleSse.VehicleFeed.OnMessage | src/hooks/useVehicleSSE.ts:38-47 | Keep-alive, empty and unparseable messages are no-ops. Any other message applies the shallow-spread merge. |
| MiniMap.Scan | src/components/MiniMap.tsx:45-52 | The indices the greedy scan keeps are in range and strictly increasing. |
| MiniMap.KeptIndices | src/components/MiniMap.tsx:40-55 | The indices `cleanPings` keeps are in range and strictly increasing. For a non-empty input they start at 0. |
| MiniMap.CleanPings | src/components/MiniMap.tsx:40-55 | The loop that pushes onto `cleaned` returns exactly `Clean` of its input. |
| MiniMap.Clean | src/components/MiniMap.tsx:40-55 | `cleanPings` returns at most as many pings as it gets. For a non-empty input its first ping is the input's first. |
| MiniMap.Track | src/components/MiniMap.tsx:99-106 | The cleaned copy of the time-sorted pings is empty below two pings. Otherwise it holds between one ping and as many as the input. |
| MiniMap.CleanShortInput | src/components/MiniMap.tsx:41 | Fewer than two pings come back unchanged. |
| MiniMap.CleanKeepsFirst | src/components/MiniMap.tsx:43 | The first input ping is the first output ping. |
| MiniMap.CleanIsSubsequence | src/components/MiniMap.tsx:45-52 | The output is an order-preserving subsequence of the input. |
| MiniMap.ScanSpacing | src/components/MiniMap.tsx:46-50 | Each index the scan keeps is at least `minD` from the index kept before it. |
| MiniMap.CleanSpacing | src/components/MiniMap.tsx:49-50 | Each kept ping after the first is at least `minDistance` from the ping kept before it. |
| MiniMap.ScanDropped | src/components/MiniMap.tsx:46-51 | An index the scan skips is closer than `minD` to the last index kept before it. |
| MiniMap.CleanDropped | src/components/MiniMap.tsx:46-51 | Each dropped ping was closer than `minDistance` to the last kept ping when it was examined. |
| MiniMap.InsertByTime | src/components/MiniMap.tsx:101-104 | Inserting into a time-sorted list keeps it sorted and adds exactly the new ping. |
| MiniMap.SortByTime | src/components/MiniMap.tsx:101-104 | The time sort yields an ascending permutation of its input. The caller's sequence is a value and is not reordered. |
| MiniMap.InsertByTimeStable | src/components/MiniMap.tsx:101-104 | An inserted ping goes in front of every ping with the same time, and those keep their order. |
| MiniMap.SortByTimeStable | src/components/MiniMap.tsx:101-104 | The sort is stable, as `Array.prototype.sort` is: for every time, the pings with that time appear in their input order. This decides which of two equal-time pings cleaning keeps. |
| MiniMap.Path | src/components/MiniMap.tsx:98-119 | The path is empty for fewer than two pings and non-empty otherwise. It has one point per cleaned, sorted ping, carrying that ping's position and speed. |
| MiniMap.TrackTimeOrdered | src/components/MiniMap.tsx:99-106 | The cleaned track is ascending in time, contains only input pings, and starts at an earliest ping. |
| MiniMap.TrackSpacing | src/components/MiniMap.tsx:106 | Consecutive track points are at least the default 8 m apart. |
| MiniMap.SpeedToColor | src/components/MiniMap.tsx:58-62 | The colour is green below 10, yellow from 10 up to 40, and red from 40 on. A missing speed counts as 0. |
| MiniMap.SpeedBandsMonotone | src/components/MiniMap.tsx:58-62 | A faster speed never gets a slower band. An undefined speed is green. |
| MiniMap.Segments | src/components/MiniMap.tsx:181-193 | There is one segment fewer than there are points. Segment i joins point i to point i+1 and is coloured by the speed of point i+1. |
| MiniMap.SegmentsChain | src/components/MiniMap.tsx:181-196 | The segments form one connected line from the start marker to the end marker. |
| MiniMap.ZoomedMapType | src/components/MiniMap.tsx:166-171 | Zooming changes the map type only from roadmap at zoom 18 or more, and then to satellite. |
| MiniMap.InitialMapType | src/components/MiniMap.tsx:82-92 | After the restore effect, a saved "roadmap" or "satellite" is used, and anything else, including nothing saved, leaves the initial "hybrid". |
| LiveMap.ToInt32 | src/components/LiveMap.tsx:32 | `\|= 0` gives a signed 32-bit value congruent to its argument modulo 2^32. |
| LiveMap.StringHash | src/components/LiveMap.tsx:28-33 | The hash is a signed 32-bit value. |
| LiveMap.HashIndex | src/components/LiveMap.tsx:35 | `Math.abs(hash) % modulo` lies in `[0, modulo)`. |
| LiveMap.ShiftStep | src/components/LiveMap.tsx:31-32 | One step `(hash << 5) - hash + c`, wrapped to 32 bits, equals `31 * hash + c` wrapped to 32 bits. |
| LiveMap.HashStringToIndex | src/components/LiveMap.tsx:27-36 | The loop computes `HashIndex`: hash 0, folded with `31 * hash + code` under a 32-bit wrap. The result lies in `[0, modulo)`. |
| LiveMap.TechnicianColor | src/components/LiveMap.tsx:38-41 | A technician's colour is one of the ten palette entries, chosen by the hash of its id alone. |
| LiveMap.TechnicianIcon | src/components/LiveMap.tsx:43-46 | The icon is 44 px with a halo when selected, and 36 px without one otherwise. It uses the id's colour, and a missing heading counts as 0. |
| LiveMap.Upsert | src/components/LiveMap.tsx:207-225 | A technician without truthy lat and lng leaves the markers alone. An existing marker is moved and re-iconed in place. A new one gets the next handle and is bound to its own id. |
| Fleet.HasPosition | src/components/LiveMap.tsx:208 | A technician gets a marker only when it reports both coordinates, neither of them 0. |
| Fleet.Heading | src/components/LiveMap.tsx:46 | The arrow's rotation is the reported heading, or 0 without one. |
| LiveMap.UpsertAll | src/components/LiveMap.tsx:207-250 | After the first loop, the marker keys are the old keys plus the positioned technicians. Old handles and click bindings are kept, new handles come from the counter, and markers of unpositioned technicians are untouched. |
| LiveMap.UpsertKeepsHandlesValid | src/components/LiveMap.tsx:216-225 | One step keeps handles distinct, below the counter, and bound to their key. |
| LiveMap.UpsertAllKeepsHandlesValid | src/components/LiveMap.tsx:207-250 | The whole first loop keeps handles distinct, below the counter, and bound to their key. |
| LiveMap.UpsertAllLastPositionWins | src/components/LiveMap.tsx:207-225 | A marker shows the position and icon of the last positioned technician with its id. |
| LiveMap.Prune | src/components/LiveMap.tsx:253-258 | The markers kept are exactly those whose id names a listed technician, with their values unchanged. |
| LiveMap.UpsertLoop | src/components/LiveMap.tsx:207-250 | The `forEach` over the technicians computes `UpsertAll`. |
| LiveMap.RemoveMissing | src/components/LiveMap.tsx:253-258 | The loop over the marker keys, with its `find` test, computes `Prune`. |
| LiveMap.MarkerLayer.constructor | src/components/LiveMap.tsx:106-112 | The component starts with no map, no markers and the street mode. |
| LiveMap.BaseTiles | src/components/LiveMap.tsx:71-91 | Every base layer has an attribution and maximum zoom 19. The street tiles are used exactly in map mode, and the imagery URL in satellite and hybrid modes. A base layer is never the label overlay. |
| LiveMap.MarkerLayer.MapLoaded | src/components/LiveMap.tsx:115-146 | Initialisation runs once and shows the street tiles, whatever the mode. A second call changes nothing. |
| LiveMap.MarkerLayer.SetLayerMode | src/components/LiveMap.tsx:158-200 | With the map ready and a new mode, the base layer is the mode's tiles, and the label overlay exists exactly in hybrid mode. Before the map exists only the mode changes. The markers are untouched. |
| LiveMap.MarkerLayer.Sync | src/components/LiveMap.tsx:203-259 | Without a map nothing changes. Otherwise every marker key is a listed id and every positioned technician has a marker. A listed technician without a position keeps its marker. Surviving handles are the same objects, with the same click binding. |
| LiveMap.MarkerLayer.FlyTarget | src/components/LiveMap.tsx:262-275 | The map flies, at zoom 15, only with a ready map and a non-empty selected id. The target is the position of the first listed technician with that id, which must have truthy lat and lng. |
| TripHistory.RangeHours | src/components/TripHistory.tsx:31 | "1h" is 1 hour, "6h" is 6 hours, and anything else is 24. |
| TripHistory.HistoryWindow | src/components/TripHistory.tsx:31-33 | `to` is the second clock reading, and `from` lies the range's hours × 3,600,000 ms before the first. If the clock does not run backwards, the window is at least that long. With equal readings it is exactly that long. |
| TripHistory.MaxSpeed | src/components/TripHistory.tsx:47 | The maximum is at least 1 and at least every speed, with a missing speed counted as 0. It is 1 or some ping's speed. |
| TripHistory.AvgSpeed | src/components/TripHistory.tsx:48-52 | There is no average (shown as "–") exactly when there are no pings. Otherwise the average times the count is the sum of the speeds. |
| TripHistory.SpeedSumAtMost | src/components/TripHistory.tsx:49 | A sum of n speeds, each at most m, is at most n·m. |
| TripHistory.SpeedSumNonnegative | src/components/TripHistory.tsx:49 | A sum of speeds none of which is negative is not negative. |
| TripHistory.AvgBelowMax | src/components/TripHistory.tsx:47-52 | The average never exceeds the maximum. |
| TripHistory.AvgNonnegative | src/components/TripHistory.tsx:48-52 | With no negative speed, the average is not negative. |
| TripHistory.LegSum | src/components/TripHistory.tsx:56-66 | The sum of consecutive legs is 0 below two pings, and not negative when no leg is. |
| TripHistory.AccumulateIsLegSum | src/components/TripHistory.tsx:57-66 | Every prefix of the reduce, with index 0 contributing nothing, equals the sum of the prefix's consecutive legs. |
| TripHistory.DistanceIsLegSum | src/components/TripHistory.tsx:53-67 | The distance is exactly the sum of consecutive legs. It is 0 for fewer than two pings, and not negative when no leg is. |
| TripHistory.Accumulate | src/components/TripHistory.tsx:57-66 | The running total of the reduce is 0 after at most one index, and never negative when no leg is. |
| TripHistory.Distance | src/components/TripHistory.tsx:53-67 | The `distance` memo is 0 for fewer than two pings, and never negative when no leg is. |
| TripHistory.ChartX | src/components/TripHistory.tsx:154 | x is undefined (NaN) for a single ping. Otherwise it lies in [0, 100], is 0 at the first ping and is 100 at the last. |
| TripHistory.ChartXIncreasing | src/components/TripHistory.tsx:154 | The x values increase strictly along the pings. |
| TripHistory.ChartYAntitone | src/components/TripHistory.tsx:155 | A ping that is at least as fast as another never plots below it: y falls as the speed rises. |
| TripHistory.ChartY | src/components/TripHistory.tsx:155 | y is never negative, since no speed exceeds the maximum. It is at most 80 for a nonnegative speed, and 0 at the maximum speed. |
| StatsBar.Online | src/components/StatsBar.tsx:16 | `online` counts the technicians with `inShift`, never exceeds the total, equals it exactly when all are in shift, and is 0 exactly when none is. |
| Fleet.Speed | src/components/StatsBar.tsx:18 | `lastSeen?.speed ?? 0` is the reported speed when there is one, else 0. The same expression is at src/components/TechniciansList.tsx:30. |
| Js.Max | src/components/StatsBar.tsx:20 | `Math.max` of two numbers is at least both and equals one of them. |
| StatsBar.Moving | src/components/StatsBar.tsx:18 | `moving` counts the technicians faster than 2 km/h, never exceeds the total, and is 0 exactly when all are at 2 km/h or slower. |
| StatsBar.TwoIsNotMoving | src/components/StatsBar.tsx:18 | A speed of exactly 2 is not moving. |
| StatsBar.TopSpeed | src/components/StatsBar.tsx:19-22 | The top speed is at least 0 and at least every speed. It is 0 or some technician's speed, and 0 for an empty list. |
| TechniciansList.Age | src/components/TechniciansList.tsx:32-36 | The age is absent exactly without a truthy timestamp. Otherwise it is the floor of the elapsed milliseconds over 1000. |
| TechniciansList.FreshnessLabel | src/components/TechniciansList.tsx:93-99 | The label is "NO DATA" exactly without an age, "STALE" exactly from 300 s on, and the age in seconds otherwise. |
| TechniciansList.FreshnessClass | src/components/TechniciansList.tsx:84-91 | The colour is amber exactly when stale (over 120 s), emerald exactly for a known age of 120 s or less, and slate exactly without an age. |
| TechniciansList.StaleLabelIsAmber | src/components/TechniciansList.tsx:84-99 | "STALE" is always amber. An amber label that is not "STALE" has an age between 120 and 300 s. |
| TechniciansList.AgeMonotone | src/components/TechniciansList.tsx:32-38 | As the clock advances, a known age never decreases, so a stale row stays stale. |
| TechniciansList.Row | src/components/TechniciansList.tsx:26-107 | A row is highlighted exactly when its id is the selected id. A missing speed shows as 0. The label and colour follow the classifier, and the shift label is "In-Shift" or "Not in Shift". The employee id is shown exactly when non-empty, and the device is `DeviceOf`. |
| TechniciansList.DeviceOf | src/components/TechniciansList.tsx:70-71 | A device is shown exactly when the linked user has a non-empty `deviceId`, and it is that id. |
| TechniciansList.View | src/components/TechniciansList.tsx:16-38 | An empty list shows only "No technicians online". Otherwise there is one row per technician, in order, and row i is computed at its own clock reading `clock(i)`. |
| TechniciansList.AtMostOneHighlighted | src/components/TechniciansList.tsx:27 | With distinct ids at most one row is highlighted, and none without a selection. |
| VehicleList.TypeIcon | src/components/VehicleList.tsx:5-11 | Each of the five known types gets its emoji, and any other type the fallback 🚙. |
| VehicleList.Row | src/components/VehicleList.tsx:30-108 | A row is highlighted exactly for the selected id and shows the type icon. The plate number is shown exactly when truthy, with its value. A missing speed counts as 0. The technician list's classifier decides freshness, and the active label is "In Use" or "Not Active". |
| VehicleList.View | src/components/VehicleList.tsx:19-42 | An empty list shows only "No vehicles online". Otherwise there is one row per vehicle, in order, and row i is computed at its own clock reading `clock(i)`. |
| VehicleList.SameClassifierAsTechnicians | src/components/VehicleList.tsx:36-42 | The same last-seen block and clock give the same label, colour and speed as in the technician list. |
| Shifts.DatePart | src/pages/shifts.tsx:36 | `split("T")[0]` is the longest prefix without a "T". |
| Seqs.Filter | src/pages/shifts.tsx:34-38 | `filter` keeps exactly the satisfying elements, never lengthens the list, keeps all of it exactly when every element satisfies, and nothing exactly when none does. |
| Seqs.FilterMultiplicity | src/pages/shifts.tsx:34-38 | A kept value occurs in the result as often as in the input, and a dropped value does not occur. |
| Seqs.Find | src/pages/shifts.tsx:241-246 | `find` gives nothing exactly when no element satisfies. Otherwise it gives the element at the first satisfying index. |
| Shifts.FilteredByDate | src/pages/shifts.tsx:34-38 | An empty filter passes every shift. Otherwise a shift passes exactly when the date part of its ISO start time equals the filter. The result is an order-preserving subsequence. |
| Shifts.DisplayedShifts | src/pages/shifts.tsx:41-44 | The "active" tab shows exactly the `isActive` filter of the date-filtered list, duplicates included, and "all" shows the whole date-filtered list. Both are order-preserving subsequences of the shifts. |
| Shifts.NoDateFilter | src/pages/shifts.tsx:34-44 | With no date, "all" shows every shift and "active" shows exactly the active ones. |
| Shifts.RegisteredTechnicians | src/pages/shifts.tsx:184-187 | A technician is offered exactly when `userId !== null`, it is active, and it is not on shift. The offered list is an order-preserving subsequence. |
| Shifts.UndefinedUserIsOffered | src/pages/shifts.tsx:186 | A technician with no `userId` field passes the strict `!== null` test. |
| Shifts.SelectTechnician | src/pages/shifts.tsx:241-246 | The selection is the first technician in the full list with the chosen id. There is none exactly when no technician has it. |
| Shifts.StartShiftGuard | src/pages/shifts.tsx:93-107 | With no selection, the page alerts first. With a nullish `userId` it alerts that the technician is not registered. Otherwise it requests a shift for the employeeId. |
| Shifts.OfferedButRefused | src/pages/shifts.tsx:98-101 | A technician offered because its `userId` is missing, not `null`, is refused when a shift is started. |
| Shifts.HistoryTo | src/pages/shifts.tsx:379-383 | The history's `to` is undefined for an active shift, and `timeEnded` otherwise. |
| Shifts.RowOf | src/pages/shifts.tsx:342-365 | The End button appears exactly for active shifts. The "Ended" text appears exactly for an ended shift with a truthy `timeEnded`, and never together with End. |

## Left out

- Transport is left out: `fetch`, `axios` and the event-source connection. The model keeps only the events they deliver: snapshot settled, open, error and message. Closing the event source on unmount is not modelled, and neither is the re-fetch after a shift action.
- React itself is left out: state cells are class fields and effects are method calls. Render scheduling, effect dependency arrays and `useMemo` are not modelled.
- `alert`, `confirm`, `localStorage`, `console` and `router.push` are left out as I/O. The mini-map's saved type is the parameter `saved` of `MiniMap.InitialMapType`, and the write-back of the type is not modelled.
- JSX, SVG and HTML are not modelled: the popup HTML and `bindPopup`, the icon SVG text, button styles, and the shift list's "No … shifts" notice.
- Formatting is not modelled: `toFixed`, `Math.round`, `toLocaleString` and `toLocaleTimeString`. The model keeps the numbers these format.
- Leaflet and Google Maps calls are left out: `L.map`, `tileLayer`, `divIcon`, `setLatLng`, `setIcon`, `remove`, `flyTo`, `bringToFront`, `GoogleMap` and `Polyline`. Marker handles are natural numbers from a counter, and the tile layers are their configuration values.
- The `simplify-js` step of the mini-map path is left out: it is a foreign library. `MiniMap.Path` is the path up to cleaning, so the spacing and subsequence facts apply to the points before simplification.
- The haversine distance and the equirectangular trip leg are not modelled: both are trigonometric floating point. They are the parameters `dist` and `leg`.
- Floating point in general is modelled as mathematical reals: `NaN`, `Infinity` and rounding are absent. `TripHistory.ChartX` models the NaN of a single ping as no value, and a NaN age from an unparsable timestamp is not modelled.
- Date parsing and ISO conversion are the parameters `parseTime` and `toIso`. An invalid date that makes `toISOString` throw is not modelled.
- `LiveMap.StringHash` takes each `char` as one code unit. Strings with characters outside the Basic Multilingual Plane, where `charCodeAt` sees two UTF-16 units, are not modelled.
- `Records.InsertionKeys` orders keys by first insertion. JavaScript lists integer-like keys first in ascending order, which is not modelled.
- JSON payloads that are not objects are not modelled. Parsing `null` makes the handlers throw inside the updater, and the model treats only unparseable data as dropped.
- `deviceOfSelected` (src/pages/index.tsx:108-117) is not modelled: it is display-only state derived from the selection.
- `LAYER_NEXT` in src/components/LiveMap.tsx is never used by the code, and the layer labels are text only.
- `TYPE_EMOJI` lookups of inherited property names such as `"constructor"` are not modelled. The table is a plain map.
- Dashboard.ApplyUpdate, VehicleSse.BuildSnapshot and LiveMap.Upsert: record lookups of `Object.prototype` names such as `"constructor"`, `"toString"` and `"__proto__"` are not modelled, because records are Dafny maps with own keys only. In the source, an event naming `"constructor"` finds an inherited value and adds a new own entry where the model leaves the record unchanged. A snapshot vehicle with id `"__proto__"` hits the prototype setter and gets no entry, where the model stores it. A technician with `_id` `"constructor"` makes the marker effect call `setLatLng` on `Function` and throw, where the model creates a marker.
- src/components/AddVehicle.tsx and src/types/*.ts are not part of this model. The type files only give datatype shapes.
- The trip-history panel's props are left out: it reads only `vehicleId` and `apiBase`, so the `from`/`to` that the shift page computes (`Shifts.HistoryTo`) do not reach its request. The request window is `TripHistory.HistoryWindow`.
- Features the code lacks are not modelled: reconnecting, re-loading the snapshot after an outage, buffering events that arrive before the snapshot, and discarding stale history responses.

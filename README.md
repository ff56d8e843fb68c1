# Metro transit map — a Dafny model of its client-side transforms

The metro application overlays live subway positions and station arrival predictions on
a static map image. It also has an editor page for hand-calibrating the station points of
that map. This project models the three deterministic transforms at its core and proves
their properties:

- **Vehicle normalisation** (`TransitMap`, `transit_map.dfy`). A decoded vehicles
  response is a JSON:API envelope: a `data` list plus an `included` side list of routes
  and stops. Each vehicle's route is classified into a line label and colour. Its stop is
  resolved to the parent station and placed at that station's registered point. Vehicles
  without a point are dropped. The module also covers the tooltip's status/occupancy text
  and the component's `trains`/`lastUpdate`/`error` state (class `TransitMapView`).
- **Prediction normalisation** (`StationModal`, `station_modal.dfy`). Routes and trips
  are split out of `included`. Each prediction is classified by the panel's own Green
  rule. Minutes-away is computed, past arrivals are filtered out, and the list is
  stable-sorted by minutes. It is then grouped by (line, direction) in first-seen order.
  The module also covers the minutes display tiers and the panel's
  `predictions`/`loading`/`error` state (class `StationPanel`).
- **Coordinate authoring** (`MapEditor`, `map_editor.dfy`). The working set of mapped
  stations is seeded and merged from the registry. Clicks, nudges and manual edits upsert
  an entry; drags move it; deletes remove it; reload and clear replace the set. The module
  also covers the stop-list filter, the progress figure, the clamped zoom/pan view and the
  generator of the registry's source text. Each handler is a pure transition on an
  `EditorState` value. Class `MapEditorPage` holds the page's fields, and its methods are
  proved to perform exactly those transitions while keeping ids unique and the zoom in
  range.

Shared modules:
- `Wrappers`: `Option`, and `Reply` for a fetch outcome.
- `Text`: the JavaScript string operations used (`includes`, `startsWith`,
  `toLowerCase`, `trim`, number-to-text).
- `JsonApi`: tagged `included` entries and the last-wins lookup tables the `forEach`
  loops build.
- `Lists`: order-preserving `filter` and subsequences.
- `Grouping`: first-seen bucketing by a string key, as `reduce` into an object does.
- `Coords`: integer-tenth coordinates and the registry.

Modelling choices:
- Coordinates are whole tenths of a canvas unit (`Math.round(v * 10) / 10`). Pointer
  geometry is exact rationals (`real`). `Math.round(v)` is `floor(v + 1/2)`, which
  rounds halves toward +∞ as section 21.3.2.28 of ECMA-262 (2023 edition) specifies.
- Minutes-away is `(d + 30000) / 60000` with floor division, over the whole-millisecond
  difference `d` between the arrival instant and "now". A date text that does not parse
  gives NaN; NaN fails the `>= 0` filter, so those arrivals are dropped.
- Zoom is counted in quarter steps: 0.5 … 3 is 2 … 12, and 1 is 4.
- "Now", the fetch outcome (network failure, non-ok status, undecodable body, or a
  decoded envelope), the container rectangle, `parseFloat`'s result and the answer to
  `confirm` are parameters. The coordinate registry is a parameter too: an ordered id list
  plus a map, because `Object.entries` order decides the seeding order.
- JavaScript truthiness is followed: an empty `long_name`, `current_status`, colour,
  headsign, stop id or dragged id counts as missing, as `||` and `if (x)` treat it.
- Line names are sorted by comparing characters. This is the same as
  `Array.prototype.sort`'s UTF-16 code-unit order for every name whose characters all
  lie in the Basic Multilingual Plane.

Three behaviours follow the code as written:
- The station panel has no stale-response guard. `src/components/StationModal.tsx:29-34`
  only clears the polling interval, so `FetchPredictions` applies whatever reply it is
  given.
- The tooltip is not flipped near the map's edges: `src/components/TransitMap.tsx:179`
  uses a fixed translate.
- A map click has no hit box around existing stations: with a stop selected, it places
  that stop at the clicked point whatever already lies there.

## Model

| member | source | states |
|---|---|---|
| `JsonApi.TableLookup` | src/components/TransitMap.tsx:45-53 | a lookup table filled by `forEach` + `Map.set` has an entry for exactly the ids of selected `included` items, holding the last such item's value |
| `JsonApi.DirectionName` | src/components/StationModal.tsx:84-85 | direction text is "Outbound" exactly when `direction_id` is 0, else "Inbound" |
| `TransitMap.IndexIncluded` | src/components/TransitMap.tsx:44-53 | one loop over `included` builds exactly the route table and the stop (parent-station) table |
| `TransitMap.VehicleLabelSpec` | src/components/TransitMap.tsx:62-73 | "Red" wins over "Orange", which wins over "Blue"; a Green-only name gives the route id when it is one of Green-B/C/D/E and "Green" otherwise; a name mentioning no colour is kept unchanged; so the label is canonical or that name |
| `TransitMap.VehicleLabelIdempotent` | src/components/TransitMap.tsx:62-73 | classifying a label again, as the id of an unknown route, gives the same label |
| `TransitMap.RouteColorSpec` | src/components/TransitMap.tsx:20-29 | a label gets a line colour exactly when it is one of the eight canonical labels (otherwise "#666"); all five Green labels get "#00843D" |
| `TransitMap.ResolvedStationSpec` | src/components/TransitMap.tsx:75-85 | a missing or empty stop id means no station; a stop with an included, non-empty parent station resolves to the parent; a stop that is not included, or whose parent is missing or empty, resolves to itself |
| `TransitMap.PlaceSpec` | src/components/TransitMap.tsx:87-108 | a vehicle is placed exactly when its resolved station has a registered point; the marker has the vehicle id, that point, the vehicle's classified label and that label's colour, the copied attributes, the carriage count (0 without a list), and the status, or "UNKNOWN" when it is missing or empty |
| `TransitMap.PositionsAppend` | src/components/TransitMap.tsx:56-110 | the map-then-filter distributes over concatenation of the vehicle list |
| `TransitMap.PositionsSingle` | src/components/TransitMap.tsx:56-110 | one vehicle gives its placement as the only marker, or no marker when it is not placed; with `PositionsAppend` this determines the whole list |
| `TransitMap.PositionsKeepOrder` | src/components/TransitMap.tsx:56-110 | the marker ids are a subsequence of the vehicle ids: vehicle order is kept and no marker is added |
| `TransitMap.PositionsSound` | src/components/TransitMap.tsx:56-110 | there are no more markers than vehicles, and every marker is the placement of some vehicle |
| `TransitMap.UnplacedHaveNoMarker` | src/components/TransitMap.tsx:88-110 | a vehicle whose station has no point gets no marker at all; it is not drawn at a default place |
| `TransitMap.GreenEScenario` | src/components/TransitMap.tsx:56-110 | route "Green-E" named "Green Line E", with a stop whose parent is "place-lech", gives one marker at that station's point, labelled "Green-E" and coloured "#00843D" |
| `TransitMap.CapitaliseAt` | src/components/TransitMap.tsx:202 | the `\b\w` replacement upper-cases exactly the word characters that begin a word |
| `TransitMap.FormatStatusSpec` | src/components/TransitMap.tsx:202 | formatted status text keeps the length and has no underscore; each character is the lower-cased one, upper-cased where a word begins |
| `TransitMap.FormatStatusIdempotent` | src/components/TransitMap.tsx:202 | formatting formatted text changes nothing |
| `TransitMap.FormatStatusExample` | src/components/TransitMap.tsx:202 | "IN_TRANSIT_TO" is shown as "In Transit To" |
| `TransitMap.OccupancyToneOf` | src/components/TransitMap.tsx:209-215 | the occupancy text is gray exactly for a status outside the four known ones |
| `TransitMap.TransitMapView.constructor` | src/components/TransitMap.tsx:32-34 | the map starts with no trains, no update time and no error |
| `TransitMap.TransitMapView.FetchVehicles` | src/components/TransitMap.tsx:37-119 | on success, `trains` becomes the transform of this payload alone (so the same payload gives the same list), `lastUpdate` is now and the error is cleared; on any failure `trains` and `lastUpdate` are unchanged and the error is set |
| `StationModal.RoundedMinutes` | src/components/StationModal.tsx:64-66 | minutes-away is the whole minute nearest the millisecond difference, halves rounded up |
| `StationModal.KeptIffRecent` | src/components/StationModal.tsx:60-66 | an arrival passes `>= 0` exactly when it is at most 30 000 ms in the past; -30 000 ms shows 0, -30 001 ms gives -1, +45 s gives 1 |
| `StationModal.PredictionLabelSpec` | src/components/StationModal.tsx:68-76 | an unknown route is labelled ""; "Red" wins over "Orange", which wins over "Blue"; a Green-only name gives the route id when it contains "-" and "Green" otherwise; a name mentioning no colour is kept unchanged |
| `StationModal.DisplaySpec` | src/components/StationModal.tsx:53-89 | the label is the route's classification; colour is "#" + route colour or "#666"; headsign is the trip's headsign when it is known and non-empty, else "Unknown"; direction is "Outbound" iff `direction_id` is 0; minutes are null without an arrival time, NaN for an invalid date, and otherwise the whole minute nearest to arrival minus now; arrival time and status are copied |
| `StationModal.SortByMinutesSpec` | src/components/StationModal.tsx:92 | the sort is non-decreasing in minutes, a permutation of its input, and keeps equal-minute records in input order |
| `StationModal.StableSortIsUnique` | src/components/StationModal.tsx:92 | two sorted lists with the same equal-minute runs are equal, so the model's sort is the stable sort ECMA-262 requires |
| `StationModal.ProcessSpec` | src/components/StationModal.tsx:53-92 | every emitted arrival has whole, non-negative minutes; the list is sorted, holds exactly the kept records, and keeps ties in response order |
| `StationModal.IndexIncluded` | src/components/StationModal.tsx:43-51 | one loop over `included` builds exactly the route and trip tables |
| `StationModal.GroupKeyRoundTrip` | src/components/StationModal.tsx:106 | route name and direction can be read back from the group key |
| `StationModal.GroupKeyInjective` | src/components/StationModal.tsx:106 | equal group keys mean equal (line, direction) pairs |
| `StationModal.SameKeySamePair` | src/components/StationModal.tsx:105-112 | all members of one group share line label and direction |
| `StationModal.GroupsSpec` | src/components/StationModal.tsx:105-112 | groups have distinct keys in first-seen order, none empty; each holds exactly its pair's arrivals in list order; together they are a permutation of the list |
| `StationModal.TierBands` | src/components/StationModal.tsx:222-232 | for non-negative minutes the tiers are exactly 0, 1, 2–5, 6–10 and above 10 |
| `StationModal.TierMonotone` | src/components/StationModal.tsx:222-232 | a later arrival never gets a more urgent tier |
| `StationModal.MinutesFigure` | src/components/StationModal.tsx:234-236 | the figure is "BRD" exactly at 0 minutes, otherwise the decimal text of the minutes |
| `StationModal.StationPanel.constructor` | src/components/StationModal.tsx:25-27 | the panel starts empty, loading, with no error |
| `StationModal.StationPanel.FetchPredictions` | src/components/StationModal.tsx:36-102 | on success the arrivals become the processed payload and the error is cleared; on failure they are unchanged and the error is set; loading ends either way, and the stored arrivals stay upcoming and sorted |
| `StationModal.StationPanel.GroupedPredictions` | src/components/StationModal.tsx:105-112 | the loop yields exactly the first-seen grouping of the stored arrivals |
| `Grouping.GroupedSpec` | src/components/StationModal.tsx:105-112 | bucket keys are the list's distinct keys in first-seen order; each bucket holds exactly its key's elements in order, and none is empty |
| `Grouping.GroupedPermutation` | src/components/StationModal.tsx:105-112 | the buckets together hold every element as often as the list does |
| `Grouping.FirstSeenSpec` | src/pages/map-editor.tsx:312-318 | the first-seen keys are distinct and are exactly the keys that occur |
| `Grouping.GroupBy` | src/pages/map-editor.tsx:312-318 | the push-onto-`acc[key]` loop builds exactly the first-seen grouping |
| `Lists.FilterIsSubsequence` | src/components/StationModal.tsx:91 | `filter` keeps its survivors in their original relative order |
| `Text.Trim` | src/pages/map-editor.tsx:330 | `trim` cuts only white space off the ends and leaves none at either end |
| `Text.NatToStringRoundTrip` | src/pages/map-editor.tsx:326 | the decimal text of a whole number reads back as that number, with no leading zero |
| `Text.TenthsToString` | src/pages/map-editor.tsx:326 | the text starts with "-" iff the value is negative, and has a "." iff the value is not a whole unit |
| `Text.TenthsRoundTrip` | src/pages/map-editor.tsx:326 | the text of a number of tenths reads back as that number: optional "-", the whole part, then "." and one digit when the tenths digit is not 0 |
| `MapEditor.LineColorSpec` | src/pages/map-editor.tsx:340 | the line colour is the listed colour of the selected line, and "#666" exactly for an unlisted line |
| `MapEditor.FindStop` | src/pages/map-editor.tsx:88 | `find` returns the first stop with the id, or nothing exactly when no stop has it |
| `MapEditor.FindStation` | src/pages/map-editor.tsx:248 | `find` over mapped stations returns the first entry with the id, or nothing exactly when the id is unmapped |
| `MapEditor.SeedSpec` | src/pages/map-editor.tsx:84-98 | the seeded entries are the registry ids that are fetched stops, each at its registered point under the stop's name and the current line; ids are unique |
| `MapEditor.CollectRegistered` | src/pages/map-editor.tsx:84-98 | the `forEach` that pushes onto `existing` builds exactly the seeded list |
| `MapEditor.MergeSpec` | src/pages/map-editor.tsx:100-110 | merging keeps every existing entry in place and appends only seeded entries whose id was absent; afterwards every seeded id is mapped and ids stay unique |
| `MapEditor.MergeMissing` | src/pages/map-editor.tsx:103-109 | the merge loop builds exactly the merged list |
| `MapEditor.SeedingSpec` | src/pages/map-editor.tsx:83-112 | seeding leaves existing entries untouched and only adds absent, registered, fetched stops tagged with the current line |
| `MapEditor.ParentStationsSpec` | src/pages/map-editor.tsx:122-124 | the fetched stops are exactly the stops whose id starts "place-", each as often as the API lists it, in API order |
| `MapEditor.AfterFetchStops` | src/pages/map-editor.tsx:114-133 | a body with `data` replaces the stops by its parent stations; a failure keeps them; loading ends; the working set is untouched |
| `MapEditor.WithoutIdSpec` | src/pages/map-editor.tsx:257 | removing an id keeps exactly the other entries, in order, and keeps ids unique |
| `MapEditor.UpsertSpec` | src/pages/map-editor.tsx:162-165 | after an upsert the new entry is last and is the only one with its id; the other entries are unchanged and in order; ids stay unique |
| `MapEditor.MoveStation` | src/pages/map-editor.tsx:202-209 | the drag map keeps length, ids, names and lines, and moves exactly the entries with the dragged id |
| `MapEditor.RoundTenths` | src/pages/map-editor.tsx:148-149 | the result is the tenth nearest the value, halves up |
| `MapEditor.CanvasPointSpec` | src/pages/map-editor.tsx:141-150 | the pointer fraction scaled to 826×770 is rounded to a tenth; the corners give (0, 0) and (826, 770), the centre (413, 385) |
| `MapEditor.Initial` | src/pages/map-editor.tsx:54-68 | the initial state has unique ids and zoom in range |
| `MapEditor.AfterMapClick` | src/pages/map-editor.tsx:135-168 | a click keeps ids unique and zoom in range |
| `MapEditor.MapClickSpec` | src/pages/map-editor.tsx:135-168 | without a selection, or during a pan or drag, a click changes nothing; otherwise the selected stop is upserted at the click's rounded canvas point |
| `MapEditor.AfterStationDrag` | src/pages/map-editor.tsx:182-210 | a drag keeps ids unique and zoom in range |
| `MapEditor.StationDragSpec` | src/pages/map-editor.tsx:182-210 | a drag moves only the dragged id's entries to the pointer's point, and keeps length, ids, names and lines; it is a no-op when no drag is in progress |
| `MapEditor.AfterMouseMove` | src/pages/map-editor.tsx:225-234 | a mouse move keeps ids unique and zoom in range |
| `MapEditor.PanSpec` | src/pages/map-editor.tsx:217-234 | a pan starts only on the middle or right button, or Alt+left; the pan is the starting pan plus the pointer's travel; the working set, coordinates, selection and zoom are untouched |
| `MapEditor.ZoomPercent` | src/pages/map-editor.tsx:603 | the shown zoom is between 50% and 300% |
| `MapEditor.AfterZoomIn` | src/pages/map-editor.tsx:606 | zooming in keeps zoom within 0.5–3 |
| `MapEditor.AfterZoomOut` | src/pages/map-editor.tsx:597 | zooming out keeps zoom within 0.5–3 |
| `MapEditor.ZoomSpec` | src/pages/map-editor.tsx:241-244 | zoom steps by quarters and saturates at 0.5 and 3; in and out undo each other inside the range; reset gives 100% at pan (0, 0); none of these touch the working set |
| `MapEditor.AfterStopSelect` | src/pages/map-editor.tsx:246-254 | selecting a stop shows its mapped point, or no point exactly when it is unmapped |
| `MapEditor.AfterDeleteStation` | src/pages/map-editor.tsx:256-261 | deleting keeps ids unique and zoom in range |
| `MapEditor.DeleteStationSpec` | src/pages/map-editor.tsx:256-261 | deleting removes exactly the id's entries and keeps the rest in order; the coordinates clear only when the deleted stop is selected |
| `MapEditor.AfterAdjustCoordinate` | src/pages/map-editor.tsx:263-282 | a nudge keeps ids unique and zoom in range |
| `MapEditor.AfterManualCoordinateChange` | src/pages/map-editor.tsx:284-306 | a manual edit keeps ids unique and zoom in range |
| `MapEditor.EditSpec` | src/pages/map-editor.tsx:263-306 | a manual edit ignores NaN and changes only the named axis, rounded to a tenth; a nudge moves by exactly the step; both upsert the selected stop there; without a selection or point neither does anything |
| `MapEditor.AfterReload` | src/pages/map-editor.tsx:504-519 | reload replaces the working set by the seeded list, which has unique ids |
| `MapEditor.AfterClearAll` | src/pages/map-editor.tsx:525-529 | a confirmed clear empties the working set; otherwise nothing changes |
| `MapEditor.Progress` | src/pages/map-editor.tsx:341-343 | progress is 0 without stops, otherwise the whole percentage nearest mapped/stops, halves up |
| `MapEditor.ProgressBounds` | src/pages/map-editor.tsx:341-343 | progress is at most 100 while no more entries than stops are on the line, and 100 when they are equal |
| `MapEditor.FilteredStopsSpec` | src/pages/map-editor.tsx:333-338 | the listed stops are those whose name or id contains the query, ignoring case, and, when "mapped only" is set, whose id is mapped; stop order is kept; an empty query lists every stop |
| `MapEditor.SortLinesSpec` | src/pages/map-editor.tsx:323 | line names come out in ascending string order, each as often as it went in |
| `MapEditor.SortedLinesUnique` | src/pages/map-editor.tsx:323 | any two sorted orderings of the same names are equal, so the sorted order is unique |
| `MapEditor.CodeLinesSpec` | src/pages/map-editor.tsx:310-323 | there is one bucket per line name in use ("Other" when unset), each once, in sorted order |
| `MapEditor.CodeTextSpec` | src/pages/map-editor.tsx:308-331 | the generated text has no white space at either end, and is empty exactly for an empty working set |
| `MapEditor.WriteEntries` | src/pages/map-editor.tsx:325-327 | the inner loop appends one `"id": { x: X, y: Y }, // name` line per entry, in mapping order |
| `MapEditor.GenerateCode` | src/pages/map-editor.tsx:308-331 | the loops produce exactly the trimmed text: each sorted bucket's `// <line> Line` header, then its entries' lines in mapping order |
| `MapEditor.MapEditorPage.constructor` | src/pages/map-editor.tsx:54-68 | the page starts in the initial state |
| `MapEditor.MapEditorPage.SelectLine` | src/pages/map-editor.tsx:376 | only the selected line changes; the stop fetch this triggers (lines 78-80) is `StartFetchStops` followed by `CompleteFetchStops` |
| `MapEditor.MapEditorPage.SetSearchQuery` | src/pages/map-editor.tsx:443 | only the search query changes |
| `MapEditor.MapEditorPage.SetShowMappedOnly` | src/pages/map-editor.tsx:451 | only the mapped-only switch changes |
| `MapEditor.MapEditorPage.StartFetchStops` | src/pages/map-editor.tsx:114-115 | loading starts and nothing else changes |
| `MapEditor.MapEditorPage.CompleteFetchStops` | src/pages/map-editor.tsx:114-133 | the fields change as `AfterFetchStops` says; ids stay unique |
| `MapEditor.MapEditorPage.SeedFromRegistry` | src/pages/map-editor.tsx:83-112 | the fields change as the seeding transition says; ids stay unique |
| `MapEditor.MapEditorPage.HandleMapClick` | src/pages/map-editor.tsx:135-168 | the fields change as the click transition says; ids stay unique |
| `MapEditor.MapEditorPage.HandleStationMouseDown` | src/pages/map-editor.tsx:170-180 | a drag starts on the station, and its stop is selected when listed |
| `MapEditor.MapEditorPage.HandleStationDrag` | src/pages/map-editor.tsx:182-210 | the fields change as the drag transition says; ids stay unique |
| `MapEditor.MapEditorPage.HandleStationMouseUp` | src/pages/map-editor.tsx:212-215 | the drag ends |
| `MapEditor.MapEditorPage.HandleMouseDown` | src/pages/map-editor.tsx:217-223 | a pan starts only for the pan buttons, remembering pointer minus pan |
| `MapEditor.MapEditorPage.HandleMouseMove` | src/pages/map-editor.tsx:225-234 | a move pans while panning, else drags while dragging |
| `MapEditor.MapEditorPage.HandleMouseUp` | src/pages/map-editor.tsx:236-239 | both a pan and a drag end |
| `MapEditor.MapEditorPage.ResetView` | src/pages/map-editor.tsx:241-244 | pan goes back to (0, 0) and zoom to 1 |
| `MapEditor.MapEditorPage.ZoomIn` | src/pages/map-editor.tsx:606 | zoom goes up a quarter, capped at 3 |
| `MapEditor.MapEditorPage.ZoomOut` | src/pages/map-editor.tsx:597 | zoom goes down a quarter, floored at 0.5 |
| `MapEditor.MapEditorPage.HandleStopSelect` | src/pages/map-editor.tsx:246-254 | the fields change as the stop-select transition says |
| `MapEditor.MapEditorPage.HandleDeleteStation` | src/pages/map-editor.tsx:256-261 | the fields change as the delete transition says; ids stay unique |
| `MapEditor.MapEditorPage.AdjustCoordinate` | src/pages/map-editor.tsx:263-282 | the fields change as the nudge transition says; ids stay unique |
| `MapEditor.MapEditorPage.HandleManualCoordinateChange` | src/pages/map-editor.tsx:284-306 | the fields change as the manual-edit transition says; ids stay unique |
| `MapEditor.MapEditorPage.ReloadFromFile` | src/pages/map-editor.tsx:504-519 | the working set becomes the seeded list; ids stay unique |
| `MapEditor.MapEditorPage.ClearAll` | src/pages/map-editor.tsx:525-529 | a confirmed clear empties the working set |
| `MapEditor.MapEditorPage.GeneratedCode` | src/pages/map-editor.tsx:308-331 | the copied text is the generated registry text of the current working set |

## Left out

- Polling (`setInterval`/`clearInterval`), `fetch`/`async` and `Date.now` are left out.
  Each poll is one method call given the fetch outcome and "now" as an integer.
- No stale-response guard is modelled, because the code has none. A reply applied to a
  panel is applied whatever station it was requested for.
- All JSX/SVG/CSS rendering is left out: marker radii, the tooltip position percentages,
  hover state, the modal layout, grid and panel toggles, and `toLocaleTimeString`.
  `speed.toFixed(1)` is left out because speed is only displayed.
- Clipboard, `alert`, `confirm` (modelled as a boolean input) and
  `getBoundingClientRect` (modelled as a rectangle input) are left out, as is
  `preventDefault`/`stopPropagation`.
- Floating point is not modelled. Coordinates are exact tenths, zoom is exact quarters,
  and pointer fractions and the progress ratio are exact rationals. Binary rounding
  error in `(x + dx) * 10` or `mapped / stops * 100` is not captured.
- `MapEditor.AfterAdjustCoordinate`: the step is taken in whole tenths (the buttons step
  by 1 and 0.1 units), so the source's re-rounding of `x + dx` is exact here.
- The HTTP proxy endpoints (`src/pages/api/vehicles.ts`, `src/pages/api/predictions.ts`)
  are I/O wrappers and are not part of this model. Neither are the page metadata, the
  build configuration, or the environment switch that disables the editor page.
- `src/config/stationCoords.ts` is static data and is not part of this model; it enters
  as the `Registry` parameter. No canvas bounds are imposed, because registered points
  may lie off the canvas.
- `TransitMap.VehicleLabelSpec`, `StationModal.PredictionLabelSpec`: `includes` is
  modelled on characters, i.e. on Unicode scalar values rather than UTF-16 code units.
- `TransitMap.FormatStatusSpec`, `TransitMap.FormatStatusIdempotent`,
  `MapEditor.FilteredStopsSpec`: `toLowerCase` and `toUpperCase` are modelled with ASCII
  case mapping only. JavaScript's full Unicode case mapping is not captured; it can change
  a text's length (U+0130 lower-cases to two code units), so the length clause of
  `FormatStatusSpec` holds only for the modelled mapping.
- `MapEditor.SortLinesSpec`: strings are compared by character, which matches
  `Array.prototype.sort`'s UTF-16 code-unit order except for characters outside the
  Basic Multilingual Plane.
- `StationModal.GroupsSpec`: states that the groups together are a permutation of the
  list, not that concatenating them gives the list back. The concatenation claim fails
  when equal keys are not adjacent, for example Red-Outbound, Red-Inbound, Red-Outbound.
- A vehicle or prediction without a route relationship makes the source throw while it
  maps the list. The `catch` then sets the error and keeps the previous list. Here the
  route id is a required field, so that case is reachable only as the "undecodable
  body" fetch outcome, which has the same effect.
- A property whose key is array-index-like would be enumerated before the others. This
  is not modelled: group keys always end in "-Outbound" or "-Inbound", and the editor's
  line names are sorted before use.

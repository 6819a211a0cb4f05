# Shop phone-number search: a Dafny model of the area-search core

The system looks up shops near a point with a Google-Maps place-search
service and lists each shop's name, phone number and address. This project
models its core in Dafny:

- the **radius classifier** (`Zoom`), which maps a radius in metres to a map zoom level;
- the **search-point planner** (`Planner`), which builds one of three plans:
  - the radius grid: the centre, then a square lattice of offsets kept within 1.2 × radius, in row-major order;
  - the nine-point "expand search" pattern;
  - the single session point;
- the **dispatcher** (`Dispatch`), which runs a page loop for every point:
  - it follows the pagination cursor for at most 6 pages;
  - it stops on a missing or empty result list, on a short page (under 20 records), or on a failing `get_next()`;
  - it stops taking new points once the aggregate holds 200 records;
- the **de-duplicator** (`Dedup`), which merges records incrementally and keys them on the raw (title, address) pair;
- the **result filter** (`ResultFilter`), which:
  - applies a radius check that fails open;
  - applies the takeout check;
  - caps the output at 100 rows;
  - resolves each row's fields through the `phone` / `電話` and `address` / `住所` aliases and their sentinels;
- the **command-line extractor** (`Extractor`), which builds one entry per `local_results` element and the optional CSV block;
- the **end-to-end search** (`Search`), which runs plan → dispatch → filter for one press of the search button.

Outside collaborators are parameters:

- The place-search service is a function from sample point to `Feed`. A `Feed` is the first response plus the scripted answers of successive `get_next()` calls; a call past the end raises. The alternative `FirstRequestFails` means the first request raises.
- The address geocoder is `string -> Option<GeoPoint>`. `None` covers both "not found" and "the lookup raised".
- `cos` of a latitude and the geodesic distance are uninterpreted function-valued fields of `Geo.Geodesy`.

Arithmetic is over exact reals. Python's `int()` on a float is modelled as truncation toward zero (`Planner.Trunc`).

Behaviour of the code that the model keeps:

- Duplicate detection compares the raw title and address, with no case folding or whitespace trimming.
- The radius filter keeps a record whose coordinates cannot be found.
- An exception from a point's first request reaches the outer `except` at app.py:721. It aborts the whole search and yields no rows.
- Over exact reals the grid half-extent `int(2r / 0.4r) + 1` is 6. Under "## Left out", `Planner.GridSizeIsSix` records the double-precision cases where it is 5.
- A row shows a distance only when the record carries non-zero GPS coordinates. A position obtained by geocoding passes the radius check but shows no distance.
- The radius widgets accept 100 to 50000 metres in steps of 100 (app.py:273-280, 339-346, 410-417). The model accepts any non-zero radius, a superset of that range.

## Model

| member | source | states |
|---|---|---|
| Zoom.ZoomLevel | app.py:46-63 | the zoom level always lies between 10 and 16 |
| Zoom.ZoomCountsExceededThresholds | app.py:46-63 | the zoom level is 16 minus the number of thresholds (500, 1000, 2000, 5000, 10000, 20000 m) the radius strictly exceeds, so each bound is inclusive |
| Zoom.ZoomMonotone | app.py:46-63 | a larger radius never gives a more zoomed-in level |
| Zoom.ZoomSaturates | app.py:60-63 | every radius above 20000 m gives level 10 |
| Planner.GridRatio | app.py:75-78 | the ratio of twice the radius to the grid spacing does not depend on the radius: it is 2 / 0.4 |
| Planner.GridSize | app.py:75-78 | the grid half-extent is never negative |
| Planner.GridSizeIsSix | app.py:75-78 | in exact arithmetic the half-extent is 6 for every non-zero radius |
| Planner.GenerateSearchPoints | app.py:66-112 | the nested loop returns exactly the centre followed by the kept lattice points of the reference plan `SearchPoints` |
| Planner.LatticeMembers | app.py:90-93 | the walk visits exactly the square [-g, g] × [-g, g] minus its centre |
| Planner.LatticeLength | app.py:90-93 | the walk has (2g+1)² − 1 steps |
| Planner.LatticeRowMajor | app.py:90-91 | the walk is in strict row-major order: latitude index outer, longitude index inner |
| Planner.SearchPointsShape | app.py:82-110 | every point carries the radius's zoom level, and every point after the centre lies within 1.2 × radius of it |
| Planner.SearchPointsRowMajor | app.py:89-110 | after the centre come only lattice points of the square, excluding the origin and points out of reach, in strict row-major order of their offsets |
| Planner.SearchPointsDistinct | app.py:82-110 | the centre comes first and never again, and no location is planned twice |
| Planner.SearchPointsBound | app.py:78-110 | at most 169 points are planned: one per cell of the 13 × 13 square |
| Planner.SearchPointsComplete | app.py:95-110 | every lattice point of the square (other than the origin) within 1.2 × radius is planned |
| Planner.ExpandPointsShape | app.py:498-515 | the expand plan has nine points: the centre first, all at the session zoom, pairwise distinct, each within 0.01° of the centre on both axes |
| Planner.SearchPointsCover | app.py:89-110 | every lattice point of the square (other than the origin) within 1.2 × radius is in the plan, as a sample point at the radius's zoom |
| Planner.PlanLocations | app.py:488-522 | a plan is never empty, starts at the centre, uses one zoom throughout and never visits a location twice. With a radius active, the zoom comes from the radius. The plan then has at most 169 points, every point after the centre is within 1.2 × radius, and every lattice point within reach is included. Without a radius, the zoom is the session's. The expand option then gives nine points within 0.01° of the centre on each axis, and its absence gives just the session point |
| Places.PrimaryOrAlias | app.py:637-638 | a non-empty primary value wins; otherwise the alias is used when present, even if empty; otherwise the fallback |
| Places.DisplayPhoneSources | phone_number_extractor.py:41 | the shown phone is the record's `phone`, its `電話` or the no-phone sentinel. A non-empty `phone` always wins. The sentinel is shown when `phone` is missing or empty and `電話` is missing, and otherwise only if a record value equals it |
| Places.EmptyAliasShadowsSentinel | app.py:637 | an empty `電話` value is shown as it is: the sentinel is not used then |
| Places.GeocodeQueryMatchesDisplay | app.py:608 | the address sent to the geocoder equals the displayed address, except when the display falls back to its sentinel; then the query is empty and no lookup happens |
| Dedup.MergeKeys | app.py:564-570 | after a merge, the kept keys are exactly the old keys plus the incoming keys |
| Dedup.MergeExtends | app.py:564-570 | a merge keeps the old records unchanged as a prefix, appends only records from the page, and grows by at most the page size |
| Dedup.MergeKeepsKeysUnique | app.py:564-570 | if no two kept records share a (title, address) key, that stays true after any merge |
| Dedup.FirstOfKeyIsUnseen | app.py:567-568 | a record is the first of its key in a page exactly when its key is absent from the records before it |
| Dedup.MergeIsFirstSeen | app.py:564-570 | merging a page prefix appends exactly the reference selection: the records whose key was not yet kept and not seen earlier in the page, in arrival order |
| Dedup.MergeMatchesFirstSeen | app.py:564-570 | the whole-page merge equals the accumulator followed by the reference selection |
| Dedup.MergeConcat | app.py:564-570 | merging two pages one after the other equals merging their concatenation, so duplicates are caught across pages and points |
| Dedup.MergeAbsorbsKnown | app.py:564-570 | a page whose keys are all already known changes nothing |
| Dedup.MergeIdempotent | app.py:564-570 | merging the same page twice is the same as merging it once |
| Dispatch.Paginate | app.py:545-582 | the page loop merges at most 6 pages and never more than the service answered |
| Dispatch.PaginateStops | app.py:545-582 | every merged page had records and all but the last were full. The stop reason matches its trigger: no `local_results`, an empty page, a short page (merged first), a failing `get_next()` after a full page, or the 6-page budget |
| Dispatch.PaginateMergesConsumedPages | app.py:545-582 | a point's contribution is exactly the merge of the pages its loop consumed, in order |
| Dispatch.PaginateKeepsKeysUnique | app.py:545-582 | the page loop keeps the aggregate free of duplicate keys and never disturbs records already gathered |
| Dispatch.DispatchPoints | app.py:526-586 | at most all points are searched, and at least one if there are any. A point is skipped only when the aggregate already holds 200 records. A failure names a point whose first request raised |
| Dispatch.DispatchKeepsKeysUnique | app.py:526-586 | across all points the aggregate has no duplicate keys, and earlier records stay in place |
| Dispatch.DispatchIsGathered | app.py:526-586 | a successful loop's aggregate is the reference fold of the page loops over the searched points. Every searched point answered its first request. The aggregate was below 200 after every searched point but the last, and it had reached 200 if points remain, so the loop stops exactly at the first point that brings it to 200 |
| Dispatch.DispatchFailsAtFirstRaise | app.py:526-586 | a failure names the first point whose first request raised; every earlier point answered, and the aggregate was below 200 after each of them |
| Dispatch.GatheredGrows | app.py:526-586 | running further points only appends: the aggregate after n points is a prefix of the aggregate after any m >= n points |
| Dispatch.DispatchRunsWholePoint | app.py:544-586 | the budget is checked only between points, so for every searched point the whole result of its page loop is kept, even past 200 |
| ResultFilter.FilterPlaces | app.py:593-657 | the filter loop yields exactly the rows of the first 100 records that pass both checks, in aggregate order |
| ResultFilter.SelectedMembers | app.py:593-631 | a record is selected exactly when it is in the aggregate and passes the radius and takeout checks |
| ResultFilter.RadiusDropsOnlyKnownFar | app.py:595-624 | with a radius set, the radius check drops a record exactly when its coordinates are known and farther than the radius |
| ResultFilter.RadiusFailsOpen | app.py:600-620 | a record without complete GPS data whose address is absent or cannot be geocoded is kept |
| ResultFilter.RadiusKeepsOnlyNearOrUnknown | app.py:595-624 | with a radius set, every selected record either has no coordinates the check could find or lies within the radius of the centre |
| ResultFilter.TakeoutOnlyKeepsTakeout | app.py:627-631 | with the takeout option on, every selected record offers takeout under `takeout` or `テイクアウト` |
| ResultFilter.CapOnlyTruncates | app.py:633-634 | the cap only truncates: there are min(selected, 100) rows, and row k comes from the k-th selected record |
| ResultFilter.DistanceOnlyFromGps | app.py:643-648 | a row has a distance exactly when a radius is set and the record has non-zero GPS latitude and longitude |
| Extractor.Extract | phone_number_extractor.py:38-48 | no `local_results` gives no entries; otherwise there is one entry per record, in order, with title, phone and address resolved through the aliases and sentinels |
| Extractor.ExtractEntries | phone_number_extractor.py:38-48 | the append loop over `local_results` produces exactly the entries of `Extract` |
| Extractor.ExtractCsvRoundTrip | phone_number_extractor.py:38-76 | when the CSV block is requested and no resolved field holds a double quote, data line k + 1 reads back as the title, phone and address resolved from record k |
| Extractor.CsvLines | phone_number_extractor.py:72-76 | without `--csv` / `-c` as third argument there is no CSV block; with it, the header comes first, then one quoted row per entry |
| Extractor.CsvRowRoundTrip | phone_number_extractor.py:76 | a row whose fields hold no double quote reads back as the entry it was written from |
| Extractor.CsvLinesRoundTrip | phone_number_extractor.py:74-76 | every data line of the CSV block reads back as its entry when no field holds a double quote |
| Extractor.CsvRowNotInjective | phone_number_extractor.py:76 | quotes inside a field are not escaped, so two different entries can print the same row |
| Search.SearchArea | app.py:454-657 | an empty query is refused. A successful search lists at most 100 rows. Any other failure names a planned point whose first request raised |
| Search.SearchAreaUsesUniqueAggregate | app.py:526-657 | a successful search lists the filtered rows of an aggregate in which no two records share a key |

## Left out

- The Streamlit user interface is not modelled: session state, widgets, progress bar, status texts, tabs, tables and the download button. The request's fields are taken as given.
- The "coordinates from place name" precondition (`found_address` in the session) is UI state and is not modelled.
- The SerpAPI and Nominatim network calls are oracles (parameters), and so are the API key and the `location_str` text `@lat,lon,zoomz` formatting.
- Floating-point arithmetic is replaced by exact reals:
  - the grid spacing;
  - the degree offsets;
  - the 0.01 and 0.007 offsets;
  - the `:.0f` distance text, which is kept as a number.
- `math.cos` and `geodesic` are uninterpreted functions.
- Planner.GridSizeIsSix: holds over exact reals only. In double precision `101 * 2 / (101 * 0.4)` is 4.999999999999999, so `grid_size` is 5 for radius 101. The same happens for 12,606 of the 49,901 integer radii from 100 to 50000, though for no multiple of 100. The model always walks the 13 × 13 square, where the code walks 11 × 11 for those radii.
- Search.SearchArea: the geodesic distance `meters` is total in the model. The library's `geodesic` raises `ValueError` for a latitude outside [-90, 90] or a non-finite coordinate, and such latitudes are reachable. The latitude input has no bounds (app.py:321-326), and a centre near a pole puts grid rows past 90°. The raise can come from the planner (app.py:102) or from the filter's `calculate_distance` calls (app.py:621, 647), and it reaches the outer `except` (app.py:721) and aborts the search. The model then returns rows, and its contract names only a first-request exception as a failure for a non-empty query.
- Planner.PlanLocations, Search.SearchArea and Search.SearchAreaUsesUniqueAggregate: require a non-zero cosine of the centre latitude when a radius is active, where Python would raise `ZeroDivisionError`. A float cosine of a latitude in degrees is never exactly zero, so no caller is excluded in practice.
- Place records are typed: each dictionary key is an `Option`. A JSON `null` is treated like a missing key. Non-dictionary `gps_coordinates` or `service_options` values, which would raise in Python, are not modelled. Python's cross-type equality in keys (e.g. `1 == 1.0`) does not arise.
- Truthiness of `takeout` / `テイクアウト` is modelled for booleans only.
- Dispatch.Paginate: after the sixth full page, the source still calls `get_next()` once. That extra call's answer is consumed but never merged, and its exception is swallowed. The model consumes one scripted response there and merges nothing, so the extra call has no observable effect beyond that.
- The console printing of the command-line extractor is not modelled: its listings, the phone-only list, the debug keys and the default query and location arguments. Only the entries and the CSV lines are modelled.
- The rendering of rows after the filter (pandas data frame, sidebar list of 20) is not modelled.

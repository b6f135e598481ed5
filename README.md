# Traffic analyzer: the verified core

The traffic analyzer is a route planner for Bangalore with three parts:

- a React front end that plans routes with Google Maps;
- a TomTom-based 24-hour traffic chart;
- two Flask back ends. One predicts road traffic volume with a trained regressor. The other serves hourly travel-time statistics from a CSV table.

This project models the deterministic logic inside those parts, and proves what that logic promises. Every external answer is an input of the model. That covers the geocoder, the Places, Directions and TomTom services, OpenWeather, the regressor and the clock.

The logic modelled:

- **Polyline decoder** (`polyline.dfy`). This is the Encoded Polyline Algorithm Format: 5-bit little-endian groups with a continuation bit, zig-zag signs, and running sums. Coordinates are integers in units of 1e-5 degree. The decoding loop is a method proved equal to a recursive decoder. The decoder returns every point list an encoder produces for it.
- **Three traffic classifiers**, kept apart:
  - the duration ratio of a route (`best_route.dfy`), by cross-multiplication: `10*t <= 11*n`;
  - the delay seconds of an hour (`traffic_chart.dfy`);
  - the predicted volume (`traffic_api.dfy`).

  Each is total, partitions its domain into intervals, and is monotone.
- **Two hourly tables.**
  - The TomTom chart (`traffic_chart.dfy`) has 24 placeholder slots. Each hour overwrites one slot, a failed hour leaves its placeholder, and progress only grows.
  - The hourly statistics endpoint (`hourly_stats.dfy`) has 24 buckets. An empty hour gets a placeholder, and the sample sizes add up to the matching rows.
- **List operations shared by the map features** (`places.dfy`, `ev_stations.dfy`, `accident_zones.dfy`, `parking_spots.dfy`):
  - stride sampling;
  - first-wins merge by `place_id`;
  - minimum over route segments;
  - take-N, drop-null and sort by key.

  Distance and the on-route test are uninterpreted functions.
- **Navigation** (`location_tracking.dfy`). The step cursor advances by exactly one step within 50 m. The remaining time is a suffix sum. The model also covers the watch and simulation handles, and the simulation walk.
- **Small mappers, filters and page state.**
  - Transit step categories and tabs: `transit_results.dfy`, `transit_cards.dfy`.
  - Parking price and rating display: `parking_panel.dfy`.
  - Route-form edits and button rules: `route_form.dfy`.
  - The prediction page's guards and counts: `traffic_prediction.dfy`.
  - The back-end validation and row selection: `traffic_api.dfy`, `hourly_stats.dfy`.

`common.dfy` holds the helpers the modules share:

- the Option type;
- decimal rendering;
- JavaScript's `Math.round`, and truncation toward zero;
- ASCII case mapping;
- `includes`, and the white space of `trim`.

`directions.dfy` holds the Directions result types.

The model follows the code wherever the code differs from the intent a reader might assume:

- `stopTracking` does not clear a watch handle of 0.
- With nothing selected, a parking card without an id is marked selected.
- `replace` removes only the first ", India".
- `getPriceLevelColor` shows a negative level in yellow.
- `repeat` throws for a rating of 5.5 or more.
- A null request body makes the prediction and history endpoints fail with status 500, because they call `.get` on `None`.

## Model

| member | source | states |
|---|---|---|
| Polyline.LowBits | traffic-prediction-app/frontend/src/utils/maps.js:39 | the 5-bit group `(code - 63) & 0x1f` is always in 0..31, also past the end of the text |
| Polyline.ReadVarint | traffic-prediction-app/frontend/src/utils/maps.js:37-41 | reading one value yields a non-negative accumulator and strictly advances the index, so decoding terminates |
| Polyline.Accumulate | traffic-prediction-app/frontend/src/utils/maps.js:29-55 | the running sums give one point per delta pair |
| Polyline.Decode | traffic-prediction-app/frontend/src/utils/maps.js:26-33 | a missing or empty input decodes to []; the decoder emits at most one point per two input characters (plus one) |
| Polyline.DeltasLength | traffic-prediction-app/frontend/src/utils/maps.js:33-56 | each delta pair consumes at least two characters, and nothing is read once the index passes the end |
| Polyline.ReadChunks | traffic-prediction-app/frontend/src/utils/maps.js:37-41 | the do-while loop over `shift`/`result`/`index` computes exactly the value and next index of the recursive reader |
| Polyline.DecodePolyline | traffic-prediction-app/frontend/src/utils/maps.js:25-59 | the imperative decoder with its nested loops returns exactly the points of the recursive decoder |
| Polyline.UnZigZagOfZigZag | traffic-prediction-app/frontend/src/utils/maps.js:42 | the sign rule `odd ? ~(r >> 1) : r >> 1` inverts zig-zag encoding for every integer |
| Polyline.ReadEncodedVarint | traffic-prediction-app/frontend/src/utils/maps.js:37-41 | reading the 5-bit little-endian encoding of n recovers n and stops right after it |
| Polyline.DeltasOfEncoding | traffic-prediction-app/frontend/src/utils/maps.js:33-56 | the outer loop recovers every encoded (lat, lng) delta pair in order, lat before lng |
| Polyline.AccumulateDifferences | traffic-prediction-app/frontend/src/utils/maps.js:43-53 | summing the successive differences of a point list gives the list back |
| Polyline.DecodeEncode | traffic-prediction-app/frontend/src/utils/maps.js:24-59 | decoding the Encoded Polyline encoding of any list of E5 points returns that list |
| Polyline.AccumulateAt | traffic-prediction-app/frontend/src/utils/maps.js:43-55 | point k of the accumulation is the start plus the sums of the first k+1 lat and lng deltas |
| Polyline.DecodedPointIsPrefixSum | traffic-prediction-app/frontend/src/utils/maps.js:29-55 | decoded point k is the sum of the first k+1 lat deltas and of the first k+1 lng deltas |
| TrafficChart.FormatXAxis | traffic-prediction-app/frontend/src/components/TrafficChart.js:11-15 | 0 is "12AM", 12 is "12PM", 13..23 are (h-12)"PM" and 1..11 are h"AM" |
| TrafficChart.FormatXAxisShape | traffic-prediction-app/frontend/src/components/TrafficChart.js:11-15 | every hour of the day is labelled with a 12-hour number in 1..12 and AM before noon, PM from noon |
| TrafficChart.FormatXAxisInjective | traffic-prediction-app/frontend/src/components/TrafficChart.js:11-15 | no two hours of the day share an axis label |
| TrafficChart.GetTrafficLevel | traffic-prediction-app/frontend/src/components/TrafficChart.js:137-141 | Low iff delay < 300 s, Medium iff 300 <= delay < 600, High iff delay >= 600 |
| TrafficChart.GetTrafficLevelMonotone | traffic-prediction-app/frontend/src/components/TrafficChart.js:137-141 | a longer delay never gives a lower level |
| TrafficChart.Placeholders | traffic-prediction-app/frontend/src/components/TrafficChart.js:54-65 | the initial table has exactly 24 entries and entry i is the placeholder of hour i |
| TrafficChart.FirstForHour | traffic-prediction-app/frontend/src/components/TrafficChart.js:94-96 | the search finds the first forecast item of the hour, or none exactly when no item has that hour |
| TrafficChart.FindWeather | traffic-prediction-app/frontend/src/components/TrafficChart.js:94-96 | `find` returns the first forecast item of that hour, or undefined when there is none |
| TrafficChart.HourFromSummary | traffic-prediction-app/frontend/src/components/TrafficChart.js:99-112 | a fetched hour keeps its hour, rounds seconds to minutes, classifies its delay, and takes the hour's weather or "N/A" |
| TrafficChart.Progress | traffic-prediction-app/frontend/src/components/TrafficChart.js:117 | round((i+1)*100/24) lies in 0..100, is positive after any hour and is 100 after the last |
| TrafficChart.ProgressMonotone | traffic-prediction-app/frontend/src/components/TrafficChart.js:117 | progress never decreases from one hour to the next |
| TrafficChart.FinalTable | traffic-prediction-app/frontend/src/components/TrafficChart.js:71-127 | the finished table has 24 slots, slot i decided by hour i's answer alone |
| TrafficChart.FinalTableSlots | traffic-prediction-app/frontend/src/components/TrafficChart.js:71-127 | slot i has hour i; it is still the placeholder exactly when hour i failed, otherwise it is built from hour i's summary |
| TrafficChart.PausesBefore | traffic-prediction-app/frontend/src/components/TrafficChart.js:120-122 | the 1 s pause follows exactly the successful hours below 23, so at most 23 pauses and none after hour 23 |
| TrafficChart.Chart.constructor | traffic-prediction-app/frontend/src/components/TrafficChart.js:18-23 | the chart starts empty, not loading, without error and at progress 0 |
| TrafficChart.Chart.FetchHour | traffic-prediction-app/frontend/src/components/TrafficChart.js:72-126 | a successful hour overwrites only slot i, keeps 24 slots and reports progress; a failed hour changes nothing |
| TrafficChart.Chart.FetchAllHours | traffic-prediction-app/frontend/src/components/TrafficChart.js:53-127 | the 24-iteration loop ends with the final table and pauses, and a progress log that starts at 0, never decreases and stays <= 100 |
| TrafficChart.Chart.GetTrafficData | traffic-prediction-app/frontend/src/components/TrafficChart.js:24-135 | a missing geocode or forecast sets an error and an empty table; otherwise the final table; loading always ends, with progress 100 |
| BestRoute.ClassifyRatio | traffic-prediction-app/frontend/src/components/BestRoute.js:170-174 | Low iff traffic <= 1.1 normal, Moderate iff 1.1 normal < traffic <= 1.3 normal, Heavy otherwise (also for a zero normal time) |
| BestRoute.ClassifyRatioMonotone | traffic-prediction-app/frontend/src/components/BestRoute.js:170-174 | more time in traffic never gives a lighter level |
| BestRoute.RouteInfoOf | traffic-prediction-app/frontend/src/components/BestRoute.js:154-197 | a route without a first-leg duration is dropped; otherwise it is labelled "Route k+1" with its index colour, classified by ratio, with delay round((traffic - normal)/60) |
| BestRoute.NoTrafficDurationIsLow | traffic-prediction-app/frontend/src/components/BestRoute.js:163-174 | without a traffic duration the route is Low with a 0-minute delay |
| BestRoute.SomePositionsBounds | traffic-prediction-app/frontend/src/components/BestRoute.js:153-198 | the positions of the kept results lie inside the list |
| BestRoute.SomePositionsIncreasing | traffic-prediction-app/frontend/src/components/BestRoute.js:153-198 | the positions of the kept results strictly increase |
| BestRoute.SomePositionsComplete | traffic-prediction-app/frontend/src/components/BestRoute.js:153-198 | every non-null result has its position listed |
| BestRoute.PresentAtPositions | traffic-prediction-app/frontend/src/components/BestRoute.js:153-198 | the j-th kept value is the value at the j-th listed position |
| BestRoute.KeptIndicesKept | traffic-prediction-app/frontend/src/components/BestRoute.js:153-198 | every kept index is a route with a first-leg duration |
| BestRoute.KeptIndicesIncreasing | traffic-prediction-app/frontend/src/components/BestRoute.js:153-198 | the kept indices strictly increase, so the filter keeps the routes' order |
| BestRoute.KeptIndicesComplete | traffic-prediction-app/frontend/src/components/BestRoute.js:153-198 | every route with a first-leg duration is kept |
| BestRoute.ProcessRoutesIsKept | traffic-prediction-app/frontend/src/components/BestRoute.js:153-198 | the labels are an order-preserving subsequence of the routes, each labelled with its original index |
| BestRoute.ErrorMessageCases | traffic-prediction-app/frontend/src/components/BestRoute.js:204-228 | each of the five failure statuses gets its own message and every other status gets the generic one |
| BestRoute.Planner.constructor | traffic-prediction-app/frontend/src/components/BestRoute.js:43-58 | the planner starts without routes, stops, selections, suggestions or navigation |
| BestRoute.Planner.DirectionsCallback | traffic-prediction-app/frontend/src/components/BestRoute.js:135-234 | OK with routes stores them with their labels and the destination weather; any other reply sets the status message and clears routes and weather; loading always ends |
| BestRoute.Planner.AddWaypoint | traffic-prediction-app/frontend/src/components/BestRoute.js:250-259 | appends exactly one stopover `x + ", India"` after the other stops and clears the input, nothing else changes |
| BestRoute.Planner.HandleStopNavigation | traffic-prediction-app/frontend/src/components/BestRoute.js:337-345 | navigation stops, the cursor goes back to 0 with empty texts and tracking stops |
| BestRoute.Planner.HandleSuggestionSelect | traffic-prediction-app/frontend/src/components/BestRoute.js:348-357 | only the named field receives the suggestion, and the suggestion list is cleared |
| LocationTracking.NextStep | traffic-prediction-app/frontend/src/hooks/useLocationTracking.js:97-116 | the cursor stays or advances by one, and advances iff a next step exists and its start is strictly within 50 m |
| LocationTracking.NextStepBounded | traffic-prediction-app/frontend/src/hooks/useLocationTracking.js:97-116 | the cursor never passes the last step |
| LocationTracking.StepAfterBounds | traffic-prediction-app/frontend/src/hooks/useLocationTracking.js:97-116 | over any run of positions the cursor never decreases, never passes the last step and moves at most once per position |
| LocationTracking.RemainingSecondsAntitone | traffic-prediction-app/frontend/src/hooks/useLocationTracking.js:108-109 | the remaining time never grows as the cursor advances |
| LocationTracking.RemainingSecondsSplit | traffic-prediction-app/frontend/src/hooks/useLocationTracking.js:108-109 | the remaining time from step i is step i's duration plus the remaining time after it |
| LocationTracking.MinutesText | traffic-prediction-app/frontend/src/hooks/useLocationTracking.js:110 | the ETA text is round(seconds/60) followed by " mins" |
| LocationTracking.Navigation.constructor | traffic-prediction-app/frontend/src/components/BestRoute.js:59-62 | the cursor starts at step 0 with empty texts |
| LocationTracking.Navigation.Reduce | traffic-prediction-app/frontend/src/hooks/useLocationTracking.js:97-116 | the cursor moves as NextStep says; on an advance the texts come from the new step and the ETA is the suffix sum from it; otherwise nothing changes |
| LocationTracking.Navigation.Reset | traffic-prediction-app/frontend/src/components/BestRoute.js:341-344 | the cursor goes back to 0 and the texts are emptied |
| LocationTracking.Tracker.constructor | traffic-prediction-app/frontend/src/hooks/useLocationTracking.js:4-11 | not tracking, no position, permission "prompt", no handles |
| LocationTracking.Tracker.RequestLocationPermission | traffic-prediction-app/frontend/src/hooks/useLocationTracking.js:49-70 | "denied" returns false without requesting a position; any other state requests one and returns its outcome |
| LocationTracking.Tracker.StartTracking | traffic-prediction-app/frontend/src/hooks/useLocationTracking.js:72-129 | tracking starts on the route's steps and the watch handle is stored when geolocation exists |
| LocationTracking.Tracker.OnPosition | traffic-prediction-app/frontend/src/hooks/useLocationTracking.js:80-117 | the position is stored, the heading is recomputed only from a previous position, and the cursor is reduced |
| LocationTracking.Tracker.StopTracking | traffic-prediction-app/frontend/src/hooks/useLocationTracking.js:159-172 | tracking stops, the position is cleared and each non-zero handle is cleared and forgotten |
| LocationTracking.Tracker.OnPositionError | traffic-prediction-app/frontend/src/hooks/useLocationTracking.js:118-121 | a geolocation error stops tracking |
| LocationTracking.Tracker.SimulateMovement | traffic-prediction-app/frontend/src/hooks/useLocationTracking.js:131-139 | the simulation starts at index 0 of the path with its interval handle; every other tracker field, the permission state and the request count included, is unchanged |
| LocationTracking.Tracker.Tick | traffic-prediction-app/frontend/src/hooks/useLocationTracking.js:139-156 | while idx < len - 1 a tick moves to the next point and heads toward the one after; then tracking stops |
| Places.MergeById | traffic-prediction-app/frontend/src/hooks/useEvStations.js:143-149 | the Map-based loop computes the first-wins merge by place id |
| Places.FirstWithId | traffic-prediction-app/frontend/src/hooks/useAccidentZones.js:52-57 | the first position holding a given id, or none when no place has it |
| Places.MergedDistinct | traffic-prediction-app/frontend/src/hooks/useEvStations.js:143-149 | every merged place has an id and no id appears twice |
| Places.MergedComplete | traffic-prediction-app/frontend/src/hooks/useEvStations.js:143-149 | every id of the input survives, and nothing is invented |
| Places.MergedFirstWins | traffic-prediction-app/frontend/src/hooks/useAccidentZones.js:52-57 | each merged place is the first place with its id, and the merge keeps the order of first appearance |
| Places.EveryNth | traffic-prediction-app/frontend/src/hooks/useAccidentZones.js:48 | the stride samples are no more than the remaining path |
| Places.EveryNthSkip | traffic-prediction-app/frontend/src/hooks/useAccidentZones.js:48 | indices that are not multiples of the step are never sampled |
| Places.EveryNthAtMultiple | traffic-prediction-app/frontend/src/hooks/useEvStations.js:92-94 | a multiple of the step is sampled, and sampling continues one step later |
| Places.EveryNthLength | traffic-prediction-app/frontend/src/hooks/useAccidentZones.js:48 | from index i there are ceil((len - i)/step) samples |
| Places.EveryNthAt | traffic-prediction-app/frontend/src/hooks/useAccidentZones.js:48 | sample k is path[i + k*step] |
| Places.Insert | traffic-prediction-app/frontend/src/hooks/useEvStations.js:194 | inserting adds exactly the new element |
| Places.InsertSorted | traffic-prediction-app/frontend/src/hooks/useEvStations.js:194 | inserting into a sorted list keeps it sorted by key, with missing keys last |
| Places.SortByKey | traffic-prediction-app/frontend/src/hooks/useEvStations.js:194 | the sort is a permutation of its input, ascending by key with missing keys last |
| Places.InsertBeforeEqualKeys | traffic-prediction-app/frontend/src/hooks/useEvStations.js:194 | an inserted element goes in front of every element with the same key |
| Places.SortByKeyStable | traffic-prediction-app/frontend/src/hooks/useEvStations.js:194 | the sort is stable: the elements of any one key keep their input order |
| Common.Present | traffic-prediction-app/frontend/src/components/BestRoute.js:198 | dropping the nulls never gives more values than inputs |
| Common.PresentMembers | traffic-prediction-app/frontend/src/hooks/useEvStations.js:194 | dropping nulls keeps exactly the present values: each kept value is an input, and every non-null input is kept |
| Common.Filter | traffic-prediction-app/backend/src/traffic_api.py:123 | the kept elements are exactly the inputs that pass the test, never more than the input |
| Common.FilterAppend | traffic-prediction-app/backend/src/app.py:43-46 | filtering a concatenation filters its parts in turn |
| Common.FilterCons | traffic-prediction-app/frontend/src/hooks/useAccidentZones.js:76 | the first element is kept exactly when it passes, in front of the rest's kept elements |
| Places.SortedPresent | traffic-prediction-app/frontend/src/hooks/useEvStations.js:194 | the non-null values, sorted: no more than the input, in key order, each one of the inputs, and every present input among them |
| Places.Take | traffic-prediction-app/frontend/src/hooks/useEvStations.js:159 | `slice(0, n)` is the prefix of length min(n, len) |
| Places.FormatDistanceUnit | traffic-prediction-app/frontend/src/hooks/useEvStations.js:219-223 | "Distance unavailable" exactly for a missing or zero distance, km exactly from 1000 m, metres otherwise |
| Places.FormatDistanceMetres | traffic-prediction-app/frontend/src/hooks/useEvStations.js:219-223 | below 1000 m the label is the rounded whole number of metres |
| Places.FormatDistanceKilometres | traffic-prediction-app/frontend/src/hooks/useEvStations.js:219-223 | from 1000 m the label is the distance in km rounded to one decimal |
| EvStations.SampleRoutePoints | traffic-prediction-app/frontend/src/hooks/useEvStations.js:88-101 | the for-loop with push computes the stride samples followed by the last point |
| EvStations.RoutePointsShape | traffic-prediction-app/frontend/src/hooks/useEvStations.js:88-101 | a non-empty path gives ceil(len/step)+1 points: path[k*step] in order, then path[len-1] |
| EvStations.RoutePointsOfEmpty | traffic-prediction-app/frontend/src/hooks/useEvStations.js:91-96 | an empty path gives no points |
| EvStations.MinSegment | traffic-prediction-app/frontend/src/hooks/useEvStations.js:169-178 | the minimum over consecutive vertex pairs of d(p,a)+d(p,b) is attained by one segment and bounds every segment; none below 2 vertices |
| EvStations.DistanceToRoute | traffic-prediction-app/frontend/src/hooks/useEvStations.js:167-179 | the min loop computes that minimum, and null exactly for fewer than 2 vertices |
| EvStations.StationOf | traffic-prediction-app/frontend/src/hooks/useEvStations.js:159-191 | a place without a location is dropped; otherwise the station keeps its id, location and route distance; name and address take the details, then the place, then the fixed text, skipping empty texts; rating and rating count take the details, then the place, then 0, keeping a zero; the open state comes only from the details |
| EvStations.StationsProperties | traffic-prediction-app/frontend/src/hooks/useEvStations.js:159-195 | at most 20 stations, sorted by route distance with nulls last, each an enriched place, and every located place among them |
| EvStations.EvFinder.constructor | traffic-prediction-app/frontend/src/hooks/useEvStations.js:6-10 | no stations, nothing shown or selected, radius 1000 |
| EvStations.EvFinder.FindEvStations | traffic-prediction-app/frontend/src/hooks/useEvStations.js:103-204 | without the APIs nothing changes; otherwise the stations of the merged anchor searches are shown and loading ends |
| AccidentZones.SampleStep | traffic-prediction-app/frontend/src/hooks/useAccidentZones.js:47 | `max(1, floor(len/25))` is at least 1 |
| AccidentZones.SamplesShape | traffic-prediction-app/frontend/src/hooks/useAccidentZones.js:47-48 | the samples are path[k*step] in order, ceil(len/step) of them and never more than 49 |
| AccidentZones.ZoneOf | traffic-prediction-app/frontend/src/hooks/useAccidentZones.js:60-72 | a place without a location is dropped; rating and count default to 0; onRoute is the edge test |
| AccidentZones.Zones | traffic-prediction-app/frontend/src/hooks/useAccidentZones.js:60-73 | never more zones than unique places |
| AccidentZones.ZonesKeepLocated | traffic-prediction-app/frontend/src/hooks/useAccidentZones.js:60-73 | the zones are exactly the located unique places, each mapped by ZoneOf |
| AccidentZones.OnRoute | traffic-prediction-app/frontend/src/hooks/useAccidentZones.js:76 | the filter keeps exactly the on-route zones |
| AccidentZones.Warnings | traffic-prediction-app/frontend/src/hooks/useAccidentZones.js:76 | the warnings are the names of the first min(5, n) on-route zones, in zone order, a missing name printed as "undefined" |
| AccidentZones.WarningsPrefix | traffic-prediction-app/frontend/src/hooks/useAccidentZones.js:76 | once five zones are on the route, later zones do not change the warnings |
| AccidentZones.OnRouteAppend | traffic-prediction-app/frontend/src/hooks/useAccidentZones.js:76 | the on-route filter of a concatenation is the two parts' filters in turn |
| AccidentZones.OnRouteOne | traffic-prediction-app/frontend/src/hooks/useAccidentZones.js:76 | a single zone is kept exactly when it is on the route |
| AccidentZones.AccidentFinder.constructor | traffic-prediction-app/frontend/src/hooks/useAccidentZones.js:4-7 | no zones, nothing shown, no warnings |
| AccidentZones.AccidentFinder.FindAccidentZones | traffic-prediction-app/frontend/src/hooks/useAccidentZones.js:9-81 | the two readiness errors are thrown before any state change; an empty path writes no zones; otherwise the zones and warnings of the merged samples; loading ends |
| ParkingSpots.PriceLevelText | traffic-prediction-app/frontend/src/hooks/useParkingSpots.js:231-235 | 0..4 name Free to Very Expensive; null, undefined and every other level give "Price not available" |
| ParkingSpots.ParkingDistanceLabel | traffic-prediction-app/frontend/src/hooks/useParkingSpots.js:238-246 | unavailable exactly for a missing or zero distance, rounded metres below 1000, km from 1000 |
| ParkingSpots.SpotOf | traffic-prediction-app/frontend/src/hooks/useParkingSpots.js:131-186 | a result without a location is dropped; otherwise the spot keeps its id, location and distance from the destination; its name is its own or "Parking Area"; the address tries vicinity, the result's address, the details' address, then the fixed text; rating and count take the result, then the details, then 0, a zero falling through; the price level is the result's unless missing, then the details'; hours and open state come only from the details |
| ParkingSpots.SpotsProperties | traffic-prediction-app/frontend/src/hooks/useParkingSpots.js:128-215 | at most 10 spots, nearest first, each a card of the first 10 results, and every located one among them |
| ParkingSpots.ParkingFinder.constructor | traffic-prediction-app/frontend/src/hooks/useParkingSpots.js:4-8 | no spots, nothing shown or selected, radius 500 |
| ParkingSpots.ParkingFinder.FindParkingSpots | traffic-prediction-app/frontend/src/hooks/useParkingSpots.js:12-228 | no destination or no Places: no change; a failed geocode or missing service: empty and hidden as before; otherwise the nearby search (and the text search at twice the radius after a failure) gives the shown spots, ZERO_RESULTS giving an empty shown list |
| TransitResults.CategoryOf | traffic-prediction-app/frontend/src/components/TransitResultsCard.js:47-62 | a transit step is a bus or a train (bus test first, unclear means bus), a walking step walks, anything else is dropped |
| TransitResults.SelectMembers | traffic-prediction-app/frontend/src/components/TransitResultsCard.js:46-63 | an element is selected exactly when it is in the input with that category |
| TransitResults.InCategoryMembers | traffic-prediction-app/frontend/src/components/TransitResultsCard.js:46-63 | each category list holds exactly the steps of that category |
| TransitResults.SelectAppend | traffic-prediction-app/frontend/src/components/TransitResultsCard.js:46-63 | selection distributes over concatenation, so relative order is kept |
| TransitResults.InCategoryAppend | traffic-prediction-app/frontend/src/components/TransitResultsCard.js:46-63 | each category keeps the steps' original relative order |
| TransitResults.SelectPartition | traffic-prediction-app/frontend/src/components/TransitResultsCard.js:46-63 | the four categories together hold every element exactly once |
| TransitResults.CategoriesPartition | traffic-prediction-app/frontend/src/components/TransitResultsCard.js:46-63 | every step lands in exactly one of buses, trains, walking and dropped |
| TransitResults.CategorizeTransitSteps | traffic-prediction-app/frontend/src/components/TransitResultsCard.js:41-66 | the forEach with three pushes builds exactly the three category lists |
| TransitResults.FilteredStepsContents | traffic-prediction-app/frontend/src/components/TransitResultsCard.js:91-100 | a tab lists exactly its vehicle's and the walking steps, and never more steps than the leg has |
| TransitResults.HiddenIff | traffic-prediction-app/frontend/src/components/TransitResultsCard.js:166-168 | on the bus tab a route is hidden iff it has no bus step, on the train tab iff no train step; never on 'all' |
| TransitResults.RouteShownIff | traffic-prediction-app/frontend/src/components/TransitResultsCard.js:158-168 | a route gets a card iff it has a first leg and, on a vehicle tab, a step of that vehicle |
| TransitResults.CardView | traffic-prediction-app/frontend/src/components/TransitResultsCard.js:8-38 | loading first, then the error, then the prompt for missing or empty routes, else the routes |
| TransitResults.Toggled | traffic-prediction-app/frontend/src/components/TransitResultsCard.js:176 | clicking the expanded route collapses it to -1, any other route becomes the expanded one |
| TransitResults.TransitCard.constructor | traffic-prediction-app/frontend/src/components/TransitResultsCard.js:5-6 | route 0 expanded on the 'all' tab |
| TransitResults.TransitCard.SetActiveTab | traffic-prediction-app/frontend/src/components/TransitResultsCard.js:112-145 | a tab button sets only the tab |
| TransitResults.TransitCard.ToggleRoute | traffic-prediction-app/frontend/src/components/TransitResultsCard.js:170-176 | the header click toggles only the expanded route |
| TransitResults.VehicleColor | traffic-prediction-app/frontend/src/components/TransitResultsCard.js:80-88 | purple exactly for a TRAIN, RAIL, SUBWAY or METRO type after upper-casing, blue for anything else including empty |
| TransitResults.VehicleIcon | traffic-prediction-app/frontend/src/components/TransitResultsCard.js:69-77 | the train icon exactly for the same types, the bus icon otherwise |
| TransitResults.VehicleStyleCaseInsensitive | traffic-prediction-app/frontend/src/components/TransitResultsCard.js:69-88 | colour and icon always agree and ignore letter case |
| TransitCards.TransitStepsKept | traffic-prediction-app/frontend/src/components/TransitCards.js:20-22 | exactly the TRANSIT steps with transit details are kept |
| TransitCards.TransitStepsAppend | traffic-prediction-app/frontend/src/components/TransitCards.js:20-22 | the filter keeps the steps' original order |
| TransitCards.DetailOf | traffic-prediction-app/frontend/src/components/TransitCards.js:24-43 | the fixed defaults UNKNOWN, name then short name then "Unknown Line", #666666, #FFFFFF, "Unknown" stops and 0 stops; a step without a line throws |
| TransitCards.AllDetailsShape | traffic-prediction-app/frontend/src/components/TransitCards.js:24-44 | one detail per step in order, and a throw exactly when some step has no line |
| TransitCards.TransitDetailsOfMissing | traffic-prediction-app/frontend/src/components/TransitCards.js:16-18 | a missing leg list, first leg or step list gives [] |
| TransitCards.TransitDetailsOfShape | traffic-prediction-app/frontend/src/components/TransitCards.js:15-45 | the details are those of the route's transit steps, in order, or a throw exactly for a step without a line |
| TransitCards.BusTrainKept | traffic-prediction-app/frontend/src/components/TransitCards.js:55-62 | exactly the details whose type is BUS, SUBWAY, RAIL, TRAIN, TRAM or LIGHT_RAIL are kept |
| TransitCards.EntryOf | traffic-prediction-app/frontend/src/components/TransitCards.js:64-73 | a route gets an entry iff it has a bus or train detail; the entry keeps its index, route and only those details |
| TransitCards.RouteEntry | traffic-prediction-app/frontend/src/components/TransitCards.js:51-74 | the map callback throws exactly when the route's details throw, and gives an entry exactly for an included route, at its own index |
| TransitCards.CollectShape | traffic-prediction-app/frontend/src/components/TransitCards.js:51-74 | the map throws exactly when some callback throws, and otherwise holds each callback's result at its position |
| TransitCards.PresentEntries | traffic-prediction-app/frontend/src/components/TransitCards.js:74 | `filter(Boolean)` keeps only entries that stand at their own index |
| TransitCards.PresentOrdered | traffic-prediction-app/frontend/src/components/TransitCards.js:74 | `filter(Boolean)` keeps the entries in index order |
| TransitCards.PresentComplete | traffic-prediction-app/frontend/src/components/TransitCards.js:74 | `filter(Boolean)` drops no entry that is not null |
| TransitCards.FilteredTransitRoutes | traffic-prediction-app/frontend/src/components/TransitCards.js:48-49 | missing or empty directions give [] |
| TransitCards.FilteredTransitRoutesThrows | traffic-prediction-app/frontend/src/components/TransitCards.js:47-74 | the list throws exactly when some route's details throw |
| TransitCards.FilteredTransitRoutesEntries | traffic-prediction-app/frontend/src/components/TransitCards.js:47-74 | each entry is an included route at its original index with its bus and train details |
| TransitCards.FilteredTransitRoutesOrdered | traffic-prediction-app/frontend/src/components/TransitCards.js:47-74 | the entries keep the routes' input order |
| TransitCards.FilteredTransitRoutesComplete | traffic-prediction-app/frontend/src/components/TransitCards.js:47-74 | every included route has an entry |
| TransitCards.VehicleTypeName | traffic-prediction-app/frontend/src/components/TransitCards.js:89-99 | RAIL and TRAIN are "Train", each other known type has its own name, and any unknown type is "Transit" |
| TransitCards.IconFollowsName | traffic-prediction-app/frontend/src/components/TransitCards.js:77-99 | types with the same name share an icon, and every unknown type gets the bus icon |
| ParkingPanel.PanelOf | traffic-prediction-app/frontend/src/components/ParkingPanel.js:14-71 | nothing iff the panel is hidden, the no-results message iff there are no spots, otherwise one card per spot |
| ParkingPanel.PriceLevelColor | traffic-prediction-app/frontend/src/components/ParkingPanel.js:17-22 | gray iff missing, green iff 0, yellow for any other level up to 2 (negative ones too), red from 3 |
| ParkingPanel.PriceColorMatchesText | traffic-prediction-app/frontend/src/components/ParkingPanel.js:17-22 | green exactly for "Free"; gray only with "Price not available"; unnamed levels are red above 4 and yellow below 0 |
| ParkingPanel.Mod1 | traffic-prediction-app/frontend/src/components/ParkingPanel.js:27 | `x % 1` lies in [0, 1) for non-negative x and in (-1, 0] for negative x |
| ParkingPanel.StarCounts | traffic-prediction-app/frontend/src/components/ParkingPanel.js:25-29 | floor(rating) full stars, a half star iff `rating % 1 >= 0.5`, and the three counts add up to 5 |
| ParkingPanel.Repeat | traffic-prediction-app/frontend/src/components/ParkingPanel.js:32-34 | `repeat(n)` gives n copies, and throws iff n is negative |
| ParkingPanel.RatingStarsShape | traffic-prediction-app/frontend/src/components/ParkingPanel.js:25-37 | a rating in 0..5 shows exactly five stars, the full ones first; from 5.5 the render throws |
| ParkingPanel.MarkedSelectedIff | traffic-prediction-app/frontend/src/components/ParkingPanel.js:75 | a card is marked iff its id equals the selected spot's id; with nothing selected, iff it has no id; the selected spot's card is marked |
| ParkingPanel.HoursOf | traffic-prediction-app/frontend/src/components/ParkingPanel.js:134-146 | no preview for no hours; otherwise the first min(2, n) entries and "+ n-2 more days" iff n > 2 |
| ParkingPanel.HoursAccounted | traffic-prediction-app/frontend/src/components/ParkingPanel.js:138-146 | the entries shown plus the number in the "more" line make up the whole list |
| ParkingPanel.StatusText | traffic-prediction-app/frontend/src/components/ParkingPanel.js:119-131 | no status line iff isOpen is null, otherwise "Open Now" or "Closed Now" |
| RouteForm.Form.constructor | traffic-prediction-app/frontend/src/components/RouteForm.js:36-37 | no active field, no list shown |
| RouteForm.Form.HandleInputChange | traffic-prediction-app/frontend/src/components/RouteForm.js:43-53 | the value always goes to its own field; over two characters it searches and shows the list, otherwise the list is hidden and cleared |
| RouteForm.Form.HandleSuggestionClick | traffic-prediction-app/frontend/src/components/RouteForm.js:56-60 | the suggestion goes to the active field only, then the list is hidden and no field is active |
| RouteForm.Form.RemoveWaypoint | traffic-prediction-app/frontend/src/components/RouteForm.js:79-82 | the stops become the filtered list, nothing else changes |
| RouteForm.KeepOthersIs | traffic-prediction-app/frontend/src/components/RouteForm.js:80 | the filter from a position on drops exactly the removed index |
| RouteForm.RemoveAtIs | traffic-prediction-app/frontend/src/components/RouteForm.js:79-82 | removing position i drops exactly that stop and keeps the others in order; an index outside the list changes nothing |
| RouteForm.RemoveLastUndoesAdd | traffic-prediction-app/frontend/src/components/RouteForm.js:80 | removing the stop just added restores the previous list |
| RouteForm.AddStopDisabledIff | traffic-prediction-app/frontend/src/components/RouteForm.js:258-259 | "Add Stop" is disabled iff the input is only white space, and an enabled click has a non-empty input |
| RouteForm.SearchButtonsAgree | traffic-prediction-app/frontend/src/components/RouteForm.js:198-291 | an enabled "Find Route" means an idle parking search is enabled; an enabled parking search means an idle EV search is enabled; stops without a destination enable only the EV search |
| RouteForm.FirstOccurrence | traffic-prediction-app/frontend/src/components/RouteForm.js:343 | the first position from which the pattern occurs, or none when it never does |
| RouteForm.NoStraddle | traffic-prediction-app/frontend/src/components/RouteForm.js:343 | an appended ", India" cannot overlap an earlier occurrence in a text without one |
| RouteForm.ChipLabelOfAdded | traffic-prediction-app/frontend/src/components/RouteForm.js:343 | a stop added as x, x without ", India", is shown as x |
| RouteForm.ChipLabelShape | traffic-prediction-app/frontend/src/components/RouteForm.js:343 | the label strips exactly one ", India" when there is one and leaves other texts unchanged |
| TrafficPrediction.Page.constructor | traffic-prediction-app/frontend/src/components/TrafficPrediction.js:5-11 | no locations, selections, results or error; not loading |
| TrafficPrediction.Page.FetchLocations | traffic-prediction-app/frontend/src/components/TrafficPrediction.js:316-326 | success stores the locations, an unsuccessful reply changes nothing, a network error sets the message |
| TrafficPrediction.Page.HandleAreaChange | traffic-prediction-app/frontend/src/components/TrafficPrediction.js:328-334 | sets the area and clears the road, the prediction and the history |
| TrafficPrediction.Page.HandleRoadChange | traffic-prediction-app/frontend/src/components/TrafficPrediction.js:336-340 | sets the road and clears both results but keeps the area |
| TrafficPrediction.Page.PredictTraffic | traffic-prediction-app/frontend/src/components/TrafficPrediction.js:342-368 | a missing area or road sets the error and sends nothing; otherwise one request, the prediction or its error, and loading ends |
| TrafficPrediction.Page.FetchHistoricalData | traffic-prediction-app/frontend/src/components/TrafficPrediction.js:370-397 | the same guard; the request asks for 15 days; the history or its error; loading ends |
| TrafficPrediction.TrafficLevelColor | traffic-prediction-app/frontend/src/components/TrafficPrediction.js:399-412 | the four levels, compared lower-cased, get their colours and anything else, null included, gets #666 |
| TrafficPrediction.TrafficLevelColorCaseInsensitive | traffic-prediction-app/frontend/src/components/TrafficPrediction.js:399-400 | upper-casing a level never changes its colour |
| TrafficPrediction.RoadCountIsCombinations | traffic-prediction-app/frontend/src/components/TrafficPrediction.js:426-433 | the reduce over list lengths equals the length of the flattened list |
| TrafficPrediction.StatsOf | traffic-prediction-app/frontend/src/components/TrafficPrediction.js:423-433 | the header counts the areas, and its "Roads" and "Combinations" always agree |
| TrafficApi.TrafficLevel | traffic-prediction-app/backend/src/traffic_api.py:181-189 | Low below 20000, Moderate below 40000, High below 60000, Very High otherwise |
| TrafficApi.TrafficLevelMonotone | traffic-prediction-app/backend/src/traffic_api.py:181-189 | a higher volume never gives a lower level |
| TrafficApi.LevelOfReportedVolume | traffic-prediction-app/backend/src/traffic_api.py:197-198 | the level of the truncated volume is the level of the untruncated one, so the two reported fields agree |
| TrafficApi.Matching | traffic-prediction-app/backend/src/traffic_api.py:123 | exactly the rows of that area and road; as a Common.Filter it keeps the data set's order |
| TrafficApi.Selected | traffic-prediction-app/backend/src/traffic_api.py:110-128 | 500 iff the body is null, 400 iff area or road is missing or empty, 404 iff no row matches, else the non-empty matching rows |
| TrafficApi.NewestFirstOrdered | traffic-prediction-app/backend/src/traffic_api.py:243 | the sort by date descending is a permutation of its rows, newest first |
| TrafficApi.Recent | traffic-prediction-app/backend/src/traffic_api.py:131 | the row used is a matching row with the latest date |
| TrafficApi.Tail | traffic-prediction-app/backend/src/traffic_api.py:192 | `tail(n)` is the last min(n, len) rows |
| TrafficApi.PredictTrafficReply | traffic-prediction-app/backend/src/traffic_api.py:106-211 | errors are the selection's; success echoes area and road, reports the truncated prediction and its level, the latest row's conditions and the last min(7, n) rows |
| TrafficApi.Head | traffic-prediction-app/backend/src/traffic_api.py:243 | `head(None)` is every row; `head(n)` is the first min(n, len) rows, and for negative n all but the last abs(n) |
| TrafficApi.RecentRowsProperties | traffic-prediction-app/backend/src/traffic_api.py:226-243 | errors are the selection's; a missing days key gives the 30 latest rows, a null one every row latest first, a number n the first n of them (all but the last abs(n) when negative); all rows are the pair's, newest first |
| TrafficApi.ChartRowOf | traffic-prediction-app/backend/src/traffic_api.py:248-254 | a chart row keeps date, speed, congestion and weather and truncates the volume |
| TrafficApi.GetHistoricalData | traffic-prediction-app/backend/src/traffic_api.py:219-263 | the appending loop returns the selection's errors, or the chart row of each recent row in order |
| TrafficApi.Distinct | traffic-prediction-app/backend/src/traffic_api.py:92-93 | `unique()` has no repeats, the same members, and is no longer than its input |
| TrafficApi.RoadsOf | traffic-prediction-app/backend/src/traffic_api.py:93 | exactly the roads that occur with that area |
| TrafficApi.GetLocations | traffic-prediction-app/backend/src/traffic_api.py:87-99 | the loop filling the dict builds the locations map |
| TrafficApi.LocationsOfMeaning | traffic-prediction-app/backend/src/traffic_api.py:91-94 | each area occurs once as a key, the keys are exactly the areas, and each area's list holds exactly its roads without repeats |
| HourlyStats.MinOf | traffic-prediction-app/backend/src/app.py:60 | the minimum travel time is one of the times and bounds all of them |
| HourlyStats.MaxOf | traffic-prediction-app/backend/src/app.py:61 | the maximum travel time is one of the times and bounds all of them |
| HourlyStats.MeanBetween | traffic-prediction-app/backend/src/app.py:59-61 | the mean lies between the minimum and the maximum |
| HourlyStats.StrLessIrreflexive | traffic-prediction-app/backend/src/app.py:62-63 | Python's string order never puts a string before itself |
| HourlyStats.StrLessTransitive | traffic-prediction-app/backend/src/app.py:62-63 | Python's string order is transitive |
| HourlyStats.BetterTransitive | traffic-prediction-app/backend/src/app.py:62-63 | the mode's preference (more frequent, then smaller) is transitive |
| HourlyStats.Best | traffic-prediction-app/backend/src/app.py:62-63 | the candidate kept is never beaten by another candidate |
| HourlyStats.Mode | traffic-prediction-app/backend/src/app.py:62-63 | `mode().iloc[0]` is a value of the column with maximal count, the smallest such one |
| HourlyStats.RouteRows | traffic-prediction-app/backend/src/app.py:43-46 | exactly the rows of that source and destination; as a Common.Filter it keeps the data set's order |
| HourlyStats.RowsAt | traffic-prediction-app/backend/src/app.py:54 | exactly the rows of that hour; as a Common.Filter it keeps their order |
| HourlyStats.HourlyTable | traffic-prediction-app/backend/src/app.py:52-79 | the table has exactly 24 entries |
| HourlyStats.Checked | traffic-prediction-app/backend/src/app.py:33-49 | 400 iff no or empty JSON, 400 iff source or destination is missing or empty, 404 iff no row matches, and a pass only with rows to group |
| HourlyStats.GetTrafficData | traffic-prediction-app/backend/src/app.py:30-81 | the 24-iteration loop returns the validation error or the hourly table of the route's rows |
| HourlyStats.HourlyStatsOf | traffic-prediction-app/backend/src/app.py:53-79 | the hour loop builds exactly the 24-entry table, entry h the statistics of hour h |
| HourlyStats.HourlyTableEntries | traffic-prediction-app/backend/src/app.py:56-77 | entry h has hour h; an empty hour is 0/0/0, "No Data", size 0 and the first row's route id; a busy hour counts its rows, has min <= mean <= max and takes its labels from its rows |
| HourlyStats.SizesBelowIsCount | traffic-prediction-app/backend/src/app.py:52-65 | the sample sizes of the first n hours add up to the rows with an hour below n |
| HourlyStats.SampleSizesSum | traffic-prediction-app/backend/src/app.py:52-65 | the 24 sample sizes add up to the number of the route's rows |
| Common.NatToString | traffic-prediction-app/frontend/src/components/ParkingPanel.js:143 | the decimal text of a number is non-empty and all digits |
| Common.DigitsValueOfNatToString | traffic-prediction-app/frontend/src/components/ParkingPanel.js:143 | reading back the decimal text gives the number |
| Common.NatToStringInjective | traffic-prediction-app/frontend/src/components/TrafficChart.js:11-15 | different numbers have different texts |
| Common.IntToString | traffic-prediction-app/frontend/src/hooks/useEvStations.js:221 | the text starts with a minus sign exactly for a negative number, and is digits otherwise |
| Common.IntToStringInjective | traffic-prediction-app/frontend/src/hooks/useEvStations.js:221 | distinct integers give distinct texts |
| Common.Round | traffic-prediction-app/frontend/src/hooks/useEvStations.js:221 | `Math.round` is the nearest integer, halves up |
| Common.Trunc | traffic-prediction-app/backend/src/traffic_api.py:197 | `int()` of a float keeps its sign and lies less than 1 from it, toward zero |
| Common.RoundDiv | traffic-prediction-app/frontend/src/hooks/useLocationTracking.js:110 | `Math.round(a / b)` is the nearest integer to the quotient, halves up |
| Common.RoundDivMonotone | traffic-prediction-app/frontend/src/components/TrafficChart.js:117 | the rounded quotient never decreases as the numerator grows |
| Common.ToUpper | traffic-prediction-app/frontend/src/components/TransitResultsCard.js:72 | the same length, no lower-case letter left, letters stay letters, everything else kept |
| Common.ToLower | traffic-prediction-app/frontend/src/components/TrafficPrediction.js:400 | the same length, no upper-case letter left, letters stay letters, everything else kept |
| Common.CaseInsensitive | traffic-prediction-app/frontend/src/components/TrafficPrediction.js:400 | lower-casing an upper-cased text gives the lower-cased text, and the other way round |
| Common.CaseIdempotent | traffic-prediction-app/frontend/src/components/TransitResultsCard.js:72 | mapping the case twice is mapping it once |
| Common.ContainsIff | traffic-prediction-app/frontend/src/components/TransitResultsCard.js:52 | `includes` holds iff the pattern occurs at some position |
| Common.TrimEmptyIff | traffic-prediction-app/frontend/src/components/RouteForm.js:259 | `trim()` is empty iff the text is white space only |

## Left out

- Network and SDK calls are inputs of the model: their answers are parameters, and the requests are recorded in state. This covers the Google Geocoder, Places, Directions and Autocomplete, TomTom, OpenWeather and axios.
- Spherical geometry (`computeDistanceBetween`, `computeHeading`, `isLocationOnEdge`) is an uninterpreted function parameter, so no geometric fact about these functions is proved.
- Promise fan-out, `setTimeout`, `setInterval`, retries and React's batching of state updates are not modelled. Each handler runs to completion, in order. The 1 s pauses of the chart are recorded as a list. The polling in useGoogleMapsServices.js is not part of this model.
- Rendering (JSX, styles, class names) is left out, except the values the views compute.
- Floating point is not modelled:
  - Coordinates are E5 integers.
  - Reals are exact.
  - `round(…, 2)` in app.py and `toFixed(1)` (shown as tenths) are not modelled.
  - The ratio classifier uses exact cross-multiplication, so a float boundary case such as `traffic/normal` rounding to exactly 1.1 is not reproduced.
- Polyline.Decode: uses unbounded integers, so JavaScript's 32-bit overflow on varints longer than six groups is not modelled.
- Machine learning and charts are left out. The regressor is a function parameter. Also not modelled:
  - the label encoders and their `ValueError` fallback;
  - the weekday and month features;
  - the matplotlib chart image;
  - `prediction_date`.
- Dates are day numbers, so `strftime` formatting is not modelled. CSV loading, `to_datetime` and `dropna` are replaced by a list of rows.
- TrafficApi.NewestFirstOrdered: pandas `sort_values` is not stable, so the contract does not fix the order among rows with equal dates. TrafficApi.Recent is stated as some latest row.
- TrafficApi.Distinct: the contract does not state that `unique()` keeps first-appearance order, although the definition does.
- Exceptions are not modelled beyond the ones named above. JSON values that are not strings, or a wrong content type, are not modelled. A `NaN` volume is not modelled.
- The parking details lookup that throws (the second, shorter card) is not modelled. Details are an input that may be missing.
- TransitCards: a step whose `transit_details` has no line throws a TypeError; the model yields None for the whole list.
- ParkingPanel.RatingStars: the RangeError of a negative `repeat` count is None.
- Common.ToUpper and Common.ToLower: map ASCII letters only, not full Unicode case mapping.
- Strings are sequences of code points. JavaScript's `length` counts UTF-16 units, so the suggestion search's `value.length > 2` differs for text outside the Basic Multilingual Plane ("😀😀" has length 4 in JavaScript and 2 here).
- ParkingSpots.SpotOf: the `photos` field of a card is not modelled.
- The prediction page's payloads are opaque values. Its responsive layout and tabs are left out.
- The route form's suggestion search is recorded as the text sent, not run. `viaPoints` and the transit-directions `fetch` are not part of this model.
- HourlyStats.HourlyTableEntries: the "N/A" route id of an empty hour is unreachable, because the table is built only for a non-empty route. The contract states the reachable case.
- The `get_locations` route of app.py is not part of this model.

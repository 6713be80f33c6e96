# Route-geometry resolution, modelled in Dafny

This project models how the bus-route map page picks the line it draws for a route. Given a
route short name (such as "E8"), it finds the first route with that name and that route's first
trip. The trip's GTFS shape is used when it has points. Otherwise the page builds a line from the
trip's stops, ordered by `stop_sequence`. One or two stops give a straight line. More stops are
sent to a map-matching service in chunks of at most 100. The successful chunk results are
stitched together, and the page falls back to the straight line when every chunk fails. The page
script also lists the stops with a travel-time estimate per leg.

Network responses are inputs rather than calls. An `Api` value holds what each of the five
transit endpoints answers: the whole record collection, or `Failed`. The map-matching service is
a `Matcher` function from a chunk index and the chunk's coordinates to an optional line. The
haversine distance is a function parameter of the travel-time estimate.

The two copies of the script (`static/js/bus.js`, and `bus.js` at the repository root) share their
lookup, shape and fallback logic. They differ in comments, in where the key file is loaded from,
and in the Feature's `name` property.
That code is modelled once, and its rows below cite the page script. The root copy's own stop
list (coordinates only, no travel times) is in `RootBus`. `RootBus.AgreesWithStaticBus` proves
that the two copies return the same line or the same error on every input.

Modules:
- `Wrappers`: `Option` and `Result`.
- `Seqs`: first match (`find`), `filter`, `map`, concatenation, `slice(1)`.
- `Sorting`: the stable sort by an integer key that `sort((a, b) => a.k - b.k)` performs.
- `Gtfs`: the records, the line Feature with its source tag, and the errors.
- `Lookup`: the route and trip lookup.
- `Shape`: the GTFS-shape tier.
- `StopJoin`: the ordered stop join.
- `Fallback`: chunking, map-matching outcomes, stitching and the straight-line tiers.
- `Travel`: the travel-time list.
- `StaticBus`, `RootBus`: the two pipelines.

Behaviour of the code worth knowing:
- Chunks are disjoint (`i += 100`, `slice(i, i + 100)`). Stitching still drops the first point of
  every later segment. When the matching service returns a point for every stop, the first stop of
  each later chunk is therefore lost from the line. `Fallback.SeamStopDropped` shows this.
- For an empty coordinate list the travel-time list is `[0]`.
- A matched segment may be an empty list. Its `coordinates` array is truthy, so the code keeps it,
  and `slice(1)` of it adds nothing. A matched line can therefore be empty.
- A failed `shapes` request for a trip that has a shape id aborts the whole resolution. No
  stop-based tier is tried (`StaticBus.ShapeRequestFailureAborts`).

## Model

| member | source | states |
|---|---|---|
| Seqs.FindIndex | static/js/bus.js:54 | the index returned holds the first element that satisfies the predicate; None exactly when no element satisfies it |
| Seqs.Find | static/js/bus.js:58 | `find` returns the first matching element, and returns None exactly when nothing matches |
| Seqs.Filter | static/js/bus.js:72 | `filter` keeps exactly the elements that satisfy the predicate, each at most as often as in the input |
| Seqs.FilterCount | static/js/bus.js:72 | every occurrence of an element satisfying the predicate is kept, and no occurrence of any other element |
| Seqs.FilterConcat | static/js/bus.js:72 | `filter` of a concatenation is the concatenation of the filters, so what is kept of a prefix comes first |
| Seqs.FilterKeepsOrder | static/js/bus.js:72 | two kept elements appear in the result in their input order |
| Lookup.GetRouteWithShape | static/js/bus.js:52-62 | a transport error if and only if the routes request failed, or a route matched and the trips request failed; RouteNotFound if and only if no route has the name; TripNotFound if and only if no trip serves the first matching route; success exactly when a route and a trip for it both exist, and then it is the first matching route with that route's first trip |
| Lookup.MissingRouteIgnoresTrips | static/js/bus.js:53-57 | when the route request fails or finds no route, the trips response cannot change the outcome |
| Sorting.SortBy | static/js/bus.js:73 | the sort returns a permutation of its input in non-decreasing key order |
| Sorting.InsertSorted | static/js/bus.js:73 | inserting into a sorted list keeps it sorted |
| Sorting.SortByStable | static/js/bus.js:73 | the sort keeps the relative order of elements with equal keys |
| Sorting.SortedByClasses | static/js/bus.js:73 | two sorted lists with the same equal-key classes are the same list |
| Sorting.SortByIsTheStableSort | static/js/bus.js:73 | every sorted list with the input's equal-key classes equals the sort's result, so the stable sort is unique |
| Sorting.FilterSorted | static/js/bus.js:211-217 | filtering a sorted list leaves it sorted |
| Shape.OrderedShapePoints | static/js/bus.js:71-73 | the ordered shape is a permutation of the points with that shape id, holds every such point and nothing else, is non-decreasing in `shape_pt_sequence`, and keeps ties in response order |
| Shape.GetShapeGeometry | static/js/bus.js:67-85 | a falsy shape id gives "none" without consulting shapes; it fails, always with a transport error, if and only if the id is truthy and the shapes request failed; "none" exactly when the id is falsy or no point carries it; otherwise a non-empty GTFS-tagged line of the ordered points as `[lon, lat]`, one per point with that id |
| Shape.FalsyShapeIgnoresShapes | static/js/bus.js:68 | with a falsy shape id the shapes response cannot change the result |
| StopJoin.OrderedStopTimes | static/js/bus.js:209-211 | the ordered stop-times are a permutation of the trip's stop-times, hold all of them and nothing else, are non-decreasing in `stop_sequence`, and keep ties in response order |
| StopJoin.JoinStops | static/js/bus.js:214-217 | mapping each stop-time to its stop and dropping the misses yields exactly the stop-times that name a stop, in order, each paired with the first stop carrying its `stop_id` |
| StopJoin.JoinedInSequenceOrder | static/js/bus.js:209-217 | the joined stops all belong to the trip and come in non-decreasing `stop_sequence` order |
| StopJoin.JoinEmptyIff | static/js/bus.js:214-219 | the join is empty if and only if none of the trip's stop-times names an existing stop |
| StopJoin.TripVisits | static/js/bus.js:208-217 | the trip's stop join: on the trip, sorted by `stop_sequence`, equal to the resolvable ordered stop-times, each with its first matching stop, and empty exactly when no stop-time of the trip resolves |
| StaticBus.StopList | static/js/bus.js:207-219 | a transport error if and only if the stop-times or stops request failed; no other error but NoStopsFound, which holds if and only if no stop-time of the trip names an existing stop; otherwise a non-empty list of the joined stops' coordinates and names |
| Fallback.ChunksFrom | static/js/bus.js:101-104 | every chunk holds 1 to 100 stops, every chunk but the last holds exactly 100, and there are ceil(remaining / 100) chunks |
| Fallback.ChunksPartition | static/js/bus.js:101-104 | the chunks concatenate back to exactly the stop list, with no overlap and no gap, and their number is ceil(n / 100) |
| Fallback.ChunkAt | static/js/bus.js:102-103 | chunk i is the slice from stop 100·i to the smaller of 100·(i+1) and n |
| Seqs.Somes | static/js/bus.js:109-122 | the collected values are exactly the present ones: every kept value was present, every present value is kept, and the result is empty only when all are absent |
| Seqs.SomesConcat | static/js/bus.js:109-122 | collecting over a concatenation is the concatenation of the collections, so values stay in attempt order |
| Fallback.Segments | static/js/bus.js:106-122 | the segments are the lines of the chunks whose match succeeded: each comes from a successful chunk, each successful chunk's line is present, and there are none only when every chunk failed |
| Fallback.Stitch | static/js/bus.js:134-135 | the stitched line begins with the whole first segment |
| Fallback.StitchIsHeadThenTails | static/js/bus.js:134-135 | the stitched line is the first segment followed by every later segment minus its first point, in order |
| Fallback.StitchLength | static/js/bus.js:134-135 | with non-empty later segments the stitched line has the total point count less one per seam |
| Fallback.StitchMembers | static/js/bus.js:134-135 | a point is in the stitched line exactly when it is in the first segment or at a non-first position of a later one: nothing is added |
| Fallback.BuildFallbackRoute | static/js/bus.js:90-142 | at most two stops give the straight line through them in order; the result is map-matched if and only if there are more than two stops and some chunk's match succeeded; every straight result is exactly the stop coordinates; no fallback is tagged as a GTFS shape |
| Fallback.MatchedLine | static/js/bus.js:109-141 | a map-matched line is the first successful chunk's line, then every later successful chunk's line minus its first point, in chunk order; failed chunks are skipped |
| Fallback.MiddleChunkFails | static/js/bus.js:101-141 | 250 stops make chunks of 100, 100 and 50; if the middle chunk fails, the line is chunk 1's match followed by chunk 3's match minus its first point |
| Fallback.SeamStopDropped | static/js/bus.js:101-135 | with disjoint chunks and a matcher that echoes its input, 101 stops come back as the first 100 only: the first stop of the second chunk is lost |
| Travel.EstimateTravelTimes | static/js/bus.js:147-164 | one estimate per leg, distance / speed · 60, then a final 0; length max(n, 1); all estimates non-negative when distances are |
| StaticBus.GetRouteGeometry | static/js/bus.js:198-229 | a lookup failure is the result; after a found trip, a failed shape step is the result, a shape with points is the line with no stop list, and with no shape a failed stop list is the result and otherwise the line is the fallback over the stop list, which is rendered; a GTFS-tagged line comes with no stop list and is non-empty; a stop-based line comes with a non-empty stop list; a straight line is exactly the listed stops' coordinates; errors are only transport, route not found, trip not found and no stops |
| StaticBus.ShapeTakesPrecedence | static/js/bus.js:201-203 | when the trip's shape has points, the result is that shape's ordered line, whatever the stop endpoints and the matcher answer |
| StaticBus.MissingRouteFailsFirst | static/js/bus.js:53-55 | an unknown short name fails with RouteNotFound whatever the other endpoints hold |
| StaticBus.ShapeRequestFailureAborts | static/js/bus.js:67-70 | a failed shapes request for a trip with a shape id fails the resolution and no fallback is tried |
| StaticBus.NoShapeUsesStops | static/js/bus.js:202-228 | with no shape and a stop list of any length, the line is the fallback over the list's coordinates: map-matched exactly when there are more than two stops and some chunk matched, otherwise the straight line through the stops |
| StaticBus.FewStopsStraightLine | static/js/bus.js:92-98 | with no shape and at most two stops, the line is the stops' coordinates in `stop_sequence` order, tagged straight |
| StaticBus.E8Example | static/js/bus.js:198-228 | route E8 with no shape id and two stops whose stop-times are listed out of order yields the straight line [[21.20, 45.76], [21.21, 45.76]] |
| StaticBus.GetRouteGeometryWithTimes | static/js/bus.js:221-228 | travel times exist exactly when a stop list is rendered; there is one per listed stop, each leg's is its distance at 20 km/h in minutes, and the last is 0 |
| RootBus.StopCoords | bus.js:163-174 | a transport error if and only if the stop-times or stops request failed; no other error but NoStopsFound, which holds if and only if no stop-time of the trip names an existing stop; otherwise the non-empty coordinates of the trip's ordered stop join |
| RootBus.GetRouteGeometry | bus.js:151-177 | a lookup failure is the result; after a found trip, a failed shape step is the result, a shape with points is the line, and with no shape a failed stop list is the result and otherwise the line is the fallback over the stop coordinates; a GTFS-tagged line is non-empty; errors are only transport, route not found, trip not found and no stops |
| RootBus.AgreesWithStaticBus | bus.js:151-177 | the root copy returns the same line as the page script, or fails with the same error, on every input |

## Left out

- Network calls are not modelled as calls. Loading the API keys, the transit-endpoint requests
  and the Geoapify map-matching request become input values (`Api`, `Matcher`). Timeouts, retries
  and the order of suspension are out of scope. The model has no network.
- The reason a chunk's match failed (status not ok, a thrown error, a missing `features[0].geometry`)
  is collapsed into `None`, and the console logging is dropped.
- Map and DOM rendering (`createMap`, `drawRouteOnly`, `renderStops`, `window.onload`) are
  MapLibre and DOM glue. `index.js`, `page-loading-animation.js`, `TVA/urls.py` and `TVA/views.py`
  are UI timers and Django routing. None of them is part of this model.
- The haversine arithmetic is floating-point trigonometry. It is the `distanceKm` parameter.
- Travel.EstimateTravelTimes: `(distance / avgSpeedKmh) * 60` is computed in exact reals. The
  source computes it in IEEE-754 doubles, so the rounding of each estimate is not modelled.
- Travel.EstimateTravelTimes: requires a positive speed. Only the default 20 km/h is ever passed;
  JavaScript's Infinity and NaN for other speeds are not modelled.
- Coordinates are opaque `real` pairs. The `+s.stop_lon` numeric coercion is not modelled.
- Identifiers are strings. A shape id is falsy when it is absent or `""`; a numeric id `0`, also
  falsy in JavaScript, is not modelled. Equality is on strings, so the loose typing of `===`
  across numbers and strings is not modelled.
- Sequence numbers are integers. With them the comparator `a.k - b.k` orders by `k`. Non-numeric
  sequence values, which would give NaN comparisons, are not modelled.
- The Feature wrapper's `type` and `name` properties are not modelled. The name is "Route" in one
  copy and "E8" in the other. `Gtfs.SourceLabel` gives the `source` strings.
- Non-array responses, where `find` or `filter` would throw, are not modelled. A response is
  either a record list or `Failed`.

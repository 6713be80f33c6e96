/**
 * The page script's pipeline (`getRouteGeometry` with stop names and travel times): route and
 * trip lookup, then the shape tier, then the stop-based tiers.
 */
module StaticBus {
  import opened Wrappers
  import opened Seqs
  import opened Sorting
  import opened Gtfs
  import opened Lookup
  import opened Shape
  import opened StopJoin
  import opened Fallback
  import opened Travel

  /** `{ lon: +s.stop_lon, lat: +s.stop_lat, name: s.stop_name }`. */
  datatype StopEntry = StopEntry(lon: real, lat: real, name: string)

  function Entry(s: Stop): StopEntry {
    StopEntry(s.lon, s.lat, s.name)
  }

  /** The stop list entries of joined visits, in order. */
  function Entries(visits: seq<Visit>): (r: seq<StopEntry>)
    ensures |r| == |visits|
  {
    seq(|visits|, i requires 0 <= i < |visits| => Entry(visits[i].stop))
  }

  /** `s => [s.lon, s.lat]`, applied to the stop list to get the line's coordinates. */
  function EntryCoord(e: StopEntry): Coord {
    Coord(e.lon, e.lat)
  }

  /**
   * Fetches stop-times and stops, orders the trip's stop-times, joins each to its first stop and
   * drops the unmatched ones; an empty result throws.
   */
  function StopList(tripId: string, stopTimes: Response<StopTime>, stops: Response<Stop>)
    : (r: Result<seq<StopEntry>, Error>)
    ensures r == Failure(TransportError) <==> stopTimes.Failed? || stops.Failed?
    ensures r.Failure? ==> r.error in {TransportError, NoStopsFound}
    ensures r == Failure(NoStopsFound) <==>
      && stopTimes.Records? && stops.Records?
      && forall i :: 0 <= i < |stopTimes.records| && stopTimes.records[i].tripId == tripId ==>
           NoMatch(stops.records, HasStopId(stopTimes.records[i].stopId))
    ensures r.Success? ==>
      && stopTimes.Records? && stops.Records?
      && |r.value| > 0
      && r.value == Entries(TripVisits(stopTimes.records, tripId, stops.records))
  {
    match stopTimes
    case Failed => Failure(TransportError)
    case Records(sts) =>
      match stops
      case Failed => Failure(TransportError)
      case Records(ss) =>
        var visits := TripVisits(sts, tripId, ss);
        if |visits| == 0 then Failure(NoStopsFound)
        else Success(Entries(visits))
  }

  /** The route line, and the stop list handed to the renderer when a stop-based tier was used. */
  datatype Resolution = Resolution(geometry: Geometry, listing: Option<seq<StopEntry>>)

  /**
   * `getRouteGeometry`: the shape tier when the trip's shape has points, otherwise the
   * fallback over the trip's ordered stops. Every failure along the way is thrown.
   */
  function GetRouteGeometry(shortName: string, api: Api, matcher: Matcher): (r: Result<Resolution, Error>)
    ensures r.Success? ==> (r.value.geometry.source == GtfsShape <==> r.value.listing.None?)
    ensures r.Success? && r.value.listing.Some? ==> |r.value.listing.value| > 0
    ensures r.Success? && r.value.geometry.source == GtfsShape ==> |r.value.geometry.coords| > 0
    ensures r.Success? && r.value.geometry.source == FallbackStraight ==>
      r.value.geometry.coords == Map(r.value.listing.value, EntryCoord)
    ensures r.Failure? ==> r.error in {TransportError, RouteNotFound(shortName), TripNotFound, NoStopsFound}
    ensures var found := GetRouteWithShape(shortName, api.routes, api.trips);
      found.Failure? ==> r == Failure(found.error)
    ensures var found := GetRouteWithShape(shortName, api.routes, api.trips);
      found.Success? ==>
        var trip := found.value.1;
        var shape := GetShapeGeometry(trip.shapeId, api.shapes);
        && (shape.Failure? ==> r == Failure(shape.error))
        && (shape.Success? && shape.value.Some? ==> r == Success(Resolution(shape.value.value, None)))
        && (shape == Success(None) ==>
              var stops := StopList(trip.tripId, api.stopTimes, api.stops);
              && (stops.Failure? ==> r == Failure(stops.error))
              && (stops.Success? ==>
                    r == Success(Resolution(BuildFallbackRoute(Map(stops.value, EntryCoord), matcher), Some(stops.value)))))
  {
    var found :- GetRouteWithShape(shortName, api.routes, api.trips);
    var trip := found.1;
    var shape :- GetShapeGeometry(trip.shapeId, api.shapes);
    if shape.Some? then Success(Resolution(shape.value, None))
    else
      var stopList :- StopList(trip.tripId, api.stopTimes, api.stops);
      Success(Resolution(BuildFallbackRoute(Map(stopList, EntryCoord), matcher), Some(stopList)))
  }

  /**
   * The shape tier takes precedence: when the trip's shape has points, its ordered points are
   * the line, whatever the stop endpoints and the map-matching service would answer.
   */
  lemma ShapeTakesPrecedence(shortName: string, api: Api, matcher: Matcher,
                             stopTimes': Response<StopTime>, stops': Response<Stop>, matcher': Matcher)
    requires GetRouteWithShape(shortName, api.routes, api.trips).Success?
    requires var trip := GetRouteWithShape(shortName, api.routes, api.trips).value.1;
      && IsTruthy(trip.shapeId) && api.shapes.Records?
      && exists i :: 0 <= i < |api.shapes.records| && api.shapes.records[i].shapeId == trip.shapeId.value
    ensures var trip := GetRouteWithShape(shortName, api.routes, api.trips).value.1;
      var line := Geometry(Map(OrderedShapePoints(api.shapes.records, trip.shapeId.value), PointCoord), GtfsShape);
      && GetRouteGeometry(shortName, api, matcher) == Success(Resolution(line, None))
      && GetRouteGeometry(shortName, api.(stopTimes := stopTimes', stops := stops'), matcher') == Success(Resolution(line, None))
  {
  }

  /** A short name no route carries fails at the first lookup, whatever the other endpoints hold. */
  lemma MissingRouteFailsFirst(shortName: string, api: Api, matcher: Matcher)
    requires api.routes.Records? && NoMatch(api.routes.records, HasShortName(shortName))
    ensures GetRouteGeometry(shortName, api, matcher) == Failure(RouteNotFound(shortName))
  {
  }

  /**
   * A failed `shapes` request for a trip that has a shape id aborts the resolution: the
   * stop-based tiers are not tried.
   */
  lemma ShapeRequestFailureAborts(shortName: string, api: Api, matcher: Matcher)
    requires GetRouteWithShape(shortName, api.routes, api.trips).Success?
    requires IsTruthy(GetRouteWithShape(shortName, api.routes, api.trips).value.1.shapeId)
    requires api.shapes.Failed?
    ensures GetRouteGeometry(shortName, api, matcher) == Failure(TransportError)
  {
  }

  /**
   * With no shape the line is the fallback over the trip's stop list, for any number of stops:
   * map-matched exactly when there are more than two stops and some chunk matched, otherwise
   * the stop coordinates in `stop_sequence` order; the stop list is rendered either way.
   */
  lemma NoShapeUsesStops(shortName: string, api: Api, matcher: Matcher, list: seq<StopEntry>)
    requires GetRouteWithShape(shortName, api.routes, api.trips).Success?
    requires var trip := GetRouteWithShape(shortName, api.routes, api.trips).value.1;
      && GetShapeGeometry(trip.shapeId, api.shapes) == Success(None)
      && StopList(trip.tripId, api.stopTimes, api.stops) == Success(list)
    ensures GetRouteGeometry(shortName, api, matcher)
         == Success(Resolution(BuildFallbackRoute(Map(list, EntryCoord), matcher), Some(list)))
    ensures var g := GetRouteGeometry(shortName, api, matcher).value.geometry;
      var chunks := Chunks(Map(list, EntryCoord));
      && (g.source == MapMatching <==> |list| > 2 && exists i :: 0 <= i < |chunks| && matcher(i, chunks[i]).Some?)
      && (g.source != MapMatching ==> g == Geometry(Map(list, EntryCoord), FallbackStraight))
  {
    var g := BuildFallbackRoute(Map(list, EntryCoord), matcher);
    assert g.source != GtfsShape;
  }

  /**
   * With no shape and at most two stops the line is the stop coordinates in `stop_sequence`
   * order, and the stop list is rendered.
   */
  lemma FewStopsStraightLine(shortName: string, api: Api, matcher: Matcher)
    requires GetRouteWithShape(shortName, api.routes, api.trips).Success?
    requires var trip := GetRouteWithShape(shortName, api.routes, api.trips).value.1;
      GetShapeGeometry(trip.shapeId, api.shapes) == Success(None)
    requires var trip := GetRouteWithShape(shortName, api.routes, api.trips).value.1;
      var stops := StopList(trip.tripId, api.stopTimes, api.stops);
      stops.Success? && |stops.value| <= 2
    ensures var trip := GetRouteWithShape(shortName, api.routes, api.trips).value.1;
      var stops := StopList(trip.tripId, api.stopTimes, api.stops).value;
      GetRouteGeometry(shortName, api, matcher)
        == Success(Resolution(Geometry(Map(stops, EntryCoord), FallbackStraight), Some(stops)))
  {
    var trip := GetRouteWithShape(shortName, api.routes, api.trips).value.1;
    NoShapeUsesStops(shortName, api, matcher, StopList(trip.tripId, api.stopTimes, api.stops).value);
  }

  /** Sample data: route "E8" has no shape id and two stops whose stop-times are listed out of order. */
  const SampleRoutes := [Route("r3", "E3"), Route("r8", "E8")]
  const SampleTrips := [Trip("t3", "r3", Some("sh3")), Trip("t8", "r8", None)]
  const SampleStopTimes := [StopTime("t8", "s2", 2), StopTime("t3", "s1", 1), StopTime("t8", "s1", 1)]
  const SampleStops := [Stop("s1", "Piata Unirii", 45.76, 21.20), Stop("s2", "Catedrala", 45.76, 21.21)]

  lemma SampleOnTrip()
    ensures Filter(SampleStopTimes, OnTrip("t8")) == [SampleStopTimes[0], SampleStopTimes[2]]
  {
    var sts := SampleStopTimes;
    var last := sts[2];
    assert sts[1..][1..] == [last];
    assert Filter([last], OnTrip("t8")) == [last] by { assert [last][1..] == []; }
    assert Filter(sts[1..], OnTrip("t8")) == [last];
  }

  /** Two elements listed against their key order come out swapped. */
  lemma SortTwo<T>(a: T, b: T, key: T -> int)
    requires key(b) < key(a)
    ensures SortBy([a, b], key) == [b, a]
  {
    assert [a, b][..1] == [a];
    assert SortBy([a], key) == [a] by { assert [a][..0] == []; }
    assert Insert([a], b, key) == Insert([], b, key) + [a];
  }

  lemma SampleOrdered()
    ensures OrderedStopTimes(SampleStopTimes, "t8") == [SampleStopTimes[2], SampleStopTimes[0]]
  {
    SampleOnTrip();
    SortTwo(SampleStopTimes[0], SampleStopTimes[2], StopSequence);
  }

  lemma SampleJoin(ordered: seq<StopTime>)
    requires ordered == [SampleStopTimes[2], SampleStopTimes[0]]
    ensures JoinStops(ordered, SampleStops)
         == [Visit(SampleStopTimes[2], SampleStops[0]), Visit(SampleStopTimes[0], SampleStops[1])]
  {
    var stops := SampleStops;
    var a, b := stops[0], stops[1];
    assert StopFor(stops, "s1") == Some(a);
    assert StopFor(stops, "s2") == Some(b) by {
      assert stops[1..] == [b];
      assert FindIndex(stops[1..], HasStopId("s2")) == Some(0);
      assert FindIndex(stops, HasStopId("s2")) == Some(1);
    }
    assert ordered[1..] == [SampleStopTimes[0]];
    assert JoinStops(ordered[1..], stops) == [Visit(SampleStopTimes[0], b)] by {
      assert ordered[1..][1..] == [];
    }
  }

  lemma SampleVisits()
    ensures TripVisits(SampleStopTimes, "t8", SampleStops)
         == [Visit(SampleStopTimes[2], SampleStops[0]), Visit(SampleStopTimes[0], SampleStops[1])]
  {
    SampleOrdered();
    SampleJoin(OrderedStopTimes(SampleStopTimes, "t8"));
  }

  lemma SampleLookup()
    ensures GetRouteWithShape("E8", Records(SampleRoutes), Records(SampleTrips))
         == Success((SampleRoutes[1], SampleTrips[1]))
  {
    assert Find(SampleRoutes, HasShortName("E8")) == Some(SampleRoutes[1]);
    assert Find(SampleTrips, ServesRoute("r8")) == Some(SampleTrips[1]);
  }

  lemma EntriesOfTwo(v: seq<Visit>)
    requires |v| == 2
    ensures Entries(v) == [Entry(v[0].stop), Entry(v[1].stop)]
  {
  }

  lemma CoordsOfTwo(list: seq<StopEntry>)
    requires |list| == 2
    ensures Map(list, EntryCoord) == [Coord(list[0].lon, list[0].lat), Coord(list[1].lon, list[1].lat)]
  {
  }

  lemma SampleStopList()
    ensures StopList("t8", Records(SampleStopTimes), Records(SampleStops))
         == Success([StopEntry(21.20, 45.76, "Piata Unirii"), StopEntry(21.21, 45.76, "Catedrala")])
  {
    SampleVisits();
    var v := TripVisits(SampleStopTimes, "t8", SampleStops);
    EntriesOfTwo(v);
  }

  /**
   * Route "E8" without a shape id and with two stops: the line is the two stops in
   * `stop_sequence` order, drawn straight; the `shapes` endpoint is never consulted.
   */
  lemma E8Example(matcher: Matcher)
    ensures var api := Api(Records(SampleRoutes), Records(SampleTrips), Failed, Records(SampleStopTimes), Records(SampleStops));
      GetRouteGeometry("E8", api, matcher)
        == Success(Resolution(Geometry([Coord(21.20, 45.76), Coord(21.21, 45.76)], FallbackStraight),
                              Some([StopEntry(21.20, 45.76, "Piata Unirii"), StopEntry(21.21, 45.76, "Catedrala")])))
  {
    var api := Api(Records(SampleRoutes), Records(SampleTrips), Failed, Records(SampleStopTimes), Records(SampleStops));
    SampleLookup();
    SampleStopList();
    assert GetRouteWithShape("E8", api.routes, api.trips).value.1 == SampleTrips[1];
    FewStopsStraightLine("E8", api, matcher);
    var list := [StopEntry(21.20, 45.76, "Piata Unirii"), StopEntry(21.21, 45.76, "Catedrala")];
    CoordsOfTwo(list);
  }

  /**
   * `getRouteGeometry` with its side output: on the stop-based path the rendered list gets one
   * travel time per stop, the estimate at the default speed for each leg and 0 for the last stop.
   */
  method GetRouteGeometryWithTimes(shortName: string, api: Api, matcher: Matcher, distanceKm: (Coord, Coord) -> real)
    returns (r: Result<Resolution, Error>, times: Option<seq<real>>)
    ensures r == GetRouteGeometry(shortName, api, matcher)
    ensures times.Some? <==> r.Success? && r.value.listing.Some?
    ensures times.Some? ==>
      && |times.value| == |r.value.listing.value|
      && times.value[|times.value| - 1] == 0.0
    ensures times.Some? ==>
      var c := Map(r.value.listing.value, EntryCoord);
      forall i :: 0 <= i < |times.value| - 1 ==>
        times.value[i] == distanceKm(c[i], c[i + 1]) / DefaultSpeedKmh * 60.0
  {
    r := GetRouteGeometry(shortName, api, matcher);
    times := None;
    if r.Success? && r.value.listing.Some? {
      var list := r.value.listing.value;
      var coords := Map(list, EntryCoord);
      assert |coords| == |list| > 0;
      var t := EstimateTravelTimes(coords, distanceKm, DefaultSpeedKmh);
      times := Some(t);
    }
  }
}

/**
 * The repository-root copy of the pipeline. Lookup, shape and fallback code is the same as the
 * page script's; its stop list keeps coordinates only, and it estimates no travel times.
 */
module RootBus {
  import opened Wrappers
  import opened Seqs
  import opened Gtfs
  import opened Lookup
  import opened Shape
  import opened StopJoin
  import opened Fallback
  import StaticBus

  /** The coordinates of a joined visit's stop: `{ lon: +s.stop_lon, lat: +s.stop_lat }`. */
  function VisitCoord(v: Visit): Coord {
    Coord(v.stop.lon, v.stop.lat)
  }

  /** The trip's ordered stop coordinates; an empty join throws "No stops found". */
  function StopCoords(tripId: string, stopTimes: Response<StopTime>, stops: Response<Stop>)
    : (r: Result<seq<Coord>, Error>)
    ensures r == Failure(TransportError) <==> stopTimes.Failed? || stops.Failed?
    ensures r.Failure? ==> r.error in {TransportError, NoStopsFound}
    ensures r == Failure(NoStopsFound) <==>
      && stopTimes.Records? && stops.Records?
      && forall i :: 0 <= i < |stopTimes.records| && stopTimes.records[i].tripId == tripId ==>
           NoMatch(stops.records, HasStopId(stopTimes.records[i].stopId))
    ensures r.Success? ==>
      && stopTimes.Records? && stops.Records?
      && |r.value| > 0
      && r.value == Map(TripVisits(stopTimes.records, tripId, stops.records), VisitCoord)
  {
    match stopTimes
    case Failed => Failure(TransportError)
    case Records(sts) =>
      match stops
      case Failed => Failure(TransportError)
      case Records(ss) =>
        var visits := TripVisits(sts, tripId, ss);
        if |visits| == 0 then Failure(NoStopsFound)
        else Success(Map(visits, VisitCoord))
  }

  /** `getRouteGeometry`: route and trip, then the shape, then the fallback over the stops. */
  function GetRouteGeometry(shortName: string, api: Api, matcher: Matcher): (r: Result<Geometry, Error>)
    ensures r.Success? && r.value.source == GtfsShape ==> |r.value.coords| > 0
    ensures r.Failure? ==> r.error in {TransportError, RouteNotFound(shortName), TripNotFound, NoStopsFound}
    ensures var found := GetRouteWithShape(shortName, api.routes, api.trips);
      found.Failure? ==> r == Failure(found.error)
    ensures var found := GetRouteWithShape(shortName, api.routes, api.trips);
      found.Success? ==>
        var trip := found.value.1;
        var shape := GetShapeGeometry(trip.shapeId, api.shapes);
        && (shape.Failure? ==> r == Failure(shape.error))
        && (shape.Success? && shape.value.Some? ==> r == Success(shape.value.value))
        && (shape == Success(None) ==>
              var coords := StopCoords(trip.tripId, api.stopTimes, api.stops);
              && (coords.Failure? ==> r == Failure(coords.error))
              && (coords.Success? ==> r == Success(BuildFallbackRoute(coords.value, matcher))))
  {
    var found :- GetRouteWithShape(shortName, api.routes, api.trips);
    var trip := found.1;
    var shape :- GetShapeGeometry(trip.shapeId, api.shapes);
    if shape.Some? then Success(shape.value)
    else
      var coords :- StopCoords(trip.tripId, api.stopTimes, api.stops);
      Success(BuildFallbackRoute(coords, matcher))
  }

  lemma SameCoordinates(visits: seq<Visit>)
    ensures Map(StaticBus.Entries(visits), StaticBus.EntryCoord) == Map(visits, VisitCoord)
  {
  }

  /**
   * Both copies of the pipeline draw the same line and fail with the same error on every input:
   * dropping stop names and travel times changes nothing else.
   */
  lemma AgreesWithStaticBus(shortName: string, api: Api, matcher: Matcher)
    ensures GetRouteGeometry(shortName, api, matcher)
         == match StaticBus.GetRouteGeometry(shortName, api, matcher)
            case Success(res) => Success(res.geometry)
            case Failure(e) => Failure(e)
  {
    var found := GetRouteWithShape(shortName, api.routes, api.trips);
    if found.Success? {
      var trip := found.value.1;
      if GetShapeGeometry(trip.shapeId, api.shapes) == Success(None) {
        if api.stopTimes.Records? && api.stops.Records? {
          SameCoordinates(TripVisits(api.stopTimes.records, trip.tripId, api.stops.records));
        }
      }
    }
  }
}

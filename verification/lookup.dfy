/** Resolving a route short name to its route and first trip (`getRouteWithShape`). */
module Lookup {
  import opened Wrappers
  import opened Seqs
  import opened Gtfs

  /** The predicate `r => r.route_short_name === shortName`. */
  function HasShortName(shortName: string): Route -> bool {
    (r: Route) => r.shortName == shortName
  }

  /** The predicate `t => t.route_id === routeId`. */
  function ServesRoute(routeId: string): Trip -> bool {
    (t: Trip) => t.routeId == routeId
  }

  /**
   * Fetches routes, takes the first with the requested short name, then fetches trips and takes
   * the first belonging to that route. Trips are only requested once the route is found.
   */
  function GetRouteWithShape(shortName: string, routes: Response<Route>, trips: Response<Trip>)
    : (r: Result<(Route, Trip), Error>)
    ensures routes.Failed? ==> r == Failure(TransportError)
    ensures r == Failure(TransportError) <==>
      routes.Failed? || (!NoMatch(routes.records, HasShortName(shortName)) && trips.Failed?)
    ensures r.Success? <==>
      && routes.Records? && !NoMatch(routes.records, HasShortName(shortName))
      && trips.Records?
      && !NoMatch(trips.records, ServesRoute(Find(routes.records, HasShortName(shortName)).value.routeId))
    ensures r == Failure(RouteNotFound(shortName))
        <==> routes.Records? && NoMatch(routes.records, HasShortName(shortName))
    ensures r.Success? ==>
      && routes.Records? && trips.Records?
      && IsFirstMatch(routes.records, HasShortName(shortName), r.value.0)
      && IsFirstMatch(trips.records, ServesRoute(r.value.0.routeId), r.value.1)
    ensures r == Failure(TripNotFound) <==>
      && routes.Records? && !NoMatch(routes.records, HasShortName(shortName))
      && trips.Records?
      && NoMatch(trips.records, ServesRoute(Find(routes.records, HasShortName(shortName)).value.routeId))
    ensures r.Failure? ==> r.error in {TransportError, RouteNotFound(shortName), TripNotFound}
  {
    match routes
    case Failed => Failure(TransportError)
    case Records(rs) =>
      match Find(rs, HasShortName(shortName))
      case None => Failure(RouteNotFound(shortName))
      case Some(route) =>
        match trips
        case Failed => Failure(TransportError)
        case Records(ts) =>
          match Find(ts, ServesRoute(route.routeId))
          case None => Failure(TripNotFound)
          case Some(trip) => Success((route, trip))
  }

  /** A route that is missing ends the lookup before the trips are requested. */
  lemma MissingRouteIgnoresTrips(shortName: string, routes: Response<Route>, trips: Response<Trip>, trips': Response<Trip>)
    requires routes.Failed? || NoMatch(routes.records, HasShortName(shortName))
    ensures GetRouteWithShape(shortName, routes, trips) == GetRouteWithShape(shortName, routes, trips')
    ensures GetRouteWithShape(shortName, routes, trips).Failure?
  {
  }
}

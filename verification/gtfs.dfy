/**
 * The records the transit open-data service returns (GTFS tables), the geometry handed to the
 * map renderer, and the errors the resolution can raise.
 */
module Gtfs {
  import opened Wrappers

  /** A `[lon, lat]` pair as the renderer consumes it; the numbers themselves are opaque here. */
  datatype Coord = Coord(lon: real, lat: real)

  /** A row of `routes`: `route_id`, `route_short_name`. */
  datatype Route = Route(routeId: string, shortName: string)

  /** A row of `trips`: `trip_id`, `route_id`, and an optional `shape_id`. */
  datatype Trip = Trip(tripId: string, routeId: string, shapeId: Option<string>)

  /** A row of `stop_times`: `trip_id`, `stop_id`, `stop_sequence`. */
  datatype StopTime = StopTime(tripId: string, stopId: string, stopSequence: int)

  /** A row of `stops`: `stop_id`, `stop_name`, `stop_lat`, `stop_lon`. */
  datatype Stop = Stop(stopId: string, name: string, lat: real, lon: real)

  /** A row of `shapes`: `shape_id`, `shape_pt_lat`, `shape_pt_lon`, `shape_pt_sequence`. */
  datatype ShapePoint = ShapePoint(shapeId: string, lat: real, lon: real, sequence: int)

  /**
   * What one endpoint answers to a request: its whole record collection, or a failure
   * (the request rejected, or a status that is not ok).
   */
  datatype Response<T> = Records(records: seq<T>) | Failed

  /** A snapshot of the five endpoints the resolver may query during one resolution. */
  datatype Api = Api(
    routes: Response<Route>,
    trips: Response<Trip>,
    shapes: Response<ShapePoint>,
    stopTimes: Response<StopTime>,
    stops: Response<Stop>)

  /** Which tier produced a geometry (the Feature's `properties.source`). */
  datatype Source = GtfsShape | MapMatching | FallbackStraight

  function SourceLabel(s: Source): string {
    match s
    case GtfsShape => "GTFS shapes.txt"
    case MapMatching => "Geoapify map-matching"
    case FallbackStraight => "fallback straight"
  }

  /** A LineString Feature: ordered `[lon, lat]` coordinates and the tier that produced them. */
  datatype Geometry = Geometry(coords: seq<Coord>, source: Source)

  /** The errors thrown along the resolution path. */
  datatype Error =
    | TransportError            // `HTTP <status>` or a rejected fetch
    | RouteNotFound(shortName: string)
    | TripNotFound
    | NoStopsFound
}

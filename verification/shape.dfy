/** The authoritative tier: a trip's GTFS shape as a line (`getShapeGeometry`). */
module Shape {
  import opened Wrappers
  import opened Seqs
  import opened Sorting
  import opened Gtfs

  /** JavaScript truthiness of a `shape_id`: absent (`null` / `undefined`) and `""` are falsy. */
  predicate IsTruthy(shapeId: Option<string>) {
    shapeId.Some? && shapeId.value != ""
  }

  /** The predicate `s => s.shape_id === shapeId`. */
  function OnShape(shapeId: string): ShapePoint -> bool {
    (p: ShapePoint) => p.shapeId == shapeId
  }

  /** The sort key `shape_pt_sequence`. */
  function ShapeSequence(p: ShapePoint): int {
    p.sequence
  }

  /**
   * The points of one shape, ordered by `shape_pt_sequence`: a stable sort of the points carrying
   * that id, so it holds exactly those points, and ties keep their order in the response.
   */
  function OrderedShapePoints(points: seq<ShapePoint>, shapeId: string): (r: seq<ShapePoint>)
    ensures SortedBy(r, ShapeSequence)
    ensures multiset(r) == multiset(Filter(points, OnShape(shapeId)))
    ensures forall i :: 0 <= i < |r| ==> r[i].shapeId == shapeId && r[i] in points
    ensures forall i :: 0 <= i < |points| && points[i].shapeId == shapeId ==> points[i] in r
    ensures forall k :: WithKey(r, ShapeSequence, k) == WithKey(Filter(points, OnShape(shapeId)), ShapeSequence, k)
  {
    var onShape := Filter(points, OnShape(shapeId));
    var r := SortBy(onShape, ShapeSequence);
    SortByStableAll(onShape, ShapeSequence);
    SortFilterMembers(points, OnShape(shapeId), ShapeSequence);
    r
  }

  /** `p => [p.shape_pt_lon, p.shape_pt_lat]`. */
  function PointCoord(p: ShapePoint): Coord {
    Coord(p.lon, p.lat)
  }

  /**
   * The shape tier. A falsy shape id yields no geometry without querying `shapes`; otherwise a
   * failed request throws, and a shape with no points yields no geometry.
   */
  function GetShapeGeometry(shapeId: Option<string>, shapes: Response<ShapePoint>)
    : (r: Result<Option<Geometry>, Error>)
    ensures !IsTruthy(shapeId) ==> r == Success(None)
    ensures IsTruthy(shapeId) && shapes.Failed? ==> r == Failure(TransportError)
    ensures r.Failure? <==> IsTruthy(shapeId) && shapes.Failed?
    ensures r == Success(None) <==>
      || !IsTruthy(shapeId)
      || (shapes.Records? && forall i :: 0 <= i < |shapes.records| ==> shapes.records[i].shapeId != shapeId.value)
    ensures r.Success? && r.value.Some? ==>
      && IsTruthy(shapeId) && shapes.Records?
      && r.value.value.source == GtfsShape
      && r.value.value.coords == Map(OrderedShapePoints(shapes.records, shapeId.value), PointCoord)
      && |r.value.value.coords| == |Filter(shapes.records, OnShape(shapeId.value))| > 0
  {
    if !IsTruthy(shapeId) then Success(None)
    else
      match shapes
      case Failed => Failure(TransportError)
      case Records(points) =>
        var ordered := OrderedShapePoints(points, shapeId.value);
        assert |ordered| == |Filter(points, OnShape(shapeId.value))| by {
          assert |multiset(ordered)| == |multiset(Filter(points, OnShape(shapeId.value)))|;
        }
        if |ordered| == 0 then Success(None)
        else Success(Some(Geometry(Map(ordered, PointCoord), GtfsShape)))
  }

  /** A falsy shape id never consults the `shapes` response. */
  lemma FalsyShapeIgnoresShapes(shapeId: Option<string>, shapes: Response<ShapePoint>, shapes': Response<ShapePoint>)
    requires !IsTruthy(shapeId)
    ensures GetShapeGeometry(shapeId, shapes) == GetShapeGeometry(shapeId, shapes')
  {
  }
}

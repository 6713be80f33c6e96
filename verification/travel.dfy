/** Per-leg travel-time estimates shown next to the stop list (`estimateTravelTimes`). */
module Travel {
  import opened Gtfs

  /** The default average speed, in km/h. */
  const DefaultSpeedKmh: real := 20.0

  /**
   * One estimate per leg, in minutes at a constant speed, followed by a 0 for the last stop.
   * `distanceKm` stands for the great-circle (haversine) distance between two `[lon, lat]` points.
   * An empty input still yields the trailing 0.
   */
  method EstimateTravelTimes(coords: seq<Coord>, distanceKm: (Coord, Coord) -> real, avgSpeedKmh: real)
    returns (times: seq<real>)
    requires avgSpeedKmh > 0.0
    ensures |times| == if |coords| == 0 then 1 else |coords|
    ensures times[|times| - 1] == 0.0
    ensures forall i :: 0 <= i < |coords| - 1 ==>
      times[i] == distanceKm(coords[i], coords[i + 1]) / avgSpeedKmh * 60.0
    ensures (forall a, b :: distanceKm(a, b) >= 0.0) ==> forall i :: 0 <= i < |times| ==> times[i] >= 0.0
  {
    times := [];
    var i := 0;
    while i < |coords| - 1
      invariant 0 <= i
      invariant |coords| > 0 ==> i <= |coords| - 1
      invariant |coords| == 0 ==> i == 0
      invariant |times| == i
      invariant forall j :: 0 <= j < i ==> times[j] == distanceKm(coords[j], coords[j + 1]) / avgSpeedKmh * 60.0
    {
      var distance := distanceKm(coords[i], coords[i + 1]);
      times := times + [distance / avgSpeedKmh * 60.0];
      i := i + 1;
    }
    times := times + [0.0];
    forall j | 0 <= j < |times| - 1 && (forall a, b :: distanceKm(a, b) >= 0.0)
      ensures times[j] >= 0.0
    {
      var d := distanceKm(coords[j], coords[j + 1]);
      assert d / avgSpeedKmh >= 0.0;
    }
  }
}

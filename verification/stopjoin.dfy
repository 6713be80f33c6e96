/**
 * The stop-based tier's input: a trip's stop-times in `stop_sequence` order joined with their
 * stops (the stop-list part of `getRouteGeometry`).
 */
module StopJoin {
  import opened Wrappers
  import opened Seqs
  import opened Sorting
  import opened Gtfs

  /** The predicate `st => st.trip_id === tripId`. */
  function OnTrip(tripId: string): StopTime -> bool {
    (st: StopTime) => st.tripId == tripId
  }

  /** The sort key `stop_sequence`. */
  function StopSequence(st: StopTime): int {
    st.stopSequence
  }

  /** The predicate `x => x.stop_id === stopId`. */
  function HasStopId(stopId: string): Stop -> bool {
    (s: Stop) => s.stopId == stopId
  }

  /**
   * The trip's stop-times ordered by `stop_sequence`: a stable sort of exactly the stop-times
   * of that trip.
   */
  function OrderedStopTimes(stopTimes: seq<StopTime>, tripId: string): (r: seq<StopTime>)
    ensures SortedBy(r, StopSequence)
    ensures multiset(r) == multiset(Filter(stopTimes, OnTrip(tripId)))
    ensures forall i :: 0 <= i < |r| ==> r[i].tripId == tripId && r[i] in stopTimes
    ensures forall i :: 0 <= i < |stopTimes| && stopTimes[i].tripId == tripId ==> stopTimes[i] in r
    ensures forall k :: WithKey(r, StopSequence, k) == WithKey(Filter(stopTimes, OnTrip(tripId)), StopSequence, k)
  {
    var onTrip := Filter(stopTimes, OnTrip(tripId));
    SortByStableAll(onTrip, StopSequence);
    SortFilterMembers(stopTimes, OnTrip(tripId), StopSequence);
    SortBy(onTrip, StopSequence)
  }

  /** `stops.find(x => x.stop_id === stopId)`. */
  function StopFor(stops: seq<Stop>, stopId: string): Option<Stop> {
    Find(stops, HasStopId(stopId))
  }

  /** A stop-time whose `stop_id` names some stop. */
  function Resolvable(stops: seq<Stop>): StopTime -> bool {
    (st: StopTime) => StopFor(stops, st.stopId).Some?
  }

  /** A stop-time together with the stop it was joined to. */
  datatype Visit = Visit(stopTime: StopTime, stop: Stop)

  function Times(visits: seq<Visit>): seq<StopTime> {
    seq(|visits|, i requires 0 <= i < |visits| => visits[i].stopTime)
  }

  lemma TimesCons(v: Visit, rest: seq<Visit>)
    ensures Times([v] + rest) == [v.stopTime] + Times(rest)
  {
  }

  /**
   * Maps each stop-time to its first matching stop, or to `null` when there is none, and then
   * drops the `null`s; the result is the resolvable stop-times, in order, each with its first
   * matching stop.
   */
  function JoinStops(ordered: seq<StopTime>, stops: seq<Stop>): (r: seq<Visit>)
    ensures Times(r) == Filter(ordered, Resolvable(stops))
    ensures forall i :: 0 <= i < |r| ==> IsFirstMatch(stops, HasStopId(r[i].stopTime.stopId), r[i].stop)
  {
    if |ordered| == 0 then []
    else
      var rest := JoinStops(ordered[1..], stops);
      FilterCons(ordered, Resolvable(stops));
      match StopFor(stops, ordered[0].stopId)
      case None =>
        assert !Resolvable(stops)(ordered[0]);
        rest
      case Some(s) =>
        assert Resolvable(stops)(ordered[0]);
        assert IsFirstMatch(stops, HasStopId(ordered[0].stopId), s);
        TimesCons(Visit(ordered[0], s), rest);
        [Visit(ordered[0], s)] + rest
  }

  /** The joined stops are the trip's and come in non-decreasing `stop_sequence` order. */
  lemma JoinedInSequenceOrder(stopTimes: seq<StopTime>, tripId: string, stops: seq<Stop>)
    ensures forall i :: 0 <= i < |JoinStops(OrderedStopTimes(stopTimes, tripId), stops)| ==>
      JoinStops(OrderedStopTimes(stopTimes, tripId), stops)[i].stopTime.tripId == tripId
    ensures SortedBy(Times(JoinStops(OrderedStopTimes(stopTimes, tripId), stops)), StopSequence)
  {
    var ordered := OrderedStopTimes(stopTimes, tripId);
    var v := JoinStops(ordered, stops);
    FilterSorted(ordered, Resolvable(stops), StopSequence);
    forall i | 0 <= i < |v|
      ensures v[i].stopTime.tripId == tripId
    {
      assert Times(v)[i] == v[i].stopTime;
      assert v[i].stopTime in ordered;
    }
  }

  /** The join is empty exactly when none of the trip's stop-times names an existing stop. */
  lemma JoinEmptyIff(stopTimes: seq<StopTime>, tripId: string, stops: seq<Stop>)
    ensures |JoinStops(OrderedStopTimes(stopTimes, tripId), stops)| == 0 <==>
      forall i :: 0 <= i < |stopTimes| && stopTimes[i].tripId == tripId ==> NoMatch(stops, HasStopId(stopTimes[i].stopId))
  {
    var ordered := OrderedStopTimes(stopTimes, tripId);
    var v := JoinStops(ordered, stops);
    assert |v| == |Times(v)|;
    var f := Filter(ordered, Resolvable(stops));
    if |v| == 0 {
      forall i | 0 <= i < |stopTimes| && stopTimes[i].tripId == tripId
        ensures NoMatch(stops, HasStopId(stopTimes[i].stopId))
      {
        assert stopTimes[i] in ordered;
        assert stopTimes[i] !in f;
      }
    } else {
      assert f[0] in ordered;
      var j :| 0 <= j < |stopTimes| && stopTimes[j] == f[0];
      assert Resolvable(stops)(f[0]);
    }
  }

  /**
   * The stop join of one trip: the trip's stop-times in non-decreasing `stop_sequence` order,
   * without those naming no stop, each with the first stop of its `stop_id`. It is empty exactly
   * when none of the trip's stop-times names an existing stop.
   */
  function TripVisits(stopTimes: seq<StopTime>, tripId: string, stops: seq<Stop>): (r: seq<Visit>)
    ensures forall i :: 0 <= i < |r| ==> r[i].stopTime.tripId == tripId && r[i].stopTime in stopTimes
    ensures SortedBy(Times(r), StopSequence)
    ensures Times(r) == Filter(OrderedStopTimes(stopTimes, tripId), Resolvable(stops))
    ensures forall i :: 0 <= i < |r| ==> IsFirstMatch(stops, HasStopId(r[i].stopTime.stopId), r[i].stop)
    ensures |r| == 0 <==>
      forall i :: 0 <= i < |stopTimes| && stopTimes[i].tripId == tripId ==> NoMatch(stops, HasStopId(stopTimes[i].stopId))
  {
    var ordered := OrderedStopTimes(stopTimes, tripId);
    var r := JoinStops(ordered, stops);
    JoinedInSequenceOrder(stopTimes, tripId, stops);
    JoinEmptyIff(stopTimes, tripId, stops);
    assert forall i :: 0 <= i < |r| ==> r[i].stopTime in stopTimes by {
      forall i | 0 <= i < |r| ensures r[i].stopTime in stopTimes {
        assert Times(r)[i] == r[i].stopTime;
        assert r[i].stopTime in ordered;
      }
    }
    r
  }
}

/**
 * The stop-based tiers (`buildFallbackRoute`): a straight line through few stops, otherwise
 * map-matching in chunks of at most `MaxWaypoints` stops whose successful results are stitched,
 * and the straight line again when every chunk fails.
 */
module Fallback {
  import opened Wrappers
  import opened Seqs
  import opened Gtfs

  /** The map-matching service's per-request waypoint limit (`MAX_WAYPOINTS`). */
  const MaxWaypoints: nat := 100

  function Min(a: int, b: int): int {
    if a <= b then a else b
  }

  /**
   * `for (let i = start; i < s.length; i += MAX_WAYPOINTS) chunks.push(s.slice(i, i + MAX_WAYPOINTS))`:
   * consecutive disjoint slices, all full but the last, which holds the 1 to 100 that remain.
   */
  function ChunksFrom<T>(s: seq<T>, start: nat): (r: seq<seq<T>>)
    ensures forall i :: 0 <= i < |r| ==> 0 < |r[i]| <= MaxWaypoints
    ensures forall i :: 0 <= i < |r| - 1 ==> |r[i]| == MaxWaypoints
    ensures |r| == if start >= |s| then 0 else (|s| - start + MaxWaypoints - 1) / MaxWaypoints
    decreases |s| - start
  {
    if start >= |s| then []
    else [s[start..Min(start + MaxWaypoints, |s|)]] + ChunksFrom(s, start + MaxWaypoints)
  }

  function Chunks<T>(s: seq<T>): seq<seq<T>> {
    ChunksFrom(s, 0)
  }

  lemma {:induction false} ChunksFromPartition<T>(s: seq<T>, start: nat)
    requires start <= |s|
    ensures Flatten(ChunksFrom(s, start)) == s[start..]
    decreases |s| - start
  {
    if start < |s| {
      var end := Min(start + MaxWaypoints, |s|);
      ChunksFromPartition(s, end);
      if end < start + MaxWaypoints {
        assert ChunksFrom(s, start + MaxWaypoints) == [];
      }
      assert s[start..] == s[start..end] + s[end..];
    }
  }

  /** The chunks partition the stops: concatenated in order they give back exactly the stop list. */
  lemma ChunksPartition<T>(s: seq<T>)
    ensures Flatten(Chunks(s)) == s
    ensures |Chunks(s)| == (|s| + MaxWaypoints - 1) / MaxWaypoints
  {
    ChunksFromPartition(s, 0);
  }

  /** Chunk `i` is the slice starting at stop `i * MaxWaypoints`, as the loop's `slice` takes it. */
  lemma {:induction false} ChunkAt<T>(s: seq<T>, start: nat, i: nat)
    requires i < |ChunksFrom(s, start)|
    ensures start + i * MaxWaypoints < |s|
    ensures ChunksFrom(s, start)[i] == s[start + i * MaxWaypoints..Min(start + (i + 1) * MaxWaypoints, |s|)]
    decreases i
  {
    if i > 0 {
      ChunkAt(s, start + MaxWaypoints, i - 1);
    }
  }

  /**
   * The map-matching service as seen by the resolver: given the chunk's position and its stop
   * coordinates, the matched line, or None when the request fails, throws, or the answer has no
   * `features[0].geometry.coordinates`.
   */
  type Matcher = (nat, seq<Coord>) -> Option<seq<Coord>>

  /** One map-matching request per chunk, in chunk order. */
  function MatchResults(chunks: seq<seq<Coord>>, matcher: Matcher): (r: seq<Option<seq<Coord>>>)
    ensures |r| == |chunks|
  {
    seq(|chunks|, i requires 0 <= i < |chunks| => matcher(i, chunks[i]))
  }

  /** `segments`: the matched lines of the chunks that succeeded, in chunk order; failures are skipped. */
  function Segments(chunks: seq<seq<Coord>>, matcher: Matcher): (r: seq<seq<Coord>>)
    ensures |r| <= |chunks|
    ensures |r| == 0 <==> forall i :: 0 <= i < |chunks| ==> matcher(i, chunks[i]).None?
    ensures forall k :: 0 <= k < |r| ==> exists i :: 0 <= i < |chunks| && matcher(i, chunks[i]) == Some(r[k])
    ensures forall i :: 0 <= i < |chunks| && matcher(i, chunks[i]).Some? ==> matcher(i, chunks[i]).value in r
  {
    var results := MatchResults(chunks, matcher);
    assert forall i :: 0 <= i < |chunks| ==> results[i] == matcher(i, chunks[i]);
    Somes(results)
  }

  /**
   * `merged = segments[0].slice(); for (i = 1; ...) merged.push(...segments[i].slice(1))`,
   * written as the loop builds it: each step appends the next segment minus its first point.
   */
  function Stitch<T>(segments: seq<seq<T>>): (r: seq<T>)
    requires |segments| > 0
    ensures segments[0] <= r
    decreases |segments|
  {
    if |segments| == 1 then segments[0]
    else Stitch(segments[..|segments| - 1]) + Tail(segments[|segments| - 1])
  }

  /** Every segment but the first, each without its first point. */
  function Tails<T>(ss: seq<seq<T>>): (r: seq<seq<T>>)
    ensures |r| == |ss|
  {
    seq(|ss|, i requires 0 <= i < |ss| => Tail(ss[i]))
  }

  /** The stitched line is `seg0 ++ seg1[1..] ++ seg2[1..] ++ ...`. */
  lemma {:induction false} StitchIsHeadThenTails<T>(segments: seq<seq<T>>)
    requires |segments| > 0
    ensures Stitch(segments) == segments[0] + Flatten(Tails(segments[1..]))
    decreases |segments|
  {
    if |segments| > 1 {
      var n := |segments|;
      var init := segments[..n - 1];
      StitchIsHeadThenTails(init);
      assert init[1..] == segments[1..n - 1];
      assert Tails(segments[1..]) == Tails(init[1..]) + [Tail(segments[n - 1])];
      FlattenConcat(Tails(init[1..]), [Tail(segments[n - 1])]);
      assert Flatten([Tail(segments[n - 1])]) == Tail(segments[n - 1]) + Flatten([]);
    }
  }

  /** Dropping one point from each of `|ss|` non-empty lists shortens their concatenation by `|ss|`. */
  lemma {:induction false} FlattenTailsLength<T>(ss: seq<seq<T>>)
    requires forall i :: 0 <= i < |ss| ==> |ss[i]| > 0
    ensures |Flatten(Tails(ss))| == |Flatten(ss)| - |ss|
    decreases |ss|
  {
    if |ss| > 0 {
      FlattenTailsLength(ss[1..]);
      assert Tails(ss)[1..] == Tails(ss[1..]);
    }
  }

  /**
   * With non-empty later segments the stitched line has `|seg0| + Σ(|seg_i| - 1)` points:
   * all points, less one per seam.
   */
  lemma StitchLength<T>(segments: seq<seq<T>>)
    requires |segments| > 0
    requires forall i :: 1 <= i < |segments| ==> |segments[i]| > 0
    ensures |Stitch(segments)| == |Flatten(segments)| - (|segments| - 1)
  {
    StitchIsHeadThenTails(segments);
    FlattenTailsLength(segments[1..]);
    assert segments == [segments[0]] + segments[1..];
  }

  /** A point is in the concatenation exactly when some list holds it at some position. */
  lemma {:induction false} FlattenMembers<T>(ss: seq<seq<T>>, x: T)
    ensures x in Flatten(ss) <==> exists i, j :: 0 <= i < |ss| && 0 <= j < |ss[i]| && ss[i][j] == x
    decreases |ss|
  {
    if |ss| > 0 {
      FlattenMembers(ss[1..], x);
      if x in Flatten(ss[1..]) {
        var i, j :| 0 <= i < |ss[1..]| && 0 <= j < |ss[1..][i]| && ss[1..][i][j] == x;
        assert ss[i + 1][j] == x;
      }
      if exists i, j :: 0 <= i < |ss| && 0 <= j < |ss[i]| && ss[i][j] == x {
        var i, j :| 0 <= i < |ss| && 0 <= j < |ss[i]| && ss[i][j] == x;
        if i > 0 {
          assert ss[1..][i - 1][j] == x;
        }
      }
    }
  }

  /**
   * Stitching adds nothing and removes only first points: a point is in the result exactly when
   * it is in the first segment or at a position other than the first in a later one.
   */
  lemma StitchMembers<T>(segments: seq<seq<T>>, x: T)
    requires |segments| > 0
    ensures x in Stitch(segments) <==>
      || x in segments[0]
      || exists i, j :: 1 <= i < |segments| && 1 <= j < |segments[i]| && segments[i][j] == x
  {
    StitchIsHeadThenTails(segments);
    var tl := Tails(segments[1..]);
    assert x in Stitch(segments) <==> x in segments[0] || x in Flatten(tl);
    assert x in Flatten(tl) <==>
      exists i, j :: 1 <= i < |segments| && 1 <= j < |segments[i]| && segments[i][j] == x
    by {
      FlattenMembers(tl, x);
      if x in Flatten(tl) {
        var i, j :| 0 <= i < |tl| && 0 <= j < |tl[i]| && tl[i][j] == x;
        assert segments[i + 1][j + 1] == x;
      }
      if exists i, j :: 1 <= i < |segments| && 1 <= j < |segments[i]| && segments[i][j] == x {
        var i, j :| 1 <= i < |segments| && 1 <= j < |segments[i]| && segments[i][j] == x;
        assert tl[i - 1][j - 1] == x;
      }
    }
  }

  /**
   * `buildFallbackRoute`: at most two stops give the straight line through them; more are
   * map-matched chunk by chunk, and the straight line over all stops is used when no chunk matched.
   */
  function BuildFallbackRoute(stops: seq<Coord>, matcher: Matcher): (g: Geometry)
    ensures |stops| <= 2 ==> g == Geometry(stops, FallbackStraight)
    ensures g.source != GtfsShape
    ensures g.source == FallbackStraight ==> g.coords == stops
    ensures g.source == MapMatching <==>
      && |stops| > 2
      && exists i :: 0 <= i < |Chunks(stops)| && matcher(i, Chunks(stops)[i]).Some?
  {
    if |stops| <= 2 then Geometry(stops, FallbackStraight)
    else
      var chunks := Chunks(stops);
      var segments := Segments(chunks, matcher);
      assert forall i :: 0 <= i < |chunks| ==> MatchResults(chunks, matcher)[i] == matcher(i, chunks[i]);
      if |segments| == 0 then Geometry(stops, FallbackStraight)
      else Geometry(Stitch(segments), MapMatching)
  }

  /**
   * A matched line is the first successful chunk's line followed by every later successful
   * chunk's line minus its first point, in chunk order.
   */
  lemma MatchedLine(stops: seq<Coord>, matcher: Matcher)
    requires BuildFallbackRoute(stops, matcher).source == MapMatching
    ensures var segments := Segments(Chunks(stops), matcher);
      && |segments| > 0
      && BuildFallbackRoute(stops, matcher).coords == segments[0] + Flatten(Tails(segments[1..]))
  {
    StitchIsHeadThenTails(Segments(Chunks(stops), matcher));
  }

  /**
   * 250 stops make three chunks of 100, 100 and 50; when the middle one fails the line is the
   * first chunk's match followed by the third's minus its first point.
   */
  lemma MiddleChunkFails(stops: seq<Coord>, matcher: Matcher)
    requires |stops| == 250
    requires matcher(0, stops[..100]).Some?
    requires matcher(1, stops[100..200]).None?
    requires matcher(2, stops[200..]).Some?
    ensures BuildFallbackRoute(stops, matcher)
         == Geometry(matcher(0, stops[..100]).value + Tail(matcher(2, stops[200..]).value), MapMatching)
  {
    var chunks := Chunks(stops);
    ChunksPartition(stops);
    assert |chunks| == 3;
    ChunkAt(stops, 0, 0);
    ChunkAt(stops, 0, 1);
    ChunkAt(stops, 0, 2);
    assert chunks[0] == stops[..100] && chunks[1] == stops[100..200] && chunks[2] == stops[200..];
    var results := MatchResults(chunks, matcher);
    var a, b, c := matcher(0, stops[..100]), matcher(1, stops[100..200]), matcher(2, stops[200..]);
    assert results == [a] + [b] + [c];
    SomesConcat([a] + [b], [c]);
    SomesConcat([a], [b]);
    assert Somes([a]) == [a.value] by { assert [a][1..] == []; }
    assert Somes([b]) == [] by { assert [b][1..] == []; }
    assert Somes([c]) == [c.value] by { assert [c][1..] == []; }
    assert Segments(chunks, matcher) == [a.value, c.value];
    assert Stitch([a.value, c.value]) == Stitch([a.value]) + Tail(c.value) by {
      assert [a.value, c.value][..1] == [a.value];
    }
  }

  /**
   * Chunks do not overlap, so stitching drops a real stop: with a matcher that answers each chunk
   * with its own stops, 101 stops come back as the first 100 only.
   */
  lemma SeamStopDropped(stops: seq<Coord>, matcher: Matcher)
    requires |stops| == 101
    requires forall i, c :: matcher(i, c) == Some(c)
    ensures BuildFallbackRoute(stops, matcher) == Geometry(stops[..100], MapMatching)
  {
    var chunks := Chunks(stops);
    ChunksPartition(stops);
    assert |chunks| == 2;
    ChunkAt(stops, 0, 0);
    ChunkAt(stops, 0, 1);
    assert chunks[0] == stops[..100] && chunks[1] == stops[100..];
    var results := MatchResults(chunks, matcher);
    var a, b := Some(stops[..100]), Some(stops[100..]);
    assert results == [a] + [b];
    SomesConcat([a], [b]);
    assert Somes([a]) == [a.value] by { assert [a][1..] == []; }
    assert Somes([b]) == [b.value] by { assert [b][1..] == []; }
    assert Segments(chunks, matcher) == [a.value, b.value];
    assert Stitch([a.value, b.value]) == Stitch([a.value]) + Tail(b.value) by {
      assert [a.value, b.value][..1] == [a.value];
    }
    assert Tail(stops[100..]) == [];
  }
}

/** The trace loader of the map plotter: every non-empty track segment as a list of `(lon, lat)` pairs. */
module MapGpx {
  import opened Gpx

  /** A trace to draw: its points as `(longitude, latitude)`. */
  type Trace = seq<(real, real)>

  /** `[(p.longitude, p.latitude) for p in segment.points]`. */
  function LonLats(points: seq<GpxPoint>): (trace: Trace)
    ensures |trace| == |points|
    ensures forall i :: 0 <= i < |points| ==> trace[i] == (points[i].longitude, points[i].latitude)
  {
    seq(|points|, i requires 0 <= i < |points| => (points[i].longitude, points[i].latitude))
  }

  /** The traces of the given segments, in order, leaving out segments without points. */
  function NonEmptyTraces(segments: seq<Segment>): seq<Trace>
  {
    if segments == [] then []
    else
      var last := segments[|segments| - 1];
      NonEmptyTraces(segments[..|segments| - 1])
        + (if LonLats(last.points) != [] then [LonLats(last.points)] else [])
  }

  /** The inner loop of `load_gpx`: append the trace of each segment that has points. */
  method AppendTraces(traces: seq<Trace>, segments: seq<Segment>) returns (result: seq<Trace>)
    ensures result == traces + NonEmptyTraces(segments)
  {
    result := traces;
    var s := 0;
    while s < |segments|
      invariant 0 <= s <= |segments|
      invariant result == traces + NonEmptyTraces(segments[..s])
    {
      var points := LonLats(segments[s].points);
      if points != [] {
        result := result + [points];
      }
      assert segments[..s + 1][..s] == segments[..s];
      s := s + 1;
    }
    assert segments[..s] == segments;
  }

  /**
   * `load_gpx` after parsing: the segments of all tracks, in track order
   * and then segment order, each as its `(lon, lat)` pairs, with empty
   * segments dropped.
   */
  method LoadGpx(gpx: GpxFile) returns (traces: seq<Trace>)
    ensures traces == NonEmptyTraces(AllSegments(gpx.tracks))
  {
    traces := [];
    var t := 0;
    while t < |gpx.tracks|
      invariant 0 <= t <= |gpx.tracks|
      invariant traces == NonEmptyTraces(AllSegments(gpx.tracks[..t]))
    {
      traces := AppendTraces(traces, gpx.tracks[t].segments);
      NonEmptyTracesAppend(AllSegments(gpx.tracks[..t]), gpx.tracks[t].segments);
      assert gpx.tracks[..t + 1][..t] == gpx.tracks[..t];
      t := t + 1;
    }
    assert gpx.tracks[..t] == gpx.tracks;
  }

  lemma {:induction false} NonEmptyTracesAppend(a: seq<Segment>, b: seq<Segment>)
    ensures NonEmptyTraces(a + b) == NonEmptyTraces(a) + NonEmptyTraces(b)
    decreases |b|
  {
    if b == [] {
      assert a + b == a;
    } else {
      var b' := b[..|b| - 1];
      assert (a + b)[..|a + b| - 1] == a + b';
      NonEmptyTracesAppend(a, b');
    }
  }

  /**
   * Every trace is non-empty and is the `(lon, lat)` list of some segment;
   * every segment with points contributes its trace.
   */
  lemma {:induction false} NonEmptyTracesMembership(segments: seq<Segment>, trace: Trace)
    ensures trace in NonEmptyTraces(segments) ==> trace != []
    ensures trace in NonEmptyTraces(segments) <==>
              trace != [] && exists s :: s in segments && trace == LonLats(s.points)
  {
    if segments != [] {
      var init := segments[..|segments| - 1];
      NonEmptyTracesMembership(init, trace);
      assert segments == init + [segments[|segments| - 1]];
    }
  }

  /** The indices of the segments that have points. */
  function NonEmptyIndices(segments: seq<Segment>): set<nat>
  {
    set k: nat | k < |segments| && segments[k].points != []
  }

  /**
   * There is one trace per segment that has points, so at most as many
   * traces as segments, and exactly as many when no segment is empty; then
   * the k-th trace is the k-th segment's.
   */
  lemma {:induction false} NonEmptyTracesCount(segments: seq<Segment>)
    ensures |NonEmptyTraces(segments)| == |NonEmptyIndices(segments)|
    ensures |NonEmptyTraces(segments)| <= |segments|
    ensures (forall s :: s in segments ==> s.points != []) ==>
              |NonEmptyTraces(segments)| == |segments| &&
              forall k :: 0 <= k < |segments| ==> NonEmptyTraces(segments)[k] == LonLats(segments[k].points)
  {
    if segments != [] {
      var n := |segments| - 1;
      var init := segments[..n];
      NonEmptyTracesCount(init);
      var before := NonEmptyIndices(init);
      assert NonEmptyIndices(segments) == before + (if segments[n].points != [] then {n} else {});
      assert n !in before;
      if forall s :: s in segments ==> s.points != [] {
        assert forall s :: s in init ==> s in segments;
      }
    }
  }
}

/**
 * A parsed GPX file as the GPX library hands it to the scripts: tracks made
 * of segments of points, routes of points, and waypoints.
 */
module Gpx {
  import opened Wrappers

  /** A track or route point; the elevation is optional. */
  datatype GpxPoint = GpxPoint(latitude: real, longitude: real, elevation: Option<real>)

  datatype Segment = Segment(points: seq<GpxPoint>)

  datatype Track = Track(name: Option<string>, segments: seq<Segment>)

  datatype Route = Route(name: Option<string>, points: seq<GpxPoint>)

  datatype Waypoint = Waypoint(
    latitude: real, longitude: real, elevation: Option<real>,
    name: Option<string>, description: Option<string>)

  datatype GpxFile = GpxFile(tracks: seq<Track>, routes: seq<Route>, waypoints: seq<Waypoint>)

  /** The segments of all tracks, in track order and, within a track, in segment order. */
  function AllSegments(tracks: seq<Track>): seq<Segment>
  {
    if tracks == [] then []
    else AllSegments(tracks[..|tracks| - 1]) + tracks[|tracks| - 1].segments
  }

  lemma {:induction false} AllSegmentsAppend(a: seq<Track>, b: seq<Track>)
    ensures AllSegments(a + b) == AllSegments(a) + AllSegments(b)
    decreases |b|
  {
    if b == [] {
      assert a + b == a;
    } else {
      var b' := b[..|b| - 1];
      assert (a + b)[..|a + b| - 1] == a + b';
      AllSegmentsAppend(a, b');
    }
  }

  /**
   * Segment `s` of track `t` sits in the flattened list right after the
   * segments of the tracks before `t`.
   */
  lemma AllSegmentsAt(tracks: seq<Track>, t: nat, s: nat)
    requires t < |tracks| && s < |tracks[t].segments|
    ensures |AllSegments(tracks[..t])| + s < |AllSegments(tracks)|
    ensures AllSegments(tracks)[|AllSegments(tracks[..t])| + s] == tracks[t].segments[s]
  {
    assert tracks == tracks[..t] + [tracks[t]] + tracks[t + 1..];
    AllSegmentsAppend(tracks[..t] + [tracks[t]], tracks[t + 1..]);
    AllSegmentsAppend(tracks[..t], [tracks[t]]);
    assert AllSegments([tracks[t]]) == tracks[t].segments by {
      assert [tracks[t]][..0] == [];
    }
  }
}

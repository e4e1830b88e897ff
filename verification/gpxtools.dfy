/**
 * The GPX converters: `gpx_to_geojson`, which turns tracks, routes and
 * waypoints into GeoJSON features, and `gpx_to_svg`, which collects the
 * track points of a GPX document and traces them as an SVG path with a
 * start and an end marker.
 */
module GpxTools {
  import opened Wrappers
  import opened Gpx

  // ---------------------------------------------------------------------
  // GeoJSON
  // ---------------------------------------------------------------------

  /** A GeoJSON position: `[longitude, latitude, elevation]`. */
  type Position = seq<real>

  datatype Geometry = LineString(line: seq<Position>) | Point(position: Position)

  /** The `properties` object; only waypoint features carry a description. */
  datatype Properties =
    | Properties(name: string, kind: string)
    | WaypointProperties(name: string, kind: string, description: Option<string>)

  datatype Feature = Feature(geometry: Geometry, properties: Properties)

  datatype FeatureCollection = FeatureCollection(features: seq<Feature>)

  /** `elevation or 0`: a missing elevation becomes 0. */
  function ElevationOrZero(elevation: Option<real>): (z: real)
    ensures elevation.Some? ==> z == elevation.value
    ensures elevation.None? ==> z == 0.0
  {
    match elevation
    case Some(e) => e
    case None => 0.0
  }

  /**
   * `name or default`: Python treats both a missing and an empty name as
   * false, so either gives the default.
   */
  function NameOr(name: Option<string>, default: string): (r: string)
    ensures r == default || name == Some(r)
    ensures r == default <== name.None? || name.value == ""
    ensures r == "" ==> default == ""
    ensures name.Some? && name.value != "" ==> r == name.value
  {
    if name.Some? && name.value != "" then name.value else default
  }

  function PositionOf(point: GpxPoint): Position
  {
    [point.longitude, point.latitude, ElevationOrZero(point.elevation)]
  }

  /** The coordinates of a line, one position per point, in point order. */
  function Coordinates(points: seq<GpxPoint>): seq<Position>
  {
    seq(|points|, i requires 0 <= i < |points| => PositionOf(points[i]))
  }

  function SegmentFeature(track: Track, segment: Segment): Feature
  {
    Feature(LineString(Coordinates(segment.points)),
            Properties(NameOr(track.name, "Unnamed Track"), "track"))
  }

  /** The features of one track, one per segment. */
  function SegmentFeatures(track: Track): seq<Feature>
  {
    seq(|track.segments|, i requires 0 <= i < |track.segments| => SegmentFeature(track, track.segments[i]))
  }

  function TrackFeatures(tracks: seq<Track>): seq<Feature>
  {
    if tracks == [] then []
    else TrackFeatures(tracks[..|tracks| - 1]) + SegmentFeatures(tracks[|tracks| - 1])
  }

  function RouteFeature(route: Route): Feature
  {
    Feature(LineString(Coordinates(route.points)),
            Properties(NameOr(route.name, "Unnamed Route"), "route"))
  }

  function RouteFeatures(routes: seq<Route>): seq<Feature>
  {
    seq(|routes|, i requires 0 <= i < |routes| => RouteFeature(routes[i]))
  }

  function WaypointFeature(w: Waypoint): Feature
  {
    Feature(Point([w.longitude, w.latitude, ElevationOrZero(w.elevation)]),
            WaypointProperties(NameOr(w.name, "Unnamed Waypoint"), "waypoint", w.description))
  }

  function WaypointFeatures(waypoints: seq<Waypoint>): seq<Feature>
  {
    seq(|waypoints|, i requires 0 <= i < |waypoints| => WaypointFeature(waypoints[i]))
  }

  /**
   * The features of the collection: track features first, then route
   * features, then waypoint features, each part present only when its flag
   * is set.
   */
  function Features(gpx: GpxFile, writeTracks: bool, writeRoutes: bool, writeWaypoints: bool): seq<Feature>
  {
    (if writeTracks then TrackFeatures(gpx.tracks) else [])
    + (if writeRoutes then RouteFeatures(gpx.routes) else [])
    + (if writeWaypoints then WaypointFeatures(gpx.waypoints) else [])
  }

  /**
   * The `coordinates` loop shared by track segments and routes: one
   * `[lon, lat, elevation or 0]` position per point, in point order.
   */
  method LineCoordinates(points: seq<GpxPoint>) returns (coordinates: seq<Position>)
    ensures |coordinates| == |points|
    ensures forall i :: 0 <= i < |points| ==>
              coordinates[i] == [points[i].longitude, points[i].latitude, ElevationOrZero(points[i].elevation)]
  {
    coordinates := [];
    var p := 0;
    while p < |points|
      invariant 0 <= p <= |points|
      invariant |coordinates| == p
      invariant forall i :: 0 <= i < p ==>
                  coordinates[i] == [points[i].longitude, points[i].latitude, ElevationOrZero(points[i].elevation)]
    {
      var point := points[p];
      coordinates := coordinates + [[point.longitude, point.latitude, ElevationOrZero(point.elevation)]];
      p := p + 1;
    }
  }

  /** The track block of `gpx_to_geojson`: one LineString feature per segment, track by track. */
  method AppendTrackFeatures(features: seq<Feature>, tracks: seq<Track>) returns (result: seq<Feature>)
    ensures result == features + TrackFeatures(tracks)
  {
    result := features;
    var t := 0;
    while t < |tracks|
      invariant 0 <= t <= |tracks|
      invariant result == features + TrackFeatures(tracks[..t])
    {
      var track := tracks[t];
      ghost var before := result;
      var s := 0;
      while s < |track.segments|
        invariant 0 <= s <= |track.segments|
        invariant result == before + SegmentFeatures(track)[..s]
      {
        var segment := track.segments[s];
        var coordinates := LineCoordinates(segment.points);
        assert coordinates == Coordinates(segment.points);
        result := result + [Feature(LineString(coordinates),
                                    Properties(NameOr(track.name, "Unnamed Track"), "track"))];
        assert SegmentFeatures(track)[..s + 1] == SegmentFeatures(track)[..s] + [SegmentFeature(track, segment)];
        s := s + 1;
      }
      assert SegmentFeatures(track)[..s] == SegmentFeatures(track);
      assert TrackFeatures(tracks[..t + 1]) == TrackFeatures(tracks[..t]) + SegmentFeatures(track) by {
        assert tracks[..t + 1][..t] == tracks[..t];
      }
      t := t + 1;
    }
    assert tracks[..t] == tracks;
  }

  /** The route block of `gpx_to_geojson`: one LineString feature per route. */
  method AppendRouteFeatures(features: seq<Feature>, routes: seq<Route>) returns (result: seq<Feature>)
    ensures result == features + RouteFeatures(routes)
  {
    result := features;
    var r := 0;
    while r < |routes|
      invariant 0 <= r <= |routes|
      invariant result == features + RouteFeatures(routes)[..r]
    {
      var route := routes[r];
      var coordinates := LineCoordinates(route.points);
      assert coordinates == Coordinates(route.points);
      result := result + [Feature(LineString(coordinates),
                                  Properties(NameOr(route.name, "Unnamed Route"), "route"))];
      assert RouteFeatures(routes)[..r + 1] == RouteFeatures(routes)[..r] + [RouteFeature(route)];
      r := r + 1;
    }
    assert RouteFeatures(routes)[..r] == RouteFeatures(routes);
  }

  /** The waypoint block of `gpx_to_geojson`: one Point feature per waypoint. */
  method AppendWaypointFeatures(features: seq<Feature>, waypoints: seq<Waypoint>) returns (result: seq<Feature>)
    ensures result == features + WaypointFeatures(waypoints)
  {
    result := features;
    var w := 0;
    while w < |waypoints|
      invariant 0 <= w <= |waypoints|
      invariant result == features + WaypointFeatures(waypoints)[..w]
    {
      var waypoint := waypoints[w];
      result := result + [Feature(Point([waypoint.longitude, waypoint.latitude, ElevationOrZero(waypoint.elevation)]),
                                  WaypointProperties(NameOr(waypoint.name, "Unnamed Waypoint"), "waypoint",
                                                     waypoint.description))];
      assert WaypointFeatures(waypoints)[..w + 1] == WaypointFeatures(waypoints)[..w] + [WaypointFeature(waypoint)];
      w := w + 1;
    }
    assert WaypointFeatures(waypoints)[..w] == WaypointFeatures(waypoints);
  }

  /** `gpx_to_geojson` without the file I/O: the feature collection it writes. */
  method GpxToGeoJson(gpx: GpxFile, writeTracks: bool := true, writeRoutes: bool := false, writeWaypoints: bool := false)
    returns (collection: FeatureCollection)
    ensures collection.features == Features(gpx, writeTracks, writeRoutes, writeWaypoints)
  {
    var features: seq<Feature> := [];
    if writeTracks {
      features := AppendTrackFeatures(features, gpx.tracks);
    }
    if writeRoutes {
      features := AppendRouteFeatures(features, gpx.routes);
    }
    if writeWaypoints {
      features := AppendWaypointFeatures(features, gpx.waypoints);
    }
    collection := FeatureCollection(features);
  }

  /** There is one track feature per segment of every track. */
  lemma {:induction false} TrackFeaturesCount(tracks: seq<Track>)
    ensures |TrackFeatures(tracks)| == |AllSegments(tracks)|
  {
    if tracks != [] {
      TrackFeaturesCount(tracks[..|tracks| - 1]);
    }
  }

  /** The track feature of segment `s` of track `t` follows those of the earlier tracks. */
  lemma {:induction false} TrackFeatureIndex(tracks: seq<Track>, t: nat, s: nat)
    requires t < |tracks| && s < |tracks[t].segments|
    ensures |AllSegments(tracks[..t])| + s < |TrackFeatures(tracks)|
    ensures TrackFeatures(tracks)[|AllSegments(tracks[..t])| + s] == SegmentFeature(tracks[t], tracks[t].segments[s])
  {
    var init := tracks[..|tracks| - 1];
    assert TrackFeatures(tracks) == TrackFeatures(init) + SegmentFeatures(tracks[|tracks| - 1]);
    if t == |tracks| - 1 {
      TrackFeaturesCount(init);
    } else {
      TrackFeatureIndex(init, t, s);
      assert init[..t] == tracks[..t] && init[t] == tracks[t];
    }
  }

  /**
   * Track features come in track order, then segment order: the feature
   * for segment `s` of track `t` follows the features of the earlier
   * tracks. It is a LineString with one `[lon, lat, elevation or 0]`
   * position per point of the segment, named after the track (or
   * "Unnamed Track") and typed "track".
   */
  lemma TrackFeatureAt(tracks: seq<Track>, t: nat, s: nat)
    requires t < |tracks| && s < |tracks[t].segments|
    ensures var k := |AllSegments(tracks[..t])| + s;
            var segment := tracks[t].segments[s];
            k < |TrackFeatures(tracks)| &&
            TrackFeatures(tracks)[k].geometry.LineString? &&
            |TrackFeatures(tracks)[k].geometry.line| == |segment.points| &&
            (forall i :: 0 <= i < |segment.points| ==>
               TrackFeatures(tracks)[k].geometry.line[i] ==
                 [segment.points[i].longitude, segment.points[i].latitude, ElevationOrZero(segment.points[i].elevation)]) &&
            TrackFeatures(tracks)[k].properties == Properties(NameOr(tracks[t].name, "Unnamed Track"), "track")
  {
    TrackFeatureIndex(tracks, t, s);
  }

  /**
   * With the default flags the collection holds exactly the track
   * features, one per segment; with every flag off it is empty.
   */
  lemma DefaultFlagsTracksOnly(gpx: GpxFile)
    ensures |Features(gpx, true, false, false)| == |AllSegments(gpx.tracks)|
    ensures forall f :: f in Features(gpx, true, false, false) ==> f.properties.kind == "track" && f.geometry.LineString?
    ensures Features(gpx, false, false, false) == []
  {
    TrackFeaturesCount(gpx.tracks);
    assert Features(gpx, true, false, false) == TrackFeatures(gpx.tracks);
    forall f | f in Features(gpx, true, false, false)
      ensures f.properties.kind == "track" && f.geometry.LineString?
    {
      TrackFeaturesKind(gpx.tracks, f);
    }
  }

  lemma {:induction false} TrackFeaturesKind(tracks: seq<Track>, f: Feature)
    requires f in TrackFeatures(tracks)
    ensures f.properties.kind == "track" && f.geometry.LineString?
  {
    var init := tracks[..|tracks| - 1];
    if f in TrackFeatures(init) {
      TrackFeaturesKind(init, f);
    }
  }

  /** Each enabled part contributes one feature per segment, route or waypoint. */
  lemma FeaturesCount(gpx: GpxFile, writeTracks: bool, writeRoutes: bool, writeWaypoints: bool)
    ensures |Features(gpx, writeTracks, writeRoutes, writeWaypoints)|
         == (if writeTracks then |AllSegments(gpx.tracks)| else 0)
          + (if writeRoutes then |gpx.routes| else 0)
          + (if writeWaypoints then |gpx.waypoints| else 0)
  {
    TrackFeaturesCount(gpx.tracks);
  }

  /**
   * Route features follow the track features, in route order: a
   * LineString with one `[lon, lat, elevation or 0]` position per route
   * point, named after the route (or "Unnamed Route") and typed "route".
   */
  lemma RouteFeatureAt(gpx: GpxFile, writeTracks: bool, writeWaypoints: bool, r: nat)
    requires r < |gpx.routes|
    ensures var features := Features(gpx, writeTracks, true, writeWaypoints);
            var k := (if writeTracks then |AllSegments(gpx.tracks)| else 0) + r;
            var route := gpx.routes[r];
            k < |features| &&
            features[k].geometry.LineString? &&
            |features[k].geometry.line| == |route.points| &&
            (forall i :: 0 <= i < |route.points| ==>
               features[k].geometry.line[i] ==
                 [route.points[i].longitude, route.points[i].latitude, ElevationOrZero(route.points[i].elevation)]) &&
            features[k].properties == Properties(NameOr(route.name, "Unnamed Route"), "route")
  {
    RouteFeatureIndex(gpx, writeTracks, writeWaypoints, r);
    assert RouteFeature(gpx.routes[r]).geometry.line == Coordinates(gpx.routes[r].points);
  }

  /** The feature of route `r` sits right after the track features, if any. */
  lemma RouteFeatureIndex(gpx: GpxFile, writeTracks: bool, writeWaypoints: bool, r: nat)
    requires r < |gpx.routes|
    ensures var k := (if writeTracks then |AllSegments(gpx.tracks)| else 0) + r;
            k < |Features(gpx, writeTracks, true, writeWaypoints)| &&
            Features(gpx, writeTracks, true, writeWaypoints)[k] == RouteFeature(gpx.routes[r])
  {
    var tracks := if writeTracks then TrackFeatures(gpx.tracks) else [];
    var waypoints := if writeWaypoints then WaypointFeatures(gpx.waypoints) else [];
    TrackFeaturesCount(gpx.tracks);
    var features := Features(gpx, writeTracks, true, writeWaypoints);
    assert features == (tracks + RouteFeatures(gpx.routes)) + waypoints;
    assert features[|tracks| + r] == (tracks + RouteFeatures(gpx.routes))[|tracks| + r];
  }

  /**
   * Waypoint features come last, in waypoint order: a Point at
   * `[lon, lat, elevation or 0]`, named after the waypoint (or "Unnamed
   * Waypoint"), typed "waypoint" and carrying the waypoint's description.
   */
  lemma WaypointFeatureAt(gpx: GpxFile, writeTracks: bool, writeRoutes: bool, w: nat)
    requires w < |gpx.waypoints|
    ensures var features := Features(gpx, writeTracks, writeRoutes, true);
            var k := (if writeTracks then |AllSegments(gpx.tracks)| else 0)
                   + (if writeRoutes then |gpx.routes| else 0) + w;
            var waypoint := gpx.waypoints[w];
            k < |features| &&
            features[k].geometry ==
              Point([waypoint.longitude, waypoint.latitude, ElevationOrZero(waypoint.elevation)]) &&
            features[k].properties ==
              WaypointProperties(NameOr(waypoint.name, "Unnamed Waypoint"), "waypoint", waypoint.description)
  {
    var before := (if writeTracks then TrackFeatures(gpx.tracks) else [])
                + (if writeRoutes then RouteFeatures(gpx.routes) else []);
    TrackFeaturesCount(gpx.tracks);
    assert Features(gpx, writeTracks, writeRoutes, true) == before + WaypointFeatures(gpx.waypoints);
    assert Features(gpx, writeTracks, writeRoutes, true)[|before| + w] == WaypointFeature(gpx.waypoints[w]);
  }

  // ---------------------------------------------------------------------
  // SVG
  // ---------------------------------------------------------------------

  /**
   * An XML element below the root of the document, with its tag in the
   * parser's `{namespace}local` form and its `lat`/`lon` attributes.
   */
  datatype XmlElement = XmlElement(tag: string, lat: real, lon: real)

  /** The root's tag and every element below the root, in document order. */
  datatype XmlDocument = XmlDocument(rootTag: string, descendants: seq<XmlElement>)

  const Gpx11Namespace := "http://www.topografix.com/GPX/1/1"
  const Gpx10Namespace := "http://www.topografix.com/GPX/1/0"

  predicate EndsWith(s: string, suffix: string)
  {
    |suffix| <= |s| && s[|s| - |suffix|..] == suffix
  }

  /** The namespace bound to the `gpx` prefix: 1.1 unless the root tag does not end in "gpx". */
  function Namespace(doc: XmlDocument): string
  {
    if EndsWith(doc.rootTag, "gpx") then Gpx11Namespace else Gpx10Namespace
  }

  function Qualified(namespace: string, local: string): string
  {
    "{" + namespace + "}" + local
  }

  /** `findall('.//' + tag)` with each match read as `(lon, lat)`, in document order. */
  function FindAll(elements: seq<XmlElement>, tag: string): seq<(real, real)>
  {
    if elements == [] then []
    else
      var e := elements[|elements| - 1];
      FindAll(elements[..|elements| - 1], tag) + (if e.tag == tag then [(e.lon, e.lat)] else [])
  }

  /** The three strategies, in the order they are tried. */
  function WithPrefix(doc: XmlDocument): seq<(real, real)>
  {
    FindAll(doc.descendants, Qualified(Namespace(doc), "trkpt"))
  }

  function WithGpx10(doc: XmlDocument): seq<(real, real)>
  {
    FindAll(doc.descendants, Qualified(Gpx10Namespace, "trkpt"))
  }

  function WithoutNamespace(doc: XmlDocument): seq<(real, real)>
  {
    FindAll(doc.descendants, "trkpt")
  }

  /** The track points `gpx_to_svg` works on: the first strategy that finds any. */
  function TrackPoints(doc: XmlDocument): seq<(real, real)>
  {
    if WithPrefix(doc) != [] then WithPrefix(doc)
    else if WithGpx10(doc) != [] then WithGpx10(doc)
    else WithoutNamespace(doc)
  }

  /** A point is found for `tag` iff some element with that tag carries its coordinates. */
  lemma {:induction false} FindAllMembership(elements: seq<XmlElement>, tag: string, p: (real, real))
    ensures p in FindAll(elements, tag) <==> exists e :: e in elements && e.tag == tag && p == (e.lon, e.lat)
    ensures |FindAll(elements, tag)| <= |elements|
  {
    if elements != [] {
      var init := elements[..|elements| - 1];
      FindAllMembership(init, tag, p);
      assert elements == init + [elements[|elements| - 1]];
    }
  }

  /**
   * No points at all means every strategy found nothing, and every point
   * comes from a `trkpt` element, with its longitude first.
   */
  lemma TrackPointsFallback(doc: XmlDocument)
    ensures TrackPoints(doc) == [] <==> WithPrefix(doc) == [] && WithGpx10(doc) == [] && WithoutNamespace(doc) == []
    ensures forall p :: p in TrackPoints(doc) ==>
              exists e :: e in doc.descendants && p == (e.lon, e.lat) &&
                          e.tag in {Qualified(Namespace(doc), "trkpt"), Qualified(Gpx10Namespace, "trkpt"), "trkpt"}
  {
    forall p | p in TrackPoints(doc)
      ensures exists e :: e in doc.descendants && p == (e.lon, e.lat) &&
                          e.tag in {Qualified(Namespace(doc), "trkpt"), Qualified(Gpx10Namespace, "trkpt"), "trkpt"}
    {
      FindAllMembership(doc.descendants, Qualified(Namespace(doc), "trkpt"), p);
      FindAllMembership(doc.descendants, Qualified(Gpx10Namespace, "trkpt"), p);
      FindAllMembership(doc.descendants, "trkpt", p);
    }
  }

  /** One extraction loop: the matches of `tag`, appended to `points`. */
  method CollectTrackPoints(doc: XmlDocument, tag: string) returns (points: seq<(real, real)>)
    ensures points == FindAll(doc.descendants, tag)
  {
    points := [];
    var i := 0;
    while i < |doc.descendants|
      invariant 0 <= i <= |doc.descendants|
      invariant points == FindAll(doc.descendants[..i], tag)
    {
      var e := doc.descendants[i];
      assert doc.descendants[..i + 1][..i] == doc.descendants[..i];
      if e.tag == tag {
        points := points + [(e.lon, e.lat)];
      }
      i := i + 1;
    }
    assert doc.descendants[..i] == doc.descendants;
  }

  /**
   * The extraction chain of `gpx_to_svg`: a later strategy is tried only
   * when every earlier one found no point.
   */
  method ExtractTrackPoints(doc: XmlDocument) returns (points: seq<(real, real)>)
    ensures WithPrefix(doc) != [] ==> points == WithPrefix(doc)
    ensures WithPrefix(doc) == [] && WithGpx10(doc) != [] ==> points == WithGpx10(doc)
    ensures WithPrefix(doc) == [] && WithGpx10(doc) == [] ==> points == WithoutNamespace(doc)
    ensures points == TrackPoints(doc)
  {
    var namespace := if EndsWith(doc.rootTag, "gpx") then Gpx11Namespace else Gpx10Namespace;
    points := CollectTrackPoints(doc, Qualified(namespace, "trkpt"));
    if points == [] {
      points := CollectTrackPoints(doc, Qualified(Gpx10Namespace, "trkpt"));
    }
    if points == [] {
      points := CollectTrackPoints(doc, "trkpt");
    }
  }

  /** `"{x},{y}"`, with the number formatting left abstract. */
  function Pair(p: (real, real), format: real -> string): string
  {
    format(p.0) + "," + format(p.1)
  }

  /** The `" L x,y"` commands for the given points, in order. */
  function LineTos(points: seq<(real, real)>, format: real -> string): string
  {
    if points == [] then ""
    else LineTos(points[..|points| - 1], format) + " L " + Pair(points[|points| - 1], format)
  }

  /** The `d` attribute of the path: a move to the first point, then a line to each later one. */
  function PathData(points: seq<(real, real)>, format: real -> string): string
    requires |points| > 0
  {
    "M " + Pair(points[0], format) + LineTos(points[1..], format)
  }

  /** How many times `c` occurs in `s`. */
  function Occurrences(s: string, c: char): nat
  {
    multiset(s)[c]
  }

  /** A coordinate pair holds no `M` and no `L` when neither formatted number does. */
  lemma PairCounts(p: (real, real), format: real -> string)
    requires 'M' !in format(p.0) && 'L' !in format(p.0)
    requires 'M' !in format(p.1) && 'L' !in format(p.1)
    ensures Occurrences(Pair(p, format), 'M') == 0 && Occurrences(Pair(p, format), 'L') == 0
  {
    assert multiset(Pair(p, format)) == multiset(format(p.0)) + multiset(",") + multiset(format(p.1));
  }

  lemma {:induction false} LineTosCounts(points: seq<(real, real)>, format: real -> string)
    requires forall x :: 'M' !in format(x) && 'L' !in format(x)
    ensures Occurrences(LineTos(points, format), 'M') == 0
    ensures Occurrences(LineTos(points, format), 'L') == |points|
  {
    if points != [] {
      var init := points[..|points| - 1];
      var step := " L " + Pair(points[|points| - 1], format);
      LineTosCounts(init, format);
      PairCounts(points[|points| - 1], format);
      assert multiset(step) == multiset(" L ") + multiset(Pair(points[|points| - 1], format));
      assert LineTos(points, format) == LineTos(init, format) + step;
      assert multiset(LineTos(points, format)) == multiset(LineTos(init, format)) + multiset(step);
    }
  }

  /**
   * When the number formatting writes neither `M` nor `L`, the path for n
   * points holds exactly one `M` command and exactly n - 1 `L` commands.
   */
  lemma PathCommandCounts(points: seq<(real, real)>, format: real -> string)
    requires |points| > 0
    requires forall x :: 'M' !in format(x) && 'L' !in format(x)
    ensures Occurrences(PathData(points, format), 'M') == 1
    ensures Occurrences(PathData(points, format), 'L') == |points| - 1
  {
    LineTosCounts(points[1..], format);
    PairCounts(points[0], format);
    assert multiset(PathData(points, format))
        == multiset("M ") + multiset(Pair(points[0], format)) + multiset(LineTos(points[1..], format));
  }

  /** The `path_data` loop: one `M` for the first point, then `+= " L x,y"` for each later point. */
  method BuildPath(svgPoints: seq<(real, real)>, format: real -> string) returns (pathData: string)
    requires |svgPoints| > 0
    ensures pathData == PathData(svgPoints, format)
  {
    pathData := "M " + format(svgPoints[0].0) + "," + format(svgPoints[0].1);
    var i := 1;
    while i < |svgPoints|
      invariant 1 <= i <= |svgPoints|
      invariant pathData == "M " + Pair(svgPoints[0], format) + LineTos(svgPoints[1..i], format)
    {
      assert svgPoints[1..i + 1][..i - 1] == svgPoints[1..i];
      pathData := pathData + " L " + format(svgPoints[i].0) + "," + format(svgPoints[i].1);
      i := i + 1;
    }
    assert svgPoints[1..i] == svgPoints[1..];
  }

  /** What the SVG file shows: its size, the traced path and the two end markers. */
  datatype Svg = Svg(width: int, height: int, pathData: string, start: (real, real), end: (real, real))

  /** The projected points, in input order. */
  function Projected(points: seq<(real, real)>, transform: (real, real) -> (real, real)): (r: seq<(real, real)>)
    ensures |r| == |points|
  {
    seq(|points|, i requires 0 <= i < |points| => transform(points[i].0, points[i].1))
  }

  /**
   * `gpx_to_svg` without the file I/O: no SVG when no strategy finds a
   * track point; otherwise the path through the projected points, the
   * start marker on the first of them and the end marker on the last.
   */
  method GpxToSvg(doc: XmlDocument, transform: (real, real) -> (real, real), format: real -> string,
                  width: int := 800, height: int := 600)
    returns (svg: Option<Svg>)
    ensures svg.None? <==> TrackPoints(doc) == []
    ensures svg.Some? ==>
              var points := TrackPoints(doc);
              svg.value.width == width && svg.value.height == height &&
              svg.value.pathData == PathData(Projected(points, transform), format) &&
              svg.value.start == transform(points[0].0, points[0].1) &&
              svg.value.end == transform(points[|points| - 1].0, points[|points| - 1].1)
  {
    var points := ExtractTrackPoints(doc);
    if points == [] {
      return None;
    }
    var svgPoints := Projected(points, transform);
    var pathData := BuildPath(svgPoints, format);
    svg := Some(Svg(width, height, pathData, svgPoints[0], svgPoints[|svgPoints| - 1]));
  }
}

# nebulous-map preprocessing, modelled in Dafny

The preprocessing scripts of nebulous-map prepare map data for a web map.
This project models four of them:

- `filter_osm.py` reads an OpenStreetMap extract twice.
  - The first pass is the `TagCounter` handler. It catalogues every tag key with the values seen under it. `main` writes that catalogue as a report with the keys and values sorted.
  - The second pass is the `FeatureFilter` handler. It copies to its writer the nodes and ways that `_should_include` accepts, plus any node that a way needs.
- `gpxtools.py` converts a parsed GPX file.
  - `gpx_to_geojson` turns it into a GeoJSON feature collection: one LineString per track segment, then one LineString per route, then one Point per waypoint.
  - `gpx_to_svg` finds the track points of a GPX document with three namespace strategies tried in turn. It traces them as an SVG path, with a start and an end marker.
- `tracy_rss.py` reads the OpenStreetMap GPS-trace RSS feed.
  - It turns each item into a record of id, title and data URL.
  - `fetch_trace` fetches a trace, decompressing it as its content type says.
  - `main` downloads at most ten traces into a directory, skipping files already present, and counts what `download_gpx` returns.
- `map_gpx.py` has `load_gpx`, which turns every non-empty track segment into a list of `(lon, lat)` pairs for plotting.

Layout:

| file | module | contents |
|---|---|---|
| `common.dfy` | `Wrappers`, `StringOrder` | `Option`; Python's string order and `sorted` on a set of strings |
| `filter_osm.dfy` | `FilterOsm` | the `FeatureFilter` and `TagCounter` classes, the inclusion predicate, the report |
| `gpx.dfy` | `Gpx` | the parsed GPX data model shared by the converters and the plotter |
| `gpxtools.dfy` | `GpxTools` | `gpx_to_geojson` and `gpx_to_svg` |
| `tracy_rss.dfy` | `TracyRss` | `fetch_rss`, `fetch_trace`, `download_gpx` and the loop of `main` |
| `map_gpx.dfy` | `MapGpx` | `load_gpx` |

Imperative code stays imperative:

- The handlers are classes whose methods update `written` or `tags` in place.
- The loops of the converters, the feed reader and the loader are methods with loop invariants.
- Each method is proved equal to a specification function, and the lemmas state what that function guarantees.

Python's `x or default` is modelled as Python evaluates it. A missing name and an empty name both give the default. A missing elevation gives 0. (An elevation of exactly 0.0 also gives 0, which is the same value.)

`main` reports its sum as `Downloaded {success} new traces.` (preprocess/tracy_rss.py:114). However, `download_gpx` also returns 1 after it catches and logs an exception (preprocess/tracy_rss.py:93-96), so failed downloads are counted too. The model follows the code (`Returned`, `DownloadGpx`, `RunBounds`): the success count bounds the attempted downloads, not the saved ones.

## Model

| member | source | states |
|---|---|---|
| FilterOsm.TagMatches | preprocess/filter_osm.py:63-71 | the loop over the filter keys for one tag, with its early returns in the source's order (characterised by TagMatchesIff) |
| FilterOsm.AnyTagMatches | preprocess/filter_osm.py:61-72 | the loop over the object's tags: True at the first tag the inner loop accepts, False at the end (characterised by AnyTagMatchesIff) |
| FilterOsm.ShouldInclude | preprocess/filter_osm.py:56-72 | `_should_include`: True for an empty filter, otherwise the tag loop (characterised by ShouldIncludeIff) |
| FilterOsm.TagMatchesIff | preprocess/filter_osm.py:63-71 | the loop over the filter keys accepts a tag iff some entry's prefix starts the tag's key and that entry allows any value or lists the tag's value |
| FilterOsm.AnyTagMatchesIff | preprocess/filter_osm.py:61-72 | the loop over the object's tags returns True iff some (tag, entry) pair is admitted, and False otherwise |
| FilterOsm.ShouldIncludeIff | preprocess/filter_osm.py:56-72 | `_should_include` holds iff the filter is empty or some tag of the object is admitted by some filter entry |
| FilterOsm.UntaggedExcluded | preprocess/filter_osm.py:57-72 | with a non-empty filter, an object without tags is never included |
| FilterOsm.UnadmittedTagIrrelevant | preprocess/filter_osm.py:61-72 | adding a tag that no entry admits (e.g. a matching prefix whose value is not listed) does not change the decision |
| FilterOsm.ListedValueDecides | preprocess/filter_osm.py:64-68 | for one prefix with a value list, an object whose keys all carry the prefix is included iff one of its values is listed |
| FilterOsm.ShouldIncludeOrderIndependent | preprocess/filter_osm.py:61-72 | the decision does not depend on the order of the tags or of the filter keys |
| FilterOsm.Kept | preprocess/filter_osm.py:47-54 | which callback writes an element: a node that passes or is needed, a way that passes, never a relation |
| FilterOsm.Filtered | preprocess/filter_osm.py:105-106 | what the filter writes for a stream: the kept elements in stream order (characterised by FilteredMembership) |
| FilterOsm.FilteredAppend | preprocess/filter_osm.py:105-106 | filtering a concatenated stream writes the kept elements of the first part, then those of the second |
| FilterOsm.FilteredMembership | preprocess/filter_osm.py:47-54 | an element is written iff it is in the stream and is a node that passes the filter or is needed, or a way that passes the filter; relations never |
| FilterOsm.FeatureFilter.constructor | preprocess/filter_osm.py:35-41 | a new filter holds the given configuration and has written nothing |
| FilterOsm.FeatureFilter.Node | preprocess/filter_osm.py:47-50 | a node is appended to the output iff it passes the filter or its id is needed; otherwise the output is unchanged |
| FilterOsm.FeatureFilter.Way | preprocess/filter_osm.py:52-54 | a way is appended iff it passes the filter; otherwise the output is unchanged |
| FilterOsm.FeatureFilter.ApplyFile | preprocess/filter_osm.py:105-106 | reading a file appends exactly the filtered stream, in stream order |
| FilterOsm.Add | preprocess/filter_osm.py:23 | `self.tags[tag.k].add(tag.v)` on a `defaultdict(set)`: the key gets the value added, starting from the empty set |
| FilterOsm.Observe | preprocess/filter_osm.py:22-23 | one callback's loop over the tags, in order (characterised by ObserveContents) |
| FilterOsm.Catalogue | preprocess/filter_osm.py:82-83 | the catalogue after the tags of every element of the stream (characterised by CatalogueExact) |
| FilterOsm.ObserveContents | preprocess/filter_osm.py:22-23 | after one tag loop, a key is present iff it was before or some tag has it, and a value is under a key iff it was before or some tag pairs them |
| FilterOsm.ObserveIdempotent | preprocess/filter_osm.py:22-23 | running the tag loop twice over the same tags gives the same catalogue as once |
| FilterOsm.CatalogueExact | preprocess/filter_osm.py:16-31 | starting empty, the catalogue's keys are exactly the keys seen in the stream, and each key's values are exactly the values seen with it |
| FilterOsm.TagCounter.constructor | preprocess/filter_osm.py:17-19 | the counter starts with an empty catalogue |
| FilterOsm.TagCounter.Record | preprocess/filter_osm.py:22-23 | the tag loop adds each tag's value under its key (the catalogue equals the observed one) |
| FilterOsm.TagCounter.Node | preprocess/filter_osm.py:21-23 | the node callback records the node's tags |
| FilterOsm.TagCounter.Way | preprocess/filter_osm.py:25-27 | the way callback records the way's tags |
| FilterOsm.TagCounter.Relation | preprocess/filter_osm.py:29-31 | the relation callback records the relation's tags |
| FilterOsm.TagCounter.ApplyFile | preprocess/filter_osm.py:82-83 | reading a file records the tags of every node, way and relation, in order |
| FilterOsm.CategoryOf | preprocess/filter_osm.py:90-93 | a report entry lists its key's values in ascending order, each once, and nothing else |
| FilterOsm.Report | preprocess/filter_osm.py:86-93 | the report: one entry per key in `sorted` order, each with its values (characterised by ReportListsCatalogue) |
| FilterOsm.ReportListsCatalogue | preprocess/filter_osm.py:86-93 | the report lists every catalogued key exactly once, keys ascending, each with its sorted values |
| StringOrder.Sorted | preprocess/filter_osm.py:88 | `sorted` of a set of strings holds exactly its elements, once each, strictly ascending in Python's string order |
| StringOrder.Least | preprocess/filter_osm.py:88 | a non-empty set of strings has an element below all the others |
| StringOrder.LessTotal | preprocess/filter_osm.py:88 | Python's string order is total: of two different strings one is below the other |
| StringOrder.LessTransitive | preprocess/filter_osm.py:88 | Python's string order is transitive |
| StringOrder.LessAsymmetric | preprocess/filter_osm.py:88 | Python's string order is asymmetric |
| Gpx.AllSegments | preprocess/map_gpx.py:18-19 | the nested loop order over the segments: track by track, then segment by segment |
| Gpx.AllSegmentsAppend | preprocess/map_gpx.py:18-19 | the segments of two lists of tracks, in order, are the segments of the first then of the second |
| Gpx.AllSegmentsAt | preprocess/map_gpx.py:18-19 | segment `s` of track `t` comes right after all the segments of the earlier tracks |
| GpxTools.NameOr | preprocess/gpxtools.py:34 | `name or default` gives the name unless it is missing or empty, in which case it gives the default |
| GpxTools.ElevationOrZero | preprocess/gpxtools.py:26 | `elevation or 0` gives the elevation when present and 0 otherwise |
| GpxTools.LineCoordinates | preprocess/gpxtools.py:23-26 | the coordinates loop builds one `[lon, lat, elevation or 0]` per point, in point order |
| GpxTools.AppendTrackFeatures | preprocess/gpxtools.py:20-38 | the track block appends the track features, segment by segment, track by track |
| GpxTools.AppendRouteFeatures | preprocess/gpxtools.py:41-58 | the route block appends one route feature per route |
| GpxTools.AppendWaypointFeatures | preprocess/gpxtools.py:61-75 | the waypoint block appends one waypoint feature per waypoint |
| GpxTools.Features | preprocess/gpxtools.py:17-75 | the `features` list: the track part, then the route part, then the waypoint part, each only when its flag is set |
| GpxTools.GpxToGeoJson | preprocess/gpxtools.py:10-80 | the collection holds the enabled parts in the order tracks, routes, waypoints |
| GpxTools.TrackFeaturesCount | preprocess/gpxtools.py:21-38 | there is exactly one track feature per segment of every track |
| GpxTools.TrackFeatureIndex | preprocess/gpxtools.py:21-38 | the feature of segment `s` of track `t` follows the features of all earlier tracks |
| GpxTools.TrackFeatureAt | preprocess/gpxtools.py:21-38 | that feature is a LineString with one `[lon, lat, elevation or 0]` per point, named after the track or "Unnamed Track", typed "track" |
| GpxTools.DefaultFlagsTracksOnly | preprocess/gpxtools.py:10 | with the default flags there is one feature per segment, all of them track LineStrings; with every flag off the collection is empty |
| GpxTools.TrackFeaturesKind | preprocess/gpxtools.py:27-37 | every track feature is a LineString typed "track" |
| GpxTools.FeaturesCount | preprocess/gpxtools.py:17-75 | the feature count is the sum over the enabled parts of the segments, routes and waypoints |
| GpxTools.RouteFeatureIndex | preprocess/gpxtools.py:41-58 | the feature of route `r` comes right after the track features |
| GpxTools.RouteFeatureAt | preprocess/gpxtools.py:41-58 | that feature is a LineString with one position per route point, named after the route or "Unnamed Route", typed "route" |
| GpxTools.WaypointFeatureAt | preprocess/gpxtools.py:61-75 | the feature of waypoint `w` follows the track and route features; it is a Point at `[lon, lat, elevation or 0]` with the waypoint's name or "Unnamed Waypoint", type "waypoint" and its description |
| GpxTools.Namespace | preprocess/gpxtools.py:94-96 | the GPX 1.1 namespace when the root tag ends in `gpx`, the GPX 1.0 namespace otherwise |
| GpxTools.FindAll | preprocess/gpxtools.py:102-105 | `findall` of a tag below the root: the `(lon, lat)` of each matching element, in document order (characterised by FindAllMembership) |
| GpxTools.TrackPoints | preprocess/gpxtools.py:99-119 | the points of the first strategy that finds any (characterised by TrackPointsFallback) |
| GpxTools.FindAllMembership | preprocess/gpxtools.py:102-105 | a point is collected for a tag iff some element with that tag carries it as `(lon, lat)`; there are at most as many points as elements |
| GpxTools.TrackPointsFallback | preprocess/gpxtools.py:99-121 | there are no track points iff all three strategies find none; every point comes from a `trkpt` element in one of the three spellings |
| GpxTools.CollectTrackPoints | preprocess/gpxtools.py:102-105 | one extraction loop collects `(lon, lat)` of the matching elements, in document order |
| GpxTools.ExtractTrackPoints | preprocess/gpxtools.py:93-119 | the namespaced search wins when it finds points; the GPX 1.0 search is used only when it finds none; the bare `trkpt` search only when both find none |
| GpxTools.LineTosCounts | preprocess/gpxtools.py:149-150 | the `L` commands hold no `M` and one `L` per point, when the number format writes neither letter |
| GpxTools.PathData | preprocess/gpxtools.py:148-150 | the path: a move to the first point, then a line to each later point (characterised by PathCommandCounts) |
| GpxTools.PathCommandCounts | preprocess/gpxtools.py:148-150 | the path for n points has exactly one `M` and n - 1 `L` commands, when the number format writes neither letter |
| GpxTools.BuildPath | preprocess/gpxtools.py:148-150 | the `path_data` loop builds the move to the first point followed by a line to each later point |
| GpxTools.Projected | preprocess/gpxtools.py:147 | projecting keeps one point per input point |
| GpxTools.GpxToSvg | preprocess/gpxtools.py:88-159 | there is no SVG iff no point is found; otherwise the SVG has the given size, the path through the projected points, and markers on the first and last projected points |
| MapGpx.NonEmptyTraces | preprocess/map_gpx.py:18-23 | the traces of the segments with points, in order (characterised by NonEmptyTracesMembership and NonEmptyTracesCount) |
| MapGpx.LonLats | preprocess/map_gpx.py:20 | the trace of a segment has one `(lon, lat)` per point, in order |
| MapGpx.AppendTraces | preprocess/map_gpx.py:19-22 | the segment loop appends the trace of each segment with points, in order |
| MapGpx.LoadGpx | preprocess/map_gpx.py:14-23 | `load_gpx` returns the traces of the non-empty segments in track and segment order |
| MapGpx.NonEmptyTracesAppend | preprocess/map_gpx.py:18-22 | the traces of two runs of segments are the traces of the first then of the second |
| MapGpx.NonEmptyTracesMembership | preprocess/map_gpx.py:18-22 | every trace is non-empty, and a list is a trace iff it is non-empty and is the `(lon, lat)` list of some segment |
| MapGpx.NonEmptyTracesCount | preprocess/map_gpx.py:18-22 | there are exactly as many traces as segments with points, so at most as many as segments; when no segment is empty, the k-th trace is from the k-th segment |
| TracyRss.LastPathComponent | preprocess/tracy_rss.py:28 | `link.split('/')[-1]`: the characters after the last `/` (characterised by LastPathComponentSpec) |
| TracyRss.RecordOf | preprocess/tracy_rss.py:27-33 | the record of one feed item: id from the link, the item's title, and the data URL built from the id |
| TracyRss.LastPathComponentSpec | preprocess/tracy_rss.py:28 | `link.split('/')[-1]` is a suffix of the link without `/` that is the whole link or follows a `/` |
| TracyRss.LastPathComponentUnique | preprocess/tracy_rss.py:28 | only one suffix has those properties, so they define the trace id |
| TracyRss.FetchRss | preprocess/tracy_rss.py:25-35 | one record per feed item, in order, with the id from the link, the item's title and the data URL `https://www.openstreetmap.org/trace/<id>/data` |
| TracyRss.EncodingOf | preprocess/tracy_rss.py:46-53 | the three content types `application/gpx+xml`, `application/x-gzip` and `application/x-bzip2` are recognised, each iff it is that exact string |
| TracyRss.FetchTrace | preprocess/tracy_rss.py:38-56 | a failed request raises; a non-ok status or an unknown content type gives no data; an ok `application/gpx+xml` response gives its content decoded as UTF-8, and gzip or bzip2 content is decompressed and then decoded; a decoder failure raises; text comes only from those cases |
| TracyRss.Join | preprocess/tracy_rss.py:62 | `os.path.join(outdir, name)`: an absolute name wins, otherwise one `/` between the two unless the directory is empty or already ends in `/` |
| TracyRss.Returned | preprocess/tracy_rss.py:65-96 | the value `download_gpx` returns: 1 after saving or after a caught exception, 0 otherwise |
| TracyRss.DownloadGpx | preprocess/tracy_rss.py:59-96 | an existing file means 0 and no fetch; no data or empty text means 0; saved text and a caught exception both mean 1; saved text is the fetched text under `<title>.gpx` |
| TracyRss.Step | preprocess/tracy_rss.py:111-112 | one iteration of the loop in `main`: add what `download_gpx` returns, note the saved file, note the URL when it fetched |
| TracyRss.RunOver | preprocess/tracy_rss.py:108-112 | the loop of `main` over the given items, in order (characterised by RunBounds, RunPresent and RunFetchesMissing) |
| TracyRss.DownloadRecent | preprocess/tracy_rss.py:108-112 | the loop handles only the first `min(10, len(items))` items, in order; at most 10 fetches, and the success count never exceeds them |
| TracyRss.RunBounds | preprocess/tracy_rss.py:108-112 | the success count is at most the number of fetches, which is at most the number of items |
| TracyRss.RunKeepsPresent | preprocess/tracy_rss.py:64-67 | files already on disk stay there during the run |
| TracyRss.RunPresent | preprocess/tracy_rss.py:77-79 | a file on disk after the run was there at the start or belongs to an item the run handled |
| TracyRss.RunFetchesMissing | preprocess/tracy_rss.py:108-112 | with distinct target paths, the run fetches exactly the items whose file is missing at the start, in order, and that number is the item count less the present ones |
| TracyRss.TwelveItemsTwoPresent | preprocess/tracy_rss.py:110-112 | with twelve items, two of the first ten already on disk, exactly eight downloads are tried and the success count is at most eight |

## Left out

- `tracy_api.py` is not part of this model.
- File and network I/O are left out: osmium's readers and writers, `gpxpy.parse`, `ET.parse`, `json.dump`, `requests.get` and `raise_for_status`, `xmltodict.parse`, `Path.write_text`, `os.makedirs`, `os.path.exists`, `time.sleep` and all `print` output.
  - The parsed values are parameters: the element stream, the parsed GPX file, the document's elements with their tags, and the feed items.
  - The HTTP call and the codecs are function parameters.
  - The files on disk are a set of paths.
- The `osmium export` subprocess that turns the filtered file into GeoJSON is not modelled.
- `FeatureFilter.close` only closes the writer and is not modelled.
- `FeatureFilter` defines `node` twice. Python keeps the second definition, and only that one is modelled.
- `needed_nodes` is read but never assigned in the source. The model takes it as a constructor parameter. With an empty filter it is never consulted, because `_should_include` already returns True.
- The report is modelled as its structure: keys and values in `sorted` order. The text of `osm_categories.txt` is not modelled.
- `plot_traces` and the `__main__` blocks of the four scripts are not modelled. This includes the SVG folder scan of `gpxtools.py`.
- GpxTools.GpxToSvg: the bounds, padding and `transform` of `gpx_to_svg` use floating point and are left out.
  - The projection is a function parameter.
  - Number formatting is a function parameter.
  - The fixed SVG boilerplate (the XML header, the background rect, stroke and marker styles) is not modelled; the model keeps its size, path and marker positions.
- GpxTools.PathCommandCounts: it counts path commands only when the number format writes no `M` or `L`. It says nothing about formats that do.
- Floating point is modelled as `real`. `float()` parsing of the `lat` and `lon` attributes is left out: the attributes are given as numbers.
- JSON writes a missing elevation as `0` and a present one as a float. Both are the real number 0 or the elevation here.
- `xmltodict` gives a dict rather than a list when the feed has exactly one item, and no `item` key when it has none. The model takes the list of items as given.
- `headers.get` in `requests` ignores case. The model looks up the lower-case name `content-type`.
- TracyRss.DownloadGpx: the source checks for the file at `os.path.join(outdir, name)` but writes it to a hard-coded directory. In `main` that directory is `outdir`, and the model uses `Join(outdir, name)` for both.
- A failure of `write_text` would be caught and return 1 like any other exception. The model does not include it: a fetched non-empty text is always saved.

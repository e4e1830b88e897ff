/**
 * The trace fetcher fed by the OpenStreetMap RSS feed of recent GPS
 * traces: turning feed items into trace records, fetching one trace and
 * undoing its transfer encoding, saving it unless it is already on disk,
 * and the run over the newest items that counts what was downloaded.
 *
 * The network and the decompressors are parameters: `http` gives the
 * outcome of a GET for a URL and `Codecs` the three decoders, each of
 * which may fail (raise).
 */
module TracyRss {
  import opened Wrappers

  newtype byte = x: int | 0 <= x < 256

  /** A feed item: its permalink and its title. */
  datatype FeedItem = FeedItem(link: string, title: string)

  /** The record `fetch_rss` builds for an item. */
  datatype TraceRecord = TraceRecord(id: string, title: string, dataURL: string)

  // ---------------------------------------------------------------------
  // fetch_rss
  // ---------------------------------------------------------------------

  /** `link.split('/')[-1]`. */
  function LastPathComponent(link: string): string
  {
    if link == [] then []
    else if link[|link| - 1] == '/' then []
    else LastPathComponent(link[..|link| - 1]) + [link[|link| - 1]]
  }

  /**
   * The last path component is the part of the link after its last `/`,
   * or the whole link when it has none: a suffix of the link that holds no
   * `/` and is either the whole link or preceded by a `/`.
   */
  lemma {:induction false} LastPathComponentSpec(link: string)
    ensures var id := LastPathComponent(link);
            '/' !in id &&
            |id| <= |link| && link[|link| - |id|..] == id &&
            (|id| == |link| || link[|link| - |id| - 1] == '/')
  {
    if link != [] && link[|link| - 1] != '/' {
      var init := link[..|link| - 1];
      LastPathComponentSpec(init);
      var id' := LastPathComponent(init);
      assert init[|init| - |id'|..] == link[|link| - 1 - |id'|..|link| - 1];
    }
  }

  /** Those properties pin the last path component down: no other suffix has them. */
  lemma LastPathComponentUnique(link: string, id: string)
    requires '/' !in id
    requires |id| <= |link| && link[|link| - |id|..] == id
    requires |id| == |link| || link[|link| - |id| - 1] == '/'
    ensures id == LastPathComponent(link)
  {
    LastPathComponentSpec(link);
  }

  const TraceUrlPrefix := "https://www.openstreetmap.org/trace/"

  function DataUrl(id: string): string
  {
    TraceUrlPrefix + id + "/data"
  }

  /** The record built for one feed item. */
  function RecordOf(item: FeedItem): TraceRecord
  {
    var traceId := LastPathComponent(item.link);
    TraceRecord(traceId, item.title, DataUrl(traceId))
  }

  /**
   * `fetch_rss` from the parsed feed items on: one record per item, in
   * feed order, identified by the last component of the item's link.
   */
  method FetchRss(items: seq<FeedItem>) returns (traces: seq<TraceRecord>)
    ensures |traces| == |items|
    ensures forall i :: 0 <= i < |items| ==>
              traces[i].id == LastPathComponent(items[i].link) &&
              traces[i].title == items[i].title &&
              traces[i].dataURL == TraceUrlPrefix + traces[i].id + "/data"
  {
    traces := [];
    var i := 0;
    while i < |items|
      invariant 0 <= i <= |items|
      invariant |traces| == i
      invariant forall j :: 0 <= j < i ==> traces[j] == RecordOf(items[j])
    {
      var link := items[i].link;
      var traceId := LastPathComponent(link);
      var record := TraceRecord(traceId, items[i].title, DataUrl(traceId));
      assert record == RecordOf(items[i]);
      traces := traces + [record];
      i := i + 1;
    }
  }

  // ---------------------------------------------------------------------
  // fetch_trace
  // ---------------------------------------------------------------------

  /** A response: its status, its headers (names in lower case) and its body. */
  datatype Response = Response(ok: bool, headers: map<string, string>, content: seq<byte>)

  /** The outcome of a GET: a response, or an exception from the HTTP library. */
  datatype HttpResult = Received(response: Response) | RequestRaised

  /** UTF-8 decoding, gzip and bzip2 decompression; `None` where the library raises. */
  datatype Codecs = Codecs(
    decodeUtf8: seq<byte> -> Option<string>,
    gunzip: seq<byte> -> Option<seq<byte>>,
    bunzip2: seq<byte> -> Option<seq<byte>>)

  /** The content types `fetch_trace` understands, and everything else. */
  datatype Encoding = PlainGpx | Gzip | Bzip2 | Unsupported

  function EncodingOf(contentType: string): (e: Encoding)
    ensures e == PlainGpx <==> contentType == "application/gpx+xml"
    ensures e == Gzip <==> contentType == "application/x-gzip"
    ensures e == Bzip2 <==> contentType == "application/x-bzip2"
  {
    if contentType == "application/gpx+xml" then PlainGpx
    else if contentType == "application/x-gzip" then Gzip
    else if contentType == "application/x-bzip2" then Bzip2
    else Unsupported
  }

  /** `headers.get('content-type', '')`. */
  function ContentType(response: Response): string
  {
    if "content-type" in response.headers then response.headers["content-type"] else ""
  }

  /** What `fetch_trace` gives back: text, `None`, or an exception that escapes it. */
  datatype Fetched = Text(text: string) | NoData | Raised

  function AsText(decoded: Option<string>): Fetched
  {
    match decoded
    case Some(text) => Text(text)
    case None => Raised
  }

  /**
   * `fetch_trace`: no data for a failed status or an unknown content type;
   * otherwise the body, decompressed as its content type says and decoded
   * as UTF-8. An exception from the request or a decoder escapes.
   */
  function FetchTrace(url: string, http: string -> HttpResult, codecs: Codecs): (r: Fetched)
    ensures http(url).RequestRaised? ==> r == Raised
    ensures http(url).Received? && !http(url).response.ok ==> r == NoData
    ensures (http(url).Received? && http(url).response.ok &&
             EncodingOf(ContentType(http(url).response)) == Unsupported) ==> r == NoData
    ensures r.Text? ==>
              http(url).Received? && http(url).response.ok &&
              match EncodingOf(ContentType(http(url).response))
              case PlainGpx => codecs.decodeUtf8(http(url).response.content) == Some(r.text)
              case Gzip =>
                codecs.gunzip(http(url).response.content).Some? &&
                codecs.decodeUtf8(codecs.gunzip(http(url).response.content).value) == Some(r.text)
              case Bzip2 =>
                codecs.bunzip2(http(url).response.content).Some? &&
                codecs.decodeUtf8(codecs.bunzip2(http(url).response.content).value) == Some(r.text)
              case Unsupported => false
    ensures http(url).Received? && http(url).response.ok ==>
              var content := http(url).response.content;
              match EncodingOf(ContentType(http(url).response))
              case PlainGpx => r == AsText(codecs.decodeUtf8(content))
              case Gzip =>
                r == (if codecs.gunzip(content).Some? then AsText(codecs.decodeUtf8(codecs.gunzip(content).value)) else Raised)
              case Bzip2 =>
                r == (if codecs.bunzip2(content).Some? then AsText(codecs.decodeUtf8(codecs.bunzip2(content).value)) else Raised)
              case Unsupported => r == NoData
  {
    match http(url)
    case RequestRaised => Raised
    case Received(response) =>
      if !response.ok then NoData
      else
        match EncodingOf(ContentType(response))
        case PlainGpx => AsText(codecs.decodeUtf8(response.content))
        case Gzip =>
          (match codecs.gunzip(response.content)
           case Some(raw) => AsText(codecs.decodeUtf8(raw))
           case None => Raised)
        case Bzip2 =>
          (match codecs.bunzip2(response.content)
           case Some(raw) => AsText(codecs.decodeUtf8(raw))
           case None => Raised)
        case Unsupported => NoData
  }

  // ---------------------------------------------------------------------
  // download_gpx
  // ---------------------------------------------------------------------

  /** `os.path.join(dir, name)`. */
  function Join(dir: string, name: string): string
  {
    if |name| > 0 && name[0] == '/' then name
    else if dir == "" || dir[|dir| - 1] == '/' then dir + name
    else dir + "/" + name
  }

  /** Where the trace titled `title` is looked for. */
  function GpxPath(outdir: string, title: string): string
  {
    Join(outdir, title + ".gpx")
  }

  /**
   * How `download_gpx` ends: the file was already there (nothing fetched),
   * the fetch gave no data, the text was saved, or an exception was caught.
   */
  datatype Download = AlreadyPresent | Empty | Saved(name: string, text: string) | Failed

  /** The value `download_gpx` returns. */
  function Returned(d: Download): nat
  {
    if d.Saved? || d.Failed? then 1 else 0
  }

  /**
   * `download_gpx`: 0 without fetching when the file exists, 0 when the
   * fetch yields nothing (or empty text), and 1 otherwise, including when
   * an exception was caught and logged.
   */
  function DownloadGpx(item: TraceRecord, title: string, outdir: string, present: set<string>,
                       http: string -> HttpResult, codecs: Codecs): (d: Download)
    ensures d.AlreadyPresent? <==> GpxPath(outdir, title) in present
    ensures Returned(d) <= 1
    ensures Returned(d) == 0 <==>
              GpxPath(outdir, title) in present ||
              FetchTrace(item.dataURL, http, codecs) in {NoData, Text("")}
    ensures d.Saved? ==>
              d.name == title + ".gpx" && d.text != "" &&
              FetchTrace(item.dataURL, http, codecs) == Text(d.text)
    ensures d.Failed? ==> FetchTrace(item.dataURL, http, codecs) == Raised
  {
    if GpxPath(outdir, title) in present then AlreadyPresent
    else
      match FetchTrace(item.dataURL, http, codecs)
      case Raised => Failed
      case NoData => Empty
      case Text(xml) => if xml == "" then Empty else Saved(title + ".gpx", xml)
  }

  // ---------------------------------------------------------------------
  // main
  // ---------------------------------------------------------------------

  const MaxDownloads := 10

  /** The state of the run after some items: success total, files on disk, URLs fetched. */
  datatype Run = Run(success: nat, present: set<string>, fetched: seq<string>)

  /** One iteration of the loop in `main`; the item's id is its title. */
  function Step(run: Run, item: TraceRecord, outdir: string, http: string -> HttpResult, codecs: Codecs): Run
  {
    var d := DownloadGpx(item, item.id, outdir, run.present, http, codecs);
    Run(run.success + Returned(d),
        if d.Saved? then run.present + {Join(outdir, d.name)} else run.present,
        if d.AlreadyPresent? then run.fetched else run.fetched + [item.dataURL])
  }

  function RunOver(items: seq<TraceRecord>, outdir: string, present: set<string>,
                   http: string -> HttpResult, codecs: Codecs): Run
  {
    if items == [] then Run(0, present, [])
    else Step(RunOver(items[..|items| - 1], outdir, present, http, codecs), items[|items| - 1], outdir, http, codecs)
  }

  /**
   * The loop of `main` over the parsed items: only the first
   * `min(10, len(items))` are downloaded, in order; `success` sums what
   * `download_gpx` returned and `fetched` lists the URLs requested.
   */
  method DownloadRecent(items: seq<TraceRecord>, outdir: string, present: set<string>,
                        http: string -> HttpResult, codecs: Codecs)
    returns (success: nat, fetched: seq<string>)
    ensures var run := RunOver(items[..if |items| < MaxDownloads then |items| else MaxDownloads], outdir, present, http, codecs);
            success == run.success && fetched == run.fetched
    ensures success <= |fetched| <= MaxDownloads
  {
    var n := if MaxDownloads < |items| then MaxDownloads else |items|;
    success, fetched := 0, [];
    var onDisk := present;
    var i := 0;
    while i < n
      invariant 0 <= i <= n
      invariant Run(success, onDisk, fetched) == RunOver(items[..i], outdir, present, http, codecs)
    {
      var item := items[i];
      assert items[..i + 1][..i] == items[..i];
      assert RunOver(items[..i + 1], outdir, present, http, codecs)
          == Step(RunOver(items[..i], outdir, present, http, codecs), item, outdir, http, codecs);
      ghost var before := Run(success, onDisk, fetched);
      var d := DownloadGpx(item, item.id, outdir, onDisk, http, codecs);
      success := success + Returned(d);
      if d.Saved? {
        onDisk := onDisk + {Join(outdir, d.name)};
      }
      if !d.AlreadyPresent? {
        fetched := fetched + [item.dataURL];
      }
      assert Run(success, onDisk, fetched) == Step(before, item, outdir, http, codecs);
      i := i + 1;
    }
    RunBounds(items[..n], outdir, present, http, codecs);
  }

  /** Only downloads that were attempted can count as successes, and each item is fetched at most once. */
  lemma {:induction false} RunBounds(items: seq<TraceRecord>, outdir: string, present: set<string>,
                                     http: string -> HttpResult, codecs: Codecs)
    ensures RunOver(items, outdir, present, http, codecs).success <= |RunOver(items, outdir, present, http, codecs).fetched| <= |items|
  {
    if items != [] {
      RunBounds(items[..|items| - 1], outdir, present, http, codecs);
    }
  }

  /** The URLs of the items whose file is not on disk at the start, in order. */
  function MissingUrls(items: seq<TraceRecord>, outdir: string, present: set<string>): seq<string>
  {
    if items == [] then []
    else
      var last := items[|items| - 1];
      MissingUrls(items[..|items| - 1], outdir, present)
        + (if GpxPath(outdir, last.id) in present then [] else [last.dataURL])
  }

  /** How many items' files are on disk at the start. */
  function PresentCount(items: seq<TraceRecord>, outdir: string, present: set<string>): nat
  {
    if items == [] then 0
    else
      PresentCount(items[..|items| - 1], outdir, present)
        + (if GpxPath(outdir, items[|items| - 1].id) in present then 1 else 0)
  }

  /** Items with pairwise different target paths. */
  predicate DistinctPaths(items: seq<TraceRecord>, outdir: string)
  {
    forall i, j :: 0 <= i < j < |items| ==> GpxPath(outdir, items[i].id) != GpxPath(outdir, items[j].id)
  }

  /** Files on disk at the start are still there after the run. */
  lemma {:induction false} RunKeepsPresent(items: seq<TraceRecord>, outdir: string, present: set<string>,
                                           http: string -> HttpResult, codecs: Codecs)
    ensures present <= RunOver(items, outdir, present, http, codecs).present
  {
    if items != [] {
      RunKeepsPresent(items[..|items| - 1], outdir, present, http, codecs);
    }
  }

  /** Files saved during the run are the files of items already processed. */
  lemma {:induction false} RunPresent(items: seq<TraceRecord>, outdir: string, present: set<string>,
                                      http: string -> HttpResult, codecs: Codecs, path: string)
    requires path in RunOver(items, outdir, present, http, codecs).present
    ensures path in present || exists i :: 0 <= i < |items| && path == GpxPath(outdir, items[i].id)
  {
    if items != [] {
      var init := items[..|items| - 1];
      if path in RunOver(init, outdir, present, http, codecs).present {
        RunPresent(init, outdir, present, http, codecs, path);
        if path !in present {
          var i :| 0 <= i < |init| && path == GpxPath(outdir, init[i].id);
          assert items[i] == init[i];
        }
      }
    }
  }

  /**
   * When no two items share a target path, the run fetches exactly the
   * items whose file was not on disk at the start, in order, and their
   * number is the number of items less those already present.
   */
  lemma {:induction false} RunFetchesMissing(items: seq<TraceRecord>, outdir: string, present: set<string>,
                                             http: string -> HttpResult, codecs: Codecs)
    requires DistinctPaths(items, outdir)
    ensures RunOver(items, outdir, present, http, codecs).fetched == MissingUrls(items, outdir, present)
    ensures |MissingUrls(items, outdir, present)| + PresentCount(items, outdir, present) == |items|
  {
    if items != [] {
      var init := items[..|items| - 1];
      var last := items[|items| - 1];
      var path := GpxPath(outdir, last.id);
      RunFetchesMissing(init, outdir, present, http, codecs);
      var before := RunOver(init, outdir, present, http, codecs);
      RunKeepsPresent(init, outdir, present, http, codecs);
      if path in before.present && path !in present {
        RunPresent(init, outdir, present, http, codecs, path);
      }
    }
  }

  /**
   * A feed of twelve items with different ids, two of the first ten already
   * on disk: exactly eight downloads are attempted and the success count
   * is at most eight.
   */
  lemma TwelveItemsTwoPresent(items: seq<TraceRecord>, outdir: string, present: set<string>,
                              http: string -> HttpResult, codecs: Codecs)
    requires |items| == 12
    requires DistinctPaths(items, outdir)
    requires PresentCount(items[..10], outdir, present) == 2
    ensures var run := RunOver(items[..10], outdir, present, http, codecs);
            |run.fetched| == 8 && run.success <= 8
  {
    RunFetchesMissing(items[..10], outdir, present, http, codecs);
    RunBounds(items[..10], outdir, present, http, codecs);
  }
}

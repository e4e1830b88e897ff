/**
 * The OpenStreetMap tag scanner and feature filter: the tag catalogue built
 * by `TagCounter`, the category report written from it, the inclusion
 * predicate `_should_include` and the `FeatureFilter` handler that copies
 * the objects it accepts to its writer.
 */
module FilterOsm {
  import opened StringOrder

  /** A key/value annotation of an OSM object. */
  datatype Tag = Tag(k: string, v: string)

  /** The three kinds of OSM object the reader hands to a handler. */
  datatype Element =
    | Node(id: int, tags: seq<Tag>)
    | Way(id: int, tags: seq<Tag>)
    | Relation(id: int, tags: seq<Tag>)

  /**
   * One entry of `filter_tags`: a key prefix and the values allowed for it
   * (an empty list allows any value).
   */
  datatype FilterEntry = FilterEntry(prefix: string, allowed: seq<string>)

  /** `filter_tags`, in the dictionary's iteration order. */
  type FilterConfig = seq<FilterEntry>

  /** Python's `s.startswith(prefix)`. */
  predicate StartsWith(s: string, prefix: string)
  {
    |prefix| <= |s| && s[..|prefix|] == prefix
  }

  // ---------------------------------------------------------------------
  // The inclusion predicate
  // ---------------------------------------------------------------------

  /** The inner loop over the filter keys for one tag: true on the first key that accepts it. */
  predicate TagMatches(t: Tag, keys: FilterConfig)
  {
    if keys == [] then false
    else if StartsWith(t.k, keys[0].prefix) then
      if keys[0].allowed != [] then
        if t.v in keys[0].allowed then true else TagMatches(t, keys[1..])
      else true
    else TagMatches(t, keys[1..])
  }

  /** The outer loop over the object's tags: true on the first tag the inner loop accepts. */
  predicate AnyTagMatches(tags: seq<Tag>, keys: FilterConfig)
  {
    if tags == [] then false
    else if TagMatches(tags[0], keys) then true
    else AnyTagMatches(tags[1..], keys)
  }

  /** `FeatureFilter._should_include`: an empty configuration lets everything through. */
  predicate ShouldInclude(tags: seq<Tag>, filterTags: FilterConfig)
  {
    if filterTags == [] then true
    else AnyTagMatches(tags, filterTags)
  }

  /** The declarative reading of one filter entry accepting one tag. */
  predicate Admits(e: FilterEntry, t: Tag)
  {
    StartsWith(t.k, e.prefix) && (e.allowed == [] || t.v in e.allowed)
  }

  lemma {:induction false} TagMatchesIff(t: Tag, keys: FilterConfig)
    ensures TagMatches(t, keys) <==> exists j :: 0 <= j < |keys| && Admits(keys[j], t)
  {
    if keys != [] {
      TagMatchesIff(t, keys[1..]);
      if exists j :: 0 <= j < |keys| && Admits(keys[j], t) {
        var j :| 0 <= j < |keys| && Admits(keys[j], t);
        if j > 0 {
          assert Admits(keys[1..][j - 1], t);
        }
      }
      if exists j :: 0 <= j < |keys[1..]| && Admits(keys[1..][j], t) {
        var j :| 0 <= j < |keys[1..]| && Admits(keys[1..][j], t);
        assert Admits(keys[j + 1], t);
      }
    }
  }

  lemma {:induction false} AnyTagMatchesIff(tags: seq<Tag>, keys: FilterConfig)
    ensures AnyTagMatches(tags, keys) <==>
            exists i, j :: 0 <= i < |tags| && 0 <= j < |keys| && Admits(keys[j], tags[i])
  {
    if tags != [] {
      TagMatchesIff(tags[0], keys);
      AnyTagMatchesIff(tags[1..], keys);
      if exists i, j :: 0 <= i < |tags| && 0 <= j < |keys| && Admits(keys[j], tags[i]) {
        var i, j :| 0 <= i < |tags| && 0 <= j < |keys| && Admits(keys[j], tags[i]);
        if i > 0 {
          assert Admits(keys[j], tags[1..][i - 1]);
        }
      }
      if exists i, j :: 0 <= i < |tags[1..]| && 0 <= j < |keys| && Admits(keys[j], tags[1..][i]) {
        var i, j :| 0 <= i < |tags[1..]| && 0 <= j < |keys| && Admits(keys[j], tags[1..][i]);
        assert Admits(keys[j], tags[i + 1]);
      }
    }
  }

  /**
   * The object is included iff the configuration is empty, or some tag of
   * the object and some configured prefix agree: the key starts with the
   * prefix and the prefix allows any value or lists the tag's value.
   */
  lemma ShouldIncludeIff(tags: seq<Tag>, filterTags: FilterConfig)
    ensures ShouldInclude(tags, filterTags) <==>
            filterTags == [] ||
            exists i, j :: 0 <= i < |tags| && 0 <= j < |filterTags| && Admits(filterTags[j], tags[i])
  {
    AnyTagMatchesIff(tags, filterTags);
  }

  /** With a non-empty configuration, an object without tags is excluded. */
  lemma UntaggedExcluded(tags: seq<Tag>, filterTags: FilterConfig)
    requires filterTags != []
    ensures tags == [] ==> !ShouldInclude(tags, filterTags)
  {
  }

  /**
   * A tag that no entry accepts (in particular one whose key matches a
   * prefix with a non-empty list that does not hold its value) does not
   * change the decision.
   */
  lemma UnadmittedTagIrrelevant(tags: seq<Tag>, t: Tag, filterTags: FilterConfig)
    requires forall j :: 0 <= j < |filterTags| ==> !Admits(filterTags[j], t)
    ensures ShouldInclude(tags + [t], filterTags) == ShouldInclude(tags, filterTags)
  {
    ShouldIncludeIff(tags + [t], filterTags);
    ShouldIncludeIff(tags, filterTags);
    var both := tags + [t];
    if exists i, j :: 0 <= i < |both| && 0 <= j < |filterTags| && Admits(filterTags[j], both[i]) {
      var i, j :| 0 <= i < |both| && 0 <= j < |filterTags| && Admits(filterTags[j], both[i]);
      assert i < |tags| && Admits(filterTags[j], tags[i]);
    }
    if exists i, j :: 0 <= i < |tags| && 0 <= j < |filterTags| && Admits(filterTags[j], tags[i]) {
      var i, j :| 0 <= i < |tags| && 0 <= j < |filterTags| && Admits(filterTags[j], tags[i]);
      assert Admits(filterTags[j], both[i]);
    }
  }

  /**
   * A single prefix with a non-empty list of values: an object whose keys
   * all carry that prefix is included iff one of its values is listed.
   */
  lemma ListedValueDecides(tags: seq<Tag>, e: FilterEntry)
    requires e.allowed != []
    requires forall i :: 0 <= i < |tags| ==> StartsWith(tags[i].k, e.prefix)
    ensures ShouldInclude(tags, [e]) <==> exists i :: 0 <= i < |tags| && tags[i].v in e.allowed
  {
    ShouldIncludeIff(tags, [e]);
    if exists i :: 0 <= i < |tags| && tags[i].v in e.allowed {
      var i :| 0 <= i < |tags| && tags[i].v in e.allowed;
      assert Admits([e][0], tags[i]);
    }
  }

  /** Some tag of the object is admitted by some configured entry. */
  ghost predicate SomePairAdmitted(tags: seq<Tag>, filterTags: FilterConfig)
  {
    exists i, j :: 0 <= i < |tags| && 0 <= j < |filterTags| && Admits(filterTags[j], tags[i])
  }

  lemma SomePairAdmittedPermuted(tags: seq<Tag>, tags': seq<Tag>, filterTags: FilterConfig, filterTags': FilterConfig)
    requires multiset(tags) == multiset(tags')
    requires multiset(filterTags) == multiset(filterTags')
    requires SomePairAdmitted(tags, filterTags)
    ensures SomePairAdmitted(tags', filterTags')
  {
    var i, j :| 0 <= i < |tags| && 0 <= j < |filterTags| && Admits(filterTags[j], tags[i]);
    assert tags[i] in multiset(tags');
    assert filterTags[j] in multiset(filterTags');
    var i' :| 0 <= i' < |tags'| && tags'[i'] == tags[i];
    var j' :| 0 <= j' < |filterTags'| && filterTags'[j'] == filterTags[j];
    assert Admits(filterTags'[j'], tags'[i']);
  }

  /** The decision depends neither on the order of the tags nor on the order of the configured keys. */
  lemma ShouldIncludeOrderIndependent(tags: seq<Tag>, tags': seq<Tag>, filterTags: FilterConfig, filterTags': FilterConfig)
    requires multiset(tags) == multiset(tags')
    requires multiset(filterTags) == multiset(filterTags')
    ensures ShouldInclude(tags, filterTags) == ShouldInclude(tags', filterTags')
  {
    ShouldIncludeIff(tags, filterTags);
    ShouldIncludeIff(tags', filterTags');
    assert |filterTags| == |multiset(filterTags)| == |multiset(filterTags')| == |filterTags'|;
    if SomePairAdmitted(tags, filterTags) {
      SomePairAdmittedPermuted(tags, tags', filterTags, filterTags');
    }
    if SomePairAdmitted(tags', filterTags') {
      SomePairAdmittedPermuted(tags', tags, filterTags', filterTags);
    }
  }

  // ---------------------------------------------------------------------
  // FeatureFilter: which objects reach the writer
  // ---------------------------------------------------------------------

  /**
   * Whether the handler writes an element: a node when it passes the
   * predicate or is needed by a way, a way when it passes the predicate,
   * a relation never (the handler has no relation callback).
   */
  predicate Kept(e: Element, filterTags: FilterConfig, neededNodes: set<int>)
  {
    match e
    case Node(id, tags) => ShouldInclude(tags, filterTags) || id in neededNodes
    case Way(_, tags) => ShouldInclude(tags, filterTags)
    case Relation(_, _) => false
  }

  /** What the filter writes for a stream of elements, in stream order. */
  function Filtered(stream: seq<Element>, filterTags: FilterConfig, neededNodes: set<int>): seq<Element>
  {
    if stream == [] then []
    else
      var last := stream[|stream| - 1];
      Filtered(stream[..|stream| - 1], filterTags, neededNodes)
        + (if Kept(last, filterTags, neededNodes) then [last] else [])
  }

  /** Filtering a concatenation filters each part, keeping the stream's order. */
  lemma {:induction false} FilteredAppend(a: seq<Element>, b: seq<Element>, filterTags: FilterConfig, neededNodes: set<int>)
    ensures Filtered(a + b, filterTags, neededNodes) ==
            Filtered(a, filterTags, neededNodes) + Filtered(b, filterTags, neededNodes)
    decreases |b|
  {
    if b != [] {
      var b' := b[..|b| - 1];
      assert (a + b)[..|a + b| - 1] == a + b';
      FilteredAppend(a, b', filterTags, neededNodes);
    } else {
      assert a + b == a;
    }
  }

  /** An element is written iff it is in the stream and kept: nothing else is written. */
  lemma {:induction false} FilteredMembership(stream: seq<Element>, filterTags: FilterConfig, neededNodes: set<int>, e: Element)
    ensures e in Filtered(stream, filterTags, neededNodes) <==> e in stream && Kept(e, filterTags, neededNodes)
  {
    if stream != [] {
      var init := stream[..|stream| - 1];
      FilteredMembership(init, filterTags, neededNodes, e);
      assert stream == init + [stream[|stream| - 1]];
    }
  }

  /** The handler `FeatureFilter`; `written` is what has been handed to its writer. */
  class FeatureFilter {
    const filterTags: FilterConfig
    const neededNodes: set<int>
    var written: seq<Element>

    constructor (filterTags: FilterConfig, neededNodes: set<int>)
      ensures this.filterTags == filterTags && this.neededNodes == neededNodes
      ensures written == []
    {
      this.filterTags := filterTags;
      this.neededNodes := neededNodes;
      written := [];
    }

    /** The second `node` callback, the one Python keeps. */
    method Node(n: Element)
      requires n.Node?
      modifies this`written
      ensures ShouldInclude(n.tags, filterTags) || n.id in neededNodes ==> written == old(written) + [n]
      ensures !ShouldInclude(n.tags, filterTags) && n.id !in neededNodes ==> written == old(written)
    {
      if ShouldInclude(n.tags, filterTags) || n.id in neededNodes {
        written := written + [n];
      }
    }

    method Way(w: Element)
      requires w.Way?
      modifies this`written
      ensures ShouldInclude(w.tags, filterTags) ==> written == old(written) + [w]
      ensures !ShouldInclude(w.tags, filterTags) ==> written == old(written)
    {
      if ShouldInclude(w.tags, filterTags) {
        written := written + [w];
      }
    }

    /** `apply_file`: each element goes to its callback; relations have none. */
    method ApplyFile(stream: seq<Element>)
      modifies this`written
      ensures written == old(written) + Filtered(stream, filterTags, neededNodes)
    {
      var i := 0;
      while i < |stream|
        invariant 0 <= i <= |stream|
        invariant written == old(written) + Filtered(stream[..i], filterTags, neededNodes)
      {
        var e := stream[i];
        assert stream[..i + 1][..i] == stream[..i];
        match e {
          case Node(_, _) => Node(e);
          case Way(_, _) => Way(e);
          case Relation(_, _) =>
        }
        i := i + 1;
      }
      assert stream[..i] == stream;
    }
  }

  // ---------------------------------------------------------------------
  // TagCounter: the catalogue of keys and the values seen with them
  // ---------------------------------------------------------------------

  /** `self.tags[tag.k].add(tag.v)` on a `defaultdict(set)`. */
  function Add(m: map<string, set<string>>, t: Tag): map<string, set<string>>
  {
    m[t.k := (if t.k in m then m[t.k] else {}) + {t.v}]
  }

  /** The catalogue after one callback's loop over an object's tags. */
  function Observe(m: map<string, set<string>>, tags: seq<Tag>): map<string, set<string>>
  {
    if tags == [] then m
    else Add(Observe(m, tags[..|tags| - 1]), tags[|tags| - 1])
  }

  /** The catalogue after a whole stream of elements. */
  function Catalogue(m: map<string, set<string>>, stream: seq<Element>): map<string, set<string>>
  {
    if stream == [] then m
    else Observe(Catalogue(m, stream[..|stream| - 1]), stream[|stream| - 1].tags)
  }

  /**
   * After a loop over `tags`, a key is present iff it was present before or
   * some tag has it, and a value is recorded under a key iff it was before
   * or some tag pairs them.
   */
  lemma {:induction false} ObserveContents(m: map<string, set<string>>, tags: seq<Tag>, k: string, v: string)
    ensures k in Observe(m, tags) <==> k in m || exists t :: t in tags && t.k == k
    ensures (k in Observe(m, tags) && v in Observe(m, tags)[k]) <==> (k in m && v in m[k]) || Tag(k, v) in tags
  {
    if tags != [] {
      var init := tags[..|tags| - 1];
      ObserveContents(m, init, k, v);
      assert tags == init + [tags[|tags| - 1]];
    }
  }

  /** Processing the same tags a second time leaves the catalogue unchanged. */
  lemma ObserveIdempotent(m: map<string, set<string>>, tags: seq<Tag>)
    ensures Observe(Observe(m, tags), tags) == Observe(m, tags)
  {
    var once := Observe(m, tags);
    var twice := Observe(once, tags);
    forall k | true
      ensures k in twice <==> k in once
    {
      ObserveContents(once, tags, k, "");
      ObserveContents(m, tags, k, "");
    }
    forall k | k in once
      ensures twice[k] == once[k]
    {
      forall v | true
        ensures v in twice[k] <==> v in once[k]
      {
        ObserveContents(once, tags, k, v);
        ObserveContents(m, tags, k, v);
      }
    }
  }

  /**
   * Starting from an empty catalogue, a key is present iff some element of
   * the stream has a tag with that key, and its values are exactly the
   * values seen with it.
   */
  lemma {:induction false} CatalogueExact(stream: seq<Element>, k: string, v: string)
    ensures k in Catalogue(map[], stream) <==> exists e, t :: e in stream && t in e.tags && t.k == k
    ensures (k in Catalogue(map[], stream) && v in Catalogue(map[], stream)[k]) <==>
            exists e :: e in stream && Tag(k, v) in e.tags
  {
    if stream != [] {
      var init := stream[..|stream| - 1];
      var last := stream[|stream| - 1];
      CatalogueExact(init, k, v);
      ObserveContents(Catalogue(map[], init), last.tags, k, v);
      assert stream == init + [last];
    }
  }

  /** The handler `TagCounter`; `tags` is its `defaultdict(set)`. */
  class TagCounter {
    var tags: map<string, set<string>>

    constructor ()
      ensures tags == map[]
    {
      tags := map[];
    }

    /** The loop the three callbacks share. */
    method Record(ts: seq<Tag>)
      modifies this
      ensures tags == Observe(old(tags), ts)
    {
      var i := 0;
      while i < |ts|
        invariant 0 <= i <= |ts|
        invariant tags == Observe(old(tags), ts[..i])
      {
        assert ts[..i + 1][..i] == ts[..i];
        var t := ts[i];
        tags := tags[t.k := (if t.k in tags then tags[t.k] else {}) + {t.v}];
        i := i + 1;
      }
      assert ts[..i] == ts;
    }

    method Node(n: Element)
      requires n.Node?
      modifies this
      ensures tags == Observe(old(tags), n.tags)
    {
      Record(n.tags);
    }

    method Way(w: Element)
      requires w.Way?
      modifies this
      ensures tags == Observe(old(tags), w.tags)
    {
      Record(w.tags);
    }

    method Relation(r: Element)
      requires r.Relation?
      modifies this
      ensures tags == Observe(old(tags), r.tags)
    {
      Record(r.tags);
    }

    /** `apply_file`: every element goes to the callback for its kind. */
    method ApplyFile(stream: seq<Element>)
      modifies this
      ensures tags == Catalogue(old(tags), stream)
    {
      var i := 0;
      while i < |stream|
        invariant 0 <= i <= |stream|
        invariant tags == Catalogue(old(tags), stream[..i])
      {
        assert stream[..i + 1][..i] == stream[..i];
        var e := stream[i];
        match e {
          case Node(_, _) => Node(e);
          case Way(_, _) => Way(e);
          case Relation(_, _) => Relation(e);
        }
        i := i + 1;
      }
      assert stream[..i] == stream;
    }
  }

  // ---------------------------------------------------------------------
  // The category report
  // ---------------------------------------------------------------------

  /** One key of the report with the values listed under it. */
  datatype Category = Category(key: string, values: seq<string>)

  /** The entry of the report for key `k`: its values ascending, each once. */
  ghost function CategoryOf(tags: map<string, set<string>>, k: string): (c: Category)
    requires k in tags
    ensures c.key == k && StrictlyAscending(c.values) && |c.values| == |tags[k]|
    ensures forall v :: v in c.values <==> v in tags[k]
  {
    Category(k, Sorted(tags[k]))
  }

  /** The report `main` writes: one entry per key, keys in `sorted` order. */
  ghost function Report(tags: map<string, set<string>>): seq<Category>
  {
    var keys := Sorted(tags.Keys);
    seq(|keys|, i requires 0 <= i < |keys| => CategoryOf(tags, keys[i]))
  }

  /**
   * The report lists every key of the catalogue exactly once, in ascending
   * order, and under each key its values in ascending order, each once.
   */
  lemma ReportListsCatalogue(tags: map<string, set<string>>)
    ensures |Report(tags)| == |tags|
    ensures forall i, j :: 0 <= i < j < |Report(tags)| ==> Less(Report(tags)[i].key, Report(tags)[j].key)
    ensures forall k :: k in tags <==> exists i :: 0 <= i < |Report(tags)| && Report(tags)[i].key == k
    ensures forall i :: 0 <= i < |Report(tags)| ==>
              Report(tags)[i].key in tags && Report(tags)[i] == CategoryOf(tags, Report(tags)[i].key)
  {
    var keys := Sorted(tags.Keys);
    var r := Report(tags);
    assert |tags.Keys| == |tags|;
    forall i | 0 <= i < |r|
      ensures r[i].key == keys[i] && keys[i] in tags && r[i] == CategoryOf(tags, keys[i])
    {
      assert keys[i] in keys;
    }
    assert forall i, j :: 0 <= i < j < |r| ==> Less(r[i].key, r[j].key) by {
      assert StrictlyAscending(keys);
    }
    forall k | k in tags
      ensures exists i :: 0 <= i < |r| && r[i].key == k
    {
      var i :| 0 <= i < |keys| && keys[i] == k;
      assert r[i].key == k;
    }
  }
}

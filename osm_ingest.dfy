/** Raw-element (Overpass JSON) ingestion: pass 1 indexes the nodes, pass 2 resolves and
    classifies the ways into buckets, and a final pass over the node index extracts the
    stations. Both element passes walk the list in chunks of 5000. */
module OsmIngest {
  import opened Tags
  import opened Taxonomy
  import opened Classifier
  import opened GraphResolver
  import opened Stations

  /** An element of the `elements` array; relations and other kinds are ignored. A missing
      `nodes` list reads as empty, missing `tags` as the empty bag. */
  datatype Element =
    | Node(id: int, lat: real, lon: real, tags: StringTags)
    | Way(id: int, nodes: seq<int>, tags: StringTags)
    | OtherElement(kind: string)

  /** A LineString feature built from a way. */
  datatype LineFeature = LineFeature(
    railway: string, context: Context, name: string, ref: string, operator: string,
    coordinates: seq<Coord>)

  const ChunkSize: nat := 5000

  function Min(a: int, b: int): int {
    if a <= b then a else b
  }

  /** The indices 0, 1, ..., n - 1, in order. */
  function Indices(n: nat): (r: seq<nat>)
    ensures |r| == n && forall k :: 0 <= k < n ==> r[k] == k
  {
    seq(n, k => k)
  }

  // ----- pass 1: the node index -----

  /** One step of pass 1: a node is recorded, anything else is skipped. */
  function Record(nodes: NodeIndex, el: Element): NodeIndex {
    if el.Node? then nodes.Set(el.id, NodeRec(el.lat, el.lon, el.tags)) else nodes
  }

  /** The node index after pass 1 has seen `els`. */
  function IndexOf(els: seq<Element>): NodeIndex {
    if els == [] then EmptyIndex else Record(IndexOf(els[..|els| - 1]), els[|els| - 1])
  }

  /** Pass 1, chunk by chunk; `visited` lists the element indices in the order they were read. */
  method BuildNodeIndex(els: seq<Element>) returns (nodes: NodeIndex, ghost visited: seq<nat>)
    ensures nodes == IndexOf(els)
    ensures visited == Indices(|els|)
  {
    nodes := EmptyIndex;
    visited := [];
    var i := 0;
    while i < |els|
      invariant 0 <= i
      invariant nodes == IndexOf(els[..Min(i, |els|)])
      invariant visited == Indices(Min(i, |els|))
    {
      var end := Min(i + ChunkSize, |els|);
      for j := i to end
        invariant nodes == IndexOf(els[..j])
        invariant visited == Indices(j)
      {
        assert els[..j + 1][..j] == els[..j];
        visited := visited + [j];
        var el := els[j];
        if el.Node? {
          nodes := nodes.Set(el.id, NodeRec(el.lat, el.lon, el.tags));
        }
      }
      i := i + ChunkSize;
    }
    assert els[..|els|] == els;
  }

  // ----- pass 2: ways into buckets -----

  /** The feature pass 2 builds from one element, if any: a way with at least one node
      reference, a railway category, and at least two resolvable coordinates. */
  function WayFeature(nodes: map<int, NodeRec>, el: Element): Option<LineFeature> {
    if !el.Way? || |el.nodes| == 0 then None
    else
      match Classify(Lift(el.tags), Overpass)
      case None => None
      case Some(b) =>
        var coords := Resolve(nodes, el.nodes);
        if |coords| < 2 then None
        else Some(LineFeature(b.category, b.context, Text(el.tags, "name"), Text(el.tags, "ref"),
                              Text(el.tags, "operator"), coords))
  }

  function FeatureKey(f: LineFeature): string {
    KeyName(f.railway, f.context)
  }

  /** One step of pass 2: the element's feature, if any, goes to its bucket if that exists. */
  function PlaceStep(buckets: map<string, seq<LineFeature>>, feature: Option<LineFeature>)
    : map<string, seq<LineFeature>>
  {
    match feature
    case None => buckets
    case Some(f) => Place(buckets, FeatureKey(f), f)
  }

  function AsSeq(feature: Option<LineFeature>): seq<LineFeature> {
    match feature
    case None => []
    case Some(f) => [f]
  }

  /** The buckets after pass 2 has seen `els`, starting from `buckets`. */
  function Placed(buckets: map<string, seq<LineFeature>>, nodes: map<int, NodeRec>, els: seq<Element>)
    : map<string, seq<LineFeature>>
  {
    if els == [] then buckets
    else PlaceStep(Placed(buckets, nodes, els[..|els| - 1]), WayFeature(nodes, els[|els| - 1]))
  }

  /** The body of pass 2 for one element: the category test, the coordinate loop and the
      two-point cut-off, the classification, and the guarded push. */
  method PlaceWay(buckets0: map<string, seq<LineFeature>>, nodes: map<int, NodeRec>, element: Element)
    returns (buckets: map<string, seq<LineFeature>>)
    ensures buckets == PlaceStep(buckets0, WayFeature(nodes, element))
  {
    buckets := buckets0;
    if element.Way? && |element.nodes| > 0 {
      var props := Lift(element.tags);
      var railway := RawCategory(props);
      if railway.None? {
        return;
      }
      var coords := ResolveCoords(nodes, element.nodes);
      if |coords| < 2 {
        return;
      }
      var railType := Normalize(railway.value);
      var context := ContextOf(props, Overpass);
      var finalType := FinalCategory(railType, props);
      var key := KeyName(finalType, context);
      if key in buckets {
        var feature := LineFeature(finalType, context, Text(element.tags, "name"),
                                   Text(element.tags, "ref"), Text(element.tags, "operator"), coords);
        buckets := buckets[key := buckets[key] + [feature]];
      }
    }
  }

  /** Pass 2, chunk by chunk, against the complete node index. */
  method PlaceWays(els: seq<Element>, nodes: map<int, NodeRec>, buckets0: map<string, seq<LineFeature>>)
    returns (buckets: map<string, seq<LineFeature>>, ghost visited: seq<nat>)
    ensures buckets == Placed(buckets0, nodes, els)
    ensures visited == Indices(|els|)
  {
    buckets := buckets0;
    visited := [];
    var i := 0;
    while i < |els|
      invariant 0 <= i
      invariant buckets == Placed(buckets0, nodes, els[..Min(i, |els|)])
      invariant visited == Indices(Min(i, |els|))
    {
      var end := Min(i + ChunkSize, |els|);
      for j := i to end
        invariant buckets == Placed(buckets0, nodes, els[..j])
        invariant visited == Indices(j)
      {
        PlacedSnoc(buckets0, nodes, els, j);
        visited := visited + [j];
        buckets := PlaceWay(buckets, nodes, els[j]);
      }
      i := i + ChunkSize;
    }
    assert els[..|els|] == els;
  }

  /** Pass 2 over one more element is one more step. */
  lemma PlacedSnoc(buckets: map<string, seq<LineFeature>>, nodes: map<int, NodeRec>, els: seq<Element>, j: nat)
    requires j < |els|
    ensures Placed(buckets, nodes, els[..j + 1]) == PlaceStep(Placed(buckets, nodes, els[..j]), WayFeature(nodes, els[j]))
  {
    assert els[..j + 1][..j] == els[..j];
  }

  // ----- the whole ingestion -----

  /** The dataset `processOSMDataV6` returns for an element list. */
  function RawIngest(els: seq<Element>): Dataset<LineFeature, StationFeature> {
    var nodes := IndexOf(els);
    Dataset(Placed(EmptyBuckets(), nodes.byId, els), StationsIn(nodes.order, nodes.byId))
  }

  /** `processOSMDataV6`: allocate the buckets, index every node, then resolve the ways,
      then extract the stations. */
  method ProcessOsmData(els: seq<Element>) returns (data: Dataset<LineFeature, StationFeature>)
    ensures data == RawIngest(els)
  {
    var layerData := NewBuckets<LineFeature>();
    ghost var firstPass, secondPass;
    var nodes;
    nodes, firstPass := BuildNodeIndex(els);
    IndexOfValid(els);
    layerData, secondPass := PlaceWays(els, nodes.byId, layerData);
    var stations := ExtractStations(nodes);
    data := Dataset(layerData, stations);
  }

  // ----- properties -----

  /** Pass 1 yields a well-formed index. */
  lemma {:induction false} IndexOfValid(els: seq<Element>)
    ensures IndexOf(els).Valid()
  {
    if els != [] {
      var front := els[..|els| - 1];
      IndexOfValid(front);
      var el := els[|els| - 1];
      if el.Node? {
        SetKeepsValid(IndexOf(front), el.id, NodeRec(el.lat, el.lon, el.tags));
      }
    }
  }

  /** The node index holds exactly the ids of the node elements anywhere in the list, so a
      way may name nodes that come after it. */
  lemma {:induction false} IndexHasEveryNode(els: seq<Element>, id: int)
    ensures id in IndexOf(els).byId <==> exists q :: 0 <= q < |els| && els[q].Node? && els[q].id == id
  {
    if els != [] {
      var front := els[..|els| - 1];
      IndexHasEveryNode(front, id);
      if exists q :: 0 <= q < |els| && els[q].Node? && els[q].id == id {
        var q :| 0 <= q < |els| && els[q].Node? && els[q].id == id;
        if q < |front| {
          assert front[q] == els[q];
        }
      }
      if exists q :: 0 <= q < |front| && front[q].Node? && front[q].id == id {
        var q :| 0 <= q < |front| && front[q].Node? && front[q].id == id;
        assert els[q] == front[q];
      }
    }
  }

  /** A node id that occurs more than once keeps the record of its last occurrence. */
  lemma {:induction false} LastNodeWins(els: seq<Element>, q: nat)
    requires q < |els| && els[q].Node?
    requires forall r :: q < r < |els| && els[r].Node? ==> els[r].id != els[q].id
    ensures els[q].id in IndexOf(els).byId
    ensures IndexOf(els).byId[els[q].id] == NodeRec(els[q].lat, els[q].lon, els[q].tags)
  {
    var front := els[..|els| - 1];
    if q < |els| - 1 {
      assert front[q] == els[q];
      forall r | q < r < |front| && front[r].Node?
        ensures front[r].id != front[q].id
      {
        assert front[r] == els[r];
      }
      LastNodeWins(front, q);
    }
  }

  /** The emitted features of pass 2, in element order, before the bucket check. */
  function Emitted(nodes: map<int, NodeRec>, els: seq<Element>): seq<LineFeature> {
    if els == [] then []
    else
      Emitted(nodes, els[..|els| - 1]) + AsSeq(WayFeature(nodes, els[|els| - 1]))
  }

  /** The features among `fs` whose key is `k`, in order. */
  function WithKey(fs: seq<LineFeature>, k: string): seq<LineFeature> {
    if fs == [] then []
    else WithKey(fs[..|fs| - 1], k) + if FeatureKey(fs[|fs| - 1]) == k then [fs[|fs| - 1]] else []
  }

  lemma {:induction false} WithKeyMember(fs: seq<LineFeature>, k: string, f: LineFeature)
    ensures f in WithKey(fs, k) <==> f in fs && FeatureKey(f) == k
  {
    if fs != [] {
      WithKeyMember(fs[..|fs| - 1], k, f);
      assert fs == fs[..|fs| - 1] + [fs[|fs| - 1]];
    }
  }

  /** One step keeps the partition: a feature goes to the bucket of its own key, if any. */
  lemma PlaceStepPartition(buckets: map<string, seq<LineFeature>>, before: map<string, seq<LineFeature>>,
                           e: seq<LineFeature>, feature: Option<LineFeature>)
    requires before.Keys == buckets.Keys
    requires forall k :: k in buckets ==> before[k] == buckets[k] + WithKey(e, k)
    ensures PlaceStep(before, feature).Keys == buckets.Keys
    ensures forall k :: k in buckets ==> PlaceStep(before, feature)[k] == buckets[k] + WithKey(e + AsSeq(feature), k)
  {
    if feature.Some? {
      var f := feature.value;
      assert (e + [f])[..|e + [f]| - 1] == e;
    } else {
      assert e + AsSeq(feature) == e;
    }
  }

  /** Pass 2 partitions the emitted features by key: the key set never changes, and each
      existing bucket receives, in order, exactly the emitted features with its key. */
  lemma {:induction false} PlacedPartition(buckets: map<string, seq<LineFeature>>, nodes: map<int, NodeRec>,
                                           els: seq<Element>)
    ensures Placed(buckets, nodes, els).Keys == buckets.Keys
    ensures forall k :: k in buckets ==> Placed(buckets, nodes, els)[k] == buckets[k] + WithKey(Emitted(nodes, els), k)
  {
    if els != [] {
      var front := els[..|els| - 1];
      PlacedPartition(buckets, nodes, front);
      PlaceStepPartition(buckets, Placed(buckets, nodes, front), Emitted(nodes, front), WayFeature(nodes, els[|els| - 1]));
    }
  }

  /** Every emitted feature has a line of at least two points, and a feature is emitted for a
      way exactly when the way has node references, a railway category and two or more
      resolvable nodes. */
  lemma WayFeatureRule(nodes: map<int, NodeRec>, el: Element)
    ensures WayFeature(nodes, el).Some? <==>
              el.Way? && |el.nodes| > 0 && Classify(Lift(el.tags), Overpass).Some? &&
              |Resolve(nodes, el.nodes)| >= 2
    ensures WayFeature(nodes, el).Some? ==>
              && WayFeature(nodes, el).value.coordinates == Resolve(nodes, el.nodes)
              && WayFeature(nodes, el).value.railway == Classify(Lift(el.tags), Overpass).value.category
              && WayFeature(nodes, el).value.context == Classify(Lift(el.tags), Overpass).value.context
  {
  }

  lemma {:induction false} EmittedShape(nodes: map<int, NodeRec>, els: seq<Element>, f: LineFeature)
    requires f in Emitted(nodes, els)
    ensures |f.coordinates| >= 2
  {
    var front := els[..|els| - 1];
    if f !in Emitted(nodes, front) {
      assert WayFeature(nodes, els[|els| - 1]) == Some(f);
    } else {
      EmittedShape(nodes, front, f);
    }
  }

  /** Every stored feature sits in exactly one pre-allocated bucket, the one its own
      category and context name; its category is one of the nine bucket categories (so never
      `rail_yard`), and its line has at least two points. */
  lemma StoredFeatures(els: seq<Element>, k: string, f: LineFeature)
    requires k in RawIngest(els).layerData && f in RawIngest(els).layerData[k]
    ensures k in BucketKeys && FeatureKey(f) == k
    ensures f.railway in BucketCategories && f.railway != "rail_yard"
    ensures |f.coordinates| >= 2
  {
    var nodes := IndexOf(els).byId;
    var emitted := Emitted(nodes, els);
    RawBuckets(els);
    assert k in BucketKeys;
    assert f in WithKey(emitted, k);
    WithKeyMember(emitted, k, f);
    EmittedShape(nodes, els, f);
    KeyInBuckets(f.railway, f.context);
    RailYardHasNoBucket(f.context);
  }

  /** The silent drop: a way classified `rail_yard` (a `rail` yard or siding track) may
      pass every other test and be built, but no bucket is allocated for its key, so it
      appears in no bucket of the dataset. */
  lemma YardWaysDropped(els: seq<Element>, f: LineFeature)
    requires f.railway == "rail_yard"
    ensures forall k :: k in RawIngest(els).layerData ==> f !in RawIngest(els).layerData[k]
  {
    forall k | k in RawIngest(els).layerData
      ensures f !in RawIngest(els).layerData[k]
    {
      if f in RawIngest(els).layerData[k] {
        StoredFeatures(els, k, f);
      }
    }
  }

  /** The dataset always has exactly the pre-allocated buckets, and bucket `k` holds the
      emitted features with key `k`, in element order. */
  lemma RawBuckets(els: seq<Element>)
    ensures RawIngest(els).layerData.Keys == BucketKeys
    ensures forall k :: k in BucketKeys ==>
              RawIngest(els).layerData[k] == WithKey(Emitted(IndexOf(els).byId, els), k)
  {
    PlacedPartition(EmptyBuckets(), IndexOf(els).byId, els);
  }

  /** A way listed before its own nodes is still drawn: the second pass only starts once the
      index holds every node of the list. */
  lemma WayBeforeItsNodes(a: NodeRec, b: NodeRec)
    ensures var els := [Way(1, [10, 11], map["railway" := "subway"]),
                        Node(10, a.lat, a.lon, a.tags), Node(11, b.lat, b.lon, b.tags)];
            && KeyName("subway", Surface) in RawIngest(els).layerData
            && RawIngest(els).layerData[KeyName("subway", Surface)] ==
                 [LineFeature("subway", Surface, "", "", "", [CoordOf(a), CoordOf(b)])]
  {
    var w := Way(1, [10, 11], map["railway" := "subway"]);
    var n10 := Node(10, a.lat, a.lon, a.tags);
    var n11 := Node(11, b.lat, b.lon, b.tags);
    var els := [w, n10, n11];
    var nodes := IndexOf(els).byId;
    ForwardIndex(w, a, b);
    var f := LineFeature("subway", Surface, "", "", "", [CoordOf(a), CoordOf(b)]);
    SubwayWayFeature(nodes, w, a, b);
    assert els[..2] == [w, n10] && [w, n10][..1] == [w] && [w][..0] == [];
    assert Emitted(nodes, els) == [f] by {
      assert Emitted(nodes, [w]) == [f];
      assert Emitted(nodes, [w, n10]) == [f];
    }
    KeyInBuckets("subway", Surface);
    RawBuckets(els);
    assert WithKey([f], KeyName("subway", Surface)) == [f] by { assert [f][..0] == []; }
  }

  /** The index of a way followed by its two nodes holds both nodes. */
  lemma ForwardIndex(w: Element, a: NodeRec, b: NodeRec)
    requires w.Way?
    ensures IndexOf([w, Node(10, a.lat, a.lon, a.tags), Node(11, b.lat, b.lon, b.tags)]).byId ==
              map[10 := NodeRec(a.lat, a.lon, a.tags), 11 := NodeRec(b.lat, b.lon, b.tags)]
  {
    var n10 := Node(10, a.lat, a.lon, a.tags);
    var n11 := Node(11, b.lat, b.lon, b.tags);
    var els := [w, n10, n11];
    assert els[..2] == [w, n10] && [w, n10][..1] == [w] && [w][..0] == [];
    assert IndexOf([w]) == EmptyIndex;
    assert IndexOf([w, n10]) == NodeIndex([10], map[10 := NodeRec(a.lat, a.lon, a.tags)]);
  }

  /** A `railway=subway` way over two indexed nodes yields a surface subway line through them. */
  lemma SubwayWayFeature(nodes: map<int, NodeRec>, w: Element, a: NodeRec, b: NodeRec)
    requires w == Way(1, [10, 11], map["railway" := "subway"])
    requires nodes == map[10 := NodeRec(a.lat, a.lon, a.tags), 11 := NodeRec(b.lat, b.lon, b.tags)]
    ensures WayFeature(nodes, w) == Some(LineFeature("subway", Surface, "", "", "", [CoordOf(a), CoordOf(b)]))
  {
    ResolveAllPresent(nodes, [10, 11]);
    assert Resolve(nodes, [10, 11]) == [CoordOf(a), CoordOf(b)];
    assert Text(w.tags, "name") == "" && Text(w.tags, "ref") == "" && Text(w.tags, "operator") == "";
    SubwayTags(w.tags);
  }

  /** The tag bag `railway=subway` classifies as a surface subway. */
  lemma SubwayTags(t: StringTags)
    requires t == map["railway" := "subway"]
    ensures Classify(Lift(t), Overpass) == Some(Bucket("subway", Surface))
  {
    assert Lift(t) == map["railway" := Str("subway")];
  }
}

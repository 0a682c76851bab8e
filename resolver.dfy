/** The node index built in the first Overpass pass, and the resolution of a way's node-id
    list into a coordinate list. */
module GraphResolver {
  import opened Tags

  /** A GeoJSON position, `[lon, lat]`. */
  datatype Coord = Coord(lon: real, lat: real)

  /** What the index keeps of a node: `{ lat, lon, tags: el.tags || {} }`. */
  datatype NodeRec = NodeRec(lat: real, lon: real, tags: StringTags)

  function CoordOf(n: NodeRec): Coord {
    Coord(n.lon, n.lat)
  }

  /** The `nodes` Map: a record per id, and the ids in first-insertion order, the order in
      which `Map.prototype.forEach` visits them. */
  datatype NodeIndex = NodeIndex(order: seq<int>, byId: map<int, NodeRec>) {

    ghost predicate Valid() {
      && (forall i, j :: 0 <= i < j < |order| ==> order[i] != order[j])
      && (forall id :: id in byId <==> id in order)
    }

    /** `Map.prototype.set`: a new id joins the end of the order; a known id keeps its place
        and takes the new record. */
    function Set(id: int, rec: NodeRec): (r: NodeIndex)
      ensures r.byId == byId[id := rec]
      ensures id in byId ==> r.order == order
      ensures id !in byId ==> r.order == order + [id]
    {
      if id in byId then NodeIndex(order, byId[id := rec]) else NodeIndex(order + [id], byId[id := rec])
    }
  }

  const EmptyIndex: NodeIndex := NodeIndex([], map[])

  /** `set` keeps the order free of duplicates and in step with the keys. */
  lemma SetKeepsValid(idx: NodeIndex, id: int, rec: NodeRec)
    requires idx.Valid()
    ensures idx.Set(id, rec).Valid()
  {
    var r := idx.Set(id, rec);
    if id !in idx.byId {
      assert id !in idx.order;
      forall i, j | 0 <= i < j < |r.order|
        ensures r.order[i] != r.order[j]
      {
        if j == |idx.order| {
          assert r.order[i] == idx.order[i];
        }
      }
    }
  }

  /** Every id the order lists has a record. */
  lemma OrderedIdIndexed(idx: NodeIndex, k: nat)
    requires idx.Valid() && k < |idx.order|
    ensures idx.order[k] in idx.byId
  {
    assert idx.order[k] in idx.order;
  }

  /** The coordinates of the nodes a way lists that are in the index, in the way's order. */
  function Resolve(nodes: map<int, NodeRec>, ids: seq<int>): seq<Coord> {
    if ids == [] then []
    else
      var last := ids[|ids| - 1];
      Resolve(nodes, ids[..|ids| - 1]) + if last in nodes then [CoordOf(nodes[last])] else []
  }

  /** The `for (const nodeId of element.nodes)` loop that pushes the coordinates of the
      nodes it finds. */
  method ResolveCoords(nodes: map<int, NodeRec>, ids: seq<int>) returns (coords: seq<Coord>)
    ensures coords == Resolve(nodes, ids)
  {
    coords := [];
    for k := 0 to |ids|
      invariant coords == Resolve(nodes, ids[..k])
    {
      assert ids[..k + 1][..k] == ids[..k];
      var node := ids[k];
      if node in nodes {
        coords := coords + [CoordOf(nodes[node])];
      }
    }
    assert ids[..|ids|] == ids;
  }

  /** Resolution works position by position: resolving a concatenation is concatenating
      the resolutions, so order is preserved and missing ids are skipped in place. */
  lemma {:induction false} ResolveAppend(nodes: map<int, NodeRec>, a: seq<int>, b: seq<int>)
    ensures Resolve(nodes, a + b) == Resolve(nodes, a) + Resolve(nodes, b)
  {
    if b == [] {
      assert a + b == a;
    } else {
      var last := b[|b| - 1];
      assert (a + b)[..|a + b| - 1] == a + b[..|b| - 1];
      ResolveAppend(nodes, a, b[..|b| - 1]);
    }
  }

  /** A single id resolves to its node's position, or to nothing when the node is missing. */
  lemma ResolveOne(nodes: map<int, NodeRec>, id: int)
    ensures Resolve(nodes, [id]) == if id in nodes then [CoordOf(nodes[id])] else []
  {
    assert [id][..0] == [];
  }

  /** Resolution never invents points. */
  lemma {:induction false} ResolveBound(nodes: map<int, NodeRec>, ids: seq<int>)
    ensures |Resolve(nodes, ids)| <= |ids|
  {
    if ids != [] {
      ResolveBound(nodes, ids[..|ids| - 1]);
    }
  }

  /** When every id is known, the k-th coordinate is the k-th node's position. */
  lemma {:induction false} ResolveAllPresent(nodes: map<int, NodeRec>, ids: seq<int>)
    requires forall i :: 0 <= i < |ids| ==> ids[i] in nodes
    ensures |Resolve(nodes, ids)| == |ids|
    ensures forall k :: 0 <= k < |ids| ==> Resolve(nodes, ids)[k] == CoordOf(nodes[ids[k]])
  {
    if ids != [] {
      ResolveAllPresent(nodes, ids[..|ids| - 1]);
    }
  }

  /** A way over nodes 1, 2, 3 with node 2 missing resolves to the two-point line through
      nodes 1 and 3; with only node 1 known it resolves to a single point. */
  lemma ResolveSkipsMissing(n1: NodeRec, n3: NodeRec)
    ensures Resolve(map[1 := n1, 3 := n3], [1, 2, 3]) == [CoordOf(n1), CoordOf(n3)]
    ensures |Resolve(map[1 := n1], [1, 2, 3])| == 1
  {
    var m := map[1 := n1, 3 := n3];
    assert [1, 2, 3] == [1] + [2] + [3];
    ResolveAppend(m, [1] + [2], [3]);
    ResolveAppend(m, [1], [2]);
    ResolveOne(m, 1);
    ResolveOne(m, 2);
    ResolveOne(m, 3);
    var m1 := map[1 := n1];
    ResolveAppend(m1, [1] + [2], [3]);
    ResolveAppend(m1, [1], [2]);
    ResolveOne(m1, 1);
    ResolveOne(m1, 2);
    ResolveOne(m1, 3);
  }
}

/** The station extractor of the Overpass path: which nodes are stations, and the station
    record built from a node's tags. */
module Stations {
  import opened Tags
  import opened GraphResolver

  const StationKinds: set<string> := {"station", "halt", "stop", "subway_entrance", "tram_stop"}

  /** The fallback chain for a station's line identifier. */
  const LineKeys: seq<string> := ["line", "lines", "subway:line", "train:line", "tram:line", "ref"]

  /** The fallback chain for a station's platform count. */
  const PlatformKeys: seq<string> := ["platforms", "public_transport:platforms"]

  /** A station point feature with its normalised properties. */
  datatype StationFeature = StationFeature(
    name: string, railway: string, network: string, operator: string,
    line: string, ref: string, platforms: string, coordinates: Coord)

  predicate IsStation(t: StringTags) {
    Text(t, "railway") in StationKinds
  }

  /** `t[k1] || t[k2] || ... || ''`: the first non-empty value along the chain. */
  function FirstText(t: StringTags, keys: seq<string>): string {
    if keys == [] then ""
    else if Text(t, keys[0]) != "" then Text(t, keys[0])
    else FirstText(t, keys[1..])
  }

  /** The station record of a node, with `Station` as the default name and `''` for every
      other missing field. */
  function StationOf(n: NodeRec): StationFeature {
    var t := n.tags;
    StationFeature(
      if Text(t, "name") != "" then Text(t, "name") else "Station",
      Text(t, "railway"),
      Text(t, "network"),
      Text(t, "operator"),
      FirstText(t, LineKeys),
      Text(t, "ref"),
      FirstText(t, PlatformKeys),
      CoordOf(n))
  }

  /** `FirstText` picks the first key of the chain whose value is non-empty, and yields `''`
      only when every key of the chain is missing or empty. */
  lemma {:induction false} FirstTextPicksFirst(t: StringTags, keys: seq<string>) returns (i: nat)
    ensures i <= |keys|
    ensures forall j :: 0 <= j < i ==> Text(t, keys[j]) == ""
    ensures i < |keys| ==> Text(t, keys[i]) != "" && FirstText(t, keys) == Text(t, keys[i])
    ensures i == |keys| ==> FirstText(t, keys) == ""
  {
    if keys == [] {
      i := 0;
    } else if Text(t, keys[0]) != "" {
      i := 0;
    } else {
      var i' := FirstTextPicksFirst(t, keys[1..]);
      i := i' + 1;
      forall j | 0 <= j < i
        ensures Text(t, keys[j]) == ""
      {
        if j > 0 {
          assert keys[j] == keys[1..][j - 1];
        }
      }
    }
  }

  /** The properties of a station: a name that is never empty, the node's own `railway`
      kind, `''` for a missing network, operator or ref, platforms from `platforms` falling
      back to `public_transport:platforms`, and a line that is the first non-empty of line,
      lines, subway:line, train:line, tram:line and ref, else `''`. */
  lemma StationFields(n: NodeRec)
    ensures StationOf(n).name != ""
    ensures Text(n.tags, "name") == "" ==> StationOf(n).name == "Station"
    ensures Text(n.tags, "name") != "" ==> StationOf(n).name == Text(n.tags, "name")
    ensures StationOf(n).railway == Text(n.tags, "railway")
    ensures StationOf(n).coordinates == Coord(n.lon, n.lat)
    ensures StationOf(n).network == (if "network" in n.tags then n.tags["network"] else "")
    ensures StationOf(n).operator == (if "operator" in n.tags then n.tags["operator"] else "")
    ensures StationOf(n).ref == (if "ref" in n.tags then n.tags["ref"] else "")
    ensures StationOf(n).platforms == (if Text(n.tags, "platforms") != "" then Text(n.tags, "platforms")
                                       else Text(n.tags, "public_transport:platforms"))
    ensures StationOf(n).line == "" <==> forall j :: 0 <= j < |LineKeys| ==> Text(n.tags, LineKeys[j]) == ""
    ensures StationOf(n).line != "" ==>
              exists i :: 0 <= i < |LineKeys| && StationOf(n).line == Text(n.tags, LineKeys[i]) &&
                          forall j :: 0 <= j < i ==> Text(n.tags, LineKeys[j]) == ""
  {
    var i := FirstTextPicksFirst(n.tags, LineKeys);
    FirstTextOfTwo(n.tags, "platforms", "public_transport:platforms");
  }

  /** A two-key chain `t[k1] || t[k2] || ''`. */
  lemma FirstTextOfTwo(t: StringTags, k1: string, k2: string)
    ensures FirstText(t, [k1, k2]) == if Text(t, k1) != "" then Text(t, k1) else Text(t, k2)
  {
    assert [k1, k2][1..] == [k2] && [k2][1..] == [];
    assert FirstText(t, [k2]) == Text(t, k2);
  }

  /** A station tagged only `subway:line=A` gets line `A`. */
  lemma SubwayLineFallback(lat: real, lon: real)
    ensures StationOf(NodeRec(lat, lon, map["railway" := "station", "subway:line" := "A"])).line == "A"
  {
    var t := map["railway" := "station", "subway:line" := "A"];
    assert LineKeys[1..][1..] == ["subway:line", "train:line", "tram:line", "ref"];
  }

  /** The stations of the nodes visited in `order`, in that order. */
  function StationsIn(order: seq<int>, byId: map<int, NodeRec>): seq<StationFeature> {
    if order == [] then []
    else
      var id := order[|order| - 1];
      StationsIn(order[..|order| - 1], byId) +
        if id in byId && IsStation(byId[id].tags) then [StationOf(byId[id])] else []
  }

  /** The `nodes.forEach` pass that pushes a station for every qualifying node. */
  method ExtractStations(nodes: NodeIndex) returns (stations: seq<StationFeature>)
    requires nodes.Valid()
    ensures stations == StationsIn(nodes.order, nodes.byId)
  {
    stations := [];
    for k := 0 to |nodes.order|
      invariant stations == StationsIn(nodes.order[..k], nodes.byId)
    {
      assert nodes.order[..k + 1][..k] == nodes.order[..k];
      OrderedIdIndexed(nodes, k);
      var node := nodes.byId[nodes.order[k]];
      if IsStation(node.tags) {
        stations := stations + [StationOf(node)];
      }
    }
    assert nodes.order[..|nodes.order|] == nodes.order;
  }

  /** Exactly the qualifying nodes become stations: every station comes from a node of the
      index whose `railway` kind qualifies, and every such node yields its station. */
  lemma {:induction false} StationsExactly(order: seq<int>, byId: map<int, NodeRec>, s: StationFeature)
    ensures s in StationsIn(order, byId) <==>
              exists id :: id in order && id in byId && IsStation(byId[id].tags) && s == StationOf(byId[id])
  {
    if order != [] {
      var front := order[..|order| - 1];
      var id := order[|order| - 1];
      StationsExactly(front, byId, s);
      assert order == front + [id];
      if s in StationsIn(order, byId) && s !in StationsIn(front, byId) {
        assert id in order;
      }
      if exists id' :: id' in order && id' in byId && IsStation(byId[id'].tags) && s == StationOf(byId[id']) {
        var id' :| id' in order && id' in byId && IsStation(byId[id'].tags) && s == StationOf(byId[id']);
        if id' != id {
          assert id' in front;
        }
      }
    }
  }
}

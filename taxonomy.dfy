/** The fixed taxonomy: rail categories, physical contexts, and the bucket keys
    `category + "_" + context` that both ingestion paths pre-allocate. */
module Taxonomy {

  datatype Context = Surface | Tunnel | Bridge

  /** The order in which the ingestion paths allocate contexts. */
  const Contexts: seq<Context> := [Surface, Tunnel, Bridge]

  function ContextName(c: Context): string {
    match c
    case Surface => "surface"
    case Tunnel => "tunnel"
    case Bridge => "bridge"
  }

  /** The categories the two ingestion paths allocate buckets for. `rail_yard` is not
      among them, although the classifier can produce it. */
  const BucketCategories: seq<string> :=
    ["rail", "subway", "light_rail", "tram", "narrow_gauge", "construction", "proposed", "abandoned", "platform"]

  /** The categories the renderer draws and has styles for: the full taxonomy. */
  const StyleCategories: seq<string> :=
    ["rail", "rail_yard", "narrow_gauge", "subway", "light_rail", "tram", "construction", "proposed", "abandoned", "platform"]

  /** A bucket key, `${type}_${context}`. */
  function KeyName(category: string, c: Context): string {
    category + "_" + ContextName(c)
  }

  /** The pre-allocated keys: each of the nine bucket categories in each of the three contexts. */
  const BucketKeys: set<string> := set t, c | t in BucketCategories && c in Contexts :: KeyName(t, c)

  /** A classified dataset: line features by bucket key, and the station list. */
  datatype Dataset<L, S> = Dataset(layerData: map<string, seq<L>>, stations: seq<S>)

  /** The freshly allocated buckets, every one empty. */
  function EmptyBuckets<L>(): (m: map<string, seq<L>>)
    ensures m.Keys == BucketKeys
    ensures forall k :: k in m ==> m[k] == []
  {
    map k | k in BucketKeys :: []
  }

  /** The `if (layerData[key]) layerData[key].push(f)` step: a feature is appended to its
      bucket when the bucket exists, and silently dropped otherwise. */
  function Place<L>(buckets: map<string, seq<L>>, key: string, f: L): (r: map<string, seq<L>>)
    ensures r.Keys == buckets.Keys
    ensures forall k :: k in r ==> r[k] == if k == key then buckets[k] + [f] else buckets[k]
  {
    if key in buckets then buckets[key := buckets[key] + [f]] else buckets
  }

  /** The nested `forEach` over categories and contexts that allocates the buckets. */
  method NewBuckets<L>() returns (buckets: map<string, seq<L>>)
    ensures buckets == EmptyBuckets<L>()
  {
    buckets := map[];
    for ti := 0 to |BucketCategories|
      invariant forall k :: k in buckets ==> k in BucketKeys && buckets[k] == []
      invariant forall i, j :: 0 <= i < ti && 0 <= j < |Contexts| ==> AllocatedKey(i, j) in buckets
    {
      for ci := 0 to |Contexts|
        invariant forall k :: k in buckets ==> k in BucketKeys && buckets[k] == []
        invariant forall i, j :: 0 <= i < ti && 0 <= j < |Contexts| ==> AllocatedKey(i, j) in buckets
        invariant forall j :: 0 <= j < ci ==> AllocatedKey(ti, j) in buckets
      {
        buckets := buckets[AllocatedKey(ti, ci) := []];
      }
      forall i, j | 0 <= i <= ti && 0 <= j < |Contexts|
        ensures AllocatedKey(i, j) in buckets
      {
        if i == ti {
          assert AllocatedKey(ti, j) in buckets;
        }
      }
    }
    forall k | k in BucketKeys
      ensures k in buckets
    {
      var i, j := KeyIndices(k);
    }
  }

  /** The key the allocation loops write for category index `i` and context index `j`. */
  function AllocatedKey(i: nat, j: nat): (k: string)
    requires i < |BucketCategories| && j < |Contexts|
    ensures k in BucketKeys
  {
    KeyName(BucketCategories[i], Contexts[j])
  }

  lemma KeyIndices(k: string) returns (i: nat, j: nat)
    requires k in BucketKeys
    ensures i < |BucketCategories| && j < |Contexts|
    ensures k == AllocatedKey(i, j)
  {
    var t, c :| t in BucketCategories && c in Contexts && k == KeyName(t, c);
    i :| i < |BucketCategories| && BucketCategories[i] == t;
    j :| j < |Contexts| && Contexts[j] == c;
  }

  /** A key names its category and context unambiguously: the context names end in
      distinct two-letter suffixes ("ce", "el", "ge"). */
  lemma {:induction false} KeyNameInjective(t1: string, c1: Context, t2: string, c2: Context)
    requires KeyName(t1, c1) == KeyName(t2, c2)
    ensures t1 == t2 && c1 == c2
  {
    var k := KeyName(t1, c1);
    var n1, n2 := ContextName(c1), ContextName(c2);
    assert k == t1 + "_" + n1 == t2 + "_" + n2;
    assert k[|k| - 1] == n1[|n1| - 1] && k[|k| - 2] == n1[|n1| - 2];
    assert k[|k| - 1] == n2[|n2| - 1] && k[|k| - 2] == n2[|n2| - 2];
    assert c1 == c2;
    assert |t1| == |t2|;
    assert t1 == k[..|t1|] == t2;
  }

  /** A key exists among the pre-allocated buckets exactly when its category is one of the
      nine bucket categories, whatever the context. */
  lemma KeyInBuckets(t: string, c: Context)
    ensures KeyName(t, c) in BucketKeys <==> t in BucketCategories
  {
    if KeyName(t, c) in BucketKeys {
      var t', c' :| t' in BucketCategories && c' in Contexts && KeyName(t, c) == KeyName(t', c');
      KeyNameInjective(t, c, t', c');
    } else {
      assert c in Contexts;
    }
  }

  /** `rail_yard` is drawn by the renderer but has no bucket in any context, so nothing
      classified as `rail_yard` is ever stored. */
  lemma RailYardHasNoBucket(c: Context)
    ensures "rail_yard" in StyleCategories && "rail_yard" !in BucketCategories
    ensures KeyName("rail_yard", c) !in BucketKeys
  {
    forall i | 0 <= i < |BucketCategories|
      ensures BucketCategories[i] != "rail_yard"
    {
      if |BucketCategories[i]| == |"rail_yard"| {
        assert BucketCategories[i][0] != "rail_yard"[0];
      }
    }
    KeyInBuckets("rail_yard", c);
  }
}

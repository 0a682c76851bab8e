/** GeoJSON ingestion: one pass over a FeatureCollection that sends station points to the
    station list and classified line and polygon features to their buckets. Features are
    stored as they came in. */
module GeoJsonIngest {
  import opened Tags
  import opened Taxonomy
  import opened Classifier
  import Stations

  datatype GeometryKind = Point | LineString | MultiLineString | Polygon | OtherGeometry(name: string)

  /** A GeoJSON feature: its property bag (an absent bag reads as empty) and the type of its
      geometry, if it has one. Coordinates are carried along untouched and are not modelled. */
  datatype GeoFeature = GeoFeature(properties: Props, geometry: Option<GeometryKind>)

  /** The GeoJSON station test: a station-like `railway` value, or a stop position. */
  predicate IsGeoStation(p: Props) {
    || ("railway" in p && p["railway"].Str? && p["railway"].s in Stations.StationKinds)
    || IsText(p, "public_transport", "stop_position")
  }

  predicate IsStationPoint(f: GeoFeature) {
    f.geometry == Some(Point) && IsGeoStation(f.properties)
  }

  predicate IsLineKind(g: GeometryKind) {
    g == LineString || g == MultiLineString || g == Polygon
  }

  /** The bucket key a line-like feature classifies to, if it is a railway feature. */
  function LineKey(f: GeoFeature): Option<string> {
    if f.geometry.None? || !IsLineKind(f.geometry.value) then None
    else
      match Classify(f.properties, GeoJson)
      case None => None
      case Some(b) => Some(b.Key())
  }

  /** One feature of the pass. */
  function GeoStep(data: Dataset<GeoFeature, GeoFeature>, f: GeoFeature): Dataset<GeoFeature, GeoFeature> {
    if IsStationPoint(f) then data.(stations := data.stations + [f])
    else
      match LineKey(f)
      case None => data
      case Some(k) => data.(layerData := Place(data.layerData, k, f))
  }

  /** The dataset `processGeoJSON` returns for a feature list. */
  function GeoIngest(fs: seq<GeoFeature>): Dataset<GeoFeature, GeoFeature> {
    if fs == [] then Dataset(EmptyBuckets(), [])
    else GeoStep(GeoIngest(fs[..|fs| - 1]), fs[|fs| - 1])
  }

  /** The body of the `forEach` callback for one feature. */
  method IngestFeature(data0: Dataset<GeoFeature, GeoFeature>, feature: GeoFeature)
    returns (data: Dataset<GeoFeature, GeoFeature>)
    ensures data == GeoStep(data0, feature)
  {
    data := data0;
    var props := feature.properties;
    if feature.geometry.None? {
      return;
    }
    var geometry := feature.geometry.value;
    if geometry == Point && IsGeoStation(props) {
      data := data.(stations := data.stations + [feature]);
      return;
    }
    if geometry == LineString || geometry == MultiLineString || geometry == Polygon {
      var railway := RawCategory(props);
      if railway.None? {
        return;
      }
      var railType := Normalize(railway.value);
      var context := ContextOf(props, GeoJson);
      var finalType := FinalCategory(railType, props);
      var key := KeyName(finalType, context);
      if key in data.layerData {
        data := data.(layerData := data.layerData[key := data.layerData[key] + [feature]]);
      }
    }
  }

  /** `processGeoJSON`: allocate the buckets, then one pass over the features. */
  method ProcessGeoJson(features: seq<GeoFeature>) returns (data: Dataset<GeoFeature, GeoFeature>)
    ensures data == GeoIngest(features)
  {
    var layerData := NewBuckets<GeoFeature>();
    data := Dataset(layerData, []);
    for n := 0 to |features|
      invariant data == GeoIngest(features[..n])
    {
      assert features[..n + 1][..n] == features[..n];
      data := IngestFeature(data, features[n]);
    }
    assert features[..|features|] == features;
  }

  /** The features of `fs` that go to bucket `k`, in order. */
  function WithLineKey(fs: seq<GeoFeature>, k: string): seq<GeoFeature> {
    if fs == [] then []
    else WithLineKey(fs[..|fs| - 1], k) + if LineKey(fs[|fs| - 1]) == Some(k) then [fs[|fs| - 1]] else []
  }

  /** The station points of `fs`, in order. */
  function StationPoints(fs: seq<GeoFeature>): seq<GeoFeature> {
    if fs == [] then []
    else StationPoints(fs[..|fs| - 1]) + if IsStationPoint(fs[|fs| - 1]) then [fs[|fs| - 1]] else []
  }

  /** A feature is never both a station point and a bucketed line. */
  lemma StationOrLine(f: GeoFeature)
    ensures !(IsStationPoint(f) && LineKey(f).Some?)
  {
  }

  /** The pass partitions the features: the buckets stay exactly the pre-allocated ones,
      bucket `k` holds, in order, the line features whose key is `k`, and the station list
      holds, in order, the station points. */
  lemma {:induction false} GeoPartition(fs: seq<GeoFeature>)
    ensures GeoIngest(fs).layerData.Keys == BucketKeys
    ensures forall k :: k in BucketKeys ==> GeoIngest(fs).layerData[k] == WithLineKey(fs, k)
    ensures GeoIngest(fs).stations == StationPoints(fs)
  {
    if fs != [] {
      GeoPartition(fs[..|fs| - 1]);
    }
  }

  /** A stored feature is a line, polygon or multi-line whose classified category is one of
      the nine bucket categories, so a `rail_yard` feature is never stored. */
  lemma GeoStoredFeatures(fs: seq<GeoFeature>, k: string, f: GeoFeature)
    requires k in GeoIngest(fs).layerData && f in GeoIngest(fs).layerData[k]
    ensures f.geometry.Some? && IsLineKind(f.geometry.value)
    ensures Classify(f.properties, GeoJson).Some?
    ensures Classify(f.properties, GeoJson).value.Key() == k
    ensures Classify(f.properties, GeoJson).value.category in BucketCategories
    ensures Classify(f.properties, GeoJson).value.category != "rail_yard"
  {
    GeoPartition(fs);
    assert k in BucketKeys;
    WithLineKeyMember(fs, k, f);
    LineKeyBucket(f);
    RailYardHasNoBucket(Surface);
  }

  /** The silent drop: a line feature classified `rail_yard` lands in no bucket and is not
      a station, so it is missing from the dataset. */
  lemma GeoYardDropped(fs: seq<GeoFeature>, f: GeoFeature)
    requires f.geometry.Some? && IsLineKind(f.geometry.value)
    requires Classify(f.properties, GeoJson).Some? && Classify(f.properties, GeoJson).value.category == "rail_yard"
    ensures forall k :: k in GeoIngest(fs).layerData ==> f !in GeoIngest(fs).layerData[k]
    ensures f !in GeoIngest(fs).stations
  {
    forall k | k in GeoIngest(fs).layerData
      ensures f !in GeoIngest(fs).layerData[k]
    {
      if f in GeoIngest(fs).layerData[k] {
        GeoStoredFeatures(fs, k, f);
      }
    }
    GeoPartition(fs);
    StationPointsMember(fs, f);
  }

  lemma {:induction false} StationPointsMember(fs: seq<GeoFeature>, f: GeoFeature)
    ensures f in StationPoints(fs) <==> f in fs && IsStationPoint(f)
  {
    if fs != [] {
      StationPointsMember(fs[..|fs| - 1], f);
      assert fs == fs[..|fs| - 1] + [fs[|fs| - 1]];
    }
  }

  /** A feature with a line key is a line-like feature whose classification gives that key,
      and the key names a bucket exactly when the category is a bucket category. */
  lemma LineKeyBucket(f: GeoFeature)
    requires LineKey(f).Some?
    ensures f.geometry.Some? && IsLineKind(f.geometry.value)
    ensures Classify(f.properties, GeoJson).Some?
    ensures Classify(f.properties, GeoJson).value.Key() == LineKey(f).value
    ensures LineKey(f).value in BucketKeys <==> Classify(f.properties, GeoJson).value.category in BucketCategories
  {
    var b := Classify(f.properties, GeoJson).value;
    KeyInBuckets(b.category, b.context);
  }

  lemma {:induction false} WithLineKeyMember(fs: seq<GeoFeature>, k: string, f: GeoFeature)
    ensures f in WithLineKey(fs, k) <==> f in fs && LineKey(f) == Some(k)
  {
    if fs != [] {
      WithLineKeyMember(fs[..|fs| - 1], k, f);
      assert fs == fs[..|fs| - 1] + [fs[|fs| - 1]];
    }
  }
}

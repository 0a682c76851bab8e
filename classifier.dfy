/** The classification decision table shared by both ingestion paths: raw category,
    abandoned normalisation, physical context, and the yard remap. The two inline copies
    in the source differ only in their bridge and tunnel tests, selected by `Variant`. */
module Classifier {
  import opened Tags
  import opened Taxonomy

  /** Which copy of the decision table: the Overpass path also takes `bridge=viaduct`,
      the GeoJSON path also takes boolean `true` for `tunnel` and `bridge`. */
  datatype Variant = Overpass | GeoJson

  /** The (category, context) pair a line feature is classified into. */
  datatype Bucket = Bucket(category: string, context: Context) {
    function Key(): string {
      KeyName(category, context)
    }
  }

  const AbandonedFamily: set<string> := {"abandoned", "disused", "razed", "dismantled"}

  /** The `railway` value, else `platform` for `public_transport=platform`, else nothing:
      the feature is not a railway feature. */
  function RawCategory(p: Props): Option<string> {
    if Has(p, "railway") then Some(ToText(p["railway"]))
    else if IsText(p, "public_transport", "platform") then Some("platform")
    else None
  }

  function Normalize(category: string): string {
    if category in AbandonedFamily then "abandoned" else category
  }

  /** A negative or a positive numeric `layer`. */
  predicate LayerBelow(p: Props) {
    LayerOf(p).Some? && LayerOf(p).value < 0
  }

  predicate LayerAbove(p: Props) {
    LayerOf(p).Some? && LayerOf(p).value > 0
  }

  predicate IsTunnel(p: Props, v: Variant) {
    IsText(p, "tunnel", "yes") || (v == GeoJson && IsTrue(p, "tunnel")) || LayerBelow(p)
  }

  predicate IsBridge(p: Props, v: Variant) {
    || IsText(p, "bridge", "yes")
    || (v == Overpass && IsText(p, "bridge", "viaduct"))
    || (v == GeoJson && IsTrue(p, "bridge"))
    || LayerAbove(p)
  }

  function ContextOf(p: Props, v: Variant): Context {
    if IsTunnel(p, v) then Tunnel else if IsBridge(p, v) then Bridge else Surface
  }

  predicate IsYard(p: Props) {
    IsText(p, "service", "yard") || IsText(p, "service", "siding")
  }

  /** The category after the yard remap: `rail` on a yard or siding track becomes `rail_yard`. */
  function FinalCategory(category: string, p: Props): string {
    if category == "rail" && IsYard(p) then "rail_yard" else category
  }

  /** The whole decision table: `None` discards the feature. */
  function Classify(p: Props, v: Variant): Option<Bucket> {
    match RawCategory(p)
    case None => None
    case Some(raw) => Some(Bucket(FinalCategory(Normalize(raw), p), ContextOf(p, v)))
  }

  /** A feature is a railway feature exactly when it has a truthy `railway` tag or is a
      `public_transport=platform`; an untagged platform lands in category `platform`, and
      any other `railway` value outside the abandoned family and `rail` is kept as it is. */
  lemma CategoryRule(p: Props, v: Variant)
    ensures Classify(p, v).Some? <==> Has(p, "railway") || IsText(p, "public_transport", "platform")
    ensures !Has(p, "railway") && IsText(p, "public_transport", "platform") ==>
              Classify(p, v).value.category == "platform"
    ensures Has(p, "railway") && ToText(p["railway"]) !in AbandonedFamily && ToText(p["railway"]) != "rail" ==>
              Classify(p, v).value.category == ToText(p["railway"])
  {
  }

  /** `abandoned`, `disused`, `razed` and `dismantled` all become `abandoned`; every other
      category passes through unchanged, and normalising twice changes nothing. */
  lemma AbandonedNormalization(c: string)
    ensures Normalize(c) == "abandoned" <==> c in AbandonedFamily
    ensures c !in AbandonedFamily ==> Normalize(c) == c
    ensures Normalize(Normalize(c)) == Normalize(c)
  {
  }

  /** The context is `tunnel` whenever the tunnel test holds, even when the bridge test
      holds too; `bridge` only when the tunnel test fails; `surface` otherwise. */
  lemma ContextPrecedence(p: Props, v: Variant)
    ensures ContextOf(p, v) == Tunnel <==> IsTunnel(p, v)
    ensures ContextOf(p, v) == Bridge <==> !IsTunnel(p, v) && IsBridge(p, v)
    ensures ContextOf(p, v) == Surface <==> !IsTunnel(p, v) && !IsBridge(p, v)
    ensures IsText(p, "tunnel", "yes") && IsText(p, "bridge", "yes") ==> ContextOf(p, v) == Tunnel
  {
  }

  /** `rail_yard` arises exactly from a `rail` track with `service=yard` or `service=siding`,
      or from a literal `rail_yard` tag; the remap never touches the context. */
  lemma YardRemap(p: Props, v: Variant)
    requires Classify(p, v).Some?
    ensures Classify(p, v).value.category == "rail_yard" <==>
              (Normalize(RawCategory(p).value) == "rail" && IsYard(p)) || RawCategory(p).value == "rail_yard"
    ensures Classify(p, v).value.context == ContextOf(p, v)
  {
  }

  /** The `service` tag plays no part in the context decision. */
  lemma ServiceIgnoredByContext(p: Props, v: Variant, x: Value)
    ensures ContextOf(p["service" := x], v) == ContextOf(p, v)
  {
    var q := p["service" := x];
    assert LayerOf(q) == LayerOf(p);
    assert IsText(q, "tunnel", "yes") == IsText(p, "tunnel", "yes");
    assert IsTrue(q, "tunnel") == IsTrue(p, "tunnel");
    assert IsText(q, "bridge", "yes") == IsText(p, "bridge", "yes");
    assert IsText(q, "bridge", "viaduct") == IsText(p, "bridge", "viaduct");
    assert IsTrue(q, "bridge") == IsTrue(p, "bridge");
  }

  /** The two copies of the table agree on every string-valued bag without `bridge=viaduct`;
      they part only on booleans and viaducts. */
  lemma VariantsAgree(p: Props)
    requires forall k :: k in p ==> p[k].Str?
    requires !IsText(p, "bridge", "viaduct")
    ensures Classify(p, Overpass) == Classify(p, GeoJson)
  {
    assert IsTunnel(p, Overpass) == IsTunnel(p, GeoJson);
    assert IsBridge(p, Overpass) == IsBridge(p, GeoJson);
  }

  /** A viaduct is a bridge to the Overpass path only; a boolean bridge to the GeoJSON path only. */
  lemma VariantsDiffer()
    ensures ContextOf(map["railway" := Str("rail"), "bridge" := Str("viaduct")], Overpass) == Bridge
    ensures ContextOf(map["railway" := Str("rail"), "bridge" := Str("viaduct")], GeoJson) == Surface
    ensures ContextOf(map["railway" := Str("rail"), "bridge" := Bool(true)], GeoJson) == Bridge
    ensures ContextOf(map["railway" := Str("rail"), "bridge" := Bool(true)], Overpass) == Surface
  {
  }

  /** With no `tunnel` or `bridge` tag, the `layer` tag alone decides the context through
      `parseInt`: `-1` is a tunnel, ` 2` a bridge, while `0` and a non-number `x` leave the
      feature on the surface. */
  lemma LayerDecidesContext(p: Props, v: Variant)
    requires "tunnel" !in p && "bridge" !in p && "layer" in p
    ensures p["layer"] == Str("-1") ==> ContextOf(p, v) == Tunnel
    ensures p["layer"] == Str(" 2") ==> ContextOf(p, v) == Bridge
    ensures p["layer"] == Str("0") ==> ContextOf(p, v) == Surface
    ensures p["layer"] == Str("x") ==> ContextOf(p, v) == Surface
  {
    LayerOnlyContext(p, v);
    var layer := p["layer"];
    if layer == Str("-1") {
      assert layer.s == ['-', '1'];
      ParseMinusDigit('1');
      assert LayerOf(p) == Some(-1);
    } else if layer == Str(" 2") {
      assert layer.s == [' ', '2'];
      ParseSpacedDigit(' ', '2');
      assert LayerOf(p) == Some(2);
    } else if layer == Str("0") {
      assert layer.s == ['0'];
      ParseDigit('0');
      assert LayerOf(p) == Some(0);
    } else if layer == Str("x") {
      ParseNonNumber(layer.s);
      assert LayerOf(p) == None;
    }
  }

  /** Without `tunnel` and `bridge` tags the context follows the sign of the layer. */
  lemma LayerOnlyContext(p: Props, v: Variant)
    requires "tunnel" !in p && "bridge" !in p
    ensures ContextOf(p, v) == if LayerBelow(p) then Tunnel else if LayerAbove(p) then Bridge else Surface
  {
  }

  /** A classified feature has a pre-allocated bucket exactly when its final category is one
      of the nine bucket categories; a `rail_yard` feature never has one. */
  lemma BucketExists(p: Props, v: Variant)
    requires Classify(p, v).Some?
    ensures Classify(p, v).value.Key() in BucketKeys <==> Classify(p, v).value.category in BucketCategories
    ensures Classify(p, v).value.category == "rail_yard" ==> Classify(p, v).value.Key() !in BucketKeys
  {
    var b := Classify(p, v).value;
    KeyInBuckets(b.category, b.context);
  }
}

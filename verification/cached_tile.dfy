/**
 * `decode_json_tile_for_layers`: re-slice a cached composite tile to the
 * requested layers. The JSON document arrives already decoded, as its
 * layers in the order the decoded object yields them; the conversion of a
 * structural geometry to WKB bytes is the parameter `toWkb`.
 */
module CachedTile {
  import opened Wrappers
  import opened Layers

  datatype JsonFeature<G, P> = JsonFeature(geometry: G, properties: P)
  datatype JsonLayer<G, P> = JsonLayer(name: string, features: seq<JsonFeature<G, P>>)

  /** A feature ready for a formatter: WKB geometry, properties, id. */
  datatype Feature<W, P> = Feature(wkb: W, properties: P, id: Option<int>)
  datatype FeatureLayer<W, P> = FeatureLayer(name: string, features: seq<Feature<W, P>>)

  /** The cached layers whose name is in `keep`, in their cached order. */
  function KeptLayers<G, P>(tile: seq<JsonLayer<G, P>>, keep: set<string>): seq<JsonLayer<G, P>>
  {
    if tile == [] then []
    else
      var last := tile[|tile| - 1];
      KeptLayers(tile[..|tile| - 1], keep) + (if last.name in keep then [last] else [])
  }

  /** A cached layer is kept exactly when its name was requested. */
  lemma {:induction false} KeptLayersExact<G, P>(tile: seq<JsonLayer<G, P>>, keep: set<string>)
    ensures forall l :: l in KeptLayers(tile, keep) <==> l in tile && l.name in keep
  {
    if tile != [] {
      var init := tile[..|tile| - 1];
      KeptLayersExact(init, keep);
      assert tile == init + [tile[|tile| - 1]];
    }
  }

  /**
   * `out` is `src` with every geometry converted, the properties kept and
   * the id dropped to `None`.
   */
  ghost predicate Converted<G, P, W>(out: FeatureLayer<W, P>, src: JsonLayer<G, P>, toWkb: G -> W)
  {
    && out.name == src.name
    && |out.features| == |src.features|
    && forall k :: 0 <= k < |src.features| ==>
         out.features[k] == Feature(toWkb(src.features[k].geometry), src.features[k].properties, None)
  }

  method DecodeTileForLayers<G, P, W>(tile: seq<JsonLayer<G, P>>, layerData: seq<LayerDatum>, toWkb: G -> W)
    returns (featureLayers: seq<FeatureLayer<W, P>>)
    ensures |featureLayers| == |KeptLayers(tile, NamesOf(layerData))|
    ensures forall j :: 0 <= j < |featureLayers| ==>
              Converted(featureLayers[j], KeptLayers(tile, NamesOf(layerData))[j], toWkb)
  {
    var layerNamesToKeep := set ld | ld in layerData :: ld.name;
    featureLayers := [];
    for i := 0 to |tile|
      invariant |featureLayers| == |KeptLayers(tile[..i], layerNamesToKeep)|
      invariant forall j :: 0 <= j < |featureLayers| ==>
                  Converted(featureLayers[j], KeptLayers(tile[..i], layerNamesToKeep)[j], toWkb)
    {
      var layer := tile[i];
      assert tile[..i + 1][..i] == tile[..i];
      if layer.name !in layerNamesToKeep {
        continue;
      }
      var features: seq<Feature<W, P>> := [];
      for k := 0 to |layer.features|
        invariant |features| == k
        invariant forall m :: 0 <= m < k ==>
                    features[m] == Feature(toWkb(layer.features[m].geometry), layer.features[m].properties, None)
      {
        var jsonFeature := layer.features[k];
        var wkb := toWkb(jsonFeature.geometry);
        features := features + [Feature(wkb, jsonFeature.properties, None)];
      }
      featureLayers := featureLayers + [FeatureLayer(layer.name, features)];
    }
    assert tile[..|tile|] == tile;
  }

  /**
   * What the re-sliced tile holds, for any decoded tile: only requested
   * layers, every requested layer that the cache holds, each with as many
   * features as cached and every feature id `None`.
   */
  lemma PrunedTileProperties<G, P, W>(tile: seq<JsonLayer<G, P>>, layerData: seq<LayerDatum>,
                                      toWkb: G -> W, featureLayers: seq<FeatureLayer<W, P>>)
    requires |featureLayers| == |KeptLayers(tile, NamesOf(layerData))|
    requires forall j :: 0 <= j < |featureLayers| ==>
               Converted(featureLayers[j], KeptLayers(tile, NamesOf(layerData))[j], toWkb)
    ensures forall j :: 0 <= j < |featureLayers| ==> featureLayers[j].name in NamesOf(layerData)
    ensures forall l :: l in tile && l.name in NamesOf(layerData) ==>
              exists j :: 0 <= j < |featureLayers| && featureLayers[j].name == l.name
                          && |featureLayers[j].features| == |l.features|
    ensures forall j, k :: 0 <= j < |featureLayers| && 0 <= k < |featureLayers[j].features| ==>
              featureLayers[j].features[k].id == None
  {
    var kept := KeptLayers(tile, NamesOf(layerData));
    KeptLayersExact(tile, NamesOf(layerData));
    forall j | 0 <= j < |featureLayers|
      ensures featureLayers[j].name in NamesOf(layerData)
    {
      assert kept[j] in kept;
      assert Converted(featureLayers[j], kept[j], toWkb);
    }
    forall l | l in tile && l.name in NamesOf(layerData)
      ensures exists j :: 0 <= j < |featureLayers| && featureLayers[j].name == l.name
                          && |featureLayers[j].features| == |l.features|
    {
      assert l in kept;
      var j :| 0 <= j < |kept| && kept[j] == l;
      assert Converted(featureLayers[j], kept[j], toWkb);
    }
    forall j, k | 0 <= j < |featureLayers| && 0 <= k < |featureLayers[j].features|
      ensures featureLayers[j].features[k].id == None
    {
      assert Converted(featureLayers[j], kept[j], toWkb);
    }
  }
}

/**
 * The layer registry (`LayerConfig`) and `parse_layer_spec`, which turns a
 * layer spec (`all`, or a comma-separated list of names that may include
 * `all`) into the sorted, duplicate-free list of layer definitions.
 */
module Layers {
  import opened Wrappers
  import opened Text
  import opened StringOrder

  /** A layer definition; its query template is opaque to request resolution. */
  datatype LayerDatum = LayerDatum(name: string, query: string)

  datatype LayerConfig = LayerConfig(
    allLayerNames: seq<string>,
    layerData: seq<LayerDatum>,
    layerDataByName: map<string, LayerDatum>,
    allLayers: seq<LayerDatum>)
  {
    /** What `LayerConfig.__init__` establishes. */
    ghost predicate Valid()
    {
      && layerDataByName == IndexByName(layerData)
      && Ordered(allLayerNames)
      && |allLayers| == |allLayerNames|
      && forall i :: 0 <= i < |allLayerNames| ==>
           allLayerNames[i] in layerDataByName && allLayers[i] == layerDataByName[allLayerNames[i]]
    }
  }

  function NamesOf(data: seq<LayerDatum>): set<string>
  {
    set d | d in data :: d.name
  }

  /** `dict((d['name'], d) for d in data)`: each name maps to the last datum carrying it. */
  function IndexByName(data: seq<LayerDatum>): (m: map<string, LayerDatum>)
    ensures m.Keys == NamesOf(data)
    ensures forall n :: n in m ==> m[n].name == n && m[n] in data
  {
    if data == [] then map[]
    else
      var init := data[..|data| - 1];
      var last := data[|data| - 1];
      assert data == init + [last];
      assert NamesOf(data) == NamesOf(init) + {last.name};
      IndexByName(init)[last.name := last]
  }

  /** The datum a name maps to is the last one in `data` with that name. */
  lemma {:induction false} IndexByNameLastWins(data: seq<LayerDatum>, i: nat)
    requires i < |data|
    requires forall j :: i < j < |data| ==> data[j].name != data[i].name
    ensures IndexByName(data)[data[i].name] == data[i]
  {
    var init := data[..|data| - 1];
    if i < |data| - 1 {
      IndexByNameLastWins(init, i);
      assert data[|data| - 1].name != data[i].name;
    }
  }

  function LookupAll(names: seq<string>, byName: map<string, LayerDatum>): seq<LayerDatum>
    requires forall n :: n in names ==> n in byName
  {
    seq(|names|, i requires 0 <= i < |names| => byName[names[i]])
  }

  /**
   * `LayerConfig(all_layer_names, layer_data)`: the names sorted, the data
   * indexed by name, and the data of every name in sorted order. `None`
   * when a name has no datum, where Python raises `KeyError`.
   */
  function MakeLayerConfig(allLayerNames: seq<string>, layerData: seq<LayerDatum>): (r: Option<LayerConfig>)
    ensures r.Some? <==> forall n :: n in allLayerNames ==> n in NamesOf(layerData)
    ensures r.Some? ==> r.value.Valid() && r.value.layerData == layerData
    ensures r.Some? ==> multiset(r.value.allLayerNames) == multiset(allLayerNames)
  {
    var names := SortNames(allLayerNames);
    assert forall n :: n in names <==> n in allLayerNames by {
      forall n ensures n in names <==> n in allLayerNames {
        assert n in names <==> n in multiset(names);
        assert n in allLayerNames <==> n in multiset(allLayerNames);
      }
    }
    var byName := IndexByName(layerData);
    if forall n :: n in names ==> n in byName then
      Some(LayerConfig(names, layerData, byName, LookupAll(names, byName)))
    else None
  }

  /** The names of every layer, as `all` expands to. */
  function AllNames(cfg: LayerConfig): set<string>
  {
    NamesOf(cfg.allLayers)
  }

  /**
   * The layer names a list of tokens asks for: the tokens themselves and,
   * when one of them is `all`, every layer name (`all` itself is removed
   * later).
   */
  function RequestedNames(tokens: seq<string>, cfg: LayerConfig): set<string>
  {
    Elems(tokens) + (if "all" in tokens then AllNames(cfg) else {})
  }

  /** What `parse_layer_spec` computes, stated on sets. */
  ghost function ResolveLayerSpec(layerSpec: string, cfg: LayerConfig): Option<seq<LayerDatum>>
  {
    if layerSpec == "all" then Some(cfg.allLayers)
    else
      var names := RequestedNames(Split(layerSpec, ','), cfg) - {"all"};
      if names <= cfg.layerDataByName.Keys then Some(LookupAll(SortedSeq(names), cfg.layerDataByName))
      else None
  }

  /** `parse_layer_spec`: collect the names into a set, sort them, look each one up. */
  method ParseLayerSpec(layerSpec: string, cfg: LayerConfig) returns (r: Option<seq<LayerDatum>>)
    ensures r == ResolveLayerSpec(layerSpec, cfg)
  {
    if layerSpec == "all" {
      return Some(cfg.allLayers);
    }
    var tokens := Split(layerSpec, ',');
    var unique: set<string> := {};
    for i := 0 to |tokens|
      invariant unique == RequestedNames(tokens[..i], cfg)
    {
      var layerName := tokens[i];
      assert tokens[..i + 1] == tokens[..i] + [layerName];
      if layerName == "all" {
        if "all" !in unique {
          for j := 0 to |cfg.allLayers|
            invariant unique == Elems(tokens[..i]) + NamesOf(cfg.allLayers[..j])
          {
            assert cfg.allLayers[..j + 1] == cfg.allLayers[..j] + [cfg.allLayers[j]];
            unique := unique + {cfg.allLayers[j].name};
          }
          assert cfg.allLayers[..|cfg.allLayers|] == cfg.allLayers;
        }
      }
      unique := unique + {layerName};
    }
    assert tokens[..|tokens|] == tokens;
    ghost var names := unique - {"all"};

    var sortedLayerNames := SortedNames(unique);
    var layerData: seq<LayerDatum> := [];
    ghost var kept: seq<string> := [];
    for i := 0 to |sortedLayerNames|
      invariant StrictlySorted(kept)
      invariant Elems(kept) == Elems(sortedLayerNames[..i]) - {"all"}
      invariant forall a, b :: 0 <= a < |kept| && i <= b < |sortedLayerNames| ==> Below(kept[a], sortedLayerNames[b])
      invariant forall n :: n in kept ==> n in cfg.layerDataByName
      invariant |layerData| == |kept|
      invariant forall k :: 0 <= k < |kept| ==> layerData[k] == cfg.layerDataByName[kept[k]]
    {
      var layerName := sortedLayerNames[i];
      assert sortedLayerNames[..i + 1] == sortedLayerNames[..i] + [layerName];
      ElemsSnoc(sortedLayerNames[..i], layerName);
      if layerName == "all" {
        continue;
      }
      if layerName !in cfg.layerDataByName {
        assert layerName in names;
        return None;
      }
      StrictSnoc(kept, layerName);
      ElemsSnoc(kept, layerName);
      kept := kept + [layerName];
      layerData := layerData + [cfg.layerDataByName[layerName]];
    }
    assert sortedLayerNames[..|sortedLayerNames|] == sortedLayerNames;
    StrictlySortedUnique(kept, SortedSeq(names));
    assert layerData == LookupAll(kept, cfg.layerDataByName);
    return Some(layerData);
  }

  function LayerNames(ds: seq<LayerDatum>): seq<string>
  {
    seq(|ds|, i requires 0 <= i < |ds| => ds[i].name)
  }

  /** `all` on its own resolves to every layer of the registry, in ascending name order. */
  lemma ResolveAllIsAllLayers(cfg: LayerConfig)
    requires cfg.Valid()
    ensures ResolveLayerSpec("all", cfg) == Some(cfg.allLayers)
    ensures LayerNames(cfg.allLayers) == cfg.allLayerNames && Ordered(LayerNames(cfg.allLayers))
  {
  }

  /**
   * Any other spec resolves to the layers it names, `all` standing for every
   * layer, each once and in strictly ascending name order.
   */
  lemma ResolvedLayersSorted(layerSpec: string, cfg: LayerConfig)
    requires cfg.Valid() && layerSpec != "all"
    requires ResolveLayerSpec(layerSpec, cfg).Some?
    ensures var names := LayerNames(ResolveLayerSpec(layerSpec, cfg).value);
      && StrictlySorted(names)
      && Elems(names) == RequestedNames(Split(layerSpec, ','), cfg) - {"all"}
  {
    var requested := RequestedNames(Split(layerSpec, ','), cfg) - {"all"};
    var sorted := SortedSeq(requested);
    assert LayerNames(ResolveLayerSpec(layerSpec, cfg).value) == sorted;
  }

  /** With `all` among the tokens, every registered layer is served. */
  lemma AllTokenCoversRegistry(tokens: seq<string>, cfg: LayerConfig)
    requires cfg.Valid() && "all" in tokens
    ensures Elems(cfg.allLayerNames) <= RequestedNames(tokens, cfg)
  {
    forall n | n in cfg.allLayerNames
      ensures n in AllNames(cfg)
    {
      var i :| 0 <= i < |cfg.allLayerNames| && cfg.allLayerNames[i] == n;
      assert cfg.allLayers[i].name == n;
    }
  }

  /** One unknown name rejects the whole spec, even next to `all`. */
  lemma ResolveRejectsUnknown(layerSpec: string, cfg: LayerConfig, unknown: string)
    requires layerSpec != "all"
    requires unknown in Split(layerSpec, ',') && unknown != "all"
    requires unknown !in cfg.layerDataByName
    ensures ResolveLayerSpec(layerSpec, cfg) == None
  {
  }

  /** Only the set of tokens matters: their order and repetition do not. */
  lemma ResolveIgnoresTokenOrder(spec1: string, spec2: string, cfg: LayerConfig)
    requires spec1 != "all" && spec2 != "all"
    requires Elems(Split(spec1, ',')) == Elems(Split(spec2, ','))
    ensures ResolveLayerSpec(spec1, cfg) == ResolveLayerSpec(spec2, cfg)
  {
    var tokens1, tokens2 := Split(spec1, ','), Split(spec2, ',');
    assert ("all" in tokens1) == ("all" in Elems(tokens1));
    assert ("all" in tokens2) == ("all" in Elems(tokens2));
    assert RequestedNames(tokens1, cfg) == RequestedNames(tokens2, cfg);
  }
}

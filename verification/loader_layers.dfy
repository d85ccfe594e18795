/**
 * The loader as a fold. Every inheritance step merges one loaded layer over
 * what came before, so the layers can be named apart from the merge: the
 * `inherit_from` files that exist, in list order, then the gem files that
 * were found, in table order. The last layer to set a key decides it.
 */
module LoaderLayers {
  import opened Common
  import opened ConfigValue
  import opened ConfigLoader

  /** Merges each layer over the result so far, first to last. */
  function Fold(acc: Entries, layers: seq<Entries>): (r: Entries)
    ensures UniqueKeys(acc) && AllUnique(layers) ==> UniqueKeys(r)
    decreases |layers|
  {
    if |layers| == 0 then acc else Fold(MergeConfigs(acc, layers[0]), layers[1..])
  }

  predicate AllUnique(layers: seq<Entries>) {
    forall i :: 0 <= i < |layers| ==> UniqueKeys(layers[i])
  }

  /** The loader state after folding a list of layers onto `acc`. */
  function Folded(acc: Entries, r: Loaded<seq<Entries>>): Loaded<Entries> {
    match r
    case Err(e) => Err(e)
    case Ok((layers, ld)) => Ok((Fold(acc, layers), ld))
  }

  /** A layer that sets `k` to a non-map value decides it. */
  lemma LayerSets(base: Entries, over: Entries, k: string, v: Value)
    requires UniqueKeys(over) && !IsInheritKey(k) && Lookup(over, k) == Some(v) && !v.VMap?
    ensures Lookup(MergeConfigs(base, over), k) == Some(v)
  {
    MergeConfigsLookup(base, over, k);
  }

  /** A layer that does not mention `k` passes it through. */
  lemma LayerSkips(base: Entries, over: Entries, k: string)
    requires UniqueKeys(over) && Lookup(over, k).None?
    ensures Lookup(MergeConfigs(base, over), k) == Lookup(base, k)
  {
    MergeConfigsLookup(base, over, k);
  }

  // ---------------------------------------------------------------------------
  // The layers each loop merges

  /** The configurations the `inherit_from` loop merges: one per existing file, in list order. */
  function FileLayers(st: Store, files: seq<Value>, dir: string, ld: Loader): (r: Loaded<seq<Entries>>)
    ensures r.Ok? ==> Grows(st, ld, r.value.1) && |r.value.0| <= |files|
    ensures r.Ok? && WellFormed(st) ==> AllUnique(r.value.0)
    decreases Unvisited(st, ld.visited), |files|
  {
    if |files| == 0 then Ok(([], ld))
    else if !files[0].VStr? then Raise(NotAPath("inherit_from"), ld)
    else
      var p := st.expand(files[0].str, dir);
      if p !in st.docs then FileLayers(st, files[1..], dir, ld)
      else
        match LoadFile(st, p, ld)
        case Err(e) => Err(e)
        case Ok((layer, ld1)) =>
          match FileLayers(st, files[1..], dir, ld1)
          case Err(e) => Err(e)
          case Ok((rest, ld2)) => Ok(([layer] + rest, ld2))
  }

  /** The configurations the `inherit_gem` loop merges: one per gem file found, in table order. */
  function GemLayers(st: Store, gems: seq<GemPair>, ld: Loader): (r: Loaded<seq<Entries>>)
    ensures r.Ok? ==> Grows(st, ld, r.value.1) && |r.value.0| <= |gems|
    ensures r.Ok? && WellFormed(st) ==> AllUnique(r.value.0)
    decreases Unvisited(st, ld.visited), |gems|
  {
    if |gems| == 0 then Ok(([], ld))
    else
      match LoadGem(st, gems[0].0, gems[0].1, ld)
      case Err(e) => Err(e)
      case Ok((found, ld1)) =>
        match GemLayers(st, gems[1..], ld1)
        case Err(e) => Err(e)
        case Ok((rest, ld2)) => Ok(((if found.Some? then [found.value] else []) + rest, ld2))
  }

  /** The layers `inherit_from` contributes to a document. */
  function FromFileLayers(st: Store, yaml: Entries, dir: string, ld: Loader): Loaded<seq<Entries>> {
    if Truthy(Get(yaml, "inherit_from")) then FileLayers(st, PathList(Get(yaml, "inherit_from")), dir, ld)
    else Ok(([], ld))
  }

  /** Every layer a document inherits: the file layers, then the gem layers. */
  function InheritedLayers(st: Store, yaml: Entries, dir: string, ld: Loader): (r: Loaded<seq<Entries>>)
    ensures r.Ok? && WellFormed(st) ==> AllUnique(r.value.0)
  {
    match FromFileLayers(st, yaml, dir, ld)
    case Err(e) => Err(e)
    case Ok((fs, ld1)) =>
      var gems := Get(yaml, "inherit_gem");
      if !Truthy(gems) then Ok((fs, ld1))
      else
        match GemPairs(gems)
        case Err(e) => Raise(e, ld1)
        case Ok(pairs) =>
          match GemLayers(st, pairs, ld1)
          case Err(e) => Err(e)
          case Ok((gs, ld2)) =>
            assert forall i :: 0 <= i < |fs + gs| ==> (fs + gs)[i] == if i < |fs| then fs[i] else gs[i - |fs|];
            Ok((fs + gs, ld2))
  }

  // ---------------------------------------------------------------------------
  // Folding

  lemma {:induction false} FoldAppend(acc: Entries, a: seq<Entries>, b: seq<Entries>)
    ensures Fold(acc, a + b) == Fold(Fold(acc, a), b)
    decreases |a|
  {
    if |a| > 0 {
      assert (a + b)[0] == a[0];
      assert (a + b)[1..] == a[1..] + b;
      FoldAppend(MergeConfigs(acc, a[0]), a[1..], b);
    } else {
      assert a + b == b;
    }
  }

  /** Layers that do not mention `k` leave it as it was. */
  lemma {:induction false} FoldUntouched(acc: Entries, layers: seq<Entries>, k: string)
    requires AllUnique(layers)
    requires forall i :: 0 <= i < |layers| ==> k !in Keys(layers[i])
    ensures Lookup(Fold(acc, layers), k) == Lookup(acc, k)
    decreases |layers|
  {
    if |layers| > 0 {
      LayerSkips(acc, layers[0], k);
      assert forall i :: 0 <= i < |layers| - 1 ==> layers[1..][i] == layers[i + 1];
      FoldUntouched(MergeConfigs(acc, layers[0]), layers[1..], k);
    }
  }

  /**
   * The last layer that sets a non-inheritance key to a non-map value decides
   * it, whatever the starting map and the earlier layers held.
   */
  lemma {:induction false} FoldLastSetterWins(acc: Entries, layers: seq<Entries>, j: nat, k: string, v: Value)
    requires AllUnique(layers) && j < |layers|
    requires !IsInheritKey(k) && !v.VMap? && Lookup(layers[j], k) == Some(v)
    requires forall i :: j < i < |layers| ==> k !in Keys(layers[i])
    ensures Lookup(Fold(acc, layers), k) == Some(v)
    decreases j
  {
    assert forall i :: 0 <= i < |layers| - 1 ==> layers[1..][i] == layers[i + 1];
    if j == 0 {
      LayerSets(acc, layers[0], k, v);
      FoldUntouched(MergeConfigs(acc, layers[0]), layers[1..], k);
    } else {
      FoldLastSetterWins(MergeConfigs(acc, layers[0]), layers[1..], j - 1, k, v);
    }
  }

  // ---------------------------------------------------------------------------
  // The loops are folds of their layers

  /** The `inherit_from` loop merges exactly its file layers onto whatever it started from. */
  lemma {:induction false} FileListFold(st: Store, files: seq<Value>, dir: string, acc: Entries, ld: Loader)
    ensures LoadFileList(st, files, dir, acc, ld) == Folded(acc, FileLayers(st, files, dir, ld))
    decreases |files|
  {
    if |files| > 0 && files[0].VStr? {
      var p := st.expand(files[0].str, dir);
      if p !in st.docs {
        FileListFold(st, files[1..], dir, acc, ld);
      } else if LoadFile(st, p, ld).Ok? {
        var (layer, ld1) := LoadFile(st, p, ld).value;
        FileListFold(st, files[1..], dir, MergeConfigs(acc, layer), ld1);
        var rest := FileLayers(st, files[1..], dir, ld1);
        if rest.Ok? {
          assert ([layer] + rest.value.0)[1..] == rest.value.0;
        }
      }
    }
  }

  /** The `inherit_gem` loop merges exactly its gem layers onto whatever it started from. */
  lemma {:induction false} GemListFold(st: Store, gems: seq<GemPair>, acc: Entries, ld: Loader)
    ensures LoadGemList(st, gems, acc, ld) == Folded(acc, GemLayers(st, gems, ld))
    decreases |gems|
  {
    if |gems| > 0 && LoadGem(st, gems[0].0, gems[0].1, ld).Ok? {
      var (found, ld1) := LoadGem(st, gems[0].0, gems[0].1, ld).value;
      var acc1 := if found.Some? then MergeConfigs(acc, found.value) else acc;
      GemListFold(st, gems[1..], acc1, ld1);
      var rest := GemLayers(st, gems[1..], ld1);
      if rest.Ok? {
        var head := if found.Some? then [found.value] else [];
        FoldAppend(acc, head, rest.value.0);
        if found.Some? {
          assert head[1..] == [];
        }
      }
    }
  }

  /** `load_inherited_configs` merges exactly the inherited layers, in order, onto an empty map. */
  lemma InheritedFold(st: Store, yaml: Entries, dir: string, ld: Loader)
    ensures LoadInherited(st, yaml, dir, ld) == Folded([], InheritedLayers(st, yaml, dir, ld))
  {
    if Truthy(Get(yaml, "inherit_from")) {
      FileListFold(st, PathList(Get(yaml, "inherit_from")), dir, [], ld);
    }
    var fs := FromFileLayers(st, yaml, dir, ld);
    var gems := Get(yaml, "inherit_gem");
    if fs.Ok? && Truthy(gems) && GemPairs(gems).Ok? {
      var (layers, ld1) := fs.value;
      GemListFold(st, GemPairs(gems).value, Fold([], layers), ld1);
      var gs := GemLayers(st, GemPairs(gems).value, ld1);
      if gs.Ok? {
        FoldAppend([], layers, gs.value.0);
      }
    }
  }

  // ---------------------------------------------------------------------------
  // Precedence

  /**
   * In the `inherit_from` loop, an existing file that sets a key to a non-map
   * value decides it unless a later file sets the key again, whatever the
   * configuration built before the loop.
   */
  lemma LaterFileWins(st: Store, files: seq<Value>, dir: string, acc: Entries, ld: Loader, j: nat, k: string, v: Value)
    requires WellFormed(st) && FileLayers(st, files, dir, ld).Ok?
    requires var layers := FileLayers(st, files, dir, ld).value.0;
      j < |layers| && Lookup(layers[j], k) == Some(v) &&
      forall i :: j < i < |layers| ==> k !in Keys(layers[i])
    requires !IsInheritKey(k) && !v.VMap?
    ensures LoadFileList(st, files, dir, acc, ld).Ok?
    ensures Lookup(LoadFileList(st, files, dir, acc, ld).value.0, k) == Some(v)
  {
    FileListFold(st, files, dir, acc, ld);
    FoldLastSetterWins(acc, FileLayers(st, files, dir, ld).value.0, j, k, v);
  }

  /**
   * In the `inherit_gem` loop, a gem file found that sets a key to a non-map
   * value decides it unless a later gem file sets the key again, whatever the
   * `inherit_from` files set before.
   */
  lemma LaterGemWins(st: Store, gems: seq<GemPair>, acc: Entries, ld: Loader, j: nat, k: string, v: Value)
    requires WellFormed(st) && GemLayers(st, gems, ld).Ok?
    requires var layers := GemLayers(st, gems, ld).value.0;
      j < |layers| && Lookup(layers[j], k) == Some(v) &&
      forall i :: j < i < |layers| ==> k !in Keys(layers[i])
    requires !IsInheritKey(k) && !v.VMap?
    ensures LoadGemList(st, gems, acc, ld).Ok?
    ensures Lookup(LoadGemList(st, gems, acc, ld).value.0, k) == Some(v)
  {
    GemListFold(st, gems, acc, ld);
    FoldLastSetterWins(acc, GemLayers(st, gems, ld).value.0, j, k, v);
  }

  /**
   * A gem layer beats every `inherit_from` file: when the gem file at
   * position `j` of the gem layers sets `k` to a non-map value and no later
   * gem file sets `k`, the inherited configuration holds that value,
   * whatever the files set.
   */
  lemma GemsBeatFiles(st: Store, yaml: Entries, dir: string, ld: Loader, j: nat, k: string, v: Value)
    requires WellFormed(st) && FromFileLayers(st, yaml, dir, ld).Ok?
    requires Truthy(Get(yaml, "inherit_gem")) && GemPairs(Get(yaml, "inherit_gem")).Ok?
    requires var ld1 := FromFileLayers(st, yaml, dir, ld).value.1;
      var gs := GemLayers(st, GemPairs(Get(yaml, "inherit_gem")).value, ld1);
      gs.Ok? && j < |gs.value.0| && Lookup(gs.value.0[j], k) == Some(v) &&
      forall i :: j < i < |gs.value.0| ==> k !in Keys(gs.value.0[i])
    requires !IsInheritKey(k) && !v.VMap?
    ensures LoadInherited(st, yaml, dir, ld).Ok?
    ensures Lookup(LoadInherited(st, yaml, dir, ld).value.0, k) == Some(v)
  {
    var (fs, ld1) := FromFileLayers(st, yaml, dir, ld).value;
    var gs := GemLayers(st, GemPairs(Get(yaml, "inherit_gem")).value, ld1).value.0;
    InheritedFold(st, yaml, dir, ld);
    assert InheritedLayers(st, yaml, dir, ld).value.0 == fs + gs;
    FoldAppend([], fs, gs);
    FoldLastSetterWins(Fold([], fs), gs, j, k, v);
  }

  /**
   * Whatever layer a document inherits last sets a key to a non-map value
   * decides the inherited configuration's value for it.
   */
  lemma InheritedLayerWins(st: Store, yaml: Entries, dir: string, ld: Loader, j: nat, k: string, v: Value)
    requires WellFormed(st) && InheritedLayers(st, yaml, dir, ld).Ok?
    requires var layers := InheritedLayers(st, yaml, dir, ld).value.0;
      j < |layers| && Lookup(layers[j], k) == Some(v) &&
      forall i :: j < i < |layers| ==> k !in Keys(layers[i])
    requires !IsInheritKey(k) && !v.VMap?
    ensures LoadInherited(st, yaml, dir, ld).Ok?
    ensures Lookup(LoadInherited(st, yaml, dir, ld).value.0, k) == Some(v)
  {
    InheritedFold(st, yaml, dir, ld);
    FoldLastSetterWins([], InheritedLayers(st, yaml, dir, ld).value.0, j, k, v);
  }

  /** A key the document itself does not set keeps its inherited value. */
  lemma InheritedUnlessOwn(st: Store, p: string, ld: Loader, k: string)
    requires WellFormed(st) && LoadFile(st, p, ld).Ok?
    requires k !in Keys(st.docs[p].GetOr([]))
    ensures var yaml := st.docs[p].GetOr([]);
      var inherited := LoadInherited(st, yaml, st.dirname(p), ld.(visited := ld.visited + [p]));
      inherited.Ok? && Lookup(LoadFile(st, p, ld).value.0, k) == Lookup(inherited.value.0, k)
  {
    var yaml := st.docs[p].GetOr([]);
    assert UniqueKeys(yaml) by {
      if st.docs[p].None? {
        assert Keys(yaml) == [];
      }
    }
    var inherited := LoadInherited(st, yaml, st.dirname(p), ld.(visited := ld.visited + [p]));
    LayerSkips(inherited.value.0, yaml, k);
  }
}

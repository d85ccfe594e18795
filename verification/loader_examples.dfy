/**
 * The precedence the loader gives the layers of a configuration: the
 * `inherit_from` files in list order, then the `inherit_gem` files, then the
 * document's own keys, each merged over what came before.
 */
module LoaderExamples {
  import opened Common
  import opened ConfigValue
  import opened ConfigLoader
  import opened LoaderLayers

  /** A document without inheritance keys loads as itself, merged onto nothing. */
  lemma PlainFile(st: Store, p: string, y: Entries, ld: Loader)
    requires p in st.docs && st.docs[p] == Some(y) && p !in ld.visited
    requires !Truthy(Get(y, "inherit_from")) && !Truthy(Get(y, "inherit_gem"))
    ensures LoadFile(st, p, ld) == Ok((MergeConfigs([], y), ld.(visited := ld.visited + [p])))
  {
    var ld1 := ld.(visited := ld.visited + [p]);
    assert LoadInherited(st, y, st.dirname(p), ld1) == Ok(([], ld1));
  }

  function DocB(): Entries { [("K", VInt(1)), ("L", VInt(1)), ("M", VInt(1))] }
  function DocC(): Entries { [("K", VInt(2)), ("L", VInt(2))] }
  function DocX(): Entries { [("L", VInt(3)), ("N", VInt(3))] }
  function DocA(): Entries {
    [ ("inherit_from", VArr([VStr("b.yml"), VStr("c.yml")])),
      ("inherit_gem", VMap([("g", VStr("x.yml"))])),
      ("N", VInt(4)) ]
  }

  /** `a` inherits from `b` then `c`, and from the file `x.yml` of gem `g`. */
  function LayeredStore(): Store {
    Store(map["/a.yml" := Some(DocA()), "/b.yml" := Some(DocB()), "/c.yml" := Some(DocC()),
              "/gems/g/x.yml" := Some(DocX())],
          map["g" := "/gems/g/"],
          (f: string, dir: string) => dir + f, (p: string) => "/", (d: string, f: string) => d + f)
  }

  lemma LayeredFiles()
    ensures LoadFileList(LayeredStore(), [VStr("b.yml"), VStr("c.yml")], "/", [], Loader(["/a.yml"], [])) ==
      Ok((MergeConfigs(MergeConfigs([], MergeConfigs([], DocB())), MergeConfigs([], DocC())),
          Loader(["/a.yml", "/b.yml", "/c.yml"], [])))
  {
    var st := LayeredStore();
    var ld0 := Loader(["/a.yml"], []);
    var ld1 := Loader(["/a.yml", "/b.yml"], []);
    var ld2 := Loader(["/a.yml", "/b.yml", "/c.yml"], []);
    assert st.expand("b.yml", "/") == "/b.yml" && st.expand("c.yml", "/") == "/c.yml";
    assert ld0.(visited := ld0.visited + ["/b.yml"]) == ld1;
    assert ld1.(visited := ld1.visited + ["/c.yml"]) == ld2;
    assert "/b.yml" !in ld0.visited && "/c.yml" !in ld1.visited;
    assert Get(DocB(), "inherit_from") == VNull && Get(DocB(), "inherit_gem") == VNull;
    assert Get(DocC(), "inherit_from") == VNull && Get(DocC(), "inherit_gem") == VNull;
    PlainFile(st, "/b.yml", DocB(), ld0);
    PlainFile(st, "/c.yml", DocC(), ld1);
    var cb := MergeConfigs([], DocB());
    var cc := MergeConfigs([], DocC());
    assert LoadFileList(st, [VStr("b.yml"), VStr("c.yml")], "/", [], ld0) ==
      LoadFileList(st, [VStr("c.yml")], "/", MergeConfigs([], cb), ld1);
    assert LoadFileList(st, [VStr("c.yml")], "/", MergeConfigs([], cb), ld1) ==
      LoadFileList(st, [], "/", MergeConfigs(MergeConfigs([], cb), cc), ld2);
  }

  lemma LayeredGems(acc: Entries)
    ensures LoadGemList(LayeredStore(), [(VStr("g"), VStr("x.yml"))], acc, Loader(["/a.yml", "/b.yml", "/c.yml"], [])) ==
      Ok((MergeConfigs(acc, MergeConfigs([], DocX())), Loader(["/a.yml", "/b.yml", "/c.yml", "/gems/g/x.yml"], [])))
  {
    var st := LayeredStore();
    var ld2 := Loader(["/a.yml", "/b.yml", "/c.yml"], []);
    var ld3 := Loader(["/a.yml", "/b.yml", "/c.yml", "/gems/g/x.yml"], []);
    assert st.joinPath(st.gems["g"], "x.yml") == "/gems/g/x.yml";
    assert ld2.(visited := ld2.visited + ["/gems/g/x.yml"]) == ld3;
    assert "/gems/g/x.yml" !in ld2.visited;
    assert Get(DocX(), "inherit_from") == VNull && Get(DocX(), "inherit_gem") == VNull;
    PlainFile(st, "/gems/g/x.yml", DocX(), ld2);
    assert LoadGem(st, VStr("g"), VStr("x.yml"), ld2) == Ok((Some(MergeConfigs([], DocX())), ld3));
  }

  /** The `inherit_from` list of `a`, read as paths. */
  lemma LayeredPaths()
    ensures PathList(Get(DocA(), "inherit_from")) == [VStr("b.yml"), VStr("c.yml")]
  {
    assert Get(DocA(), "inherit_from") == VArr([VStr("b.yml"), VStr("c.yml")]);
  }

  function FromFiles(): Entries {
    MergeConfigs(MergeConfigs([], MergeConfigs([], DocB())), MergeConfigs([], DocC()))
  }

  function FromGems(): Entries {
    MergeConfigs(FromFiles(), MergeConfigs([], DocX()))
  }

  /** The layers of `a` before its own keys: the files, then the gem over them. */
  lemma LayeredInherited()
    ensures LoadInherited(LayeredStore(), DocA(), "/", Loader(["/a.yml"], [])) ==
      Ok((FromGems(), Loader(["/a.yml", "/b.yml", "/c.yml", "/gems/g/x.yml"], [])))
  {
    var st := LayeredStore();
    assert Truthy(Get(DocA(), "inherit_from"));
    assert Get(DocA(), "inherit_gem") == VMap([("g", VStr("x.yml"))]);
    var pairs := GemPairs(VMap([("g", VStr("x.yml"))]));
    assert pairs.Ok? && |pairs.value| == 1 && pairs.value[0] == (VStr("g"), VStr("x.yml"));
    assert pairs.value == [(VStr("g"), VStr("x.yml"))];
    LayeredPaths();
    LayeredFiles();
    LayeredGems(FromFiles());
  }

  lemma LayeredLoadFile()
    ensures LoadFile(LayeredStore(), "/a.yml", Loader([], [])) ==
      Ok((MergeConfigs(FromGems(), DocA()), Loader(["/a.yml", "/b.yml", "/c.yml", "/gems/g/x.yml"], [])))
  {
    var st := LayeredStore();
    assert "/a.yml" in st.docs && st.docs["/a.yml"] == Some(DocA());
    assert st.dirname("/a.yml") == "/";
    assert Loader([], []).(visited := [] + ["/a.yml"]) == Loader(["/a.yml"], []);
    LayeredInherited();
  }

  lemma LayeredLoad()
    ensures Load(LayeredStore(), "/a.yml") == Ok(MergeConfigs(FromGems(), DocA()))
  {
    LayeredLoadFile();
  }

  lemma DocsUnique()
    ensures UniqueKeys(DocA()) && UniqueKeys(DocB()) && UniqueKeys(DocC()) && UniqueKeys(DocX())
  {
    assert Keys(DocA()) == ["inherit_from", "inherit_gem", "N"];
    assert Keys(DocB()) == ["K", "L", "M"];
    assert Keys(DocC()) == ["K", "L"];
    assert Keys(DocX()) == ["L", "N"];
  }

  lemma LayersUnique()
    ensures UniqueKeys(MergeConfigs([], DocB())) && UniqueKeys(MergeConfigs([], DocC()))
    ensures UniqueKeys(MergeConfigs([], DocX()))
  {
    DocsUnique();
  }

  lemma PlainKeys()
    ensures !IsInheritKey("K") && !IsInheritKey("L") && !IsInheritKey("M") && !IsInheritKey("N")
  {
  }

  /** The keys each document sets, read one at a time. */
  lemma DocLookups()
    ensures Lookup(DocA(), "K").None? && Lookup(DocA(), "L").None? && Lookup(DocA(), "M").None?
    ensures Lookup(DocA(), "N") == Some(VInt(4))
    ensures Lookup(DocB(), "M") == Some(VInt(1))
    ensures Lookup(DocC(), "K") == Some(VInt(2)) && Lookup(DocC(), "M").None?
    ensures Lookup(DocX(), "L") == Some(VInt(3)) && Lookup(DocX(), "K").None? && Lookup(DocX(), "M").None?
  {
    assert Keys(DocA()) == ["inherit_from", "inherit_gem", "N"];
    assert Keys(DocC()) == ["K", "L"];
    assert Keys(DocX()) == ["L", "N"];
  }

  /** `K`: `c` comes after `b` in the list, the gem and `a` leave it alone. */
  lemma LayeredK()
    ensures Lookup(MergeConfigs(FromGems(), DocA()), "K") == Some(VInt(2))
  {
    DocsUnique();
    LayersUnique();
    DocLookups();
    PlainKeys();
    LayerSets([], DocC(), "K", VInt(2));
    LayerSets(MergeConfigs([], MergeConfigs([], DocB())), MergeConfigs([], DocC()), "K", VInt(2));
    LayerSkips([], DocX(), "K");
    LayerSkips(FromFiles(), MergeConfigs([], DocX()), "K");
    LayerSkips(FromGems(), DocA(), "K");
  }

  /** `L`: the gem's file comes after every `inherit_from` file. */
  lemma LayeredL()
    ensures Lookup(MergeConfigs(FromGems(), DocA()), "L") == Some(VInt(3))
  {
    DocsUnique();
    LayersUnique();
    DocLookups();
    PlainKeys();
    LayerSets([], DocX(), "L", VInt(3));
    LayerSets(FromFiles(), MergeConfigs([], DocX()), "L", VInt(3));
    LayerSkips(FromGems(), DocA(), "L");
  }

  /** `M`: only `b` sets it. */
  lemma LayeredM()
    ensures Lookup(MergeConfigs(FromGems(), DocA()), "M") == Some(VInt(1))
  {
    DocsUnique();
    LayersUnique();
    DocLookups();
    PlainKeys();
    var cb := MergeConfigs([], DocB());
    LayerSets([], DocB(), "M", VInt(1));
    LayerSets([], cb, "M", VInt(1));
    LayerSkips([], DocC(), "M");
    LayerSkips(MergeConfigs([], cb), MergeConfigs([], DocC()), "M");
    LayerSkips([], DocX(), "M");
    LayerSkips(FromFiles(), MergeConfigs([], DocX()), "M");
    LayerSkips(FromGems(), DocA(), "M");
  }

  /** `N`: the document's own value comes last. */
  lemma LayeredN()
    ensures Lookup(MergeConfigs(FromGems(), DocA()), "N") == Some(VInt(4))
  {
    DocsUnique();
    DocLookups();
    PlainKeys();
    LayerSets(FromGems(), DocA(), "N", VInt(4));
  }

  /**
   * The later `inherit_from` file beats the earlier one (K), a gem beats
   * every `inherit_from` file (L), a key only one layer sets survives (M), and
   * the document's own keys beat the gem (N).
   */
  lemma InheritancePrecedence()
    ensures Load(LayeredStore(), "/a.yml").Ok?
    ensures Lookup(Load(LayeredStore(), "/a.yml").value, "K") == Some(VInt(2))
    ensures Lookup(Load(LayeredStore(), "/a.yml").value, "L") == Some(VInt(3))
    ensures Lookup(Load(LayeredStore(), "/a.yml").value, "M") == Some(VInt(1))
    ensures Lookup(Load(LayeredStore(), "/a.yml").value, "N") == Some(VInt(4))
  {
    LayeredLoad();
    LayeredK();
    LayeredL();
    LayeredM();
    LayeredN();
  }
}

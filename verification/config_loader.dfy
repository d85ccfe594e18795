/**
 * The configuration loader: the built-in validator tables, the recursive
 * configuration merge, and loading a configuration document together with
 * everything it inherits through `inherit_from` and `inherit_gem`.
 *
 * The file system, YAML parsing and RubyGems are replaced by a `Store`: the
 * parsed documents by path, the installed gems by name, and the three path
 * functions the loader calls.
 */
module ConfigLoader {
  import opened Common
  import opened Text
  import opened ConfigValue

  // ---------------------------------------------------------------------------
  // Built-in tables

  /** Validator departments and their validators, in declaration order. */
  function Departments(): seq<(string, seq<string>)> {
    [ ("Documentation", ["Documentation/UndocumentedObjects",
                         "Documentation/UndocumentedMethodArguments",
                         "Documentation/UndocumentedBooleanMethods"]),
      ("Tags", ["Tags/InvalidTypes", "Tags/Order", "Tags/ApiTags", "Tags/OptionTags"]),
      ("Warnings", ["Warnings/UnknownTag",
                    "Warnings/UnknownDirective",
                    "Warnings/InvalidTagFormat",
                    "Warnings/InvalidDirectiveFormat",
                    "Warnings/DuplicatedParameterName",
                    "Warnings/UnknownParameterName"]),
      ("Semantic", ["Semantic/AbstractMethods"]) ]
  }

  function Flatten(lists: seq<(string, seq<string>)>): seq<string> {
    if |lists| == 0 then [] else lists[0].1 + Flatten(lists[1..])
  }

  /** Every validator name: the department lists concatenated in order. */
  function AllValidators(): seq<string> {
    Flatten(Departments())
  }

  /** Every validator of a department is named `"<Department>/..."`. */
  predicate PrefixedByDepartment(lists: seq<(string, seq<string>)>) {
    forall d, n :: 0 <= d < |lists| && 0 <= n < |lists[d].1| ==>
      StartsWith(lists[d].1[n], lists[d].0 + "/")
  }

  /** The concatenated list, written out. */
  lemma AllValidatorsList()
    ensures AllValidators() ==
      [ "Documentation/UndocumentedObjects",
        "Documentation/UndocumentedMethodArguments",
        "Documentation/UndocumentedBooleanMethods",
        "Tags/InvalidTypes", "Tags/Order", "Tags/ApiTags", "Tags/OptionTags",
        "Warnings/UnknownTag",
        "Warnings/UnknownDirective",
        "Warnings/InvalidTagFormat",
        "Warnings/InvalidDirectiveFormat",
        "Warnings/DuplicatedParameterName",
        "Warnings/UnknownParameterName",
        "Semantic/AbstractMethods" ]
  {
  }

  /** The built-in validator list: 14 distinct names, each holding a `/`. */
  lemma AllValidatorsShape()
    ensures |AllValidators()| == 14
    ensures Distinct(AllValidators())
    ensures forall i :: 0 <= i < |AllValidators()| ==> '/' in AllValidators()[i]
  {
    AllValidatorsList();
    var all := AllValidators();
    forall i | 0 <= i < |all|
      ensures '/' in all[i]
    {
      assert all[i][|"Tags"|] == '/' || all[i][|"Semantic"|] == '/' || all[i][|"Warnings"|] == '/'
        || all[i][|"Documentation"|] == '/';
    }
  }

  /** The defaults every validator entry starts from. */
  function DefaultValidatorConfig(): Entries {
    [("Enabled", VBool(true)), ("Severity", VNull), ("Exclude", VArr([]))]
  }

  /** The default severity of each department. */
  function DepartmentSeverities(): Entries {
    [ ("Documentation", VStr("warning")), ("Tags", VStr("warning")),
      ("Warnings", VStr("error")), ("Semantic", VStr("warning")) ]
  }

  function Strings(xs: seq<string>): Value {
    VArr(seq(|xs|, i requires 0 <= i < |xs| => VStr(xs[i])))
  }

  function EnabledWith(severity: string): Entries {
    [("Enabled", VBool(true)), ("Severity", VStr(severity))]
  }

  /** Validator-specific defaults. `Tags/ApiTags` is the one opt-in validator. */
  function ValidatorDefaults(): Entries {
    [ ("Tags/Order", VMap(EnabledWith("convention") + [("EnforcedOrder", Strings(DefaultTagsOrder()))])),
      ("Tags/InvalidTypes", VMap(EnabledWith("warning") +
        [("ValidatedTags", Strings(["param", "option", "return", "yieldreturn"])), ("ExtraTypes", VArr([]))])),
      ("Tags/ApiTags", VMap([("Enabled", VBool(false)), ("Severity", VStr("warning")),
        ("AllowedApis", Strings(["public", "private", "internal"]))])),
      ("Tags/OptionTags", VMap(EnabledWith("warning") + [("ParameterNames", Strings(["options", "opts", "kwargs"]))])),
      ("Documentation/UndocumentedObjects", VMap(EnabledWith("warning"))),
      ("Documentation/UndocumentedMethodArguments", VMap(EnabledWith("warning"))),
      ("Documentation/UndocumentedBooleanMethods", VMap(EnabledWith("warning"))),
      ("Warnings/UnknownTag", VMap(EnabledWith("error"))),
      ("Warnings/UnknownDirective", VMap(EnabledWith("error"))),
      ("Warnings/InvalidTagFormat", VMap(EnabledWith("error"))),
      ("Warnings/InvalidDirectiveFormat", VMap(EnabledWith("error"))),
      ("Warnings/DuplicatedParameterName", VMap(EnabledWith("error"))),
      ("Warnings/UnknownParameterName", VMap(EnabledWith("error"))),
      ("Semantic/AbstractMethods", VMap(EnabledWith("warning") +
        [("AllowedImplementations", Strings(["raise NotImplementedError", "raise NotImplementedError, \".+\""]))])) ]
  }

  /** The same table, cut into its department groups. */
  lemma ValidatorDefaultsGroups()
    ensures ValidatorDefaults() == TagsDefaults() + DocumentationDefaults() + WarningsDefaults() + SemanticDefaults()
  {
  }

  function TagsDefaults(): Entries {
    [ ("Tags/Order", VMap(EnabledWith("convention") + [("EnforcedOrder", Strings(DefaultTagsOrder()))])),
      ("Tags/InvalidTypes", VMap(EnabledWith("warning") +
        [("ValidatedTags", Strings(["param", "option", "return", "yieldreturn"])), ("ExtraTypes", VArr([]))])),
      ("Tags/ApiTags", VMap([("Enabled", VBool(false)), ("Severity", VStr("warning")),
        ("AllowedApis", Strings(["public", "private", "internal"]))])),
      ("Tags/OptionTags", VMap(EnabledWith("warning") + [("ParameterNames", Strings(["options", "opts", "kwargs"]))])) ]
  }

  function DocumentationDefaults(): Entries {
    [ ("Documentation/UndocumentedObjects", VMap(EnabledWith("warning"))),
      ("Documentation/UndocumentedMethodArguments", VMap(EnabledWith("warning"))),
      ("Documentation/UndocumentedBooleanMethods", VMap(EnabledWith("warning"))) ]
  }

  function WarningsDefaults(): Entries {
    [ ("Warnings/UnknownTag", VMap(EnabledWith("error"))),
      ("Warnings/UnknownDirective", VMap(EnabledWith("error"))),
      ("Warnings/InvalidTagFormat", VMap(EnabledWith("error"))),
      ("Warnings/InvalidDirectiveFormat", VMap(EnabledWith("error"))),
      ("Warnings/DuplicatedParameterName", VMap(EnabledWith("error"))),
      ("Warnings/UnknownParameterName", VMap(EnabledWith("error"))) ]
  }

  function SemanticDefaults(): Entries {
    [ ("Semantic/AbstractMethods", VMap(EnabledWith("warning") +
        [("AllowedImplementations", Strings(["raise NotImplementedError", "raise NotImplementedError, \".+\""]))])) ]
  }

  /** The conventional YARD tag order, the default of `Tags/Order`. */
  function DefaultTagsOrder(): seq<string> {
    ["param", "option", "yield", "yieldparam", "yieldreturn", "return", "raise", "see", "example", "note", "todo"]
  }

  // ---------------------------------------------------------------------------
  // The configuration merge

  predicate IsInheritKey(k: string) {
    k == "inherit_from" || k == "inherit_gem"
  }

  /** A map with no top-level inheritance key. */
  predicate NoInheritKeys(m: Entries) {
    "inherit_from" !in Keys(m) && "inherit_gem" !in Keys(m)
  }

  /** What a shared key ends up holding: maps merge recursively, anything else is replaced. */
  function MergedValue(prior: Value, v: Value): Value
    decreases v, 1
  {
    if v.VMap? && prior.VMap? then VMap(MergeFrom(prior.entries, v.entries, 0)) else v
  }

  /** Merges `over[i..]` into `base`, skipping the inheritance keys. */
  function MergeFrom(base: Entries, over: Entries, i: nat): (r: Entries)
    requires i <= |over|
    ensures forall k :: k in Keys(base) ==> k in Keys(r)
    ensures UniqueKeys(base) ==> UniqueKeys(r)
    ensures forall k :: IsInheritKey(k) ==> Lookup(r, k) == Lookup(base, k)
    decreases VMap(over), 0, |over| - i
  {
    if i == |over| then base
    else
      var k := over[i].0;
      var v := over[i].1;
      var next := if IsInheritKey(k) then base else Put(base, k, MergedValue(Get(base, k), v));
      assert UniqueKeys(base) ==> UniqueKeys(next) by {
        if UniqueKeys(base) && !IsInheritKey(k) {
          PutUnique(base, k, MergedValue(Get(base, k), v));
        }
      }
      MergeFrom(next, over, i + 1)
  }

  /** `merge_configs(base, override)`. */
  function MergeConfigs(base: Entries, over: Entries): (r: Entries)
    ensures forall k :: k in Keys(base) ==> k in Keys(r)
    ensures UniqueKeys(base) ==> UniqueKeys(r)
    ensures NoInheritKeys(base) ==> NoInheritKeys(r)
  {
    var r := MergeFrom(base, over, 0);
    assert IsInheritKey("inherit_from") && IsInheritKey("inherit_gem");
    r
  }

  /** `k` is the key of some entry of `over` at or after position `i`. */
  predicate KeyFrom(over: Entries, i: nat, k: string) {
    exists j :: i <= j < |over| && over[j].0 == k
  }

  lemma {:induction false} MergeFromLookup(base: Entries, over: Entries, i: nat, k: string)
    requires i <= |over| && UniqueKeys(over)
    ensures Lookup(MergeFrom(base, over, i), k) ==
      if IsInheritKey(k) || !KeyFrom(over, i, k) then Lookup(base, k)
      else Some(MergedValue(Get(base, k), Get(over, k)))
    decreases |over| - i
  {
    if i < |over| {
      var k0 := over[i].0;
      var v := over[i].1;
      var next := if IsInheritKey(k0) then base else Put(base, k0, MergedValue(Get(base, k0), v));
      MergeFromLookup(next, over, i + 1, k);
      if k == k0 {
        assert !KeyFrom(over, i + 1, k) by {
          forall j | i + 1 <= j < |over|
            ensures over[j].0 != k
          {
            assert Keys(over)[i] != Keys(over)[j];
          }
        }
        LookupAt(over, i);
      } else {
        assert KeyFrom(over, i, k) == KeyFrom(over, i + 1, k) by {
          if KeyFrom(over, i, k) {
            var j :| i <= j < |over| && over[j].0 == k;
            assert j != i;
          }
        }
      }
    }
  }

  /**
   * The merge, key by key: the inheritance keys and every key the override
   * does not mention keep the base's value; any other key of the override
   * holds the merged value, so a map merges recursively and anything else,
   * an array included, is replaced by the override's value.
   */
  lemma MergeConfigsLookup(base: Entries, over: Entries, k: string)
    requires UniqueKeys(over)
    ensures Lookup(MergeConfigs(base, over), k) ==
      if IsInheritKey(k) || k !in Keys(over) then Lookup(base, k)
      else Some(MergedValue(Get(base, k), Get(over, k)))
  {
    MergeFromLookup(base, over, 0, k);
    assert KeyFrom(over, 0, k) <==> k in Keys(over) by {
      if k in Keys(over) {
        var j :| 0 <= j < |over| && Keys(over)[j] == k;
        assert over[j].0 == k;
      }
      if KeyFrom(over, 0, k) {
        var j :| 0 <= j < |over| && over[j].0 == k;
        assert Keys(over)[j] == k;
      }
    }
  }

  /** Merging with an empty override gives the base back. */
  lemma MergeConfigsEmpty(base: Entries)
    ensures MergeConfigs(base, []) == base
  {
  }

  // ---------------------------------------------------------------------------
  // Loading with inheritance

  /**
   * What the loader can see. `docs` holds the files that exist, each parsed:
   * `None` is a document YAML reads as `nil` (an empty file). `gems` maps an
   * installed gem to its directory. `expand`, `dirname` and `joinPath` stand
   * for `File.expand_path(file, dir)`, `File.dirname` and `File.join`.
   */
  datatype Store = Store(
    docs: map<string, Option<Entries>>,
    gems: map<string, string>,
    expand: (string, string) -> string,
    dirname: string -> string,
    joinPath: (string, string) -> string)

  /** Documents parsed from YAML have distinct keys. */
  predicate WellFormed(st: Store) {
    forall p :: p in st.docs && st.docs[p].Some? ==> UniqueKeys(st.docs[p].value)
  }

  /** Why loading stops. Every one of these is raised, not rescued. */
  datatype LoadError =
    | Circular(path: string)     // a path loaded a second time
    | NotFound(path: string)     // the top-level path does not exist
    | NotAPath(key: string)      // an inheritance entry that is not a string
    | NotAGemName(name: Value)   // an `inherit_gem` entry whose gem name is not a string
    | NotEnumerable(key: string) // an `inherit_gem` value that has no `each`
  {
    function Message(): string {
      match this
      case Circular(p) => "Circular dependency detected: " + p
      case NotFound(p) => "No such file or directory @ rb_sysopen - " + p
      case NotAPath(k) => "no implicit conversion into String in " + k
      case NotAGemName(_) => "dependency name must be a String"
      case NotEnumerable(k) => "undefined method 'each' in " + k
    }
  }

  /** The loader's own state: every path loaded so far, and the warnings printed. */
  datatype Loader = Loader(visited: seq<string>, warnings: seq<string>)

  /** A raised error, with the warnings printed before it was raised. */
  datatype Failure = Failure(error: LoadError, warnings: seq<string>)

  type Loaded<T> = Result<(T, Loader), Failure>

  /** Raising `e` from the loader state `ld`. */
  function Raise<T>(e: LoadError, ld: Loader): (r: Loaded<T>)
    ensures r.Err? && r.error.error == e && r.error.warnings == ld.warnings
  {
    Err(Failure(e, ld.warnings))
  }

  function GemWarning(name: string): string {
    "Warning: Gem '" + name + "' not found for configuration inheritance"
  }

  /** The existing documents not loaded yet: the measure the loader consumes. */
  function Unvisited(st: Store, visited: seq<string>): set<string> {
    set p | p in st.docs && p !in visited
  }

  lemma UnvisitedShrinks(st: Store, a: seq<string>, b: seq<string>)
    requires a <= b
    ensures Unvisited(st, b) <= Unvisited(st, a)
  {
    forall p | p in st.docs && p !in b
      ensures p !in a
    {
      forall j | 0 <= j < |a|
        ensures a[j] != p
      {
        assert a[j] == b[j];
      }
    }
  }

  /** A loader step that only ever adds to the visited list and to the warnings. */
  predicate Grows(st: Store, ld: Loader, ld': Loader) {
    ld.visited <= ld'.visited && Unvisited(st, ld'.visited) <= Unvisited(st, ld.visited) &&
    ld.warnings <= ld'.warnings
  }

  /** The `[key, value]` pairs of a hash, as `Hash#to_a` gives them. */
  function PairArray(es: Entries): (v: Value)
    ensures v.VArr? && |v.items| == |es|
  {
    VArr(seq(|es|, i requires 0 <= i < |es| => VArr([VStr(es[i].0), es[i].1])))
  }

  /**
   * Ruby `Array(v)` for the value of `inherit_from`: `nil` gives no entries,
   * an array its items, a hash its `[key, value]` pairs, and anything else
   * the one-item list. The entries are not checked here: an entry that is
   * not a string raises only when the loop reaches it.
   */
  function PathList(v: Value): (r: seq<Value>)
    ensures v.VNull? ==> r == []
    ensures v.VArr? ==> r == v.items
    ensures v.VMap? ==> |r| == |v.entries| && forall i :: 0 <= i < |r| ==> r[i] == VArr([VStr(v.entries[i].0), v.entries[i].1])
    ensures !v.VNull? && !v.VArr? && !v.VMap? ==> r == [v]
  {
    match v
    case VNull => []
    case VArr(items) => items
    case VMap(es) => PairArray(es).items
    case _ => [v]
  }

  /** `load_file(path)`. */
  function LoadFile(st: Store, path: string, ld: Loader): (r: Loaded<Entries>)
    ensures r.Ok? ==> path in st.docs && ld.visited + [path] <= r.value.1.visited
    ensures r.Ok? ==> Grows(st, ld, r.value.1)
    ensures r.Err? ==> ld.warnings <= r.error.warnings
    ensures r.Ok? && WellFormed(st) ==> UniqueKeys(r.value.0)
    ensures r.Ok? ==> NoInheritKeys(r.value.0)
    decreases Unvisited(st, ld.visited), 0, 0
  {
    if path in ld.visited then Raise(Circular(path), ld)
    else if path !in st.docs then Raise(NotFound(path), ld)
    else
      var ld1 := ld.(visited := ld.visited + [path]);
      var yaml := st.docs[path].GetOr([]);
      UnvisitedShrinks(st, ld.visited, ld1.visited);
      assert path in Unvisited(st, ld.visited) - Unvisited(st, ld1.visited);
      match LoadInherited(st, yaml, st.dirname(path), ld1)
      case Err(e) => Err(e)
      case Ok((base, ld2)) =>
        Ok((MergeConfigs(base, yaml), ld2))
  }

  /** `load_inherited_configs(yaml, base_dir)`: the `inherit_from` files, then the gems. */
  function LoadInherited(st: Store, yaml: Entries, dir: string, ld: Loader): (r: Loaded<Entries>)
    ensures r.Ok? ==> Grows(st, ld, r.value.1)
    ensures r.Err? ==> ld.warnings <= r.error.warnings
    ensures r.Ok? && WellFormed(st) ==> UniqueKeys(r.value.0)
    ensures r.Ok? ==> NoInheritKeys(r.value.0)
    decreases Unvisited(st, ld.visited), 2, 0
  {
    var fromFiles: Loaded<Entries> :=
      if Truthy(Get(yaml, "inherit_from")) then LoadFileList(st, PathList(Get(yaml, "inherit_from")), dir, [], ld)
      else Ok(([], ld));
    match fromFiles
    case Err(e) => Err(e)
    case Ok((config, ld1)) =>
      var gems := Get(yaml, "inherit_gem");
      if !Truthy(gems) then Ok((config, ld1))
      else
        match GemPairs(gems)
        case Err(e) => Raise(e, ld1)
        case Ok(pairs) => LoadGemList(st, pairs, config, ld1)
  }

  /**
   * The `inherit_from` loop: each existing file is loaded and merged over
   * what came before. An entry that is not a string raises when the loop
   * reaches it, in `File.expand_path`.
   */
  function LoadFileList(st: Store, files: seq<Value>, dir: string, acc: Entries, ld: Loader): (r: Loaded<Entries>)
    ensures r.Ok? ==> Grows(st, ld, r.value.1)
    ensures r.Err? ==> ld.warnings <= r.error.warnings
    ensures r.Ok? && WellFormed(st) && UniqueKeys(acc) ==> UniqueKeys(r.value.0)
    ensures r.Ok? && NoInheritKeys(acc) ==> NoInheritKeys(r.value.0)
    decreases Unvisited(st, ld.visited), 1, |files|
  {
    if |files| == 0 then Ok((acc, ld))
    else if !files[0].VStr? then Raise(NotAPath("inherit_from"), ld)
    else
      var p := st.expand(files[0].str, dir);
      if p !in st.docs then LoadFileList(st, files[1..], dir, acc, ld)
      else
        match LoadFile(st, p, ld)
        case Err(e) => Err(e)
        case Ok((inherited, ld1)) =>
          LoadFileList(st, files[1..], dir, MergeConfigs(acc, inherited), ld1)
  }

  /** What a block with parameters `|gem_name, gem_file|` receives for one item. */
  type GemPair = (Value, Value)

  /**
   * One item of an array given to a two-parameter block: an array is spread
   * over the parameters, missing ones being `nil`; anything else is the first
   * parameter and the second is `nil`.
   */
  function BlockPair(item: Value): (r: GemPair)
    ensures item.VArr? && |item.items| >= 2 ==> r == (item.items[0], item.items[1])
    ensures !item.VArr? ==> r == (item, VNull)
  {
    match item
    case VArr(a) => (if |a| > 0 then a[0] else VNull, if |a| > 1 then a[1] else VNull)
    case _ => (item, VNull)
  }

  /**
   * The pairs `yaml['inherit_gem'].each` yields: a hash yields its entries,
   * an array its items spread as a block does, and any other truthy value has
   * no `each`.
   */
  function GemPairs(v: Value): (r: Result<seq<GemPair>, LoadError>)
    ensures v.VMap? ==>
      (r.Ok? && |r.value| == |v.entries| &&
       forall i :: 0 <= i < |v.entries| ==> r.value[i] == (VStr(v.entries[i].0), v.entries[i].1))
    ensures v.VArr? ==>
      (r.Ok? && |r.value| == |v.items| &&
       forall i :: 0 <= i < |v.items| ==> r.value[i] == BlockPair(v.items[i]))
    ensures r.Err? <==> !v.VMap? && !v.VArr?
  {
    match v
    case VMap(es) => Ok(seq(|es|, i requires 0 <= i < |es| => (VStr(es[i].0), es[i].1)))
    case VArr(items) => Ok(seq(|items|, i requires 0 <= i < |items| => BlockPair(items[i])))
    case _ => Err(NotEnumerable("inherit_gem"))
  }

  /**
   * The path `File.join` makes of one argument: a string is used as it is,
   * an array has its items joined in order, nested arrays included, and
   * anything else is refused with a TypeError, written `None`.
   */
  function JoinArg(st: Store, v: Value): (r: Option<string>)
    ensures v.VStr? ==> r == Some(v.str)
    ensures !v.VStr? && !v.VArr? ==> r.None?
    decreases v, 1
  {
    match v
    case VStr(s) => Some(s)
    case VArr(items) => JoinItems(st, items, 0, "")
    case _ => None
  }

  /** The items of an array argument from `i` on, joined onto the path `acc` built from the ones before. */
  function JoinItems(st: Store, items: seq<Value>, i: nat, acc: string): (r: Option<string>)
    requires i <= |items|
    decreases VArr(items), 0, |items| - i
  {
    if i == |items| then Some(acc)
    else
      assert items[i] in items;
      match JoinArg(st, items[i])
      case None => None
      case Some(s) => JoinItems(st, items, i + 1, if i == 0 then s else st.joinPath(acc, s))
  }

  /**
   * `load_gem_config(name, file)`: `None` for an unknown gem (with a warning)
   * or a missing file. A name that is not a string is refused by the gem
   * lookup itself, and a file `File.join` cannot use by the path join.
   */
  function LoadGem(st: Store, name: Value, file: Value, ld: Loader): (r: Loaded<Option<Entries>>)
    ensures !name.VStr? ==> r == Err(Failure(NotAGemName(name), ld.warnings))
    ensures name.VStr? && name.str !in st.gems ==> r == Ok((None, ld.(warnings := ld.warnings + [GemWarning(name.str)])))
    ensures name.VStr? && name.str in st.gems && JoinArg(st, file).None? ==>
      r == Err(Failure(NotAPath("inherit_gem"), ld.warnings))
    ensures (name.VStr? && name.str in st.gems && JoinArg(st, file).Some? &&
             st.joinPath(st.gems[name.str], JoinArg(st, file).value) !in st.docs) ==> r == Ok((None, ld))
    ensures r.Ok? ==> Grows(st, ld, r.value.1)
    ensures r.Err? ==> ld.warnings <= r.error.warnings
    ensures r.Ok? && WellFormed(st) && r.value.0.Some? ==> UniqueKeys(r.value.0.value)
    ensures r.Ok? && r.value.0.Some? ==> NoInheritKeys(r.value.0.value)
    decreases Unvisited(st, ld.visited), 0, 1
  {
    if !name.VStr? then Raise(NotAGemName(name), ld)
    else if name.str !in st.gems then Ok((None, ld.(warnings := ld.warnings + [GemWarning(name.str)])))
    else
      match JoinArg(st, file)
      case None => Raise(NotAPath("inherit_gem"), ld)
      case Some(f) =>
        var p := st.joinPath(st.gems[name.str], f);
        if p !in st.docs then Ok((None, ld))
        else
          match LoadFile(st, p, ld)
          case Err(e) => Err(e)
          case Ok((c, ld1)) => Ok((Some(c), ld1))
  }

  /** The `inherit_gem` loop, over the yielded pairs in order. */
  function LoadGemList(st: Store, gems: seq<GemPair>, acc: Entries, ld: Loader): (r: Loaded<Entries>)
    ensures r.Ok? ==> Grows(st, ld, r.value.1)
    ensures r.Err? ==> ld.warnings <= r.error.warnings
    ensures r.Ok? && WellFormed(st) && UniqueKeys(acc) ==> UniqueKeys(r.value.0)
    ensures r.Ok? && NoInheritKeys(acc) ==> NoInheritKeys(r.value.0)
    decreases Unvisited(st, ld.visited), 1, |gems|
  {
    if |gems| == 0 then Ok((acc, ld))
    else
      match LoadGem(st, gems[0].0, gems[0].1, ld)
      case Err(e) => Err(e)
      case Ok((found, ld1)) =>
        var acc1 := if found.Some? then MergeConfigs(acc, found.value) else acc;
        LoadGemList(st, gems[1..], acc1, ld1)
  }

  /**
   * `ConfigLoader.load(path)`: a fresh loader run. The warnings printed before
   * an error stay visible in the `Failure` of `LoadFile`.
   */
  function Load(st: Store, path: string): (r: Result<Entries, LoadError>)
    ensures r.Ok? ==> path in st.docs && NoInheritKeys(r.value)
    ensures r.Err? <==> LoadFile(st, path, Loader([], [])).Err?
  {
    match LoadFile(st, path, Loader([], []))
    case Err(f) => Err(f.error)
    case Ok((c, _)) => Ok(c)
  }

  // ---------------------------------------------------------------------------
  // Properties of the loader

  /**
   * The visited list is never popped: once a path has loaded, loading it
   * again later in the same run raises, whether the second request comes
   * from a cycle or from a second parent sharing the same ancestor.
   */
  lemma SecondLoadCircular(st: Store, p: string, ld: Loader, later: Loader)
    requires LoadFile(st, p, ld).Ok?
    requires LoadFile(st, p, ld).value.1.visited <= later.visited
    ensures LoadFile(st, p, later) == Err(Failure(Circular(p), later.warnings))
  {
    var mid := LoadFile(st, p, ld).value.1.visited;
    assert mid[|ld.visited|] == p;
    assert later.visited[|ld.visited|] == p;
  }

  /** The document's own keys beat everything it inherits. */
  lemma OwnKeysWin(st: Store, p: string, ld: Loader, k: string, v: Value)
    requires WellFormed(st) && LoadFile(st, p, ld).Ok?
    requires p in st.docs && st.docs[p].Some? && Lookup(st.docs[p].value, k) == Some(v)
    requires !IsInheritKey(k) && !v.VMap?
    ensures Lookup(LoadFile(st, p, ld).value.0, k) == Some(v)
  {
    var yaml := st.docs[p].value;
    var ld1 := ld.(visited := ld.visited + [p]);
    var base := LoadInherited(st, yaml, st.dirname(p), ld1).value.0;
    assert LoadFile(st, p, ld).value.0 == MergeConfigs(base, yaml);
    MergeConfigsLookup(base, yaml, k);
  }

  /** `inherit_from` files that do not exist contribute nothing and raise nothing. */
  lemma {:induction false} MissingFilesSkipped(st: Store, files: seq<Value>, dir: string, acc: Entries, ld: Loader)
    requires forall i :: 0 <= i < |files| ==> files[i].VStr? && st.expand(files[i].str, dir) !in st.docs
    ensures LoadFileList(st, files, dir, acc, ld) == Ok((acc, ld))
    decreases |files|
  {
    if |files| > 0 {
      MissingFilesSkipped(st, files[1..], dir, acc, ld);
    }
  }

  /** One warning per gem name, in order. */
  function GemWarnings(gems: seq<GemPair>): (ws: seq<string>)
    requires forall i :: 0 <= i < |gems| ==> gems[i].0.VStr?
    ensures |ws| == |gems|
  {
    if |gems| == 0 then [] else [GemWarning(gems[0].0.str)] + GemWarnings(gems[1..])
  }

  /**
   * Gems that are not installed are skipped: each adds one warning, nothing
   * is loaded and the configuration built so far is unchanged.
   */
  lemma {:induction false} UnknownGemsSkipped(st: Store, gems: seq<GemPair>, acc: Entries, ld: Loader)
    requires forall i :: 0 <= i < |gems| ==> gems[i].0.VStr? && gems[i].0.str !in st.gems
    ensures var r := LoadGemList(st, gems, acc, ld);
      r.Ok? && r.value.0 == acc && r.value.1.visited == ld.visited &&
      r.value.1.warnings == ld.warnings + GemWarnings(gems)
    decreases |gems|
  {
    if |gems| > 0 {
      var ld1 := ld.(warnings := ld.warnings + [GemWarning(gems[0].0.str)]);
      UnknownGemStep(st, gems, acc, ld);
      assert forall i :: 0 <= i < |gems[1..]| ==> gems[1..][i] == gems[i + 1];
      UnknownGemsSkipped(st, gems[1..], acc, ld1);
      assert GemWarnings(gems) == [GemWarning(gems[0].0.str)] + GemWarnings(gems[1..]);
      assert ld1.warnings + GemWarnings(gems[1..]) == ld.warnings + GemWarnings(gems);
    } else {
      assert ld.warnings + GemWarnings(gems) == ld.warnings;
      assert LoadGemList(st, gems, acc, ld) == Ok((acc, ld));
    }
  }

  lemma UnknownGemStep(st: Store, gems: seq<GemPair>, acc: Entries, ld: Loader)
    requires |gems| > 0 && gems[0].0.VStr? && gems[0].0.str !in st.gems
    ensures LoadGemList(st, gems, acc, ld) ==
      LoadGemList(st, gems[1..], acc, ld.(warnings := ld.warnings + [GemWarning(gems[0].0.str)]))
  {
    assert LoadGem(st, gems[0].0, gems[0].1, ld) == Ok((None, ld.(warnings := ld.warnings + [GemWarning(gems[0].0.str)])));
  }

  /** An array of `[name, file]` pairs yields the same pairs, in the same order, as the hash. */
  lemma GemArrayMatchesHash(es: Entries)
    ensures GemPairs(PairArray(es)) == GemPairs(VMap(es))
  {
    var a := GemPairs(PairArray(es)).value;
    var h := GemPairs(VMap(es)).value;
    forall i | 0 <= i < |es|
      ensures a[i] == h[i]
    {
      assert PairArray(es).items[i] == VArr([VStr(es[i].0), es[i].1]);
      assert BlockPair(PairArray(es).items[i]) == (VStr(es[i].0), es[i].1);
    }
    assert a == h;
  }

  /** `inherit_from: {}` is truthy, but `Array({})` is empty: nothing is inherited and nothing raises. */
  lemma EmptyHashInheritsNothing(st: Store, dir: string, ld: Loader)
    ensures PathList(VMap([])) == []
    ensures LoadInherited(st, [("inherit_from", VMap([]))], dir, ld) == Ok(([], ld))
  {
    var yaml := [("inherit_from", VMap([]))];
    assert Get(yaml, "inherit_from") == VMap([]);
    assert Get(yaml, "inherit_gem") == VNull;
    assert LoadFileList(st, [], dir, [], ld) == Ok(([], ld));
  }

  /** A non-empty hash under `inherit_from` gives `[key, value]` entries, and the first one raises. */
  lemma HashInheritFromRaises(st: Store, es: Entries, dir: string, acc: Entries, ld: Loader)
    requires es != []
    ensures LoadFileList(st, PathList(VMap(es)), dir, acc, ld) == Err(Failure(NotAPath("inherit_from"), ld.warnings))
  {
    assert PathList(VMap(es))[0].VArr?;
  }

  /**
   * Entries are checked one at a time, when the loop reaches them: missing
   * files before a non-string entry are skipped, and then the entry raises.
   */
  lemma {:induction false} NonPathRaisesWhenReached(st: Store, files: seq<Value>, j: nat, dir: string, acc: Entries, ld: Loader)
    requires j < |files| && !files[j].VStr?
    requires forall i :: 0 <= i < j ==> files[i].VStr? && st.expand(files[i].str, dir) !in st.docs
    ensures LoadFileList(st, files, dir, acc, ld) == Err(Failure(NotAPath("inherit_from"), ld.warnings))
    decreases j
  {
    if j > 0 {
      assert files[0].VStr? && st.expand(files[0].str, dir) !in st.docs;
      assert forall i :: 0 <= i < j - 1 ==> files[1..][i] == files[i + 1];
      NonPathRaisesWhenReached(st, files[1..], j - 1, dir, acc, ld);
    }
  }

  /** The path `File.join` makes of a list of strings: each one joined onto the path of those before it. */
  function JoinStrings(st: Store, ss: seq<string>): string
    decreases |ss|
  {
    if |ss| == 0 then ""
    else if |ss| == 1 then ss[0]
    else st.joinPath(JoinStrings(st, ss[..|ss| - 1]), ss[|ss| - 1])
  }

  /** The array of string values holding `ss`. */
  function StrArray(ss: seq<string>): (v: Value)
    ensures v.VArr? && |v.items| == |ss| && forall i :: 0 <= i < |ss| ==> v.items[i] == VStr(ss[i])
  {
    VArr(seq(|ss|, i requires 0 <= i < |ss| => VStr(ss[i])))
  }

  lemma {:induction false} JoinItemsStrings(st: Store, ss: seq<string>, i: nat)
    requires i <= |ss|
    ensures JoinItems(st, StrArray(ss).items, i, JoinStrings(st, ss[..i])) == Some(JoinStrings(st, ss))
    decreases |ss| - i
  {
    var items := StrArray(ss).items;
    if i == |ss| {
      assert ss[..i] == ss;
    } else {
      assert JoinArg(st, items[i]) == Some(ss[i]);
      var next := if i == 0 then ss[i] else st.joinPath(JoinStrings(st, ss[..i]), ss[i]);
      assert ss[..i + 1][..i] == ss[..i];
      assert next == JoinStrings(st, ss[..i + 1]);
      JoinItemsStrings(st, ss, i + 1);
    }
  }

  /** An array of strings is joined component by component, as `File.join` flattens it. */
  lemma JoinArgStrings(st: Store, ss: seq<string>)
    ensures JoinArg(st, StrArray(ss)) == Some(JoinStrings(st, ss))
  {
    assert ss[..0] == [];
    JoinItemsStrings(st, ss, 0);
  }

  /** One item `File.join` cannot use anywhere in an array makes the whole argument unusable. */
  lemma {:induction false} JoinItemsRejects(st: Store, items: seq<Value>, i: nat, acc: string, j: nat)
    requires i <= j < |items| && JoinArg(st, items[j]).None?
    ensures JoinItems(st, items, i, acc).None?
    decreases |items| - i
  {
    if i < j && JoinArg(st, items[i]).Some? {
      var s := JoinArg(st, items[i]).value;
      JoinItemsRejects(st, items, i + 1, if i == 0 then s else st.joinPath(acc, s), j);
    }
  }

  /** A gem file given as an array of strings is looked up at the joined path, and skipped when that is missing. */
  lemma GemFileArray(st: Store, name: string, ss: seq<string>, ld: Loader)
    requires name in st.gems
    ensures var p := st.joinPath(st.gems[name], JoinStrings(st, ss));
      (p !in st.docs ==> LoadGem(st, VStr(name), StrArray(ss), ld) == Ok((None, ld))) &&
      (p in st.docs ==> (LoadGem(st, VStr(name), StrArray(ss), ld).Ok? <==> LoadFile(st, p, ld).Ok?))
  {
    JoinArgStrings(st, ss);
  }

  /**
   * A warning printed for an unknown gem is not lost when a later gem raises:
   * the failure carries it.
   */
  lemma WarningsSurviveRaise(st: Store, g: string, f: Value, bad: Value, acc: Entries, ld: Loader)
    requires g !in st.gems && !bad.VStr?
    ensures LoadGemList(st, [(VStr(g), f), (bad, VNull)], acc, ld) ==
      Err(Failure(NotAGemName(bad), ld.warnings + [GemWarning(g)]))
  {
    var gems := [(VStr(g), f), (bad, VNull)];
    var ld1 := ld.(warnings := ld.warnings + [GemWarning(g)]);
    UnknownGemStep(st, gems, acc, ld);
    assert gems[1..] == [(bad, VNull)];
    assert LoadGemList(st, [(bad, VNull)], acc, ld1) == Err(Failure(NotAGemName(bad), ld1.warnings));
  }

  /** An empty document with nothing to inherit loads as an empty map. */
  lemma EmptyDocument(st: Store, p: string, ld: Loader)
    requires p in st.docs && st.docs[p] == None && p !in ld.visited
    ensures LoadFile(st, p, ld) == Ok(([], ld.(visited := ld.visited + [p])))
  {
    var ld1 := ld.(visited := ld.visited + [p]);
    assert LoadInherited(st, [], st.dirname(p), ld1) == Ok(([], ld1));
    assert MergeConfigs([], []) == [];
  }

  // ---------------------------------------------------------------------------
  // Worked examples

  /** A store whose files all sit in `/`, with paths joined by concatenation. */
  function FlatStore(docs: map<string, Option<Entries>>, gems: map<string, string>): Store {
    Store(docs, gems, (f: string, dir: string) => dir + f, (p: string) => "/", (d: string, f: string) => d + f)
  }

  /** A diamond: `a` inherits from `b` and `c`, and both inherit from `d`. */
  function DiamondStore(): Store {
    FlatStore(map[
      "/a.yml" := Some([("inherit_from", VArr([VStr("b.yml"), VStr("c.yml")]))]),
      "/b.yml" := Some([("inherit_from", VStr("d.yml"))]),
      "/c.yml" := Some([("inherit_from", VStr("d.yml"))]),
      "/d.yml" := None], map[])
  }

  lemma DiamondInheritsD(ld: Loader)
    requires "/d.yml" !in ld.visited
    ensures LoadInherited(DiamondStore(), [("inherit_from", VStr("d.yml"))], "/", ld) ==
      Ok(([], ld.(visited := ld.visited + ["/d.yml"])))
  {
    var st := DiamondStore();
    assert st.expand("d.yml", "/") == "/d.yml";
    EmptyDocument(st, "/d.yml", ld);
    var ld1 := ld.(visited := ld.visited + ["/d.yml"]);
    assert LoadFileList(st, [VStr("d.yml")], "/", [], ld) == LoadFileList(st, [], "/", MergeConfigs([], []), ld1);
  }

  lemma DiamondLoadsB()
    ensures LoadFile(DiamondStore(), "/b.yml", Loader(["/a.yml"], [])) ==
      Ok(([], Loader(["/a.yml", "/b.yml", "/d.yml"], [])))
  {
    var st := DiamondStore();
    var b := [("inherit_from", VStr("d.yml"))];
    var ld := Loader(["/a.yml"], []);
    assert "/b.yml" !in ld.visited;
    assert "/b.yml" in st.docs && st.docs["/b.yml"] == Some(b);
    assert st.dirname("/b.yml") == "/";
    DiamondInheritsD(Loader(["/a.yml", "/b.yml"], []));
    assert ["/a.yml", "/b.yml"] + ["/d.yml"] == ["/a.yml", "/b.yml", "/d.yml"];
    assert LoadInherited(st, b, "/", Loader(["/a.yml", "/b.yml"], [])) == Ok(([], Loader(["/a.yml", "/b.yml", "/d.yml"], [])));
    assert MergeConfigs([], b) == [];
    assert ld.(visited := ld.visited + ["/b.yml"]) == Loader(["/a.yml", "/b.yml"], []);
  }

  lemma DiamondRejectsC()
    ensures LoadFile(DiamondStore(), "/c.yml", Loader(["/a.yml", "/b.yml", "/d.yml"], [])) == Err(Failure(Circular("/d.yml"), []))
  {
    var st := DiamondStore();
    var ld0 := Loader(["/a.yml", "/b.yml", "/d.yml"], []);
    var ld := Loader(["/a.yml", "/b.yml", "/d.yml", "/c.yml"], []);
    assert "/c.yml" !in ld0.visited;
    assert "/c.yml" in st.docs && st.docs["/c.yml"] == Some([("inherit_from", VStr("d.yml"))]);
    assert st.dirname("/c.yml") == "/";
    assert ld0.(visited := ld0.visited + ["/c.yml"]) == ld;
    assert st.expand("d.yml", "/") == "/d.yml";
    assert "/d.yml" in ld.visited;
    assert LoadFile(st, "/d.yml", ld) == Err(Failure(Circular("/d.yml"), []));
    assert LoadFileList(st, [VStr("d.yml")], "/", [], ld) == Err(Failure(Circular("/d.yml"), []));
    assert LoadInherited(st, [("inherit_from", VStr("d.yml"))], "/", ld) == Err(Failure(Circular("/d.yml"), []));
  }

  lemma DiamondListFails()
    ensures LoadFileList(DiamondStore(), [VStr("b.yml"), VStr("c.yml")], "/", [], Loader(["/a.yml"], [])) == Err(Failure(Circular("/d.yml"), []))
  {
    var st := DiamondStore();
    var ld := Loader(["/a.yml"], []);
    assert st.expand("b.yml", "/") == "/b.yml" && "/b.yml" in st.docs;
    assert st.expand("c.yml", "/") == "/c.yml" && "/c.yml" in st.docs;
    DiamondLoadsB();
    DiamondRejectsC();
    var ldD := Loader(["/a.yml", "/b.yml", "/d.yml"], []);
    assert LoadFileList(st, [VStr("b.yml"), VStr("c.yml")], "/", [], ld) == LoadFileList(st, [VStr("c.yml")], "/", MergeConfigs([], []), ldD);
  }

  /** The diamond has no cycle, yet the second request for `d` raises. */
  lemma DiamondIsCircular()
    ensures Load(DiamondStore(), "/a.yml") == Err(Circular("/d.yml"))
  {
    var st := DiamondStore();
    var a := [("inherit_from", VArr([VStr("b.yml"), VStr("c.yml")]))];
    assert "/a.yml" in st.docs && st.docs["/a.yml"] == Some(a);
    assert st.dirname("/a.yml") == "/";
    var items := [VStr("b.yml"), VStr("c.yml")];
    assert Get(a, "inherit_from") == VArr(items);
    DiamondListFails();
    assert [] + ["/a.yml"] == ["/a.yml"];
    assert LoadInherited(st, a, "/", Loader(["/a.yml"], [])) == Err(Failure(Circular("/d.yml"), []));
  }
}

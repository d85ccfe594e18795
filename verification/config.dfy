/**
 * The configuration object: the per-validator projection of the raw
 * (already merged) configuration, the getters the linter reads, and the
 * setters that change the raw configuration programmatically.
 */
module Config {
  import opened Common
  import opened Text
  import opened ConfigValue
  import opened ConfigLoader

  // ---------------------------------------------------------------------------
  // Constants

  /** Patterns excluded from linting unless the configuration says otherwise. */
  function DefaultExclude(): Value {
    Strings(["\\.git", "vendor/**/*", "node_modules/**/*"])
  }

  const DefaultFailOnSeverity: string := "warning"

  /** Documentation keys of a configuration block, never copied into a validator entry. */
  predicate IsMetadataKey(k: string) {
    k == "Description" || k == "StyleGuide" || k == "VersionAdded" || k == "VersionChanged"
  }

  // ---------------------------------------------------------------------------
  // Departments and severities

  /** The first `/`-separated piece of a validator name (`name.split('/').first`). */
  function DepartmentOfName(name: string): (r: Option<string>)
    ensures r.Some? ==> '/' !in r.value && StartsWith(name, r.value)
  {
    var pieces := RubySplit(name, '/');
    if |pieces| == 0 then None
    else
      JoinSplitAll(name, '/');
      FirstPieceIsPrefix(SplitAll(name, '/'));
      Some(pieces[0])
  }

  lemma FirstPieceIsPrefix(pieces: seq<string>)
    requires |pieces| >= 1
    ensures StartsWith(Join(pieces, "/"), pieces[0])
  {
  }

  /** A name of the form `D/rest`, with a non-empty `D` free of `/`, belongs to department `D`. */
  lemma DepartmentOfQualified(d: string, rest: string)
    requires d != [] && '/' !in d
    ensures DepartmentOfName(d + "/" + rest) == Some(d)
  {
    var s := d + "/" + rest;
    assert '/' in s by { assert s[|d|] == '/'; }
    assert s[..|d|] == d;
    IndexOfUnique(s, '/', |d|);
    var all := SplitAll(s, '/');
    assert all[0] == d;
    assert all[0] != [];
  }

  /** `department_severity(name)`: the department's default, else `"warning"`. */
  function DepartmentSeverity(name: string): (r: Value)
    ensures r == VStr("error") || r == VStr("warning")
    ensures r == VStr("error") <==> DepartmentOfName(name) == Some("Warnings")
  {
    match DepartmentOfName(name)
    case None => VStr("warning")
    case Some(d) => OrElse(Get(DepartmentSeverities(), d), VStr("warning"))
  }

  // ---------------------------------------------------------------------------
  // Building the per-validator map

  /** The map held by a value, or `{}` for `nil`. */
  function MapOf(v: Value): Entries {
    if v.VMap? then v.entries else []
  }

  /** `build_default_validator_config(name)`. */
  function DefaultEntry(name: string): (r: Entries)
    ensures Truthy(Get(r, "Severity"))
  {
    var merged := HashMerge(DefaultValidatorConfig(), MapOf(Get(ValidatorDefaults(), name)));
    if Truthy(Get(merged, "Severity")) then merged else Put(merged, "Severity", DepartmentSeverity(name))
  }

  /** What `merge_validator_config` stores for a key the override mentions. */
  function ValidatorMerged(prior: Value, v: Value): Value {
    if v.VArr? && prior.VArr? then v
    else if v.VMap? && prior.VMap? then VMap(HashMerge(prior.entries, v.entries))
    else v
  }

  function ValidatorStep(k: string, prior: Value, v: Value): Option<Value> {
    if IsMetadataKey(k) then None else Some(ValidatorMerged(prior, v))
  }

  /** `merge_validator_config(base, override)`. */
  function MergeValidatorConfig(base: Entries, over: Entries): (r: Entries)
    ensures forall k :: k in Keys(base) ==> k in Keys(r)
    ensures forall k :: IsMetadataKey(k) ==> Lookup(r, k) == Lookup(base, k)
  {
    var r := Overlay(base, over, ValidatorStep);
    forall k | IsMetadataKey(k)
      ensures Lookup(r, k) == Lookup(base, k)
    {
      MetadataNeverWritten(base, over, k);
    }
    r
  }

  lemma {:induction false} MetadataNeverWritten(base: Entries, over: Entries, k: string)
    requires IsMetadataKey(k)
    ensures Lookup(Overlay(base, over, ValidatorStep), k) == Lookup(base, k)
    decreases |over|
  {
    if |over| > 0 {
      var k0 := over[0].0;
      var next := match ValidatorStep(k0, Get(base, k0), over[0].1)
        case None => base
        case Some(x) => Put(base, k0, x);
      MetadataNeverWritten(next, over[1..], k);
    }
  }

  /**
   * The validator merge, key by key: metadata keys and keys the override
   * does not mention keep the base's value; for any other key an array
   * replaces an array, two maps merge one level deep, and anything else is
   * replaced.
   */
  lemma MergeValidatorConfigLookup(base: Entries, over: Entries, k: string)
    requires UniqueKeys(over)
    ensures Lookup(MergeValidatorConfig(base, over), k) ==
      if IsMetadataKey(k) || k !in Keys(over) then Lookup(base, k)
      else Some(ValidatorMerged(Get(base, k), Get(over, k)))
  {
    OverlayLookup(base, over, ValidatorStep, k);
  }

  /**
   * Unlike the loader's merge, a map-on-map merge of a validator setting is
   * one level deep: inside it, the override's nested values replace the
   * base's outright, nested maps included.
   */
  lemma ValidatorMergeIsShallow(prior: Entries, v: Entries, j: string)
    requires UniqueKeys(v) && j in Keys(v)
    ensures Lookup(ValidatorMerged(VMap(prior), VMap(v)).entries, j) == Lookup(v, j)
  {
    HashMergeLookup(prior, v, j);
  }

  /** Every name already has an entry. */
  predicate AllPresent(names: seq<string>, config: Entries) {
    forall i :: 0 <= i < |names| ==> names[i] in Keys(config)
  }

  /** Every validator of every department already has an entry. */
  predicate DepartmentsPresent(depts: seq<(string, seq<string>)>, config: Entries) {
    forall k :: k in Flatten(depts) ==> k in Keys(config)
  }

  /** `config[name] = merge_validator_config(config[name], block)` for every name of a department. */
  function ApplyDepartment(config: Entries, names: seq<string>, block: Entries): (r: Entries)
    ensures forall k :: k !in names ==> Lookup(r, k) == Lookup(config, k)
    ensures AllPresent(names, config) ==> Keys(r) == Keys(config)
    ensures UniqueKeys(config) ==> UniqueKeys(r)
    decreases |names|
  {
    if |names| == 0 then config
    else
      var n := names[0];
      var next := Put(config, n, VMap(MergeValidatorConfig(MapOf(Get(config, n)), block)));
      assert UniqueKeys(config) ==> UniqueKeys(next) by {
        if UniqueKeys(config) { PutUnique(config, n, VMap(MergeValidatorConfig(MapOf(Get(config, n)), block))); }
      }
      ApplyDepartment(next, names[1..], block)
  }

  /** The department pass: each department block that is a map is merged into its validators. */
  function ApplyDepartments(config: Entries, depts: seq<(string, seq<string>)>, raw: Entries): (r: Entries)
    ensures forall k :: k !in Flatten(depts) ==> Lookup(r, k) == Lookup(config, k)
    ensures DepartmentsPresent(depts, config) ==> Keys(r) == Keys(config)
    ensures UniqueKeys(config) ==> UniqueKeys(r)
    decreases |depts|
  {
    if |depts| == 0 then config
    else
      var block := Get(raw, depts[0].0);
      var next := if Truthy(block) && block.VMap? then ApplyDepartment(config, depts[0].1, block.entries) else config;
      assert Flatten(depts) == depts[0].1 + Flatten(depts[1..]);
      ApplyDepartments(next, depts[1..], raw)
  }

  /** The validator pass: a raw key naming a registered validator, with a map value, is merged in. */
  function ValidatorBlockStep(k: string, prior: Value, v: Value): Option<Value> {
    if '/' in k && k in AllValidators() && v.VMap? then Some(VMap(MergeValidatorConfig(MapOf(prior), v.entries)))
    else None
  }

  /** Every name mapped to its starting entry, in order. */
  function InitialValidators(names: seq<string>, entry: string -> Entries): (r: Entries)
    ensures Keys(r) == names
  {
    if |names| == 0 then []
    else
      var rest := InitialValidators(names[1..], entry);
      var r := [(names[0], VMap(entry(names[0])))] + rest;
      assert Keys(r) == [names[0]] + Keys(rest);
      r
  }

  lemma {:induction false} InitialValidatorsLookup(names: seq<string>, entry: string -> Entries, k: string)
    ensures Lookup(InitialValidators(names, entry), k) == if k in names then Some(VMap(entry(k))) else None
  {
    if |names| > 0 {
      InitialValidatorsLookup(names[1..], entry, k);
      assert names == [names[0]] + names[1..];
    }
  }

  /** `build_validators_config`. */
  function BuildValidatorsConfig(raw: Entries): (r: Entries)
  {
    Overlay(DepartmentPass(raw), raw, ValidatorBlockStep)
  }

  /** The first two passes: every registered validator's default, then the department blocks. */
  function DepartmentPass(raw: Entries): Entries {
    ApplyDepartments(InitialValidators(AllValidators(), DefaultEntry), Departments(), raw)
  }

  /** The department whose list names `n`, by the built-in table. */
  function DepartmentFor(depts: seq<(string, seq<string>)>, n: string): (r: Option<string>)
    ensures r.None? <==> n !in Flatten(depts)
    ensures r.Some? ==> exists i :: 0 <= i < |depts| && depts[i].0 == r.value
  {
    if |depts| == 0 then None
    else
      assert Flatten(depts) == depts[0].1 + Flatten(depts[1..]);
      if n in depts[0].1 then Some(depts[0].0) else DepartmentFor(depts[1..], n)
  }

  lemma DistinctConcat(a: seq<string>, b: seq<string>)
    requires Distinct(a + b)
    ensures Distinct(a) && Distinct(b)
    ensures forall x :: x in a ==> x !in b
  {
    forall i, j | 0 <= i < j < |a| ensures a[i] != a[j] {
      assert (a + b)[i] == a[i] && (a + b)[j] == a[j];
    }
    forall i, j | 0 <= i < j < |b| ensures b[i] != b[j] {
      assert (a + b)[|a| + i] == b[i] && (a + b)[|a| + j] == b[j];
    }
    forall x | x in a ensures x !in b {
      var i :| 0 <= i < |a| && a[i] == x;
      forall j | 0 <= j < |b| ensures b[j] != x {
        assert (a + b)[i] == a[i] && (a + b)[|a| + j] == b[j];
      }
    }
  }

  lemma {:induction false} ApplyDepartmentLookup(config: Entries, names: seq<string>, block: Entries, n: string)
    requires Distinct(names) && n in names
    ensures Lookup(ApplyDepartment(config, names, block), n) ==
      Some(VMap(MergeValidatorConfig(MapOf(Get(config, n)), block)))
    decreases |names|
  {
    var n0 := names[0];
    var next := Put(config, n0, VMap(MergeValidatorConfig(MapOf(Get(config, n0)), block)));
    assert Distinct(names[1..]);
    if n == n0 {
      assert n !in names[1..] by {
        forall j | 0 <= j < |names[1..]| ensures names[1..][j] != n {
          assert names[1..][j] == names[j + 1];
        }
      }
    } else {
      assert n in names[1..] by {
        var j :| 0 <= j < |names| && names[j] == n;
        assert names[1..][j - 1] == n;
      }
      ApplyDepartmentLookup(next, names[1..], block, n);
    }
  }

  lemma {:induction false} ApplyDepartmentsLookup(config: Entries, depts: seq<(string, seq<string>)>, raw: Entries, n: string)
    requires Distinct(Flatten(depts))
    ensures Lookup(ApplyDepartments(config, depts, raw), n) ==
      match DepartmentFor(depts, n)
      case None => Lookup(config, n)
      case Some(d) =>
        if Get(raw, d).VMap? then Some(VMap(MergeValidatorConfig(MapOf(Get(config, n)), Get(raw, d).entries)))
        else Lookup(config, n)
    decreases |depts|
  {
    if |depts| > 0 {
      var block := Get(raw, depts[0].0);
      var next := if Truthy(block) && block.VMap? then ApplyDepartment(config, depts[0].1, block.entries) else config;
      assert Flatten(depts) == depts[0].1 + Flatten(depts[1..]);
      DistinctConcat(depts[0].1, Flatten(depts[1..]));
      if n in depts[0].1 {
        if block.VMap? {
          ApplyDepartmentLookup(config, depts[0].1, block.entries, n);
        }
      } else {
        ApplyDepartmentsLookup(next, depts[1..], raw, n);
      }
    }
  }

  /** The raw block of the department that lists `n`, or `nil` for an unlisted name. */
  function DepartmentBlock(raw: Entries, n: string): Value {
    match DepartmentFor(Departments(), n)
    case None => VNull
    case Some(d) => Get(raw, d)
  }

  /** The entry after the default and department layers: `Projection` without the validator's own block. */
  function DepartmentLayer(raw: Entries, n: string): Entries {
    var dblock := DepartmentBlock(raw, n);
    if dblock.VMap? then MergeValidatorConfig(DefaultEntry(n), dblock.entries) else DefaultEntry(n)
  }

  /**
   * The entry validator `n` ends up with, written as the three layers:
   * its default entry, then its department's block when that is a map,
   * then its own block when that is a map.
   */
  function Projection(raw: Entries, n: string): Entries {
    var e1 := DepartmentLayer(raw, n);
    var vblock := Get(raw, n);
    if vblock.VMap? then MergeValidatorConfig(e1, vblock.entries) else e1
  }

  lemma DepartmentLayerLookup(raw: Entries, n: string)
    ensures Lookup(DepartmentPass(raw), n) ==
      if n in AllValidators() then Some(VMap(DepartmentLayer(raw, n))) else None
  {
    if n in AllValidators() {
      RegisteredLayerLookup(raw, n);
    } else {
      UnregisteredLayerLookup(raw, n);
    }
  }

  lemma ValidatorsDistinct()
    ensures Distinct(Flatten(Departments()))
  {
    AllValidatorsShape();
  }

  lemma RegisteredLayerLookup(raw: Entries, n: string)
    requires n in AllValidators()
    ensures Lookup(DepartmentPass(raw), n) == Some(VMap(DepartmentLayer(raw, n)))
  {
    ValidatorsDistinct();
    var initial := InitialValidators(AllValidators(), DefaultEntry);
    assert Lookup(initial, n) == Some(VMap(DefaultEntry(n))) by {
      InitialValidatorsLookup(AllValidators(), DefaultEntry, n);
    }
    LayerOverInitial(initial, raw, n);
  }

  /** The department pass over an entry that starts as the default entry yields the department layer. */
  lemma LayerOverInitial(initial: Entries, raw: Entries, n: string)
    requires Distinct(Flatten(Departments())) && n in Flatten(Departments())
    requires Lookup(initial, n) == Some(VMap(DefaultEntry(n)))
    ensures Lookup(ApplyDepartments(initial, Departments(), raw), n) == Some(VMap(DepartmentLayer(raw, n)))
  {
    ApplyDepartmentsLookup(initial, Departments(), raw, n);
    var d := DepartmentFor(Departments(), n).value;
    assert DepartmentBlock(raw, n) == Get(raw, d);
  }

  lemma UnregisteredLayerLookup(raw: Entries, n: string)
    requires n !in AllValidators()
    ensures Lookup(DepartmentPass(raw), n).None?
  {
    AllValidatorsShape();
    var initial := InitialValidators(AllValidators(), DefaultEntry);
    InitialValidatorsLookup(AllValidators(), DefaultEntry, n);
    ApplyDepartmentsLookup(initial, Departments(), raw, n);
  }

  lemma ValidatorHasSlash(n: string)
    requires n in AllValidators()
    ensures '/' in n
  {
    AllValidatorsShape();
    var i :| 0 <= i < |AllValidators()| && AllValidators()[i] == n;
  }

  /** The validator-block pass over a registered validator's entry `e1`. */
  lemma ValidatorBlockLookup(depts: Entries, raw: Entries, n: string)
    requires UniqueKeys(raw) && n in AllValidators()
    requires Lookup(depts, n) == Some(VMap(DepartmentLayer(raw, n)))
    ensures Lookup(Overlay(depts, raw, ValidatorBlockStep), n) == Some(VMap(Projection(raw, n)))
  {
    var e1 := DepartmentLayer(raw, n);
    ValidatorHasSlash(n);
    OverlayLookup(depts, raw, ValidatorBlockStep, n);
    match Lookup(raw, n) {
      case None =>
      case Some(v) =>
        assert Get(raw, n) == v;
        assert Get(depts, n) == VMap(e1);
    }
  }

  /** The validator-block pass writes no unregistered name. */
  lemma ValidatorBlockSkips(depts: Entries, raw: Entries, n: string)
    requires UniqueKeys(raw) && n !in AllValidators()
    ensures Lookup(Overlay(depts, raw, ValidatorBlockStep), n) == Lookup(depts, n)
  {
    OverlayLookup(depts, raw, ValidatorBlockStep, n);
  }

  /**
   * Each registered validator's entry is exactly its three layers, and no
   * other name has an entry. The entry therefore depends only on the raw
   * blocks named after the validator and after its department.
   */
  lemma BuildLookup(raw: Entries, n: string)
    requires UniqueKeys(raw)
    ensures Lookup(BuildValidatorsConfig(raw), n) ==
      if n in AllValidators() then Some(VMap(Projection(raw, n))) else None
  {
    if n in AllValidators() {
      BuildLookupRegistered(raw, n);
    } else {
      BuildLookupUnregistered(raw, n);
    }
  }

  lemma BuildLookupRegistered(raw: Entries, n: string)
    requires UniqueKeys(raw) && n in AllValidators()
    ensures Lookup(BuildValidatorsConfig(raw), n) == Some(VMap(Projection(raw, n)))
  {
    DepartmentLayerLookup(raw, n);
    ValidatorBlockLookup(DepartmentPass(raw), raw, n);
  }

  lemma BuildLookupUnregistered(raw: Entries, n: string)
    requires UniqueKeys(raw) && n !in AllValidators()
    ensures Lookup(BuildValidatorsConfig(raw), n).None?
  {
    DepartmentLayerLookup(raw, n);
    ValidatorBlockSkips(DepartmentPass(raw), raw, n);
  }

  /** The built map has one entry per registered validator, in registry order. */
  lemma BuildKeys(raw: Entries)
    ensures Keys(BuildValidatorsConfig(raw)) == AllValidators()
    ensures UniqueKeys(BuildValidatorsConfig(raw))
  {
    AllValidatorsShape();
    var initial := InitialValidators(AllValidators(), DefaultEntry);
    var depts := ApplyDepartments(initial, Departments(), raw);
    assert Keys(depts) == AllValidators();
    OverlayKeepsKeys(depts, raw, ValidatorBlockStep);
  }

  /** Department names hold no `/` and differ from the `AllValidators` key. */
  lemma DepartmentNamesPlain()
    ensures forall i :: 0 <= i < |Departments()| ==>
      '/' !in Departments()[i].0 && Departments()[i].0 != "AllValidators"
  {
    var ds := Departments();
    assert ds[0].0 == "Documentation" && ds[1].0 == "Tags" && ds[2].0 == "Warnings" && ds[3].0 == "Semantic";
    assert "AllValidators"[0] == 'A';
  }

  /** The department found for any name is a plain department name. */
  lemma DepartmentNamePlain(n: string)
    ensures DepartmentFor(Departments(), n).Some? ==>
      '/' !in DepartmentFor(Departments(), n).value && DepartmentFor(Departments(), n).value != "AllValidators"
  {
    DepartmentNamesPlain();
  }

  /** A validator's entry reads only the raw blocks named after it and after its department. */
  lemma BuildFrame(raw: Entries, raw2: Entries, n: string)
    requires UniqueKeys(raw) && UniqueKeys(raw2)
    requires Get(raw, n) == Get(raw2, n) && DepartmentBlock(raw, n) == DepartmentBlock(raw2, n)
    ensures Lookup(BuildValidatorsConfig(raw), n) == Lookup(BuildValidatorsConfig(raw2), n)
  {
    BuildLookup(raw, n);
    BuildLookup(raw2, n);
  }

  /**
   * Changing one raw key leaves the entry of every name that is neither
   * that key nor a validator of the department of that name.
   */
  lemma DepartmentBlockFrame(raw: Entries, raw2: Entries, key: string, n: string)
    requires forall k :: k != key ==> Lookup(raw2, k) == Lookup(raw, k)
    requires DepartmentFor(Departments(), n) != Some(key)
    ensures DepartmentBlock(raw, n) == DepartmentBlock(raw2, n)
    ensures DepartmentLayer(raw, n) == DepartmentLayer(raw2, n)
  {
  }

  lemma RawKeyFrame(raw: Entries, raw2: Entries, key: string, n: string)
    requires UniqueKeys(raw) && UniqueKeys(raw2)
    requires forall k :: k != key ==> Lookup(raw2, k) == Lookup(raw, k)
    requires n != key && DepartmentFor(Departments(), n) != Some(key)
    ensures Lookup(BuildValidatorsConfig(raw), n) == Lookup(BuildValidatorsConfig(raw2), n)
  {
    assert Get(raw, n) == Get(raw2, n);
    DepartmentBlockFrame(raw, raw2, key, n);
    BuildFrame(raw, raw2, n);
  }

  /** The `AllValidators` key names no validator and no department. */
  lemma AllValidatorsKeyFree(n: string)
    ensures '/' !in "AllValidators"
    ensures n != "AllValidators" || n !in AllValidators()
    ensures DepartmentFor(Departments(), n) != Some("AllValidators")
  {
    assert "AllValidators" == ['A', 'l', 'l', 'V', 'a', 'l', 'i', 'd', 'a', 't', 'o', 'r', 's'];
    if n in AllValidators() { ValidatorHasSlash(n); }
    DepartmentNamePlain(n);
  }

  // ---------------------------------------------------------------------------
  // Writing a section of the raw configuration

  /** Why a setter could not write: the section is set to something other than a map. */
  datatype SetError = NotAHash(section: string)

  /**
   * `raw[section] ||= {}; raw[section][key] = v`. An unset, `nil` or
   * `false` section starts as `{}`; any other non-map section cannot take a
   * key, which Ruby reports by raising.
   */
  function SetSection(raw: Entries, section: string, key: string, v: Value): (r: Result<Entries, SetError>)
    ensures r.Ok? <==> (Get(raw, section).VMap? || !Truthy(Get(raw, section)))
    ensures r.Ok? ==> Get(r.value, section).VMap? && Lookup(Get(r.value, section).entries, key) == Some(v)
    ensures r.Ok? ==> forall j :: j != key ==>
      Lookup(Get(r.value, section).entries, j) == Lookup(MapOf(Get(raw, section)), j)
    ensures r.Ok? ==> forall k :: k != section ==> Lookup(r.value, k) == Lookup(raw, k)
    ensures r.Ok? && UniqueKeys(raw) ==> UniqueKeys(r.value)
    ensures r.Ok? && UniqueKeys(MapOf(Get(raw, section))) ==> UniqueKeys(Get(r.value, section).entries)
  {
    var current := Get(raw, section);
    if Truthy(current) && !current.VMap? then Err(NotAHash(section))
    else
      var block := Put(MapOf(current), key, v);
      assert UniqueKeys(raw) ==> UniqueKeys(Put(raw, section, VMap(block))) by {
        if UniqueKeys(raw) { PutUnique(raw, section, VMap(block)); }
      }
      assert UniqueKeys(MapOf(current)) ==> UniqueKeys(block) by {
        if UniqueKeys(MapOf(current)) { PutUnique(MapOf(current), key, v); }
      }
      Ok(Put(raw, section, VMap(block)))
  }

  // ---------------------------------------------------------------------------
  // The configuration object

  /** The raw configuration and the per-validator map built from it. */
  datatype Config = Config(raw: Entries, validators: Entries)

  /** The object's invariant: YAML-shaped raw data and a map built from exactly that data. */
  predicate Valid(c: Config) {
    UniqueKeys(c.raw) && c.validators == BuildValidatorsConfig(c.raw)
  }

  /** `Config.new(raw)`. */
  function New(raw: Entries): (c: Config)
    ensures c.raw == raw
    ensures Keys(c.validators) == AllValidators() && UniqueKeys(c.validators)
    ensures UniqueKeys(raw) ==> Valid(c)
  {
    BuildKeys(raw);
    Config(raw, BuildValidatorsConfig(raw))
  }

  /** `all_validators`: the `AllValidators` section, `{}` when it is unset or not a map. */
  function AllValidatorsSection(c: Config): Entries {
    MapOf(Get(c.raw, "AllValidators"))
  }

  /** `options`: the YARD options, `[]` unless set. */
  function Options(c: Config): (r: Value)
    ensures !Truthy(Get(AllValidatorsSection(c), "YardOptions")) ==> r == VArr([])
  {
    OrElse(Get(AllValidatorsSection(c), "YardOptions"), VArr([]))
  }

  /** `exclude`: the global exclusion patterns, `DefaultExclude()` unless set. */
  function Exclude(c: Config): (r: Value)
    ensures !Truthy(Get(AllValidatorsSection(c), "Exclude")) ==> r == DefaultExclude()
  {
    OrElse(Get(AllValidatorsSection(c), "Exclude"), DefaultExclude())
  }

  /** `fail_on_severity`: `"warning"` unless set. */
  function FailOnSeverity(c: Config): (r: Value)
    ensures Truthy(r)
    ensures !Truthy(Get(AllValidatorsSection(c), "FailOnSeverity")) ==> r == VStr(DefaultFailOnSeverity)
  {
    OrElse(Get(AllValidatorsSection(c), "FailOnSeverity"), VStr(DefaultFailOnSeverity))
  }

  /** `validators[name] || {}`. */
  function ValidatorEntry(c: Config, name: string): Entries {
    MapOf(Get(c.validators, name))
  }

  /** `validator_enabled?(name)`: only a literal `false` disables. */
  predicate Enabled(c: Config, name: string) {
    Get(ValidatorEntry(c, name), "Enabled") != VBool(false)
  }

  /** `validator_severity(name)`: the entry's severity, else the department default. Never `nil`. */
  function ValidatorSeverity(c: Config, name: string): (r: Value)
    ensures Truthy(r)
    ensures !Truthy(Get(ValidatorEntry(c, name), "Severity")) ==> r == DepartmentSeverity(name)
  {
    OrElse(Get(ValidatorEntry(c, name), "Severity"), DepartmentSeverity(name))
  }

  /** `validator_exclude(name)`: the entry's patterns, `[]` unless set. */
  function ValidatorExclude(c: Config, name: string): (r: Value)
    ensures !Truthy(Get(ValidatorEntry(c, name), "Exclude")) ==> r == VArr([])
  {
    OrElse(Get(ValidatorEntry(c, name), "Exclude"), VArr([]))
  }

  /** `validator_config(name, key)`: `validators.dig(name, key)`. */
  function ValidatorConfig(c: Config, name: string, key: string): (r: Value)
    ensures name !in Keys(c.validators) ==> r == VNull
  {
    Get(ValidatorEntry(c, name), key)
  }

  /** `VALIDATOR_DEFAULTS.dig(name, key)`. */
  function DefaultSetting(name: string, key: string): Value {
    Get(MapOf(Get(ValidatorDefaults(), name)), key)
  }

  /** A validator setting, falling back to the built-in default when unset. */
  function SettingOrDefault(c: Config, name: string, key: string): (r: Value)
    ensures !Truthy(ValidatorConfig(c, name, key)) ==> r == DefaultSetting(name, key)
  {
    OrElse(ValidatorConfig(c, name, key), DefaultSetting(name, key))
  }

  function TagsOrder(c: Config): Value { SettingOrDefault(c, "Tags/Order", "EnforcedOrder") }
  function InvalidTagsNames(c: Config): Value { SettingOrDefault(c, "Tags/InvalidTypes", "ValidatedTags") }
  function ExtraTypes(c: Config): Value { SettingOrDefault(c, "Tags/InvalidTypes", "ExtraTypes") }
  function AllowedApis(c: Config): Value { SettingOrDefault(c, "Tags/ApiTags", "AllowedApis") }
  predicate RequireApiTags(c: Config) { Enabled(c, "Tags/ApiTags") }
  predicate ValidateAbstractMethods(c: Config) { Enabled(c, "Semantic/AbstractMethods") }
  predicate ValidateOptionTags(c: Config) { Enabled(c, "Tags/OptionTags") }

  // ---------------------------------------------------------------------------
  // Setters

  /** The global setters: write `AllValidators[key]` and leave the validator map as it is. */
  function SetGlobal(c: Config, key: string, v: Value): (r: Result<Config, SetError>)
    ensures r.Ok? ==> r.value.validators == c.validators
  {
    var raw :- SetSection(c.raw, "AllValidators", key, v);
    Ok(Config(raw, c.validators))
  }

  function SetOptions(c: Config, v: Value): Result<Config, SetError> { SetGlobal(c, "YardOptions", v) }
  function SetExclude(c: Config, v: Value): Result<Config, SetError> { SetGlobal(c, "Exclude", v) }
  function SetFailOnSeverity(c: Config, v: Value): Result<Config, SetError> { SetGlobal(c, "FailOnSeverity", v) }

  /** The validator setters: write `raw[name][key]` and rebuild the validator map. */
  function SetValidatorKey(c: Config, name: string, key: string, v: Value): (r: Result<Config, SetError>)
    ensures r.Ok? && UniqueKeys(c.raw) ==> Valid(r.value)
  {
    var raw :- SetSection(c.raw, name, key, v);
    Ok(New(raw))
  }

  function SetTagsOrder(c: Config, v: Value): Result<Config, SetError> { SetValidatorKey(c, "Tags/Order", "EnforcedOrder", v) }
  function SetInvalidTagsNames(c: Config, v: Value): Result<Config, SetError> { SetValidatorKey(c, "Tags/InvalidTypes", "ValidatedTags", v) }
  function SetExtraTypes(c: Config, v: Value): Result<Config, SetError> { SetValidatorKey(c, "Tags/InvalidTypes", "ExtraTypes", v) }
  function SetRequireApiTags(c: Config, v: Value): Result<Config, SetError> { SetValidatorKey(c, "Tags/ApiTags", "Enabled", v) }
  function SetAllowedApis(c: Config, v: Value): Result<Config, SetError> { SetValidatorKey(c, "Tags/ApiTags", "AllowedApis", v) }
  function SetValidateAbstractMethods(c: Config, v: Value): Result<Config, SetError> { SetValidatorKey(c, "Semantic/AbstractMethods", "Enabled", v) }
  function SetValidateOptionTags(c: Config, v: Value): Result<Config, SetError> { SetValidatorKey(c, "Tags/OptionTags", "Enabled", v) }

  // ---------------------------------------------------------------------------
  // Properties of the getters and setters

  /**
   * A global setter keeps the object valid without rebuilding: the
   * `AllValidators` section feeds no validator entry.
   */
  lemma SetGlobalKeepsValid(c: Config, key: string, v: Value)
    requires Valid(c) && SetGlobal(c, key, v).Ok?
    ensures Valid(SetGlobal(c, key, v).value)
  {
    var raw2 := SetSection(c.raw, "AllValidators", key, v).value;
    AllValidatorsKeyFree("AllValidators");
    forall n ensures DepartmentFor(Departments(), n) != Some("AllValidators") {
      AllValidatorsKeyFree(n);
    }
    SameBuild(c.raw, raw2, "AllValidators");
  }

  /** Changing a raw key that names no validator and no department does not change the built map. */
  lemma SameBuild(raw: Entries, raw2: Entries, key: string)
    requires UniqueKeys(raw) && UniqueKeys(raw2)
    requires forall k :: k != key ==> Lookup(raw2, k) == Lookup(raw, k)
    requires key !in AllValidators() && forall n :: DepartmentFor(Departments(), n) != Some(key)
    ensures BuildValidatorsConfig(raw2) == BuildValidatorsConfig(raw)
  {
    BuildKeys(raw);
    BuildKeys(raw2);
    forall n ensures Lookup(BuildValidatorsConfig(raw), n) == Lookup(BuildValidatorsConfig(raw2), n) {
      if n == key {
        BuildLookup(raw, n);
        BuildLookup(raw2, n);
      } else {
        RawKeyFrame(raw, raw2, key, n);
      }
    }
    SameMap(BuildValidatorsConfig(raw), BuildValidatorsConfig(raw2));
  }

  /** A global setting reads back as written, or as its default when written `nil` or `false`. */
  lemma SetGlobalReadBack(c: Config, v: Value)
    ensures SetOptions(c, v).Ok? ==> Options(SetOptions(c, v).value) == OrElse(v, VArr([]))
    ensures SetExclude(c, v).Ok? ==> Exclude(SetExclude(c, v).value) == OrElse(v, DefaultExclude())
    ensures SetFailOnSeverity(c, v).Ok? ==>
      FailOnSeverity(SetFailOnSeverity(c, v).value) == OrElse(v, VStr(DefaultFailOnSeverity))
  {
  }

  /** A global setter changes no other global setting. */
  lemma SetGlobalFrame(c: Config, key: string, v: Value, other: string)
    requires SetGlobal(c, key, v).Ok? && other != key
    ensures Get(AllValidatorsSection(SetGlobal(c, key, v).value), other) == Get(AllValidatorsSection(c), other)
  {
  }

  /**
   * A validator setter makes its value visible through `validator_config`:
   * the written value is merged over the default and department layers like
   * any override, so anything but a map reads back exactly.
   */
  lemma SetValidatorKeyVisible(c: Config, name: string, key: string, v: Value)
    requires UniqueKeys(c.raw) && UniqueKeys(MapOf(Get(c.raw, name)))
    requires name in AllValidators() && !IsMetadataKey(key)
    requires SetValidatorKey(c, name, key, v).Ok?
    ensures ValidatorConfig(SetValidatorKey(c, name, key, v).value, name, key) ==
      ValidatorMerged(Get(DepartmentLayer(c.raw, name), key), v)
  {
    var raw2 := SetSection(c.raw, name, key, v).value;
    var block := Get(raw2, name).entries;
    var layer := DepartmentLayer(c.raw, name);
    SetValidatorKeyBuilds(c, name, key, v);
    ProjectionAfterSet(c.raw, raw2, name);
    MergeValidatorConfigLookup(layer, block, key);
    EntryOfNew(raw2, name);
  }

  lemma SetValidatorKeyBuilds(c: Config, name: string, key: string, v: Value)
    requires SetValidatorKey(c, name, key, v).Ok?
    ensures SetSection(c.raw, name, key, v).Ok?
    ensures SetValidatorKey(c, name, key, v).value == New(SetSection(c.raw, name, key, v).value)
  {
  }

  /** After the validator's own block is replaced by a map, its projection is that map over the unchanged department layer. */
  lemma ProjectionAfterSet(raw: Entries, raw2: Entries, name: string)
    requires name in AllValidators() && Get(raw2, name).VMap?
    requires forall k :: k != name ==> Lookup(raw2, k) == Lookup(raw, k)
    ensures Projection(raw2, name) == MergeValidatorConfig(DepartmentLayer(raw, name), Get(raw2, name).entries)
  {
    ValidatorHasSlash(name);
    DepartmentNamePlain(name);
    DepartmentBlockFrame(raw, raw2, name, name);
  }

  /** A registered validator's entry in a freshly built object is its three-layer projection. */
  lemma EntryOfNew(raw: Entries, n: string)
    requires UniqueKeys(raw) && n in AllValidators()
    ensures ValidatorEntry(New(raw), n) == Projection(raw, n)
  {
    BuildLookup(raw, n);
  }

  /** A value that is not a map is read back exactly as it was set. */
  lemma SetValidatorKeyScalar(c: Config, name: string, key: string, v: Value)
    requires UniqueKeys(c.raw) && UniqueKeys(MapOf(Get(c.raw, name)))
    requires name in AllValidators() && !IsMetadataKey(key) && !v.VMap?
    requires SetValidatorKey(c, name, key, v).Ok?
    ensures ValidatorConfig(SetValidatorKey(c, name, key, v).value, name, key) == v
  {
    SetValidatorKeyVisible(c, name, key, v);
  }

  /** A validator setter leaves every other validator's entry as it was. */
  lemma SetValidatorKeyFrame(c: Config, name: string, key: string, v: Value, n: string)
    requires Valid(c) && '/' in name && n != name
    requires SetValidatorKey(c, name, key, v).Ok?
    ensures ValidatorEntry(SetValidatorKey(c, name, key, v).value, n) == ValidatorEntry(c, n)
  {
    var raw2 := SetSection(c.raw, name, key, v).value;
    SetValidatorKeyBuilds(c, name, key, v);
    assert DepartmentFor(Departments(), n) != Some(name) by {
      DepartmentNamePlain(n);
    }
    RawKeyFrame(c.raw, raw2, name, n);
  }

  /** A validator setter leaves the global settings as they were. */
  lemma SetValidatorKeyKeepsGlobals(c: Config, name: string, key: string, v: Value)
    requires '/' in name && SetValidatorKey(c, name, key, v).Ok?
    ensures AllValidatorsSection(SetValidatorKey(c, name, key, v).value) == AllValidatorsSection(c)
  {
    AllValidatorsKeyFree(name);
  }

  // ---------------------------------------------------------------------------
  // The built-in defaults

  /** Every built-in default block is a map with distinct keys that says whether its validator is enabled. */
  predicate DefaultsShaped(defaults: Entries) {
    forall i :: 0 <= i < |defaults| ==>
      defaults[i].1.VMap? && UniqueKeys(defaults[i].1.entries) &&
      Lookup(defaults[i].1.entries, "Enabled") == Some(VBool(defaults[i].0 != "Tags/ApiTags"))
  }

  lemma EnabledWithShape(severity: string, extra: Entries)
    requires UniqueKeys(extra) && "Enabled" !in Keys(extra) && "Severity" !in Keys(extra)
    ensures UniqueKeys(EnabledWith(severity) + extra)
    ensures Lookup(EnabledWith(severity) + extra, "Enabled") == Some(VBool(true))
  {
    var m := EnabledWith(severity) + extra;
    assert Keys(m) == ["Enabled", "Severity"] + Keys(extra);
  }

  lemma DefaultsShapedConcat(a: Entries, b: Entries)
    requires DefaultsShaped(a) && DefaultsShaped(b)
    ensures DefaultsShaped(a + b)
  {
    forall i | 0 <= i < |a + b|
      ensures (a + b)[i] == (if i < |a| then a[i] else b[i - |a|])
    {
    }
  }

  lemma TagsDefaultsShaped()
    ensures DefaultsShaped(TagsDefaults())
  {
    var d := TagsDefaults();
    EnabledWithShape("convention", [("EnforcedOrder", Strings(DefaultTagsOrder()))]);
    EnabledWithShape("warning", [("ValidatedTags", Strings(["param", "option", "return", "yieldreturn"])), ("ExtraTypes", VArr([]))]);
    EnabledWithShape("warning", [("ParameterNames", Strings(["options", "opts", "kwargs"]))]);
    assert Keys(d[2].1.entries) == ["Enabled", "Severity", "AllowedApis"];
  }

  lemma PlainDefaultsShaped()
    ensures DefaultsShaped(DocumentationDefaults())
    ensures DefaultsShaped(WarningsDefaults())
    ensures DefaultsShaped(SemanticDefaults())
  {
    DocumentationDefaultsShaped();
    WarningsDefaultsShaped();
    SemanticDefaultsShaped();
  }

  lemma DocumentationDefaultsShaped()
    ensures DefaultsShaped(DocumentationDefaults())
  {
    EnabledWithShape("warning", []);
    assert EnabledWith("warning") + [] == EnabledWith("warning");
  }

  lemma WarningsDefaultsShaped()
    ensures DefaultsShaped(WarningsDefaults())
  {
    EnabledWithShape("error", []);
    assert EnabledWith("error") + [] == EnabledWith("error");
  }

  lemma SemanticDefaultsShaped()
    ensures DefaultsShaped(SemanticDefaults())
  {
    EnabledWithShape("warning", [("AllowedImplementations", Strings(["raise NotImplementedError", "raise NotImplementedError, \".+\""]))]);
  }

  lemma EnabledWithSeverity(severity: string, extra: Entries)
    ensures Lookup(EnabledWith(severity) + extra, "Severity") == Some(VStr(severity))
  {
    assert (EnabledWith(severity) + extra)[1] == ("Severity", VStr(severity));
  }

  lemma ValidatorDefaultsShaped()
    ensures DefaultsShaped(ValidatorDefaults())
  {
    ValidatorDefaultsGroups();
    TagsDefaultsShaped();
    PlainDefaultsShaped();
    DefaultsShapedConcat(TagsDefaults(), DocumentationDefaults());
    DefaultsShapedConcat(TagsDefaults() + DocumentationDefaults(), WarningsDefaults());
    DefaultsShapedConcat(TagsDefaults() + DocumentationDefaults() + WarningsDefaults(), SemanticDefaults());
  }

  /** Only `Tags/ApiTags` starts disabled; every other name, registered or not, starts enabled. */
  lemma DefaultEntryEnabled(n: string)
    ensures Get(DefaultEntry(n), "Enabled") == VBool(n != "Tags/ApiTags")
  {
    assert "Enabled" != "Severity";
    DefaultEntryKeeps(n, "Enabled");
    MergedEnabled(n);
  }

  /** The default entry differs from the merged defaults at most in its severity. */
  lemma DefaultEntryKeeps(n: string, k: string)
    requires k != "Severity"
    ensures Get(DefaultEntry(n), k) == Get(HashMerge(DefaultValidatorConfig(), MapOf(Get(ValidatorDefaults(), n))), k)
  {
  }

  lemma MergedEnabled(n: string)
    ensures Get(HashMerge(DefaultValidatorConfig(), MapOf(Get(ValidatorDefaults(), n))), "Enabled") == VBool(n != "Tags/ApiTags")
  {
    var over := MapOf(Get(ValidatorDefaults(), n));
    DefaultBlockEnabled(n);
    HashMergeLookup(DefaultValidatorConfig(), over, "Enabled");
    assert Lookup(DefaultValidatorConfig(), "Enabled") == Some(VBool(true));
  }

  /** The built-in block of `n` is a map with distinct keys; only `Tags/ApiTags`'s says `Enabled: false`. */
  lemma DefaultBlockEnabled(n: string)
    ensures UniqueKeys(MapOf(Get(ValidatorDefaults(), n)))
    ensures Lookup(MapOf(Get(ValidatorDefaults(), n)), "Enabled") ==
      if n == "Tags/ApiTags" then Some(VBool(false))
      else if n in Keys(ValidatorDefaults()) then Some(VBool(true))
      else None
  {
    var vd := ValidatorDefaults();
    ValidatorDefaultsShaped();
    match Lookup(vd, n) {
      case None =>
        assert vd[2].0 == "Tags/ApiTags" && Keys(vd)[2] == vd[2].0;
      case Some(v) =>
        var i :| 0 <= i < |vd| && vd[i] == (n, v);
    }
  }

  /** With an empty configuration a registered validator's entry is its default entry. */
  lemma EmptyProjection(n: string)
    ensures Projection([], n) == DefaultEntry(n)
  {
  }

  lemma ApiTagsRegistered()
    ensures "Tags/ApiTags" in AllValidators()
  {
    AllValidatorsList();
    assert AllValidators()[5] == "Tags/ApiTags";
  }

  /** `validator_enabled?` on an empty configuration: every name except `Tags/ApiTags` is enabled. */
  lemma DefaultsEnabled(n: string)
    ensures Enabled(New([]), n) <==> n != "Tags/ApiTags"
  {
    if n in AllValidators() {
      DefaultsEnabledRegistered(n);
    } else {
      BuildLookup([], n);
      ApiTagsRegistered();
    }
  }

  lemma DefaultsEnabledRegistered(n: string)
    requires n in AllValidators()
    ensures ValidatorEntry(New([]), n) == DefaultEntry(n)
    ensures Enabled(New([]), n) <==> n != "Tags/ApiTags"
  {
    EntryOfNew([], n);
    EmptyProjection(n);
    DefaultEntryEnabled(n);
  }

  /** The severity a validator starts with, when its built-in block names one. */
  lemma DefaultSeverityFromBlock(n: string, e: Entries)
    requires Lookup(ValidatorDefaults(), n) == Some(VMap(e)) && n in AllValidators()
    requires Truthy(Get(e, "Severity"))
    ensures ValidatorSeverity(New([]), n) == Get(e, "Severity")
  {
    DefaultBlockUnique(n, e);
    DefaultEntrySeverity(n, e);
    EntryOfNew([], n);
    EmptyProjection(n);
  }

  /** Every built-in block has distinct keys. */
  lemma DefaultBlockUnique(n: string, e: Entries)
    requires Lookup(ValidatorDefaults(), n) == Some(VMap(e))
    ensures UniqueKeys(e)
  {
    var vd := ValidatorDefaults();
    ValidatorDefaultsShaped();
    var i :| 0 <= i < |vd| && vd[i] == (n, VMap(e));
  }

  /** A severity the built-in block sets survives into the default entry. */
  lemma DefaultEntrySeverity(n: string, e: Entries)
    requires Lookup(ValidatorDefaults(), n) == Some(VMap(e)) && UniqueKeys(e)
    requires Truthy(Get(e, "Severity"))
    ensures Get(DefaultEntry(n), "Severity") == Get(e, "Severity")
  {
    HashMergeLookup(DefaultValidatorConfig(), e, "Severity");
  }

  /** `Tags/Order` is a convention by default: its built-in block overrides the department's `warning`. */
  lemma DefaultSeverityExample()
    ensures ValidatorSeverity(New([]), "Tags/Order") == VStr("convention")
  {
    var order := EnabledWith("convention") + [("EnforcedOrder", Strings(DefaultTagsOrder()))];
    assert Lookup(ValidatorDefaults(), "Tags/Order") == Some(VMap(order));
    EnabledWithSeverity("convention", [("EnforcedOrder", Strings(DefaultTagsOrder()))]);
    AllValidatorsList();
    assert AllValidators()[4] == "Tags/Order";
    NamedDefaultSeverity("Tags/Order", order, "convention");
  }

  lemma NamedDefaultSeverity(n: string, e: Entries, s: string)
    requires Lookup(ValidatorDefaults(), n) == Some(VMap(e)) && n in AllValidators()
    requires Get(e, "Severity") == VStr(s)
    ensures ValidatorSeverity(New([]), n) == VStr(s)
  {
    DefaultSeverityFromBlock(n, e);
  }

  /** A `Warnings` validator falls back to `error`. */
  lemma WarningsSeverityExample()
    ensures DepartmentSeverity("Warnings/UnknownTag") == VStr("error")
  {
    DepartmentOfQualified("Warnings", "UnknownTag");
    assert "Warnings" + "/" + "UnknownTag" == "Warnings/UnknownTag";
  }

  /** A validator of any other department falls back to `warning`. */
  lemma TagsSeverityExample()
    ensures DepartmentSeverity("Tags/Order") == VStr("warning")
  {
    DepartmentOfQualified("Tags", "Order");
    assert "Tags" + "/" + "Order" == "Tags/Order";
  }
}

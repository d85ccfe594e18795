/**
 * Orchestration: running the enabled validators of the registry in order,
 * storing each one's raw output under its module id, and building one
 * result per enabled validator from those outputs.  A composite validator
 * folds the output of the validators it combines with into its own result;
 * those children never build a result of their own.
 *
 * The runtime discovery of parsers and composites is replaced by an
 * explicit registry; running a validator process is a function parameter
 * (it receives the same configuration and file selection every time, so it
 * depends on the module alone).
 */
module Runner {
  import opened Common
  import opened Records
  import opened Config

  /** A parser class: validator stdout to records. */
  type Parser = string -> seq<Record>

  /** A validator module with its parsers, and for a composite the names of the validators it combines with. */
  datatype ValidatorModule =
    | Standard(id: string, parsers: seq<Parser>)
    | Composite(id: string, parsers: seq<Parser>, children: seq<string>)

  /** `ConfigLoader.validator_module`: a validator name to its module, if it has one. */
  type Registry = string -> Option<ValidatorModule>

  /** What a validator run leaves: its stdout, possibly nil. */
  datatype RawOutput = RawOutput(stdout: Option<string>)

  /** `validator_module::Result.new(records, config)`: a result of the validator with that module id. */
  datatype Built = Built(validator: string, records: seq<Record>)

  /** A validator that is run: enabled, and with a module. */
  predicate Runs(c: Config, reg: Registry, n: string) {
    Enabled(c, n) && reg(n).Some?
  }

  // ---------------------------------------------------------------------------
  // run_validators

  /** The names of the validators run, in registry order. */
  function Executed(c: Config, reg: Registry, names: seq<string>): (ran: seq<string>)
    ensures forall n :: n in ran <==> n in names && Runs(c, reg, n)
    ensures |ran| <= |names|
  {
    if |names| == 0 then [] else (if Runs(c, reg, names[0]) then [names[0]] else []) + Executed(c, reg, names[1..])
  }

  /** Running a list of validators is running its two halves one after the other. */
  lemma {:induction false} ExecutedAppend(c: Config, reg: Registry, a: seq<string>, b: seq<string>)
    ensures Executed(c, reg, a + b) == Executed(c, reg, a) + Executed(c, reg, b)
  {
    if |a| > 0 {
      assert (a + b)[1..] == a[1..] + b;
      ExecutedAppend(c, reg, a[1..], b);
    } else {
      assert a + b == b;
    }
  }

  /** The loop of `run_validators` from a given state of the results hash. */
  function RunFrom(c: Config, reg: Registry, exec: ValidatorModule -> RawOutput, names: seq<string>, raw: map<string, RawOutput>): map<string, RawOutput> {
    if |names| == 0 then raw
    else
      var next := if Runs(c, reg, names[0]) then raw[reg(names[0]).value.id := exec(reg(names[0]).value)] else raw;
      RunFrom(c, reg, exec, names[1..], next)
  }

  function RunValidators(c: Config, reg: Registry, exec: ValidatorModule -> RawOutput, all: seq<string>): map<string, RawOutput> {
    RunFrom(c, reg, exec, all, map[])
  }

  /** The module ids of a list of names. */
  function Ids(reg: Registry, ns: seq<string>): set<string> {
    set n | n in ns && reg(n).Some? :: reg(n).value.id
  }

  /** The raw results hold an entry for exactly the validators run, keyed by their module ids. */
  lemma {:induction false} RunFromKeys(c: Config, reg: Registry, exec: ValidatorModule -> RawOutput, names: seq<string>, raw: map<string, RawOutput>)
    ensures RunFrom(c, reg, exec, names, raw).Keys == raw.Keys + Ids(reg, Executed(c, reg, names))
  {
    if |names| > 0 {
      var n := names[0];
      var next := if Runs(c, reg, n) then raw[reg(n).value.id := exec(reg(n).value)] else raw;
      RunFromKeys(c, reg, exec, names[1..], next);
      var rest := Executed(c, reg, names[1..]);
      if Runs(c, reg, n) {
        assert Executed(c, reg, names) == [n] + rest;
        assert Ids(reg, [n] + rest) == {reg(n).value.id} + Ids(reg, rest);
      } else {
        assert Executed(c, reg, names) == rest;
      }
    }
  }

  /** Distinct validator names have distinct module ids. */
  predicate UniqueIds(reg: Registry, names: seq<string>) {
    forall i, j ::
      (0 <= i < |names| && 0 <= j < |names| && reg(names[i]).Some? && reg(names[j]).Some? &&
       reg(names[i]).value.id == reg(names[j]).value.id) ==> names[i] == names[j]
  }

  /** An entry the rest of the loop writes only with its own value keeps that value. */
  lemma {:induction false} RunFromKeeps(c: Config, reg: Registry, exec: ValidatorModule -> RawOutput, names: seq<string>, raw: map<string, RawOutput>, id: string)
    requires id in raw
    requires forall n :: n in names && Runs(c, reg, n) && reg(n).value.id == id ==> exec(reg(n).value) == raw[id]
    ensures id in RunFrom(c, reg, exec, names, raw) && RunFrom(c, reg, exec, names, raw)[id] == raw[id]
  {
    if |names| > 0 {
      var n := names[0];
      var next := if Runs(c, reg, n) then raw[reg(n).value.id := exec(reg(n).value)] else raw;
      assert id in next && next[id] == raw[id];
      RunFromKeeps(c, reg, exec, names[1..], next, id);
    }
  }

  /** With distinct module ids, each validator run finds its own output under its id. */
  lemma {:induction false} RunFromValue(c: Config, reg: Registry, exec: ValidatorModule -> RawOutput, names: seq<string>, raw: map<string, RawOutput>, k: nat)
    requires UniqueIds(reg, names)
    requires k < |names| && Runs(c, reg, names[k])
    ensures reg(names[k]).value.id in RunFrom(c, reg, exec, names, raw)
    ensures RunFrom(c, reg, exec, names, raw)[reg(names[k]).value.id] == exec(reg(names[k]).value)
  {
    var n := names[0];
    var next := if Runs(c, reg, n) then raw[reg(n).value.id := exec(reg(n).value)] else raw;
    var id := reg(names[k]).value.id;
    assert UniqueIds(reg, names[1..]) by {
      forall i, j | 0 <= i < |names[1..]| && 0 <= j < |names[1..]| && reg(names[1..][i]).Some? && reg(names[1..][j]).Some? &&
        reg(names[1..][i]).value.id == reg(names[1..][j]).value.id
        ensures names[1..][i] == names[1..][j]
      {
        assert names[1..][i] == names[i + 1] && names[1..][j] == names[j + 1];
      }
    }
    if k == 0 {
      assert id in next && next[id] == exec(reg(n).value);
      forall m | m in names[1..] && Runs(c, reg, m) && reg(m).value.id == id
        ensures exec(reg(m).value) == next[id]
      {
        var j :| 0 <= j < |names[1..]| && names[1..][j] == m;
        assert names[j + 1] == m;
      }
      RunFromKeeps(c, reg, exec, names[1..], next, id);
    } else {
      assert names[k] == names[1..][k - 1];
      RunFromValue(c, reg, exec, names[1..], next, k - 1);
    }
  }

  /**
   * `run_validators`: the raw results hold an entry for exactly the enabled
   * validators that have a module, keyed by module id; with distinct ids,
   * each entry is that validator's own output.
   */
  lemma RawResults(c: Config, reg: Registry, exec: ValidatorModule -> RawOutput, all: seq<string>)
    ensures RunValidators(c, reg, exec, all).Keys == Ids(reg, Executed(c, reg, all))
    ensures UniqueIds(reg, all) ==> forall k :: 0 <= k < |all| && Runs(c, reg, all[k]) ==>
              RunValidators(c, reg, exec, all)[reg(all[k]).value.id] == exec(reg(all[k]).value)
  {
    RunFromKeys(c, reg, exec, all, map[]);
    if UniqueIds(reg, all) {
      forall k | 0 <= k < |all| && Runs(c, reg, all[k])
        ensures RunValidators(c, reg, exec, all)[reg(all[k]).value.id] == exec(reg(all[k]).value)
      {
        RunFromValue(c, reg, exec, all, map[], k);
      }
    }
  }

  /** With distinct ids, a validator's id is in the raw results iff it is enabled. */
  lemma RawEntryIffEnabled(c: Config, reg: Registry, exec: ValidatorModule -> RawOutput, all: seq<string>, k: nat)
    requires UniqueIds(reg, all)
    requires k < |all| && reg(all[k]).Some?
    ensures reg(all[k]).value.id in RunValidators(c, reg, exec, all) <==> Enabled(c, all[k])
  {
    RawResults(c, reg, exec, all);
    if reg(all[k]).value.id in RunValidators(c, reg, exec, all) {
      var m :| m in Executed(c, reg, all) && reg(m).Some? && reg(m).value.id == reg(all[k]).value.id;
      var j :| 0 <= j < |all| && all[j] == m;
      assert all[j] == all[k];
    }
  }

  // ---------------------------------------------------------------------------
  // Parsing

  /** Every parser applied to the same stdout, their records concatenated. */
  function ApplyAll(ps: seq<Parser>, out: string): (rs: seq<Record>)
    ensures ps == [] ==> rs == []
  {
    if |ps| == 0 then [] else ps[0](out) + ApplyAll(ps[1..], out)
  }

  /** Adding parsers appends their records: one parser's output is never changed by another's. */
  lemma {:induction false} ApplyAllAppend(p: seq<Parser>, q: seq<Parser>, out: string)
    ensures ApplyAll(p + q, out) == ApplyAll(p, out) + ApplyAll(q, out)
  {
    if |p| > 0 {
      assert (p + q)[1..] == p[1..] + q;
      ApplyAllAppend(p[1..], q, out);
    } else {
      assert p + q == q;
    }
  }

  /** A record comes out of several parsers iff one of them produces it. */
  lemma {:induction false} ApplyAllMember(ps: seq<Parser>, out: string, r: Record)
    ensures r in ApplyAll(ps, out) <==> exists i :: 0 <= i < |ps| && r in ps[i](out)
  {
    if |ps| > 0 {
      ApplyAllMember(ps[1..], out, r);
      if r in ApplyAll(ps[1..], out) {
        var i :| 0 <= i < |ps[1..]| && r in ps[1..][i](out);
        assert ps[1..][i] == ps[i + 1];
      }
      if exists i :: 0 <= i < |ps| && r in ps[i](out) {
        var i :| 0 <= i < |ps| && r in ps[i](out);
        if i > 0 {
          assert ps[i] == ps[1..][i - 1];
        }
      }
    }
  }

  /** `parse_validator_output`: `[]` (never nil) when the entry or its stdout is missing. */
  function ParseOutput(m: ValidatorModule, raw: map<string, RawOutput>): (rs: seq<Record>)
    ensures m.id !in raw || raw[m.id].stdout.None? ==> rs == []
    ensures m.id in raw && raw[m.id].stdout.Some? ==> rs == ApplyAll(m.parsers, raw[m.id].stdout.value)
  {
    if m.id !in raw then []
    else match raw[m.id].stdout
      case None => []
      case Some(out) => ApplyAll(m.parsers, out)
  }

  /** The parse outputs of several modules, concatenated in order. */
  function ParseOutputs(ms: seq<ValidatorModule>, raw: map<string, RawOutput>): (rs: seq<Record>)
    ensures ms == [] ==> rs == []
  {
    if |ms| == 0 then [] else ParseOutput(ms[0], raw) + ParseOutputs(ms[1..], raw)
  }

  /** The output of every listed module is part of the concatenation. */
  lemma {:induction false} ParseOutputsContain(ms: seq<ValidatorModule>, raw: map<string, RawOutput>, k: nat, r: Record)
    requires k < |ms| && r in ParseOutput(ms[k], raw)
    ensures r in ParseOutputs(ms, raw)
  {
    if k > 0 {
      assert ms[k] == ms[1..][k - 1];
      ParseOutputsContain(ms[1..], raw, k - 1, r);
    }
  }

  /** The concatenation is empty iff every listed module's output is. */
  lemma {:induction false} ParseOutputsEmpty(ms: seq<ValidatorModule>, raw: map<string, RawOutput>)
    ensures ParseOutputs(ms, raw) == [] <==> forall k :: 0 <= k < |ms| ==> ParseOutput(ms[k], raw) == []
  {
    if |ms| > 0 {
      ParseOutputsEmpty(ms[1..], raw);
      if ParseOutputs(ms, raw) == [] {
        forall k | 0 <= k < |ms| ensures ParseOutput(ms[k], raw) == [] {
          if k > 0 {
            assert ms[k] == ms[1..][k - 1];
          }
        }
      }
      if forall k :: 0 <= k < |ms| ==> ParseOutput(ms[k], raw) == [] {
        forall k | 0 <= k < |ms[1..]| ensures ParseOutput(ms[1..][k], raw) == [] {
          assert ms[1..][k] == ms[k + 1];
        }
      }
    }
  }

  // ---------------------------------------------------------------------------
  // result_builder

  /** `composite_child?`: some registered composite lists the name among its children. */
  predicate CompositeChild(all: seq<string>, reg: Registry, name: string) {
    exists i :: 0 <= i < |all| && reg(all[i]).Some? && reg(all[i]).value.Composite? && name in reg(all[i]).value.children
  }

  /** The modules of a composite's children, in order; children without a module are dropped. */
  function ChildModules(reg: Registry, children: seq<string>): (ms: seq<ValidatorModule>)
    ensures |ms| <= |children|
  {
    if |children| == 0 then []
    else match reg(children[0])
      case None => ChildModules(reg, children[1..])
      case Some(m) => [m] + ChildModules(reg, children[1..])
  }

  /** A child that has a module contributes it. */
  lemma {:induction false} ChildModuleListed(reg: Registry, children: seq<string>, k: nat)
    requires k < |children| && reg(children[k]).Some?
    ensures exists j :: 0 <= j < |ChildModules(reg, children)| && ChildModules(reg, children)[j] == reg(children[k]).value
  {
    var rest := ChildModules(reg, children[1..]);
    if k == 0 {
      assert ChildModules(reg, children)[0] == reg(children[0]).value;
    } else {
      assert children[k] == children[1..][k - 1];
      ChildModuleListed(reg, children[1..], k - 1);
      var j :| 0 <= j < |rest| && rest[j] == reg(children[k]).value;
      if reg(children[0]).Some? {
        assert ChildModules(reg, children)[j + 1] == rest[j];
      } else {
        assert ChildModules(reg, children)[j] == rest[j];
      }
    }
  }

  /**
   * `build_composite_result`: the parent's output followed by each child's;
   * nil iff that is empty, else one result of the parent even when every
   * record came from a child.
   */
  function BuildComposite(m: ValidatorModule, reg: Registry, raw: map<string, RawOutput>): (b: Option<Built>)
    requires m.Composite?
    ensures b.None? <==> ParseOutput(m, raw) == [] && ParseOutputs(ChildModules(reg, m.children), raw) == []
    ensures b.Some? ==> b.value.validator == m.id
    ensures b.Some? ==> b.value.records == ParseOutput(m, raw) + ParseOutputs(ChildModules(reg, m.children), raw)
  {
    var combined := ParseOutputs([m] + ChildModules(reg, m.children), raw);
    assert ([m] + ChildModules(reg, m.children))[1..] == ChildModules(reg, m.children);
    if combined == [] then None else Some(Built(m.id, combined))
  }

  /**
   * `build_standard_result`: nil when the entry is absent, its stdout is nil,
   * there are no parsers or they produce nothing; otherwise the same records
   * `parse_validator_output` gives.
   */
  function BuildStandard(m: ValidatorModule, raw: map<string, RawOutput>): (b: Option<Built>)
    ensures b.None? <==> m.id !in raw || raw[m.id].stdout.None? || m.parsers == [] ||
                         ApplyAll(m.parsers, raw[m.id].stdout.value) == []
    ensures b.None? <==> ParseOutput(m, raw) == []
    ensures b.Some? ==> b.value == Built(m.id, ParseOutput(m, raw))
  {
    if m.id !in raw then None
    else match raw[m.id].stdout
      case None => None
      case Some(out) =>
        if m.parsers == [] then None
        else
          var parsed := ApplyAll(m.parsers, out);
          if parsed == [] then None else Some(Built(m.id, parsed))
  }

  /** `build`: nil without a module and for a composite's child; else the composite or standard result. */
  function Build(all: seq<string>, reg: Registry, raw: map<string, RawOutput>, name: string): (b: Option<Built>)
    ensures reg(name).None? ==> b.None?
    ensures CompositeChild(all, reg, name) ==> b.None?
    ensures b.Some? ==> b.value.validator == reg(name).value.id && b.value.records != []
  {
    match reg(name)
    case None => None
    case Some(m) =>
      if CompositeChild(all, reg, name) then None
      else if m.Composite? then BuildComposite(m, reg, raw)
      else BuildStandard(m, raw)
  }

  /** The names whose builder is asked: the enabled ones, in order. */
  function EnabledNames(c: Config, names: seq<string>): (en: seq<string>)
    ensures forall n :: n in en <==> n in names && Enabled(c, n)
  {
    if |names| == 0 then [] else (if Enabled(c, names[0]) then [names[0]] else []) + EnabledNames(c, names[1..])
  }

  /** Every asked builder's non-nil result, in order. */
  function BuildEach(all: seq<string>, reg: Registry, raw: map<string, RawOutput>, names: seq<string>): seq<Built> {
    if |names| == 0 then []
    else
      match Build(all, reg, raw, names[0])
      case None => BuildEach(all, reg, raw, names[1..])
      case Some(b) => [b] + BuildEach(all, reg, raw, names[1..])
  }

  /** `parse_results`: the loop over the registry, skipping disabled validators and nil results. */
  function ParseResults(all: seq<string>, c: Config, reg: Registry, raw: map<string, RawOutput>, names: seq<string>): seq<Built> {
    if |names| == 0 then []
    else
      var tail := ParseResults(all, c, reg, raw, names[1..]);
      if !Enabled(c, names[0]) then tail
      else match Build(all, reg, raw, names[0])
        case None => tail
        case Some(b) => [b] + tail
  }

  /** Every result kept comes from an enabled validator's non-nil build. */
  lemma {:induction false} ParseResultsFrom(all: seq<string>, c: Config, reg: Registry, raw: map<string, RawOutput>, names: seq<string>, b: Built)
    requires b in ParseResults(all, c, reg, raw, names)
    ensures exists i :: 0 <= i < |names| && Enabled(c, names[i]) && Build(all, reg, raw, names[i]) == Some(b)
  {
    var tail := ParseResults(all, c, reg, raw, names[1..]);
    if b in tail {
      ParseResultsFrom(all, c, reg, raw, names[1..], b);
      var i :| 0 <= i < |names[1..]| && Enabled(c, names[1..][i]) && Build(all, reg, raw, names[1..][i]) == Some(b);
      assert names[1..][i] == names[i + 1];
    } else {
      assert Enabled(c, names[0]) && Build(all, reg, raw, names[0]) == Some(b);
    }
  }

  /**
   * A disabled validator is never asked to build: the results are those of
   * the enabled names alone, with nil results dropped.
   */
  lemma {:induction false} ParseResultsEnabledOnly(all: seq<string>, c: Config, reg: Registry, raw: map<string, RawOutput>, names: seq<string>)
    ensures ParseResults(all, c, reg, raw, names) == BuildEach(all, reg, raw, EnabledNames(c, names))
  {
    if |names| > 0 {
      ParseResultsEnabledOnly(all, c, reg, raw, names[1..]);
      var rest := EnabledNames(c, names[1..]);
      if Enabled(c, names[0]) {
        assert EnabledNames(c, names) == [names[0]] + rest;
        BuildEachCons(all, reg, raw, names[0], rest);
      } else {
        assert EnabledNames(c, names) == rest;
      }
    }
  }

  lemma BuildEachCons(all: seq<string>, reg: Registry, raw: map<string, RawOutput>, n: string, rest: seq<string>)
    ensures Build(all, reg, raw, n).None? ==> BuildEach(all, reg, raw, [n] + rest) == BuildEach(all, reg, raw, rest)
    ensures Build(all, reg, raw, n).Some? ==> BuildEach(all, reg, raw, [n] + rest) == [Build(all, reg, raw, n).value] + BuildEach(all, reg, raw, rest)
  {
    assert ([n] + rest)[0] == n && ([n] + rest)[1..] == rest;
  }

  /** Results follow registry order: the results of a concatenation are the concatenated results. */
  lemma {:induction false} ParseResultsAppend(all: seq<string>, c: Config, reg: Registry, raw: map<string, RawOutput>, a: seq<string>, b: seq<string>)
    ensures ParseResults(all, c, reg, raw, a + b) == ParseResults(all, c, reg, raw, a) + ParseResults(all, c, reg, raw, b)
  {
    if |a| > 0 {
      assert (a + b)[1..] == a[1..] + b;
      assert (a + b)[0] == a[0];
      ParseResultsAppend(all, c, reg, raw, a[1..], b);
    } else {
      assert a + b == b;
    }
  }

  /** `run`: the validators run, then their results built, over the whole registry. */
  function Run(all: seq<string>, c: Config, reg: Registry, exec: ValidatorModule -> RawOutput): seq<Built> {
    ParseResults(all, c, reg, RunValidators(c, reg, exec, all), all)
  }

  /** A result in the run comes from an enabled validator, and carries that validator's id. */
  lemma RunResultFromEnabled(all: seq<string>, c: Config, reg: Registry, exec: ValidatorModule -> RawOutput, b: Built)
    requires UniqueIds(reg, all)
    requires b in Run(all, c, reg, exec)
    ensures exists i :: 0 <= i < |all| && Enabled(c, all[i]) && reg(all[i]).Some? && reg(all[i]).value.id == b.validator
  {
    var raw := RunValidators(c, reg, exec, all);
    ParseResultsFrom(all, c, reg, raw, all, b);
    var i :| 0 <= i < |all| && Enabled(c, all[i]) && Build(all, reg, raw, all[i]) == Some(b);
  }

  /** A child that is not enabled has no raw entry, so it contributes nothing to its parent. */
  lemma DisabledChildContributesNothing(all: seq<string>, c: Config, reg: Registry, exec: ValidatorModule -> RawOutput, ch: nat)
    requires UniqueIds(reg, all)
    requires ch < |all| && reg(all[ch]).Some? && !Enabled(c, all[ch])
    ensures ParseOutput(reg(all[ch]).value, RunValidators(c, reg, exec, all)) == []
  {
    RawEntryIffEnabled(c, reg, exec, all, ch);
  }

  /** With distinct ids, a result carrying a validator's id exists only if that validator is enabled. */
  lemma ResultNeedsEnabled(all: seq<string>, c: Config, reg: Registry, exec: ValidatorModule -> RawOutput, p: nat, b: Built)
    requires UniqueIds(reg, all)
    requires p < |all| && reg(all[p]).Some?
    requires b in Run(all, c, reg, exec) && b.validator == reg(all[p]).value.id
    ensures Enabled(c, all[p])
  {
    var raw := RunValidators(c, reg, exec, all);
    ParseResultsFrom(all, c, reg, raw, all, b);
    var i :| 0 <= i < |all| && Enabled(c, all[i]) && Build(all, reg, raw, all[i]) == Some(b);
    assert all[i] == all[p];
  }

  /**
   * With parent and child enabled, every record the child's parsers produce
   * on its output is in the parent's result.
   */
  lemma ChildRecordsReachParent(all: seq<string>, c: Config, reg: Registry, exec: ValidatorModule -> RawOutput, p: nat, ch: nat, r: Record)
    requires UniqueIds(reg, all)
    requires p < |all| && ch < |all|
    requires reg(all[p]).Some? && reg(all[p]).value.Composite? && !CompositeChild(all, reg, all[p])
    requires all[ch] in reg(all[p]).value.children && reg(all[ch]).Some?
    requires Enabled(c, all[p]) && Enabled(c, all[ch]) && exec(reg(all[ch]).value).stdout.Some?
    requires r in ApplyAll(reg(all[ch]).value.parsers, exec(reg(all[ch]).value).stdout.value)
    ensures exists b :: b in Run(all, c, reg, exec) && b.validator == reg(all[p]).value.id && r in b.records
  {
    var raw := RunValidators(c, reg, exec, all);
    var pm := reg(all[p]).value;
    var cm := reg(all[ch]).value;
    RawResults(c, reg, exec, all);
    assert raw[cm.id] == exec(cm);
    assert r in ParseOutput(cm, raw);
    ChildRecordInComposite(pm, reg, raw, all[ch], r);
    var b := BuildComposite(pm, reg, raw).value;
    assert Build(all, reg, raw, all[p]) == Some(b);
    RunContains(all, c, reg, raw, all, p, b);
  }

  /** A record of a child's output is in its composite's result. */
  lemma ChildRecordInComposite(pm: ValidatorModule, reg: Registry, raw: map<string, RawOutput>, child: string, r: Record)
    requires pm.Composite? && child in pm.children && reg(child).Some?
    requires r in ParseOutput(reg(child).value, raw)
    ensures BuildComposite(pm, reg, raw).Some? && r in BuildComposite(pm, reg, raw).value.records
  {
    var k :| 0 <= k < |pm.children| && pm.children[k] == child;
    ChildModuleListed(reg, pm.children, k);
    var kids := ChildModules(reg, pm.children);
    var j :| 0 <= j < |kids| && kids[j] == reg(child).value;
    ParseOutputsContain(kids, raw, j, r);
  }

  /** The results kept from a list: the first name's, if any, then the rest's. */
  lemma ParseResultsCons(all: seq<string>, c: Config, reg: Registry, raw: map<string, RawOutput>, names: seq<string>)
    requires |names| > 0
    ensures ParseResults(all, c, reg, raw, names) ==
              (if Enabled(c, names[0]) && Build(all, reg, raw, names[0]).Some? then [Build(all, reg, raw, names[0]).value] else []) +
              ParseResults(all, c, reg, raw, names[1..])
  {
  }

  /** The result of an enabled validator is among the results. */
  lemma {:induction false} RunContains(all: seq<string>, c: Config, reg: Registry, raw: map<string, RawOutput>, names: seq<string>, k: nat, b: Built)
    requires k < |names| && Enabled(c, names[k]) && Build(all, reg, raw, names[k]) == Some(b)
    ensures b in ParseResults(all, c, reg, raw, names)
  {
    ParseResultsCons(all, c, reg, raw, names);
    if k > 0 {
      assert names[k] == names[1..][k - 1];
      RunContains(all, c, reg, raw, names[1..], k - 1, b);
    }
  }
}

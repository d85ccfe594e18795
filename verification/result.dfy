/**
 * The aggregate result: the parsed records of eight offense families turned
 * into offenses in a fixed family order, with a severity taken from the
 * configuration (or a per-family default when there is none), and the
 * summaries built on them: count, statistics by severity and exit code.
 */
module LintResult {
  import opened Common
  import opened Text
  import opened Records
  import opened ConfigValue
  import opened Config
  import opened Messages

  /** One offense: severity, `line` or `method`, name, message and where it is. */
  datatype Offense = Offense(severity: Value, kind: string, name: Field, message: Field, location: Field, locationLine: Field)

  datatype Family =
    | Warnings | Undocumented | MethodArguments | InvalidTypes
    | TagOrder | ApiTags | AbstractMethods | OptionTags

  /** The key of the input hash the family reads. */
  function FamilyKey(f: Family): string {
    match f
    case Warnings => "warnings"
    case Undocumented => "undocumented"
    case MethodArguments => "undocumented_method_arguments"
    case InvalidTypes => "invalid_tags_types"
    case TagOrder => "invalid_tags_order"
    case ApiTags => "api_tags"
    case AbstractMethods => "abstract_methods"
    case OptionTags => "option_tags"
  }

  /** The severity used when there is no configuration. */
  function FamilyDefault(f: Family): string {
    match f
    case Warnings => "error"
    case TagOrder => "convention"
    case _ => "warning"
  }

  /** The offense type: `line` for YARD warnings, undocumented objects and API tags, `method` otherwise. */
  function FamilyKind(f: Family): string {
    if f == Warnings || f == Undocumented || f == ApiTags then "line" else "method"
  }

  /** The validator whose severity applies to a record of the family; a warning named N belongs to `Warnings/N`. */
  function FamilyValidator(f: Family, r: Record): string {
    match f
    case Warnings => "Warnings/" + Interp(At(r, "name"))
    case Undocumented => "Documentation/UndocumentedObjects"
    case MethodArguments => "Documentation/UndocumentedMethodArguments"
    case InvalidTypes => "Tags/InvalidTypes"
    case TagOrder => "Tags/Order"
    case ApiTags => "Tags/ApiTags"
    case AbstractMethods => "Semantic/AbstractMethods"
    case OptionTags => "Tags/OptionTags"
  }

  /** `data[key] || []`. */
  function Input(data: map<string, seq<Record>>, f: Family): (rs: seq<Record>)
    ensures FamilyKey(f) !in data ==> rs == []
    ensures FamilyKey(f) in data ==> rs == data[FamilyKey(f)]
  {
    if FamilyKey(f) in data then data[FamilyKey(f)] else []
  }

  /** `configured_severity`: the default without a configuration, else the validator's configured severity. */
  function ConfiguredSeverity(config: Option<Config>, validator: string, default: string): (s: Value)
    ensures config.None? ==> s == VStr(default)
    ensures config.Some? ==> s == ValidatorSeverity(config.value, validator)
  {
    match config
    case None => VStr(default)
    case Some(c) => ValidatorSeverity(c, validator)
  }

  /** The message each family writes; the four built ones spelled out as the aggregate spells them. */
  function FamilyMessage(f: Family, r: Record): Field {
    match f
    case Undocumented => FStr("Documentation required for `" + Interp(At(r, "element")) + "`")
    case MethodArguments =>
      FStr("The `" + Interp(At(r, "method_name")) + "` method is missing documentation for some of the arguments.")
    case InvalidTypes =>
      FStr("The `" + Interp(At(r, "method_name")) + "` has at least one tag with an invalid type definition.")
    case TagOrder =>
      FStr("The `" + Interp(At(r, "method_name")) + "` has yard tags in an invalid order. Following tags need to be in the presented order: " +
           Join(Quoted(RubySplit(Interp(At(r, "order")), ',')), ", ") + ".")
    case _ => At(r, "message")
  }

  function FamilyName(f: Family, r: Record): Field {
    match f
    case Undocumented => FStr("UndocumentedObject")
    case MethodArguments => FStr("UndocumentedMethodArgument")
    case InvalidTypes => FStr("InvalidTagType")
    case TagOrder => FStr("InvalidTagsOrder")
    case _ => At(r, "name")
  }

  function BuildOffense(f: Family, config: Option<Config>, r: Record): (o: Offense)
    ensures o.severity == ConfiguredSeverity(config, FamilyValidator(f, r), FamilyDefault(f))
    ensures o.kind == FamilyKind(f)
    ensures o.location == At(r, "location") && o.locationLine == At(r, "line")
  {
    Offense(ConfiguredSeverity(config, FamilyValidator(f, r), FamilyDefault(f)), FamilyKind(f),
            FamilyName(f, r), FamilyMessage(f, r), At(r, "location"), At(r, "line"))
  }

  /** `build_*_offenses`: one offense per record of the family, in order. */
  function FamilyOffenses(f: Family, config: Option<Config>, rs: seq<Record>): (os: seq<Offense>)
    ensures |os| == |rs|
    ensures forall i :: 0 <= i < |rs| ==> os[i] == BuildOffense(f, config, rs[i])
  {
    seq(|rs|, i requires 0 <= i < |rs| => BuildOffense(f, config, rs[i]))
  }

  /** `offenses`: the families concatenated in their fixed order. */
  function Offenses(data: map<string, seq<Record>>, config: Option<Config>): seq<Offense> {
    FamilyOffenses(Warnings, config, Input(data, Warnings)) +
    FamilyOffenses(Undocumented, config, Input(data, Undocumented)) +
    FamilyOffenses(MethodArguments, config, Input(data, MethodArguments)) +
    FamilyOffenses(InvalidTypes, config, Input(data, InvalidTypes)) +
    FamilyOffenses(TagOrder, config, Input(data, TagOrder)) +
    FamilyOffenses(ApiTags, config, Input(data, ApiTags)) +
    FamilyOffenses(AbstractMethods, config, Input(data, AbstractMethods)) +
    FamilyOffenses(OptionTags, config, Input(data, OptionTags))
  }

  /** The number of input records over all families. */
  function InputSize(data: map<string, seq<Record>>): nat {
    |Input(data, Warnings)| + |Input(data, Undocumented)| + |Input(data, MethodArguments)| + |Input(data, InvalidTypes)| +
    |Input(data, TagOrder)| + |Input(data, ApiTags)| + |Input(data, AbstractMethods)| + |Input(data, OptionTags)|
  }

  /** `count`: one offense per input record. */
  function Count(data: map<string, seq<Record>>, config: Option<Config>): (n: nat)
    ensures n == InputSize(data)
  {
    |Offenses(data, config)|
  }

  predicate HasOffenses(data: map<string, seq<Record>>, config: Option<Config>) {
    Count(data, config) > 0
  }

  predicate Clean(data: map<string, seq<Record>>, config: Option<Config>) {
    !HasOffenses(data, config)
  }

  /** A result is clean exactly when every family's input is empty or missing. */
  lemma CleanIffNoInput(data: map<string, seq<Record>>, config: Option<Config>)
    ensures Clean(data, config) <==> forall f :: Input(data, f) == []
    ensures Clean(data, config) <==> Offenses(data, config) == []
  {
    if Clean(data, config) {
      forall f ensures Input(data, f) == [] {
        match f
        case Warnings =>
        case Undocumented =>
        case MethodArguments =>
        case InvalidTypes =>
        case TagOrder =>
        case ApiTags =>
        case AbstractMethods =>
        case OptionTags =>
      }
    }
  }

  /** Without a configuration the family default applies: `error` for YARD warnings, `convention` for tag order, `warning` otherwise. */
  lemma SeverityWithoutConfig(f: Family, r: Record)
    ensures f == Warnings ==> BuildOffense(f, None, r).severity == VStr("error")
    ensures f == TagOrder ==> BuildOffense(f, None, r).severity == VStr("convention")
    ensures f != Warnings && f != TagOrder ==> BuildOffense(f, None, r).severity == VStr("warning")
  {
    DefaultSeverity(f, r);
  }

  lemma DefaultSeverity(f: Family, r: Record)
    ensures f == Warnings ==> ConfiguredSeverity(None, FamilyValidator(f, r), FamilyDefault(f)) == VStr("error")
    ensures f == TagOrder ==> ConfiguredSeverity(None, FamilyValidator(f, r), FamilyDefault(f)) == VStr("convention")
    ensures f != Warnings && f != TagOrder ==> ConfiguredSeverity(None, FamilyValidator(f, r), FamilyDefault(f)) == VStr("warning")
  {
  }

  /**
   * With a configuration a warning named N takes the severity of `Warnings/N`;
   * every other family takes its validator's severity, the same for all its records.
   */
  lemma SeverityWithConfig(f: Family, c: Config, r1: Record, r2: Record)
    ensures f == Warnings ==> BuildOffense(f, Some(c), r1).severity == ValidatorSeverity(c, "Warnings/" + Interp(At(r1, "name")))
    ensures f != Warnings ==> BuildOffense(f, Some(c), r1).severity == BuildOffense(f, Some(c), r2).severity
  {
  }

  /** The built messages are the ones the validators' own message builders produce. */
  lemma FamilyMessagesAgree(r: Record)
    ensures FamilyMessage(Undocumented, r) == FStr(UndocumentedObjectMessage(r))
    ensures FamilyMessage(MethodArguments, r) == FStr(UndocumentedArgumentsMessage(r))
    ensures FamilyMessage(InvalidTypes, r) == FStr(InvalidTypesMessage(r))
    ensures FamilyMessage(TagOrder, r) == FStr(OrderMessage(r))
  {
    OrderMessageAgrees(r);
    InvalidTypesMessageAgrees(r);
    UndocumentedMessageAgrees(r);
    ArgumentsMessageAgrees(r);
  }

  lemma UndocumentedMessageAgrees(r: Record)
    ensures FamilyMessage(Undocumented, r) == FStr(UndocumentedObjectMessage(r))
  {
  }

  lemma ArgumentsMessageAgrees(r: Record)
    ensures FamilyMessage(MethodArguments, r) == FStr(UndocumentedArgumentsMessage(r))
  {
  }

  lemma OrderMessageAgrees(r: Record)
    ensures FamilyMessage(TagOrder, r) == FStr(OrderMessage(r))
  {
  }

  lemma InvalidTypesMessageAgrees(r: Record)
    ensures FamilyMessage(InvalidTypes, r) == FStr(InvalidTypesMessage(r))
  {
  }

  // ---------------------------------------------------------------------------
  // statistics

  datatype Stats = Stats(error: nat, warning: nat, convention: nat, total: nat)

  function Severities(os: seq<Offense>): (ss: seq<Value>)
    ensures |ss| == |os|
    ensures forall i :: 0 <= i < |os| ==> ss[i] == os[i].severity
  {
    if |os| == 0 then [] else [os[0].severity] + Severities(os[1..])
  }

  lemma SeveritiesCons(os: seq<Offense>)
    requires |os| > 0
    ensures multiset(Severities(os)) == multiset{os[0].severity} + multiset(Severities(os[1..]))
  {
    assert Severities(os) == [os[0].severity] + Severities(os[1..]);
  }

  predicate StringSeverities(os: seq<Offense>) {
    forall i :: 0 <= i < |os| ==> os[i].severity.VStr?
  }

  /**
   * One step of `statistics`: the counter named by the severity is bumped
   * when the hash has that key, and then `total` is bumped. The key check
   * also admits `total` itself, so an offense of severity "total" bumps it twice.
   */
  function Bump(stats: Stats, s: string): Stats {
    var t :=
      if s == "error" then stats.(error := stats.error + 1)
      else if s == "warning" then stats.(warning := stats.warning + 1)
      else if s == "convention" then stats.(convention := stats.convention + 1)
      else if s == "total" then stats.(total := stats.total + 1)
      else stats;
    t.(total := t.total + 1)
  }

  lemma BumpTotal(stats: Stats, s: string)
    ensures Bump(stats, s).total == stats.total + 1 + (if s == "total" then 1 else 0)
  {
  }

  lemma BumpLevels(stats: Stats, s: string)
    ensures var b := Bump(stats, s);
      b.error + b.warning + b.convention == stats.error + stats.warning + stats.convention + (if Counted(s) then 1 else 0)
  {
  }

  /**
   * `statistics`: one pass over the offenses. A severity that is not a
   * string has no `to_sym`, and the pass fails.
   */
  function Statistics(os: seq<Offense>): (r: Option<Stats>)
    ensures r.Some? <==> StringSeverities(os)
    ensures r.Some? ==> r.value.total == |os| + multiset(Severities(os))[VStr("total")]
  {
    if |os| == 0 then Some(Stats(0, 0, 0, 0))
    else
      match os[0].severity
      case VStr(s) =>
        (match Statistics(os[1..])
         case None => None
         case Some(rest) =>
           SeveritiesCons(os);
           BumpTotal(rest, s);
           Some(Bump(rest, s)))
      case _ => None
  }

  /** The counter `statistics` keeps for one of the three levels. */
  function Counter(st: Stats, level: string): nat {
    if level == "error" then st.error else if level == "warning" then st.warning else st.convention
  }

  predicate Counted(level: string) {
    level == "error" || level == "warning" || level == "convention"
  }

  lemma BumpCounter(st: Stats, s: string, level: string)
    requires Counted(level)
    ensures Counter(Bump(st, s), level) == Counter(st, level) + (if s == level then 1 else 0)
  {
  }

  /** Each of the three counters is the number of offenses with exactly that severity. */
  lemma {:induction false} StatisticsCounts(os: seq<Offense>, level: string)
    requires StringSeverities(os) && Counted(level)
    ensures Counter(Statistics(os).value, level) == multiset(Severities(os))[VStr(level)]
    decreases |os|
  {
    if |os| > 0 {
      var s := os[0].severity.str;
      var rest := Statistics(os[1..]).value;
      calc {
        Counter(Statistics(os).value, level);
      == { assert Statistics(os) == Some(Bump(rest, s)); }
        Counter(Bump(rest, s), level);
      == { BumpCounter(rest, s, level); }
        Counter(rest, level) + (if s == level then 1 else 0);
      == { StatisticsCounts(os[1..], level); }
        multiset(Severities(os[1..]))[VStr(level)] + (if s == level then 1 else 0);
      == { SeveritiesCons(os); }
        multiset(Severities(os))[VStr(level)];
      }
    }
  }

  /**
   * The three counted severities together with the "total" severities never
   * exceed the number of offenses, and the three reach the total exactly when
   * no other severity occurs.
   */
  lemma {:induction false} StatisticsTotal(os: seq<Offense>)
    requires StringSeverities(os)
    ensures Statistics(os).Some?
    ensures Statistics(os).value.error + Statistics(os).value.warning + Statistics(os).value.convention
            + multiset(Severities(os))[VStr("total")] <= |os|
    ensures Statistics(os).value.error + Statistics(os).value.warning + Statistics(os).value.convention == Statistics(os).value.total
            <==> forall i :: 0 <= i < |os| ==> os[i].severity in {VStr("error"), VStr("warning"), VStr("convention")}
    decreases |os|
  {
    if |os| > 0 {
      var s := os[0].severity.str;
      var rest := Statistics(os[1..]).value;
      StatisticsTotal(os[1..]);
      SeveritiesCons(os);
      BumpLevels(rest, s);
      BumpTotal(rest, s);
      assert Statistics(os).value == Bump(rest, s);
      assert forall i :: 1 <= i < |os| ==> os[1..][i - 1] == os[i];
    }
  }

  /** A single offense of severity "total" makes `statistics` report a total of two. */
  lemma StatisticsTotalCountedTwice(o: Offense)
    requires o.severity == VStr("total")
    ensures Statistics([o]) == Some(Stats(0, 0, 0, 2))
  {
    assert [o][1..] == [];
  }

  // ---------------------------------------------------------------------------
  // exit code

  predicate AnySeverity(os: seq<Offense>, levels: set<string>) {
    exists i :: 0 <= i < |os| && os[i].severity.VStr? && os[i].severity.str in levels
  }

  /** `exit_code` for a fail-on setting. */
  function ExitCodeFor(os: seq<Offense>, failOn: Value): (code: int)
    ensures code == 0 || code == 1
    ensures os == [] || failOn == VStr("never") ==> code == 0
    ensures os != [] && failOn == VStr("error") ==> (code == 1 <==> AnySeverity(os, {"error"}))
    ensures os != [] && failOn == VStr("warning") ==> (code == 1 <==> AnySeverity(os, {"error", "warning"}))
    ensures os != [] && !(failOn in {VStr("never"), VStr("error"), VStr("warning")}) ==> code == 1
  {
    if os == [] then 0
    else if failOn == VStr("never") then 0
    else if failOn == VStr("error") then (if exists i :: 0 <= i < |os| && os[i].severity == VStr("error") then 1 else 0)
    else if failOn == VStr("warning") then
      (if exists i :: 0 <= i < |os| && (os[i].severity == VStr("error") || os[i].severity == VStr("warning")) then 1 else 0)
    else if failOn == VStr("convention") then 1
    else 1
  }

  function ExitCode(data: map<string, seq<Record>>, config: Option<Config>, c: Config): int {
    ExitCodeFor(Offenses(data, config), FailOnSeverity(c))
  }

  /** Failing on a lower severity never gives a lower exit code. */
  lemma ExitCodeMonotone(os: seq<Offense>)
    ensures ExitCodeFor(os, VStr("error")) <= ExitCodeFor(os, VStr("warning")) <= ExitCodeFor(os, VStr("convention"))
  {
    if ExitCodeFor(os, VStr("error")) == 1 {
      var i :| 0 <= i < |os| && os[i].severity.VStr? && os[i].severity.str in {"error"};
      assert os[i].severity.str in {"error", "warning"};
    }
  }
}

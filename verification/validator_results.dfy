/**
 * The result objects of four validators that build their offenses
 * themselves: YARD warnings (`Warnings/Stats`), option tags, API tags and
 * example syntax.  Each turns every parsed record into one offense, falling
 * back to the result's own name when the record has none, to `:file` when
 * it has no `:location` and to `:location_line`, then 0, when it has no
 * `:line`.
 */
module ValidatorResults {
  import opened Common
  import opened Text
  import opened Records
  import opened ConfigValue
  import opened Config
  import opened Messages
  import opened Parsers
  import opened ParserProperties
  import opened LintResult

  /** Validator names, as the result classes' module paths give them. */
  const OptionTagsValidator := "Tags/OptionTags"
  const ApiTagsValidator := "Tags/ApiTags"
  const ExampleSyntaxValidator := "Tags/ExampleSyntax"

  /** `config&.validator_severity(name) || default`. */
  function BaseSeverity(config: Option<Config>, validator: string, default: string): (s: Value)
    ensures Truthy(s)
    ensures config.None? ==> s == VStr(default)
  {
    match config
    case None => VStr(default)
    case Some(c) => OrElse(ValidatorSeverity(c, validator), VStr(default))
  }

  /**
   * The `|| default` never fires once there is a configuration, because the
   * configured severity is always truthy: this is the aggregate's
   * `configured_severity`.
   */
  lemma BaseSeverityIsConfigured(config: Option<Config>, validator: string, default: string)
    ensures BaseSeverity(config, validator, default) == ConfiguredSeverity(config, validator, default)
    ensures config.Some? ==> BaseSeverity(config, validator, default) == ValidatorSeverity(config.value, validator)
  {
  }

  /** `offense_data[:line] || offense_data[:location_line] || 0`. */
  function LineOf(r: Record): (f: Field)
    ensures !f.FNil?
    ensures !At(r, "line").FNil? ==> f == At(r, "line")
    ensures At(r, "line").FNil? && !At(r, "location_line").FNil? ==> f == At(r, "location_line")
    ensures f == FInt(0) <==> (At(r, "line").FNil? || At(r, "line") == FInt(0)) &&
                              (!At(r, "line").FNil? || At(r, "location_line").FNil? || At(r, "location_line") == FInt(0))
  {
    Or(Or(At(r, "line"), At(r, "location_line")), FInt(0))
  }

  /** The offense hash every one of these results builds for one record. */
  function RecordOffense(severity: Value, kind: string, defaultName: string, message: Field, r: Record): (o: Offense)
    ensures o.severity == severity && o.kind == kind && o.message == message
    ensures !o.name.FNil?
    ensures !At(r, "name").FNil? ==> o.name == At(r, "name")
    ensures At(r, "name").FNil? ==> o.name == FStr(defaultName)
    ensures !At(r, "location").FNil? ==> o.location == At(r, "location")
    ensures At(r, "location").FNil? ==> o.location == At(r, "file")
    ensures o.locationLine == LineOf(r)
  {
    Offense(severity, kind, Or(At(r, "name"), FStr(defaultName)), message, Or(At(r, "location"), At(r, "file")), LineOf(r))
  }

  // ---------------------------------------------------------------------------
  // YARD warnings

  /** The warning's name, `YardWarning` when the record has none. */
  function WarningName(r: Record): (f: Field)
    ensures !f.FNil?
  {
    Or(At(r, "name"), FStr("YardWarning"))
  }

  /** One warning: its severity is looked up under `Warnings/<name>`, default `error`. */
  function WarningOffense(config: Option<Config>, r: Record): (o: Offense)
    ensures o.kind == "line" && o.message == At(r, "message") && o.name == WarningName(r)
    ensures config.None? ==> o.severity == VStr("error")
    ensures config.Some? ==> o.severity == ValidatorSeverity(config.value, "Warnings/" + Interp(WarningName(r)))
  {
    RecordOffense(BaseSeverity(config, "Warnings/" + Interp(WarningName(r)), "error"), "line", "YardWarning", At(r, "message"), r)
  }

  function WarningOffenses(config: Option<Config>, rs: seq<Record>): (os: seq<Offense>)
    ensures |os| == |rs|
    ensures forall i :: 0 <= i < |rs| ==> os[i] == WarningOffense(config, rs[i])
  {
    seq(|rs|, i requires 0 <= i < |rs| => WarningOffense(config, rs[i]))
  }

  /**
   * On a record that carries its name, location and line, the warnings
   * result builds exactly the offense the aggregate builds for it.
   */
  lemma WarningAgreesWithAggregate(config: Option<Config>, r: Record)
    requires !At(r, "name").FNil? && !At(r, "location").FNil? && !At(r, "line").FNil?
    ensures WarningOffense(config, r) == BuildOffense(Warnings, config, r)
  {
  }

  /**
   * Without a name, location or line the two differ: the warnings result
   * falls back to `YardWarning`, `:file` and `:location_line` or 0, the
   * aggregate leaves the field nil.
   */
  lemma WarningFallbacksDifferFromAggregate(config: Option<Config>, r: Record)
    ensures At(r, "name").FNil? ==> WarningOffense(config, r).name == FStr("YardWarning") && BuildOffense(Warnings, config, r).name == FNil
    ensures At(r, "line").FNil? ==> !WarningOffense(config, r).locationLine.FNil? && BuildOffense(Warnings, config, r).locationLine == FNil
    ensures At(r, "location").FNil? ==> WarningOffense(config, r).location == At(r, "file") && BuildOffense(Warnings, config, r).location == FNil
  {
  }

  /** Two warnings of the same name get the same severity; the rest of the record plays no part. */
  lemma WarningSeverityByName(config: Option<Config>, r1: Record, r2: Record)
    requires WarningName(r1) == WarningName(r2)
    ensures WarningOffense(config, r1).severity == WarningOffense(config, r2).severity
  {
  }

  // ---------------------------------------------------------------------------
  // Option tags

  function OptionTagsOffense(config: Option<Config>, r: Record): (o: Offense)
    ensures o.kind == "method" && o.message == FStr(OptionTagsMessage(r))
    ensures o.severity == ConfiguredSeverity(config, OptionTagsValidator, "warning")
  {
    BaseSeverityIsConfigured(config, OptionTagsValidator, "warning");
    RecordOffense(BaseSeverity(config, OptionTagsValidator, "warning"), "method", "OptionTagViolation", FStr(OptionTagsMessage(r)), r)
  }

  function OptionTagsOffenses(config: Option<Config>, rs: seq<Record>): (os: seq<Offense>)
    ensures |os| == |rs|
    ensures forall i :: 0 <= i < |rs| ==> os[i] == OptionTagsOffense(config, rs[i])
  {
    seq(|rs|, i requires 0 <= i < |rs| => OptionTagsOffense(config, rs[i]))
  }

  /** All offenses of one option-tags result share one severity and name their method. */
  lemma OptionTagsUniform(config: Option<Config>, rs: seq<Record>, i: nat, j: nat)
    requires i < |rs| && j < |rs|
    ensures OptionTagsOffenses(config, rs)[i].severity == OptionTagsOffenses(config, rs)[j].severity
    ensures OptionTagsOffenses(config, rs)[i].message == FStr("Method `" + Interp(At(rs[i], "method_name")) +
              "` has options parameter but no @option tags documenting the available options")
  {
  }

  // ---------------------------------------------------------------------------
  // API tags

  predicate ApiBuildable(r: Record) {
    !(At(r, "status").FInt? && At(r, "api_value").FNil?)
  }

  /** The message builder fails on a record whose status is not a string and has no value. */
  function ApiTagsOffense(config: Option<Config>, r: Record): (o: Option<Offense>)
    ensures o.None? <==> At(r, "status").FInt? && At(r, "api_value").FNil?
    ensures o.Some? ==> o.value.kind == "line" && o.value.severity == ConfiguredSeverity(config, ApiTagsValidator, "warning")
  {
    BaseSeverityIsConfigured(config, ApiTagsValidator, "warning");
    match ApiTagsMessage(r)
    case None => None
    case Some(m) => Some(RecordOffense(BaseSeverity(config, ApiTagsValidator, "warning"), "line", "ApiTagViolation", FStr(m), r))
  }

  /** The offense carries the message builder's message. */
  lemma ApiTagsOffenseMessage(config: Option<Config>, r: Record)
    requires ApiBuildable(r)
    ensures ApiTagsMessage(r).Some? && ApiTagsOffense(config, r).Some?
    ensures ApiTagsOffense(config, r).value.message == FStr(ApiTagsMessage(r).value)
  {
  }

  /** `Some(offenses)` when every record's message can be built, else `None`. */
  function ApiTagsOffenses(config: Option<Config>, rs: seq<Record>): (os: Option<seq<Offense>>)
  {
    if |rs| == 0 then Some([])
    else match ApiTagsOffense(config, rs[0])
      case None => None
      case Some(o) => (
        match ApiTagsOffenses(config, rs[1..])
        case None => None
        case Some(tail) => Some([o] + tail))
  }


  /** The API-tags result builds iff every record's message can be built. */
  lemma {:induction false} ApiTagsOffensesBuild(config: Option<Config>, rs: seq<Record>)
    ensures ApiTagsOffenses(config, rs).Some? <==> AllApiBuildable(rs)
  {
    if |rs| > 0 {
      ApiTagsOffensesStep(config, rs);
      ApiTagsOffensesBuild(config, rs[1..]);
      AllApiBuildableCons(rs);
    }
  }

  predicate AllApiBuildable(rs: seq<Record>) {
    forall i :: 0 <= i < |rs| ==> ApiBuildable(rs[i])
  }

  lemma AllApiBuildableCons(rs: seq<Record>)
    requires |rs| > 0
    ensures AllApiBuildable(rs) <==> ApiBuildable(rs[0]) && AllApiBuildable(rs[1..])
  {
    if ApiBuildable(rs[0]) && AllApiBuildable(rs[1..]) {
      forall i | 0 <= i < |rs| ensures ApiBuildable(rs[i]) {
        if i > 0 {
          assert rs[i] == rs[1..][i - 1];
        }
      }
    }
  }

  /** The result builds iff the first record and the rest do. */
  lemma ApiTagsOffensesStep(config: Option<Config>, rs: seq<Record>)
    requires |rs| > 0
    ensures ApiTagsOffenses(config, rs).Some? <==> ApiBuildable(rs[0]) && ApiTagsOffenses(config, rs[1..]).Some?
  {
  }

  /** A built result starts with the first record's offense. */
  lemma ApiTagsOffensesCons(config: Option<Config>, rs: seq<Record>)
    requires |rs| > 0 && ApiTagsOffenses(config, rs).Some?
    ensures ApiTagsOffense(config, rs[0]).Some? && ApiTagsOffenses(config, rs[1..]).Some?
    ensures ApiTagsOffenses(config, rs).value == [ApiTagsOffense(config, rs[0]).value] + ApiTagsOffenses(config, rs[1..]).value
  {
  }

  /** When it builds, the API-tags result holds one offense per record, in order. */
  lemma {:induction false} ApiTagsOffensesInOrder(config: Option<Config>, rs: seq<Record>)
    requires ApiTagsOffenses(config, rs).Some?
    ensures |ApiTagsOffenses(config, rs).value| == |rs|
    ensures forall i :: 0 <= i < |rs| ==> Some(ApiTagsOffenses(config, rs).value[i]) == ApiTagsOffense(config, rs[i])
  {
    if |rs| > 0 {
      ApiTagsOffensesCons(config, rs);
      ApiTagsOffensesInOrder(config, rs[1..]);
      ApiTagsInOrderStep(config, rs, ApiTagsOffenses(config, rs).value, ApiTagsOffenses(config, rs[1..]).value);
    }
  }

  /** Per-index agreement carries over from the tail to the whole list. */
  lemma ApiTagsInOrderStep(config: Option<Config>, rs: seq<Record>, os: seq<Offense>, tail: seq<Offense>)
    requires |rs| > 0 && ApiTagsOffense(config, rs[0]).Some?
    requires os == [ApiTagsOffense(config, rs[0]).value] + tail && |tail| == |rs| - 1
    requires forall i :: 0 <= i < |tail| ==> Some(tail[i]) == ApiTagsOffense(config, rs[1..][i])
    ensures |os| == |rs| && forall i :: 0 <= i < |rs| ==> Some(os[i]) == ApiTagsOffense(config, rs[i])
  {
    forall i | 0 <= i < |rs| ensures Some(os[i]) == ApiTagsOffense(config, rs[i]) {
      if i > 0 {
        assert rs[i] == rs[1..][i - 1];
        assert os[i] == tail[i - 1];
      }
    }
  }

  // ---------------------------------------------------------------------------
  // Example syntax

  function ExampleSyntaxOffense(config: Option<Config>, r: Record): (o: Offense)
    ensures o.kind == "line" && o.message == FStr(ExampleSyntaxMessage(r))
    ensures o.severity == ConfiguredSeverity(config, ExampleSyntaxValidator, "warning")
  {
    BaseSeverityIsConfigured(config, ExampleSyntaxValidator, "warning");
    RecordOffense(BaseSeverity(config, ExampleSyntaxValidator, "warning"), "line", "ExampleSyntaxError", FStr(ExampleSyntaxMessage(r)), r)
  }

  function ExampleSyntaxOffenses(config: Option<Config>, rs: seq<Record>): (os: seq<Offense>)
    ensures |os| == |rs|
    ensures forall i :: 0 <= i < |rs| ==> os[i] == ExampleSyntaxOffense(config, rs[i])
  {
    seq(|rs|, i requires 0 <= i < |rs| => ExampleSyntaxOffense(config, rs[i]))
  }

  /**
   * The parser always names its records, so the `ExampleSyntaxError`
   * fallback is never used on parsed output: every offense is named
   * `ExampleSyntax`.
   */
  lemma ParsedExamplesNamed(config: Option<Config>, output: string)
    ensures forall o :: o in ExampleSyntaxOffenses(config, ParseExampleSyntax(output)) ==> o.name == FStr("ExampleSyntax")
  {
    var rs := ParseExampleSyntax(output);
    var os := ExampleSyntaxOffenses(config, rs);
    forall o | o in os ensures o.name == FStr("ExampleSyntax") {
      var i :| 0 <= i < |os| && os[i] == o;
      assert At(rs[i], "name") == FStr("ExampleSyntax");
    }
  }

  /**
   * End to end: the offenses built from the validator's output for a list
   * of syntax errors report, in order, each error's location, line and
   * message.
   */
  lemma ExampleSyntaxEndToEnd(config: Option<Config>, es: seq<ExampleItem>, i: nat)
    requires forall k :: 0 <= k < |es| ==> ExampleItemOk(es[k])
    requires i < |es|
    ensures |ExampleSyntaxOffenses(config, ParseExampleSyntax(Join(ExampleBlocks(es), "\n")))| == |es|
    ensures ExampleSyntaxOffenses(config, ParseExampleSyntax(Join(ExampleBlocks(es), "\n")))[i] ==
              Offense(ConfiguredSeverity(config, ExampleSyntaxValidator, "warning"), "line", FStr("ExampleSyntax"),
                      FStr(ExampleSyntaxMessage(ExampleFields(es[i]))), FStr(es[i].location), FInt(es[i].line))
  {
    ExampleSyntaxRoundTrip(es);
    var r := ExampleFields(es[i]);
    assert At(r, "name") == FStr("ExampleSyntax");
    assert At(r, "location") == FStr(es[i].location);
    assert At(r, "line") == FInt(es[i].line);
  }
}

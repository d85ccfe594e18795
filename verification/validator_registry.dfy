/**
 * The registry as the gem ships it. `Documentation/UndocumentedObjects`, with
 * module id `undocumented_objects`, is the one composite: it combines with
 * `Documentation/UndocumentedBooleanMethods`. Every other validator that has
 * a module is standard. The parser lists, and the other modules with their
 * ids, stay parameters.
 */
module ValidatorRegistry {
  import opened Common
  import opened ConfigLoader
  import opened Runner

  const UndocumentedObjects := "Documentation/UndocumentedObjects"
  const UndocumentedBooleanMethods := "Documentation/UndocumentedBooleanMethods"

  /** The composite module of `Documentation/UndocumentedObjects`. */
  function ObjectsModule(parsers: seq<Parser>): ValidatorModule {
    Composite("undocumented_objects", parsers, [UndocumentedBooleanMethods])
  }

  /** The shipped registry: the one composite, and a standard module for each name `others` gives one. */
  function Shipped(objectParsers: seq<Parser>, others: string -> Option<(string, seq<Parser>)>): Registry {
    n =>
      if n == UndocumentedObjects then Some(ObjectsModule(objectParsers))
      else match others(n)
        case None => None
        case Some((id, ps)) => Some(Standard(id, ps))
  }

  lemma ObjectsFirst()
    ensures |AllValidators()| > 0 && AllValidators()[0] == UndocumentedObjects
  {
    AllValidatorsList();
  }

  lemma BooleanIsNotObjects()
    ensures UndocumentedBooleanMethods != UndocumentedObjects
  {
    assert UndocumentedBooleanMethods[|"Documentation/Undocumented"|] != UndocumentedObjects[|"Documentation/Undocumented"|];
  }

  /** In the shipped registry, `Documentation/UndocumentedBooleanMethods` is the one composite child. */
  lemma ShippedCompositeChildren(objectParsers: seq<Parser>, others: string -> Option<(string, seq<Parser>)>, n: string)
    ensures CompositeChild(AllValidators(), Shipped(objectParsers, others), n) <==> n == UndocumentedBooleanMethods
  {
    var reg := Shipped(objectParsers, others);
    var all := AllValidators();
    ObjectsFirst();
    if n == UndocumentedBooleanMethods {
      assert reg(all[0]) == Some(ObjectsModule(objectParsers));
      assert n in reg(all[0]).value.children;
    }
    if CompositeChild(all, reg, n) {
      var i :| 0 <= i < |all| && reg(all[i]).Some? && reg(all[i]).value.Composite? && n in reg(all[i]).value.children;
      assert all[i] == UndocumentedObjects;
    }
  }

  /** `build` never returns a result for `Documentation/UndocumentedBooleanMethods` on its own. */
  lemma BooleanMethodsNeverBuilt(objectParsers: seq<Parser>, others: string -> Option<(string, seq<Parser>)>, raw: map<string, RawOutput>)
    ensures Build(AllValidators(), Shipped(objectParsers, others), raw, UndocumentedBooleanMethods) == None
  {
    ShippedCompositeChildren(objectParsers, others, UndocumentedBooleanMethods);
  }

  /**
   * `build` for `Documentation/UndocumentedObjects` reports under
   * `undocumented_objects` its own records followed by those of the boolean
   * methods validator, when that one has a module; nothing when both are empty.
   */
  lemma ObjectsFoldsBooleanMethods(objectParsers: seq<Parser>, others: string -> Option<(string, seq<Parser>)>, raw: map<string, RawOutput>)
    ensures var reg := Shipped(objectParsers, others);
      var own := ParseOutput(ObjectsModule(objectParsers), raw);
      var child := if reg(UndocumentedBooleanMethods).Some? then ParseOutput(reg(UndocumentedBooleanMethods).value, raw) else [];
      var b := Build(AllValidators(), reg, raw, UndocumentedObjects);
      (b.None? <==> own + child == []) &&
      (b.Some? ==> b.value == Built("undocumented_objects", own + child))
  {
    var reg := Shipped(objectParsers, others);
    var m := ObjectsModule(objectParsers);
    assert reg(UndocumentedObjects) == Some(m);
    ShippedCompositeChildren(objectParsers, others, UndocumentedObjects);
    BooleanIsNotObjects();
    var ms := ChildModules(reg, m.children);
    assert m.children[1..] == [];
    if reg(UndocumentedBooleanMethods).Some? {
      assert ms == [reg(UndocumentedBooleanMethods).value];
      assert ParseOutputs(ms, raw) == ParseOutput(ms[0], raw) + ParseOutputs(ms[1..], raw);
    } else {
      assert ms == [];
    }
  }
}

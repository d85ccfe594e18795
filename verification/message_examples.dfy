/**
 * The computed parts of the messages on the values their documentation
 * uses as examples: the collection-type rewrite, the tag-order list and
 * the `invalid:` prefix removal of the API-tag message.
 */
module MessageExamples {
  import opened Common
  import opened Text
  import opened Records
  import opened Messages

  lemma UndocumentedClassExample()
    ensures UndocumentedObjectMessage(map["element" := FStr("MyClass")]) == "Documentation required for `MyClass`"
  {
  }

  lemma UndocumentedNestedClassExample()
    ensures UndocumentedObjectMessage(map["element" := FStr("MyModule::MyClass")]) == "Documentation required for `MyModule::MyClass`"
  {
  }

  /** The status with its `invalid:` prefix removed: `'invalid:deprecated'` shows as `'deprecated'`. */
  lemma ApiStatusExample()
    ensures ReplaceFirst("invalid:deprecated", "invalid:", "") == "deprecated"
  {
    var s := "invalid:deprecated";
    assert OccursAt(s, "invalid:", 0);
    assert FindFirst(s, "invalid:", 0) == Some(0);
    assert s[8..] == "deprecated";
  }

  lemma OrderOneTagExample()
    ensures OrderList(FStr("param")) == "`param`"
  {
    OneTagSplit();
    assert "`" + "param" + "`" == "`param`";
    assert Quoted(["param"]) == ["`param`"];
    assert Join(["`param`"], ", ") == "`param`";
  }

  lemma OneTagSplit()
    ensures RubySplit("param", ',') == ["param"]
  {
    assert SplitAll("param", ',') == ["param"];
  }

  /** Splitting at a first separator: the text before it is the first piece. */
  lemma SplitAllCons(a: string, sep: char, b: string)
    requires sep !in a
    ensures SplitAll(a + [sep] + b, sep) == [a] + SplitAll(b, sep)
  {
    var s := a + [sep] + b;
    assert s[|a|] == sep && s[..|a|] == a;
    IndexOfUnique(s, sep, |a|);
    assert s[|a| + 1..] == b;
  }

  lemma OrderThreeTagsExample()
    ensures OrderList(FStr("param,return,raise")) == "`param`, `return`, `raise`"
  {
    calc {
      OrderList(FStr("param,return,raise"));
    == { ThreeTagsSplit(); }
      Join(Quoted(["param", "return", "raise"]), ", ");
    == { QuotedThree("param", "return", "raise"); }
      "`" + "param" + "`" + ", " + ("`" + "return" + "`" + ", " + ("`" + "raise" + "`"));
    == { ThreeTagsLiteral(); }
      "`param`, `return`, `raise`";
    }
  }

  lemma ThreeTagsLiteral()
    ensures "`" + "param" + "`" + ", " + ("`" + "return" + "`" + ", " + ("`" + "raise" + "`")) == "`param`, `return`, `raise`"
  {
  }

  lemma ThreeTagsSplit()
    ensures RubySplit("param,return,raise", ',') == ["param", "return", "raise"]
  {
    var tail := "return" + [','] + "raise";
    calc {
      SplitAll("param,return,raise", ',');
    == { assert "param,return,raise" == "param" + [','] + tail; }
      SplitAll("param" + [','] + tail, ',');
    == { SplitAllCons("param", ',', tail); }
      ["param"] + SplitAll(tail, ',');
    == { SplitAllCons("return", ',', "raise"); }
      ["param"] + (["return"] + SplitAll("raise", ','));
    == { assert SplitAll("raise", ',') == ["raise"]; }
      ["param", "return", "raise"];
    }
  }

  /** Three pieces quoted and joined. */
  lemma QuotedThree(a: string, b: string, c: string)
    ensures Join(Quoted([a, b, c]), ", ") == "`" + a + "`" + ", " + ("`" + b + "`" + ", " + ("`" + c + "`"))
  {
    var q := Quoted([a, b, c]);
    assert q == ["`" + a + "`", "`" + b + "`", "`" + c + "`"];
    assert Join(q[1..][1..], ", ") == "`" + c + "`" by { assert q[1..][1..] == ["`" + c + "`"]; }
    assert Join(q[1..], ", ") == "`" + b + "`" + ", " + ("`" + c + "`") by { assert q[1..][0] == "`" + b + "`"; }
  }

  /** Where the pieces of `a, b` sit. */
  lemma CommaSpaceSeams(a: string, b: string)
    ensures var t := a + ", " + b; t[..|a|] == a && t[|a|] == ',' && t[|a| + 1..] == [' '] + b
  {
    var u := [' '] + b;
    var p := a + [','];
    ConcatAssoc(a, [','], [' ']);
    ConcatAssoc(p, [' '], b);
    assert [','] + [' '] == ", ";
    assert p + u == a + ", " + b;
    SliceAtSeam(a, [','] + u);
    ConcatAssoc(a, [','], u);
    SliceAtSeam(p, u);
  }

  /** One leading space is dropped, and nothing after it when `b` opens with a non-space. */
  lemma DropOneSpace(b: string)
    requires b == [] || !IsSpace(b[0])
    ensures DropSpaces([' '] + b) == b
  {
    assert ([' '] + b)[1..] == b;
  }

  /** `Arrow` on a comma followed by one space. */
  lemma ArrowOneSpace(a: string, b: string)
    requires ',' !in a && (b == [] || !IsSpace(b[0]))
    ensures Arrow(a + ", " + b) == a + " => " + b
  {
    CommaSpaceSeams(a, b);
    ArrowAtFirstComma(a + ", " + b, |a|);
    DropOneSpace(b);
  }

  /** `Hash<x>` at the start: rewritten, and scanning resumes after the `>`. */
  lemma SuggestCorrectionHead(x: string, rest: string)
    requires x != [] && '>' !in x && '\n' !in x
    ensures SuggestCorrection("Hash<" + x + ">" + rest) == "Hash{" + Arrow(x) + "}" + SuggestCorrection(rest)
  {
    var s := "Hash<" + x + ">" + rest;
    var j := 5 + |x|;
    assert s[5..j] == x && s[j] == '>' && s[j + 1..] == rest;
    forall i | 6 <= i < j ensures s[i] != '>' && s[i] != '\n' {
      assert s[i] == x[i - 5];
    }
    assert s[5] == x[0];
    HashCloseAt(s, 6, j);
  }

  lemma CollectionTypeExample()
    ensures SuggestCorrection("Hash<Symbol, String>") == "Hash{Symbol => String}"
  {
    var x := "Symbol" + ", " + "String";
    calc {
      SuggestCorrection("Hash<Symbol, String>");
    == { assert "Hash<Symbol, String>" == "Hash<" + x + ">" + ""; }
      SuggestCorrection("Hash<" + x + ">" + "");
    == { SuggestCorrectionHead(x, ""); }
      "Hash{" + Arrow(x) + "}" + SuggestCorrection("");
    == { ArrowOneSpace("Symbol", "String"); }
      "Hash{" + ("Symbol" + " => " + "String") + "}" + "";
    ==
      "Hash{Symbol => String}";
    }
  }

  /** An inner part without a comma is wrapped unchanged. */
  lemma CollectionTypeNoCommaExample()
    ensures SuggestCorrection("Hash<X>") == "Hash{X}"
  {
    var s := "Hash<X>";
    assert MatchHashAt(s) == Some(6);
    assert s[5..6] == "X";
  }

  /** `HashClose` on an index range free of `>` and newlines. */
  lemma {:induction false} HashCloseAt(s: string, k: nat, j: nat)
    requires k <= j < |s| && s[j] == '>'
    requires forall i :: k <= i < j ==> s[i] != '>' && s[i] != '\n'
    ensures HashClose(s, k) == Some(j)
    decreases j - k
  {
    if k < j {
      HashCloseAt(s, k + 1, j);
    }
  }
}

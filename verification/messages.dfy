/**
 * The message builders: each turns one parsed record into the text shown
 * for an offense. All but two are total templates; the collection-type
 * builder also rewrites `Hash<K, V>` into `Hash{K => V}`, and the API-tag
 * builder picks one of two templates.
 *
 * A builder that calls a `String` method on a field fails in Ruby when the
 * field is an integer or `nil`; those builders return an `Option`, `None`
 * standing for the raised `NoMethodError`.
 */
module Messages {
  import opened Common
  import opened Text
  import opened Records

  /** `pre + x + post` determines `x`. */
  lemma WrapInjective(pre: string, a: string, b: string, post: string)
    ensures pre + a + post == pre + b + post <==> a == b
  {
    if pre + a + post == pre + b + post {
      assert |a| == |b|;
      assert a == (pre + a + post)[|pre|..|pre| + |a|];
      assert b == (pre + b + post)[|pre|..|pre| + |b|];
    }
  }

  // ---------------------------------------------------------------------------
  // Templates over one field

  function UndocumentedObjectMessage(r: Record): (m: string)
    ensures StartsWith(m, "Documentation required for `") && EndsWith(m, "`")
  {
    "Documentation required for `" + Interp(At(r, "element")) + "`"
  }

  /** The message names exactly the record's element: two records share a message iff their elements read the same. */
  lemma UndocumentedObjectMessageInjective(r1: Record, r2: Record)
    ensures UndocumentedObjectMessage(r1) == UndocumentedObjectMessage(r2) <==>
            Interp(At(r1, "element")) == Interp(At(r2, "element"))
  {
    WrapInjective("Documentation required for `", Interp(At(r1, "element")), Interp(At(r2, "element")), "`");
  }

  function UndocumentedArgumentsMessage(r: Record): (m: string)
    ensures StartsWith(m, "The `") && EndsWith(m, "` method is missing documentation for some of the arguments.")
  {
    "The `" + Interp(At(r, "method_name")) + "` method is missing documentation for some of the arguments."
  }

  lemma UndocumentedArgumentsMessageInjective(r1: Record, r2: Record)
    ensures UndocumentedArgumentsMessage(r1) == UndocumentedArgumentsMessage(r2) <==>
            Interp(At(r1, "method_name")) == Interp(At(r2, "method_name"))
  {
    WrapInjective("The `", Interp(At(r1, "method_name")), Interp(At(r2, "method_name")),
                  "` method is missing documentation for some of the arguments.");
  }

  function InvalidTypesMessage(r: Record): (m: string)
    ensures StartsWith(m, "The `") && EndsWith(m, "` has at least one tag with an invalid type definition.")
  {
    "The `" + Interp(At(r, "method_name")) + "` has at least one tag with an invalid type definition."
  }

  lemma InvalidTypesMessageInjective(r1: Record, r2: Record)
    ensures InvalidTypesMessage(r1) == InvalidTypesMessage(r2) <==>
            Interp(At(r1, "method_name")) == Interp(At(r2, "method_name"))
  {
    WrapInjective("The `", Interp(At(r1, "method_name")), Interp(At(r2, "method_name")),
                  "` has at least one tag with an invalid type definition.");
  }

  function OptionTagsMessage(r: Record): (m: string)
    ensures StartsWith(m, "Method `") && EndsWith(m, "` has options parameter but no @option tags documenting the available options")
  {
    "Method `" + Interp(At(r, "method_name")) + "` has options parameter but no @option tags documenting the available options"
  }

  lemma OptionTagsMessageInjective(r1: Record, r2: Record)
    ensures OptionTagsMessage(r1) == OptionTagsMessage(r2) <==>
            Interp(At(r1, "method_name")) == Interp(At(r2, "method_name"))
  {
    WrapInjective("Method `", Interp(At(r1, "method_name")), Interp(At(r2, "method_name")),
                  "` has options parameter but no @option tags documenting the available options");
  }

  function AbstractMethodMessage(r: Record): (m: string)
    ensures StartsWith(m, "Abstract method `") && EndsWith(m, "` has implementation (should only raise NotImplementedError or be empty)")
  {
    "Abstract method `" + Interp(At(r, "method_name")) + "` has implementation (should only raise NotImplementedError or be empty)"
  }

  lemma AbstractMethodMessageInjective(r1: Record, r2: Record)
    ensures AbstractMethodMessage(r1) == AbstractMethodMessage(r2) <==>
            Interp(At(r1, "method_name")) == Interp(At(r2, "method_name"))
  {
    WrapInjective("Abstract method `", Interp(At(r1, "method_name")), Interp(At(r2, "method_name")),
                  "` has implementation (should only raise NotImplementedError or be empty)");
  }

  // ---------------------------------------------------------------------------
  // Templates over several fields

  function MeaninglessTagMessage(r: Record): (m: string)
    ensures StartsWith(m, "The @") && EndsWith(m, "). This tag only makes sense on methods.")
  {
    "The @" + Interp(At(r, "tag_name")) + " tag is meaningless on a " + Interp(At(r, "object_type")) +
    " (" + Interp(At(r, "object_name")) + "). This tag only makes sense on methods."
  }

  /** Only `object_type`, `tag_name` and `object_name` are read. */
  lemma MeaninglessTagMessageReads(r: Record)
    ensures MeaninglessTagMessage(Restrict(r, {"object_type", "tag_name", "object_name"})) == MeaninglessTagMessage(r)
  {
    assert At(Restrict(r, {"object_type", "tag_name", "object_name"}), "object_type") == At(r, "object_type");
    assert At(Restrict(r, {"object_type", "tag_name", "object_name"}), "tag_name") == At(r, "tag_name");
    assert At(Restrict(r, {"object_type", "tag_name", "object_name"}), "object_name") == At(r, "object_name");
  }


  function TypeSyntaxMessage(r: Record): (m: string)
    ensures StartsWith(m, "Invalid type syntax in @") && EndsWith(m, ")")
  {
    "Invalid type syntax in @" + Interp(At(r, "tag_name")) + " tag: '" + Interp(At(r, "type_string")) +
    "' (" + Interp(At(r, "error_message")) + ")"
  }

  /** Only `tag_name`, `type_string` and `error_message` are read. */
  lemma TypeSyntaxMessageReads(r: Record)
    ensures TypeSyntaxMessage(Restrict(r, {"tag_name", "type_string", "error_message"})) == TypeSyntaxMessage(r)
  {
    assert At(Restrict(r, {"tag_name", "type_string", "error_message"}), "tag_name") == At(r, "tag_name");
    assert At(Restrict(r, {"tag_name", "type_string", "error_message"}), "type_string") == At(r, "type_string");
    assert At(Restrict(r, {"tag_name", "type_string", "error_message"}), "error_message") == At(r, "error_message");
  }


  function ExampleSyntaxMessage(r: Record): (m: string)
    ensures StartsWith(m, "Object `")
    ensures EndsWith(m, Interp(At(r, "error_message")))
  {
    "Object `" + Interp(At(r, "object_name")) + "` has syntax error in @example '" + Interp(At(r, "example_name")) +
    "': " + Interp(At(r, "error_message"))
  }

  /** Only `object_name`, `example_name` and `error_message` are read. */
  lemma ExampleSyntaxMessageReads(r: Record)
    ensures ExampleSyntaxMessage(Restrict(r, {"object_name", "example_name", "error_message"})) == ExampleSyntaxMessage(r)
  {
    assert At(Restrict(r, {"object_name", "example_name", "error_message"}), "object_name") == At(r, "object_name");
    assert At(Restrict(r, {"object_name", "example_name", "error_message"}), "example_name") == At(r, "example_name");
    assert At(Restrict(r, {"object_name", "example_name", "error_message"}), "error_message") == At(r, "error_message");
  }


  // ---------------------------------------------------------------------------
  // Tag type position

  /** `@T [X] P`: the type before the parameter name. */
  function TypeFirstForm(tag: string, param: string, typeInfo: string): string {
    "@" + tag + " [" + typeInfo + "] " + param
  }

  /** `@T P [X]`: the type after the parameter name. */
  function TypeAfterForm(tag: string, param: string, typeInfo: string): string {
    "@" + tag + " " + param + " [" + typeInfo + "]"
  }

  /** The advice template: which way the type should move, the form to use, the form found. */
  function Advice(where: string, tag: string, use: string, found: string): string {
    "Type should appear " + where + " parameter name in @" + tag + " tag. Use '" + use + "' instead of '" + found + "'."
  }

  function TagTypePositionMessage(r: Record): (m: string)
    ensures StartsWith(m, "Type should appear ")
  {
    var t := Interp(At(r, "tag_name"));
    var p := Interp(At(r, "param_name"));
    var x := Interp(At(r, "type_info"));
    if At(r, "detected_style") == FStr("type_after_name") then
      Advice("before", t, TypeFirstForm(t, p, x), TypeAfterForm(t, p, x))
    else
      Advice("after", t, TypeAfterForm(t, p, x), TypeFirstForm(t, p, x))
  }

  /**
   * The two branches are mirror images: the form one suggests is the form
   * the other rejects. `r` reports `type_after_name`; `r2` is the same
   * record reporting any other style.
   */
  lemma TagTypePositionMirror(r: Record, r2: Record)
    requires At(r, "detected_style") == FStr("type_after_name") && At(r2, "detected_style") != FStr("type_after_name")
    requires At(r, "tag_name") == At(r2, "tag_name") && At(r, "param_name") == At(r2, "param_name")
    requires At(r, "type_info") == At(r2, "type_info")
    ensures var t := Interp(At(r, "tag_name"));
            var p := Interp(At(r, "param_name"));
            var x := Interp(At(r, "type_info"));
            && TagTypePositionMessage(r) == Advice("before", t, TypeFirstForm(t, p, x), TypeAfterForm(t, p, x))
            && TagTypePositionMessage(r2) == Advice("after", t, TypeAfterForm(t, p, x), TypeFirstForm(t, p, x))
  {
  }

  /** Only `tag_name`, `param_name`, `type_info` and `detected_style` are read. */
  lemma TagTypePositionMessageReads(r: Record)
    ensures TagTypePositionMessage(Restrict(r, {"tag_name", "param_name", "type_info", "detected_style"})) == TagTypePositionMessage(r)
  {
    assert At(Restrict(r, {"tag_name", "param_name", "type_info", "detected_style"}), "tag_name") == At(r, "tag_name");
    assert At(Restrict(r, {"tag_name", "param_name", "type_info", "detected_style"}), "param_name") == At(r, "param_name");
    assert At(Restrict(r, {"tag_name", "param_name", "type_info", "detected_style"}), "type_info") == At(r, "type_info");
    assert At(Restrict(r, {"tag_name", "param_name", "type_info", "detected_style"}), "detected_style") == At(r, "detected_style");
  }


  // ---------------------------------------------------------------------------
  // API tags

  /**
   * The API-tag message. For an invalid tag the value shown is `api_value`
   * when present, else the status with its first `invalid:` removed; a
   * status that is an integer has no `sub` and the builder fails.
   */
  function ApiTagsMessage(r: Record): (m: Option<string>)
    ensures At(r, "status") == FStr("missing") ==>
              m == Some("Public object `" + Interp(At(r, "object_name")) + "` is missing @api tag")
    ensures At(r, "status") != FStr("missing") && !At(r, "api_value").FNil? ==>
              m == Some("Object `" + Interp(At(r, "object_name")) + "` has invalid @api tag value: '" + Interp(At(r, "api_value")) + "'")
    ensures At(r, "status") != FStr("missing") && At(r, "api_value").FNil? && At(r, "status").FStr? ==>
              m == Some("Object `" + Interp(At(r, "object_name")) + "` has invalid @api tag value: '" +
                        ReplaceFirst(At(r, "status").str, "invalid:", "") + "'")
    ensures m.None? <==> At(r, "status").FInt? && At(r, "api_value").FNil?
  {
    var status := At(r, "status");
    if status == FStr("missing") then
      Some("Public object `" + Interp(At(r, "object_name")) + "` is missing @api tag")
    else
      var shown :=
        if !At(r, "api_value").FNil? then Some(At(r, "api_value"))
        else match status
          case FStr(s) => Some(FStr(ReplaceFirst(s, "invalid:", "")))
          case FNil => Some(FNil)
          case FInt(_) => None;
      match shown
      case None => None
      case Some(v) => Some("Object `" + Interp(At(r, "object_name")) + "` has invalid @api tag value: '" + Interp(v) + "'")
  }

  // ---------------------------------------------------------------------------
  // Tag order

  /** Each piece wrapped in backticks. */
  function Quoted(pieces: seq<string>): (r: seq<string>)
    ensures |r| == |pieces|
    ensures forall i :: 0 <= i < |pieces| ==> r[i] == "`" + pieces[i] + "`"
  {
    if |pieces| == 0 then [] else ["`" + pieces[0] + "`"] + Quoted(pieces[1..])
  }

  /** `order.to_s.split(',').map { |tag| "`#{tag}`" }.join(', ')`. */
  function OrderList(order: Field): string {
    Join(Quoted(RubySplit(Interp(order), ',')), ", ")
  }

  function OrderMessage(r: Record): (m: string)
    ensures StartsWith(m, "The `") && EndsWith(m, ".")
  {
    "The `" + Interp(At(r, "method_name")) + "` has yard tags in an invalid order. Following tags need to be in the presented order: " +
    OrderList(At(r, "order")) + "."
  }

  /** Ruby's `split` keeps every piece of an order string that does not end in a comma: re-joining gives it back. */
  lemma OrderPiecesRoundTrip(order: string)
    requires order == [] || order[|order| - 1] != ','
    ensures Join(RubySplit(order, ','), ",") == order
  {
    var all := SplitAll(order, ',');
    JoinSplitAll(order, ',');
    if order == [] {
      assert all == [""];
    } else {
      LastPieceNonEmpty(order, ',');
      assert RubySplit(order, ',') == all;
    }
  }

  /** The last piece of a split is the text after the last separator, so it is non-empty when the text does not end in one. */
  lemma {:induction false} LastPieceNonEmpty(s: string, sep: char)
    requires s != [] && s[|s| - 1] != sep
    ensures SplitAll(s, sep)[|SplitAll(s, sep)| - 1] != []
    decreases |s|
  {
    if sep in s {
      var k := IndexOf(s, sep);
      var rest := s[k + 1..];
      assert rest != [] && rest[|rest| - 1] == s[|s| - 1];
      LastPieceNonEmpty(rest, sep);
    }
  }

  /** With a nil or empty order the list is empty. */
  lemma OrderListEmpty(order: Field)
    requires order == FNil || order == FStr("")
    ensures OrderList(order) == ""
  {
    assert SplitAll("", ',') == [""];
  }

  // ---------------------------------------------------------------------------
  // Collection type

  /** The first `>` at or after `k` that no newline precedes, the lazy end of `(.+?)>`. */
  function HashClose(s: string, k: nat): (r: Option<nat>)
    ensures r.Some? ==> k <= r.value < |s| && s[r.value] == '>'
    ensures r.Some? ==> forall i :: k <= i < r.value ==> s[i] != '>' && s[i] != '\n'
    decreases |s| - k
  {
    if k >= |s| then None
    else if s[k] == '>' then Some(k)
    else if s[k] == '\n' then None
    else HashClose(s, k + 1)
  }

  /** Literal reading of `Hash<(.+?)>` at the start of `s`, closing at `j`: `.` never matches a newline. */
  predicate HashMatch(s: string, j: int) {
    StartsWith(s, "Hash<") && 6 <= j < |s| && s[j] == '>' && forall i :: 5 <= i < j ==> s[i] != '\n'
  }

  /** `Hash<(.+?)>` tried at the start of `s`: the index of its closing `>`. */
  function MatchHashAt(s: string): (r: Option<nat>)
    ensures r.Some? ==> HashMatch(s, r.value)
  {
    if StartsWith(s, "Hash<") && |s| > 6 && s[5] != '\n' then HashClose(s, 6) else None
  }

  /** The lazy group takes the shortest reading: the match closes at the first eligible `>`, and fails only when none exists. */
  lemma MatchHashAtLazy(s: string)
    ensures MatchHashAt(s).Some? ==> forall j :: HashMatch(s, j) ==> MatchHashAt(s).value <= j
    ensures MatchHashAt(s).None? <==> forall j :: !HashMatch(s, j)
  {
    if StartsWith(s, "Hash<") && |s| > 6 && s[5] != '\n' {
      HashCloseFirst(s, 6);
    }
  }

  lemma {:induction false} HashCloseFirst(s: string, k: nat)
    ensures HashClose(s, k).Some? ==> forall j :: k <= j < |s| && s[j] == '>' ==> HashClose(s, k).value <= j
    ensures HashClose(s, k).None? ==> forall j :: k <= j < |s| && s[j] == '>' ==> exists i :: k <= i < j && s[i] == '\n'
    decreases |s| - k
  {
    if k < |s| && s[k] != '>' && s[k] != '\n' {
      HashCloseFirst(s, k + 1);
    }
  }

  // `types.sub(/,\s*/, ' => ')`: the first comma and the whitespace after it become ` => `.
  /**
   * `t` is `t[..k]`, the first comma at `k`, a maximal whitespace run of
   * length `w`, then the rest; `r` is that text with the comma and the run
   * replaced by ` => `.
   */
  predicate ArrowAt(t: string, k: nat, w: nat, r: string) {
    && k + 1 + w <= |t| && t[k] == ','
    && (forall i :: 0 <= i < k ==> t[i] != ',')
    && (forall i :: k + 1 <= i < k + 1 + w ==> IsSpace(t[i]))
    && (k + 1 + w == |t| || !IsSpace(t[k + 1 + w]))
    && r == t[..k] + " => " + t[k + 1 + w..]
  }

  function Arrow(t: string): (r: string)
    ensures ',' !in t ==> r == t
    ensures ',' in t ==> exists k: nat, w: nat :: ArrowAt(t, k, w, r)
  {
    if ',' !in t then t
    else
      var k := IndexOf(t, ',');
      var rest := DropSpaces(t[k + 1..]);
      ArrowOfComma(t, k);
      t[..k] + " => " + rest
  }

  /** `Arrow` on a string whose first comma is at `k`. */
  lemma ArrowAtFirstComma(t: string, k: nat)
    requires k < |t| && t[k] == ',' && ',' !in t[..k]
    ensures Arrow(t) == t[..k] + " => " + DropSpaces(t[k + 1..])
  {
    IndexOfUnique(t, ',', k);
  }

  lemma ArrowOfComma(t: string, k: nat)
    requires k < |t| && t[k] == ',' && ',' !in t[..k]
    ensures ArrowAt(t, k, |t[k + 1..]| - |DropSpaces(t[k + 1..])|, t[..k] + " => " + DropSpaces(t[k + 1..]))
  {
    var u := t[k + 1..];
    var rest := DropSpaces(u);
    var w := |u| - |rest|;
    assert rest == t[k + 1 + w..];
    forall i | k + 1 <= i < k + 1 + w ensures IsSpace(t[i]) {
      assert t[i] == u[i - k - 1];
    }
    forall i | 0 <= i < k ensures t[i] != ',' {
      assert t[i] == t[..k][i];
    }
  }

  /** `type_string.gsub(/Hash<(.+?)>/) { "Hash{#{Arrow($1)}}" }`, scanning left to right. */
  function SuggestCorrection(s: string): (r: string)
    decreases |s|
  {
    if |s| == 0 then []
    else match MatchHashAt(s)
      case Some(j) => "Hash{" + Arrow(s[5..j]) + "}" + SuggestCorrection(s[j + 1..])
      case None => [s[0]] + SuggestCorrection(s[1..])
  }

  /** A type string with no `Hash<` is returned unchanged. */
  lemma {:induction false} SuggestCorrectionNoHash(s: string)
    requires forall i :: 0 <= i <= |s| ==> !OccursAt(s, "Hash<", i)
    ensures SuggestCorrection(s) == s
    decreases |s|
  {
    if |s| > 0 {
      assert !OccursAt(s, "Hash<", 0);
      assert MatchHashAt(s) == None;
      forall i | 0 <= i <= |s[1..]| ensures !OccursAt(s[1..], "Hash<", i) {
        assert !OccursAt(s, "Hash<", i + 1);
        assert s[1..][i..] == s[i + 1..];
      }
      SuggestCorrectionNoHash(s[1..]);
    }
  }

  /** The collection-type message; a type string that is not a string has no `gsub`. */
  function CollectionTypeMessage(r: Record): (m: Option<string>)
    ensures m.Some? <==> At(r, "type_string").FStr?
    ensures m.Some? ==> EndsWith(m.value, " tag. YARD uses Hash{K => V} syntax for hashes.")
  {
    match At(r, "type_string")
    case FStr(ts) =>
      Some("Use YARD collection syntax " + SuggestCorrection(ts) + " instead of " + ts + " in @" +
           Interp(At(r, "tag_name")) + " tag. YARD uses Hash{K => V} syntax for hashes.")
    case _ => None
  }
}

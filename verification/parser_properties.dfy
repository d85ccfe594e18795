/**
 * Properties of the output parsers.  The central ones are round trips:
 * printing well-formed items the way the `yard` queries print them and
 * parsing the text gives back exactly one record per item, in order, with
 * the item's fields.  The rest are the positional rules of the pair
 * parsers and the edge cases of the example-syntax cursor.
 */
module ParserProperties {
  import opened Common
  import opened Text
  import opened Records
  import opened LineRegex
  import opened Parsers

  lemma DigitsHaveNoNewline(d: string)
    requires AllDigits(d)
    ensures '\n' !in d
  {
    forall i | 0 <= i < |d| ensures d[i] != '\n' {
      assert IsDigit(d[i]);
    }
  }

  /** A text without a colon has no `:N: x` tail. */
  lemma NoColonNoTail(s: string)
    requires ':' !in s
    ensures NoTail(s)
  {
    forall k | 0 <= k < |s| ensures !TailAt(s, k) {
      assert s[k] != ':';
    }
  }

  /** A line that `strip` and `split("\n")` leave as it is. */
  predicate StableLine(s: string) {
    s != [] && '\n' !in s && Strip(s) == s
  }

  // ---------------------------------------------------------------------------
  // undocumented objects

  /** One line of `yard list` output: where an undocumented object is defined. */
  datatype ObjectLine = ObjectLine(location: string, line: nat, element: string)

  /** The item prints as one line that survives `strip` and whose element has no `:N: x` tail. */
  predicate ObjectLineOk(o: ObjectLine) {
    && |o.location| >= 1 && !IsStripSpace(o.location[0]) && '\n' !in o.location
    && |o.element| >= 1 && !IsStripSpace(o.element[|o.element| - 1]) && '\n' !in o.element
    && NoTail(o.element)
  }

  function RenderObject(o: ObjectLine): string {
    RenderLocation(o.location, DecimalString(o.line), o.element)
  }

  function ObjectFields(o: ObjectLine): Record {
    map["location" := FStr(o.location), "line" := FInt(o.line), "element" := FStr(o.element)]
  }

  function RenderObjects(os: seq<ObjectLine>): (ls: seq<string>)
    ensures |ls| == |os|
    ensures forall i :: 0 <= i < |os| ==> ls[i] == RenderObject(os[i])
  {
    if |os| == 0 then [] else [RenderObject(os[0])] + RenderObjects(os[1..])
  }

  function ObjectsFields(os: seq<ObjectLine>): (rs: seq<Record>)
    ensures |rs| == |os|
    ensures forall i :: 0 <= i < |os| ==> rs[i] == ObjectFields(os[i])
  {
    if |os| == 0 then [] else [ObjectFields(os[0])] + ObjectsFields(os[1..])
  }

  /** A printed object line is a non-empty, newline-free line that `strip` leaves alone. */
  lemma RenderObjectStable(o: ObjectLine)
    requires ObjectLineOk(o)
    ensures StableLine(RenderObject(o))
  {
    var d := DecimalString(o.line);
    var line := RenderObject(o);
    DigitsHaveNoNewline(d);
    assert line[0] == o.location[0];
    assert line[|line| - 1] == o.element[|o.element| - 1];
    StripOfStripped(line);
  }

  /** A printed object line parses to the item's record. */
  lemma RenderObjectLine(o: ObjectLine)
    requires ObjectLineOk(o)
    ensures ObjectOfLine(RenderObject(o)) == [ObjectFields(o)]
  {
    MatchLocationRender(o.location, DecimalString(o.line), o.element);
  }

  lemma {:induction false} ObjectsOfRendered(os: seq<ObjectLine>)
    requires forall i :: 0 <= i < |os| ==> ObjectLineOk(os[i])
    ensures FilterMap(RenderObjects(os), ObjectOfLine) == ObjectsFields(os)
    decreases |os|
  {
    if |os| > 0 {
      var ls := RenderObjects(os);
      assert ls[1..] == RenderObjects(os[1..]);
      assert FilterMap(ls, ObjectOfLine) == ObjectOfLine(ls[0]) + FilterMap(ls[1..], ObjectOfLine);
      RenderObjectLine(os[0]);
      ObjectsOfRendered(os[1..]);
      assert ObjectsFields(os) == [ObjectFields(os[0])] + ObjectsFields(os[1..]);
    }
  }

  /** Parsing printed objects gives one record per object, in order, with its location, line number and element. */
  lemma UndocumentedObjectsRoundTrip(os: seq<ObjectLine>)
    requires forall i :: 0 <= i < |os| ==> ObjectLineOk(os[i])
    ensures ParseUndocumentedObjects(Join(RenderObjects(os), "\n")) == ObjectsFields(os)
  {
    var ls := RenderObjects(os);
    forall i | 0 <= i < |ls| ensures ls[i] != [] && '\n' !in ls[i] && Strip(ls[i]) == ls[i] {
      RenderObjectStable(os[i]);
    }
    StrippedLinesJoin(ls);
    ObjectsOfRendered(os);
    ObjectsOfOutput(Join(ls, "\n"));
  }

  /** The undocumented-objects parser reads the stripped lines one by one. */
  lemma ObjectsOfOutput(out: string)
    ensures ParseUndocumentedObjects(out) == FilterMap(StrippedLines(out), ObjectOfLine)
  {
  }

  /** Padding a line with whitespace does not change what it parses to. */
  lemma UndocumentedObjectsIgnorePadding(p: string, line: string, q: string)
    requires AllStripSpace(p) && AllStripSpace(q) && '\n' !in p + line + q
    requires Strip(line) == line && line != []
    ensures ParseUndocumentedObjects(p + line + q) == ObjectOfLine(line)
  {
    var s := p + line + q;
    assert SplitAll(s, '\n') == [s];
    StripPadding(p, line, q);
    StrippedLinesUnfold(s);
    assert StripAll([s]) == [line];
    ObjectsOfOutput(s);
  }

  // ---------------------------------------------------------------------------
  // undocumented method arguments

  /** One line of `yard list` output for a method with undocumented arguments. */
  datatype MethodLine = MethodLine(location: string, line: nat, ws: string, className: string, sep: char, methodName: string)

  predicate MethodLineOk(m: MethodLine) {
    && MethodParts(m.location, DecimalString(m.line), m.ws, m.className, m.sep, m.methodName)
    && '\n' !in m.location && '\n' !in m.ws && '\n' !in m.className && '\n' !in m.methodName
  }

  function RenderMethodLine(m: MethodLine): string {
    RenderMethod(m.location, DecimalString(m.line), m.ws, m.className, m.sep, m.methodName)
  }

  function MethodFields(m: MethodLine): Record {
    map["location" := FStr(m.location), "method_name" := FStr(m.methodName),
        "line" := FInt(m.line), "class_name" := FStr(m.className)]
  }

  function RenderMethodLines(ms: seq<MethodLine>): (ls: seq<string>)
    ensures |ls| == |ms|
    ensures forall i :: 0 <= i < |ms| ==> ls[i] == RenderMethodLine(ms[i])
  {
    if |ms| == 0 then [] else [RenderMethodLine(ms[0])] + RenderMethodLines(ms[1..])
  }

  function MethodsFields(ms: seq<MethodLine>): (rs: seq<Record>)
    ensures |rs| == |ms|
    ensures forall i :: 0 <= i < |ms| ==> rs[i] == MethodFields(ms[i])
  {
    if |ms| == 0 then [] else [MethodFields(ms[0])] + MethodsFields(ms[1..])
  }

  lemma RenderMethodLineParses(m: MethodLine)
    requires MethodLineOk(m)
    ensures RenderMethodLine(m) != [] && '\n' !in RenderMethodLine(m)
    ensures MethodOfLine(RenderMethodLine(m)) == [MethodFields(m)]
  {
    var d := DecimalString(m.line);
    MatchMethodRender(m.location, d, m.ws, m.className, m.sep, m.methodName);
    DigitsHaveNoNewline(d);
    assert m.sep != '\n';
  }

  lemma {:induction false} MethodsOfRendered(ms: seq<MethodLine>)
    requires forall i :: 0 <= i < |ms| ==> MethodLineOk(ms[i])
    ensures FilterMap(RenderMethodLines(ms), MethodOfLine) == MethodsFields(ms)
    decreases |ms|
  {
    if |ms| > 0 {
      var ls := RenderMethodLines(ms);
      assert ls[1..] == RenderMethodLines(ms[1..]);
      assert FilterMap(ls, MethodOfLine) == MethodOfLine(ls[0]) + FilterMap(ls[1..], MethodOfLine);
      RenderMethodLineParses(ms[0]);
      MethodsOfRendered(ms[1..]);
      assert MethodsFields(ms) == [MethodFields(ms[0])] + MethodsFields(ms[1..]);
    }
  }

  /** Parsing printed method lines gives one record per line, in order, with class and method split at the separator. */
  lemma UndocumentedMethodArgumentsRoundTrip(ms: seq<MethodLine>)
    requires forall i :: 0 <= i < |ms| ==> MethodLineOk(ms[i])
    ensures ParseUndocumentedMethodArguments(Join(RenderMethodLines(ms), "\n")) == MethodsFields(ms)
  {
    var ls := RenderMethodLines(ms);
    forall i | 0 <= i < |ls| ensures ls[i] != [] && '\n' !in ls[i] {
      RenderMethodLineParses(ms[i]);
    }
    LinesJoin(ls);
    MethodsOfRendered(ms);
  }

  // ---------------------------------------------------------------------------
  // pair outputs: a location line followed by a details line

  /** Both lines of every pair are stable. */
  predicate StablePairs(ps: seq<(string, string)>) {
    forall j :: 0 <= j < |ps| ==> StableLine(ps[j].0) && StableLine(ps[j].1)
  }

  /** Printing pairs of stable lines and reading the stripped lines back two at a time gives the pairs back. */
  lemma PairedOutput(ps: seq<(string, string)>)
    requires StablePairs(ps)
    ensures Pairs(StrippedLines(Join(Unpair(ps), "\n"))) == ps
  {
    var ls := Unpair(ps);
    UnpairStable(ps);
    forall i | 0 <= i < |ls| ensures ls[i] != [] && '\n' !in ls[i] && Strip(ls[i]) == ls[i] {
      assert StableLine(ls[i]);
    }
    StrippedLinesJoin(ls);
    PairsUnpair(ps);
  }

  /** Every line of printed stable pairs is stable. */
  lemma {:induction false} UnpairStable(ps: seq<(string, string)>)
    requires forall j :: 0 <= j < |ps| ==> StableLine(ps[j].0) && StableLine(ps[j].1)
    ensures forall i :: 0 <= i < |Unpair(ps)| ==> StableLine(Unpair(ps)[i])
  {
    if |ps| > 0 {
      forall j | 0 <= j < |ps[1..]| ensures StableLine(ps[1..][j].0) && StableLine(ps[1..][j].1) {
        assert ps[1..][j] == ps[j + 1];
      }
      UnpairStable(ps[1..]);
      var ls := Unpair(ps);
      var tl := Unpair(ps[1..]);
      assert ls == [ps[0].0, ps[0].1] + tl;
      forall i | 0 <= i < |ls| ensures StableLine(ls[i]) {
        if i >= 2 {
          assert ls[i] == tl[i - 2];
        }
      }
    }
  }

  /** The printed text of pairs starts with the first location line, so it is not blank. */
  lemma PairedOutputNotBlank(ps: seq<(string, string)>)
    requires |ps| >= 1 && StableLine(ps[0].0)
    ensures !AllStripSpace(Join(Unpair(ps), "\n"))
  {
    var ls := Unpair(ps);
    assert ls[0] == ps[0].0;
    var out := Join(ls, "\n");
    assert out[0] == ls[0][0];
  }

  // ---------------------------------------------------------------------------
  // meaningless tags

  /** A tag the `yard` query reports: the object, its type and the offending tag. */
  datatype TagLine = TagLine(location: string, line: nat, objectName: string, objectType: string, tagName: string)

  predicate TagLineOk(t: TagLine) {
    && ObjectLineOk(ObjectLine(t.location, t.line, t.objectName))
    && |t.objectType| >= 1 && !IsStripSpace(t.objectType[0]) && '\n' !in t.objectType && '|' !in t.objectType
    && |t.tagName| >= 1 && !IsStripSpace(t.tagName[|t.tagName| - 1]) && '\n' !in t.tagName
  }

  function TagPair(t: TagLine): (string, string) {
    (RenderObject(ObjectLine(t.location, t.line, t.objectName)), t.objectType + "|" + t.tagName)
  }

  function TagFields(t: TagLine): Record {
    map["location" := FStr(t.location), "line" := FInt(t.line), "object_name" := FStr(t.objectName),
        "object_type" := FStr(t.objectType), "tag_name" := FStr(t.tagName)]
  }

  function TagPairs(ts: seq<TagLine>): (ps: seq<(string, string)>)
    ensures |ps| == |ts|
    ensures forall i :: 0 <= i < |ts| ==> ps[i] == TagPair(ts[i])
  {
    if |ts| == 0 then [] else [TagPair(ts[0])] + TagPairs(ts[1..])
  }

  function TagsFields(ts: seq<TagLine>): (rs: seq<Record>)
    ensures |rs| == |ts|
    ensures forall i :: 0 <= i < |ts| ==> rs[i] == TagFields(ts[i])
  {
    if |ts| == 0 then [] else [TagFields(ts[0])] + TagsFields(ts[1..])
  }

  /** `type|tag` with a non-blank start and end is stable. */
  lemma TwoFieldStable(a: string, b: string)
    requires |a| >= 1 && !IsStripSpace(a[0]) && '\n' !in a
    requires |b| >= 1 && !IsStripSpace(b[|b| - 1]) && '\n' !in b
    ensures StableLine(a + "|" + b)
  {
    var d := a + "|" + b;
    assert d[0] == a[0] && d[|d| - 1] == b[|b| - 1];
    StripOfStripped(d);
  }

  /** `type|tag` with a `|`-free type splits back into its two fields. */
  lemma TwoFieldSplit(a: string, b: string)
    requires '|' !in a
    ensures SplitLimit(a + "|" + b, '|', 2) == [a, b]
  {
    assert a + "|" + b == a + ['|'] + b;
    CutCons(a, '|', b, 2);
  }

  /** What `MeaninglessOfPair` makes of a matching location and two detail fields. */
  lemma MeaninglessOfMatched(pair: (string, string), m: LocationMatch, a: string, b: string)
    requires MatchLocation(pair.0) == Some(m) && SplitLimit(pair.1, '|', 2) == [a, b]
    ensures MeaninglessOfPair(pair) == [map["location" := FStr(m.location), "line" := FInt(DecimalValue(m.digits)),
                                            "object_name" := FStr(m.rest), "object_type" := FStr(a), "tag_name" := FStr(b)]]
  {
  }

  /** A printed tag pair parses to the tag's record. */
  lemma TagPairFields(t: TagLine)
    requires TagLineOk(t)
    ensures MeaninglessOfPair(TagPair(t)) == [TagFields(t)]
  {
    var m := LocationMatch(t.location, DecimalString(t.line), t.objectName);
    MatchLocationRender(t.location, DecimalString(t.line), t.objectName);
    TwoFieldSplit(t.objectType, t.tagName);
    MeaninglessOfMatched(TagPair(t), m, t.objectType, t.tagName);
  }

  lemma TagLocationStable(t: TagLine)
    requires TagLineOk(t)
    ensures StableLine(TagPair(t).0)
  {
    RenderObjectStable(ObjectLine(t.location, t.line, t.objectName));
  }

  lemma TagDetailsStable(t: TagLine)
    requires TagLineOk(t)
    ensures StableLine(TagPair(t).1)
  {
    TwoFieldStable(t.objectType, t.tagName);
  }

  lemma {:induction false} TagsOfPairs(ts: seq<TagLine>)
    requires forall i :: 0 <= i < |ts| ==> TagLineOk(ts[i])
    ensures FilterMap(TagPairs(ts), MeaninglessOfPair) == TagsFields(ts)
    decreases |ts|
  {
    if |ts| > 0 {
      var ps := TagPairs(ts);
      assert ps[1..] == TagPairs(ts[1..]);
      assert FilterMap(ps, MeaninglessOfPair) == MeaninglessOfPair(ps[0]) + FilterMap(ps[1..], MeaninglessOfPair);
      TagPairFields(ts[0]);
      TagsOfPairs(ts[1..]);
      assert TagsFields(ts) == [TagFields(ts[0])] + TagsFields(ts[1..]);
    }
  }

  /** Parsing printed tag pairs gives one record per tag, in order, with type and tag split at the first `|`. */
  lemma MeaninglessTagsRoundTrip(ts: seq<TagLine>)
    requires forall i :: 0 <= i < |ts| ==> TagLineOk(ts[i])
    ensures ParseMeaninglessTags(Join(Unpair(TagPairs(ts)), "\n")) == TagsFields(ts)
  {
    if |ts| == 0 {
      assert Join(Unpair(TagPairs(ts)), "\n") == "";
      assert AllStripSpace("");
    } else {
      var ps := TagPairs(ts);
      forall j | 0 <= j < |ps| ensures StableLine(ps[j].0) && StableLine(ps[j].1) {
        TagLocationStable(ts[j]);
        TagDetailsStable(ts[j]);
      }
      var out := Join(Unpair(ps), "\n");
      PairedOutput(ps);
      TagsOfPairs(ts);
      PairedOutputNotBlank(ps);
      TagsOfOutput(out);
    }
  }

  /** Output with a non-blank character is read pair by pair. */
  lemma TagsOfOutput(out: string)
    requires !AllStripSpace(out)
    ensures ParseMeaninglessTags(out) == FilterMap(Pairs(StrippedLines(out)), MeaninglessOfPair)
  {
  }

  // ---------------------------------------------------------------------------
  // tag type position

  /** A misplaced type the `yard` query reports: the tag, its parameter, the type text and, optionally, the style it found. */
  datatype PositionLine = PositionLine(location: string, line: nat, objectName: string,
                                       tagName: string, paramName: string, typeInfo: string, style: Option<string>)

  /** The last details field: the style when there is one, else the type text. */
  function LastField(p: PositionLine): string {
    if p.style.Some? then p.style.value else p.typeInfo
  }

  predicate PositionLineOk(p: PositionLine) {
    && ObjectLineOk(ObjectLine(p.location, p.line, p.objectName))
    && |p.tagName| >= 1 && !IsStripSpace(p.tagName[0])
    && '|' !in p.tagName && '|' !in p.paramName && '|' !in p.typeInfo
    && '\n' !in p.tagName && '\n' !in p.paramName && '\n' !in p.typeInfo
    && |LastField(p)| >= 1 && !IsStripSpace(LastField(p)[|LastField(p)| - 1]) && '\n' !in LastField(p)
  }

  function PositionDetails(p: PositionLine): string {
    p.tagName + "|" + p.paramName + "|" + p.typeInfo + (if p.style.Some? then "|" + p.style.value else "")
  }

  function PositionPair(p: PositionLine): (string, string) {
    (RenderObject(ObjectLine(p.location, p.line, p.objectName)), PositionDetails(p))
  }

  function PositionFields(p: PositionLine): Record {
    map["location" := FStr(p.location), "line" := FInt(p.line), "object_name" := FStr(p.objectName),
        "tag_name" := FStr(p.tagName), "param_name" := FStr(p.paramName), "type_info" := FStr(p.typeInfo),
        "detected_style" := if p.style.Some? then FStr(p.style.value) else FNil]
  }

  function PositionPairs(ps: seq<PositionLine>): (rs: seq<(string, string)>)
    ensures |rs| == |ps|
    ensures forall i :: 0 <= i < |ps| ==> rs[i] == PositionPair(ps[i])
  {
    if |ps| == 0 then [] else [PositionPair(ps[0])] + PositionPairs(ps[1..])
  }

  function PositionsFields(ps: seq<PositionLine>): (rs: seq<Record>)
    ensures |rs| == |ps|
    ensures forall i :: 0 <= i < |ps| ==> rs[i] == PositionFields(ps[i])
  {
    if |ps| == 0 then [] else [PositionFields(ps[0])] + PositionsFields(ps[1..])
  }

  lemma ThreeFieldSplit(a: string, b: string, c: string)
    requires '|' !in a && '|' !in b && '|' !in c
    ensures SplitLimit(a + "|" + b + "|" + c, '|', 4) == [a, b, c]
  {
    calc {
      Cut(a + "|" + b + "|" + c, '|', 4);
    == { assert a + "|" + b + "|" + c == a + ['|'] + (b + ['|'] + c); }
      Cut(a + ['|'] + (b + ['|'] + c), '|', 4);
    == { CutCons(a, '|', b + ['|'] + c, 4); }
      [a] + Cut(b + ['|'] + c, '|', 3);
    == { CutCons(b, '|', c, 3); }
      [a] + ([b] + Cut(c, '|', 2));
    ==
      [a, b, c];
    }
  }

  lemma FourFieldSplit(a: string, b: string, c: string, d: string)
    requires '|' !in a && '|' !in b && '|' !in c
    ensures SplitLimit(a + "|" + b + "|" + c + "|" + d, '|', 4) == [a, b, c, d]
  {
    calc {
      Cut(a + "|" + b + "|" + c + "|" + d, '|', 4);
    == { assert a + "|" + b + "|" + c + "|" + d == a + ['|'] + (b + ['|'] + (c + ['|'] + d)); }
      Cut(a + ['|'] + (b + ['|'] + (c + ['|'] + d)), '|', 4);
    == { CutCons(a, '|', b + ['|'] + (c + ['|'] + d), 4); }
      [a] + Cut(b + ['|'] + (c + ['|'] + d), '|', 3);
    == { CutCons(b, '|', c + ['|'] + d, 3); }
      [a] + ([b] + Cut(c + ['|'] + d, '|', 2));
    == { CutCons(c, '|', d, 2); }
      [a] + ([b] + ([c] + Cut(d, '|', 1)));
    ==
      [a, b, c, d];
    }
  }

  /** The details split back into three fields, or four when a style is printed; the style may itself hold `|`. */
  lemma PositionDetailsSplit(p: PositionLine)
    requires '|' !in p.tagName && '|' !in p.paramName && '|' !in p.typeInfo
    ensures p.style.None? ==> SplitLimit(PositionDetails(p), '|', 4) == [p.tagName, p.paramName, p.typeInfo]
    ensures p.style.Some? ==> SplitLimit(PositionDetails(p), '|', 4) == [p.tagName, p.paramName, p.typeInfo, p.style.value]
  {
    if p.style.Some? {
      assert PositionDetails(p) == p.tagName + "|" + p.paramName + "|" + p.typeInfo + "|" + p.style.value;
      FourFieldSplit(p.tagName, p.paramName, p.typeInfo, p.style.value);
    } else {
      assert PositionDetails(p) == p.tagName + "|" + p.paramName + "|" + p.typeInfo;
      ThreeFieldSplit(p.tagName, p.paramName, p.typeInfo);
    }
  }

  lemma PositionDetailsStable(p: PositionLine)
    requires PositionLineOk(p)
    ensures StableLine(PositionDetails(p))
  {
    var d := PositionDetails(p);
    var l := LastField(p);
    assert d[0] == p.tagName[0];
    assert d[|d| - 1] == l[|l| - 1];
    StripOfStripped(d);
  }

  lemma PositionLocationStable(p: PositionLine)
    requires PositionLineOk(p)
    ensures StableLine(PositionPair(p).0)
  {
    RenderObjectStable(ObjectLine(p.location, p.line, p.objectName));
  }

  lemma PositionPairStable(p: PositionLine)
    requires PositionLineOk(p)
    ensures StableLine(PositionPair(p).0) && StableLine(PositionPair(p).1)
  {
    PositionLocationStable(p);
    PositionDetailsStable(p);
  }

  /** What `TagPositionOfPair` makes of a matching location and three or four detail fields. */
  lemma PositionOfMatched(pair: (string, string), m: LocationMatch, ds: seq<string>)
    requires MatchLocation(pair.0) == Some(m) && SplitLimit(pair.1, '|', 4) == ds && 3 <= |ds|
    ensures TagPositionOfPair(pair) == [map["location" := FStr(m.location), "line" := FInt(DecimalValue(m.digits)),
                                            "object_name" := FStr(m.rest), "tag_name" := FStr(ds[0]),
                                            "param_name" := FStr(ds[1]), "type_info" := FStr(ds[2]),
                                            "detected_style" := if |ds| == 4 then FStr(ds[3]) else FNil]]
  {
  }

  /** A printed position pair parses to the item's record; a missing style reads as `nil`. */
  lemma PositionPairFields(p: PositionLine)
    requires PositionLineOk(p)
    ensures TagPositionOfPair(PositionPair(p)) == [PositionFields(p)]
  {
    var m := LocationMatch(p.location, DecimalString(p.line), p.objectName);
    MatchLocationRender(p.location, DecimalString(p.line), p.objectName);
    PositionDetailsSplit(p);
    PositionOfMatched(PositionPair(p), m, SplitLimit(PositionDetails(p), '|', 4));
  }

  lemma {:induction false} PositionsOfPairs(ps: seq<PositionLine>)
    requires forall i :: 0 <= i < |ps| ==> PositionLineOk(ps[i])
    ensures FilterMap(PositionPairs(ps), TagPositionOfPair) == PositionsFields(ps)
    decreases |ps|
  {
    if |ps| > 0 {
      var qs := PositionPairs(ps);
      assert qs[1..] == PositionPairs(ps[1..]);
      assert FilterMap(qs, TagPositionOfPair) == TagPositionOfPair(qs[0]) + FilterMap(qs[1..], TagPositionOfPair);
      PositionPairFields(ps[0]);
      PositionsOfPairs(ps[1..]);
      assert PositionsFields(ps) == [PositionFields(ps[0])] + PositionsFields(ps[1..]);
    }
  }

  lemma PositionPairsStable(ps: seq<PositionLine>)
    requires forall i :: 0 <= i < |ps| ==> PositionLineOk(ps[i])
    ensures StablePairs(PositionPairs(ps))
  {
    forall j | 0 <= j < |ps| ensures StableLine(PositionPairs(ps)[j].0) && StableLine(PositionPairs(ps)[j].1) {
      PositionPairStable(ps[j]);
    }
  }

  /** Parsing printed position pairs gives one record per item, in order, with the style present exactly when printed. */
  lemma TagTypePositionsRoundTrip(ps: seq<PositionLine>)
    requires forall i :: 0 <= i < |ps| ==> PositionLineOk(ps[i])
    ensures ParseTagTypePositions(Join(Unpair(PositionPairs(ps)), "\n")) == PositionsFields(ps)
  {
    var qs := PositionPairs(ps);
    var out := Join(Unpair(qs), "\n");
    PositionPairsStable(ps);
    PairedOutput(qs);
    PositionsOfPairs(ps);
    if |ps| > 0 {
      PairedOutputNotBlank(qs);
      PositionsOfOutput(out);
    } else {
      assert out == "";
    }
  }

  /** Output with a non-blank character is read pair by pair. */
  lemma PositionsOfOutput(out: string)
    requires !AllStripSpace(out)
    ensures ParseTagTypePositions(out) == FilterMap(Pairs(StrippedLines(out)), TagPositionOfPair)
  {
  }

  /** Details with fewer than three fields are skipped. */
  lemma ShortDetailsSkipped(pair: (string, string))
    requires |SplitLimit(pair.1, '|', 4)| < 3
    ensures TagPositionOfPair(pair) == []
  {
  }

  /** A pair whose location line does not match yields nothing, and the pairing of the lines after it is kept. */
  lemma BadLocationSkipsPair(a: seq<(string, string)>, p: (string, string), b: seq<(string, string)>)
    requires MatchLocation(p.0) == None
    ensures FilterMap(a + [p] + b, MeaninglessOfPair) == FilterMap(a, MeaninglessOfPair) + FilterMap(b, MeaninglessOfPair)
  {
    assert MeaninglessOfPair(p) == [];
    FilterMapSplit(a, p, b, MeaninglessOfPair);
  }

  /** The same for the tag-position pairs. */
  lemma BadLocationSkipsPosition(a: seq<(string, string)>, p: (string, string), b: seq<(string, string)>)
    requires MatchLocation(p.0) == None
    ensures FilterMap(a + [p] + b, TagPositionOfPair) == FilterMap(a, TagPositionOfPair) + FilterMap(b, TagPositionOfPair)
  {
    assert TagPositionOfPair(p) == [];
    FilterMapSplit(a, p, b, TagPositionOfPair);
  }

  /** An odd last line has no partner and is dropped. */
  lemma PairsDropOdd(lines: seq<string>, last: string)
    requires |lines| % 2 == 0
    ensures Pairs(lines + [last]) == Pairs(lines)
  {
    PairsAppend(lines, [last]);
  }

  // ---------------------------------------------------------------------------
  // example syntax

  /** An `@example` that does not parse: where it sits, its name and the parser's message lines. */
  datatype ExampleItem = ExampleItem(location: string, line: nat, objectName: string, exampleName: string, message: seq<string>)

  predicate ExampleItemOk(e: ExampleItem) {
    && |e.location| >= 2 && PathLead(e.location[0]) && '\n' !in e.location
    && |e.objectName| >= 1 && NoTail(e.objectName) && '\n' !in e.objectName
    && e.exampleName != [] && '\n' !in e.exampleName
    && forall k :: 0 <= k < |e.message| ==> e.message[k] != [] && '\n' !in e.message[k] && !IsExampleHeader(e.message[k])
  }

  function ExampleHeader(e: ExampleItem): string {
    RenderLocation(e.location, DecimalString(e.line), e.objectName)
  }

  /** The lines printed for one example: location, status, name, then the message. */
  function ExampleBlock(e: ExampleItem): (ls: seq<string>)
    ensures |ls| == 3 + |e.message|
  {
    [ExampleHeader(e), "syntax_error", e.exampleName] + e.message
  }

  function ExampleBlocks(es: seq<ExampleItem>): (ls: seq<string>)
    ensures es == [] <==> ls == []
    ensures es != [] ==> ls[0] == ExampleHeader(es[0])
  {
    if |es| == 0 then [] else ExampleBlock(es[0]) + ExampleBlocks(es[1..])
  }

  function ExampleFields(e: ExampleItem): Record {
    map["name" := FStr("ExampleSyntax"), "object_name" := FStr(e.objectName), "example_name" := FStr(e.exampleName),
        "error_message" := FStr(Join(e.message, "\n")), "location" := FStr(e.location), "line" := FInt(e.line)]
  }

  function ExamplesFields(es: seq<ExampleItem>): (rs: seq<Record>)
    ensures |rs| == |es|
    ensures forall i :: 0 <= i < |es| ==> rs[i] == ExampleFields(es[i])
  {
    if |es| == 0 then [] else [ExampleFields(es[0])] + ExamplesFields(es[1..])
  }

  /** The location line of an example matches the header pattern with the example's parts. */
  lemma ExampleHeaderMatches(e: ExampleItem)
    requires ExampleItemOk(e)
    ensures ExampleHeader(e) != [] && '\n' !in ExampleHeader(e)
    ensures MatchExampleHeader(ExampleHeader(e)) == Some(LocationMatch(e.location, DecimalString(e.line), e.objectName))
  {
    DigitsHaveNoNewline(DecimalString(e.line));
    MatchExampleHeaderRender(e.location, DecimalString(e.line), e.objectName);
  }

  lemma {:induction false} ExampleBlocksLines(es: seq<ExampleItem>)
    requires forall i :: 0 <= i < |es| ==> ExampleItemOk(es[i])
    ensures forall k :: 0 <= k < |ExampleBlocks(es)| ==> ExampleBlocks(es)[k] != [] && '\n' !in ExampleBlocks(es)[k]
    decreases |es|
  {
    if |es| > 0 {
      ExampleHeaderMatches(es[0]);
      ExampleBlocksLines(es[1..]);
      var b := ExampleBlock(es[0]);
      forall k | 0 <= k < |b| ensures b[k] != [] && '\n' !in b[k] {
        if k >= 3 {
          assert b[k] == es[0].message[k - 3];
        }
      }
    }
  }

  /** A header, `syntax_error`, a name and header-free message lines, followed by a header or nothing, read as one record. */
  lemma ExampleStepAppend(h: string, name: string, msg: seq<string>, rest: seq<string>, m: LocationMatch)
    requires MatchExampleHeader(h) == Some(m)
    requires forall k :: 0 <= k < |msg| ==> !IsExampleHeader(msg[k])
    requires rest == [] || IsExampleHeader(rest[0])
    ensures ScanExamples([h, "syntax_error", name] + (msg + rest)) == [ExampleRecord(m, FStr(name), msg)] + ScanExamples(rest)
  {
    MessageLengthAppend(msg, rest);
    ScanHeaderStatus(h, name, msg + rest, m);
    var body := msg + rest;
    assert body[..|msg|] == msg && body[|msg|..] == rest;
  }

  /**
   * The cursor at a header followed by `syntax_error`: the next line is the
   * example name whatever it looks like, even a location line, and the
   * message runs to the next location-shaped line.
   */
  lemma ScanHeaderStatus(h: string, name: string, body: seq<string>, m: LocationMatch)
    requires MatchExampleHeader(h) == Some(m)
    ensures ScanExamples([h, "syntax_error", name] + body)
            == [ExampleRecord(m, FStr(name), body[..MessageLength(body)])] + ScanExamples(body[MessageLength(body)..])
  {
    var lines := [h, "syntax_error", name] + body;
    assert lines[0] == h && lines[1] == "syntax_error" && lines[2] == name;
    assert lines[3..] == body;
  }

  /** Header-free lines followed by a header or nothing: the message is exactly those lines. */
  lemma MessageLengthAppend(msg: seq<string>, rest: seq<string>)
    requires forall k :: 0 <= k < |msg| ==> !IsExampleHeader(msg[k])
    requires rest == [] || IsExampleHeader(rest[0])
    ensures MessageLength(msg + rest) == |msg|
  {
    var body := msg + rest;
    forall k | 0 <= k < |msg| ensures !IsExampleHeader(body[k]) {
      assert body[k] == msg[k];
    }
    if rest != [] {
      assert body[|msg|] == rest[0];
    }
    MessageLengthUnique(body, |msg|);
  }

  /** The cursor reads the first block as one record and resumes at the next block. */
  lemma ExampleBlockStep(es: seq<ExampleItem>)
    requires |es| > 0 && forall i :: 0 <= i < |es| ==> ExampleItemOk(es[i])
    ensures ScanExamples(ExampleBlocks(es)) == [ExampleFields(es[0])] + ScanExamples(ExampleBlocks(es[1..]))
  {
    var e := es[0];
    var rest := ExampleBlocks(es[1..]);
    ExampleBlocksCons(es);
    NextBlockIsHeader(es);
    FirstHeaderMatches(es);
    ExampleStepAppend(ExampleHeader(e), e.exampleName, e.message, rest, LocationMatch(e.location, DecimalString(e.line), e.objectName));
  }

  lemma ExampleBlocksCons(es: seq<ExampleItem>)
    requires |es| > 0
    ensures ExampleBlocks(es) == [ExampleHeader(es[0]), "syntax_error", es[0].exampleName] + (es[0].message + ExampleBlocks(es[1..]))
  {
    var head := [ExampleHeader(es[0]), "syntax_error", es[0].exampleName];
    assert ExampleBlocks(es) == ExampleBlock(es[0]) + ExampleBlocks(es[1..]);
    assert ExampleBlock(es[0]) == head + es[0].message;
    ConcatAssoc(head, es[0].message, ExampleBlocks(es[1..]));
  }

  /** The blocks after the first start with a header line, if there are any. */
  lemma NextBlockIsHeader(es: seq<ExampleItem>)
    requires |es| > 0 && forall i :: 0 <= i < |es| ==> ExampleItemOk(es[i])
    ensures ExampleBlocks(es[1..]) == [] || IsExampleHeader(ExampleBlocks(es[1..])[0])
  {
    if |es| > 1 {
      assert es[1..][0] == es[1];
      ExampleHeaderMatches(es[1]);
    }
  }

  /** The first block's header matches, and its message lines are not headers. */
  lemma FirstHeaderMatches(es: seq<ExampleItem>)
    requires |es| > 0 && forall i :: 0 <= i < |es| ==> ExampleItemOk(es[i])
    ensures MatchExampleHeader(ExampleHeader(es[0])) == Some(LocationMatch(es[0].location, DecimalString(es[0].line), es[0].objectName))
    ensures forall k :: 0 <= k < |es[0].message| ==> !IsExampleHeader(es[0].message[k])
  {
    ExampleHeaderMatches(es[0]);
  }

  lemma {:induction false} ExampleBlocksScan(es: seq<ExampleItem>)
    requires forall i :: 0 <= i < |es| ==> ExampleItemOk(es[i])
    ensures ScanExamples(ExampleBlocks(es)) == ExamplesFields(es)
    decreases |es|
  {
    if |es| > 0 {
      ExampleBlockStep(es);
      ExampleBlocksScan(es[1..]);
      assert ExamplesFields(es) == [ExampleFields(es[0])] + ExamplesFields(es[1..]);
    }
  }

  /**
   * Parsing printed examples gives one record per example, in order, with
   * its name and its message lines joined by newlines.
   */
  lemma ExampleSyntaxRoundTrip(es: seq<ExampleItem>)
    requires forall i :: 0 <= i < |es| ==> ExampleItemOk(es[i])
    ensures ParseExampleSyntax(Join(ExampleBlocks(es), "\n")) == ExamplesFields(es)
  {
    var ls := ExampleBlocks(es);
    ExampleBlocksLines(es);
    LinesJoin(ls);
    ExampleBlocksScan(es);
    if |es| > 0 {
      JoinNotEmpty(ls, "\n");
    }
  }

  lemma JoinNotEmpty(ls: seq<string>, sep: string)
    requires |ls| > 0 && ls[0] != []
    ensures Join(ls, sep) != []
  {
    var out := Join(ls, sep);
    assert out[0] == ls[0][0];
  }

  /** A location line followed by anything but `syntax_error` is passed over, and the next line is read afresh. */
  lemma ExampleWithoutStatusSkipped(header: string, status: string, rest: seq<string>)
    requires IsExampleHeader(header) && status != "syntax_error"
    ensures ScanExamples([header, status] + rest) == ScanExamples([status] + rest)
  {
    assert ([header, status] + rest)[1..] == [status] + rest;
  }

  /** An example cut off after its status line gets a `nil` name and an empty message. */
  lemma ExampleWithoutName(header: string, m: LocationMatch)
    requires MatchExampleHeader(header) == Some(m)
    ensures ScanExamples([header, "syntax_error"]) == [ExampleRecord(m, FNil, [])]
  {
  }
}

/**
 * The output parsers: pure functions from the text a `yard` query prints
 * to a list of records.  They come in three styles:
 *
 *  - one record per matching line (undocumented objects, undocumented
 *    method arguments);
 *  - positional two-line pairs (meaningless tags, tag type position);
 *  - a cursor over the lines producing records of variable length
 *    (example syntax).
 *
 * Records are `Records.Record` maps with the keys the Ruby hashes use.
 */
module Parsers {
  import opened Common
  import opened Text
  import opened Records
  import opened LineRegex

  // ---------------------------------------------------------------------------
  // filter_map and each_slice(2)

  /** `xs.filter_map { ... }` where the block yields at most one value: the per-element results, concatenated. */
  function FilterMap<X(!new), T>(xs: seq<X>, f: X -> seq<T>): (r: seq<T>)
    ensures xs == [] ==> r == []
  {
    if |xs| == 0 then [] else f(xs[0]) + FilterMap(xs[1..], f)
  }

  /** When every element contributes at most one result, there are no more results than elements. */
  lemma {:induction false} FilterMapAtMostOne<X(!new), T>(xs: seq<X>, f: X -> seq<T>)
    requires forall x :: |f(x)| <= 1
    ensures |FilterMap(xs, f)| <= |xs|
    decreases |xs|
  {
    if |xs| > 0 {
      FilterMapAtMostOne(xs[1..], f);
    }
  }

  /** Elements are handled one by one and in order: the results of a concatenation are the concatenated results. */
  lemma {:induction false} FilterMapAppend<X(!new), T>(a: seq<X>, b: seq<X>, f: X -> seq<T>)
    ensures FilterMap(a + b, f) == FilterMap(a, f) + FilterMap(b, f)
    decreases |a|
  {
    if |a| > 0 {
      assert (a + b)[1..] == a[1..] + b;
      FilterMapAppend(a[1..], b, f);
    } else {
      assert a + b == b;
    }
  }

  /** Each element contributes exactly `f` of itself, at its own position. */
  lemma FilterMapSplit<X(!new), T>(a: seq<X>, x: X, b: seq<X>, f: X -> seq<T>)
    ensures FilterMap(a + [x] + b, f) == FilterMap(a, f) + f(x) + FilterMap(b, f)
  {
    FilterMapAppend(a + [x], b, f);
    FilterMapAppend(a, [x], f);
    assert FilterMap([x], f) == f(x) + FilterMap([], f);
  }

  /** `lines.each_slice(2)` keeping only complete pairs: an odd trailing line has no partner and is dropped. */
  function Pairs(lines: seq<string>): (r: seq<(string, string)>)
    ensures |r| == |lines| / 2
    ensures forall i :: 0 <= i < |r| ==> r[i] == (lines[2 * i], lines[2 * i + 1])
  {
    if |lines| < 2 then [] else [(lines[0], lines[1])] + Pairs(lines[2..])
  }

  /** Pairing is positional: consecutive pairs can be read off an even-length prefix independently of what follows. */
  lemma {:induction false} PairsAppend(a: seq<string>, b: seq<string>)
    requires |a| % 2 == 0
    ensures Pairs(a + b) == Pairs(a) + Pairs(b)
    decreases |a|
  {
    if |a| >= 2 {
      assert (a + b)[2..] == a[2..] + b;
      PairsAppend(a[2..], b);
    } else {
      assert a + b == b;
    }
  }

  /** Flattening pairs into lines and pairing again gives the pairs back. */
  function Unpair(ps: seq<(string, string)>): (ls: seq<string>)
    ensures |ls| == 2 * |ps|
    ensures forall i :: 0 <= i < |ps| ==> ls[2 * i] == ps[i].0 && ls[2 * i + 1] == ps[i].1
  {
    if |ps| == 0 then [] else [ps[0].0, ps[0].1] + Unpair(ps[1..])
  }

  lemma PairsUnpair(ps: seq<(string, string)>)
    ensures Pairs(Unpair(ps)) == ps
  {
  }

  // ---------------------------------------------------------------------------
  // undocumented objects: `^(.+):(\d+): (.+)$` on each stripped line

  /** The record for one location-line match: location, line number and element. */
  function ObjectRecord(m: LocationMatch): Record
    requires AllDigits(m.digits)
  {
    map["location" := FStr(m.location), "line" := FInt(DecimalValue(m.digits)), "element" := FStr(m.rest)]
  }

  /** What one line contributes: its record when it matches, nothing otherwise. */
  function ObjectOfLine(line: string): (r: seq<Record>)
    ensures |r| <= 1
    ensures r != [] <==> MatchLocation(line).Some?
    ensures r != [] ==> r[0].Keys == {"location", "line", "element"}
    ensures r != [] ==> r[0]["location"].FStr? && r[0]["element"].FStr? &&
                        line == r[0]["location"].str + ":" + MatchLocation(line).value.digits + ": " + r[0]["element"].str
  {
    match MatchLocation(line)
    case Some(m) => [ObjectRecord(m)]
    case None => []
  }

  lemma ObjectOfLineAtMostOne()
    ensures forall x :: |ObjectOfLine(x)| <= 1
  {
  }

  /** `UndocumentedObjects::Parser#call`. */
  function ParseUndocumentedObjects(output: string): (r: seq<Record>)
    ensures |r| <= |StrippedLines(output)|
    ensures output == [] ==> r == []
  {
    var lines := StrippedLines(output);
    ObjectOfLineAtMostOne();
    FilterMapAtMostOne(lines, ObjectOfLine);
    if output == [] then StrippedLinesOfEmpty(); [] else FilterMap(lines, ObjectOfLine)
  }

  // ---------------------------------------------------------------------------
  // undocumented method arguments: `^(.+):(\d+):\s+(.+)[#\.](.+)$` on each line

  function MethodRecord(m: MethodMatch): Record
    requires AllDigits(m.digits)
  {
    map["location" := FStr(m.location), "method_name" := FStr(m.methodName),
        "line" := FInt(DecimalValue(m.digits)), "class_name" := FStr(m.className)]
  }

  function MethodOfLine(line: string): (r: seq<Record>)
    ensures |r| <= 1
    ensures r != [] <==> MatchMethod(line).Some?
    ensures r != [] ==> r[0].Keys == {"location", "method_name", "line", "class_name"}
  {
    match MatchMethod(line)
    case Some(m) => [MethodRecord(m)]
    case None => []
  }

  lemma MethodOfLineAtMostOne()
    ensures forall x :: |MethodOfLine(x)| <= 1
  {
  }

  /** `UndocumentedMethodArguments::Parser#call`: lines are not stripped. */
  function ParseUndocumentedMethodArguments(output: string): (r: seq<Record>)
    ensures |r| <= |Lines(output)|
    ensures output == [] ==> r == []
  {
    MethodOfLineAtMostOne();
    FilterMapAtMostOne(Lines(output), MethodOfLine);
    FilterMap(Lines(output), MethodOfLine)
  }

  // ---------------------------------------------------------------------------
  // meaningless tags: pairs of `file:N: Name` and `object_type|tag_name`

  /** The record for one pair, or nothing when the location line does not match or the details have no `|`. */
  function MeaninglessOfPair(pair: (string, string)): (r: seq<Record>)
    ensures |r| <= 1
    ensures r != [] <==> MatchLocation(pair.0).Some? && '|' in pair.1
    ensures r != [] ==> r[0].Keys == {"location", "line", "object_name", "object_type", "tag_name"}
    ensures r != [] ==> r[0]["object_type"].FStr? && r[0]["tag_name"].FStr? &&
                        '|' !in r[0]["object_type"].str && pair.1 == r[0]["object_type"].str + "|" + r[0]["tag_name"].str
  {
    var details := SplitLimit(pair.1, '|', 2);
    match MatchLocation(pair.0)
    case None => []
    case Some(m) =>
      if |details| != 2 then []
      else
        assert pair.1 == details[0] + "|" + details[1];
        [map["location" := FStr(m.location), "line" := FInt(DecimalValue(m.digits)), "object_name" := FStr(m.rest),
             "object_type" := FStr(details[0]), "tag_name" := FStr(details[1])]]
  }

  lemma MeaninglessOfPairAtMostOne()
    ensures forall x :: |MeaninglessOfPair(x)| <= 1
  {
  }

  /** `MeaninglessTag::Parser#call`. */
  function ParseMeaninglessTags(output: string): (r: seq<Record>)
    ensures AllStripSpace(output) ==> r == []
    ensures |r| <= |StrippedLines(output)| / 2
  {
    if AllStripSpace(output) then []
    else
      MeaninglessOfPairAtMostOne();
      FilterMapAtMostOne(Pairs(StrippedLines(output)), MeaninglessOfPair);
      FilterMap(Pairs(StrippedLines(output)), MeaninglessOfPair)
  }

  // ---------------------------------------------------------------------------
  // tag type position: pairs of `file:N: Name` and `tag|param|type[|style]`

  /** The record for one pair; the details need at least three fields, and a missing fourth reads as `nil`. */
  function TagPositionOfPair(pair: (string, string)): (r: seq<Record>)
    ensures |r| <= 1
    ensures r != [] ==> MatchLocation(pair.0).Some? && |SplitLimit(pair.1, '|', 4)| >= 3
    ensures r != [] ==> r[0].Keys == {"location", "line", "object_name", "tag_name", "param_name", "type_info", "detected_style"}
    ensures r != [] ==> (r[0]["detected_style"] == FNil <==> |SplitLimit(pair.1, '|', 4)| == 3)
  {
    var details := SplitLimit(pair.1, '|', 4);
    match MatchLocation(pair.0)
    case None => []
    case Some(m) =>
      if |details| < 3 then []
      else
        [map["location" := FStr(m.location), "line" := FInt(DecimalValue(m.digits)), "object_name" := FStr(m.rest),
             "tag_name" := FStr(details[0]), "param_name" := FStr(details[1]), "type_info" := FStr(details[2]),
             "detected_style" := if |details| == 4 then FStr(details[3]) else FNil]]
  }

  lemma TagPositionOfPairAtMostOne()
    ensures forall x :: |TagPositionOfPair(x)| <= 1
  {
  }

  /** `TagTypePosition::Parser#call`. */
  function ParseTagTypePositions(output: string): (r: seq<Record>)
    ensures AllStripSpace(output) ==> r == []
    ensures |r| <= |StrippedLines(output)| / 2
  {
    if AllStripSpace(output) then []
    else
      TagPositionOfPairAtMostOne();
      FilterMapAtMostOne(Pairs(StrippedLines(output)), TagPositionOfPair);
      FilterMap(Pairs(StrippedLines(output)), TagPositionOfPair)
  }

  // ---------------------------------------------------------------------------
  // example syntax: a cursor over the lines

  /** The number of leading lines that do not look like a location line: the error message of one example. */
  function MessageLength(lines: seq<string>): (n: nat)
    ensures n <= |lines|
    ensures forall i :: 0 <= i < n ==> !IsExampleHeader(lines[i])
    ensures n == |lines| || IsExampleHeader(lines[n])
  {
    if |lines| == 0 || IsExampleHeader(lines[0]) then 0 else 1 + MessageLength(lines[1..])
  }

  function ExampleRecord(m: LocationMatch, exampleName: Field, message: seq<string>): Record
    requires AllDigits(m.digits)
  {
    map["name" := FStr("ExampleSyntax"), "object_name" := FStr(m.rest), "example_name" := exampleName,
        "error_message" := FStr(Join(message, "\n")), "location" := FStr(m.location),
        "line" := FInt(DecimalValue(m.digits))]
  }

  /**
   * The cursor loop read from the cursor onwards.  A line that is not a
   * location line is skipped; a location line followed by anything but
   * `syntax_error` is skipped and the following line examined again;
   * otherwise the next line is the example name (absent at the end of the
   * input) and the message runs up to the next location-shaped line.
   */
  function ScanExamples(lines: seq<string>): (r: seq<Record>)
    ensures 2 * |r| <= |lines|
    ensures forall i :: 0 <= i < |r| ==> At(r[i], "name") == FStr("ExampleSyntax")
    decreases |lines|
  {
    if |lines| == 0 then []
    else match MatchExampleHeader(lines[0])
      case None => ScanExamples(lines[1..])
      case Some(m) =>
        if |lines| < 2 || lines[1] != "syntax_error" then ScanExamples(lines[1..])
        else if |lines| == 2 then [ExampleRecord(m, FNil, [])]
        else
          var body := lines[3..];
          var n := MessageLength(body);
          [ExampleRecord(m, FStr(lines[2]), body[..n])] + ScanExamples(body[n..])
  }

  /** `ExampleSyntax::Parser#call`. */
  function ParseExampleSyntax(output: string): (r: seq<Record>)
    ensures output == [] ==> r == []
    ensures 2 * |r| <= |Lines(output)|
    ensures forall i :: 0 <= i < |r| ==> At(r[i], "name") == FStr("ExampleSyntax")
  {
    if output == [] then [] else ScanExamples(Lines(output))
  }

  /** `MessageLength` is pinned down by its two ensures. */
  lemma {:induction false} MessageLengthUnique(lines: seq<string>, n: nat)
    requires n <= |lines|
    requires forall i :: 0 <= i < n ==> !IsExampleHeader(lines[i])
    requires n == |lines| || IsExampleHeader(lines[n])
    ensures MessageLength(lines) == n
    decreases n
  {
    if n > 0 {
      MessageLengthUnique(lines[1..], n - 1);
    }
  }

  /**
   * The parser as the Ruby code writes it: an explicit cursor `i` over the
   * lines, and an inner loop collecting the message.
   */
  method ParseExampleSyntaxLoop(output: string) returns (results: seq<Record>)
    ensures results == ParseExampleSyntax(output)
    ensures 2 * |results| <= |Lines(output)|
  {
    results := [];
    if output == [] {
      return;
    }
    var lines := Lines(output);
    var i := 0;
    while i < |lines|
      invariant 0 <= i <= |lines|
      invariant results + ScanExamples(lines[i..]) == ScanExamples(lines)
      decreases |lines| - i
    {
      var found, next := NextExample(lines, i);
      ghost var later := ScanExamples(lines[next..]);
      ConcatAssoc(results, found, later);
      results := results + found;
      i := next;
      assert results + later == ScanExamples(lines);
    }
    assert lines[i..] == [];
    assert results == ScanExamples(lines);
  }

  /**
   * One turn of the cursor loop: the line at `i` is skipped, or opens an
   * example whose record is produced and whose lines are consumed.
   */
  method NextExample(lines: seq<string>, i: nat) returns (found: seq<Record>, next: nat)
    requires i < |lines|
    ensures i < next <= |lines|
    ensures |found| <= 1
    ensures ScanExamples(lines[i..]) == found + ScanExamples(lines[next..])
  {
    match MatchExampleHeader(lines[i])
    case None =>
      ScanSkip(lines, i);
      found, next := [], i + 1;
    case Some(m) =>
      if i + 1 < |lines| && lines[i + 1] == "syntax_error" {
        if i + 2 < |lines| {
          var exampleName := FStr(lines[i + 2]);
          var message;
          message, next := CollectMessage(lines, i + 3);
          ExampleStep(lines, i, next, m, exampleName, message);
          found := [ExampleRecord(m, exampleName, message)];
        } else {
          ScanLast(lines, i, m);
          found, next := [ExampleRecord(m, FNil, [])], |lines|;
        }
      } else {
        ScanSkip(lines, i);
        found, next := [], i + 1;
      }
  }

  /** The inner loop: lines from `start` up to the next location-shaped line. */
  method CollectMessage(lines: seq<string>, start: nat) returns (message: seq<string>, next: nat)
    requires start <= |lines|
    ensures start <= next <= |lines|
    ensures message == lines[start..next]
    ensures forall j :: start <= j < next ==> !IsExampleHeader(lines[j])
    ensures next == |lines| || IsExampleHeader(lines[next])
  {
    message := [];
    next := start;
    while next < |lines| && !IsExampleHeader(lines[next])
      invariant start <= next <= |lines|
      invariant message == lines[start..next]
      invariant forall j :: start <= j < next ==> !IsExampleHeader(lines[j])
      decreases |lines| - next
    {
      assert lines[start..next + 1] == lines[start..next] + [lines[next]];
      message := message + [lines[next]];
      next := next + 1;
    }
  }

  /** A line that does not open an example, or a header not followed by `syntax_error`, is skipped. */
  lemma ScanSkip(lines: seq<string>, i: nat)
    requires i < |lines|
    requires MatchExampleHeader(lines[i]).None? || i + 1 == |lines| || lines[i + 1] != "syntax_error"
    ensures ScanExamples(lines[i..]) == ScanExamples(lines[i + 1..])
  {
    assert lines[i..][1..] == lines[i + 1..];
  }

  /** A header and `syntax_error` as the last two lines: one record with no example name. */
  lemma ScanLast(lines: seq<string>, i: nat, m: LocationMatch)
    requires i + 2 == |lines|
    requires MatchExampleHeader(lines[i]) == Some(m) && lines[i + 1] == "syntax_error"
    ensures ScanExamples(lines[i..]) == [ExampleRecord(m, FNil, [])]
  {
    assert lines[i..] == [lines[i], lines[i + 1]];
  }

  /** One record-producing step of the cursor loop agrees with `ScanExamples`. */
  lemma ExampleStep(lines: seq<string>, i0: nat, i: nat, m: LocationMatch, exampleName: Field, message: seq<string>)
    requires i0 + 3 <= i <= |lines|
    requires MatchExampleHeader(lines[i0]) == Some(m) && lines[i0 + 1] == "syntax_error"
    requires exampleName == FStr(lines[i0 + 2]) && message == lines[i0 + 3..i]
    requires forall j :: i0 + 3 <= j < i ==> !IsExampleHeader(lines[j])
    requires i == |lines| || IsExampleHeader(lines[i])
    ensures ScanExamples(lines[i0..]) == [ExampleRecord(m, exampleName, message)] + ScanExamples(lines[i..])
  {
    var rest := lines[i0..];
    var body := rest[3..];
    assert body == lines[i0 + 3..];
    MessageLengthUnique(body, i - i0 - 3);
    assert body[..i - i0 - 3] == message;
    assert body[i - i0 - 3..] == lines[i..];
  }
}

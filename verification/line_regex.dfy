/**
 * Explicit matchers for the three line-shaped regular expressions used by
 * the output parsers:
 *
 *   location line   `^(.+):(\d+): (.+)$`
 *   example header  `^([a-zA-Z./~].+):(\d+): (.+)$`
 *   method line     `^(.+):(\d+):\s+(.+)[#\.](.+)$`
 *
 * The parsers only apply them to lines produced by splitting on "\n", so a
 * line never contains a newline; on such a line `^`/`$` anchor at its two
 * ends and `.` matches every character.  Each pattern is stated twice: once
 * as a literal reading (a predicate over the group boundaries) and once as a
 * search that tries the boundaries in the order Ruby's backtracking engine
 * does (greedy groups: longest first).  The lemmas say that the search
 * reports the FIRST reading in that order, and that rendering the groups and
 * matching them again gives the groups back.
 */
module LineRegex {
  import opened Common
  import opened Text

  // ---------------------------------------------------------------------------
  // character runs

  /** Number of consecutive digits of `s` starting at `i` (what `\d+` can consume). */
  function DigitRun(s: string, i: nat): (n: nat)
    requires i <= |s|
    ensures i + n <= |s|
    ensures i + n == |s| || !IsDigit(s[i + n])
    decreases |s| - i
  {
    if i < |s| && IsDigit(s[i]) then 1 + DigitRun(s, i + 1) else 0
  }

  /** Number of consecutive `\s` characters of `s` starting at `i`. */
  function SpaceRun(s: string, i: nat): (n: nat)
    requires i <= |s|
    ensures i + n <= |s|
    ensures i + n == |s| || !IsSpace(s[i + n])
    decreases |s| - i
  {
    if i < |s| && IsSpace(s[i]) then 1 + SpaceRun(s, i + 1) else 0
  }

  /** The digit run consists of digits. */
  lemma {:induction false} DigitRunDigits(s: string, i: nat)
    requires i <= |s|
    ensures AllDigits(s[i..i + DigitRun(s, i)])
    decreases |s| - i
  {
    if i < |s| && IsDigit(s[i]) {
      DigitRunDigits(s, i + 1);
      assert s[i..i + DigitRun(s, i)] == [s[i]] + s[i + 1..i + 1 + DigitRun(s, i + 1)];
    }
  }

  /** A digit run is determined by where it starts: an all-digit stretch followed by a non-digit is the run. */
  lemma {:induction false} DigitRunExact(s: string, i: nat, q: nat)
    requires i <= q < |s|
    requires AllDigits(s[i..q]) && !IsDigit(s[q])
    ensures DigitRun(s, i) == q - i
    decreases q - i
  {
    if i < q {
      assert s[i] == s[i..q][0];
      assert s[i + 1..q] == s[i..q][1..];
      DigitRunExact(s, i + 1, q);
    }
  }

  /** A whitespace stretch is never longer than the whitespace run it starts. */
  lemma {:induction false} SpaceRunCovers(s: string, i: nat, w: nat)
    requires i + w <= |s|
    requires AllSpace(s[i..i + w])
    ensures w <= SpaceRun(s, i)
    decreases w
  {
    if w > 0 {
      assert s[i] == s[i..i + w][0];
      assert s[i + 1..i + w] == s[i..i + w][1..];
      SpaceRunCovers(s, i + 1, w - 1);
    }
  }

  /** A whitespace stretch followed by a non-space is the whole run. */
  lemma SpaceRunExact(s: string, i: nat, e: nat)
    requires i <= e < |s|
    requires AllSpace(s[i..e]) && !IsSpace(s[e])
    ensures SpaceRun(s, i) == e - i
  {
    SpaceRunCovers(s, i, e - i);
    SpaceRunBounded(s, i, e);
  }

  lemma {:induction false} SpaceRunBounded(s: string, i: nat, e: nat)
    requires i <= e < |s| && !IsSpace(s[e])
    ensures SpaceRun(s, i) <= e - i
    decreases e - i
  {
    if i < e && IsSpace(s[i]) {
      SpaceRunBounded(s, i + 1, e);
    }
  }

  /** Every prefix of the whitespace run is whitespace. */
  lemma {:induction false} SpaceRunSpaces(s: string, i: nat, w: nat)
    requires i <= |s| && w <= SpaceRun(s, i)
    ensures AllSpace(s[i..i + w])
    decreases w
  {
    if w > 0 {
      SpaceRunSpaces(s, i + 1, w - 1);
      assert s[i..i + w] == [s[i]] + s[i + 1..i + w];
    }
  }

  /** Digit runs read the same through a prefix. */
  lemma {:induction false} DigitRunShift(a: string, b: string, i: nat)
    requires i <= |b|
    ensures DigitRun(a + b, |a| + i) == DigitRun(b, i)
    decreases |b| - i
  {
    if i < |b| && IsDigit(b[i]) {
      DigitRunShift(a, b, i + 1);
    }
  }

  // ---------------------------------------------------------------------------
  // `^(.+):(\d+): (.+)$`

  /**
   * Literal reading of `^(.+):(\d+): (.+)$`: group 1 is `line[..p]`, group 2
   * is `line[p + 1..q]`, group 3 is `line[q + 2..]`.
   */
  predicate LocationShape(line: string, p: int, q: int) {
    && 1 <= p && p + 1 < q && q + 2 < |line|
    && line[p] == ':' && AllDigits(line[p + 1..q])
    && line[q] == ':' && line[q + 1] == ' '
  }

  /** Group 1 can end at `p`: the second group is then forced to be the digit run after `p`. */
  predicate LocationAt(line: string, p: int) {
    && 1 <= p < |line|
    && line[p] == ':'
    && var q := p + 1 + DigitRun(line, p + 1);
    && q > p + 1 && q + 2 < |line| && line[q] == ':' && line[q + 1] == ' '
  }

  /** The split point alone decides a location reading. */
  lemma LocationShapeAt(line: string, p: int, q: int)
    ensures LocationShape(line, p, q) <==> LocationAt(line, p) && q == p + 1 + DigitRun(line, p + 1)
  {
    if LocationShape(line, p, q) {
      DigitRunExact(line, p + 1, q);
    }
    if 1 <= p < |line| {
      DigitRunDigits(line, p + 1);
    }
  }

  /** Split points tried from `hi - 1` down to `lo`. */
  function SearchLocation(line: string, lo: nat, hi: nat): (r: Option<nat>)
    requires hi <= |line|
    ensures r.Some? ==> lo <= r.value < hi && LocationAt(line, r.value)
    decreases hi
  {
    if hi <= lo then None
    else if LocationAt(line, hi - 1) then Some(hi - 1)
    else SearchLocation(line, lo, hi - 1)
  }

  /** The search reports the highest split point in range, and nothing when there is none. */
  lemma {:induction false} SearchLocationHighest(line: string, lo: nat, hi: nat)
    requires hi <= |line|
    ensures SearchLocation(line, lo, hi).Some? ==> forall p :: SearchLocation(line, lo, hi).value < p < hi ==> !LocationAt(line, p)
    ensures SearchLocation(line, lo, hi).None? ==> forall p :: lo <= p < hi ==> !LocationAt(line, p)
    decreases hi
  {
    if hi > lo && !LocationAt(line, hi - 1) {
      SearchLocationHighest(line, lo, hi - 1);
    }
  }

  /** The three groups of a location-line match. */
  datatype LocationMatch = LocationMatch(location: string, digits: string, rest: string)

  /** The groups read at split point `p`. */
  function LocationGroups(line: string, p: nat): (m: LocationMatch)
    requires LocationAt(line, p)
    ensures line == m.location + ":" + m.digits + ": " + m.rest
    ensures |m.location| == p && |m.digits| >= 1 && |m.rest| >= 1
    ensures AllDigits(m.digits)
  {
    var q := p + 1 + DigitRun(line, p + 1);
    DigitRunDigits(line, p + 1);
    var m := LocationMatch(line[..p], line[p + 1..q], line[q + 2..]);
    assert line == line[..p] + [line[p]] + line[p + 1..q] + [line[q], line[q + 1]] + line[q + 2..];
    m
  }

  /** `line.match(/^(.+):(\d+): (.+)$/)`: the groups at the highest split point. */
  function MatchLocation(line: string): (r: Option<LocationMatch>)
    ensures r.Some? ==> line == r.value.location + ":" + r.value.digits + ": " + r.value.rest
    ensures r.Some? ==> AllDigits(r.value.digits) && |r.value.location| >= 1 && |r.value.rest| >= 1
  {
    match SearchLocation(line, 1, |line|)
    case None => None
    case Some(p) => Some(LocationGroups(line, p))
  }

  /**
   * `MatchLocation` succeeds exactly when the pattern has a reading; it then
   * reports the reading with the longest first group, and its digit group is
   * a non-empty run of digits.
   */
  lemma MatchLocationFirst(line: string)
    ensures MatchLocation(line).None? <==> forall p, q :: !LocationShape(line, p, q)
    ensures MatchLocation(line).Some? ==>
              var m := MatchLocation(line).value;
              && LocationShape(line, |m.location|, |m.location| + 1 + |m.digits|)
              && |m.digits| >= 1 && AllDigits(m.digits)
              && forall p, q :: LocationShape(line, p, q) ==> p <= |m.location|
  {
    SearchLocationHighest(line, 1, |line|);
    match SearchLocation(line, 1, |line|)
    case None =>
      NoLocationBelow(line, 1, |line|);
    case Some(p) =>
      HighestLocation(line, p);
  }

  /** Without an eligible split point in `[lo, hi)` there is no reading whose first group ends there. */
  lemma NoLocationBelow(line: string, lo: nat, hi: nat)
    requires hi == |line| && forall p :: lo <= p < hi ==> !LocationAt(line, p)
    ensures forall p, q :: p >= lo ==> !LocationShape(line, p, q)
  {
    forall p, q | p >= lo ensures !LocationShape(line, p, q) {
      LocationShapeAt(line, p, q);
    }
  }

  /** The groups at the highest eligible split point form a reading that no other reading exceeds. */
  lemma HighestLocation(line: string, p: nat)
    requires LocationAt(line, p) && forall p' :: p < p' < |line| ==> !LocationAt(line, p')
    ensures var m := LocationGroups(line, p);
            && LocationShape(line, p, p + 1 + |m.digits|)
            && AllDigits(m.digits)
            && forall p', q :: LocationShape(line, p', q) ==> p' <= p
  {
    LocationShapeAt(line, p, p + 1 + DigitRun(line, p + 1));
    forall p', q' | LocationShape(line, p', q') ensures p' <= p {
      LocationShapeAt(line, p', q');
    }
  }

  // ---------------------------------------------------------------------------
  // `^([a-zA-Z./~].+):(\d+): (.+)$`

  /** The characters an example header's file path may start with. */
  predicate PathLead(c: char) {
    ('a' <= c <= 'z') || ('A' <= c <= 'Z') || c == '.' || c == '/' || c == '~'
  }

  /**
   * The example-header pattern: a location line whose first group starts
   * with a path character and is at least two characters long
   * (`[a-zA-Z./~]` followed by `.+`).
   */
  function MatchExampleHeader(line: string): (r: Option<LocationMatch>)
    ensures r.Some? ==> line == r.value.location + ":" + r.value.digits + ": " + r.value.rest
    ensures r.Some? ==> |r.value.location| >= 2 && PathLead(line[0])
    ensures r.Some? ==> AllDigits(r.value.digits) && |r.value.rest| >= 1
  {
    if |line| == 0 || !PathLead(line[0]) then None
    else
      match SearchLocation(line, 2, |line|)
      case None => None
      case Some(p) => Some(LocationGroups(line, p))
  }

  /** The header pattern matches exactly the location readings with a path-like first group of two or more characters. */
  lemma MatchExampleHeaderFirst(line: string)
    ensures MatchExampleHeader(line).None? <==>
              (|line| == 0 || !PathLead(line[0]) || forall p, q :: p >= 2 ==> !LocationShape(line, p, q))
    ensures MatchExampleHeader(line).Some? ==>
              var m := MatchExampleHeader(line).value;
              && LocationShape(line, |m.location|, |m.location| + 1 + |m.digits|)
              && forall p, q :: LocationShape(line, p, q) ==> p <= |m.location|
  {
    if |line| > 0 && PathLead(line[0]) {
      SearchLocationHighest(line, 2, |line|);
      match SearchLocation(line, 2, |line|)
      case None =>
        NoLocationBelow(line, 2, |line|);
      case Some(p) =>
        var m := LocationGroups(line, p);
        assert MatchExampleHeader(line) == Some(m);
        HighestLocation(line, p);
        assert |m.location| + 1 + |m.digits| == p + 1 + |m.digits|;
    }
  }

  /** `line.match?(/^[a-zA-Z./~].+:\d+: .+$/)`: the header pattern without captures. */
  predicate IsExampleHeader(line: string) {
    MatchExampleHeader(line).Some?
  }

  // ---------------------------------------------------------------------------
  // round trip of the location pattern

  /** Position `k` of `s` starts a `:N: x` tail. */
  predicate TailAt(s: string, k: int) {
    && 0 <= k < |s| && s[k] == ':'
    && var d := DigitRun(s, k + 1);
    && d >= 1 && k + d + 3 < |s| && s[k + 1 + d] == ':' && s[k + 2 + d] == ' '
  }

  /** No position of `s` starts a `:N: x` tail, so a greedy first group cannot end inside `s`. */
  predicate NoTail(s: string) {
    forall k :: 0 <= k < |s| ==> !TailAt(s, k)
  }

  /** A location line rendered from its three parts. */
  function RenderLocation(location: string, digits: string, rest: string): string {
    location + ":" + digits + ": " + rest
  }

  /**
   * Rendering and matching are inverse: any location (even one containing
   * `:N: `) followed by a digit string and a rest with no `:N: x` tail is
   * split back at exactly the rendered boundary.
   */
  lemma MatchLocationRender(location: string, digits: string, rest: string)
    requires |location| >= 1 && |digits| >= 1 && AllDigits(digits) && |rest| >= 1
    requires NoTail(rest)
    ensures MatchLocation(RenderLocation(location, digits, rest)) == Some(LocationMatch(location, digits, rest))
  {
    var line := RenderLocation(location, digits, rest);
    RenderedLocation(location, digits, rest);
    SearchLocationFinds(line, 1, |line|, |location|);
  }

  /** The example-header pattern reads a rendered header back when its location starts like a path. */
  lemma MatchExampleHeaderRender(location: string, digits: string, rest: string)
    requires |location| >= 2 && PathLead(location[0])
    requires |digits| >= 1 && AllDigits(digits) && |rest| >= 1
    requires NoTail(rest)
    ensures MatchExampleHeader(RenderLocation(location, digits, rest)) == Some(LocationMatch(location, digits, rest))
  {
    var line := RenderLocation(location, digits, rest);
    RenderedLocation(location, digits, rest);
    assert line[0] == location[0];
    SearchLocationFinds(line, 2, |line|, |location|);
  }

  /** A line without a colon is never a location line. */
  lemma NoColonNoHeader(line: string)
    requires ':' !in line
    ensures MatchExampleHeader(line) == None && MatchLocation(line) == None
  {
  }

  /** Where the parts of a rendered location line sit, and that no split point above the rendered one is eligible. */
  lemma RenderedLocation(location: string, digits: string, rest: string)
    requires |location| >= 1 && |digits| >= 1 && AllDigits(digits) && |rest| >= 1
    requires NoTail(rest)
    ensures var line := RenderLocation(location, digits, rest);
            && LocationAt(line, |location|)
            && LocationGroups(line, |location|) == LocationMatch(location, digits, rest)
            && forall p :: |location| < p < |line| ==> !LocationAt(line, p)
  {
    var line := RenderLocation(location, digits, rest);
    var p0 := |location|;
    var q0 := p0 + 1 + |digits|;
    assert line[..p0] == location;
    assert line[p0 + 1..q0] == digits;
    assert line[q0 + 2..] == rest;
    assert LocationShape(line, p0, q0);
    LocationShapeAt(line, p0, q0);
    LocationAbove(line, p0, q0, rest);
  }

  /** The top-down search stops at the highest split point. */
  lemma {:induction false} SearchLocationFinds(line: string, lo: nat, hi: nat, p0: nat)
    requires lo <= p0 < hi <= |line|
    requires LocationAt(line, p0)
    requires forall p :: p0 < p < hi ==> !LocationAt(line, p)
    ensures SearchLocation(line, lo, hi) == Some(p0)
    decreases hi
  {
    if hi - 1 != p0 {
      SearchLocationFinds(line, lo, hi - 1, p0);
    }
  }

  /** Above a rendered boundary no split point exists when the rest has no tail. */
  lemma LocationAbove(line: string, p0: nat, q0: nat, rest: string)
    requires LocationShape(line, p0, q0)
    requires line[q0 + 2..] == rest && NoTail(rest)
    ensures forall p :: p0 < p < |line| ==> !LocationAt(line, p)
  {
    var head := line[..q0 + 2];
    assert line == head + rest;
    forall p | p0 < p < |line| ensures !LocationAt(line, p) {
      if p >= q0 + 2 {
        LocationAtShift(head, rest, p - (q0 + 2));
      } else if p == q0 {
        assert DigitRun(line, p + 1) == 0;
      } else if p < q0 {
        assert line[p] == line[p0 + 1..q0][p - p0 - 1];
      }
    }
  }

  /** A split point inside the last part of a line is a tail of that part. */
  lemma LocationAtShift(a: string, b: string, k: nat)
    requires |a| >= 1 && k < |b|
    ensures LocationAt(a + b, |a| + k) <==> TailAt(b, k)
  {
    var line := a + b;
    DigitRunShift(a, b, k + 1);
    var d := DigitRun(b, k + 1);
    assert line[|a| + k] == b[k];
    if k + d + 3 < |b| {
      assert line[|a| + k + 1 + d] == b[k + 1 + d];
      assert line[|a| + k + 2 + d] == b[k + 2 + d];
    }
  }

  // ---------------------------------------------------------------------------
  // `^(.+):(\d+):\s+(.+)[#\.](.+)$`

  predicate IsMethodSeparator(c: char) {
    c == '#' || c == '.'
  }

  /**
   * Literal reading of the method-line pattern: group 1 is `line[..p]`,
   * group 2 `line[p + 1..c]`, the `\s+` run is `line[c + 1..c + 1 + w]`,
   * group 3 (class) ends at the separator `q`, group 4 (method) is
   * `line[q + 1..]`.
   */
  predicate MethodShape(line: string, p: int, c: int, w: int, q: int) {
    && 1 <= p && p + 1 < c && w >= 1 && c + 1 + w < q && q + 1 < |line|
    && line[p] == ':' && AllDigits(line[p + 1..c])
    && line[c] == ':' && AllSpace(line[c + 1..c + 1 + w])
    && IsMethodSeparator(line[q])
  }

  /** Group 1 can end at `p`: a digit run then a colon follow. */
  predicate DigitsColonAt(line: string, p: int) {
    && 1 <= p < |line|
    && line[p] == ':'
    && var c := p + 1 + DigitRun(line, p + 1);
    && c > p + 1 && c < |line| && line[c] == ':'
  }

  /** Where group 2 ends when group 1 ends at `p`. */
  function ColonAfterDigits(line: string, p: int): (c: nat)
    requires DigitsColonAt(line, p)
    ensures p + 1 < c < |line| && line[c] == ':'
  {
    p + 1 + DigitRun(line, p + 1)
  }

  /** The reading chosen by split point `p`, whitespace length `w` and separator `q`. */
  predicate MethodAt(line: string, p: int, w: int, q: int) {
    && DigitsColonAt(line, p)
    && var c := ColonAfterDigits(line, p);
    && 1 <= w <= SpaceRun(line, c + 1)
    && c + 1 + w < q && q + 1 < |line| && IsMethodSeparator(line[q])
  }

  /** Given the location group, the digit group is forced; the rest of a reading is free. */
  lemma MethodShapeAt(line: string, p: int, c: int, w: int, q: int)
    ensures MethodShape(line, p, c, w, q) <==> MethodAt(line, p, w, q) && c == ColonAfterDigits(line, p)
  {
    if MethodShape(line, p, c, w, q) {
      MethodShapeToAt(line, p, c, w, q);
    }
    if MethodAt(line, p, w, q) && c == ColonAfterDigits(line, p) {
      MethodAtToShape(line, p, w, q);
    }
  }

  lemma MethodShapeToAt(line: string, p: int, c: int, w: int, q: int)
    requires MethodShape(line, p, c, w, q)
    ensures MethodAt(line, p, w, q) && c == ColonAfterDigits(line, p)
  {
    DigitRunExact(line, p + 1, c);
    SpaceRunCovers(line, c + 1, w);
  }

  lemma MethodAtToShape(line: string, p: int, w: int, q: int)
    requires MethodAt(line, p, w, q)
    ensures MethodShape(line, p, ColonAfterDigits(line, p), w, q)
  {
    DigitRunDigits(line, p + 1);
    SpaceRunSpaces(line, ColonAfterDigits(line, p) + 1, w);
  }

  /** Separator positions tried from `hi - 1` down to `lo`. */
  function SearchSeparator(line: string, lo: nat, hi: nat): (r: Option<nat>)
    requires hi <= |line|
    ensures r.Some? ==> lo <= r.value < hi && IsMethodSeparator(line[r.value])
    decreases hi
  {
    if hi <= lo then None
    else if IsMethodSeparator(line[hi - 1]) then Some(hi - 1)
    else SearchSeparator(line, lo, hi - 1)
  }

  /** The separator search reports the last separator in range (greedy class group). */
  lemma {:induction false} SearchSeparatorLast(line: string, lo: nat, hi: nat)
    requires hi <= |line|
    ensures SearchSeparator(line, lo, hi).Some? ==>
              forall q :: SearchSeparator(line, lo, hi).value < q < hi ==> !IsMethodSeparator(line[q])
    ensures SearchSeparator(line, lo, hi).None? ==> forall q :: lo <= q < hi ==> !IsMethodSeparator(line[q])
    decreases hi
  {
    if hi > lo && !IsMethodSeparator(line[hi - 1]) {
      SearchSeparatorLast(line, lo, hi - 1);
    }
  }

  /** Whitespace lengths tried from `w` down to 1 (greedy `\s+`), each with the last separator. */
  function SearchSpace(line: string, p: nat, w: nat): (r: Option<(nat, nat)>)
    requires DigitsColonAt(line, p)
    requires w <= SpaceRun(line, ColonAfterDigits(line, p) + 1)
    ensures r.Some? ==> 1 <= r.value.0 <= w && MethodAt(line, p, r.value.0, r.value.1)
    decreases w
  {
    if w == 0 || |line| < 1 then None
    else
      match SearchSeparator(line, ColonAfterDigits(line, p) + 2 + w, |line| - 1)
      case Some(q) => Some((w, q))
      case None => SearchSpace(line, p, w - 1)
  }

  /** The whitespace search reports the longest run that admits a separator, with the last separator. */
  lemma {:induction false} SearchSpaceFirst(line: string, p: nat, w: nat)
    requires DigitsColonAt(line, p)
    requires w <= SpaceRun(line, ColonAfterDigits(line, p) + 1)
    ensures SearchSpace(line, p, w).Some? ==>
              var r := SearchSpace(line, p, w).value;
              && (forall w', q :: r.0 < w' <= w ==> !MethodAt(line, p, w', q))
              && (forall q :: MethodAt(line, p, r.0, q) ==> q <= r.1)
    ensures SearchSpace(line, p, w).None? ==> forall w', q :: w' <= w ==> !MethodAt(line, p, w', q)
    decreases w
  {
    if w > 0 && |line| >= 1 {
      var lo := ColonAfterDigits(line, p) + 2 + w;
      SearchSeparatorLast(line, lo, |line| - 1);
      if SearchSeparator(line, lo, |line| - 1).None? {
        SearchSpaceFirst(line, p, w - 1);
      }
    }
  }

  /** The first reading whose location group ends at `p`, if any. */
  function MethodFrom(line: string, p: nat): (r: Option<(nat, nat)>)
    ensures r.Some? ==> MethodAt(line, p, r.value.0, r.value.1)
  {
    if !DigitsColonAt(line, p) then None
    else SearchSpace(line, p, SpaceRun(line, ColonAfterDigits(line, p) + 1))
  }

  /** From a fixed location group, the longest whitespace run wins, then the last separator. */
  lemma MethodFromFirst(line: string, p: nat)
    ensures MethodFrom(line, p).Some? ==>
              var r := MethodFrom(line, p).value;
              && (forall w, q :: MethodAt(line, p, w, q) ==> w <= r.0)
              && (forall q :: MethodAt(line, p, r.0, q) ==> q <= r.1)
    ensures MethodFrom(line, p).None? ==> forall w, q :: !MethodAt(line, p, w, q)
  {
    if DigitsColonAt(line, p) {
      SearchSpaceFirst(line, p, SpaceRun(line, ColonAfterDigits(line, p) + 1));
    }
  }

  /** Split points tried from `hi - 1` down to 1 (greedy location group). */
  function SearchMethod(line: string, hi: nat): (r: Option<(nat, nat, nat)>)
    requires hi <= |line|
    ensures r.Some? ==> 1 <= r.value.0 < hi && MethodFrom(line, r.value.0) == Some((r.value.1, r.value.2))
    decreases hi
  {
    if hi <= 1 then None
    else
      match MethodFrom(line, hi - 1)
      case Some((w, q)) => Some((hi - 1, w, q))
      case None => SearchMethod(line, hi - 1)
  }

  /** The split-point search reports the highest location group that admits a reading. */
  lemma {:induction false} SearchMethodHighest(line: string, hi: nat)
    requires hi <= |line|
    ensures SearchMethod(line, hi).Some? ==>
              forall p: nat :: SearchMethod(line, hi).value.0 < p < hi ==> MethodFrom(line, p).None?
    ensures SearchMethod(line, hi).None? ==> forall p: nat :: p < hi ==> MethodFrom(line, p).None?
    decreases hi
  {
    if hi > 1 && MethodFrom(line, hi - 1).None? {
      SearchMethodHighest(line, hi - 1);
    }
  }

  /** The four groups of a method-line match. */
  datatype MethodMatch = MethodMatch(location: string, digits: string, className: string, methodName: string)

  /** The groups of the method pattern for a given reading. */
  function MethodGroups(line: string, p: nat, c: nat, w: nat, q: nat): MethodMatch
    requires p < c && c + 1 + w <= q < |line|
  {
    MethodMatch(line[..p], line[p + 1..c], line[c + 1 + w..q], line[q + 1..])
  }

  /**
   * A reading that comes first in backtracking order: no other reading has a
   * longer location, or the same location and a longer whitespace run, or
   * both of those the same and a longer class.
   */
  ghost predicate FirstMethodReading(line: string, p: nat, c: nat, w: nat, q: nat) {
    && MethodShape(line, p, c, w, q)
    && forall p', c', w', q' :: MethodShape(line, p', c', w', q') ==>
         p' < p || (p' == p && (w' < w || (w' == w && q' <= q)))
  }

  /**
   * `line.match(/^(.+):(\d+):\s+(.+)[#\.](.+)$/)`: location, line digits,
   * class and method of the first reading in backtracking order.
   */
  function MatchMethod(line: string): (r: Option<MethodMatch>)
    ensures r.Some? ==> |r.value.location| >= 1 && |r.value.digits| >= 1
    ensures r.Some? ==> |r.value.className| >= 1 && |r.value.methodName| >= 1
    ensures r.Some? ==> AllDigits(r.value.digits)
  {
    var r := SearchMethod(line, |line|);
    if r.None? then None
    else
      var p, w, q := r.value.0, r.value.1, r.value.2;
      DigitRunDigits(line, p + 1);
      Some(MethodGroups(line, p, ColonAfterDigits(line, p), w, q))
  }

  /** `MatchMethod` fails exactly when the pattern has no reading, and otherwise reports the first one. */
  lemma MatchMethodFirst(line: string)
    ensures MatchMethod(line).None? <==> forall p, c, w, q :: !MethodShape(line, p, c, w, q)
    ensures MatchMethod(line).Some? ==>
              exists c, w, q :: FirstMethodReading(line, |MatchMethod(line).value.location|, c, w, q)
                             && MatchMethod(line).value == MethodGroups(line, |MatchMethod(line).value.location|, c, w, q)
  {
    SearchMethodHighest(line, |line|);
    match SearchMethod(line, |line|)
    case None =>
      forall p, c, w, q ensures !MethodShape(line, p, c, w, q) {
        MethodShapeAt(line, p, c, w, q);
        if 0 <= p {
          MethodFromFirst(line, p);
        }
      }
    case Some((p, w, q)) =>
      var c := ColonAfterDigits(line, p);
      MethodShapeAt(line, p, c, w, q);
      MethodFromFirst(line, p);
      forall p', c', w', q' | MethodShape(line, p', c', w', q')
        ensures p' < p || (p' == p && (w' < w || (w' == w && q' <= q)))
      {
        MethodShapeAt(line, p', c', w', q');
        MethodFromFirst(line, p');
      }
      assert FirstMethodReading(line, p, c, w, q);
  }

  // ---------------------------------------------------------------------------
  // round trip of the method pattern

  /** No separator in `s` except possibly its last character. */
  predicate NoInnerSeparator(s: string) {
    forall i :: 0 <= i < |s| - 1 ==> !IsMethodSeparator(s[i])
  }

  /** No colon in `s` is followed by a digit, so no location group can end inside `s`. */
  predicate NoColonDigit(s: string) {
    forall k :: 0 <= k < |s| - 1 && s[k] == ':' ==> !IsDigit(s[k + 1])
  }

  /** A method line rendered from its parts. */
  function RenderMethod(location: string, digits: string, ws: string, className: string, sep: char, methodName: string): string {
    location + ":" + digits + ":" + ws + className + [sep] + methodName
  }

  /** Conditions under which a rendered method line reads back into the same parts. */
  predicate MethodParts(location: string, digits: string, ws: string, className: string, sep: char, methodName: string) {
    && |location| >= 1 && |digits| >= 1 && AllDigits(digits)
    && |ws| >= 1 && AllSpace(ws)
    && |className| >= 1 && !IsSpace(className[0])
    && IsMethodSeparator(sep)
    && |methodName| >= 1 && NoInnerSeparator(methodName)
    && NoColonDigit(className + [sep] + methodName)
  }

  /**
   * Rendering and matching are inverse on method lines: the location may be
   * anything, the whitespace run is taken whole, and the class group extends
   * to the last separator.
   */
  lemma MatchMethodRender(location: string, digits: string, ws: string, className: string, sep: char, methodName: string)
    requires MethodParts(location, digits, ws, className, sep, methodName)
    ensures MatchMethod(RenderMethod(location, digits, ws, className, sep, methodName))
         == Some(MethodMatch(location, digits, className, methodName))
  {
    var line := RenderMethod(location, digits, ws, className, sep, methodName);
    var c0 := |location| + 1 + |digits|;
    var q0 := c0 + 1 + |ws| + |className|;
    var m := MethodMatch(location, digits, className, methodName);
    RenderedMethodSearch(location, digits, ws, className, sep, methodName);
    RenderedMethodGroups(location, digits, ws, className, sep, methodName);
    MatchMethodAt(line, |location|, c0, |ws|, q0, m);
  }

  /** What `MatchMethod` reports once the search result and its groups are known. */
  lemma MatchMethodAt(line: string, p: nat, c: nat, w: nat, q: nat, m: MethodMatch)
    requires SearchMethod(line, |line|) == Some((p, w, q))
    requires DigitsColonAt(line, p) && ColonAfterDigits(line, p) == c
    requires p < c && c + 1 + w <= q < |line| && MethodGroups(line, p, c, w, q) == m
    ensures MatchMethod(line) == Some(m)
  {
  }

  lemma RenderedMethodSearch(location: string, digits: string, ws: string, className: string, sep: char, methodName: string)
    requires MethodParts(location, digits, ws, className, sep, methodName)
    ensures var line := RenderMethod(location, digits, ws, className, sep, methodName);
            var c0 := |location| + 1 + |digits|;
            && DigitsColonAt(line, |location|) && ColonAfterDigits(line, |location|) == c0
            && SearchMethod(line, |line|) == Some((|location|, |ws|, c0 + 1 + |ws| + |className|))
  {
    var line := RenderMethod(location, digits, ws, className, sep, methodName);
    RenderedMethodFrom(location, digits, ws, className, sep, methodName);
    SearchMethodFinds(line, |line|, |location|);
  }

  /** Where each part of a rendered method line sits. */
  lemma RenderedMethodSlices(location: string, digits: string, ws: string, className: string, sep: char, methodName: string)
    requires |className| >= 1
    ensures var line := RenderMethod(location, digits, ws, className, sep, methodName);
            var p0 := |location|;
            var c0 := p0 + 1 + |digits|;
            var q0 := c0 + 1 + |ws| + |className|;
            && |line| == q0 + 1 + |methodName|
            && line[..p0] == location && line[p0 + 1..c0] == digits
            && line[c0 + 1 + |ws|..q0] == className && line[q0 + 1..] == methodName
            && line[p0] == ':' && line[c0] == ':' && line[q0] == sep
            && line[c0 + 1..c0 + 1 + |ws|] == ws && line[c0 + 1 + |ws|] == className[0]
            && line[c0 + 1 + |ws|..] == className + [sep] + methodName
  {
    var line := RenderMethod(location, digits, ws, className, sep, methodName);
    var head := location + ":" + digits + ":" + ws;
    assert line == head + (className + [sep] + methodName);
  }

  lemma RenderedMethodGroups(location: string, digits: string, ws: string, className: string, sep: char, methodName: string)
    requires |className| >= 1
    ensures var line := RenderMethod(location, digits, ws, className, sep, methodName);
            var c0 := |location| + 1 + |digits|;
            MethodGroups(line, |location|, c0, |ws|, c0 + 1 + |ws| + |className|)
              == MethodMatch(location, digits, className, methodName)
  {
    RenderedMethodSlices(location, digits, ws, className, sep, methodName);
  }

  /** The rendered location group admits exactly the rendered whitespace and separator, and nothing above it. */
  lemma RenderedMethodFrom(location: string, digits: string, ws: string, className: string, sep: char, methodName: string)
    requires MethodParts(location, digits, ws, className, sep, methodName)
    ensures var line := RenderMethod(location, digits, ws, className, sep, methodName);
            var c0 := |location| + 1 + |digits|;
            && DigitsColonAt(line, |location|) && ColonAfterDigits(line, |location|) == c0
            && MethodFrom(line, |location|) == Some((|ws|, c0 + 1 + |ws| + |className|))
            && forall p :: |location| < p < |line| ==> !DigitsColonAt(line, p)
  {
    RenderedMethodFromHere(location, digits, ws, className, sep, methodName);
    RenderedMethodNoneAbove(location, digits, ws, className, sep, methodName);
  }

  lemma RenderedMethodFromHere(location: string, digits: string, ws: string, className: string, sep: char, methodName: string)
    requires MethodParts(location, digits, ws, className, sep, methodName)
    ensures var line := RenderMethod(location, digits, ws, className, sep, methodName);
            var c0 := |location| + 1 + |digits|;
            && DigitsColonAt(line, |location|) && ColonAfterDigits(line, |location|) == c0
            && MethodFrom(line, |location|) == Some((|ws|, c0 + 1 + |ws| + |className|))
  {
    var line := RenderMethod(location, digits, ws, className, sep, methodName);
    var p0 := |location|;
    var c0 := p0 + 1 + |digits|;
    var w0 := |ws|;
    var q0 := c0 + 1 + w0 + |className|;
    RenderedMethodSlices(location, digits, ws, className, sep, methodName);
    MethodFromAt(line, p0, c0, w0, q0);
  }

  lemma RenderedMethodNoneAbove(location: string, digits: string, ws: string, className: string, sep: char, methodName: string)
    requires MethodParts(location, digits, ws, className, sep, methodName)
    ensures var line := RenderMethod(location, digits, ws, className, sep, methodName);
            forall p :: |location| < p < |line| ==> !DigitsColonAt(line, p)
  {
    var line := RenderMethod(location, digits, ws, className, sep, methodName);
    var p0 := |location|;
    var c0 := p0 + 1 + |digits|;
    RenderedMethodSlices(location, digits, ws, className, sep, methodName);
    MethodAbove(line, p0, c0, |ws|, className + [sep] + methodName);
  }

  /** Index-level conditions that fix the first reading from a given location group. */
  lemma MethodFromAt(line: string, p0: nat, c0: nat, w0: nat, q0: nat)
    requires 1 <= p0 && p0 + 1 < c0 && w0 >= 1 && c0 + 1 + w0 < q0 && q0 + 1 < |line|
    requires line[p0] == ':' && line[c0] == ':' && IsMethodSeparator(line[q0])
    requires AllDigits(line[p0 + 1..c0])
    requires AllSpace(line[c0 + 1..c0 + 1 + w0])
    requires !IsSpace(line[c0 + 1 + w0])
    requires NoInnerSeparator(line[q0 + 1..])
    ensures DigitsColonAt(line, p0) && ColonAfterDigits(line, p0) == c0
    ensures MethodFrom(line, p0) == Some((w0, q0))
  {
    DigitRunExact(line, p0 + 1, c0);
    SpaceRunExact(line, c0 + 1, c0 + 1 + w0);
    SliceLastSeparator(line, c0 + 2 + w0, q0);
    assert SearchSpace(line, p0, w0) == Some((w0, q0));
  }

  lemma SliceLastSeparator(line: string, lo: nat, q0: nat)
    requires lo <= q0 && q0 + 1 < |line| && IsMethodSeparator(line[q0])
    requires NoInnerSeparator(line[q0 + 1..])
    ensures SearchSeparator(line, lo, |line| - 1) == Some(q0)
  {
    forall j | q0 < j < |line| - 1 ensures !IsMethodSeparator(line[j]) {
      assert line[j] == line[q0 + 1..][j - q0 - 1];
    }
    SearchSeparatorFinds(line, lo, |line| - 1, q0);
  }

  /** Above the rendered location group no other location group can end. */
  lemma MethodAbove(line: string, p0: nat, c0: nat, w0: nat, tail: string)
    requires 1 <= p0 && p0 + 1 < c0 && w0 >= 1 && c0 + 1 + w0 <= |line|
    requires line[c0] == ':'
    requires AllDigits(line[p0 + 1..c0])
    requires AllSpace(line[c0 + 1..c0 + 1 + w0])
    requires line[c0 + 1 + w0..] == tail && NoColonDigit(tail)
    ensures forall p :: p0 < p < |line| ==> !DigitsColonAt(line, p)
  {
    var head := line[..c0 + 1 + w0];
    assert line == head + tail;
    forall p | p0 < p < |line| ensures !DigitsColonAt(line, p) {
      if p >= c0 + 1 + w0 {
        var k := p - (c0 + 1 + w0);
        assert line[p] == tail[k];
        if k < |tail| - 1 {
          assert line[p + 1] == tail[k + 1];
        }
      } else if p == c0 {
        assert line[p + 1] == line[c0 + 1..c0 + 1 + w0][0];
      } else if p < c0 {
        assert line[p] == line[p0 + 1..c0][p - p0 - 1];
      } else {
        assert line[p] == line[c0 + 1..c0 + 1 + w0][p - c0 - 1];
      }
    }
  }

  lemma {:induction false} SearchSeparatorFinds(line: string, lo: nat, hi: nat, q0: nat)
    requires lo <= q0 < hi <= |line|
    requires IsMethodSeparator(line[q0])
    requires forall q :: q0 < q < hi ==> !IsMethodSeparator(line[q])
    ensures SearchSeparator(line, lo, hi) == Some(q0)
    decreases hi
  {
    if hi - 1 != q0 {
      SearchSeparatorFinds(line, lo, hi - 1, q0);
    }
  }

  lemma {:induction false} SearchMethodFinds(line: string, hi: nat, p0: nat)
    requires 1 <= p0 < hi <= |line|
    requires MethodFrom(line, p0).Some?
    requires forall p :: p0 < p < hi ==> !DigitsColonAt(line, p)
    ensures SearchMethod(line, hi) == Some((p0, MethodFrom(line, p0).value.0, MethodFrom(line, p0).value.1))
    decreases hi
  {
    if hi - 1 != p0 {
      SearchMethodFinds(line, hi - 1, p0);
    }
  }
}

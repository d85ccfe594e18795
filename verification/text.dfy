/**
 * The Ruby string operations the linter relies on, written out over
 * `seq<char>`: `strip`, `split` (with and without a limit), `join`,
 * `sub` of a literal, `to_i` of a digit string and the whitespace classes.
 */
module Text {
  import opened Common

  /** Characters that `String#strip` removes from either end. */
  predicate IsStripSpace(c: char) {
    c == ' ' || c == '\t' || c == '\n' || c == '\U{000B}' || c == '\U{000C}' || c == '\r' || c == '\0'
  }

  /** Characters of the regular-expression class `\s`. */
  predicate IsSpace(c: char) {
    c == ' ' || c == '\t' || c == '\n' || c == '\U{000B}' || c == '\U{000C}' || c == '\r'
  }

  /** Every character is in `\s`. */
  predicate AllSpace(s: string) {
    forall i :: 0 <= i < |s| ==> IsSpace(s[i])
  }

  /** Characters of the regular-expression class `\d`. */
  predicate IsDigit(c: char) {
    '0' <= c <= '9'
  }

  predicate AllDigits(s: string) {
    forall i :: 0 <= i < |s| ==> IsDigit(s[i])
  }

  predicate AllStripSpace(s: string) {
    forall i :: 0 <= i < |s| ==> IsStripSpace(s[i])
  }

  /** `s` starts with `p`. */
  predicate StartsWith(s: string, p: string) {
    |p| <= |s| && s[..|p|] == p
  }

  /** `s` ends with `p`. */
  predicate EndsWith(s: string, p: string) {
    |p| <= |s| && s[|s| - |p|..] == p
  }

  /** `p` occurs in `s` at position `i`. */
  predicate OccursAt(s: string, p: string, i: nat) {
    i + |p| <= |s| && s[i..i + |p|] == p
  }

  // ---------------------------------------------------------------------------
  // strip

  /** `lstrip`: the longest suffix of `s` that does not start with whitespace. */
  function TrimStart(s: string): (r: string)
    ensures |r| <= |s| && r == s[|s| - |r|..]
    ensures r == [] || !IsStripSpace(r[0])
    ensures AllStripSpace(s[..|s| - |r|])
    ensures r == [] <==> AllStripSpace(s)
    decreases |s|
  {
    if |s| > 0 && IsStripSpace(s[0]) then TrimStart(s[1..]) else s
  }

  /** `rstrip`: the longest prefix of `s` that does not end with whitespace. */
  function TrimEnd(s: string): (r: string)
    ensures |r| <= |s| && r == s[..|r|]
    ensures r == [] || !IsStripSpace(r[|r| - 1])
    ensures AllStripSpace(s[|r|..])
    ensures r == [] <==> AllStripSpace(s)
    decreases |s|
  {
    if |s| > 0 && IsStripSpace(s[|s| - 1]) then TrimEnd(s[..|s| - 1]) else s
  }

  /** `strip`: `s` without leading and trailing whitespace. */
  function Strip(s: string): (r: string)
    ensures |r| <= |s|
    ensures r == [] || (!IsStripSpace(r[0]) && !IsStripSpace(r[|r| - 1]))
    ensures r == [] <==> AllStripSpace(s)
  {
    var t := TrimStart(s);
    var r := TrimEnd(t);
    assert t != [] ==> !AllStripSpace(t);
    assert r != [] ==> r[0] == t[0];
    r
  }

  /** Stripping never brings in a character the input lacks. */
  lemma StripWithout(p: string, c: char)
    requires c !in p
    ensures c !in Strip(p)
  {
    var t := TrimStart(p);
    var r := TrimEnd(t);
    assert Strip(p) == r;
    assert r == p[|p| - |t|..][..|r|];
    assert c !in p[|p| - |t|..];
  }

  lemma {:induction false} StripOfStripped(s: string)
    requires s == [] || (!IsStripSpace(s[0]) && !IsStripSpace(s[|s| - 1]))
    ensures Strip(s) == s
  {
  }

  lemma {:induction false} TrimStartPadded(p: string, s: string)
    requires AllStripSpace(p)
    ensures TrimStart(p + s) == TrimStart(s)
    decreases |p|
  {
    if |p| > 0 {
      assert (p + s)[1..] == p[1..] + s;
      TrimStartPadded(p[1..], s);
    } else {
      assert p + s == s;
    }
  }

  lemma {:induction false} TrimEndPadded(s: string, q: string)
    requires AllStripSpace(q)
    ensures TrimEnd(s + q) == TrimEnd(s)
    decreases |q|
  {
    if |q| > 0 {
      assert (s + q)[..|s + q| - 1] == s + q[..|q| - 1];
      TrimEndPadded(s, q[..|q| - 1]);
    } else {
      assert s + q == s;
    }
  }

  lemma {:induction false} TrimStartKeepsTail(s: string, q: string)
    requires !AllStripSpace(s)
    ensures TrimStart(s + q) == TrimStart(s) + q
    decreases |s|
  {
    if IsStripSpace(s[0]) {
      assert (s + q)[1..] == s[1..] + q;
      TrimStartKeepsTail(s[1..], q);
    }
  }

  /** Whitespace padding on either side does not change `strip`. */
  lemma StripPadding(p: string, s: string, q: string)
    requires AllStripSpace(p) && AllStripSpace(q)
    ensures Strip(p + s + q) == Strip(s)
  {
    assert p + s + q == p + (s + q);
    TrimStartPadded(p, s + q);
    if AllStripSpace(s) {
      assert AllStripSpace(s + q);
    } else {
      TrimStartKeepsTail(s, q);
      TrimEndPadded(TrimStart(s), q);
    }
  }

  // ---------------------------------------------------------------------------
  // searching

  /** Index of the first occurrence of `c` in `s`. */
  function IndexOf(s: string, c: char): (k: nat)
    requires c in s
    ensures k < |s| && s[k] == c && c !in s[..k]
  {
    if s[0] == c then 0
    else
      assert s == [s[0]] + s[1..];
      var k := IndexOf(s[1..], c);
      assert s[..k + 1] == [s[0]] + s[1..][..k];
      k + 1
  }

  lemma IndexOfUnique(s: string, c: char, k: nat)
    requires k < |s| && s[k] == c && c !in s[..k]
    ensures IndexOf(s, c) == k
  {
    var k' := IndexOf(s, c);
    forall j | 0 <= j < k ensures s[j] != c {
      assert s[..k][j] == s[j];
    }
    forall j | 0 <= j < k' ensures s[j] != c {
      assert s[..k'][j] == s[j];
    }
  }

  /** Index of the first occurrence of the string `p` in `s`, if any. */
  function FindFirst(s: string, p: string, from: nat): (r: Option<nat>)
    requires from <= |s|
    ensures r.Some? ==> from <= r.value && OccursAt(s, p, r.value)
    ensures r.Some? ==> forall i :: from <= i < r.value ==> !OccursAt(s, p, i)
    ensures r.None? ==> forall i :: from <= i <= |s| ==> !OccursAt(s, p, i)
    decreases |s| - from
  {
    if OccursAt(s, p, from) then Some(from)
    else if from == |s| then None
    else FindFirst(s, p, from + 1)
  }

  /** `s` without its leading run of `\s` characters. */
  function DropSpaces(s: string): (r: string)
    ensures |r| <= |s| && r == s[|s| - |r|..]
    ensures r == [] || !IsSpace(r[0])
    ensures forall i :: 0 <= i < |s| - |r| ==> IsSpace(s[i])
    decreases |s|
  {
    if |s| > 0 && IsSpace(s[0]) then DropSpaces(s[1..]) else s
  }

  /** `s.sub(p, rep)` for a literal `p`: replace the first occurrence only. */
  function ReplaceFirst(s: string, p: string, rep: string): (r: string)
    ensures (forall i :: 0 <= i <= |s| ==> !OccursAt(s, p, i)) ==> r == s
    ensures forall i :: 0 <= i <= |s| && OccursAt(s, p, i) && (forall j :: 0 <= j < i ==> !OccursAt(s, p, j))
              ==> r == s[..i] + rep + s[i + |p|..]
  {
    match FindFirst(s, p, 0)
    case None => s
    case Some(i) => s[..i] + rep + s[i + |p|..]
  }

  // ---------------------------------------------------------------------------
  // split and join

  /** `pieces` joined with `sep` between consecutive elements (`Array#join`). */
  function Join(pieces: seq<string>, sep: string): string {
    if |pieces| == 0 then ""
    else if |pieces| == 1 then pieces[0]
    else pieces[0] + sep + Join(pieces[1..], sep)
  }

  /** Every piece between occurrences of `sep`, empty ones included. */
  function SplitAll(s: string, sep: char): (r: seq<string>)
    ensures |r| >= 1
    ensures forall i :: 0 <= i < |r| ==> sep !in r[i]
    decreases |s|
  {
    if sep !in s then [s]
    else
      var k := IndexOf(s, sep);
      [s[..k]] + SplitAll(s[k + 1..], sep)
  }

  /** Splitting and re-joining with the same separator gives the input back. */
  lemma {:induction false} JoinSplitAll(s: string, sep: char)
    ensures Join(SplitAll(s, sep), [sep]) == s
    decreases |s|
  {
    if sep in s {
      var k := IndexOf(s, sep);
      var rest := SplitAll(s[k + 1..], sep);
      JoinSplitAll(s[k + 1..], sep);
      JoinCons(s[..k], rest, [sep]);
      assert s == s[..k] + [sep] + s[k + 1..];
    }
  }

  /** Joining a head in front of a non-empty list puts one separator between them. */
  lemma JoinCons(a: string, rest: seq<string>, sep: string)
    requires |rest| >= 1
    ensures Join([a] + rest, sep) == a + sep + Join(rest, sep)
  {
    assert ([a] + rest)[1..] == rest;
  }

  /** Joining separator-free pieces and splitting again gives the pieces back. */
  lemma {:induction false} SplitAllJoin(pieces: seq<string>, sep: char)
    requires |pieces| >= 1
    requires forall i :: 0 <= i < |pieces| ==> sep !in pieces[i]
    ensures SplitAll(Join(pieces, [sep]), sep) == pieces
    decreases |pieces|
  {
    if |pieces| > 1 {
      var s := Join(pieces, [sep]);
      var rest := Join(pieces[1..], [sep]);
      assert s == pieces[0] + [sep] + rest;
      assert sep in s by { assert s[|pieces[0]|] == sep; }
      var k := IndexOf(s, sep);
      assert s[..|pieces[0]|] == pieces[0];
      IndexOfUnique(s, sep, |pieces[0]|);
      assert s[..k] == pieces[0];
      assert s[k + 1..] == rest;
      SplitAllJoin(pieces[1..], sep);
    }
  }

  /** The non-empty elements of `xs`, in order (`reject(&:empty?)`). */
  function NonEmpty(xs: seq<string>): (r: seq<string>)
    ensures |r| <= |xs|
    ensures forall i :: 0 <= i < |r| ==> r[i] != [] && r[i] in xs
    ensures (forall i :: 0 <= i < |xs| ==> xs[i] != []) ==> r == xs
  {
    if |xs| == 0 then []
    else if xs[0] == [] then NonEmpty(xs[1..])
    else [xs[0]] + NonEmpty(xs[1..])
  }

  /** Each element stripped (`map(&:strip)`). */
  function StripAll(xs: seq<string>): (r: seq<string>)
    ensures |r| == |xs|
    ensures forall i :: 0 <= i < |xs| ==> r[i] == Strip(xs[i])
  {
    if |xs| == 0 then [] else [Strip(xs[0])] + StripAll(xs[1..])
  }

  /** `s.split("\n").reject(&:empty?)`. */
  function Lines(s: string): (r: seq<string>)
    ensures forall i :: 0 <= i < |r| ==> r[i] != [] && '\n' !in r[i]
  {
    NonEmpty(SplitAll(s, '\n'))
  }

  /** `s.split("\n").map(&:strip).reject(&:empty?)`. */
  function StrippedLines(s: string): (r: seq<string>)
    ensures forall i :: 0 <= i < |r| ==> r[i] != [] && '\n' !in r[i] && Strip(r[i]) == r[i]
  {
    var pieces := SplitAll(s, '\n');
    var stripped := StripAll(pieces);
    var clean := (x: string) => '\n' !in x && Strip(x) == x;
    forall i | 0 <= i < |stripped| ensures clean(stripped[i]) {
      StripWithout(pieces[i], '\n');
      StripOfStripped(stripped[i]);
    }
    NonEmptyKeeps(stripped, clean);
    NonEmpty(stripped)
  }

  lemma StrippedLinesOfEmpty()
    ensures StrippedLines([]) == []
  {
  }

  /** A property every element has is kept by dropping the empty ones. */
  lemma {:induction false} NonEmptyKeeps(xs: seq<string>, P: string -> bool)
    requires forall i :: 0 <= i < |xs| ==> P(xs[i])
    ensures forall i :: 0 <= i < |NonEmpty(xs)| ==> P(NonEmpty(xs)[i])
  {
    if |xs| > 0 {
      forall i | 0 <= i < |xs[1..]| ensures P(xs[1..][i]) {
        assert xs[1..][i] == xs[i + 1];
      }
      NonEmptyKeeps(xs[1..], P);
      if xs[0] != [] {
        var r := NonEmpty(xs);
        forall i | 0 <= i < |r| ensures P(r[i]) {
          if i > 0 {
            assert r[i] == NonEmpty(xs[1..])[i - 1];
          }
        }
      }
    }
  }

  /** Non-empty, newline-free lines joined with "\n" are read back by `Lines`. */
  lemma LinesJoin(ls: seq<string>)
    requires forall i :: 0 <= i < |ls| ==> ls[i] != [] && '\n' !in ls[i]
    ensures Lines(Join(ls, "\n")) == ls
  {
    if |ls| == 0 {
      assert SplitAll("", '\n') == [""];
    } else {
      SplitAllJoin(ls, '\n');
    }
  }

  /** Lines that are already stripped survive `StrippedLines` of their join. */
  lemma StrippedLinesJoin(ls: seq<string>)
    requires forall i :: 0 <= i < |ls| ==> ls[i] != [] && '\n' !in ls[i] && Strip(ls[i]) == ls[i]
    ensures StrippedLines(Join(ls, "\n")) == ls
  {
    var pieces := SplitAll(Join(ls, "\n"), '\n');
    StrippedLinesUnfold(Join(ls, "\n"));
    if |ls| == 0 {
      assert pieces == [""];
      assert StripAll([""]) == [""];
    } else {
      SplitAllJoin(ls, '\n');
      StripAllStripped(ls);
    }
  }

  lemma StrippedLinesUnfold(s: string)
    ensures StrippedLines(s) == NonEmpty(StripAll(SplitAll(s, '\n')))
  {
  }

  lemma StripAllStripped(ls: seq<string>)
    requires forall i :: 0 <= i < |ls| ==> Strip(ls[i]) == ls[i]
    ensures StripAll(ls) == ls
  {
  }

  /** The prefix of `xs` left once trailing empty strings are removed. */
  function DropTrailingEmpty(xs: seq<string>): (r: seq<string>)
    ensures |r| <= |xs| && r == xs[..|r|]
    ensures r == [] || r[|r| - 1] != []
    ensures forall i :: |r| <= i < |xs| ==> xs[i] == []
  {
    if |xs| == 0 then []
    else if xs[|xs| - 1] == [] then DropTrailingEmpty(xs[..|xs| - 1])
    else xs
  }

  /** `s.split(sep)` without a limit: like SplitAll, but trailing empty pieces are dropped. */
  function RubySplit(s: string, sep: char): (r: seq<string>)
    ensures |r| <= |SplitAll(s, sep)|
    ensures r == SplitAll(s, sep)[..|r|]
    ensures r == [] || r[|r| - 1] != []
    ensures forall i :: |r| <= i < |SplitAll(s, sep)| ==> SplitAll(s, sep)[i] == []
  {
    DropTrailingEmpty(SplitAll(s, sep))
  }

  /** Cuts `s` at the first `limit - 1` occurrences of `sep`. */
  function Cut(s: string, sep: char, limit: nat): (r: seq<string>)
    requires limit >= 1
    ensures 1 <= |r| <= limit
    ensures forall i :: 0 <= i < |r| - 1 ==> Free(r[i], sep)
    ensures |r| < limit ==> sep !in r[|r| - 1]
    ensures Join(r, [sep]) == s
    decreases limit
  {
    if limit == 1 || sep !in s then [s]
    else
      var k := IndexOf(s, sep);
      var rest := Cut(s[k + 1..], sep, limit - 1);
      assert s == s[..k] + [sep] + s[k + 1..];
      JoinCons(s[..k], rest, [sep]);
      ConsSeparatorFree(s[..k], rest, sep);
      [s[..k]] + rest
  }

  /** `c` does not occur in `x`. */
  predicate Free(x: string, c: char) {
    c !in x
  }

  /** A separator-free head in front of pieces whose all-but-last are separator-free. */
  lemma ConsSeparatorFree(a: string, rest: seq<string>, sep: char)
    requires sep !in a && |rest| >= 1
    requires forall i :: 0 <= i < |rest| - 1 ==> Free(rest[i], sep)
    ensures forall i :: 0 <= i < |[a] + rest| - 1 ==> Free(([a] + rest)[i], sep)
    ensures ([a] + rest)[|[a] + rest| - 1] == rest[|rest| - 1]
  {
    var r := [a] + rest;
    forall i | 0 <= i < |r| - 1 ensures Free(r[i], sep) {
      if i > 0 {
        assert r[i] == rest[i - 1];
      }
    }
  }

  /** Cutting at a first separator: the text before it is the first piece. */
  lemma CutCons(a: string, sep: char, b: string, limit: nat)
    requires sep !in a && limit >= 2
    ensures Cut(a + [sep] + b, sep, limit) == [a] + Cut(b, sep, limit - 1)
  {
    var s := a + [sep] + b;
    assert s[|a|] == sep && s[..|a|] == a;
    IndexOfUnique(s, sep, |a|);
    assert s[|a| + 1..] == b;
  }

  /** `s.split(sep, limit)` for a positive limit: at most `limit` pieces, trailing empties kept. */
  function SplitLimit(s: string, sep: char, limit: nat): (r: seq<string>)
    requires limit >= 1
    ensures s == [] ==> r == []
    ensures s != [] ==> 1 <= |r| <= limit && Join(r, [sep]) == s
    ensures forall i :: 0 <= i < |r| - 1 ==> sep !in r[i]
    ensures 0 < |r| < limit ==> sep !in r[|r| - 1]
  {
    if s == [] then [] else Cut(s, sep, limit)
  }

  // ---------------------------------------------------------------------------
  // integers

  function DigitValue(c: char): nat
    requires IsDigit(c)
  {
    (c as int - '0' as int) as nat
  }

  /** `to_i` of a string made only of decimal digits. */
  function DecimalValue(s: string): nat
    requires AllDigits(s)
  {
    if |s| == 0 then 0 else 10 * DecimalValue(s[..|s| - 1]) + DigitValue(s[|s| - 1])
  }

  function DigitChar(d: nat): (c: char)
    requires d < 10
    ensures IsDigit(c) && DigitValue(c) == d
  {
    ('0' as int + d) as char
  }

  /** `n.to_s`: the decimal rendering of a natural number, without leading zeros. */
  function DecimalString(n: nat): (s: string)
    ensures |s| >= 1 && AllDigits(s)
    ensures DecimalValue(s) == n
    ensures |s| > 1 ==> s[0] != '0'
  {
    if n < 10 then [DigitChar(n)]
    else
      var p := DecimalString(n / 10);
      var s := p + [DigitChar(n % 10)];
      assert s[..|s| - 1] == p;
      s
  }
}

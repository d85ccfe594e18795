/**
 * The command cache: YARD queries are shell commands, and a command that
 * differs from an earlier one only in whitespace is answered from the
 * cache instead of being run again.
 *
 * Running a process is a function parameter `run`. The cache keys entries
 * by the normalised command text itself; the source stores its SHA-256
 * digest, which is equal exactly when the texts are (collisions aside).
 * Results are immutable values, so the deep copies the source hands out
 * are implicit here.
 */
module CommandCache {
  import opened Common
  import opened Text

  // ---------------------------------------------------------------------------
  // Normalising a command

  /** `gsub(/\s+/, ' ')`: each maximal run of `\s` characters becomes one space. */
  function Squeeze(s: string): (r: string)
    decreases |s|
  {
    if |s| == 0 then []
    else if IsSpace(s[0]) then [' '] + Squeeze(DropSpaces(s))
    else [s[0]] + Squeeze(s[1..])
  }

  /** `command.strip.gsub(/\s+/, ' ')`, the text the cache is keyed by. */
  function CacheKey(command: string): string {
    Squeeze(Strip(command))
  }

  /** The only whitespace is single spaces. */
  predicate Squeezed(s: string) {
    (forall i :: 0 <= i < |s| && IsSpace(s[i]) ==> s[i] == ' ') &&
    (forall i :: 0 <= i < |s| - 1 ==> !(s[i] == ' ' && s[i + 1] == ' '))
  }

  /** What a key looks like: squeezed, and with no whitespace at either end. */
  predicate IsNormal(s: string) {
    Squeezed(s) && (s == [] || (!IsStripSpace(s[0]) && !IsStripSpace(s[|s| - 1])))
  }

  lemma {:induction false} SqueezeShape(s: string)
    ensures Squeezed(Squeeze(s))
    ensures Squeeze(s) == [] <==> s == []
    ensures Squeeze(s) != [] ==> (Squeeze(s)[0] == ' ' <==> IsSpace(s[0]))
    ensures Squeeze(s) != [] && !IsSpace(s[0]) ==> Squeeze(s)[0] == s[0]
    decreases |s|
  {
    if |s| > 0 {
      if IsSpace(s[0]) {
        var t := DropSpaces(s);
        SqueezeShape(t);
        var r := [' '] + Squeeze(t);
        forall i | 0 <= i < |r| - 1 ensures !(r[i] == ' ' && r[i + 1] == ' ') {
          if i > 0 { assert r[i] == Squeeze(t)[i - 1] && r[i + 1] == Squeeze(t)[i]; }
        }
      } else {
        SqueezeShape(s[1..]);
        var r := [s[0]] + Squeeze(s[1..]);
        forall i | 0 <= i < |r| - 1 ensures !(r[i] == ' ' && r[i + 1] == ' ') {
          if i > 0 { assert r[i] == Squeeze(s[1..])[i - 1] && r[i + 1] == Squeeze(s[1..])[i]; }
        }
      }
    }
  }

  /** A string that ends in a non-space character still ends in it after squeezing. */
  lemma {:induction false} SqueezeLast(s: string)
    requires s != [] && !IsSpace(s[|s| - 1])
    ensures Squeeze(s) != [] && Squeeze(s)[|Squeeze(s)| - 1] == s[|s| - 1]
    decreases |s|
  {
    if IsSpace(s[0]) {
      var t := DropSpaces(s);
      assert t != [] && t[|t| - 1] == s[|s| - 1];
      SqueezeLast(t);
    } else if |s| > 1 {
      SqueezeLast(s[1..]);
    }
  }

  /** Squeezing a squeezed string changes nothing. */
  lemma {:induction false} SqueezeOfSqueezed(s: string)
    requires Squeezed(s)
    ensures Squeeze(s) == s
    decreases |s|
  {
    if |s| > 0 {
      assert Squeezed(s[1..]) by {
        forall i | 0 <= i < |s[1..]| - 1 ensures !(s[1..][i] == ' ' && s[1..][i + 1] == ' ') {
          assert s[1..][i] == s[i + 1] && s[1..][i + 1] == s[i + 2];
        }
      }
      if IsSpace(s[0]) {
        assert |s| > 1 ==> !IsSpace(s[1]);
        assert DropSpaces(s) == s[1..];
      }
      SqueezeOfSqueezed(s[1..]);
      assert s == [s[0]] + s[1..];
    }
  }

  /** Squeezing keeps a first and last character that are not whitespace. */
  lemma SqueezeKeepsEnds(t: string)
    requires t == [] || (!IsStripSpace(t[0]) && !IsStripSpace(t[|t| - 1]))
    ensures IsNormal(Squeeze(t))
  {
    SqueezeShape(t);
    if t != [] {
      SqueezeLast(t);
    }
  }

  /** Every key is normal. */
  lemma CacheKeyIsNormal(command: string)
    ensures IsNormal(CacheKey(command))
  {
    var t := Strip(command);
    SqueezeKeepsEnds(t);
    assert CacheKey(command) == Squeeze(t);
  }

  /** Normalising is idempotent: a key is its own key. */
  lemma CacheKeyIdempotent(command: string)
    ensures CacheKey(CacheKey(command)) == CacheKey(command)
  {
    var k := CacheKey(command);
    CacheKeyIsNormal(command);
    StripOfStripped(k);
    SqueezeOfSqueezed(k);
  }

  lemma {:induction false} DropSpacesOfSpaces(x: string, y: string)
    requires AllSpace(x)
    ensures DropSpaces(x + y) == DropSpaces(y)
    decreases |x|
  {
    if |x| > 0 {
      assert (x + y)[0] == x[0] && (x + y)[1..] == x[1..] + y;
      DropSpacesOfSpaces(x[1..], y);
    } else {
      assert x + y == y;
    }
  }

  lemma {:induction false} DropSpacesOfWord(x: string, y: string)
    requires !AllSpace(x)
    ensures DropSpaces(x + y) == DropSpaces(x) + y
    decreases |x|
  {
    assert (x + y)[0] == x[0];
    if IsSpace(x[0]) {
      assert !AllSpace(x[1..]) by {
        var i :| 0 <= i < |x| && !IsSpace(x[i]);
        assert x[1..][i - 1] == x[i];
      }
      assert (x + y)[1..] == x[1..] + y;
      DropSpacesOfWord(x[1..], y);
    }
  }

  /** A string that opens with a whitespace run squeezes to one space and the rest after the run. */
  lemma SqueezeSpaceLead(w: string, y: string)
    requires w != [] && AllSpace(w)
    ensures Squeeze(w + y) == [' '] + Squeeze(DropSpaces(y))
  {
    DropSpacesOfSpaces(w, y);
    assert (w + y)[0] == w[0];
  }

  lemma SqueezeWordLead(x: string, rest: string)
    requires x != [] && !IsSpace(x[0])
    ensures Squeeze(x + rest) == [x[0]] + Squeeze(x[1..] + rest)
  {
    assert (x + rest)[0] == x[0] && (x + rest)[1..] == x[1..] + rest;
  }

  /** Inside a command, any run of whitespace squeezes the same as a single space. */
  lemma {:induction false} SqueezeRun(x: string, w: string, y: string)
    requires w != [] && AllSpace(w)
    ensures Squeeze(x + w + y) == Squeeze(x + " " + y)
    decreases |x|
  {
    if |x| == 0 {
      assert x + w + y == w + y && x + " " + y == " " + y;
      SqueezeSpaceLead(w, y);
      SqueezeSpaceLead(" ", y);
    } else if !IsSpace(x[0]) {
      SqueezeWordStep(x, w, y);
    } else if AllSpace(x) {
      SqueezeSpacesStep(x, w, y);
    } else {
      SqueezeSpaceSplit(x, w, y);
    }
  }

  /** The step of `SqueezeRun` for a command opening with a non-space character. */
  lemma {:induction false} SqueezeWordStep(x: string, w: string, y: string)
    requires w != [] && AllSpace(w)
    requires x != [] && !IsSpace(x[0])
    ensures Squeeze(x + w + y) == Squeeze(x + " " + y)
    decreases |x|, 0
  {
    var t := x[1..];
    ConcatAssoc(x, w, y);
    ConcatAssoc(x, " ", y);
    SqueezeWordLead(x, w + y);
    SqueezeWordLead(x, " " + y);
    ConcatAssoc(t, w, y);
    ConcatAssoc(t, " ", y);
    SqueezeRun(t, w, y);
  }

  /** The step of `SqueezeRun` for a command made only of whitespace. */
  lemma SqueezeSpacesStep(x: string, w: string, y: string)
    requires w != [] && AllSpace(w)
    requires x != [] && AllSpace(x)
    ensures Squeeze(x + w + y) == Squeeze(x + " " + y)
  {
    AllSpaceConcat(x, w);
    AllSpaceConcat(x, " ");
    SqueezeSpaceLead(x + w, y);
    SqueezeSpaceLead(x + " ", y);
  }

  lemma AllSpaceConcat(a: string, b: string)
    requires AllSpace(a) && AllSpace(b)
    ensures AllSpace(a + b)
  {
    forall i | 0 <= i < |a + b| ensures IsSpace((a + b)[i]) {
      if i < |a| {
        assert (a + b)[i] == a[i];
      } else {
        assert (a + b)[i] == b[i - |a|];
      }
    }
  }

  /** The step of `SqueezeRun` for a command opening with whitespace followed by a word. */
  lemma {:induction false} SqueezeSpaceSplit(x: string, w: string, y: string)
    requires w != [] && AllSpace(w)
    requires x != [] && IsSpace(x[0]) && !AllSpace(x)
    ensures Squeeze(x + w + y) == Squeeze(x + " " + y)
    decreases |x|, 0
  {
    SqueezeSpaceThen(x, w, y);
    SqueezeSpaceThen(x, " ", y);
    SqueezeRun(DropSpaces(x), w, y);
  }

  lemma SqueezeSpaceThen(x: string, u: string, y: string)
    requires x != [] && IsSpace(x[0]) && !AllSpace(x)
    ensures Squeeze(x + u + y) == [' '] + Squeeze(DropSpaces(x) + u + y)
    ensures |DropSpaces(x)| < |x|
  {
    ConcatAssoc(x, u, y);
    ConcatAssoc(DropSpaces(x), u, y);
    SqueezeSpaceWord(x, u + y);
  }

  lemma SqueezeSpaceWord(x: string, rest: string)
    requires x != [] && IsSpace(x[0]) && !AllSpace(x)
    ensures Squeeze(x + rest) == [' '] + Squeeze(DropSpaces(x) + rest)
    ensures |DropSpaces(x)| < |x|
  {
    DropSpacesOfWord(x, rest);
    assert (x + rest)[0] == x[0];
  }

  /** Commands that differ only in the whitespace between two words share a key. */
  lemma SameKeyForRun(a: string, w: string, b: string)
    requires a != [] && !IsStripSpace(a[0]) && b != [] && !IsStripSpace(b[|b| - 1])
    requires w != [] && AllSpace(w)
    ensures CacheKey(a + w + b) == CacheKey(a + " " + b)
  {
    StripOfStripped(a + w + b);
    StripOfStripped(a + " " + b);
    SqueezeRun(a, w, b);
  }

  /** Leading and trailing whitespace never changes the key. */
  lemma SameKeyForPadding(p: string, command: string, q: string)
    requires AllStripSpace(p) && AllStripSpace(q)
    ensures CacheKey(p + command + q) == CacheKey(command)
  {
    StripPadding(p, command, q);
  }

  // ---------------------------------------------------------------------------
  // The cache

  /** What `execute` returns: captured output and the exit status (`nil` for a killed process). */
  datatype ExecResult = ExecResult(stdout: string, stderr: string, exitCode: Option<int>)

  /**
   * The cache state. `launched` lists the commands actually run, in order;
   * it is not part of the source's state and exists to count launches.
   */
  datatype Cache = Cache(entries: map<string, ExecResult>, hits: nat, misses: nat, launched: seq<string>)

  function Empty(): Cache {
    Cache(map[], 0, 0, [])
  }

  /** `execute(command)`: a hit answers from the cache, a miss runs the command and stores its result. */
  function Execute(c: Cache, command: string, run: string -> ExecResult): (out: (ExecResult, Cache))
    ensures out.1.hits + out.1.misses == c.hits + c.misses + 1
    ensures CacheKey(command) in out.1.entries && out.0 == out.1.entries[CacheKey(command)]
    ensures forall k :: k in c.entries ==> k in out.1.entries && out.1.entries[k] == c.entries[k]
    ensures out.1.entries.Keys == c.entries.Keys + {CacheKey(command)}
    ensures CacheKey(command) in c.entries ==>
      out.0 == c.entries[CacheKey(command)] && out.1.hits == c.hits + 1 && out.1.launched == c.launched
    ensures CacheKey(command) !in c.entries ==>
      out.0 == run(command) && out.1.misses == c.misses + 1 && out.1.launched == c.launched + [command]
  {
    var key := CacheKey(command);
    if key in c.entries then
      (c.entries[key], c.(hits := c.hits + 1))
    else
      var result := run(command);
      (result, c.(misses := c.misses + 1, entries := c.entries[key := result], launched := c.launched + [command]))
  }

  /** What `stats` reports. */
  datatype Stats = Stats(hits: nat, misses: nat, total: nat, savedExecutions: nat)

  function CacheStats(c: Cache): (s: Stats)
    ensures s.total == s.hits + s.misses && s.savedExecutions == s.hits
    ensures s.hits == c.hits && s.misses == c.misses
  {
    Stats(c.hits, c.misses, c.hits + c.misses, c.hits)
  }

  /** A sequence of `execute` calls, in order, with the results each returned. */
  function ExecuteAll(c: Cache, commands: seq<string>, run: string -> ExecResult): (out: (seq<ExecResult>, Cache))
    ensures |out.0| == |commands|
    decreases |commands|
  {
    if |commands| == 0 then ([], c)
    else
      var before := ExecuteAll(c, commands[..|commands| - 1], run);
      var step := Execute(before.1, commands[|commands| - 1], run);
      (before.0 + [step.0], step.1)
  }

  /** The distinct keys of a list of commands. */
  function KeySet(commands: seq<string>): set<string> {
    set i | 0 <= i < |commands| :: CacheKey(commands[i])
  }

  /** Index of the first occurrence of `k` in `ks`. */
  function FirstIndex(ks: seq<string>, k: string): (j: nat)
    requires k in ks
    ensures j < |ks| && ks[j] == k
    ensures forall i :: 0 <= i < j ==> ks[i] != k
  {
    if ks[0] == k then 0 else 1 + FirstIndex(ks[1..], k)
  }

  /** The key of each command, in order. */
  function KeysOf(commands: seq<string>): (ks: seq<string>)
    ensures |ks| == |commands|
    ensures forall i :: 0 <= i < |commands| ==> ks[i] == CacheKey(commands[i])
  {
    seq(|commands|, i requires 0 <= i < |commands| => CacheKey(commands[i]))
  }

  /** Index of the first command with key `k`. */
  function FirstWithKey(commands: seq<string>, k: string): (j: nat)
    requires k in KeySet(commands)
    ensures j < |commands| && CacheKey(commands[j]) == k
    ensures forall i :: 0 <= i < j ==> CacheKey(commands[i]) != k
  {
    var ks := KeysOf(commands);
    assert k in ks by {
      var i :| 0 <= i < |commands| && CacheKey(commands[i]) == k;
      assert ks[i] == k;
    }
    FirstIndex(ks, k)
  }

  lemma FirstWithKeyPrefix(commands: seq<string>, last: string, k: string)
    requires k in KeySet(commands)
    ensures k in KeySet(commands + [last])
    ensures FirstWithKey(commands + [last], k) == FirstWithKey(commands, k)
  {
    var all := commands + [last];
    var j := FirstWithKey(commands, k);
    assert all[j] == commands[j];
    forall i | 0 <= i < j ensures CacheKey(all[i]) != k {
      assert all[i] == commands[i];
    }
  }

  lemma KeySetAppend(commands: seq<string>, last: string)
    ensures KeySet(commands + [last]) == KeySet(commands) + {CacheKey(last)}
  {
    var all := commands + [last];
    forall k | k in KeySet(commands) ensures k in KeySet(all) {
      var i :| 0 <= i < |commands| && CacheKey(commands[i]) == k;
      assert all[i] == commands[i];
    }
    assert all[|commands|] == last;
    forall k | k in KeySet(all) ensures k in KeySet(commands) || k == CacheKey(last) {
      var i :| 0 <= i < |all| && CacheKey(all[i]) == k;
      if i < |commands| { assert all[i] == commands[i]; }
    }
  }

  /** The state after some calls on a fresh cache, described without replaying them. */
  predicate Accounts(commands: seq<string>, run: string -> ExecResult, c: Cache) {
    Counted(commands, c) && Stored(commands, run, c)
  }

  /** One call per hit or miss, and one miss, launch and entry per distinct key. */
  predicate Counted(commands: seq<string>, c: Cache) {
    c.hits + c.misses == |commands| &&
    c.entries.Keys == KeySet(commands) &&
    c.misses == |c.entries| &&
    |c.launched| == c.misses
  }

  /** Each entry holds what the first command with its key produced. */
  predicate Stored(commands: seq<string>, run: string -> ExecResult, c: Cache) {
    forall k :: k in c.entries ==> k in KeySet(commands) && c.entries[k] == run(commands[FirstWithKey(commands, k)])
  }

  lemma CountedStep(prefix: seq<string>, last: string, run: string -> ExecResult, c: Cache)
    requires Counted(prefix, c)
    ensures Counted(prefix + [last], Execute(c, last, run).1)
  {
    KeySetAppend(prefix, last);
    var c2 := Execute(c, last, run).1;
    if CacheKey(last) in c.entries {
      assert c2.entries == c.entries;
    } else {
      assert |c2.entries| == |c.entries| + 1;
    }
  }

  /** A new key's first command is the one just executed. */
  lemma FirstWithNewKey(prefix: seq<string>, last: string)
    requires CacheKey(last) !in KeySet(prefix)
    ensures CacheKey(last) in KeySet(prefix + [last])
    ensures FirstWithKey(prefix + [last], CacheKey(last)) == |prefix|
  {
    var all := prefix + [last];
    var key := CacheKey(last);
    forall i | 0 <= i < |prefix| ensures CacheKey(all[i]) != key {
      assert all[i] == prefix[i];
      assert CacheKey(prefix[i]) in KeySet(prefix);
    }
    assert all[|prefix|] == last;
  }

  lemma StoredStep(prefix: seq<string>, last: string, run: string -> ExecResult, c: Cache)
    requires Stored(prefix, run, c) && c.entries.Keys == KeySet(prefix)
    ensures Stored(prefix + [last], run, Execute(c, last, run).1)
  {
    var all := prefix + [last];
    var key := CacheKey(last);
    var c2 := Execute(c, last, run).1;
    forall k | k in c2.entries
      ensures k in KeySet(all) && c2.entries[k] == run(all[FirstWithKey(all, k)])
    {
      if k in c.entries {
        FirstWithKeyPrefix(prefix, last, k);
        assert c2.entries[k] == c.entries[k];
        assert all[FirstWithKey(prefix, k)] == prefix[FirstWithKey(prefix, k)];
      } else {
        assert k == key;
        FirstWithNewKey(prefix, last);
      }
    }
  }

  /** One more call keeps the description. */
  lemma AccountsStep(prefix: seq<string>, last: string, run: string -> ExecResult, c: Cache)
    requires Accounts(prefix, run, c)
    ensures Accounts(prefix + [last], run, Execute(c, last, run).1)
  {
    CountedStep(prefix, last, run, c);
    StoredStep(prefix, last, run, c);
  }

  /**
   * On a fresh cache: every call is a hit or a miss; there is one miss,
   * one launch and one entry per distinct key; and each entry holds what
   * the first command with its key produced.
   */
  lemma {:induction false} ExecuteAllAccounts(commands: seq<string>, run: string -> ExecResult)
    ensures Accounts(commands, run, ExecuteAll(Empty(), commands, run).1)
    decreases |commands|
  {
    if |commands| == 0 {
      assert KeySet(commands) == {};
    } else {
      var prefix := commands[..|commands| - 1];
      var last := commands[|commands| - 1];
      assert commands == prefix + [last];
      ExecuteAllAccounts(prefix, run);
      AccountsStep(prefix, last, run, ExecuteAll(Empty(), prefix, run).1);
    }
  }

  /** Each call returns what the first command with its key produced: a repeat never sees a fresh run. */
  lemma {:induction false} ExecuteAllResults(commands: seq<string>, run: string -> ExecResult, i: nat)
    requires i < |commands|
    ensures CacheKey(commands[i]) in KeySet(commands)
    ensures ExecuteAll(Empty(), commands, run).0[i] == run(commands[FirstWithKey(commands, CacheKey(commands[i]))])
    decreases |commands|
  {
    var prefix := commands[..|commands| - 1];
    var last := commands[|commands| - 1];
    assert commands == prefix + [last];
    var before := ExecuteAll(Empty(), prefix, run);
    var out := ExecuteAll(Empty(), commands, run);
    if i < |prefix| {
      assert commands[i] == prefix[i] && out.0[i] == before.0[i];
      ExecuteAllResults(prefix, run, i);
      FirstWithKeyPrefix(prefix, last, CacheKey(prefix[i]));
    } else {
      ExecuteAllAccounts(commands, run);
      assert i == |prefix| && out.0[i] == out.1.entries[CacheKey(last)];
    }
  }
}

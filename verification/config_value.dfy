/**
 * Configuration values as parsed from YAML, and the Ruby `Hash` operations
 * the configuration code uses on them.
 *
 * A Ruby `Hash` keeps insertion order, so a map is an ordered association
 * list. `[]=` on an existing key keeps the key's position; on a new key it
 * appends. Every map produced by YAML has distinct keys (`UniqueKeys`).
 */
module ConfigValue {
  import opened Common

  /** A YAML value. `VNull` is Ruby `nil`. */
  datatype Value =
    | VMap(entries: seq<(string, Value)>)
    | VArr(items: seq<Value>)
    | VStr(str: string)
    | VInt(num: int)
    | VBool(flag: bool)
    | VNull

  type Entries = seq<(string, Value)>

  /** The keys of a map, in insertion order. */
  function Keys(m: Entries): (ks: seq<string>)
    ensures |ks| == |m|
  {
    seq(|m|, i requires 0 <= i < |m| => m[i].0)
  }

  predicate Distinct(s: seq<string>) {
    forall i, j :: 0 <= i < j < |s| ==> s[i] != s[j]
  }

  /** Every map built by YAML or by Ruby hash operations has distinct keys. */
  predicate UniqueKeys(m: Entries) {
    Distinct(Keys(m))
  }

  /** `h.key?(k)`, as an `Option`: the value stored under `k`. */
  function Lookup(m: Entries, k: string): (r: Option<Value>)
    ensures r.None? <==> k !in Keys(m)
    ensures r.Some? ==> (k, r.value) in m
  {
    if |m| == 0 then None
    else
      assert Keys(m) == [m[0].0] + Keys(m[1..]);
      if m[0].0 == k then Some(m[0].1) else Lookup(m[1..], k)
  }

  /** Ruby `h[k]`: an absent key reads as `nil`. */
  function Get(m: Entries, k: string): Value {
    Lookup(m, k).GetOr(VNull)
  }

  /** Ruby truthiness: everything except `nil` and `false`. */
  predicate Truthy(v: Value) {
    !(v.VNull? || v == VBool(false))
  }

  /** Ruby `v || d`. */
  function OrElse(v: Value, d: Value): (r: Value)
    ensures Truthy(v) ==> r == v
    ensures !Truthy(v) ==> r == d
  {
    if Truthy(v) then v else d
  }

  /** Ruby `h[k] = v`: replace in place, or append a new key. */
  function Put(m: Entries, k: string, v: Value): (r: Entries)
    ensures Lookup(r, k) == Some(v)
    ensures forall j :: j != k ==> Lookup(r, j) == Lookup(m, j)
    ensures k in Keys(m) ==> Keys(r) == Keys(m)
    ensures k !in Keys(m) ==> Keys(r) == Keys(m) + [k]
  {
    if |m| == 0 then [(k, v)]
    else if m[0].0 == k then
      EntriesHead(m);
      EntriesCons((k, v), m[1..]);
      [(k, v)] + m[1..]
    else
      var rest := Put(m[1..], k, v);
      EntriesHead(m);
      EntriesCons(m[0], rest);
      [m[0]] + rest
  }

  /** A non-empty map read as its first entry in front of the rest. */
  lemma EntriesHead(m: Entries)
    requires |m| > 0
    ensures Keys(m) == [m[0].0] + Keys(m[1..])
    ensures forall j :: Lookup(m, j) == if m[0].0 == j then Some(m[0].1) else Lookup(m[1..], j)
  {
  }

  /** The keys and lookups of a map with one more entry in front. */
  lemma EntriesCons(e: (string, Value), m: Entries)
    ensures Keys([e] + m) == [e.0] + Keys(m)
    ensures forall j :: Lookup([e] + m, j) == if e.0 == j then Some(e.1) else Lookup(m, j)
  {
    assert ([e] + m)[1..] == m;
  }

  /** Writing a key keeps the keys distinct. */
  lemma PutUnique(m: Entries, k: string, v: Value)
    requires UniqueKeys(m)
    ensures UniqueKeys(Put(m, k, v))
  {
    var ks := Keys(Put(m, k, v));
    if k !in Keys(m) {
      forall i, j | 0 <= i < j < |ks|
        ensures ks[i] != ks[j]
      {
        if j == |Keys(m)| {
          assert ks[j] == k;
          assert ks[i] == Keys(m)[i];
        }
      }
    }
  }

  /** In a map with distinct keys, looking up the key of entry `i` finds entry `i`. */
  lemma {:induction false} LookupAt(m: Entries, i: nat)
    requires UniqueKeys(m) && i < |m|
    ensures Lookup(m, m[i].0) == Some(m[i].1)
    decreases i
  {
    if i > 0 {
      assert Keys(m)[0] != Keys(m)[i];
      assert UniqueKeys(m[1..]) by {
        assert Keys(m[1..]) == Keys(m)[1..];
      }
      LookupAt(m[1..], i - 1);
    }
  }

  /**
   * Lay `over` on top of `base` entry by entry, in `over`'s order. For each
   * entry `(k, v)`, `step(k, base value of k, v)` gives the value to store,
   * or `None` to leave `k` alone. This is the shape of Ruby's
   * `result = base.dup; over.each { |k, v| result[k] = ... }`.
   */
  function Overlay(base: Entries, over: Entries, step: (string, Value, Value) -> Option<Value>): (r: Entries)
    ensures forall k :: k !in Keys(over) ==> Lookup(r, k) == Lookup(base, k)
    ensures forall k :: k in Keys(base) ==> k in Keys(r)
    ensures UniqueKeys(base) ==> UniqueKeys(r)
    decreases |over|
  {
    if |over| == 0 then base
    else
      var k := over[0].0;
      var next := OverlayOne(base, k, over[0].1, step);
      assert Keys(over) == [k] + Keys(over[1..]);
      assert UniqueKeys(base) ==> UniqueKeys(next) by {
        if UniqueKeys(base) && step(k, Get(base, k), over[0].1).Some? {
          PutUnique(base, k, step(k, Get(base, k), over[0].1).value);
        }
      }
      Overlay(next, over[1..], step)
  }

  /** One entry of `Overlay`: store what `step` gives for `(k, v)`, or leave `base` alone. */
  function OverlayOne(base: Entries, k: string, v: Value, step: (string, Value, Value) -> Option<Value>): Entries {
    match step(k, Get(base, k), v)
    case None => base
    case Some(x) => Put(base, k, x)
  }

  /** The value `Overlay` leaves under `k`, stated key by key. */
  function OverlaidAt(base: Entries, over: Entries, step: (string, Value, Value) -> Option<Value>, k: string): Option<Value> {
    match Lookup(over, k)
    case None => Lookup(base, k)
    case Some(v) =>
      match step(k, Get(base, k), v)
      case None => Lookup(base, k)
      case Some(x) => Some(x)
  }

  /** With distinct override keys, `Overlay` is the key-by-key rule `OverlaidAt`. */
  lemma {:induction false} OverlayLookup(base: Entries, over: Entries, step: (string, Value, Value) -> Option<Value>, k: string)
    requires UniqueKeys(over)
    ensures Lookup(Overlay(base, over, step), k) == OverlaidAt(base, over, step, k)
    decreases |over|
  {
    if |over| > 0 {
      UniqueRest(over);
      OverlayLookup(OverlayOne(base, over[0].0, over[0].1, step), over[1..], step, k);
      OverlaidAtStep(base, over, step, k);
    }
  }

  /** The tail of a map with distinct keys has distinct keys, none of them the head's. */
  lemma UniqueRest(m: Entries)
    requires UniqueKeys(m) && |m| > 0
    ensures UniqueKeys(m[1..]) && m[0].0 !in Keys(m[1..])
  {
    assert Keys(m[1..]) == Keys(m)[1..];
    forall i | 0 <= i < |m[1..]|
      ensures Keys(m[1..])[i] != m[0].0
    {
      assert Keys(m)[i + 1] == Keys(m[1..])[i];
      assert Keys(m)[0] == m[0].0;
    }
  }

  /** Laying the first entry and then the rest agrees, key by key, with laying them all. */
  lemma OverlaidAtStep(base: Entries, over: Entries, step: (string, Value, Value) -> Option<Value>, k: string)
    requires UniqueKeys(over) && |over| > 0 && over[0].0 !in Keys(over[1..])
    ensures OverlaidAt(OverlayOne(base, over[0].0, over[0].1, step), over[1..], step, k) == OverlaidAt(base, over, step, k)
  {
    var k0 := over[0].0;
    assert Keys(over) == [k0] + Keys(over[1..]);
    if k == k0 {
      assert Lookup(over, k) == Some(over[0].1);
    } else {
      assert Lookup(over, k) == Lookup(over[1..], k);
    }
  }

  /** Ruby `a.merge(b)`: every key of `b` overwrites, every other key of `a` stays. */
  function HashMerge(a: Entries, b: Entries): (r: Entries) {
    Overlay(a, b, (k: string, prior: Value, v: Value) => Some(v))
  }

  lemma HashMergeLookup(a: Entries, b: Entries, k: string)
    requires UniqueKeys(b)
    ensures Lookup(HashMerge(a, b), k) == (if k in Keys(b) then Lookup(b, k) else Lookup(a, k))
  {
    OverlayLookup(a, b, (k: string, prior: Value, v: Value) => Some(v), k);
  }

  /** An overlay that writes only keys the base already has keeps the base's key order. */
  lemma {:induction false} OverlayKeepsKeys(base: Entries, over: Entries, step: (string, Value, Value) -> Option<Value>)
    requires forall i :: 0 <= i < |over| && over[i].0 !in Keys(base) ==> step(over[i].0, Get(base, over[i].0), over[i].1).None?
    ensures Keys(Overlay(base, over, step)) == Keys(base)
    decreases |over|
  {
    if |over| > 0 {
      var k := over[0].0;
      var next := match step(k, Get(base, k), over[0].1)
        case None => base
        case Some(x) => Put(base, k, x);
      assert Keys(next) == Keys(base);
      forall i | 0 <= i < |over[1..]| && over[1..][i].0 !in Keys(next)
        ensures step(over[1..][i].0, Get(next, over[1..][i].0), over[1..][i].1).None?
      {
        assert over[1..][i] == over[i + 1];
      }
      OverlayKeepsKeys(next, over[1..], step);
    }
  }

  /** Two maps with the same keys in the same order and the same lookups are equal. */
  lemma SameMap(a: Entries, b: Entries)
    requires UniqueKeys(a) && Keys(a) == Keys(b)
    requires forall k :: Lookup(a, k) == Lookup(b, k)
    ensures a == b
  {
    assert UniqueKeys(b);
    forall i | 0 <= i < |a|
      ensures a[i] == b[i]
    {
      assert Keys(a)[i] == Keys(b)[i];
      LookupAt(a, i);
      LookupAt(b, i);
    }
  }
}

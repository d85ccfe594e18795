/**
 * The records the output parsers produce: Ruby hashes with symbol keys
 * whose values are strings, integers or `nil`. A key the hash does not
 * hold reads as `nil`, as `hash[:key]` does.
 */
module Records {
  import opened Text

  datatype Field = FStr(str: string) | FInt(num: int) | FNil

  type Record = map<string, Field>

  /** `record[key]`. */
  function At(r: Record, key: string): (f: Field)
    ensures key !in r ==> f == FNil
    ensures key in r ==> f == r[key]
  {
    if key in r then r[key] else FNil
  }

  /** Ruby `a || b` on fields: only `nil` is falsy among them. */
  function Or(a: Field, b: Field): (f: Field)
    ensures !a.FNil? ==> f == a
    ensures a.FNil? ==> f == b
  {
    if a.FNil? then b else a
  }

  /** `Integer#to_s`. */
  function IntText(n: int): (s: string)
    ensures n >= 0 ==> AllDigits(s) && |s| >= 1 && DecimalValue(s) == n
    ensures n < 0 ==> |s| >= 2 && s[0] == '-' && AllDigits(s[1..]) && DecimalValue(s[1..]) == -n
  {
    if n < 0 then "-" + DecimalString(-n) else DecimalString(n)
  }

  /** String interpolation `"#{f}"`: `nil` interpolates as the empty string. */
  function Interp(f: Field): (s: string)
    ensures f.FStr? ==> s == f.str
    ensures f.FNil? ==> s == ""
    ensures f.FInt? ==> s == IntText(f.num)
  {
    match f
    case FStr(x) => x
    case FInt(n) => IntText(n)
    case FNil => ""
  }

  /** The record cut down to `keys`: what a reader of only those keys can see. */
  function Restrict(r: Record, keys: set<string>): (q: Record)
    ensures q.Keys <= keys
    ensures forall k :: k in keys ==> At(q, k) == At(r, k)
  {
    map k | k in r.Keys && k in keys :: r[k]
  }
}

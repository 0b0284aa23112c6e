/**
 * The pieces of JavaScript's semantics the handlers depend on: truthiness of request
 * fields, `String.prototype.length` (UTF-16 code units), the regular-expression class `\s`,
 * `String.prototype.replace` with a string pattern, and the IEEE numbers that `parseFloat`
 * yields, with JavaScript's comparisons on them.
 */
module Js {
  import opened Wrappers

  /** A string field of a request body; `None` is a field that is absent (`undefined`). */
  type Field = Option<string>

  /** `!!f` for a string field: absent and empty fields are falsy. */
  predicate Truthy(f: Field)
  {
    f.Some? && f.value != ""
  }

  /** `f || ''`. */
  function OrEmpty(f: Field): (r: string)
    ensures Truthy(f) ==> r == f.value
    ensures !Truthy(f) ==> r == ""
  {
    if Truthy(f) then f.value else ""
  }

  /** `s.length`: a character outside the Basic Multilingual Plane takes two UTF-16 code units. */
  function Utf16Length(s: string): (n: nat)
    ensures |s| <= n <= 2 * |s|
  {
    if s == [] then 0
    else (if s[0] as int >= 0x1_0000 then 2 else 1) + Utf16Length(s[1..])
  }

  /** The UTF-16 length is the number of characters exactly when no character lies outside the Basic Multilingual Plane. */
  lemma {:induction false} Utf16LengthIsCharCount(s: string)
    ensures Utf16Length(s) == |s| <==> forall i :: 0 <= i < |s| ==> s[i] as int < 0x1_0000
  {
    if s != [] {
      Utf16LengthIsCharCount(s[1..]);
      assert forall i :: 1 <= i < |s| ==> s[i] == s[1..][i - 1];
    }
  }

  /** A character of the class `\s` of ECMAScript regular expressions (WhiteSpace and LineTerminator). */
  predicate IsWhitespace(c: char)
  {
    var n := c as int;
    n == 0x09 || n == 0x0A || n == 0x0B || n == 0x0C || n == 0x0D || n == 0x20 ||
    n == 0xA0 || n == 0x1680 || (0x2000 <= n <= 0x200A) || n == 0x2028 || n == 0x2029 ||
    n == 0x202F || n == 0x205F || n == 0x3000 || n == 0xFEFF
  }

  /** `pat` occurs in `s` starting at position `k`. */
  predicate OccursAt(s: string, pat: string, k: nat)
  {
    k + |pat| <= |s| && s[k..k + |pat|] == pat
  }

  /** `s.indexOf(pat, k)`, or `None` for -1. */
  function IndexOf(s: string, pat: string, k: nat): (r: Option<nat>)
    decreases |s| - k
    ensures r.Some? ==> k <= r.value && OccursAt(s, pat, r.value)
    ensures r.Some? ==> forall j :: k <= j < r.value ==> !OccursAt(s, pat, j)
    ensures r.None? <==> forall j :: k <= j ==> !OccursAt(s, pat, j)
  {
    if k + |pat| > |s| then None
    else if s[k..k + |pat|] == pat then assert OccursAt(s, pat, k); Some(k)
    else IndexOf(s, pat, k + 1)
  }

  /** `s.replace(pat, rep)` with a string pattern: only the first occurrence is replaced. */
  function ReplaceFirst(s: string, pat: string, rep: string): (r: string)
    ensures (forall j :: 0 <= j ==> !OccursAt(s, pat, j)) ==> r == s
    ensures forall k: nat :: OccursAt(s, pat, k) && (forall j :: 0 <= j < k ==> !OccursAt(s, pat, j)) ==>
              r == s[..k] + rep + s[k + |pat|..]
  {
    match IndexOf(s, pat, 0)
    case None => s
    case Some(k) => s[..k] + rep + s[k + |pat|..]
  }

  /** Replacing the first occurrence undoes prefixing the pattern. */
  lemma ReplaceFirstPrefix(pat: string, rep: string, t: string)
    ensures ReplaceFirst(pat + t, pat, rep) == rep + t
  {
    assert OccursAt(pat + t, pat, 0) by {
      assert (pat + t)[0..|pat|] == pat;
    }
    assert (pat + t)[|pat|..] == t;
  }

  /** A JavaScript number as `parseFloat` may return it. */
  datatype Number = NaN | Finite(value: real) | PositiveInfinity | NegativeInfinity

  /** `x < bound`; every comparison with NaN is false. */
  predicate LessThan(x: Number, bound: real)
  {
    match x
    case NaN => false
    case Finite(v) => v < bound
    case PositiveInfinity => false
    case NegativeInfinity => true
  }

  /** `x > bound`; every comparison with NaN is false. */
  predicate GreaterThan(x: Number, bound: real)
  {
    match x
    case NaN => false
    case Finite(v) => v > bound
    case PositiveInfinity => true
    case NegativeInfinity => false
  }
}

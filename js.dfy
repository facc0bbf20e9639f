/**
 * The small pieces of JavaScript semantics the storefront's logic relies on:
 * `null`/`undefined` as an `Option`, truthiness of strings and `||`,
 * `Array.prototype.filter`, `String.prototype.includes`,
 * `toLowerCase` (ASCII letters), `Array.prototype.flat` and `join`, and the
 * decimal rendering of a non-negative integer inside a template literal.
 */
module Js {

  /** A value that may be `null` or `undefined` (both read as `None`). */
  datatype Option<+T> = None | Some(value: T)

  /** A computation that either produced a value or raised a message. */
  datatype Result<+T, +E> = Ok(value: T) | Err(error: E)

  /** A JavaScript string is truthy exactly when it is present and not empty. */
  predicate Truthy(s: Option<string>) {
    s.Some? && s.value != ""
  }

  /** `s || fallback` for a string that may be missing. */
  function Or(s: Option<string>, fallback: string): (r: string)
    ensures Truthy(s) ==> r == s.value
    ensures !Truthy(s) ==> r == fallback
  {
    if s.Some? && s.value != "" then s.value else fallback
  }

  // ---------------------------------------------------------------------
  // Array.prototype.filter and subsequences
  // ---------------------------------------------------------------------

  /** `s.filter(keep)`: the elements that satisfy `keep`, in their order. */
  function Filter<T>(s: seq<T>, keep: T -> bool): (r: seq<T>)
    ensures |r| <= |s|
    ensures forall x :: x in r ==> x in s && keep(x)
  {
    if s == [] then []
    else (if keep(s[0]) then [s[0]] else []) + Filter(s[1..], keep)
  }

  /** `a` is obtained from `b` by deleting elements, keeping the rest in order. */
  predicate IsSubsequence<T(==)>(a: seq<T>, b: seq<T>)
    decreases |b|
  {
    if a == [] then true
    else if b == [] then false
    else (a[0] == b[0] && IsSubsequence(a[1..], b[1..])) || IsSubsequence(a, b[1..])
  }

  /** Every element that passes the test is kept. */
  lemma {:induction false} FilterKeeps<T>(s: seq<T>, keep: T -> bool, x: T)
    requires x in s && keep(x)
    ensures x in Filter(s, keep)
  {
    if s[0] != x {
      FilterKeeps(s[1..], keep, x);
    }
  }

  /** `filter` keeps exactly the elements that pass the test. */
  lemma FilterMembership<T>(s: seq<T>, keep: T -> bool, x: T)
    ensures x in Filter(s, keep) <==> x in s && keep(x)
  {
    if x in s && keep(x) {
      FilterKeeps(s, keep, x);
    }
  }

  /** `filter` preserves the relative order of what it keeps. */
  lemma {:induction false} FilterIsSubsequence<T>(s: seq<T>, keep: T -> bool)
    ensures IsSubsequence(Filter(s, keep), s)
  {
    if s != [] {
      FilterIsSubsequence(s[1..], keep);
      var rest := Filter(s[1..], keep);
      if keep(s[0]) {
        assert Filter(s, keep) == [s[0]] + rest;
        assert ([s[0]] + rest)[1..] == rest;
      } else {
        assert Filter(s, keep) == rest;
        SubsequenceOfTail(rest, s);
      }
    }
  }

  /** A subsequence of the tail is a subsequence of the whole. */
  lemma {:induction false} SubsequenceOfTail<T>(a: seq<T>, b: seq<T>)
    requires b != [] && IsSubsequence(a, b[1..])
    ensures IsSubsequence(a, b)
  {
  }

  /** `filter` with a test every element passes keeps the whole array. */
  lemma {:induction false} FilterAll<T>(s: seq<T>, keep: T -> bool)
    requires forall i :: 0 <= i < |s| ==> keep(s[i])
    ensures Filter(s, keep) == s
  {
    if s != [] {
      FilterAll(s[1..], keep);
    }
  }

  /** Two tests that agree on every element of an array select the same elements. */
  lemma {:induction false} FilterAgrees<T>(s: seq<T>, p: T -> bool, q: T -> bool)
    requires forall x :: x in s ==> p(x) == q(x)
    ensures Filter(s, p) == Filter(s, q)
  {
    if s != [] {
      FilterAgrees(s[1..], p, q);
    }
  }

  /**
   * Two tests that no element passes together select at most as many
   * elements, in total, as the array holds.
   */
  lemma {:induction false} DisjointFiltersBounded<T>(s: seq<T>, p: T -> bool, q: T -> bool)
    requires forall i :: 0 <= i < |s| ==> !(p(s[i]) && q(s[i]))
    ensures |Filter(s, p)| + |Filter(s, q)| <= |s|
  {
    if s != [] {
      DisjointFiltersBounded(s[1..], p, q);
    }
  }

  // ---------------------------------------------------------------------
  // Strings
  // ---------------------------------------------------------------------

  /** `p` occurs in `s` starting at index `i`. */
  predicate OccursAt(s: string, p: string, i: int) {
    0 <= i <= |s| - |p| && s[i..i + |p|] == p
  }

  /** `s.includes(p)`: `p` occurs in `s` at some position. */
  predicate Includes(s: string, p: string) {
    exists i :: 0 <= i <= |s| - |p| && OccursAt(s, p, i)
  }

  /** Every string includes the empty string. */
  lemma IncludesEmpty(s: string)
    ensures Includes(s, "")
  {
    assert OccursAt(s, "", 0);
  }

  /** A string includes whatever is concatenated into it. */
  lemma IncludesPart(a: string, p: string, b: string)
    ensures Includes(a + p + b, p)
  {
    var s := a + p + b;
    assert s[|a|..|a| + |p|] == p;
    assert OccursAt(s, p, |a|);
  }

  /** `toLowerCase` on one character; only ASCII capitals are mapped. */
  function LowerChar(c: char): (r: char)
    ensures 'A' <= c <= 'Z' ==> 'a' <= r <= 'z'
    ensures !('A' <= c <= 'Z') ==> r == c
  {
    if 'A' <= c <= 'Z' then (c as int + 32) as char else c
  }

  /** `s.toLowerCase()`. */
  function Lower(s: string): (r: string)
    ensures |r| == |s|
    ensures forall i :: 0 <= i < |s| ==> r[i] == LowerChar(s[i])
  {
    seq(|s|, i requires 0 <= i < |s| => LowerChar(s[i]))
  }

  /** `arrays.flat()` for an array of arrays of strings. */
  function Flat(arrays: seq<seq<string>>): (r: seq<string>)
  {
    if arrays == [] then [] else arrays[0] + Flat(arrays[1..])
  }

  /** Every message of every inner array appears in the flattened array. */
  lemma {:induction false} FlatContains(arrays: seq<seq<string>>, i: nat, j: nat)
    requires i < |arrays| && j < |arrays[i]|
    ensures arrays[i][j] in Flat(arrays)
  {
    if i > 0 {
      FlatContains(arrays[1..], i - 1, j);
    }
  }

  /** `parts.join(sep)`. */
  function Join(parts: seq<string>, sep: string): (r: string)
  {
    if parts == [] then ""
    else if |parts| == 1 then parts[0]
    else parts[0] + sep + Join(parts[1..], sep)
  }

  /** The total length of a list of strings. */
  function TotalLength(parts: seq<string>): nat {
    if parts == [] then 0 else |parts[0]| + TotalLength(parts[1..])
  }

  /** A joined string is the parts plus one separator between each neighbouring pair. */
  lemma {:induction false} JoinLength(parts: seq<string>, sep: string)
    ensures |parts| > 0 ==> |Join(parts, sep)| == TotalLength(parts) + |sep| * (|parts| - 1)
    ensures |parts| == 0 ==> Join(parts, sep) == ""
  {
    if |parts| > 1 {
      JoinLength(parts[1..], sep);
    }
  }

  /** Every part occurs, unchanged, in the joined string. */
  lemma {:induction false} JoinIncludesParts(parts: seq<string>, sep: string, k: nat)
    requires k < |parts|
    ensures Includes(Join(parts, sep), parts[k])
  {
    if |parts| == 1 {
      IncludesPart("", parts[0], "");
      assert "" + parts[0] + "" == parts[0];
    } else if k == 0 {
      IncludesPart("", parts[0], sep + Join(parts[1..], sep));
      assert "" + parts[0] + (sep + Join(parts[1..], sep)) == Join(parts, sep);
    } else {
      JoinIncludesParts(parts[1..], sep, k - 1);
      assert parts[1..][k - 1] == parts[k];
      var rest := Join(parts[1..], sep);
      var i :| 0 <= i <= |rest| - |parts[k]| && OccursAt(rest, parts[k], i);
      var pre := parts[0] + sep;
      assert Join(parts, sep) == pre + rest;
      assert (pre + rest)[|pre| + i..|pre| + i + |parts[k]|] == rest[i..i + |parts[k]|];
      assert OccursAt(pre + rest, parts[k], |pre| + i);
    }
  }

  // ---------------------------------------------------------------------
  // Decimal rendering of a non-negative integer (`${n}` in a template)
  // ---------------------------------------------------------------------

  function DigitChar(d: nat): (c: char)
    requires d < 10
    ensures '0' <= c <= '9'
  {
    ('0' as int + d) as char
  }

  /** `${n}` for a non-negative integer: its decimal digits, without leading zeros. */
  function NatToString(n: nat): (r: string)
    ensures |r| >= 1
    ensures forall i :: 0 <= i < |r| ==> '0' <= r[i] <= '9'
    decreases n
  {
    if n < 10 then [DigitChar(n)] else NatToString(n / 10) + [DigitChar(n % 10)]
  }

  /** The value of a string of decimal digits. */
  function DigitsValue(s: string): nat
    requires forall i :: 0 <= i < |s| ==> '0' <= s[i] <= '9'
  {
    if s == [] then 0 else DigitsValue(s[..|s| - 1]) * 10 + (s[|s| - 1] as int - '0' as int)
  }

  /** Reading the rendered digits back gives the number. */
  lemma {:induction false} NatToStringRoundTrip(n: nat)
    ensures DigitsValue(NatToString(n)) == n
  {
    if n >= 10 {
      NatToStringRoundTrip(n / 10);
      var s := NatToString(n);
      assert s[..|s| - 1] == NatToString(n / 10);
    }
  }

  /** All characters of `s` are decimal digits. */
  predicate AllDecimal(s: string) {
    forall i :: 0 <= i < |s| ==> '0' <= s[i] <= '9'
  }

  /** Two renderings are equal only for equal numbers. */
  lemma NatToStringInjective(a: nat, b: nat)
    requires NatToString(a) == NatToString(b)
    ensures a == b
  {
    NatToStringRoundTrip(a);
    NatToStringRoundTrip(b);
  }

  /** In a run of digits followed by a non-digit marker, the marker first occurs right after the digits. */
  lemma MarkerPosition(x: string, c: char, y: string)
    requires AllDecimal(x) && !('0' <= c <= '9')
    ensures (x + [c] + y)[|x|] == c
    ensures forall i :: 0 <= i < |x| ==> (x + [c] + y)[i] != c
  {
  }

  /**
   * A run of digits followed by a non-digit marker is read back unambiguously:
   * the marker's first occurrence splits the text.
   */
  lemma SplitAtMarker(x1: string, y1: string, x2: string, y2: string, c: char)
    requires AllDecimal(x1) && AllDecimal(x2) && !('0' <= c <= '9')
    requires x1 + [c] + y1 == x2 + [c] + y2
    ensures x1 == x2 && y1 == y2
  {
    var t := x1 + [c] + y1;
    MarkerPosition(x1, c, y1);
    MarkerPosition(x2, c, y2);
    assert |x1| <= |x2| by {
      assert t[|x1|] == c;
    }
    assert |x2| <= |x1| by {
      assert t[|x2|] == c;
    }
    assert x1 == t[..|x1|] == x2;
    assert y1 == t[|x1| + 1..] == y2;
  }
}

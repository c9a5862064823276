/** Small value types and string helpers shared by the EAM reader model. */
module Basics {

  datatype Option<T> = None | Some(value: T)

  datatype Result<T, E> = Ok(value: T) | Err(error: E)

  /** `p` is a prefix of `s`. */
  predicate IsPrefix(p: string, s: string)
  {
    |p| <= |s| && s[..|p|] == p
  }

  /** Python's `sub in s` on strings: `sub` occurs as a contiguous piece of `s`. */
  predicate Contains(s: string, sub: string)
    decreases |s|
  {
    IsPrefix(sub, s) || (|s| > 0 && Contains(s[1..], sub))
  }

  /** Every string contains itself. */
  lemma ContainsSelf(s: string)
    ensures Contains(s, s)
  {
    assert s[..|s|] == s;
  }

  /** A string cannot contain anything longer than itself. */
  lemma {:induction false} ContainsShorter(s: string, sub: string)
    requires Contains(s, sub)
    ensures |sub| <= |s|
  {
    if !IsPrefix(sub, s) {
      ContainsShorter(s[1..], sub);
    }
  }

  /** ASCII lower-casing of one character (other characters are kept). */
  function LowerChar(c: char): char
  {
    if 'A' <= c <= 'Z' then (c as int + 32) as char else c
  }

  /** ASCII lower-casing of a string, as `str.lower()` does on ASCII text. */
  function Lower(s: string): (r: string)
    ensures |r| == |s|
    ensures forall i :: 0 <= i < |s| ==> r[i] == LowerChar(s[i])
  {
    seq(|s|, i requires 0 <= i < |s| => LowerChar(s[i]))
  }

  /** `[x] * n` in Python. */
  function Repeat<T>(x: T, n: nat): (r: seq<T>)
    ensures |r| == n && forall i :: 0 <= i < n ==> r[i] == x
  {
    seq(n, _ => x)
  }

  /** Strictly increasing positions: each picked once, in order. */
  predicate Ascending(ind: seq<nat>)
  {
    forall i, j :: 0 <= i < j < |ind| ==> ind[i] < ind[j]
  }
}

/** Option and Result values shared by the two components: Python's `None`
    and a raised exception (with its `str(e)` text) become explicit cases. */
module Wrappers {

  datatype Option<+T> = None | Some(value: T)

  /** `Failure(e)` stands for an exception whose message is `e`. */
  datatype Result<+T> = Success(value: T) | Failure(error: string)

  /** `p` is a prefix of `s`. */
  predicate IsPrefix(p: string, s: string) {
    |p| <= |s| && s[..|p|] == p
  }

  /** `p` is a suffix of `s`. */
  predicate IsSuffix(p: string, s: string) {
    |p| <= |s| && s[|s| - |p|..] == p
  }

  /** `p` occurs somewhere inside `s`, as Python's `p in s`. */
  predicate IsInfix(p: string, s: string) {
    exists k | 0 <= k <= |s| - |p| :: OccursAt(p, s, k)
  }

  /** `p` occurs in `s` starting at index `k`. */
  predicate OccursAt(p: string, s: string, k: int) {
    0 <= k <= |s| - |p| && s[k..k + |p|] == p
  }

  /** Every string occurs inside itself. */
  lemma InfixSelf(p: string)
    ensures IsInfix(p, p)
  {
    assert OccursAt(p, p, 0);
  }

  /** Whatever follows a string inside which `p` occurs keeps `p` inside. */
  lemma InfixOfPrefix(p: string, s: string, t: string)
    requires IsInfix(p, s)
    ensures IsInfix(p, s + t)
  {
    var k :| 0 <= k <= |s| - |p| && OccursAt(p, s, k);
    assert (s + t)[k..k + |p|] == s[k..k + |p|];
    assert OccursAt(p, s + t, k);
  }

  /** A prefix of a string is a prefix of anything that string starts. */
  lemma PrefixOfPrefix(p: string, s: string, t: string)
    requires IsPrefix(p, s)
    ensures IsPrefix(p, s + t)
  {
    assert (s + t)[..|p|] == s[..|p|];
  }

  /** Whatever precedes a string inside which `p` occurs keeps `p` inside. */
  lemma InfixOfSuffix(p: string, s: string, t: string)
    requires IsInfix(p, t)
    ensures IsInfix(p, s + t)
  {
    var k :| 0 <= k <= |t| - |p| && OccursAt(p, t, k);
    assert (s + t)[|s| + k..|s| + k + |p|] == t[k..k + |p|];
    assert OccursAt(p, s + t, |s| + k);
  }

  /** A string occurs inside anything built around it. */
  lemma InfixMiddle(a: string, p: string, b: string)
    ensures IsInfix(p, a + p + b)
  {
    assert (a + p + b)[|a|..|a| + |p|] == p;
    assert OccursAt(p, a + p + b, |a|);
  }
}

/**
  The Python string operations the account-management tool uses: `str.startswith`,
  `str.endswith` (also with a tuple of suffixes) and the text Python prints for a
  `bool`, plus a substring-occurrence predicate used to state what a rendered line contains.
 */
module Strings {

  /** `s.startswith(prefix)` */
  predicate StartsWith(s: string, prefix: string)
  {
    |prefix| <= |s| && s[..|prefix|] == prefix
  }

  /** `s.endswith(suffix)` */
  predicate EndsWith(s: string, suffix: string)
  {
    |suffix| <= |s| && s[|s| - |suffix|..] == suffix
  }

  /** `s.endswith(suffixes)` where `suffixes` is a tuple: true when any one of them ends `s`. */
  function EndsWithAny(s: string, suffixes: seq<string>): (r: bool)
    ensures r <==> exists i :: 0 <= i < |suffixes| && EndsWith(s, suffixes[i])
  {
    if suffixes == [] then false
    else EndsWith(s, suffixes[0]) || EndsWithAny(s, suffixes[1..])
  }

  /** `sub` occurs in `s` starting at index `k`. */
  ghost predicate OccursAt(s: string, sub: string, k: int)
  {
    0 <= k <= |s| - |sub| && s[k..k + |sub|] == sub
  }

  /** `sub in s` for two strings: `sub` occurs somewhere inside `s`. */
  ghost predicate Contains(s: string, sub: string)
  {
    exists k :: OccursAt(s, sub, k)
  }

  /** `str(b)` for a Python `bool`. */
  function BoolText(b: bool): string
  {
    if b then "True" else "False"
  }

  lemma ContainsSelf(s: string)
    ensures Contains(s, s)
  {
    assert OccursAt(s, s, 0);
  }

  lemma ContainsInLeft(a: string, b: string, sub: string)
    requires Contains(a, sub)
    ensures Contains(a + b, sub)
  {
    var k :| OccursAt(a, sub, k);
    assert (a + b)[k..k + |sub|] == a[k..k + |sub|];
    assert OccursAt(a + b, sub, k);
  }

  lemma ContainsInRight(a: string, b: string, sub: string)
    requires Contains(b, sub)
    ensures Contains(a + b, sub)
  {
    var k :| OccursAt(b, sub, k);
    assert (a + b)[|a| + k..|a| + k + |sub|] == b[k..k + |sub|];
    assert OccursAt(a + b, sub, |a| + k);
  }

  lemma StartsWithInLeft(a: string, b: string, prefix: string)
    requires StartsWith(a, prefix)
    ensures StartsWith(a + b, prefix)
  {
    assert (a + b)[..|prefix|] == a[..|prefix|];
  }

  lemma EndsWithInRight(a: string, b: string, suffix: string)
    requires EndsWith(b, suffix)
    ensures EndsWith(a + b, suffix)
  {
    assert (a + b)[|a + b| - |suffix|..] == b[|b| - |suffix|..];
  }
}

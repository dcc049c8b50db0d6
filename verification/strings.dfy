/** Prefix and suffix facts about strings, used to read the pieces of a rendered message. */
module Strings {

  predicate StartsWith(s: string, prefix: string) {
    prefix <= s
  }

  predicate EndsWith(s: string, suffix: string) {
    |suffix| <= |s| && s[|s| - |suffix|..] == suffix
  }

  lemma AppendAssoc(a: string, b: string, c: string)
    ensures (a + b) + c == a + (b + c)
  {
  }

  lemma StartsWithAppend(s: string, p: string, t: string)
    requires StartsWith(s, p)
    ensures StartsWith(s + t, p)
  {
    assert (s + t)[..|p|] == s[..|p|];
  }

  lemma EndsWithAppend(a: string, b: string)
    ensures EndsWith(a + b, b)
  {
    assert (a + b)[|a|..] == b;
  }

  lemma EndsWithExtend(s: string, b: string, c: string)
    requires EndsWith(s, b)
    ensures EndsWith(s + c, b + c)
  {
    assert (s + c)[|s| - |b|..] == s[|s| - |b|..] + c;
  }

  lemma EndsWithTrans(s: string, t: string, u: string)
    requires EndsWith(s, t) && EndsWith(t, u)
    ensures EndsWith(s, u)
  {
    assert s[|s| - |u|..] == s[|s| - |t|..][|t| - |u|..];
  }
}

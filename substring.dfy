/** Substring containment, as Python's `sub in s` decides it for two strings. */
module Substring {

  /** Reference definition: `sub` occurs in `s` at some offset (the empty
      string occurs everywhere, at every offset up to and including |s|). */
  ghost predicate Occurs(sub: string, s: string) {
    exists i :: 0 <= i <= |s| && sub <= s[i..]
  }

  /** Executable left-to-right search: is `sub` a prefix of `s` or of one of
      its suffixes? */
  function Contains(s: string, sub: string): (r: bool)
    // Python: the empty string is in every string, and nothing longer than
    // `s` is in `s`.
    ensures sub == [] ==> r
    ensures r ==> |sub| <= |s|
    decreases |s|
  {
    if sub <= s then true
    else if s == [] then false
    else Contains(s[1..], sub)
  }

  /** The search answers exactly the reference question, in both directions. */
  lemma {:induction false} ContainsIffOccurs(s: string, sub: string)
    ensures Contains(s, sub) <==> Occurs(sub, s)
    decreases |s|
  {
    if sub <= s {
      assert s[0..] == s;
    } else if s == [] {
      // The only offset is 0, and `sub` is not a prefix of `s` there.
    } else {
      ContainsIffOccurs(s[1..], sub);
      if Contains(s[1..], sub) {
        var j :| 0 <= j <= |s[1..]| && sub <= s[1..][j..];
        assert s[1..][j..] == s[j + 1..];
      }
      if Occurs(sub, s) {
        var i :| 0 <= i <= |s| && sub <= s[i..];
        assert i != 0 by { assert s[0..] == s; }
        assert s[1..][i - 1..] == s[i..];
      }
    }
  }

  /** A string contains itself, wherever it stands inside a longer one. */
  lemma {:induction false} ContainsInfix(pre: string, sub: string, post: string)
    ensures Contains(pre + sub + post, sub)
  {
    var s := pre + sub + post;
    assert s[|pre|..] == sub + post;
    ContainsIffOccurs(s, sub);
  }

  /** A string longer than `s` does not occur in it. */
  lemma {:induction false} TooShortNotContained(s: string, sub: string)
    requires |s| < |sub|
    ensures !Contains(s, sub)
    decreases |s|
  {
    if s != [] {
      TooShortNotContained(s[1..], sub);
    }
  }

  /** A leading part in which the first character of `sub` never appears
      cannot hold the start of an occurrence, so the search skips it. */
  lemma {:induction false} SkipLeadingWithoutFirstChar(a: string, b: string, sub: string)
    requires |sub| > 0
    requires forall i :: 0 <= i < |a| ==> a[i] != sub[0]
    ensures Contains(a + b, sub) == Contains(b, sub)
    decreases |a|
  {
    if a == [] {
      assert a + b == b;
    } else {
      assert (a + b)[0] == a[0];
      assert (a + b)[1..] == a[1..] + b;
      SkipLeadingWithoutFirstChar(a[1..], b, sub);
    }
  }
}

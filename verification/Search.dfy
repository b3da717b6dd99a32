/**
 Where one string stands in another.

 An occurrence is named by the place where it begins, and occurrences may overlap. The lemmas say how
 they behave when strings are put together: they are kept on either side, and none arises across
 characters that the string sought does not have. The first occurrence is the one that
 the search of Go's strings package gives.
 */
module Search {
  predicate At(s: string, sub: string, i: int) { 0 <= i <= |s| - |sub| && s[i..i + |sub|] == sub }

  /** strings.Contains. */
  predicate Contains(s: string, sub: string) { exists i | 0 <= i <= |s| :: At(s, sub, i) }

  /** strings.Index: the first place, or -1. */
  function Index(s: string, sub: string): (r: int)
    ensures r < 0 ==> r == -1
    ensures r >= 0 ==> At(s, sub, r)
    ensures forall i | 0 <= i < r :: !At(s, sub, i)
    ensures r < 0 ==> !Contains(s, sub)
    decreases |s|
  {
    if sub <= s then 0
    else if s == "" then -1
    else
      var r := Index(s[1..], sub);
      assert forall i | i >= 1 :: At(s, sub, i) <==> At(s[1..], sub, i - 1);
      if r < 0 then -1 else r + 1
  }

  lemma IndexIs(s: string, sub: string, i: nat)
    requires At(s, sub, i) && forall j | 0 <= j < i :: !At(s, sub, j)
    ensures Index(s, sub) == i
  {
  }

  lemma AtIs(s: string, sub: string, i: int)
    ensures At(s, sub, i) <==> 0 <= i <= |s| - |sub| && forall k | 0 <= k < |sub| :: s[i + k] == sub[k]
  {
    if 0 <= i <= |s| - |sub| {
      var t := s[i..i + |sub|];
      assert forall k | 0 <= k < |sub| :: t[k] == s[i + k];
      if forall k | 0 <= k < |sub| :: s[i + k] == sub[k] {
        assert t == sub;
      }
    }
  }

  lemma AtLeft(a: string, b: string, sub: string, i: int)
    requires At(a, sub, i)
    ensures At(a + b, sub, i)
  {
    assert (a + b)[i..i + |sub|] == a[i..i + |sub|];
  }

  lemma AtRight(a: string, b: string, sub: string, i: int)
    requires At(b, sub, i)
    ensures At(a + b, sub, |a| + i)
  {
    assert (a + b)[|a| + i..|a| + i + |sub|] == b[i..i + |sub|];
  }

  /** A string does not stand over a character it does not have. */
  lemma Misses(s: string, sub: string, i: int, m: nat)
    requires i <= m < i + |sub| && m < |s| && s[m] !in sub
    ensures !At(s, sub, i)
  {
    AtIs(s, sub, i);
    if 0 <= i <= |s| - |sub| {
      assert s[i + (m - i)] != sub[m - i];
    }
  }

  /** So it lies before or after characters it does not have. */
  lemma AtAround(a: string, sep: string, b: string, sub: string, i: int)
    requires sep != "" && sub != "" && forall k | 0 <= k < |sep| :: sep[k] !in sub
    requires At(a + sep + b, sub, i)
    ensures At(a, sub, i) || At(b, sub, i - |a| - |sep|)
  {
    var s := a + sep + b;
    var n, j := |a|, i - |a| - |sep|;
    if i < n < i + |sub| {
      assert s[n] == sep[0];
      Misses(s, sub, i, n);
    } else if n <= i && j < 0 {
      assert s[i] == sep[i - n];
      Misses(s, sub, i, i);
    } else if i < n {
      assert a[i..i + |sub|] == s[i..i + |sub|];
    } else {
      assert b[j..j + |sub|] == s[i..i + |sub|];
    }
  }

  lemma ContainsAround(a: string, sep: string, b: string, sub: string)
    requires sep != "" && sub != "" && forall k | 0 <= k < |sep| :: sep[k] !in sub
    ensures Contains(a + sep + b, sub) <==> Contains(a, sub) || Contains(b, sub)
  {
    if Contains(a, sub) {
      var i :| 0 <= i <= |a| && At(a, sub, i);
      AtLeft(a, sep + b, sub, i);
      assert a + (sep + b) == a + sep + b;
    }
    if Contains(b, sub) {
      var i :| 0 <= i <= |b| && At(b, sub, i);
      AtRight(a + sep, b, sub, i);
    }
    if Contains(a + sep + b, sub) {
      var i :| 0 <= i <= |a + sep + b| && At(a + sep + b, sub, i);
      AtAround(a, sep, b, sub, i);
      AtWithin(a, sub, i);
      AtWithin(b, sub, i - |a| - |sep|);
    }
  }

  lemma AtWithin(s: string, sub: string, i: int)
    ensures At(s, sub, i) ==> Contains(s, sub)
  {
  }

  /** A part of a string contains no more than the string. */
  lemma ContainsPart(s: string, a: nat, b: nat, sub: string)
    requires a <= b <= |s| && Contains(s[a..b], sub)
    ensures Contains(s, sub)
  {
    var i :| 0 <= i <= b - a && At(s[a..b], sub, i);
    AtLeft(s[a..b], s[b..], sub, i);
    AtRight(s[..a], s[a..b] + s[b..], sub, i);
    assert s == s[..a] + (s[a..b] + s[b..]);
  }
}

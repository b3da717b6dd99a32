/**
 The string operations of Go's standard library that the model relies on.

 A string is a sequence of code points. Where the original looks at bytes it does so for ASCII
 characters, which no other character's encoding contains, so places of such characters agree;
 where it counts bytes, the length of the encoding is used. Malformed encodings do not occur in the
 strings of this model.
 */
module Text {
  /** unicode.IsSpace. */
  predicate IsSpace(c: char) {
    || '\t' <= c <= '\r'
    || c == ' '
    || c as int in {0x85, 0xA0, 0x1680, 0x2028, 0x2029, 0x202F, 0x205F, 0x3000}
    || 0x2000 <= c as int <= 0x200A
  }

  function TrimLeft(s: string): (r: string)
    ensures |r| <= |s|
    ensures r != "" ==> !IsSpace(r[0])
    decreases |s|
  {
    if s != "" && IsSpace(s[0]) then TrimLeft(s[1..]) else s
  }

  function TrimRight(s: string): (r: string)
    ensures |r| <= |s|
    ensures r != "" ==> !IsSpace(r[|r| - 1])
    decreases |s|
  {
    if s != "" && IsSpace(s[|s| - 1]) then TrimRight(s[..|s| - 1]) else s
  }

  /** strings.TrimSpace. */
  function TrimSpace(s: string): string { TrimRight(TrimLeft(s)) }

  /** Neither end is a space. */
  predicate Trimmed(s: string) {
    s != "" ==> !IsSpace(s[0]) && !IsSpace(s[|s| - 1])
  }

  lemma TrimmedUnchanged(s: string)
    requires Trimmed(s)
    ensures TrimSpace(s) == s
  {
  }

  predicate Spaces(s: string) { forall i | 0 <= i < |s| :: IsSpace(s[i]) }

  lemma {:induction false} TrimLeftSpaces(a: string, s: string)
    requires Spaces(a)
    ensures TrimLeft(a + s) == TrimLeft(s)
    decreases |a|
  {
    if a == "" {
      assert a + s == s;
    } else {
      assert (a + s)[1..] == a[1..] + s && (a + s)[0] == a[0];
      TrimLeftSpaces(a[1..], s);
    }
  }

  lemma {:induction false} TrimRightSpaces(s: string, b: string)
    requires Spaces(b)
    ensures TrimRight(s + b) == TrimRight(s)
    decreases |b|
  {
    if b == "" {
      assert s + b == s;
    } else {
      var n := |b| - 1;
      assert (s + b)[..|s + b| - 1] == s + b[..n] && (s + b)[|s + b| - 1] == b[n];
      TrimRightSpaces(s, b[..n]);
    }
  }

  /** White space around a trimmed text goes, and nothing else. */
  lemma TrimAround(a: string, text: string, b: string)
    requires Spaces(a) && Spaces(b) && Trimmed(text)
    ensures TrimSpace(a + text + b) == text
  {
    assert a + text + b == a + (text + b);
    TrimLeftSpaces(a, text + b);
    if text == "" {
      assert text + b == b && b == b + "";
      TrimLeftSpaces(b, "");
    } else {
      assert (text + b)[0] == text[0];
      TrimRightSpaces(text, b);
    }
  }

  predicate HasPrefix(s: string, prefix: string) { prefix <= s }

  /** strings.TrimPrefix. */
  function TrimPrefix(s: string, prefix: string): string {
    if HasPrefix(s, prefix) then s[|prefix|..] else s
  }

  /** strings.Join. */
  function Join(parts: seq<string>, sep: string): string
    decreases |parts|
  {
    if parts == [] then ""
    else if |parts| == 1 then parts[0]
    else parts[0] + sep + Join(parts[1..], sep)
  }

  /** len of a string in bytes, encoded in UTF-8. */
  function Bytes(s: string): nat
    decreases |s|
  {
    if s == "" then 0
    else
      var c := s[|s| - 1] as int;
      Bytes(s[..|s| - 1]) + (if c < 0x80 then 1 else if c < 0x800 then 2 else if c < 0x1_0000 then 3 else 4)
  }

  /** The encoding of a character in UTF-8 (RFC 3629, section 3). */
  function Utf8(c: char): seq<int> {
    var n := c as int;
    if n < 0x80 then [n]
    else if n < 0x800 then [0xC0 + n / 64, 0x80 + n % 64]
    else if n < 0x1_0000 then [0xE0 + n / 4096, 0x80 + n / 64 % 64, 0x80 + n % 64]
    else [0xF0 + n / 262144, 0x80 + n / 4096 % 64, 0x80 + n / 64 % 64, 0x80 + n % 64]
  }

  function Encoded(s: string): seq<int>
    decreases |s|
  {
    if s == "" then [] else Utf8(s[0]) + Encoded(s[1..])
  }

  lemma {:induction false} EncodedMore(s: string, c: char)
    ensures |Encoded(s + [c])| == |Encoded(s)| + |Utf8(c)|
    decreases |s|
  {
    hide Utf8;
    if s == "" {
      assert (s + [c])[1..] == "";
    } else {
      assert (s + [c])[1..] == s[1..] + [c] && (s + [c])[0] == s[0];
      EncodedMore(s[1..], c);
    }
  }

  /** The number of bytes is that of the encoding. */
  lemma {:induction false} BytesExactly(s: string)
    ensures Bytes(s) == |Encoded(s)|
    decreases |s|
  {
    if s != "" {
      var n := |s| - 1;
      BytesExactly(s[..n]);
      EncodedMore(s[..n], s[n]);
      assert s == s[..n] + [s[n]];
    }
  }

  /** strings.IndexByte and strings.Cut's separator: the first place of a character, or -1. */
  function IndexOf(s: string, c: char): (r: int)
    ensures -1 <= r < |s|
    ensures r >= 0 ==> s[r] == c && forall i | 0 <= i < r :: s[i] != c
    ensures r < 0 ==> c !in s
    decreases |s|
  {
    if s == "" then -1
    else if s[0] == c then 0
    else
      var r := IndexOf(s[1..], c);
      if r < 0 then -1 else r + 1
  }

  lemma IndexOfCut(a: string, c: char, rest: string)
    requires c !in a
    ensures IndexOf(a + [c] + rest, c) == |a|
  {
    var s := a + [c] + rest;
    assert s[|a|] == c && forall i | 0 <= i < |a| :: s[i] == a[i];
  }

  lemma {:induction false} TrimLeftSuffix(s: string) returns (n: nat)
    ensures n <= |s| && TrimLeft(s) == s[n..]
    ensures forall i | 0 <= i < n :: IsSpace(s[i])
    decreases |s|
  {
    if s != "" && IsSpace(s[0]) {
      var m := TrimLeftSuffix(s[1..]);
      n := m + 1;
    } else {
      n := 0;
    }
  }

  lemma {:induction false} TrimRightPrefix(s: string) returns (n: nat)
    ensures n <= |s| && TrimRight(s) == s[..n]
    ensures forall i | n <= i < |s| :: IsSpace(s[i])
    decreases |s|
  {
    if s != "" && IsSpace(s[|s| - 1]) {
      var m := TrimRightPrefix(s[..|s| - 1]);
      n := m;
      assert s[..|s| - 1][..n] == s[..n];
    } else {
      n := |s|;
      assert s[..n] == s;
    }
  }

  /** strings.TrimSpace drops spaces at both ends, and nothing else. */
  lemma TrimSpaceWhere(s: string) returns (a: nat, b: nat)
    ensures a <= b <= |s| && TrimSpace(s) == s[a..b] && Trimmed(s[a..b])
    ensures forall i | 0 <= i < a || b <= i < |s| :: IsSpace(s[i])
  {
    a := TrimLeftSuffix(s);
    var m := TrimRightPrefix(s[a..]);
    b := a + m;
    assert s[a..][..m] == s[a..b];
    forall i | b <= i < |s|
      ensures IsSpace(s[i])
    {
      assert s[i] == s[a..][i - a];
    }
  }
}

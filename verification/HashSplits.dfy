/**
 Which bundles have the same hash (pkg/skills/bundle/bundle.go).

 A file whose path holds a line feed with a digest behind it can be taken for two files: the hashed
 text is the same. Cut at such places as often as possible, two lists of files have the same text
 exactly if they come to the same list.
 */
module HashSplits {
  import opened Wrappers
  import opened Bundle

  /** The start of a path up to a line feed and the digest behind it. */
  function Cut(t: Tools, x: string, c: string): string { x + "\n" + t.digest(c) }

  /**
   The first file can be taken for a file x of content c and another one: its path goes on behind the
   digest, or it ends there and the next file's path is what goes on.
   */
  ghost predicate CutsAt(t: Tools, a: seq<File>, b: seq<File>, x: string, c: string)
    requires a != []
  {
    var cut, f := Cut(t, x, c), a[0];
    || (cut + "\n" <= f.path && b == [File(x, c), File(f.path[|cut| + 1..], f.content)] + a[1..])
    || (|a| > 1 && cut == f.path
        && b == [File(x, c), File(t.digest(f.content) + "\n" + a[1].path, a[1].content)] + a[2..])
  }

  /** One file of the first list is cut. */
  ghost predicate Splits(t: Tools, a: seq<File>, b: seq<File>)
    decreases |a|
  {
    && a != []
    && ((exists x, c :: CutsAt(t, a, b, x, c)) || (b != [] && a[0] == b[0] && Splits(t, a[1..], b[1..])))
  }

  ghost predicate Reaches(t: Tools, a: seq<File>, b: seq<File>, n: nat)
    decreases n
  {
    if n == 0 then a == b else exists m: seq<File> :: Splits(t, a, m) && Reaches(t, m, b, n - 1)
  }

  /** No file can be cut. */
  ghost predicate Clean(t: Tools, a: seq<File>) { forall b: seq<File> :: !Splits(t, a, b) }

  // ---- cutting does not change the text ----

  lemma EncodingCons(t: Tools, f: File, rest: seq<File>)
    ensures Encoding(t, [f] + rest) == f.path + "\n" + (t.digest(f.content) + "\n" + Encoding(t, rest))
  {
    assert ([f] + rest)[1..] == rest;
  }

  /** The path goes on behind the digest. */
  lemma InsideEncoding(t: Tools, x: string, c: string, y: string, d: string, rest: seq<File>)
    ensures Encoding(t, [File(Cut(t, x, c) + "\n" + y, d)] + rest) == Encoding(t, [File(x, c), File(y, d)] + rest)
  {
    hide Encoding;
    EncodingCons(t, File(Cut(t, x, c) + "\n" + y, d), rest);
    assert [File(x, c), File(y, d)] + rest == [File(x, c)] + ([File(y, d)] + rest);
    EncodingCons(t, File(x, c), [File(y, d)] + rest);
    EncodingCons(t, File(y, d), rest);
    Regroup3(x, t.digest(c), y, t.digest(d) + "\n" + Encoding(t, rest));
  }

  lemma Regroup3(x: string, d: string, y: string, z: string)
    ensures (x + "\n" + d + "\n" + y) + "\n" + z == x + "\n" + (d + "\n" + (y + "\n" + z))
  {
  }

  /** The path ends with the digest, and the next file's goes on. */
  lemma AcrossEncoding(t: Tools, x: string, c: string, d: string, g: File, rest: seq<File>)
    ensures Encoding(t, [File(Cut(t, x, c), d), g] + rest)
            == Encoding(t, [File(x, c), File(t.digest(d) + "\n" + g.path, g.content)] + rest)
  {
    hide Encoding;
    assert [File(Cut(t, x, c), d), g] + rest == [File(Cut(t, x, c), d)] + ([g] + rest);
    EncodingCons(t, File(Cut(t, x, c), d), [g] + rest);
    EncodingCons(t, g, rest);
    var h := File(t.digest(d) + "\n" + g.path, g.content);
    assert [File(x, c), h] + rest == [File(x, c)] + ([h] + rest);
    EncodingCons(t, File(x, c), [h] + rest);
    EncodingCons(t, h, rest);
    Regroup4(x, t.digest(c), t.digest(d), g.path, t.digest(g.content) + "\n" + Encoding(t, rest));
  }

  lemma Regroup4(x: string, c: string, d: string, p: string, z: string)
    ensures (x + "\n" + c) + "\n" + (d + "\n" + (p + "\n" + z)) == x + "\n" + (c + "\n" + ((d + "\n" + p) + "\n" + z))
  {
  }

  lemma CutsEncoding(t: Tools, a: seq<File>, b: seq<File>, x: string, c: string)
    requires a != [] && CutsAt(t, a, b, x, c)
    ensures Encoding(t, a) == Encoding(t, b)
  {
    hide Encoding;
    var cut, f := Cut(t, x, c), a[0];
    if cut + "\n" <= f.path && b == [File(x, c), File(f.path[|cut| + 1..], f.content)] + a[1..] {
      InsideEncoding(t, x, c, f.path[|cut| + 1..], f.content, a[1..]);
      assert f.path == cut + "\n" + f.path[|cut| + 1..];
      assert a == [File(cut + "\n" + f.path[|cut| + 1..], f.content)] + a[1..];
    } else {
      AcrossEncoding(t, x, c, f.content, a[1], a[2..]);
      assert a == [File(cut, f.content), a[1]] + a[2..];
    }
  }

  lemma {:induction false} SplitsEncoding(t: Tools, a: seq<File>, b: seq<File>)
    requires Splits(t, a, b)
    ensures Encoding(t, a) == Encoding(t, b)
    decreases |a|
  {
    hide CutsAt;
    if x, c :| CutsAt(t, a, b, x, c) {
      CutsEncoding(t, a, b, x, c);
    } else {
      SplitsEncoding(t, a[1..], b[1..]);
    }
  }

  lemma {:induction false} ReachesEncoding(t: Tools, a: seq<File>, b: seq<File>, n: nat)
    requires Reaches(t, a, b, n)
    ensures Encoding(t, a) == Encoding(t, b)
    decreases n
  {
    hide Splits, Encoding;
    if n > 0 {
      var m: seq<File> :| Splits(t, a, m) && Reaches(t, m, b, n - 1);
      SplitsEncoding(t, a, m);
      ReachesEncoding(t, m, b, n - 1);
    }
  }

  // ---- clean lists ----

  /** A path that can be cut, if files follow or if none do. */
  ghost predicate Cuttable(t: Tools, path: string, more: bool) {
    exists x, c :: Cut(t, x, c) + "\n" <= path || (more && Cut(t, x, c) == path)
  }

  lemma CuttableSplits(t: Tools, a: seq<File>) returns (b: seq<File>)
    requires a != [] && Cuttable(t, a[0].path, |a| > 1)
    ensures Splits(t, a, b) && b != [] && |b[0].path| < |a[0].path|
  {
    var x, c :| Cut(t, x, c) + "\n" <= a[0].path || (|a| > 1 && Cut(t, x, c) == a[0].path);
    var cut, f := Cut(t, x, c), a[0];
    if cut + "\n" <= f.path {
      b := [File(x, c), File(f.path[|cut| + 1..], f.content)] + a[1..];
    } else {
      b := [File(x, c), File(t.digest(f.content) + "\n" + a[1].path, a[1].content)] + a[2..];
    }
    assert CutsAt(t, a, b, x, c);
  }

  lemma SplitsTail(t: Tools, a: seq<File>, b: seq<File>)
    requires a != [] && Splits(t, a[1..], b)
    ensures Splits(t, a, [a[0]] + b)
  {
    SplitsBehind(t, a[0], a[1..], b);
    assert a == [a[0]] + a[1..];
  }

  lemma SplitsCases(t: Tools, a: seq<File>, b: seq<File>)
    requires Splits(t, a, b)
    ensures Cuttable(t, a[0].path, |a| > 1) || (b != [] && Splits(t, a[1..], b[1..]))
  {
  }

  /** A list is clean exactly if its first file cannot be cut and the others are clean. */
  lemma CleanExactly(t: Tools, a: seq<File>)
    ensures Clean(t, a) <==> a == [] || (!Cuttable(t, a[0].path, |a| > 1) && Clean(t, a[1..]))
  {
    hide Splits, Cuttable;
    NothingSplits(t);
    if a != [] {
      if Cuttable(t, a[0].path, |a| > 1) {
        var b := CuttableSplits(t, a);
      }
      forall b: seq<File> | Splits(t, a[1..], b)
        ensures Splits(t, a, [a[0]] + b)
      {
        SplitsTail(t, a, b);
      }
      forall b: seq<File> | Splits(t, a, b)
        ensures Cuttable(t, a[0].path, |a| > 1) || !Clean(t, a[1..])
      {
        SplitsCases(t, a, b);
      }
    }
  }

  lemma NothingSplits(t: Tools)
    ensures Clean(t, [])
  {
  }

  lemma SplitsBehind(t: Tools, f: File, a: seq<File>, b: seq<File>)
    requires Splits(t, a, b)
    ensures Splits(t, [f] + a, [f] + b)
  {
    assert ([f] + a)[1..] == a && ([f] + b)[1..] == b;
  }

  lemma {:induction false} ReachesBehind(t: Tools, f: File, a: seq<File>, b: seq<File>, n: nat)
    requires Reaches(t, a, b, n)
    ensures Reaches(t, [f] + a, [f] + b, n)
    decreases n
  {
    hide Splits;
    if n > 0 {
      var m: seq<File> :| Splits(t, a, m) && Reaches(t, m, b, n - 1);
      SplitsBehind(t, f, a, m);
      ReachesBehind(t, f, m, b, n - 1);
    }
  }

  /** Every list can be cut until it is clean. */
  lemma {:induction false} ReachesClean(t: Tools, a: seq<File>) returns (z: seq<File>, n: nat)
    ensures Clean(t, z) && Reaches(t, a, z, n)
    decreases |Encoding(t, a)|, if a == [] then 0 else |a[0].path|
  {
    hide Splits, Clean, Cuttable;
    CleanExactly(t, a);
    if a == [] {
      z, n := [], 0;
    } else if Cuttable(t, a[0].path, |a| > 1) {
      var b := CuttableSplits(t, a);
      SplitsEncoding(t, a, b);
      var m;
      z, m := ReachesClean(t, b);
      n := m + 1;
    } else {
      var rest;
      rest, n := ReachesClean(t, a[1..]);
      z := [a[0]] + rest;
      ReachesBehind(t, a[0], a[1..], rest, n);
      assert a == [a[0]] + a[1..];
      ReachesEncoding(t, a[1..], rest, n);
      EmptyEncoding(t, a[1..]);
      EmptyEncoding(t, rest);
      CleanExactly(t, z);
      assert z[1..] == rest;
    }
  }

  lemma EmptyEncoding(t: Tools, a: seq<File>)
    ensures Encoding(t, a) == "" <==> a == []
  {
  }

  // ---- clean lists are determined by their text ----

  /** Of two different starts of one text, each before a line feed, the longer goes on as the shorter does. */
  lemma LongerGoesOn(p: string, d: string, e: string, q: string, r: string)
    requires '\n' !in d && p + "\n" + (d + "\n" + e) == q + "\n" + r && |p| < |q|
    ensures p + "\n" + d + "\n" <= q || (p + "\n" + d == q && e == r)
  {
    LongerStart(p, d, e, q, r);
    if |q| > |p| + 1 + |d| {
      NextFeed(p, d, e, q, r);
    } else {
      WholePath(p, d, e, q, r);
    }
  }

  /** Of two lists with one text and different first paths the one with the longer can be cut there. */
  lemma CutsLonger(t: Tools, a: seq<File>, b: seq<File>)
    requires CollisionFree(t) && a != [] && b != [] && Encoding(t, a) == Encoding(t, b) && |a[0].path| < |b[0].path|
    ensures Cuttable(t, b[0].path, |b| > 1)
  {
    var d1, d2 := t.digest(a[0].content), t.digest(b[0].content);
    var e1, e2 := Encoding(t, a[1..]), Encoding(t, b[1..]);
    DigestChars(t, a[0].content);
    DigestChars(t, b[0].content);
    LongerGoesOn(a[0].path, d1, e1, b[0].path, d2 + "\n" + e2);
    hide CollisionFree, Cuttable;
    NotOneLine(t, a[1..], d2);
    LastEncoding(t, b, d2);
    hide Encoding;
    IsCuttable(t, a[0].path, a[0].content, b[0].path, |b| > 1);
  }

  lemma LastEncoding(t: Tools, b: seq<File>, d: string)
    requires b != []
    ensures |b| == 1 ==> d + "\n" + Encoding(t, b[1..]) == d + "\n"
  {
    EmptyEncoding(t, b[1..]);
  }

  lemma IsCuttable(t: Tools, x: string, c: string, path: string, more: bool)
    requires x + "\n" + t.digest(c) + "\n" <= path || (more && x + "\n" + t.digest(c) == path)
    ensures Cuttable(t, path, more)
  {
    assert Cut(t, x, c) + "\n" <= path || (more && Cut(t, x, c) == path);
  }

  lemma NextFeed(p: string, d: string, e: string, q: string, r: string)
    requires p + "\n" + (d + "\n" + e) == q + "\n" + r && p + "\n" + d <= q && |q| > |p| + 1 + |d|
    ensures p + "\n" + d + "\n" <= q
  {
    var x := p + "\n" + (d + "\n" + e);
    assert x[|p| + 1 + |d|] == '\n' && x[..|q|] == q;
  }

  lemma WholePath(p: string, d: string, e: string, q: string, r: string)
    requires p + "\n" + (d + "\n" + e) == q + "\n" + r && p + "\n" + d <= q && |q| <= |p| + 1 + |d|
    ensures p + "\n" + d == q && e == r
  {
    assert p + "\n" + (d + "\n" + e) == (p + "\n" + d) + "\n" + e;
    SameStart(p + "\n" + d, e, q, r);
  }

  /** A text of files is not one line. */
  lemma NotOneLine(t: Tools, a: seq<File>, d: string)
    requires '\n' !in d
    ensures Encoding(t, a) != d + "\n"
  {
    if a != [] {
      var p, e := a[0].path, t.digest(a[0].content) + "\n" + Encoding(t, a[1..]);
      hide Encoding;
      var x, y := p + "\n" + e, d + "\n";
      assert x[|p|] == '\n' && |x| > |p| + 1;
      assert |p| < |d| ==> y[|p|] == d[|p|];
    }
  }

  /** Clean lists with the same text are the same. */
  lemma {:induction false} CleanUnique(t: Tools, a: seq<File>, b: seq<File>)
    requires CollisionFree(t) && Clean(t, a) && Clean(t, b) && Encoding(t, a) == Encoding(t, b)
    ensures a == b
    decreases |a|
  {
    hide Clean, Cuttable, Encoding;
    EmptyEncoding(t, a);
    EmptyEncoding(t, b);
    if a != [] {
      CleanExactly(t, a);
      CleanExactly(t, b);
      if |a[0].path| < |b[0].path| {
        CutsLonger(t, a, b);
      } else if |b[0].path| < |a[0].path| {
        CutsLonger(t, b, a);
      } else {
        SameHeads(t, a, b);
        CleanUnique(t, a[1..], b[1..]);
        assert a == [a[0]] + a[1..] && b == [b[0]] + b[1..];
      }
    }
  }

  lemma SameHeads(t: Tools, a: seq<File>, b: seq<File>)
    requires CollisionFree(t) && a != [] && b != [] && Encoding(t, a) == Encoding(t, b) && |a[0].path| == |b[0].path|
    ensures a[0] == b[0] && Encoding(t, a[1..]) == Encoding(t, b[1..])
  {
    var d1, d2 := t.digest(a[0].content), t.digest(b[0].content);
    var e1, e2 := Encoding(t, a[1..]), Encoding(t, b[1..]);
    DigestChars(t, a[0].content);
    DigestChars(t, b[0].content);
    SameStart(a[0].path, d1 + "\n" + e1, b[0].path, d2 + "\n" + e2);
    CutAtFeed(d1, e1, d2, e2);
  }

  // ---- the exact condition ----

  /** Cut as often as possible, the two lists come to the same files. */
  ghost predicate CutAlike(t: Tools, a: seq<File>, b: seq<File>) {
    exists z: seq<File>, m, n :: Clean(t, z) && Reaches(t, a, z, m) && Reaches(t, b, z, n)
  }

  lemma TextExactly(t: Tools, a: seq<File>, b: seq<File>)
    requires CollisionFree(t)
    ensures Encoding(t, a) == Encoding(t, b) <==> CutAlike(t, a, b)
  {
    hide Clean, Reaches, Encoding, CollisionFree;
    if Encoding(t, a) == Encoding(t, b) {
      var y, m := ReachesClean(t, a);
      var z, n := ReachesClean(t, b);
      ReachesEncoding(t, a, y, m);
      ReachesEncoding(t, b, z, n);
      CleanUnique(t, y, z);
    }
    forall z: seq<File>, m, n | Clean(t, z) && Reaches(t, a, z, m) && Reaches(t, b, z, n)
      ensures Encoding(t, a) == Encoding(t, b)
    {
      ReachesEncoding(t, a, z, m);
      ReachesEncoding(t, b, z, n);
    }
  }

  /** Any two bundles have the same hash exactly if their files come to the same, cut as often as possible. */
  lemma HashExactly(t: Tools, a: seq<File>, b: seq<File>)
    requires CollisionFree(t) && IsBundle(t, a) && IsBundle(t, b)
    ensures Hash(t, BundleOf(t, a).value) == Hash(t, BundleOf(t, b).value) <==> CutAlike(t, a, b)
  {
    hide CutAlike, Encoding, BundleOf;
    TextExactly(t, a, b);
  }

  /** Files in whose paths no line feed is followed by a digest cannot be cut. */
  lemma {:induction false} NoDigestClean(t: Tools, a: seq<File>)
    requires NoFeedDigest(t, a)
    ensures Clean(t, a)
    decreases |a|
  {
    hide Clean;
    CleanExactly(t, a);
    if a != [] {
      NoDigestClean(t, a[1..]);
      CuttableDigest(t, a[0].path, |a| > 1);
    }
  }

  lemma CuttableDigest(t: Tools, path: string, more: bool)
    ensures Cuttable(t, path, more) ==> FeedDigest(t, path)
  {
    if Cuttable(t, path, more) {
      var x, c :| Cut(t, x, c) + "\n" <= path || (more && Cut(t, x, c) == path);
      assert x + "\n" + t.digest(c) <= path;
    }
  }

  /** Different lists of files are hashed alike only if in some path a line feed is followed by a digest. */
  lemma EncodingInjective(t: Tools, a: seq<File>, b: seq<File>)
    requires CollisionFree(t) && NoFeedDigest(t, a) && NoFeedDigest(t, b) && Encoding(t, a) == Encoding(t, b)
    ensures a == b
  {
    hide Clean, NoFeedDigest, Encoding, CollisionFree;
    NoDigestClean(t, a);
    NoDigestClean(t, b);
    CleanUnique(t, a, b);
  }

  lemma CleanStays(t: Tools, a: seq<File>, z: seq<File>, n: nat)
    requires Clean(t, a) && Reaches(t, a, z, n)
    ensures a == z
  {
    hide Splits;
  }

  /** Clean lists come to the same only if they are the same. */
  lemma CleanAlike(t: Tools, a: seq<File>, b: seq<File>)
    requires Clean(t, a) && Clean(t, b)
    ensures CutAlike(t, a, b) <==> a == b
  {
    hide Clean, Reaches;
    if CutAlike(t, a, b) {
      var z: seq<File>, m, n :| Clean(t, z) && Reaches(t, a, z, m) && Reaches(t, b, z, n);
      CleanStays(t, a, z, m);
      CleanStays(t, b, z, n);
    }
    if a == b {
      ReachesItself(t, a);
      assert Clean(t, a) && Reaches(t, a, a, 0) && Reaches(t, b, a, 0);
    }
  }

  lemma ReachesItself(t: Tools, a: seq<File>)
    ensures Reaches(t, a, a, 0)
  {
  }

  lemma SameClean(t: Tools, a: seq<File>, b: seq<File>)
    requires multiset(a) == multiset(b) && NoFeedDigest(t, a)
    ensures NoFeedDigest(t, b)
  {
    hide FeedDigest;
    SameFiles(a, b);
  }

  /**
   Two sets of files in whose paths no line feed is followed by a digest make bundles of the same hash
   exactly if they are the same files.
   */
  lemma HashIdentifies(t: Tools, a: seq<File>, b: seq<File>)
    requires CollisionFree(t) && BundleOf(t, a).Ok? && BundleOf(t, b).Ok? && NoFeedDigest(t, a) && NoFeedDigest(t, b)
    ensures var x, y := BundleOf(t, a).value, BundleOf(t, b).value;
            && (Hash(t, x) == Hash(t, y) <==> multiset(a) == multiset(b))
            && (Hash(t, x) == Hash(t, y) ==> x == y)
  {
    var x, y := BundleOf(t, a).value, BundleOf(t, b).value;
    Rebuilt(t, a);
    Rebuilt(t, b);
    SameClean(t, a, x.files);
    SameClean(t, b, y.files);
    if multiset(a) == multiset(b) {
      OrderIndependent(t, a, b);
    }
    hide BundleOf, NoFeedDigest, Encoding, Sorted, CutAlike, Clean, CollisionFree;
    NoDigestClean(t, x.files);
    NoDigestClean(t, y.files);
    CleanAlike(t, x.files, y.files);
    HashExactly(t, x.files, y.files);
  }
}

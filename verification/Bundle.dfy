/**
 Skill bundles: built from a set of files in whatever order, and identified by a hash
 (pkg/skills/bundle/bundle.go).

 File contents are strings; the slug of a name and the digest are functions of which only what is said
 here is known. Two bundles are compared by the files they are made of, and by the hashed text.
 */
module Bundle {
  import opened Wrappers
  import opened Text
  import Frontmatter

  datatype File = File(path: string, content: string)

  datatype SkillBundle = SkillBundle(
    skillID: string,
    manifest: Frontmatter.Manifest,
    files: seq<File>,
    body: string,
    rawFrontmatter: string)

  datatype BundleError =
    | EmptyPath
    | DuplicatePath(path: string)
    | MissingSkillMD
    | BadFrontmatter(e: Frontmatter.ParseError)

  const SKILL_MD_PATH := "SKILL.md"

  /** Slug, and the hexadecimal SHA-256. */
  datatype Tools = Tools(slug: string -> string, digest: string -> string)

  predicate HexDigit(c: char) { '0' <= c <= '9' || 'a' <= c <= 'f' }

  /** Different contents have different digests, and a digest is written in hexadecimal. */
  ghost predicate CollisionFree(t: Tools) {
    && (forall a, b :: t.digest(a) == t.digest(b) ==> a == b)
    && (forall a, i | 0 <= i < |t.digest(a)| :: HexDigit(t.digest(a)[i]))
  }

  // ---- order of paths ----

  predicate Less(a: string, b: string)
    decreases |a|
  {
    b != "" && (a == "" || a[0] < b[0] || (a[0] == b[0] && Less(a[1..], b[1..])))
  }

  lemma {:induction false} LessAsym(a: string, b: string)
    requires Less(a, b)
    ensures !Less(b, a) && a != b
    decreases |a|
  {
    if a != "" && a[0] == b[0] {
      LessAsym(a[1..], b[1..]);
    }
  }

  lemma {:induction false} LessTotal(a: string, b: string)
    requires a != b
    ensures Less(a, b) || Less(b, a)
    decreases |a|
  {
    if a != "" && b != "" && a[0] == b[0] {
      assert a == [a[0]] + a[1..] && b == [b[0]] + b[1..];
      LessTotal(a[1..], b[1..]);
    }
  }

  lemma {:induction false} LessTrans(a: string, b: string, c: string)
    requires Less(a, b) && Less(b, c)
    ensures Less(a, c)
    decreases |a|
  {
    if a != "" && a[0] == b[0] && b[0] == c[0] {
      LessTrans(a[1..], b[1..], c[1..]);
    }
  }

  predicate Sorted(files: seq<File>) { forall i, j | 0 <= i < j < |files| :: Less(files[i].path, files[j].path) }

  function Insert(f: File, files: seq<File>): seq<File>
    decreases |files|
  {
    if files == [] || Less(f.path, files[0].path) then [f] + files else [files[0]] + Insert(f, files[1..])
  }

  /** sort.Slice by path; paths are distinct, so there is one result. */
  function SortFiles(files: seq<File>): seq<File>
    decreases |files|
  {
    if files == [] then [] else Insert(files[0], SortFiles(files[1..]))
  }

  lemma LessThanAll(f: File, files: seq<File>)
    requires Sorted(files) && files != [] && Less(f.path, files[0].path)
    ensures forall i | 0 <= i < |files| :: Less(f.path, files[i].path)
  {
    hide Less;
    forall i | 0 <= i < |files|
      ensures Less(f.path, files[i].path)
    {
      if i > 0 { LessTrans(f.path, files[0].path, files[i].path); }
    }
  }

  lemma {:induction false} InsertSorted(f: File, files: seq<File>)
    requires Sorted(files) && forall i | 0 <= i < |files| :: files[i].path != f.path
    ensures Sorted(Insert(f, files)) && multiset(Insert(f, files)) == multiset([f] + files)
    decreases |files|
  {
    hide Less;
    if files == [] {
    } else if Less(f.path, files[0].path) {
      LessThanAll(f, files);
    } else {
      var rest := files[1..];
      LessTotal(f.path, files[0].path);
      InsertSorted(f, rest);
      assert files == [files[0]] + rest;
      var more := Insert(f, rest);
      forall i | 0 <= i < |more|
        ensures Less(files[0].path, more[i].path)
      {
        assert more[i] in multiset([f] + rest);
        if more[i] != f {
          var j :| 0 <= j < |rest| && rest[j] == more[i];
          assert files[j + 1] == more[i];
        }
      }
    }
  }

  predicate DistinctPaths(files: seq<File>) { forall i, j | 0 <= i < j < |files| :: files[i].path != files[j].path }

  lemma {:induction false} SortFilesSorted(files: seq<File>)
    requires DistinctPaths(files)
    ensures Sorted(SortFiles(files)) && multiset(SortFiles(files)) == multiset(files)
    decreases |files|
  {
    if files != [] {
      var f, rest := files[0], files[1..];
      SortFilesSorted(rest);
      var s := SortFiles(rest);
      forall i | 0 <= i < |s|
        ensures s[i].path != f.path
      {
        assert s[i] in multiset(rest);
        var j :| 0 <= j < |rest| && rest[j] == s[i];
        assert files[j + 1] == s[i];
      }
      InsertSorted(f, s);
      assert files == [f] + rest;
      assert multiset([f] + s) == multiset([f] + rest);
    }
  }

  lemma SortedHead(a: seq<File>, b: seq<File>)
    requires Sorted(a) && Sorted(b) && multiset(a) == multiset(b) && a != [] && b != []
    ensures a[0] == b[0]
  {
    assert a[0] in multiset(b);
    var j :| 0 <= j < |b| && b[j] == a[0];
    assert b[0] in multiset(a);
    var k :| 0 <= k < |a| && a[k] == b[0];
    if j > 0 && k > 0 {
      LessAsym(a[0].path, a[k].path);
    }
  }

  /** There is one way to sort a set of files. */
  lemma {:induction false} SortedUnique(a: seq<File>, b: seq<File>)
    requires Sorted(a) && Sorted(b) && multiset(a) == multiset(b)
    ensures a == b
    decreases |a|
  {
    assert |multiset(a)| == |multiset(b)|;
    if a != [] {
      SortedHead(a, b);
      hide Less;
      TailFiles(a);
      TailFiles(b);
      hide Sorted;
      SortedUnique(a[1..], b[1..]);
      assert a == [a[0]] + a[1..] && b == [b[0]] + b[1..];
    }
  }

  lemma TailFiles(a: seq<File>)
    requires a != []
    ensures multiset(a[1..]) == multiset(a) - multiset{a[0]}
    ensures Sorted(a) ==> Sorted(a[1..])
  {
    hide Less;
    assert a == [a[0]] + a[1..];
  }

  // ---- FromFiles ----

  function Paths(files: seq<File>): set<string> { set i | 0 <= i < |files| :: files[i].path }

  /** The first file whose path is empty or was there before. */
  function PathError(files: seq<File>): Option<BundleError>
    decreases |files|
  {
    if files == [] then None
    else
      var init, f := files[..|files| - 1], files[|files| - 1];
      if PathError(init).Some? then PathError(init)
      else if f.path == "" then Some(EmptyPath)
      else if f.path in Paths(init) then Some(DuplicatePath(f.path))
      else None
  }

  function SkillMD(files: seq<File>): Option<string>
    decreases |files|
  {
    if files == [] then None
    else
      var f := files[|files| - 1];
      if f.path == SKILL_MD_PATH then Some(f.content) else SkillMD(files[..|files| - 1])
  }

  function BundleOf(t: Tools, files: seq<File>): Result<SkillBundle, BundleError> {
    match PathError(files)
    case Some(e) => Err(e)
    case None =>
      match SkillMD(files)
      case None => Err(MissingSkillMD)
      case Some(content) =>
        match Frontmatter.ParseOf(content)
        case Err(e) => Err(BadFrontmatter(e))
        case Ok(p) => Ok(SkillBundle(t.slug(p.manifest.name), p.manifest, SortFiles(files), p.body, p.raw))
  }

  method FromFiles(t: Tools, files: seq<File>) returns (r: Result<SkillBundle, BundleError>)
    ensures r == BundleOf(t, files)
  {
    hide PathError, SkillMD, SortFiles, Frontmatter.ParseOf;
    var seen: set<string> := {};
    var skillMD: Option<string> := None;
    NoFiles();
    for i := 0 to |files|
      invariant seen == Paths(files[..i])
      invariant PathError(files[..i]) == None && skillMD == SkillMD(files[..i])
    {
      var f := files[i];
      OneMore(files, i);
      if f.path == "" || f.path in seen {
        PathErrorStays(files, i + 1);
        assert files[..|files|] == files;
        return Err(if f.path == "" then EmptyPath else DuplicatePath(f.path));
      }
      seen := seen + {f.path};
      if f.path == SKILL_MD_PATH { skillMD := Some(f.content); }
    }
    assert files[..|files|] == files;
    if skillMD.None? { return Err(MissingSkillMD); }
    var parsed := Frontmatter.ParseFrontmatter(skillMD.value);
    match parsed {
      case Err(e) => return Err(BadFrontmatter(e));
      case Ok(p) => return Ok(SkillBundle(t.slug(p.manifest.name), p.manifest, SortFiles(files), p.body, p.raw));
    }
  }

  lemma NoFiles()
    ensures forall files: seq<File> | files == [] ::
              PathError(files) == None && SkillMD(files) == None && Paths(files) == {}
  {
  }

  lemma OneMore(files: seq<File>, i: nat)
    requires i < |files|
    ensures Paths(files[..i + 1]) == Paths(files[..i]) + {files[i].path}
    ensures PathError(files[..i]) == None ==>
              PathError(files[..i + 1]) ==
              if files[i].path == "" then Some(EmptyPath)
              else if files[i].path in Paths(files[..i]) then Some(DuplicatePath(files[i].path))
              else None
    ensures SkillMD(files[..i + 1]) == if files[i].path == SKILL_MD_PATH
            then Some(files[i].content) else SkillMD(files[..i])
  {
    var more := files[..i + 1];
    assert more[..i] == files[..i] && more[i] == files[i];
    assert more == files[..i] + [files[i]];
  }

  lemma {:induction false} PathErrorStays(files: seq<File>, i: nat)
    requires i <= |files| && PathError(files[..i]).Some?
    ensures PathError(files) == PathError(files[..i])
    decreases |files| - i
  {
    if i < |files| {
      assert files[..i + 1][..i] == files[..i];
      PathErrorStays(files, i + 1);
    } else {
      assert files[..i] == files;
    }
  }

  /** One more file keeps the paths distinct exactly if its path is new. */
  lemma DistinctMore(files: seq<File>, f: File)
    ensures DistinctPaths(files + [f]) <==> DistinctPaths(files) && f.path !in Paths(files)
    ensures Paths(files + [f]) == Paths(files) + {f.path}
  {
    var all := files + [f];
    assert forall i | 0 <= i < |files| :: all[i] == files[i];
    assert all[|files|] == f;
  }

  lemma {:induction false} PathErrorExactly(files: seq<File>)
    ensures PathError(files) == None <==> DistinctPaths(files) && "" !in Paths(files)
    decreases |files|
  {
    hide DistinctPaths, Paths;
    if files == [] {
      NoPaths();
    } else {
      var init, f := files[..|files| - 1], files[|files| - 1];
      PathErrorExactly(init);
      DistinctMore(init, f);
      assert files == init + [f];
    }
  }

  lemma NoPaths()
    ensures DistinctPaths([]) && Paths([]) == {}
  {
  }

  lemma {:induction false} SkillMDExactly(files: seq<File>)
    ensures SkillMD(files).Some? <==> SKILL_MD_PATH in Paths(files)
    ensures SkillMD(files).Some? ==> File(SKILL_MD_PATH, SkillMD(files).value) in files
    decreases |files|
  {
    if files != [] {
      var n := |files| - 1;
      SkillMDExactly(files[..n]);
      assert files == files[..n] + [files[n]];
      assert Paths(files) == Paths(files[..n]) + {files[n].path};
    }
  }

  lemma SameFiles(a: seq<File>, b: seq<File>)
    requires multiset(a) == multiset(b)
    ensures forall i | 0 <= i < |a| :: a[i] in b
    ensures forall i | 0 <= i < |b| :: b[i] in a
  {
    forall i | 0 <= i < |a|
      ensures a[i] in b
    {
      assert a[i] in multiset(b);
    }
    forall i | 0 <= i < |b|
      ensures b[i] in a
    {
      assert b[i] in multiset(a);
    }
  }

  lemma SamePaths(a: seq<File>, b: seq<File>)
    requires multiset(a) == multiset(b)
    ensures Paths(a) == Paths(b)
  {
    SameFiles(a, b);
    assert forall i | 0 <= i < |a| :: a[i] in b && a[i].path in Paths(b);
    assert forall i | 0 <= i < |b| :: b[i] in a && b[i].path in Paths(a);
  }

  /** Rearranging files with distinct paths keeps the paths distinct. */
  lemma {:induction false} SameDistinct(a: seq<File>, b: seq<File>)
    requires multiset(a) == multiset(b) && DistinctPaths(a)
    ensures DistinctPaths(b)
  {
    SameFiles(a, b);
    forall i, j | 0 <= i < j < |b|
      ensures b[i].path != b[j].path
    {
      if b[i].path == b[j].path {
        assert b[i] in a && b[j] in a;
        var k :| 0 <= k < |a| && a[k] == b[i];
        var l :| 0 <= l < |a| && a[l] == b[j];
        assert k == l;
        Twice(b, i, j);
        Once(a, k);
      }
    }
  }

  lemma Twice(b: seq<File>, i: nat, j: nat)
    requires i < j < |b| && b[i] == b[j]
    ensures multiset(b)[b[i]] >= 2
  {
    assert b == b[..i] + [b[i]] + b[i + 1..j] + [b[j]] + b[j + 1..];
  }

  lemma Once(a: seq<File>, k: nat)
    requires k < |a| && DistinctPaths(a)
    ensures multiset(a)[a[k]] == 1
  {
    var after := a[k + 1..];
    assert a == a[..k] + [a[k]] + after;
    assert forall i | 0 <= i < |after| :: after[i] == a[k + 1 + i];
    assert a[k] !in a[..k] && a[k] !in after;
  }

  /**
   FromFiles does not depend on the order of the files: any rearrangement gives the same bundle, or
   fails as well.
   */
  lemma OrderIndependent(t: Tools, a: seq<File>, b: seq<File>)
    requires multiset(a) == multiset(b)
    ensures BundleOf(t, a).Ok? <==> BundleOf(t, b).Ok?
    ensures BundleOf(t, a).Ok? ==> BundleOf(t, a) == BundleOf(t, b)
  {
    hide Frontmatter.ParseOf, PathError, SkillMD, SortFiles, Sorted, DistinctPaths, Paths;
    PathErrorExactly(a);
    PathErrorExactly(b);
    SamePaths(a, b);
    if DistinctPaths(a) { SameDistinct(a, b); }
    if DistinctPaths(b) { SameDistinct(b, a); }
    if PathError(a) == None {
      SameSkillMD(a, b);
      SortFilesSorted(a);
      SortFilesSorted(b);
      SortedUnique(SortFiles(a), SortFiles(b));
    }
  }

  lemma SameSkillMD(a: seq<File>, b: seq<File>)
    requires multiset(a) == multiset(b) && DistinctPaths(a) && DistinctPaths(b)
    ensures SkillMD(a) == SkillMD(b)
  {
    SamePaths(a, b);
    SameFiles(a, b);
    SkillMDExactly(a);
    SkillMDExactly(b);
    if SkillMD(a).Some? {
      var f, g := File(SKILL_MD_PATH, SkillMD(a).value), File(SKILL_MD_PATH, SkillMD(b).value);
      assert f in a && g in a;
      var i :| 0 <= i < |a| && a[i] == f;
      var j :| 0 <= j < |a| && a[j] == g;
      assert i == j;
    }
  }

  /** A bundle's own files give the bundle again. */
  lemma Rebuilt(t: Tools, files: seq<File>)
    requires BundleOf(t, files).Ok?
    ensures var b := BundleOf(t, files).value;
            BundleOf(t, b.files) == Ok(b) && multiset(b.files) == multiset(files) && Sorted(b.files)
  {
    PathErrorExactly(files);
    SortFilesSorted(files);
    OrderIndependent(t, files, SortFiles(files));
  }

  // ---- the hash ----

  /** What the hash is taken over. */
  function Encoding(t: Tools, files: seq<File>): string
    decreases |files|
  {
    if files == [] then ""
    else files[0].path + "\n" + (t.digest(files[0].content) + "\n" + Encoding(t, files[1..]))
  }

  function Hash(t: Tools, b: SkillBundle): string { t.digest(Encoding(t, b.files)) }

  /** A path in which a line feed is followed by a digest. */
  ghost predicate FeedDigest(t: Tools, path: string) { exists x: string, c: string :: x + "\n" + t.digest(c) <= path }

  ghost predicate NoFeedDigest(t: Tools, files: seq<File>) {
    forall i | 0 <= i < |files| :: !FeedDigest(t, files[i].path)
  }

  predicate OneLinePaths(files: seq<File>) { forall i | 0 <= i < |files| :: '\n' !in files[i].path }

  lemma OneLineNoDigest(t: Tools, files: seq<File>)
    requires OneLinePaths(files)
    ensures NoFeedDigest(t, files)
  {
    forall i | 0 <= i < |files|
      ensures !FeedDigest(t, files[i].path)
    {
      FeedIn(t, files[i].path);
    }
  }

  lemma FeedIn(t: Tools, path: string)
    ensures FeedDigest(t, path) ==> '\n' in path
  {
    if FeedDigest(t, path) {
      var x: string, c: string :| x + "\n" + t.digest(c) <= path;
      assert path[|x|] == (x + "\n" + t.digest(c))[|x|] == '\n';
    }
  }

  lemma DigestChars(t: Tools, c: string)
    requires CollisionFree(t)
    ensures '\n' !in t.digest(c) && '/' !in t.digest(c) && '\\' !in t.digest(c) && '\0' !in t.digest(c)
  {
  }

  /** A string up to its first line feed. */
  lemma CutAtFeed(a: string, r: string, b: string, s: string)
    requires '\n' !in a && '\n' !in b && a + "\n" + r == b + "\n" + s
    ensures a == b && r == s
  {
    IndexOfCut(a, '\n', r);
    IndexOfCut(b, '\n', s);
    var x := a + "\n" + r;
    assert x[..|a|] == a && x[|a| + 1..] == r && (b + "\n" + s)[..|b|] == b && (b + "\n" + s)[|b| + 1..] == s;
  }

  /**
   Of two different starts of one text, each followed by a line feed, the longer goes on with what
   follows the shorter.
   */
  lemma LongerStart(a: string, d: string, e: string, b: string, r: string)
    requires '\n' !in d && a + "\n" + (d + "\n" + e) == b + "\n" + r && |a| < |b|
    ensures a + "\n" + d <= b
  {
    var x := a + "\n" + (d + "\n" + e);
    assert x[|b|] == '\n' && x[..|b|] == b;
    assert forall i | 0 <= i < |d| :: x[|a| + 1 + i] == d[i];
    assert |b| >= |a| + 1 + |d|;
    assert x[..|a| + 1 + |d|] == a + "\n" + d;
  }

  lemma SameStart(a: string, r: string, b: string, s: string)
    requires a + "\n" + r == b + "\n" + s && |a| == |b|
    ensures a == b && r == s
  {
    var x := a + "\n" + r;
    assert x[..|a|] == a && x[|a| + 1..] == r && (b + "\n" + s)[..|b|] == b && (b + "\n" + s)[|b| + 1..] == s;
  }

  // ---- when two bundles have one hash ----

  /** A file whose path holds a line feed, a digest and another line feed, and the two files it can be taken for. */
  function Joined(t: Tools, x: string, c: string, y: string, d: string): File {
    File(x + "\n" + t.digest(c) + "\n" + y, d)
  }

  lemma {:induction false} EncodingAppend(t: Tools, a: seq<File>, b: seq<File>)
    ensures Encoding(t, a + b) == Encoding(t, a) + Encoding(t, b)
    decreases |a|
  {
    if a == [] {
      assert a + b == b;
    } else {
      EncodingAppend(t, a[1..], b);
      assert (a + b)[1..] == a[1..] + b;
      Regroup(a[0].path, t.digest(a[0].content), Encoding(t, a[1..]), Encoding(t, b));
    }
  }

  lemma Regroup(p: string, d: string, e: string, f: string)
    ensures p + "\n" + (d + "\n" + (e + f)) == p + "\n" + (d + "\n" + e) + f
  {
  }

  /** In the hashed text the file and the two files are the same. */
  lemma JoinedEncoding(t: Tools, x: string, c: string, y: string, d: string)
    ensures Encoding(t, [Joined(t, x, c, y, d)]) == Encoding(t, [File(x, c), File(y, d)])
  {
    var one, two := [Joined(t, x, c, y, d)], [File(x, c), File(y, d)];
    assert one[1..] == [] && two[1..] == [File(y, d)] && two[1..][1..] == [];
    assert Encoding(t, []) == "";
    assert Encoding(t, one) == (x + "\n" + t.digest(c) + "\n" + y) + "\n" + (t.digest(d) + "\n" + "");
    assert Encoding(t, two[1..]) == y + "\n" + (t.digest(d) + "\n" + "");
    assert Encoding(t, two) == x + "\n" + (t.digest(c) + "\n" + Encoding(t, two[1..]));
  }

  /** The files of a bundle, in order. */
  ghost predicate IsBundle(t: Tools, files: seq<File>) {
    BundleOf(t, files).Ok? && BundleOf(t, files).value.files == files
  }

  lemma IsBundleExactly(t: Tools, files: seq<File>)
    ensures IsBundle(t, files) <==>
            && Sorted(files) && "" !in Paths(files) && SKILL_MD_PATH in Paths(files)
            && SkillMD(files).Some? && Frontmatter.ParseOf(SkillMD(files).value).Ok?
  {
    PathErrorExactly(files);
    SkillMDExactly(files);
    if Sorted(files) {
      SortedDistinct(files);
      SortFilesSorted(files);
      SortedUnique(files, SortFiles(files));
    }
    if IsBundle(t, files) {
      Rebuilt(t, files);
    }
  }

  lemma SortedDistinct(files: seq<File>)
    requires Sorted(files)
    ensures DistinctPaths(files)
  {
    forall i, j | 0 <= i < j < |files|
      ensures files[i].path != files[j].path
    {
      LessAsym(files[i].path, files[j].path);
    }
  }

  /**
   A bundle with a path of that form has the same hash as the files with that one split in two; these
   are a bundle, and another one, exactly if they are in order and the first part of the path is not
   empty.
   */
  lemma SplitCollides(t: Tools, before: seq<File>, x: string, c: string, y: string, d: string, after: seq<File>)
    requires IsBundle(t, before + [Joined(t, x, c, y, d)] + after)
    ensures var one := before + [Joined(t, x, c, y, d)] + after;
            var two := before + [File(x, c), File(y, d)] + after;
            && Encoding(t, one) == Encoding(t, two) && one != two
            && (IsBundle(t, two) <==> Sorted(two) && x != "")
            && (IsBundle(t, two) ==>
                  BundleOf(t, one).value != BundleOf(t, two).value
                  && Hash(t, BundleOf(t, one).value) == Hash(t, BundleOf(t, two).value))
  {
    var j := Joined(t, x, c, y, d);
    var one, two := before + [j] + after, before + [File(x, c), File(y, d)] + after;
    JoinedEncoding(t, x, c, y, d);
    EncodingAppend(t, before + [j], after);
    EncodingAppend(t, before, [j]);
    EncodingAppend(t, before + [File(x, c), File(y, d)], after);
    EncodingAppend(t, before, [File(x, c), File(y, d)]);
    assert |one| + 1 == |two|;
    hide Encoding, Joined, BundleOf, Sorted, SkillMD, Paths, IsBundle, Frontmatter.ParseOf;
    IsBundleExactly(t, one);
    IsBundleExactly(t, two);
    SplitPaths(t, before, x, c, y, d, after);
    assert IsBundle(t, two) ==> Sorted(two) && x != "";
    if Sorted(two) && x != "" {
      SplitSkillMD(t, before, x, c, y, d, after);
    }
    BundleFiles(t, one);
    BundleFiles(t, two);
  }

  lemma BundleFiles(t: Tools, files: seq<File>)
    ensures IsBundle(t, files) ==> BundleOf(t, files).Ok? && BundleOf(t, files).value.files == files
  {
    hide BundleOf;
  }

  lemma PathsAppend(a: seq<File>, b: seq<File>)
    ensures Paths(a + b) == Paths(a) + Paths(b)
  {
    var all := a + b;
    assert forall i | 0 <= i < |a| :: all[i] == a[i];
    assert forall i | 0 <= i < |b| :: all[|a| + i] == b[i];
  }

  lemma SplitPaths(t: Tools, before: seq<File>, x: string, c: string, y: string, d: string, after: seq<File>)
    requires "" !in Paths(before + [Joined(t, x, c, y, d)] + after)
    requires SKILL_MD_PATH in Paths(before + [Joined(t, x, c, y, d)] + after)
    ensures var two := before + [File(x, c), File(y, d)] + after;
            && SKILL_MD_PATH in Paths(two)
            && ("" in Paths(two) <==> x == "" || y == "")
            && (Sorted(two) ==> y != "")
  {
    var j := Joined(t, x, c, y, d);
    var pair := [File(x, c), File(y, d)];
    JoinedPath(t, x, c, y, d);
    if Sorted(before + pair + after) { SecondPath(before, File(x, c), File(y, d), after); }
    PathsAppend(before + [j], after);
    PathsAppend(before, [j]);
    PathsAppend(before + pair, after);
    PathsAppend(before, pair);
    hide Joined, Sorted;
    assert Paths([j]) == {j.path} by { assert [j][0] == j; }
    assert Paths(pair) == {x, y} by { assert pair[0].path == x && pair[1].path == y; }
  }

  lemma JoinedPath(t: Tools, x: string, c: string, y: string, d: string)
    ensures Joined(t, x, c, y, d).path != SKILL_MD_PATH && Joined(t, x, c, y, d).path != ""
  {
    assert Joined(t, x, c, y, d).path[|x|] == '\n';
    assert '\n' !in SKILL_MD_PATH;
  }

  lemma SecondPath(before: seq<File>, f: File, g: File, after: seq<File>)
    requires Sorted(before + [f, g] + after)
    ensures g.path != ""
  {
    var all := before + [f, g] + after;
    assert all[|before|] == f && all[|before| + 1] == g;
    assert Less(all[|before|].path, all[|before| + 1].path);
  }

  lemma SplitSkillMD(t: Tools, before: seq<File>, x: string, c: string, y: string, d: string, after: seq<File>)
    requires Sorted(before + [Joined(t, x, c, y, d)] + after) && Sorted(before + [File(x, c), File(y, d)] + after)
    requires SKILL_MD_PATH in Paths(before + [Joined(t, x, c, y, d)] + after)
    ensures SkillMD(before + [File(x, c), File(y, d)] + after) == SkillMD(before + [Joined(t, x, c, y, d)] + after)
  {
    var j := Joined(t, x, c, y, d);
    var one, two := before + [j] + after, before + [File(x, c), File(y, d)] + after;
    var n := |before|;
    JoinedPath(t, x, c, y, d);
    SkillMDExactly(one);
    SortedDistinct(two);
    hide Sorted, Joined;
    var f := File(SKILL_MD_PATH, SkillMD(one).value);
    var i :| 0 <= i < |one| && one[i] == f;
    assert i != n;
    assert two[if i < n then i else i + 1] == f;
    UniqueSkillMD(two, if i < n then i else i + 1);
  }

  lemma UniqueSkillMD(files: seq<File>, i: nat)
    requires DistinctPaths(files) && i < |files| && files[i].path == SKILL_MD_PATH
    ensures SkillMD(files) == Some(files[i].content)
  {
    SkillMDExactly(files);
    assert files[i].path in Paths(files);
    var f := File(SKILL_MD_PATH, SkillMD(files).value);
    var k :| 0 <= k < |files| && files[k] == f;
    assert k == i;
  }

  // ---- such bundles exist, with paths that are let through ----

  /** NormalizePath's checks: no NUL or backslash, and no empty, "." or ".." segment. */
  predicate NormalPath(p: string) {
    '\0' !in p && '\\' !in p && forall i | 0 <= i < |Segments(p)| :: GoodSegment(Segments(p)[i])
  }

  predicate GoodSegment(s: string) { s != "" && s != "." && s != ".." }

  function Segments(p: string): (r: seq<string>)
    ensures r != []
    decreases |p|
  {
    var i := IndexOf(p, '/');
    if i < 0 then [p] else [p[..i]] + Segments(p[i + 1..])
  }

  predicate GoodSegments(p: string) { forall i | 0 <= i < |Segments(p)| :: GoodSegment(Segments(p)[i]) }

  lemma GoodCons(w: string, rest: string)
    requires '/' !in w && GoodSegment(w) && GoodSegments(rest)
    ensures GoodSegments(w + "/" + rest)
  {
    IndexOfCut(w, '/', rest);
    assert (w + "/" + rest)[..|w|] == w && (w + "/" + rest)[|w| + 1..] == rest;
    assert Segments(w + "/" + rest) == [w] + Segments(rest);
  }

  lemma GoodUncons(p: string)
    requires GoodSegments(p)
    ensures var i := IndexOf(p, '/');
            if i < 0 then GoodSegment(p) else GoodSegment(p[..i]) && GoodSegments(p[i + 1..])
  {
    var i := IndexOf(p, '/');
    if i < 0 {
      assert Segments(p)[0] == p;
    } else {
      var rest := Segments(p[i + 1..]);
      assert Segments(p)[0] == p[..i];
      assert forall k | 0 <= k < |rest| :: rest[k] == Segments(p)[k + 1];
    }
  }

  lemma GoodJoinFlat(w: string, b: string)
    requires GoodSegments(b) && '/' !in w && '\n' in w
    ensures GoodSegments(w + b)
  {
    var k := IndexOf(b, '/');
    GoodUncons(b);
    hide GoodSegments, GoodSegment;
    if k < 0 {
      NoSlash(w + b);
    } else {
      FeedSegment(w + b[..k]);
      GoodCons(w + b[..k], b[k + 1..]);
      assert w + b == w + b[..k] + "/" + b[k + 1..];
    }
  }

  /** Two normal paths joined by a text without slashes that has a line feed are a normal path. */
  lemma {:induction false} GoodJoin(a: string, z: string, b: string)
    requires GoodSegments(a) && GoodSegments(b) && '/' !in z && '\n' in z
    ensures GoodSegments(a + z + b)
    decreases |a|
  {
    var i := IndexOf(a, '/');
    GoodUncons(a);
    hide GoodSegments, GoodSegment;
    if i >= 0 {
      var w, rest := a[..i], a[i + 1..];
      GoodJoin(rest, z, b);
      assert a + z + b == w + "/" + (rest + z + b);
      GoodCons(w, rest + z + b);
    } else {
      GoodJoinFlat(a + z, b);
    }
  }

  lemma FeedSegment(w: string)
    requires '\n' in w
    ensures GoodSegment(w)
  {
  }

  lemma NoSlash(w: string)
    requires '/' !in w && '\n' in w
    ensures GoodSegments(w)
  {
    assert IndexOf(w, '/') < 0;
    FeedSegment(w);
  }

  lemma {:induction false} LessExtend(u: string, a: string, z: string)
    requires Less(u, a)
    ensures Less(u, a + z)
    decreases |u|
  {
    if u != "" && u[0] == a[0] {
      LessExtend(u[1..], a[1..], z);
      assert (a + z)[1..] == a[1..] + z;
    }
  }

  /**
   Two bundles with paths that NormalizePath lets through and the same hash: for every SKILL.md, and
   any two further files that follow it in order.
   */
  lemma FeedInPathCollides(t: Tools, m: string, a: string, c: string, b: string, d: string)
    requires CollisionFree(t) && Frontmatter.ParseOf(m).Ok?
    requires NormalPath(a) && NormalPath(b) && Less(SKILL_MD_PATH, a) && Less(a, b)
    ensures var one := [File(SKILL_MD_PATH, m), Joined(t, a, c, b, d)];
            var two := [File(SKILL_MD_PATH, m), File(a, c), File(b, d)];
            && (forall i | 0 <= i < |one| :: NormalPath(one[i].path))
            && (forall i | 0 <= i < |two| :: NormalPath(two[i].path))
            && IsBundle(t, one) && IsBundle(t, two)
            && BundleOf(t, one).value != BundleOf(t, two).value
            && Hash(t, BundleOf(t, one).value) == Hash(t, BundleOf(t, two).value)
  {
    hide *;
    var first := [File(SKILL_MD_PATH, m)];
    var one, two := [File(SKILL_MD_PATH, m), Joined(t, a, c, b, d)], [File(SKILL_MD_PATH, m), File(a, c), File(b, d)];
    JoinedNormal(t, a, c, b, d);
    SkillPathNormal();
    TwoInOrder(t, m, a, c, b, d);
    assert first + [Joined(t, a, c, b, d)] + [] == one;
    assert first + [File(a, c), File(b, d)] + [] == two;
    SplitCollides(t, first, a, c, b, d, []);
    NotEmpty(a);
  }

  lemma NotEmpty(a: string)
    requires NormalPath(a)
    ensures a != ""
  {
    assert GoodSegment(Segments(a)[0]);
  }

  lemma JoinedNormal(t: Tools, a: string, c: string, b: string, d: string)
    requires CollisionFree(t) && NormalPath(a) && NormalPath(b)
    ensures NormalPath(Joined(t, a, c, b, d).path)
  {
    var z := "\n" + t.digest(c) + "\n";
    DigestChars(t, c);
    assert z[0] == '\n' && Joined(t, a, c, b, d).path == a + z + b;
    hide Segments;
    GoodJoin(a, z, b);
  }

  lemma PairSorted(f: File, g: File)
    requires Less(f.path, g.path)
    ensures Sorted([f, g])
  {
    hide Less;
  }

  lemma TripleSorted(f: File, g: File, h: File)
    requires Less(f.path, g.path) && Less(g.path, h.path)
    ensures Sorted([f, g, h])
  {
    LessTrans(f.path, g.path, h.path);
    hide Less;
  }

  lemma PairIsBundle(t: Tools, m: string, g: File)
    requires Frontmatter.ParseOf(m).Ok? && Less(SKILL_MD_PATH, g.path) && g.path != "" && g.path != SKILL_MD_PATH
    ensures IsBundle(t, [File(SKILL_MD_PATH, m), g])
  {
    var one := [File(SKILL_MD_PATH, m), g];
    PairSorted(File(SKILL_MD_PATH, m), g);
    hide Frontmatter.ParseOf, Less, Sorted, IsBundle, SkillMD;
    SortedDistinct(one);
    UniqueSkillMD(one, 0);
    assert one[0].path in Paths(one);
    IsBundleExactly(t, one);
  }

  lemma JoinedAfter(t: Tools, a: string, c: string, b: string, d: string)
    requires Less(SKILL_MD_PATH, a)
    ensures var path := Joined(t, a, c, b, d).path;
            Less(SKILL_MD_PATH, path) && path != "" && path != SKILL_MD_PATH
  {
    var z := "\n" + t.digest(c) + "\n" + b;
    LessExtend(SKILL_MD_PATH, a, z);
    assert a + z == Joined(t, a, c, b, d).path;
    JoinedPath(t, a, c, b, d);
  }

  /** Both lists are in order; the first is a bundle. */
  lemma TwoInOrder(t: Tools, m: string, a: string, c: string, b: string, d: string)
    requires Frontmatter.ParseOf(m).Ok? && Less(SKILL_MD_PATH, a) && Less(a, b)
    ensures IsBundle(t, [File(SKILL_MD_PATH, m), Joined(t, a, c, b, d)])
    ensures Sorted([File(SKILL_MD_PATH, m), File(a, c), File(b, d)])
  {
    JoinedAfter(t, a, c, b, d);
    TripleSorted(File(SKILL_MD_PATH, m), File(a, c), File(b, d));
    hide *;
    PairIsBundle(t, m, Joined(t, a, c, b, d));
  }

  lemma SkillPathNormal()
    ensures NormalPath(SKILL_MD_PATH)
  {
    assert IndexOf(SKILL_MD_PATH, '/') < 0;
    assert Segments(SKILL_MD_PATH) == [SKILL_MD_PATH];
  }
}

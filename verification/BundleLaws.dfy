/** What a set of files is made into, or refused for, and which paths are normalized, each said of the files alone. */
module BundleLaws {
  import opened Wrappers
  import opened Text
  import opened Bundle
  import Frontmatter

  // ---- the order of paths ----

  /** The strings agree up to k, and there the first has the smaller character. */
  predicate FirstDifference(a: string, b: string, k: int) {
    0 <= k < |a| && k < |b| && a[..k] == b[..k] && a[k] < b[k]
  }

  /** Paths are ordered by their first difference, a path before its continuations. */
  lemma {:induction false} LessExactly(a: string, b: string)
    ensures Less(a, b) <==> (a <= b && a != b) || exists k :: FirstDifference(a, b, k)
    decreases |a|
  {
    if a != "" && b != "" {
      if a[0] == b[0] {
        LessExactly(a[1..], b[1..]);
        assert a == [a[0]] + a[1..] && b == [b[0]] + b[1..];
        if k :| FirstDifference(a[1..], b[1..], k) {
          assert a[..k + 1] == [a[0]] + a[1..][..k] && b[..k + 1] == [b[0]] + b[1..][..k];
          assert FirstDifference(a, b, k + 1);
        }
        if k :| FirstDifference(a, b, k) {
          assert k > 0;
          assert a[1..][..k - 1] == a[..k][1..] && b[1..][..k - 1] == b[..k][1..];
          assert FirstDifference(a[1..], b[1..], k - 1);
        }
      } else if a[0] < b[0] {
        assert FirstDifference(a, b, 0);
      } else {
        assert forall k | FirstDifference(a, b, k) :: k > 0 ==> a[..k][0] == b[..k][0];
        assert !exists k :: FirstDifference(a, b, k);
      }
    }
  }

  // ---- bundles ----

  /** The first i files have paths that are not empty and occur once. */
  ghost predicate SoundUpTo(files: seq<File>, i: nat) {
    && i <= |files|
    && (forall j | 0 <= j < i :: files[j].path != "")
    && (forall j, k | 0 <= j < k < i :: files[j].path != files[k].path)
  }

  /** File i is the first to repeat a path or to have none. */
  ghost predicate Offends(files: seq<File>, i: nat, e: BundleError) {
    && i < |files| && SoundUpTo(files, i)
    && match e
       case EmptyPath => files[i].path == ""
       case DuplicatePath(p) => files[i].path == p != "" && exists j | 0 <= j < i :: files[j].path == p
       case _ => false
  }

  lemma {:induction false} PathErrorOffends(files: seq<File>) returns (i: nat)
    ensures PathError(files).Some? ==> Offends(files, i, PathError(files).value)
    ensures PathError(files).None? ==> SoundUpTo(files, |files|)
    decreases |files|
  {
    i := 0;
    if files != [] {
      var n := |files| - 1;
      var init, f := files[..n], files[n];
      i := PathErrorOffends(init);
      assert files == init + [f];
      if PathError(init).Some? {
        StillOffends(init, f, i, PathError(init).value);
      } else {
        hide PathError;
        i := n;
        StillSound(init, f);
        PathErrorLast(files);
        if PathError(files).Some? {
          LastOffends(init, f);
        } else {
          assert forall j | 0 <= j < n :: init[j].path in Paths(init) && files[j] == init[j];
        }
      }
    }
  }

  lemma PathErrorLast(files: seq<File>)
    requires files != [] && PathError(files[..|files| - 1]).None?
    ensures var init, f := files[..|files| - 1], files[|files| - 1];
            PathError(files) ==
            if f.path == "" then Some(EmptyPath)
            else if f.path in Paths(init) then Some(DuplicatePath(f.path))
            else None
  {
  }

  lemma StillSound(init: seq<File>, f: File)
    requires SoundUpTo(init, |init|)
    ensures SoundUpTo(init + [f], |init|)
  {
    assert forall j | 0 <= j < |init| :: (init + [f])[j] == init[j];
  }

  lemma LastOffends(init: seq<File>, f: File)
    requires SoundUpTo(init + [f], |init|) && (f.path == "" || f.path in Paths(init))
    ensures Offends(init + [f], |init|, if f.path == "" then EmptyPath else DuplicatePath(f.path))
  {
    if f.path != "" {
      var j :| 0 <= j < |init| && init[j].path == f.path;
      assert (init + [f])[j].path == f.path;
    }
  }

  lemma StillOffends(init: seq<File>, f: File, i: nat, e: BundleError)
    requires Offends(init, i, e)
    ensures Offends(init + [f], i, e)
  {
    var files := init + [f];
    assert forall j | 0 <= j <= i :: files[j] == init[j];
    if e.DuplicatePath? {
      var j :| 0 <= j < i && init[j].path == e.path;
      assert files[j].path == e.path;
    }
  }

  /** The files have a SKILL.md with this content. */
  ghost predicate HasSkillMD(files: seq<File>, content: string) { File("SKILL.md", content) in files }

  /** The bundle is read off SKILL.md, and its files are the given ones in the order of their paths. */
  ghost predicate MadeOf(t: Tools, files: seq<File>, p: Frontmatter.Parsed, b: SkillBundle) {
    && b.skillID == t.slug(p.manifest.name) && b.manifest == p.manifest
    && b.body == p.body && b.rawFrontmatter == p.raw
    && multiset(b.files) == multiset(files)
    && forall i, j | 0 <= i < j < |b.files| :: Less(b.files[i].path, b.files[j].path)
  }

  /**
   Files become a bundle exactly if their paths are sound and there is a SKILL.md that parses; they are
   refused for the first unsound path, for a missing SKILL.md, or for what is wrong with it.
   */
  lemma BundleExactly(t: Tools, files: seq<File>)
    ensures match BundleOf(t, files)
            case Ok(b) =>
              && SoundUpTo(files, |files|)
              && exists content :: HasSkillMD(files, content) && Frontmatter.ParseOf(content).Ok?
                   && MadeOf(t, files, Frontmatter.ParseOf(content).value, b)
            case Err(MissingSkillMD) => SoundUpTo(files, |files|) && forall content :: !HasSkillMD(files, content)
            case Err(BadFrontmatter(e)) =>
              && SoundUpTo(files, |files|)
              && exists content :: HasSkillMD(files, content) && Frontmatter.ParseOf(content) == Err(e)
            case Err(e) => exists i :: Offends(files, i, e)
  {
    hide Frontmatter.ParseOf, Less, PathError, SkillMD, SortFiles, Paths;
    var i := PathErrorOffends(files);
    SkillMDExactly(files);
    if PathError(files).None? {
      PathErrorExactly(files);
      SortFilesSorted(files);
      if SkillMD(files).Some? {
        assert HasSkillMD(files, SkillMD(files).value);
      } else {
        NoSkillMD(files);
      }
    } else {
      assert Offends(files, i, PathError(files).value);
    }
  }

  lemma NoSkillMD(files: seq<File>)
    requires SKILL_MD_PATH !in Paths(files)
    ensures forall content :: !HasSkillMD(files, content)
  {
    forall content
      ensures !HasSkillMD(files, content)
    {
      if HasSkillMD(files, content) { HasPath(files, content); }
    }
  }

  lemma HasPath(files: seq<File>, content: string)
    requires HasSkillMD(files, content)
    ensures SKILL_MD_PATH in Paths(files)
  {
    var i :| 0 <= i < |files| && files[i] == File("SKILL.md", content);
    assert files[i].path in Paths(files);
  }

  // ---- normalized paths ----

  /** The parts of a path: none has a slash. */
  predicate Parts(parts: seq<string>) { parts != [] && forall k | 0 <= k < |parts| :: '/' !in parts[k] }

  lemma JoinOne(a: string, rest: seq<string>)
    ensures Join([a], "/") == a
    ensures rest != [] ==> Join([a] + rest, "/") == a + "/" + Join(rest, "/")
  {
    assert ([a] + rest)[1..] == rest;
  }

  lemma SegmentsOne(a: string, rest: string)
    requires '/' !in a
    ensures Segments(a) == [a]
    ensures Segments(a + "/" + rest) == [a] + Segments(rest)
  {
    var p := a + "/" + rest;
    assert p == a + ['/'] + rest;
    IndexOfCut(a, '/', rest);
    assert p[..|a|] == a && p[|a| + 1..] == rest;
    assert IndexOf(a, '/') < 0;
  }

  /** Every path is its segments joined by slashes. */
  lemma {:induction false} SegmentsJoin(p: string)
    ensures Parts(Segments(p)) && Join(Segments(p), "/") == p
    decreases |p|
  {
    hide Join, Segments;
    var i := IndexOf(p, '/');
    if i < 0 {
      SegmentsOne(p, "");
      JoinOne(p, []);
    } else {
      var a, rest := p[..i], p[i + 1..];
      assert p == a + "/" + rest;
      SegmentsJoin(rest);
      SegmentsOne(a, rest);
      JoinOne(a, Segments(rest));
    }
  }

  /** And nothing else is. */
  lemma {:induction false} JoinSegments(parts: seq<string>)
    requires Parts(parts)
    ensures Segments(Join(parts, "/")) == parts
    decreases |parts|
  {
    hide Join, Segments;
    var a, rest := parts[0], parts[1..];
    assert parts == [a] + rest;
    JoinOne(a, rest);
    SegmentsOne(a, Join(rest, "/"));
    if rest == [] {
      assert parts == [a];
    } else {
      JoinSegments(rest);
    }
  }

  lemma {:induction false} JoinAppend(a: seq<string>, b: seq<string>)
    requires a != [] && b != []
    ensures Join(a + b, "/") == Join(a, "/") + "/" + Join(b, "/")
    decreases |a|
  {
    hide Join;
    var rest := a[1..];
    assert a == [a[0]] + rest && a + b == [a[0]] + (rest + b);
    JoinOne(a[0], rest);
    JoinOne(a[0], rest + b);
    if rest == [] {
      assert a == [a[0]] && rest + b == b;
    } else {
      JoinAppend(rest, b);
      assert a[0] + "/" + (Join(rest, "/") + "/" + Join(b, "/")) ==
             a[0] + "/" + Join(rest, "/") + "/" + Join(b, "/");
    }
  }

  /** The segments of two paths put together. */
  lemma SegmentsAppend(a: string, b: string)
    ensures Segments(a + "/" + b) == Segments(a) + Segments(b)
  {
    hide Join, Segments;
    SegmentsJoin(a);
    SegmentsJoin(b);
    JoinAppend(Segments(a), Segments(b));
    JoinSegments(Segments(a) + Segments(b));
  }

  /**
   A path is normalized exactly if it has no NUL and no backslash and none of its parts is empty, "." or
   "..", whichever path it is: each has one list of parts.
   */
  lemma NormalExactly(p: string, parts: seq<string>)
    requires Parts(parts) && p == Join(parts, "/")
    ensures parts == Segments(p)
    ensures NormalPath(p) <==> '\0' !in p && '\\' !in p && "" !in parts && "." !in parts && ".." !in parts
  {
    JoinSegments(parts);
    hide Segments;
    if "" in parts || "." in parts || ".." in parts {
      var k :| 0 <= k < |parts| && parts[k] in {"", ".", ".."};
      assert !GoodSegment(Segments(p)[k]);
    }
  }
}

/** What is loaded from a disk, when and from where, and which bundle of a skill the catalog names after any saves. */
module RegistryLaws {
  import opened Wrappers
  import opened Text
  import opened Bundle
  import opened BundleLaws
  import opened Registry

  // ---- the policy ----

  /** The bytes of all contents, front to back. */
  function Weight(files: seq<File>): nat
    decreases |files|
  {
    if files == [] then 0 else |Encoded(files[0].content)| + Weight(files[1..])
  }

  lemma {:induction false} TotalIsWeight(files: seq<File>)
    ensures TotalBytes(files) == Weight(files)
    decreases |files|
  {
    hide Bytes, Encoded;
    if files != [] {
      assert files == [files[0]] + files[1..];
      TotalSplit([files[0]], files[1..]);
      TotalOne(files[0]);
      BytesExactly(files[0].content);
      TotalIsWeight(files[1..]);
    }
  }

  /** The limits: the number of files, their paths and extensions, the size of each and of all. */
  ghost predicate Admits(policy: Policy, files: seq<File>) {
    && |files| <= policy.maxFiles
    && (forall i | 0 <= i < |files| ::
          && NormalPath(files[i].path) && policy.allowedExt(files[i].path)
          && |Encoded(files[i].content)| <= policy.maxFileBytes)
    && (files != [] ==> Weight(files) <= policy.maxBundleBytes)
  }

  lemma PolicyExactly(policy: Policy, files: seq<File>)
    ensures WithinPolicy(policy, files) <==> Admits(policy, files)
  {
    TotalIsWeight(files);
    forall i | 0 <= i < |files|
      ensures Bytes(files[i].content) == |Encoded(files[i].content)|
    {
      BytesExactly(files[i].content);
    }
    hide NormalPath, Bytes, Encoded, TotalBytes, Weight;
  }

  // ---- writing ----

  /** One path needs a directory in the other's place exactly if its segments go on after the other's. */
  lemma NestsExactly(a: string, b: string)
    ensures Nests(a, b) <==> Segments(a) < Segments(b)
  {
    hide Segments, Join;
    SegmentsJoin(a);
    SegmentsJoin(b);
    if Nests(a, b) {
      var rest := b[|a| + 1..];
      assert b == a + "/" + rest;
      SegmentsAppend(a, rest);
      SegmentsJoin(rest);
    }
    if Segments(a) < Segments(b) {
      var rest := Segments(b)[|Segments(a)|..];
      assert Segments(b) == Segments(a) + rest;
      JoinAppend(Segments(a), rest);
      assert b == a + "/" + Join(rest, "/");
    }
  }

  // ---- loading ----

  /** The directory of a skill's bundle: the managed one, else a loose one with a SKILL.md. */
  predicate Found(disk: Disk, skillID: string, hash: string, dir: Dir) {
    if (skillID, hash) in disk.bundles then dir == disk.bundles[(skillID, hash)]
    else skillID in disk.loose && dir == disk.loose[skillID] && "SKILL.md" in dir
  }

  /** The files of a directory, each once, in some order. */
  ghost predicate FilesIn(dir: Dir, files: seq<File>) {
    && (forall i | 0 <= i < |files| :: files[i].path in dir && dir[files[i].path] == files[i].content)
    && (forall i, j | 0 <= i < j < |files| :: files[i].path != files[j].path)
    && (forall p | p in dir :: File(p, dir[p]) in files)
  }

  /** The files are refused, or broken, or a bundle, which must have the hash. */
  ghost predicate Gives(t: Tools, policy: Policy, files: seq<File>, hash: string, r: Result<SkillBundle, LoadError>) {
    if !Admits(policy, files) then r == Err(OutOfPolicy)
    else
      match BundleOf(t, files)
      case Err(e) => r == Err(Broken(e))
      case Ok(b) => r == if t.digest(Encoding(t, b.files)) == hash then Ok(b) else Err(HashMismatch)
  }

  /**
   Loading finds the managed directory or a loose one, takes its files if the limits admit them, builds
   the bundle, and gives it exactly if its hash is the one asked for.
   */
  lemma LoadsExactly(t: Tools, policy: Policy, disk: Disk, skillID: string, hash: string, walk: Dir -> seq<string>)
      returns (dir: Dir, files: seq<File>)
    requires Walks(walk)
    ensures var r := Loaded(t, policy, disk, skillID, hash, walk);
            && (r == Err(NotFound) <==> forall d :: !Found(disk, skillID, hash, d))
            && (r != Err(NotFound) ==>
                  Found(disk, skillID, hash, dir) && FilesIn(dir, files) && Gives(t, policy, files, hash, r))
  {
    dir, files := map[], [];
    var root := RootOf(disk, skillID, hash);
    if root.None? {
      assert forall d :: !Found(disk, skillID, hash, d);
    } else {
      dir := root.value;
      assert Found(disk, skillID, hash, dir);
      assert Walk(dir, walk(dir));
      files := FilesOf(dir, walk(dir));
      WalkHas(dir, walk(dir));
      PolicyExactly(policy, files);
      hide WithinPolicy, Admits, BundleOf, Encoding;
    }
  }

  lemma WalkHas(dir: Dir, order: seq<string>)
    requires Walk(dir, order)
    ensures FilesIn(dir, FilesOf(dir, order))
  {
    forall p | p in dir
      ensures File(p, dir[p]) in FilesOf(dir, order)
    {
      var i :| 0 <= i < |order| && order[i] == p;
      assert FilesOf(dir, order)[i] == File(p, dir[p]);
    }
  }

  // ---- the catalog ----

  /** The save of bundle i succeeds: its paths do not nest, or its id and hash are there already. */
  ghost predicate Succeeds(t: Tools, bundles: seq<SkillBundle>, i: nat) {
    i < |bundles| && (NoneNests(bundles[i].files) || SavedBefore(t, bundles[..i], KeyOf(t, bundles[i])))
  }

  /** Bundle i is the last of its skill whose save succeeds. */
  ghost predicate LastOf(t: Tools, bundles: seq<SkillBundle>, id: string, i: nat) {
    && Succeeds(t, bundles, i) && bundles[i].skillID == id
    && forall j: nat | i < j < |bundles| && Succeeds(t, bundles, j) :: bundles[j].skillID != id
  }

  /** From an empty registry, after any saves, the catalog names for each skill the hash of the bundle saved last. */
  lemma {:induction false} CatalogLast(t: Tools, loose: map<string, Dir>, bundles: seq<SkillBundle>, id: string)
      returns (i: nat)
    ensures var stored := SaveAll(t, Disk(map[], map[], loose), bundles).stored;
            && (id in stored ==>
                  LastOf(t, bundles, id, i) && stored[id] == StoredSkill(id, t.digest(Encoding(t, bundles[i].files))))
            && (id !in stored ==> forall j: nat | Succeeds(t, bundles, j) :: bundles[j].skillID != id)
    decreases |bundles|
  {
    hide SaveAll, Succeeds, Saved, Encoding;
    i := 0;
    if bundles == [] {
      NothingSaved(t, loose);
    } else {
      var n := |bundles| - 1;
      var init := bundles[..n];
      i := CatalogLast(t, loose, init, id);
      forall j: nat
        ensures j < n ==> Succeeds(t, bundles, j) == Succeeds(t, init, j) && bundles[j] == init[j]
        ensures (j > n ==> !Succeeds(t, bundles, j)) && (j >= n ==> !Succeeds(t, init, j))
      {
        SucceedsBefore(t, bundles, j);
      }
      LastStored(t, loose, bundles);
      if Succeeds(t, bundles, n) && bundles[n].skillID == id { i := n; }
    }
  }

  lemma NothingSaved(t: Tools, loose: map<string, Dir>)
    ensures SaveAll(t, Disk(map[], map[], loose), []).stored == map[]
    ensures forall j: nat :: !Succeeds(t, [], j)
  {
  }

  lemma SucceedsBefore(t: Tools, bundles: seq<SkillBundle>, j: nat)
    requires bundles != []
    ensures j < |bundles| - 1 ==>
              Succeeds(t, bundles, j) == Succeeds(t, bundles[..|bundles| - 1], j)
    ensures j >= |bundles| ==> !Succeeds(t, bundles, j)
    ensures j >= |bundles| - 1 ==> !Succeeds(t, bundles[..|bundles| - 1], j)
  {
    if j < |bundles| - 1 { assert bundles[..j] == bundles[..|bundles| - 1][..j]; }
  }

  /** The last save replaces the entry of its skill exactly if it succeeds. */
  lemma LastStored(t: Tools, loose: map<string, Dir>, bundles: seq<SkillBundle>)
    requires bundles != []
    ensures var n := |bundles| - 1;
            var disk := Disk(map[], map[], loose);
            var before, b := SaveAll(t, disk, bundles[..n]).stored, bundles[n];
            SaveAll(t, disk, bundles).stored ==
            if Succeeds(t, bundles, n) then before[b.skillID := StoredSkill(b.skillID, t.digest(Encoding(t, b.files)))]
            else before
  {
    hide NoneNests, DirOf, Encoding, SavedBefore;
    var n := |bundles| - 1;
    SavesUnlessNested(t, loose, bundles[..n], bundles[n]);
  }
}

/**
 The catalog of installed skills (pkg/skills/registry/registry.go) on a file system that is a map.

 Each bundle lies in a directory named by its skill id and hash, written once; a catalog entry says
 which hash of a skill is the current one. Loading walks the directory, in whatever order, applies the
 policy, builds the bundle anew and compares the hash.
 */
module Registry {
  import opened Wrappers
  import opened Text
  import opened Bundle
  import opened HashSplits

  /** A directory's files. */
  type Dir = map<string, string>

  datatype StoredSkill = StoredSkill(skillID: string, bundleHash: string)

  /** The limits a directory is loaded under; `allowedExt` looks at a path's extension. */
  datatype Policy = Policy(maxFiles: int, maxFileBytes: int, maxBundleBytes: int, allowedExt: string -> bool)

  /** Managed bundles by skill id and hash, the catalog entries, and loose skill directories by id. */
  datatype Disk = Disk(bundles: map<(string, string), Dir>, stored: map<string, StoredSkill>, loose: map<string, Dir>)

  datatype LoadError = NotFound | OutOfPolicy | Broken(e: BundleError) | HashMismatch

  // ---- writing ----

  /** One path names a directory that the other needs: both cannot be files. */
  predicate Nests(a: string, b: string) { |a| < |b| && a <= b && b[|a|] == '/' }

  predicate NoneNests(files: seq<File>) {
    forall i, j | 0 <= i < |files| && 0 <= j < |files| :: !Nests(files[i].path, files[j].path)
  }

  function DirOf(files: seq<File>): Dir
    decreases |files|
  {
    if files == [] then map[] else DirOf(files[..|files| - 1])[files[|files| - 1].path := files[|files| - 1].content]
  }

  /** writeBundleAtomic's loop over the files of a new directory; it fails at a path that nests with an earlier one. */
  method WriteFiles(files: seq<File>) returns (dir: Option<Dir>)
    ensures dir == if NoneNests(files) then Some(DirOf(files)) else None
  {
    var d: Dir := map[];
    for i := 0 to |files|
      invariant d == DirOf(files[..i]) && NoneNests(files[..i])
    {
      assert files[..i + 1][..i] == files[..i];
      ghost var more := files[..i + 1];
      var j := 0;
      while j <= i
        invariant 0 <= j <= i + 1
        invariant forall k | 0 <= k < j :: !Nests(files[k].path, files[i].path) && !Nests(files[i].path, files[k].path)
      {
        if Nests(files[j].path, files[i].path) || Nests(files[i].path, files[j].path) {
          return None;
        }
        j := j + 1;
      }
      assert more == files[..i] + [files[i]];
      d := d[files[i].path := files[i].content];
    }
    assert files[..|files|] == files;
    return Some(d);
  }

  /** SaveSkillBundle: an existing directory is left as it is, the catalog entry is replaced. */
  function Saved(t: Tools, disk: Disk, b: SkillBundle): Option<Disk> {
    var k := (b.skillID, Hash(t, b));
    var entry := disk.stored[b.skillID := StoredSkill(b.skillID, Hash(t, b))];
    if k in disk.bundles then Some(disk.(stored := entry))
    else if !NoneNests(b.files) then None
    else Some(Disk(disk.bundles[k := DirOf(b.files)], entry, disk.loose))
  }

  // ---- reading ----

  /** The files of a directory in the order in which it was walked: `order` lists its paths. */
  function FilesOf(dir: Dir, order: seq<string>): seq<File>
    requires forall i | 0 <= i < |order| :: order[i] in dir
  {
    seq(|order|, i requires 0 <= i < |order| => File(order[i], dir[order[i]]))
  }

  ghost predicate Walk(dir: Dir, order: seq<string>) {
    && (forall i | 0 <= i < |order| :: order[i] in dir)
    && (forall i, j | 0 <= i < j < |order| :: order[i] != order[j])
    && (forall p | p in dir :: p in order)
  }

  /** Some order for every directory. */
  ghost predicate Walks(walk: Dir -> seq<string>) { forall dir :: Walk(dir, walk(dir)) }

  function TotalBytes(files: seq<File>): nat
    decreases |files|
  {
    if files == [] then 0 else TotalBytes(files[..|files| - 1]) + Bytes(files[|files| - 1].content)
  }

  predicate FileOk(policy: Policy, f: File) {
    NormalPath(f.path) && policy.allowedExt(f.path) && Bytes(f.content) <= policy.maxFileBytes
  }

  /** What collectFiles lets through. */
  predicate WithinPolicy(policy: Policy, files: seq<File>) {
    && |files| <= policy.maxFiles
    && (forall i | 0 <= i < |files| :: FileOk(policy, files[i]))
    && (files != [] ==> TotalBytes(files) <= policy.maxBundleBytes)
  }

  method CollectFiles(policy: Policy, walked: seq<File>) returns (ok: bool)
    requires policy.maxFiles >= 0
    ensures ok == WithinPolicy(policy, walked)
  {
    hide NormalPath;
    var total := 0;
    for i := 0 to |walked|
      invariant i <= policy.maxFiles && total == TotalBytes(walked[..i])
      invariant i > 0 ==> total <= policy.maxBundleBytes
      invariant forall k | 0 <= k < i :: FileOk(policy, walked[k])
    {
      assert walked[..i + 1][..i] == walked[..i];
      var f := walked[i];
      if !NormalPath(f.path) { return false; }
      if !policy.allowedExt(f.path) { return false; }
      if i >= policy.maxFiles { return false; }
      if Bytes(f.content) > policy.maxFileBytes { return false; }
      total := total + Bytes(f.content);
      if total > policy.maxBundleBytes {
        TotalGrows(walked, i + 1);
        return false;
      }
    }
    assert walked[..|walked|] == walked;
    return true;
  }

  lemma {:induction false} TotalGrows(files: seq<File>, i: nat)
    requires i <= |files|
    ensures TotalBytes(files[..i]) <= TotalBytes(files)
    decreases |files| - i
  {
    if i < |files| {
      assert files[..i + 1][..i] == files[..i];
      TotalGrows(files, i + 1);
    } else {
      assert files[..i] == files;
    }
  }

  /** BundleRoot: the managed directory, else a loose one that has a SKILL.md. */
  function RootOf(disk: Disk, skillID: string, hash: string): Option<Dir> {
    if (skillID, hash) in disk.bundles then Some(disk.bundles[(skillID, hash)])
    else if skillID in disk.loose && SKILL_MD_PATH in disk.loose[skillID] then Some(disk.loose[skillID])
    else None
  }

  /** LoadSkillBundle; `walk` gives the order in which a directory is walked. */
  ghost function Loaded(t: Tools, policy: Policy, disk: Disk, skillID: string, hash: string,
      walk: Dir -> seq<string>): Result<SkillBundle, LoadError>
    requires Walks(walk)
  {
    match RootOf(disk, skillID, hash)
    case None => Err(NotFound)
    case Some(dir) =>
      assert Walk(dir, walk(dir));
      var files := FilesOf(dir, walk(dir));
      if !WithinPolicy(policy, files) then Err(OutOfPolicy)
      else
        match BundleOf(t, files)
        case Err(e) => Err(Broken(e))
        case Ok(b) => if Hash(t, b) != hash then Err(HashMismatch) else Ok(b)
  }

  class SkillRegistry {
    var disk: Disk

    constructor (loose: map<string, Dir>)
      ensures disk == Disk(map[], map[], loose)
    {
      disk := Disk(map[], map[], loose);
    }

    method SaveSkillBundle(t: Tools, b: SkillBundle) returns (ok: bool)
      modifies this
      ensures ok == Saved(t, old(disk), b).Some?
      ensures disk == if ok then Saved(t, old(disk), b).value else old(disk)
    {
      var hash := Hash(t, b);
      if (b.skillID, hash) !in disk.bundles {
        var dir := WriteFiles(b.files);
        if dir.None? { return false; }
        disk := disk.(bundles := disk.bundles[(b.skillID, hash) := dir.value]);
      }
      disk := disk.(stored := disk.stored[b.skillID := StoredSkill(b.skillID, hash)]);
      return true;
    }

    method LoadSkillBundle(t: Tools, policy: Policy, skillID: string, hash: string, ghost walk: Dir -> seq<string>,
        order: seq<string>)
      returns (r: Result<SkillBundle, LoadError>)
      requires policy.maxFiles >= 0 && Walks(walk)
      requires RootOf(disk, skillID, hash).Some? ==> order == walk(RootOf(disk, skillID, hash).value)
      ensures r == Loaded(t, policy, disk, skillID, hash, walk)
    {
      hide WithinPolicy;
      var root := RootOf(disk, skillID, hash);
      if root.None? { return Err(NotFound); }
      assert Walk(root.value, order);
      var files := FilesOf(root.value, order);
      var ok := CollectFiles(policy, files);
      if !ok { return Err(OutOfPolicy); }
      var b := FromFiles(t, files);
      if b.Err? { return Err(Broken(b.error)); }
      if Hash(t, b.value) != hash { return Err(HashMismatch); }
      return Ok(b.value);
    }
  }

  // ---- what is saved can be loaded ----

  /** A bundle as FromFiles makes it. */
  ghost predicate Genuine(t: Tools, b: SkillBundle) { BundleOf(t, b.files) == Ok(b) }

  lemma {:induction false} DirOfHas(files: seq<File>)
    requires DistinctPaths(files)
    ensures DirOf(files).Keys == Paths(files)
    ensures forall i | 0 <= i < |files| ::
              files[i].path in DirOf(files) && DirOf(files)[files[i].path] == files[i].content
    decreases |files|
  {
    if files != [] {
      var n := |files| - 1;
      DirOfHas(files[..n]);
      assert files == files[..n] + [files[n]];
      assert Paths(files) == Paths(files[..n]) + {files[n].path};
    }
  }

  /** Lists without repetition that hold the same are rearrangements of each other. */
  lemma {:induction false} SameElements(a: seq<File>, b: seq<File>)
    requires DistinctPaths(a) && DistinctPaths(b)
    requires forall i | 0 <= i < |a| :: a[i] in b
    requires forall i | 0 <= i < |b| :: b[i] in a
    ensures multiset(a) == multiset(b)
  {
    forall f: File
      ensures multiset(a)[f] == multiset(b)[f]
    {
      if f in a {
        var i :| 0 <= i < |a| && a[i] == f;
        assert a[i] in b;
        var j :| 0 <= j < |b| && b[j] == f;
        Once(a, i);
        Once(b, j);
      }
    }
  }

  /** Walking the directory that was written gives the files, in some order. */
  lemma WalkedBack(files: seq<File>, order: seq<string>)
    requires DistinctPaths(files) && Walk(DirOf(files), order)
    ensures multiset(FilesOf(DirOf(files), order)) == multiset(files)
  {
    DirOfHas(files);
    var dir := DirOf(files);
    var back := FilesOf(dir, order);
    forall i | 0 <= i < |back|
      ensures back[i] in files
    {
      assert order[i] in Paths(files);
      var j :| 0 <= j < |files| && files[j].path == order[i];
      assert back[i] == files[j];
    }
    forall i | 0 <= i < |files|
      ensures files[i] in back
    {
      assert files[i].path in dir;
      var j :| 0 <= j < |order| && order[j] == files[i].path;
      assert back[j] == files[i];
    }
    SameElements(back, files);
  }

  lemma {:induction false} TotalSplit(a: seq<File>, b: seq<File>)
    ensures TotalBytes(a + b) == TotalBytes(a) + TotalBytes(b)
    decreases |b|
  {
    hide Bytes;
    if b == [] {
      assert a + b == a;
    } else {
      TotalSplit(a, b[..|b| - 1]);
      assert (a + b)[..|a + b| - 1] == a + b[..|b| - 1];
    }
  }

  lemma TotalOne(f: File)
    ensures TotalBytes([f]) == Bytes(f.content)
  {
    hide Bytes;
    assert [f][..0] == [];
  }

  lemma TotalWithout(b: seq<File>, j: nat)
    requires j < |b|
    ensures TotalBytes(b) == TotalBytes(b[..j] + b[j + 1..]) + Bytes(b[j].content)
  {
    hide Bytes, TotalBytes;
    TotalOne(b[j]);
    assert b == b[..j] + [b[j]] + b[j + 1..];
    TotalSplit(b[..j] + [b[j]], b[j + 1..]);
    TotalSplit(b[..j], [b[j]]);
    TotalSplit(b[..j], b[j + 1..]);
  }

  lemma FilesWithout(b: seq<File>, j: nat)
    requires j < |b|
    ensures multiset(b[..j] + b[j + 1..]) == multiset(b) - multiset{b[j]}
  {
    assert b == b[..j] + [b[j]] + b[j + 1..];
  }

  lemma {:induction false} SameTotal(a: seq<File>, b: seq<File>)
    requires multiset(a) == multiset(b)
    ensures TotalBytes(a) == TotalBytes(b)
    decreases |a|
  {
    assert |multiset(a)| == |multiset(b)|;
    if a != [] {
      var n := |a| - 1;
      assert a[n] in multiset(b);
      var j :| 0 <= j < |b| && b[j] == a[n];
      TotalWithout(a, n);
      TotalWithout(b, j);
      FilesWithout(a, n);
      FilesWithout(b, j);
      hide TotalBytes, Bytes;
      SameTotal(a[..n] + a[n + 1..], b[..j] + b[j + 1..]);
    }
  }

  /** The policy does not depend on the order of the walk. */
  lemma PolicyOrder(policy: Policy, a: seq<File>, b: seq<File>)
    requires multiset(a) == multiset(b) && WithinPolicy(policy, a)
    ensures WithinPolicy(policy, b)
  {
    SameFiles(a, b);
    SameTotal(a, b);
    assert |multiset(a)| == |multiset(b)|;
    hide FileOk, TotalBytes;
  }

  ghost predicate Installed(t: Tools, disk: Disk, k: (string, string), b: SkillBundle) {
    && Genuine(t, b) && NoneNests(b.files)
    && k == KeyOf(t, b) && k in disk.bundles && disk.bundles[k] == DirOf(b.files)
  }

  function KeyOf(t: Tools, b: SkillBundle): (string, string) { (b.skillID, Hash(t, b)) }

  /** A bundle that is installed and within policy loads as it is, in whatever order its directory is walked. */
  lemma InstalledLoads(t: Tools, policy: Policy, disk: Disk, b: SkillBundle, walk: Dir -> seq<string>)
    requires Walks(walk)
    requires Installed(t, disk, KeyOf(t, b), b) && WithinPolicy(policy, b.files)
    ensures Loaded(t, policy, disk, b.skillID, Hash(t, b), walk) == Ok(b)
  {
    var dir := DirOf(b.files);
    PathErrorExactly(b.files);
    assert Walk(dir, walk(dir));
    WalkedBack(b.files, walk(dir));
    var files := FilesOf(dir, walk(dir));
    PolicyOrder(policy, b.files, files);
    OrderIndependent(t, b.files, files);
  }

  /** What is loaded under an installed bundle's id and hash is that bundle or an error. */
  lemma InstalledOnly(t: Tools, policy: Policy, disk: Disk, b: SkillBundle, walk: Dir -> seq<string>)
    requires Walks(walk)
    requires Installed(t, disk, KeyOf(t, b), b)
    ensures var r := Loaded(t, policy, disk, b.skillID, Hash(t, b), walk); r.Ok? ==> r == Ok(b)
  {
    var dir := DirOf(b.files);
    PathErrorExactly(b.files);
    assert Walk(dir, walk(dir));
    WalkedBack(b.files, walk(dir));
    OrderIndependent(t, b.files, FilesOf(dir, walk(dir)));
  }

  function SaveAll(t: Tools, disk: Disk, bundles: seq<SkillBundle>): Disk
    decreases |bundles|
  {
    if bundles == [] then disk
    else
      var before := SaveAll(t, disk, bundles[..|bundles| - 1]);
      var after := Saved(t, before, bundles[|bundles| - 1]);
      if after.Some? then after.value else before
  }

  lemma SaveKeepsInstalled(t: Tools, disk: Disk, b: SkillBundle, k: (string, string))
    requires Saved(t, disk, b).Some? && k in disk.bundles
    ensures k in Saved(t, disk, b).value.bundles && Saved(t, disk, b).value.bundles[k] == disk.bundles[k]
  {
  }

  /** No later save changes the content of an earlier hash. */
  lemma {:induction false} WriteOnce(t: Tools, disk: Disk, bundles: seq<SkillBundle>, k: (string, string))
    requires k in disk.bundles
    ensures k in SaveAll(t, disk, bundles).bundles && SaveAll(t, disk, bundles).bundles[k] == disk.bundles[k]
    decreases |bundles|
  {
    hide Saved;
    if bundles != [] {
      var init, b := bundles[..|bundles| - 1], bundles[|bundles| - 1];
      WriteOnce(t, disk, init, k);
      if Saved(t, SaveAll(t, disk, init), b).Some? {
        SaveKeepsInstalled(t, SaveAll(t, disk, init), b, k);
      }
    }
  }

  ghost predicate AllGenuine(t: Tools, bundles: seq<SkillBundle>) {
    forall i | 0 <= i < |bundles| :: Genuine(t, bundles[i])
  }

  /** Bundle i is the first of its id and hash that can be written. */
  ghost predicate First(t: Tools, bundles: seq<SkillBundle>, i: nat) {
    && i < |bundles| && NoneNests(bundles[i].files)
    && forall j | 0 <= j < i :: NoneNests(bundles[j].files) ==> KeyOf(t, bundles[j]) != KeyOf(t, bundles[i])
  }

  /** From an empty registry a managed directory holds the first bundle of its id and hash. */
  lemma {:induction false} FirstStays(t: Tools, loose: map<string, Dir>, bundles: seq<SkillBundle>, i: nat)
    requires AllGenuine(t, bundles) && First(t, bundles, i)
    ensures Installed(t, SaveAll(t, Disk(map[], map[], loose), bundles), KeyOf(t, bundles[i]), bundles[i])
    decreases |bundles|
  {
    hide Genuine, Hash, NoneNests, DirOf;
    var n := |bundles| - 1;
    var init := bundles[..n];
    var before := SaveAll(t, Disk(map[], map[], loose), init);
    if i < n {
      assert First(t, init, i);
      FirstStays(t, loose, init, i);
    } else {
      NotYet(t, loose, init, KeyOf(t, bundles[n]));
    }
  }

  /** What no bundle was saved under is not there. */
  lemma {:induction false} NotYet(t: Tools, loose: map<string, Dir>, bundles: seq<SkillBundle>, k: (string, string))
    requires forall j | 0 <= j < |bundles| :: NoneNests(bundles[j].files) ==> KeyOf(t, bundles[j]) != k
    ensures k !in SaveAll(t, Disk(map[], map[], loose), bundles).bundles
    decreases |bundles|
  {
    hide Hash, NoneNests, DirOf;
    if bundles != [] {
      NotYet(t, loose, bundles[..|bundles| - 1], k);
    }
  }

  /** Of the bundles up to one that can be written, the first of its id and hash. */
  lemma {:induction false} FirstOf(t: Tools, bundles: seq<SkillBundle>, i: nat, n: nat) returns (j: nat)
    requires i < |bundles| && NoneNests(bundles[i].files)
    requires n <= i && forall m | 0 <= m < n :: NoneNests(bundles[m].files) ==>
             KeyOf(t, bundles[m]) != KeyOf(t, bundles[i])
    ensures j <= i && First(t, bundles, j) && KeyOf(t, bundles[j]) == KeyOf(t, bundles[i])
    decreases i - n
  {
    hide Hash, NoneNests, KeyOf;
    if NoneNests(bundles[n].files) && KeyOf(t, bundles[n]) == KeyOf(t, bundles[i]) {
      j := n;
    } else {
      j := FirstOf(t, bundles, i, n + 1);
    }
  }

  /**
   From an empty registry, after any saves: a saved bundle within policy whose paths do not nest is
   loaded back under its id and hash exactly if no different one of the same id and hash was saved
   before it.
   */
  lemma SavedLoads(t: Tools, policy: Policy, loose: map<string, Dir>, bundles: seq<SkillBundle>, i: nat,
      walk: Dir -> seq<string>)
    requires Walks(walk) && AllGenuine(t, bundles)
    requires i < |bundles| && NoneNests(bundles[i].files) && WithinPolicy(policy, bundles[i].files)
    ensures var b := bundles[i];
            Loaded(t, policy, SaveAll(t, Disk(map[], map[], loose), bundles), b.skillID, Hash(t, b), walk) == Ok(b) <==>
            forall j | 0 <= j < i && First(t, bundles, j) && KeyOf(t, bundles[j]) == KeyOf(t, b) :: bundles[j] == b
  {
    hide *;
    var j := FirstOf(t, bundles, i, 0);
    FirstStays(t, loose, bundles, j);
    var disk := SaveAll(t, Disk(map[], map[], loose), bundles);
    KeysAgree(t, bundles[j], bundles[i]);
    InstalledOnly(t, policy, disk, bundles[j], walk);
    if bundles[j] == bundles[i] {
      InstalledLoads(t, policy, disk, bundles[j], walk);
    }
    forall m | 0 <= m < i && First(t, bundles, m) && KeyOf(t, bundles[m]) == KeyOf(t, bundles[i])
      ensures m == j
    {
      FirstUnique(t, bundles, m, j);
    }
  }

  lemma KeysAgree(t: Tools, a: SkillBundle, b: SkillBundle)
    requires KeyOf(t, a) == KeyOf(t, b)
    ensures a.skillID == b.skillID && Hash(t, a) == Hash(t, b)
  {
  }

  lemma FirstUnique(t: Tools, bundles: seq<SkillBundle>, i: nat, j: nat)
    requires First(t, bundles, i) && First(t, bundles, j) && KeyOf(t, bundles[i]) == KeyOf(t, bundles[j])
    ensures i == j
  {
    hide NoneNests, KeyOf;
  }

  /**
   With a collision-free digest, and no line feed followed by a digest in a path, every saved bundle is
   loaded back.
   */
  lemma CleanLoads(t: Tools, policy: Policy, loose: map<string, Dir>, bundles: seq<SkillBundle>, i: nat,
      walk: Dir -> seq<string>)
    requires Walks(walk) && AllGenuine(t, bundles) && CollisionFree(t)
    requires forall j | 0 <= j < |bundles| :: NoFeedDigest(t, bundles[j].files)
    requires i < |bundles| && NoneNests(bundles[i].files) && WithinPolicy(policy, bundles[i].files)
    ensures Loaded(t, policy, SaveAll(t, Disk(map[], map[], loose), bundles), bundles[i].skillID, Hash(t, bundles[i]),
            walk) == Ok(bundles[i])
  {
    hide NoFeedDigest, NoneNests, WithinPolicy, Loaded, SaveAll, CollisionFree;
    forall j | 0 <= j < i && First(t, bundles, j) && KeyOf(t, bundles[j]) == KeyOf(t, bundles[i])
      ensures bundles[j] == bundles[i]
    {
      assert Genuine(t, bundles[j]) && Genuine(t, bundles[i]);
      SameKey(t, bundles[j], bundles[i]);
    }
    SavedLoads(t, policy, loose, bundles, i, walk);
  }

  /** An earlier bundle of the run that could be written has this id and hash. */
  ghost predicate SavedBefore(t: Tools, bundles: seq<SkillBundle>, k: (string, string)) {
    exists i :: 0 <= i < |bundles| && NoneNests(bundles[i].files) && KeyOf(t, bundles[i]) == k
  }

  /** After any saves the managed directories are those of the bundles that could be written. */
  lemma {:induction false} KeysSaved(t: Tools, loose: map<string, Dir>, bundles: seq<SkillBundle>, k: (string, string))
    ensures k in SaveAll(t, Disk(map[], map[], loose), bundles).bundles <==> SavedBefore(t, bundles, k)
    decreases |bundles|
  {
    hide Hash, NoneNests, DirOf, KeyOf;
    if bundles != [] {
      var n := |bundles| - 1;
      KeysSaved(t, loose, bundles[..n], k);
      SaveAdds(t, SaveAll(t, Disk(map[], map[], loose), bundles[..n]), bundles[n], k);
      if SavedBefore(t, bundles, k) {
        var i :| 0 <= i < |bundles| && NoneNests(bundles[i].files) && KeyOf(t, bundles[i]) == k;
        assert i == n || bundles[..n][i] == bundles[i];
      }
      if SavedBefore(t, bundles[..n], k) {
        var i :| 0 <= i < n && NoneNests(bundles[..n][i].files) && KeyOf(t, bundles[..n][i]) == k;
        assert bundles[i] == bundles[..n][i];
      }
    }
  }

  lemma SaveAdds(t: Tools, disk: Disk, b: SkillBundle, k: (string, string))
    ensures Saved(t, disk, b).Some? <==> KeyOf(t, b) in disk.bundles || NoneNests(b.files)
    ensures var after := Saved(t, disk, b);
            k in (if after.Some? then after.value else disk).bundles <==>
            k in disk.bundles || (NoneNests(b.files) && KeyOf(t, b) == k)
  {
    hide Hash, NoneNests, DirOf;
  }

  /**
   From an empty registry, after any saves, a save succeeds exactly if no path of the bundle nests in
   another or a bundle of its id and hash was saved before; the latter decides nothing if the digest is
   free of collisions and no path holds a line feed followed by a digest.
   */
  lemma SavesUnlessNested(t: Tools, loose: map<string, Dir>, bundles: seq<SkillBundle>, b: SkillBundle)
    ensures var disk := SaveAll(t, Disk(map[], map[], loose), bundles);
            && (Saved(t, disk, b).Some? <==> NoneNests(b.files) || SavedBefore(t, bundles, KeyOf(t, b)))
            && (CollisionFree(t) && AllGenuine(t, bundles + [b])
                && (forall i | 0 <= i < |bundles + [b]| :: NoFeedDigest(t, (bundles + [b])[i].files)) ==>
                  (Saved(t, disk, b).Some? <==> NoneNests(b.files)))
  {
    hide NoFeedDigest, NoneNests, SaveAll, CollisionFree, Genuine, Saved;
    var k := KeyOf(t, b);
    KeysSaved(t, loose, bundles, k);
    SaveAdds(t, SaveAll(t, Disk(map[], map[], loose), bundles), b, k);
    var all := bundles + [b];
    if SavedBefore(t, bundles, k) && CollisionFree(t) && AllGenuine(t, all)
        && forall i | 0 <= i < |all| :: NoFeedDigest(t, all[i].files) {
      var i :| 0 <= i < |bundles| && NoneNests(bundles[i].files) && KeyOf(t, bundles[i]) == k;
      assert all[i] == bundles[i] && all[|bundles|] == b;
      SameKey(t, bundles[i], b);
    }
  }

  lemma SameKey(t: Tools, a: SkillBundle, b: SkillBundle)
    requires CollisionFree(t) && Genuine(t, a) && Genuine(t, b) && NoFeedDigest(t, a.files) && NoFeedDigest(t, b.files)
    requires KeyOf(t, a) == KeyOf(t, b)
    ensures a == b
  {
    hide CollisionFree, NoFeedDigest;
    HashIdentifies(t, a.files, b.files);
  }
}

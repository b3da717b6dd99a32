/** The cache of validation verdicts and the activation of skills; the record files are a map. */
module VerdictCache {
  import opened Wrappers

  datatype Status = Approved | Rejected | Stale

  datatype Key = Key(skillID: string, policyVersion: int, bundleHash: string)

  datatype Record = Record(key: Key, status: Status, confidence: real)

  type Records = map<Key, Record>

  datatype Policy = Policy(version: int, minApprovalConfidence: real)

  datatype Bundle = Bundle(skillID: string, hash: string, name: string, description: string, version: string,
      body: string)

  /** A catalog entry. */
  datatype StoredSkill = StoredSkill(skillID: string, bundleHash: string)

  /** The validation stages' outcome for one bundle. */
  datatype Check = Check(findings: nat, cancelled: bool, approve: bool, confidence: real)

  /**
   What one ensureApproved meets, all of it decided outside: whether the directory and the record files
   can be read and written, the bundle on disk, the outcome of the checks.
   */
  datatype Answers = Answers(dirOk: bool, entryOk: string -> bool, getOk: bool, saveOk: bool, onDisk: Option<Bundle>,
      check: Check)

  function StatusOf(records: Records, k: Key): Option<Status> { if k in records then Some(records[k].status) else None }

  // ---- the store ----

  predicate Superseded(r: Record, k: Key, skillID: string, version: int, hash: string) {
    k.skillID == skillID && k.policyVersion == version && k.bundleHash != hash && r.status == Approved
  }

  function Invalidated(records: Records, skillID: string, version: int, hash: string, a: Answers): Records {
    map k | k in records ::
      if a.dirOk && a.entryOk(k.bundleHash) && Superseded(records[k], k, skillID, version, hash)
      then records[k].(status := Stale)
      else records[k]
  }

  class Store {
    var records: Records

    constructor ()
      ensures records == map[]
    {
      records := map[];
    }

    method Get(k: Key, a: Answers) returns (r: Result<Option<Record>, string>)
      ensures r == if !a.getOk then Err("read") else Ok(if k in records then Some(records[k]) else None)
    {
      if !a.getOk { return Err("read"); }
      r := Ok(if k in records then Some(records[k]) else None);
    }

    method Save(rec: Record, a: Answers)
      modifies this
      ensures records == if a.saveOk then old(records)[rec.key := rec] else old(records)
    {
      if a.saveOk { records := records[rec.key := rec]; }
    }

    /** Goes through the record files of a skill and policy version, in whatever order. */
    method InvalidateOthers(skillID: string, version: int, hash: string, a: Answers)
      modifies this
      ensures records == Invalidated(old(records), skillID, version, hash, a)
    {
      ghost var goal := Invalidated(records, skillID, version, hash, a);
      if !a.dirOk {
        assert records == goal;
        return;
      }
      var entries := set k | k in records && k.skillID == skillID && k.policyVersion == version;
      while entries != {}
        invariant entries <= records.Keys == goal.Keys == old(records).Keys
        invariant forall k | k in entries :: k.skillID == skillID && k.policyVersion == version
        invariant forall k | k in records :: records[k] == if k in entries then old(records)[k] else goal[k]
        decreases entries
      {
        var k :| k in entries;
        entries := entries - {k};
        if k.bundleHash != hash && a.entryOk(k.bundleHash) && records[k].status == Approved {
          records := records[k := records[k].(status := Stale)];
        }
      }
    }
  }

  // ---- validation ----

  /** A bundle is approved if nothing was found, the turn lives, and the model approves with enough confidence. */
  predicate Passes(policy: Policy, c: Check) {
    c.findings == 0 && !c.cancelled && c.approve && c.confidence >= policy.minApprovalConfidence
  }

  function Verdict(b: Bundle, policy: Policy, c: Check): Record {
    Record(Key(b.skillID, policy.version, b.hash), if Passes(policy, c) then Approved else Rejected,
           if c.findings > 0 || c.cancelled then 0.0 else c.confidence)
  }

  method Validate(b: Bundle, policy: Policy, c: Check) returns (rec: Record)
    ensures rec == Verdict(b, policy, c)
  {
    rec := Record(Key(b.skillID, policy.version, b.hash), Rejected, 0.0);
    if c.findings > 0 { return; }
    if c.cancelled { return; }
    rec := rec.(confidence := c.confidence);
    if c.approve && c.confidence >= policy.minApprovalConfidence {
      rec := rec.(status := Approved);
    } else {
      rec := rec.(status := Rejected);
    }
  }

  // ---- ensureApproved ----

  /** LoadSkillBundle: what lies on disk, if its hash is the one asked for. */
  function Loaded(stored: StoredSkill, a: Answers): Option<Bundle> {
    if a.onDisk.Some? && a.onDisk.value.hash == stored.bundleHash then a.onDisk else None
  }

  function KeyOf(stored: StoredSkill, policy: Policy): Key { Key(stored.skillID, policy.version, stored.bundleHash) }

  datatype Ensured = Ensured(records: Records, bundle: Option<Bundle>)

  /** What a call does once the records of other bundles are invalidated. */
  function Decided(records: Records, policy: Policy, stored: StoredSkill, a: Answers): Ensured {
    var k := KeyOf(stored, policy);
    if !a.getOk then Ensured(records, None)
    else if k in records && records[k].status == Rejected then Ensured(records, None)
    else if k in records && records[k].status == Approved then Ensured(records, Loaded(stored, a))
    else
      match Loaded(stored, a)
      case None => Ensured(records, None)
      case Some(b) =>
        var rec := Verdict(b, policy, a.check);
        Ensured(if a.saveOk then records[rec.key := rec] else records, if rec.status == Approved then Some(b) else None)
  }

  function EnsuredOf(records: Records, policy: Policy, stored: StoredSkill, a: Answers): Ensured {
    Decided(Invalidated(records, stored.skillID, policy.version, stored.bundleHash, a), policy, stored, a)
  }

  method EnsureApproved(store: Store, policy: Policy, stored: StoredSkill, a: Answers) returns (bundle: Option<Bundle>)
    modifies store
    ensures Ensured(store.records, bundle) == EnsuredOf(old(store.records), policy, stored, a)
  {
    store.InvalidateOthers(stored.skillID, policy.version, stored.bundleHash, a);
    var got := store.Get(KeyOf(stored, policy), a);
    if got.Err? { return None; }
    var rec := got.value;
    if rec.None? || rec.value.status == Stale {
      var loaded := Loaded(stored, a);
      if loaded.None? { return None; }
      var verdict := Validate(loaded.value, policy, a.check);
      store.Save(verdict, a);
      if verdict.status != Approved { return None; }
      return loaded;
    }
    if rec.value.status != Approved { return None; }
    return Loaded(stored, a);
  }

  // ---- selection ----

  /** The ids the model named that were offered, in the model's order. */
  function Filter(ids: seq<string>, known: set<string>): seq<string>
    decreases |ids|
  {
    if ids == [] then []
    else
      var id := ids[|ids| - 1];
      if id in known then Filter(ids[..|ids| - 1], known) + [id] else Filter(ids[..|ids| - 1], known)
  }

  method Select(catalog: seq<StoredSkill>, named: seq<string>) returns (selected: seq<string>)
    ensures selected == Filter(named, IdsOf(catalog))
  {
    var known: set<string> := {};
    for i := 0 to |catalog|
      invariant known == IdsOf(catalog[..i])
    {
      assert catalog[..i + 1] == catalog[..i] + [catalog[i]];
      known := known + {catalog[i].skillID};
    }
    assert catalog[..|catalog|] == catalog;
    selected := [];
    for i := 0 to |named|
      invariant selected == Filter(named[..i], known)
    {
      assert named[..i + 1][..i] == named[..i];
      if named[i] in known { selected := selected + [named[i]]; }
    }
    assert named[..|named|] == named;
  }

  function IdsOf(catalog: seq<StoredSkill>): set<string> { set i | 0 <= i < |catalog| :: catalog[i].skillID }

  /** Of entries with the same id the last counts. */
  function ByID(catalog: seq<StoredSkill>): map<string, StoredSkill>
    decreases |catalog|
  {
    if catalog == [] then map[]
    else ByID(catalog[..|catalog| - 1])[catalog[|catalog| - 1].skillID := catalog[|catalog| - 1]]
  }

  lemma {:induction false} ByIDKnows(catalog: seq<StoredSkill>)
    ensures ByID(catalog).Keys == IdsOf(catalog)
    ensures forall id | id in ByID(catalog) :: ByID(catalog)[id] in catalog && ByID(catalog)[id].skillID == id
    decreases |catalog|
  {
    if catalog != [] {
      ByIDKnows(catalog[..|catalog| - 1]);
      assert catalog == catalog[..|catalog| - 1] + [catalog[|catalog| - 1]];
    }
  }

  lemma {:induction false} FilterKeeps(ids: seq<string>, known: set<string>)
    ensures forall i | 0 <= i < |Filter(ids, known)| :: Filter(ids, known)[i] in known && Filter(ids, known)[i] in ids
    ensures forall id | id in ids && id in known :: id in Filter(ids, known)
    decreases |ids|
  {
    if ids != [] {
      FilterKeeps(ids[..|ids| - 1], known);
      assert ids == ids[..|ids| - 1] + [ids[|ids| - 1]];
    }
  }

  // ---- activateSkills ----

  datatype Active = Active(skillID: string, bundle: Bundle)

  datatype Activation = Activation(records: Records, active: seq<Active>)

  /** The loop over the selected ids; the i-th call meets `answers(i)`. */
  function ActivationOf(records: Records, policy: Policy, byID: map<string, StoredSkill>, ids: seq<string>,
      answers: nat -> Answers): Activation
    requires forall i | 0 <= i < |ids| :: ids[i] in byID
    decreases |ids|
  {
    if ids == [] then Activation(records, [])
    else
      var n := |ids| - 1;
      var before := ActivationOf(records, policy, byID, ids[..n], answers);
      var e := EnsuredOf(before.records, policy, byID[ids[n]], answers(n));
      Activation(e.records, if e.bundle.Some?
          then before.active + [Active(byID[ids[n]].skillID, e.bundle.value)] else before.active)
  }

  /**
   One turn of the skills node on the store: what it saw of the catalog and what the selecting model
   named (none on an error).
   */
  datatype Turn = Turn(policy: Policy, catalog: seq<StoredSkill>, named: Option<seq<string>>, answers: nat -> Answers)

  function Selected(t: Turn): (r: seq<string>)
    ensures forall i | 0 <= i < |r| :: r[i] in ByID(t.catalog)
  {
    if t.named.None? then []
    else
      ByIDKnows(t.catalog);
      FilterKeeps(t.named.value, IdsOf(t.catalog));
      Filter(t.named.value, IdsOf(t.catalog))
  }

  function TurnOf(records: Records, t: Turn): Activation {
    ActivationOf(records, t.policy, ByID(t.catalog), Selected(t), t.answers)
  }

  method ActivateSkills(store: Store, t: Turn) returns (active: seq<Active>)
    modifies store
    ensures Activation(store.records, active) == TurnOf(old(store.records), t)
  {
    ByIDKnows(t.catalog);
    active := [];
    if t.named.None? || |t.catalog| == 0 {
      if t.named.Some? { FilterNone(t.named.value); }
      return;
    }
    var byID: map<string, StoredSkill> := map[];
    for i := 0 to |t.catalog|
      invariant byID == ByID(t.catalog[..i])
    {
      assert t.catalog[..i + 1][..i] == t.catalog[..i];
      byID := byID[t.catalog[i].skillID := t.catalog[i]];
    }
    assert t.catalog[..|t.catalog|] == t.catalog;
    var ids := Select(t.catalog, t.named.value);
    assert ids == Selected(t);
    for i := 0 to |ids|
      invariant Activation(store.records, active) ==
                ActivationOf(old(store.records), t.policy, byID, ids[..i], t.answers)
    {
      assert ids[..i + 1][..i] == ids[..i];
      if ids[i] in byID {
        var bundle := EnsureApproved(store, t.policy, byID[ids[i]], t.answers(i));
        if bundle.Some? {
          active := active + [Active(byID[ids[i]].skillID, bundle.value)];
        }
      }
    }
    assert ids[..|ids|] == ids;
  }

  lemma {:induction false} FilterNone(ids: seq<string>)
    ensures Filter(ids, {}) == []
    decreases |ids|
  {
    if ids != [] { FilterNone(ids[..|ids| - 1]); }
  }

  // ---- one call ----

  /** The digest has no collisions: `content` is the one bundle of each hash. */
  ghost predicate Genuine(a: Answers, content: string -> Bundle) {
    a.onDisk.Some? ==> a.onDisk.value == content(a.onDisk.value.hash)
  }

  /** A catalog entry whose id and hash belong to one bundle, as SaveSkillBundle writes it. */
  predicate Consistent(stored: StoredSkill, content: string -> Bundle) {
    content(stored.bundleHash).skillID == stored.skillID
  }

  /** The record files of a skill can be listed, read and rewritten. */
  ghost predicate CanClear(a: Answers) { a.dirOk && forall h :: a.entryOk(h) }

  /** How one call may change a verdict: only its own key gets a new verdict, others only become stale. */
  predicate MayChange(own: bool, before: Option<Status>, after: Option<Status>) {
    || after == before
    || (!own && before == Some(Approved) && after == Some(Stale))
    || (own && (before == None || before == Some(Stale)) && (after == Some(Approved) || after == Some(Rejected)))
  }

  lemma CallChanges(records: Records, policy: Policy, stored: StoredSkill, a: Answers, content: string -> Bundle,
      k: Key)
    requires Genuine(a, content) && Consistent(stored, content)
    ensures MayChange(k == KeyOf(stored, policy), StatusOf(records, k),
            StatusOf(EnsuredOf(records, policy, stored, a).records, k))
  {
  }

  ghost predicate OneApproved(records: Records) {
    forall k1, k2 | k1 in records && k2 in records && k1.skillID == k2.skillID && k1.policyVersion == k2.policyVersion
                    && records[k1].status == Approved && records[k2].status == Approved :: k1 == k2
  }

  /** A call on one skill leaves the records of all others alone. */
  lemma CallSpares(records: Records, policy: Policy, stored: StoredSkill, a: Answers, content: string -> Bundle, k: Key)
    requires Genuine(a, content) && Consistent(stored, content) && k.skillID != stored.skillID
    ensures StatusOf(EnsuredOf(records, policy, stored, a).records, k) == StatusOf(records, k)
  {
  }

  /**
   A call approves its own record exactly if that was approved or the call returns a bundle and can save
   its verdict.
   */
  lemma CallApprovesExactly(records: Records, policy: Policy, stored: StoredSkill, a: Answers,
      content: string -> Bundle)
    requires Genuine(a, content) && Consistent(stored, content)
    ensures var e := EnsuredOf(records, policy, stored, a);
            var k := KeyOf(stored, policy);
            && (e.bundle.Some? ==> e.bundle.value.hash == stored.bundleHash && e.bundle.value.skillID == stored.skillID)
            && (StatusOf(e.records, k) == Some(Approved) <==>
                  StatusOf(records, k) == Some(Approved) || (e.bundle.Some? && a.saveOk))
            && (e.bundle.Some? ==>
                (StatusOf(e.records, k) == Some(Approved) <==> a.saveOk || StatusOf(records, k) == Some(Approved)))
  {
  }

  /** A bundle is returned only with an approved record for exactly its hash. */
  lemma CallApproves(records: Records, policy: Policy, stored: StoredSkill, a: Answers, content: string -> Bundle)
    requires Genuine(a, content) && Consistent(stored, content) && a.saveOk
    ensures var e := EnsuredOf(records, policy, stored, a);
            e.bundle.Some? ==>
              && e.bundle.value.hash == stored.bundleHash && e.bundle.value.skillID == stored.skillID
              && StatusOf(e.records, Key(e.bundle.value.skillID, policy.version, e.bundle.value.hash)) == Some(Approved)
  {
  }

  // ---- runs ----

  ghost predicate TurnOk(t: Turn, content: string -> Bundle) {
    && (forall i | 0 <= i < |t.catalog| :: Consistent(t.catalog[i], content))
    && (forall i: nat :: Genuine(t.answers(i), content))
  }

  function RecordsAfter(turns: seq<Turn>): Records
    decreases |turns|
  {
    if turns == [] then map[] else TurnOf(RecordsAfter(turns[..|turns| - 1]), turns[|turns| - 1]).records
  }

  /** A turn after its first n calls. */
  function Prefix(records: Records, t: Turn, n: nat): Activation
    requires n <= |Selected(t)|
  {
    ActivationOf(records, t.policy, ByID(t.catalog), Selected(t)[..n], t.answers)
  }

  lemma PrefixStep(records: Records, t: Turn, n: nat)
    requires n < |Selected(t)|
    ensures Selected(t)[n] in ByID(t.catalog)
    ensures var before := Prefix(records, t, n);
            var stored := ByID(t.catalog)[Selected(t)[n]];
            var e := EnsuredOf(before.records, t.policy, stored, t.answers(n));
            Prefix(records, t, n + 1) ==
            Activation(e.records, if e.bundle.Some?
                then before.active + [Active(stored.skillID, e.bundle.value)] else before.active)
  {
    hide EnsuredOf, Selected;
    assert Selected(t)[..n + 1][..n] == Selected(t)[..n];
  }

  lemma PrefixEnds(records: Records, t: Turn)
    ensures Prefix(records, t, 0) == Activation(records, [])
    ensures Prefix(records, t, |Selected(t)|) == TurnOf(records, t)
  {
    hide Selected;
    assert Selected(t)[..|Selected(t)|] == Selected(t);
  }

  lemma CatalogOk(t: Turn, content: string -> Bundle, n: nat)
    requires TurnOk(t, content)
    ensures Genuine(t.answers(n), content)
    ensures forall id | id in ByID(t.catalog) ::
              ByID(t.catalog)[id].skillID == id && Consistent(ByID(t.catalog)[id], content)
  {
    ByIDKnows(t.catalog);
  }

  /** After the first n calls of a turn the record is approved. */
  predicate ApprovedAt(records: Records, t: Turn, k: Key, n: nat) {
    n <= |Selected(t)| && StatusOf(Prefix(records, t, n).records, k) == Some(Approved)
  }

  lemma {:induction false} PrefixChanges(records: Records, t: Turn, content: string -> Bundle, k: Key, n: nat)
    requires TurnOk(t, content) && n <= |Selected(t)|
    ensures StatusOf(records, k) == Some(Rejected) ==> StatusOf(Prefix(records, t, n).records, k) == Some(Rejected)
    ensures StatusOf(Prefix(records, t, n).records, k) == Some(Stale) && StatusOf(records, k) != Some(Stale) ==>
              exists m :: 0 <= m < n && ApprovedAt(records, t, k, m)
    decreases n
  {
    hide EnsuredOf, Selected, Prefix, ByID, TurnOk, StatusOf;
    if n == 0 {
      PrefixEnds(records, t);
    } else {
      PrefixChanges(records, t, content, k, n - 1);
      PrefixStep(records, t, n - 1);
      CatalogOk(t, content, n - 1);
      CallChanges(Prefix(records, t, n - 1).records, t.policy, ByID(t.catalog)[Selected(t)[n - 1]], t.answers(n - 1),
          content, k);
      if StatusOf(Prefix(records, t, n - 1).records, k) == Some(Approved) {
        assert ApprovedAt(records, t, k, n - 1);
      }
    }
  }

  lemma TurnChanges(records: Records, t: Turn, content: string -> Bundle, k: Key)
    requires TurnOk(t, content)
    ensures StatusOf(records, k) == Some(Rejected) ==> StatusOf(TurnOf(records, t).records, k) == Some(Rejected)
    ensures StatusOf(TurnOf(records, t).records, k) == Some(Stale) && StatusOf(records, k) != Some(Stale) ==>
              exists m: nat :: ApprovedAt(records, t, k, m)
  {
    hide TurnOk, StatusOf, Selected, ApprovedAt, Prefix, TurnOf;
    PrefixChanges(records, t, content, k, |Selected(t)|);
    PrefixEnds(records, t);
  }

  /** A stale record was approved at an earlier moment of the run: after some calls of some turn. */
  lemma {:induction false} StaleWasApproved(turns: seq<Turn>, content: string -> Bundle, k: Key)
      returns (i: nat, m: nat)
    requires forall i | 0 <= i < |turns| :: TurnOk(turns[i], content)
    requires StatusOf(RecordsAfter(turns), k) == Some(Stale)
    ensures i < |turns| && ApprovedAt(RecordsAfter(turns[..i]), turns[i], k, m)
    decreases |turns|
  {
    hide TurnOk, ApprovedAt, StatusOf, TurnOf;
    assert StatusOf(map[], k) == None by { NoRecord(k); }
    i, m := 0, 0;
    if turns != [] {
      var init, t := turns[..|turns| - 1], turns[|turns| - 1];
      if StatusOf(RecordsAfter(init), k) == Some(Stale) {
        i, m := StaleWasApproved(init, content, k);
        assert init[..i] == turns[..i];
      } else {
        TurnChanges(RecordsAfter(init), t, content, k);
        i := |turns| - 1;
        m :| ApprovedAt(RecordsAfter(init), t, k, m);
      }
    }
  }

  lemma NoRecord(k: Key)
    ensures StatusOf(map[], k) == None
  {
  }

  /** An activated skill was offered by the catalog and named by the model, and its bundle is the catalog's. */
  ghost predicate Offered(x: Active, t: Turn) {
    && x.skillID in ByID(t.catalog) && t.named.Some? && x.skillID in t.named.value
    && x.bundle.skillID == x.skillID && x.bundle.hash == ByID(t.catalog)[x.skillID].bundleHash
  }

  /** What the rest of the turn relies on: moreover an approved record for exactly the bundle's hash. */
  ghost predicate Licensed(x: Active, t: Turn, records: Records) {
    Offered(x, t) && StatusOf(records, Key(x.skillID, t.policy.version, x.bundle.hash)) == Some(Approved)
  }

  /** The m-th call of a turn is for this id, returns a bundle, and can save its verdict. */
  predicate Backs(records: Records, t: Turn, id: string, m: nat) {
    && m < |Selected(t)| && Selected(t)[m] == id && t.answers(m).saveOk
    && EnsuredOf(Prefix(records, t, m).records, t.policy, ByID(t.catalog)[id], t.answers(m)).bundle.Some?
  }

  lemma {:induction false} PrefixApproved(records: Records, t: Turn, content: string -> Bundle, id: string, n: nat)
    requires TurnOk(t, content) && id in ByID(t.catalog) && n <= |Selected(t)|
    ensures StatusOf(Prefix(records, t, n).records, KeyOf(ByID(t.catalog)[id], t.policy)) == Some(Approved) <==>
            || StatusOf(records, KeyOf(ByID(t.catalog)[id], t.policy)) == Some(Approved)
            || exists m :: 0 <= m < n && Backs(records, t, id, m)
    decreases n
  {
    hide EnsuredOf, Selected, Prefix, ByID, TurnOk, StatusOf;
    if n == 0 {
      PrefixEnds(records, t);
    } else {
      PrefixApproved(records, t, content, id, n - 1);
      PrefixStep(records, t, n - 1);
      CatalogOk(t, content, n - 1);
      var before, other := Prefix(records, t, n - 1).records, Selected(t)[n - 1];
      if other == id {
        CallApprovesExactly(before, t.policy, ByID(t.catalog)[id], t.answers(n - 1), content);
        assert Backs(records, t, id, n - 1) <==>
               t.answers(n - 1).saveOk
                   && EnsuredOf(before, t.policy, ByID(t.catalog)[id], t.answers(n - 1)).bundle.Some?;
      } else {
        assert !Backs(records, t, id, n - 1);
        CallSpares(before, t.policy, ByID(t.catalog)[other], t.answers(n - 1), content,
            KeyOf(ByID(t.catalog)[id], t.policy));
      }
    }
  }

  /** Every active skill was returned by some call of the turn. */
  lemma {:induction false} PrefixReturned(records: Records, t: Turn, content: string -> Bundle, n: nat, x: Active)
    requires TurnOk(t, content) && n <= |Selected(t)| && x in Prefix(records, t, n).active
    ensures Offered(x, t)
    ensures exists m :: 0 <= m < n && (t.answers(m).saveOk ==> Backs(records, t, x.skillID, m))
    decreases n
  {
    hide EnsuredOf, Selected, Prefix, ByID, TurnOk, Offered;
    if n == 0 {
      PrefixEnds(records, t);
    } else {
      PrefixStep(records, t, n - 1);
      CatalogOk(t, content, n - 1);
      var before, id := Prefix(records, t, n - 1), Selected(t)[n - 1];
      if x in before.active {
        PrefixReturned(records, t, content, n - 1, x);
      } else {
        CallApprovesExactly(before.records, t.policy, ByID(t.catalog)[id], t.answers(n - 1), content);
        SelectedNamed(t, n - 1);
        assert t.answers(n - 1).saveOk ==> Backs(records, t, x.skillID, n - 1);
        assert Offered(x, t) by { OfferedIs(x, t); }
      }
    }
  }

  lemma OfferedIs(x: Active, t: Turn)
    requires x.skillID in ByID(t.catalog) && t.named.Some? && x.skillID in t.named.value
    requires x.bundle.skillID == x.skillID && x.bundle.hash == ByID(t.catalog)[x.skillID].bundleHash
    ensures Offered(x, t)
  {
  }

  lemma SelectedNamed(t: Turn, n: nat)
    requires n < |Selected(t)|
    ensures t.named.Some? && Selected(t)[n] in t.named.value
  {
    FilterKeeps(t.named.value, IdsOf(t.catalog));
  }

  /**
   Whatever fails, an activated skill was offered and named; and at the end of the turn its bundle has
   an approved record exactly if it had one before the turn, or a call of the turn that returned the
   bundle could save its verdict.
   */
  lemma LicensedExactly(records: Records, t: Turn, content: string -> Bundle, x: Active)
    requires TurnOk(t, content) && x in TurnOf(records, t).active
    ensures Offered(x, t)
    ensures Licensed(x, t, TurnOf(records, t).records) <==>
            || StatusOf(records, Key(x.skillID, t.policy.version, x.bundle.hash)) == Some(Approved)
            || exists m: nat :: Backs(records, t, x.skillID, m)
  {
    PrefixEnds(records, t);
    PrefixReturned(records, t, content, |Selected(t)|, x);
    PrefixApproved(records, t, content, x.skillID, |Selected(t)|);
    ByIDKnows(t.catalog);
    hide Selected, Prefix, TurnOf, ByID, EnsuredOf, TurnOk, IdsOf;
    assert KeyOf(ByID(t.catalog)[x.skillID], t.policy) == Key(x.skillID, t.policy.version, x.bundle.hash);
    assert forall m: nat | Backs(records, t, x.skillID, m) :: m < |Selected(t)|;
  }

  ghost predicate CanSave(t: Turn) { forall i: nat :: t.answers(i).saveOk }

  /**
   In every turn whose verdicts can be saved, whichever reads fail, every activated id was offered by
   the catalog and named by the model, and the store holds an approved record for exactly the hash of
   the bundle whose instructions are shown.
   */
  lemma ActivatedLicensed(records: Records, t: Turn, content: string -> Bundle)
    requires TurnOk(t, content) && CanSave(t)
    ensures var r := TurnOf(records, t);
            forall i | 0 <= i < |r.active| :: Licensed(r.active[i], t, r.records)
  {
    hide Licensed, Selected, TurnOk, Prefix, TurnOf, Backs;
    PrefixEnds(records, t);
    var r := TurnOf(records, t);
    forall i | 0 <= i < |r.active|
      ensures Licensed(r.active[i], t, r.records)
    {
      LicensedExactly(records, t, content, r.active[i]);
      PrefixReturned(records, t, content, |Selected(t)|, r.active[i]);
    }
  }

  /** One call that cannot save its new verdict: the skill is activated all the same, and its record stays as it was. */
  lemma UnsavedIsActivated(records: Records, policy: Policy, b: Bundle, a: Answers)
    requires a.getOk && !a.saveOk && a.onDisk == Some(b) && Passes(policy, a.check)
    requires StatusOf(records, Key(b.skillID, policy.version, b.hash)) in {None, Some(Stale)}
    ensures var e := EnsuredOf(records, policy, StoredSkill(b.skillID, b.hash), a);
            var k := Key(b.skillID, policy.version, b.hash);
            e.bundle == Some(b) && StatusOf(e.records, k) == StatusOf(records, k) != Some(Approved)
  {
  }

  // ---- RunSkillCommand ----

  predicate ActiveThisTurn(activeIDs: seq<string>, skillID: string) { skillID in activeIDs }

  /** authorize, given what GetSkill finds now, whether the record can be read, and what BundleRoot finds. */
  predicate Authorized(found: Option<StoredSkill>, records: Records, version: int, getOk: bool, root: Option<string>) {
    && found.Some? && getOk
    && StatusOf(records, Key(found.value.skillID, version, found.value.bundleHash)) == Some(Approved)
    && root.Some?
  }

  function ActiveIDs(active: seq<Active>): seq<string> {
    seq(|active|, i requires 0 <= i < |active| => active[i].skillID)
  }

  /**
   A skill that is active in this turn and still installed as the catalog had it may run commands
   exactly if the record can be read and the bundle's directory found, and the record was approved
   before the turn or a call that returned it could save.
   */
  lemma ActiveMayRun(
    records: Records, t: Turn, content: string -> Bundle, skillID: string,
    found: Option<StoredSkill>, getOk: bool, root: Option<string>)
    requires TurnOk(t, content) && ActiveThisTurn(ActiveIDs(TurnOf(records, t).active), skillID)
    requires skillID in ByID(t.catalog) && found == Some(ByID(t.catalog)[skillID])
    ensures Authorized(found, TurnOf(records, t).records, t.policy.version, getOk, root) <==>
            && getOk && root.Some?
            && (|| StatusOf(records, Key(skillID, t.policy.version, found.value.bundleHash)) == Some(Approved)
                || exists m: nat :: Backs(records, t, skillID, m))
    ensures CanSave(t) && getOk && root.Some? ==>
            Authorized(found, TurnOf(records, t).records, t.policy.version, getOk, root)
  {
    ByIDKnows(t.catalog);
    var active := TurnOf(records, t).active;
    var i :| 0 <= i < |ActiveIDs(active)| && ActiveIDs(active)[i] == skillID;
    var x := active[i];
    LicensedExactly(records, t, content, x);
    hide TurnOf, TurnOk, ByID, Backs;
    assert Key(x.skillID, t.policy.version, x.bundle.hash) ==
        Key(found.value.skillID, t.policy.version, found.value.bundleHash);
    if CanSave(t) {
      ActivatedLicensed(records, t, content);
      assert Licensed(active[i], t, TurnOf(records, t).records);
    }
  }
}

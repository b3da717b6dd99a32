/**
 What one call of ensureApproved returns and writes, and what a turn's calls come to, each said about
 the answers they meet and the records they find.
 */
module VerdictLaws {
  import opened Wrappers
  import opened VerdictCache

  /** The bundle on disk has the hash that the catalog names. */
  predicate OnDisk(stored: StoredSkill, a: Answers, b: Bundle) { a.onDisk == Some(b) && b.hash == stored.bundleHash }

  /** The record's status before the call. */
  function Before(records: Records, policy: Policy, stored: StoredSkill): Option<Status> {
    var k := Key(stored.skillID, policy.version, stored.bundleHash);
    if k in records then Some(records[k].status) else None
  }

  /** No finding, no cancellation, and an approval with enough confidence. */
  predicate Convinces(policy: Policy, c: Check) {
    c.findings == 0 && !c.cancelled && c.approve && c.confidence >= policy.minApprovalConfidence
  }

  /**
   A call returns a bundle exactly if the record can be read, the bundle lies on disk under the hash that
   the catalog names, and it is approved already, or has no valid verdict and convinces now.
   */
  lemma ReturnsExactly(records: Records, policy: Policy, stored: StoredSkill, a: Answers, b: Bundle)
    ensures EnsuredOf(records, policy, stored, a).bundle == Some(b) <==>
            && a.getOk && OnDisk(stored, a, b)
            && match Before(records, policy, stored)
               case Some(Approved) => true
               case Some(Rejected) => false
               case _ => Convinces(policy, a.check)
  {
  }

  /**
   A call writes a new verdict for its own record exactly if that has none or a stale one, the record can
   be read, the bundle loaded and the verdict saved; it makes approved records of other hashes of the
   skill stale as far as their files can be listed and rewritten; and it writes nothing else.
   */
  lemma WritesExactly(records: Records, policy: Policy, stored: StoredSkill, a: Answers, content: string -> Bundle,
      k: Key)
    requires Genuine(a, content) && Consistent(stored, content)
    ensures var after := EnsuredOf(records, policy, stored, a).records;
            if k.skillID != stored.skillID || k.policyVersion != policy.version then
              Same(records, after, k)
            else if k.bundleHash != stored.bundleHash then
              if k in records && records[k].status == Approved && a.dirOk && a.entryOk(k.bundleHash) then
                k in after && after[k] == records[k].(status := Stale)
              else Same(records, after, k)
            else if Before(records, policy, stored) in {None, Some(Stale)} && a.getOk && a.saveOk
                && OnDisk(stored, a, content(stored.bundleHash)) then
              && k in after && after[k].key == k
              && after[k].status == (if Convinces(policy, a.check) then Approved else Rejected)
              && after[k].confidence ==
                  (if a.check.findings == 0 && !a.check.cancelled then a.check.confidence else 0.0)
            else Same(records, after, k)
  {
  }

  predicate Same(before: Records, after: Records, k: Key) {
    if k in before then k in after && after[k] == before[k] else k !in after
  }

  // ---- the selection ----

  /** The names that were offered, in the order in which the model gave them. */
  function Chosen(named: seq<string>, catalog: seq<StoredSkill>): seq<string>
    decreases |named|
  {
    if named == [] then []
    else if exists i | 0 <= i < |catalog| :: catalog[i].skillID == named[0]
      then [named[0]] + Chosen(named[1..], catalog)
    else Chosen(named[1..], catalog)
  }

  lemma {:induction false} FilterAppend(a: seq<string>, b: seq<string>, known: set<string>)
    ensures Filter(a + b, known) == Filter(a, known) + Filter(b, known)
    decreases |b|
  {
    if b == [] {
      assert a + b == a;
    } else {
      var n := |b| - 1;
      assert (a + b)[..|a + b| - 1] == a + b[..n];
      FilterAppend(a, b[..n], known);
    }
  }

  lemma {:induction false} FilterIsChosen(named: seq<string>, catalog: seq<StoredSkill>)
    ensures Filter(named, IdsOf(catalog)) == Chosen(named, catalog)
    decreases |named|
  {
    if named != [] {
      assert named == [named[0]] + named[1..] && [named[0]][..0] == [];
      FilterAppend([named[0]], named[1..], IdsOf(catalog));
      FilterIsChosen(named[1..], catalog);
    }
  }

  /** A turn calls for the offered names, each with the last catalog entry of that id. */
  lemma SelectedExactly(t: Turn)
    ensures Selected(t) == if t.named.None? then [] else Chosen(t.named.value, t.catalog)
    ensures forall id | id in Selected(t) :: id in ByID(t.catalog) && LastEntry(t.catalog, id, ByID(t.catalog)[id])
  {
    if t.named.Some? { FilterIsChosen(t.named.value, t.catalog); }
    forall id | id in Selected(t)
      ensures id in ByID(t.catalog) && LastEntry(t.catalog, id, ByID(t.catalog)[id])
    {
      ByIDLast(t.catalog, id);
    }
  }

  ghost predicate LastEntry(catalog: seq<StoredSkill>, id: string, s: StoredSkill) {
    exists i | 0 <= i < |catalog| ::
      catalog[i] == s && s.skillID == id && forall j | i < j < |catalog| :: catalog[j].skillID != id
  }

  lemma {:induction false} ByIDLast(catalog: seq<StoredSkill>, id: string)
    requires id in ByID(catalog)
    ensures LastEntry(catalog, id, ByID(catalog)[id])
    decreases |catalog|
  {
    var n := |catalog| - 1;
    if catalog[n].skillID == id {
      assert catalog[n] == ByID(catalog)[id];
    } else {
      ByIDLast(catalog[..n], id);
      var i :| 0 <= i < n && catalog[..n][i] == ByID(catalog)[id]
          && forall j | i < j < n :: catalog[..n][j].skillID != id;
      assert catalog[i] == ByID(catalog)[id];
      forall j | i < j < |catalog|
        ensures catalog[j].skillID != id
      {
        if j < n { assert catalog[j] == catalog[..n][j]; }
      }
    }
  }

  // ---- the calls of a turn ----

  /** The records before each call of a turn and after the last one. */
  ghost predicate Through(t: Turn, states: seq<Records>) {
    && |states| == |Selected(t)| + 1
    && forall m | 0 <= m < |Selected(t)| :: states[m + 1] == CallOf(t, states, m).records
  }

  /** The m-th call of a turn. */
  function CallOf(t: Turn, states: seq<Records>, m: nat): Ensured
    requires m < |Selected(t)| && m < |states|
  {
    EnsuredOf(states[m], t.policy, ByID(t.catalog)[Selected(t)[m]], t.answers(m))
  }

  /** The skills whose calls returned a bundle, from the m-th call on. */
  function Returned(t: Turn, states: seq<Records>, m: nat): seq<Active>
    requires Through(t, states) && m <= |Selected(t)|
    decreases |Selected(t)| - m
  {
    if m == |Selected(t)| then []
    else
      (match CallOf(t, states, m).bundle
       case None => []
       case Some(b) => [Active(ByID(t.catalog)[Selected(t)[m]].skillID, b)])
      + Returned(t, states, m + 1)
  }

  /** A turn makes one call after the other, and what is active are the returned bundles in the order of the calls. */
  lemma TurnIsCalls(records: Records, t: Turn) returns (states: seq<Records>)
    ensures Through(t, states) && states[0] == records && states[|Selected(t)|] == TurnOf(records, t).records
    ensures TurnOf(records, t).active == Returned(t, states, 0)
  {
    hide EnsuredOf, Selected, ByID, Prefix, TurnOf;
    var n := |Selected(t)|;
    states := seq(n + 1, m requires 0 <= m < n + 1 => Prefix(records, t, m).records);
    forall m | 0 <= m < n
      ensures states[m + 1] == CallOf(t, states, m).records
    {
      PrefixStep(records, t, m);
    }
    PrefixEnds(records, t);
    RestReturned(records, t, states, 0);
  }

  lemma {:induction false} RestReturned(records: Records, t: Turn, states: seq<Records>, m: nat)
    requires Through(t, states) && m <= |Selected(t)|
    requires forall i | 0 <= i < |states| :: states[i] == Prefix(records, t, i).records
    ensures TurnOf(records, t).active == Prefix(records, t, m).active + Returned(t, states, m)
    decreases |Selected(t)| - m
  {
    hide EnsuredOf, Selected, ByID, Prefix, TurnOf;
    if m == |Selected(t)| {
      PrefixEnds(records, t);
    } else {
      PrefixStep(records, t, m);
      RestReturned(records, t, states, m + 1);
    }
  }
}

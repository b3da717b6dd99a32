/** When a saved rejection is revised, where stale records come from, and how long an approval lasts, under overlap. */
module Rejections {
  import opened Wrappers
  import opened VerdictCache
  import opened VerdictRuns

  // ---- from one moment of a run to a later one ----

  predicate Revises(s: State, step: Step, k: Key) { Approves(s, step, k) || Stales(s, step, k) }

  lemma StepRejected(s: State, step: Step, k: Key)
    requires IsRejected(s, k)
    ensures IsRejected(Next(s, step), k) <==> !Revises(s, step, k)
  {
    StepStatus(s, step, k);
    hide Next;
  }

  /** Whether a rejection of moment m stays through to the end of the run: exactly if no step revises it. */
  lemma {:induction false} RejectedKept(steps: seq<Step>, m: nat, k: Key)
    requires m <= |steps| && IsRejected(After(steps[..m]), k)
    ensures (forall n | m <= n <= |steps| :: IsRejected(After(steps[..n]), k)) <==>
            (forall n | m <= n < |steps| :: !Revises(After(steps[..n]), steps[n], k))
    decreases |steps| - m
  {
    hide Next, After, IsRejected, Revises;
    if m < |steps| {
      PrefixNext(steps, m);
      StepRejected(After(steps[..m]), steps[m], k);
      if IsRejected(After(steps[..m + 1]), k) {
        RejectedKept(steps, m + 1, k);
      }
    }
  }

  // ---- who revises ----

  /** The call is about to revise the record: it checks a bundle that passes, or holds an approval read before. */
  predicate InFlight(call: Call, k: Key) {
    || (SavesTo(call, k) && Passes(call.policy, call.answers.check))
    || (call.phase.Superseding? && call.phase.file == k)
  }

  lemma RevisesInFlight(s: State, step: Step, k: Key)
    ensures Revises(s, step, k) <==>
            || (step.Save? && step.c < |s.calls| && s.calls[step.c].phase.Checking? && InFlight(s.calls[step.c], k))
            || (step.Write? && step.c < |s.calls| && s.calls[step.c].phase.Superseding? && InFlight(s.calls[step.c], k))
  {
  }

  /** Every call began with a consistent catalog entry, on bundles without hash collisions. */
  ghost predicate Trusted(steps: seq<Step>, content: string -> Bundle) {
    forall i | 0 <= i < |steps| && steps[i].Begin? :: Genuine(steps[i].answers, content)
        && Consistent(steps[i].stored, content)
  }

  ghost predicate Proper(call: Call, content: string -> Bundle) {
    || call.phase.Ended?
    || (&& Genuine(call.answers, content) && Consistent(call.stored, content)
        && (call.phase.Checking? ==> Loaded(call.stored, call.answers) == Some(call.phase.bundle)))
  }

  ghost predicate AllProper(s: State, content: string -> Bundle) {
    forall c | 0 <= c < |s.calls| :: Proper(s.calls[c], content)
  }

  lemma StepProper(s: State, step: Step, content: string -> Bundle)
    requires AllProper(s, content)
    requires step.Begin? ==> Genuine(step.answers, content) && Consistent(step.stored, content)
    ensures AllProper(Next(s, step), content)
  {
    hide Genuine, Consistent;
    var t := Next(s, step);
    forall c | 0 <= c < |t.calls|
      ensures Proper(t.calls[c], content)
    {
      if c < |s.calls| {
        assert Proper(s.calls[c], content);
        StepCalls(s, step, c);
      }
    }
  }

  lemma {:induction false} RunProper(steps: seq<Step>, content: string -> Bundle)
    requires Trusted(steps, content)
    ensures AllProper(After(steps), content)
    decreases |steps|
  {
    hide Next, AllProper, Genuine, Consistent;
    if steps == [] {
      NoCalls(content);
    } else {
      var n := |steps| - 1;
      RunProper(steps[..n], content);
      StepProper(After(steps[..n]), steps[n], content);
    }
  }

  lemma NoCalls(content: string -> Bundle)
    ensures AllProper(INIT, content)
  {
  }

  /**
   The call looks at the store: by its Get, which sees no verdict that counts, or by reading the file
   while it is approved.
   */
  predicate Looks(s: State, step: Step, c: nat, k: Key) {
    || (step == Get(c) && In(s, c, Clearing({})) && !IsRejected(s, k) && !IsApproved(s, k))
    || (step == Read(c, k) && c < |s.calls| && s.calls[c].phase.Clearing? && IsApproved(s, k))
  }

  /** A call begins to be in flight only by such a step. */
  lemma StepInFlight(s: State, step: Step, c: nat, k: Key, content: string -> Bundle)
    requires AllProper(s, content) && c < |Next(s, step).calls| && InFlight(Next(s, step).calls[c], k)
    ensures c < |s.calls| && (InFlight(s.calls[c], k) || Looks(s, step, c, k))
  {
    if c < |s.calls| { assert Proper(s.calls[c], content); }
  }

  ghost predicate LooksAt(steps: seq<Step>, g: nat, c: nat, k: Key) {
    g < |steps| && Looks(After(steps[..g]), steps[g], c, k)
  }

  lemma {:induction false} FlightStart(steps: seq<Step>, c: nat, k: Key, content: string -> Bundle) returns (g: nat)
    requires Trusted(steps, content) && c < |After(steps).calls| && InFlight(After(steps).calls[c], k)
    ensures LooksAt(steps, g, c, k)
    decreases |steps|
  {
    g := 0;
    if steps != [] {
      var n := |steps| - 1;
      var init := steps[..n];
      RunProper(init, content);
      StepInFlight(After(init), steps[n], c, k, content);
      hide Next, InFlight, Looks, AllProper;
      if Looks(After(init), steps[n], c, k) {
        g := n;
      } else {
        g := FlightStart(init, c, k, content);
        assert init[..g] == steps[..g];
      }
    }
  }

  /** While the record is rejected no call comes in flight. */
  lemma {:induction false} FlewBefore(steps: seq<Step>, r: nat, c: nat, k: Key, content: string -> Bundle)
    requires Trusted(steps, content) && r <= |steps| && forall n | r <= n < |steps| :: IsRejected(After(steps[..n]), k)
    requires c < |After(steps).calls| && InFlight(After(steps).calls[c], k)
    ensures c < |After(steps[..r]).calls| && InFlight(After(steps[..r]).calls[c], k)
    decreases |steps|
  {
    if r == |steps| {
      assert steps[..r] == steps;
    } else {
      var n := |steps| - 1;
      var init := steps[..n];
      RunProper(init, content);
      StepInFlight(After(init), steps[n], c, k, content);
      assert IsRejected(After(steps[..n]), k);
      hide Next, InFlight, AllProper, Trusted;
      assert !Looks(After(init), steps[n], c, k);
      TrustedInit(steps, n, content);
      assert forall m | r <= m < n :: init[..m] == steps[..m];
      hide After;
      FlewBefore(init, r, c, k, content);
      assert init[..r] == steps[..r];
    }
  }

  lemma TrustedInit(steps: seq<Step>, n: nat, content: string -> Bundle)
    requires Trusted(steps, content) && n <= |steps|
    ensures Trusted(steps[..n], content)
  {
    hide Genuine, Consistent;
    assert forall i | 0 <= i < n :: steps[..n][i] == steps[i];
  }

  /**
   A step that revises a rejection of moment r that stood until then is a call's whose Get, or whose
   reading of the file in InvalidateOthers, came before r and saw no rejection.
   */
  lemma RevisedByEarlier(steps: seq<Step>, r: nat, step: Step, k: Key, content: string -> Bundle) returns (g: nat)
    requires Trusted(steps, content) && r <= |steps| && forall n | r <= n <= |steps| :: IsRejected(After(steps[..n]), k)
    requires Revises(After(steps), step, k)
    ensures step.Save? || step.Write?
    ensures g < r && LooksAt(steps, g, step.c, k)
  {
    RevisesInFlight(After(steps), step, k);
    FlewBefore(steps, r, step.c, k, content);
    TrustedInit(steps, r, content);
    hide After, InFlight, Looks, Trusted;
    g := FlightStart(steps[..r], step.c, k, content);
    assert steps[..r][..g] == steps[..g];
  }

  /** The record is rejected from here on, whatever trusted calls do. */
  ghost predicate RejectedOn(steps: seq<Step>, k: Key, content: string -> Bundle) {
    forall more: seq<Step> | Trusted(more, content) :: IsRejected(After(steps + more), k)
  }

  /** A rejection is final exactly if no call is in flight for its record. */
  lemma RejectedForeverExactly(steps: seq<Step>, k: Key, content: string -> Bundle)
    requires AllProper(After(steps), content) && IsRejected(After(steps), k)
    ensures RejectedOn(steps, k, content) <==>
            forall c | 0 <= c < |After(steps).calls| :: !InFlight(After(steps).calls[c], k)
  {
    hide After, Trusted, InFlight, IsRejected, AllProper;
    if c :| 0 <= c < |After(steps).calls| && InFlight(After(steps).calls[c], k) {
      var step := RevisingStep(After(steps), c, k);
      StepRejected(After(steps), step, k);
      OneMore(steps, step, content);
    }
    if forall c | 0 <= c < |After(steps).calls| :: !InFlight(After(steps).calls[c], k) {
      forall more: seq<Step> | Trusted(more, content)
        ensures IsRejected(After(steps + more), k)
      {
        StaysRejected(steps, more, k, content);
      }
    }
  }

  lemma RevisingStep(s: State, c: nat, k: Key) returns (step: Step)
    requires c < |s.calls| && InFlight(s.calls[c], k)
    ensures Revises(s, step, k) && !step.Begin?
  {
    step := if s.calls[c].phase.Checking? then Save(c) else Write(c);
  }

  lemma OneMore(steps: seq<Step>, step: Step, content: string -> Bundle)
    requires !step.Begin?
    ensures After(steps + [step]) == Next(After(steps), step) && Trusted([step], content)
  {
    hide Next, Genuine, Consistent;
    assert (steps + [step])[..|steps|] == steps;
  }

  /** A state from which a rejection is final. */
  ghost predicate Final(s: State, k: Key, content: string -> Bundle) {
    AllProper(s, content) && IsRejected(s, k) && forall c | 0 <= c < |s.calls| :: !InFlight(s.calls[c], k)
  }

  lemma StepFinal(s: State, step: Step, k: Key, content: string -> Bundle)
    requires Final(s, k, content)
    requires step.Begin? ==> Genuine(step.answers, content) && Consistent(step.stored, content)
    ensures Final(Next(s, step), k, content)
  {
    StepProper(s, step, content);
    RevisesInFlight(s, step, k);
    StepRejected(s, step, k);
    hide Next, InFlight, Revises, AllProper;
    forall c | 0 <= c < |Next(s, step).calls|
      ensures !InFlight(Next(s, step).calls[c], k)
    {
      NotInFlight(s, step, c, k, content);
    }
  }

  lemma {:induction false} StaysRejected(steps: seq<Step>, more: seq<Step>, k: Key, content: string -> Bundle)
    requires Trusted(more, content) && Final(After(steps), k, content)
    ensures Final(After(steps + more), k, content)
    decreases |more|
  {
    hide Final, After, Next, Genuine, Consistent;
    if more == [] {
      assert steps + more == steps;
    } else {
      var n := |more| - 1;
      var all := steps + more;
      assert all[..|all|] == all && all[..|all| - 1] == steps + more[..n] && all[|all| - 1] == more[n];
      PrefixNext(all, |all| - 1);
      StaysRejected(steps, more[..n], k, content);
      StepFinal(After(steps + more[..n]), more[n], k, content);
    }
  }

  lemma NotInFlight(s: State, step: Step, c: nat, k: Key, content: string -> Bundle)
    requires AllProper(s, content) && IsRejected(s, k) && c < |Next(s, step).calls|
    requires c < |s.calls| ==> !InFlight(s.calls[c], k)
    ensures !InFlight(Next(s, step).calls[c], k)
  {
    hide Next, InFlight, AllProper;
    if InFlight(Next(s, step).calls[c], k) {
      StepInFlight(s, step, c, k, content);
    }
  }

  // ---- stale records ----

  /** Whatever overlaps, a stale record was approved at an earlier moment of the run. */
  lemma StaleHeldApproval(steps: seq<Step>, k: Key) returns (g: nat)
    requires StatusOf(After(steps).records, k) == Some(Stale)
    ensures g < |steps| && IsApproved(After(steps[..g]), k)
  {
    hide StatusOf, After, LastMark, Mark, IsApproved;
    StatusExactly(steps, k, Stale);
    var j: nat :| LastMark(steps, k, j, Stale);
    StaleIsHeld(steps, k, j);
    g := HeldStart(steps[..j], steps[j].c, k);
    assert steps[..j][..g] == steps[..g];
  }

  lemma StaleIsHeld(steps: seq<Step>, k: Key, j: nat)
    requires LastMark(steps, k, j, Stale)
    ensures j < |steps| && steps[j].Write? && Holds(After(steps[..j]), steps[j].c, k)
  {
    hide After;
  }

  predicate Holds(s: State, c: nat, k: Key) {
    c < |s.calls| && s.calls[c].phase.Superseding? && s.calls[c].phase.file == k
  }

  lemma {:induction false} HeldStart(steps: seq<Step>, c: nat, k: Key) returns (g: nat)
    requires Holds(After(steps), c, k)
    ensures g < |steps| && IsApproved(After(steps[..g]), k)
    decreases |steps|
  {
    g := 0;
    if steps != [] {
      var n := |steps| - 1;
      var init := steps[..n];
      StepHeld(After(init), steps[n], c, k);
      hide Next, IsApproved, Holds;
      if IsApproved(After(init), k) {
        g := n;
      } else {
        g := HeldStart(init, c, k);
        assert init[..g] == steps[..g];
      }
    }
  }

  lemma StepHeld(s: State, step: Step, c: nat, k: Key)
    requires Holds(Next(s, step), c, k)
    ensures IsApproved(s, k) || Holds(s, c, k)
  {
  }

  // ---- how long an approval lasts ----

  /**
   From a moment of a run to its end: the record is approved exactly if it was and stayed so, or was
   approved since.
   */
  lemma {:induction false} ApprovedSince(steps: seq<Step>, e: nat, k: Key)
    requires e <= |steps|
    ensures IsApproved(After(steps), k) <==>
            || (IsApproved(After(steps[..e]), k)
                && forall m | e <= m < |steps| :: Mark(After(steps[..m]), steps[m], k) == None)
            || exists j: nat :: e <= j && Stands(steps, k, j)
    decreases |steps|
  {
    ApprovedExactly(steps, k);
    ApprovedExactly(steps[..e], k);
    hide After, Mark, IsApproved, Stands;
    if j: nat :| Stands(steps, k, j) {
      if j < e { StandsSplit(steps, e, k, j); }
    }
    if (exists j: nat :: Stands(steps[..e], k, j))
        && forall m | e <= m < |steps| :: Mark(After(steps[..m]), steps[m], k) == None {
      var j: nat :| Stands(steps[..e], k, j);
      StandsEarly(steps[..e], k, j);
      StandsSplit(steps, e, k, j);
    }
  }

  lemma StandsEarly(steps: seq<Step>, k: Key, j: nat)
    requires Stands(steps, k, j)
    ensures j < |steps|
  {
    hide After, Mark;
  }

  lemma StandsSplit(steps: seq<Step>, e: nat, k: Key, j: nat)
    requires j < e <= |steps|
    ensures Stands(steps, k, j) <==>
            Stands(steps[..e], k, j) && forall m | e <= m < |steps| :: Mark(After(steps[..m]), steps[m], k) == None
  {
    hide After, Mark;
    assert forall m | 0 <= m < e :: steps[..e][..m] == steps[..m] && steps[..e][m] == steps[m];
  }

  /** Step e ends the call with a bundle. */
  ghost predicate ReturnsAt(steps: seq<Step>, e: nat, c: nat, b: Bundle) {
    && e < |steps| && (steps[e] == Get(c) || steps[e] == Save(c))
    && In(After(steps[..e + 1]), c, Ended(Some(b))) && !In(After(steps[..e]), c, Ended(Some(b)))
  }

  lemma {:induction false} WasReturned(steps: seq<Step>, c: nat, b: Bundle) returns (e: nat)
    requires In(After(steps), c, Ended(Some(b)))
    ensures ReturnsAt(steps, e, c, b)
    decreases |steps|
  {
    e := 0;
    if steps != [] {
      var n := |steps| - 1;
      var init := steps[..n];
      PrefixNext(steps, n);
      assert steps[..n + 1] == steps;
      if In(After(init), c, Ended(Some(b))) {
        e := WasReturned(init, c, b);
        assert init[..e] == steps[..e] && init[..e + 1] == steps[..e + 1];
      } else {
        e := n;
      }
    }
  }

  /** The step that returns a bundle found it approved, or saves its approval, or could not save it. */
  lemma ReturnStep(s: State, step: Step, c: nat, b: Bundle, content: string -> Bundle)
    requires (step == Get(c) || step == Save(c)) && AllProper(s, content)
    requires In(Next(s, step), c, Ended(Some(b))) && !In(s, c, Ended(Some(b)))
    ensures c < |s.calls|
    ensures var call := s.calls[c];
            var k := KeyOf(call.stored, call.policy);
            && b.hash == call.stored.bundleHash && b.skillID == call.stored.skillID
            && (IsApproved(Next(s, step), k) <==> step.Get? || call.answers.saveOk || IsApproved(s, k))
  {
    if c < |s.calls| { assert Proper(s.calls[c], content); }
  }

  /**
   A bundle that a call returned, at some step e, is approved at the end of the run, whatever overlaps, exactly
   if it was approved right after e, as it was unless its approval could not be saved and none stood,
   and its record was not written since; or another approval of it was saved since, and stands.
   */
  lemma ReturnedApprovedExactly(steps: seq<Step>, c: nat, b: Bundle, content: string -> Bundle) returns (e: nat)
    requires Trusted(steps, content) && In(After(steps), c, Ended(Some(b)))
    ensures ReturnsAt(steps, e, c, b) && c < |After(steps[..e]).calls|
    ensures var call := After(steps[..e]).calls[c];
            var k := KeyOf(call.stored, call.policy);
            && b.hash == call.stored.bundleHash && b.skillID == call.stored.skillID
            && (IsApproved(After(steps), k) <==>
                  || ((steps[e].Get? || call.answers.saveOk || IsApproved(After(steps[..e]), k))
                      && forall m | e < m < |steps| :: Mark(After(steps[..m]), steps[m], k) == None)
                  || exists j: nat :: e < j && Stands(steps, k, j))
  {
    e := WasReturned(steps, c, b);
    TrustedInit(steps, e, content);
    RunProper(steps[..e], content);
    PrefixNext(steps, e);
    hide After, Next, Mark, Stands, IsApproved, Trusted, AllProper;
    ReturnStep(After(steps[..e]), steps[e], c, b, content);
    ApprovedSince(steps, e + 1, KeyOf(After(steps[..e]).calls[c].stored, After(steps[..e]).calls[c].policy));
  }

  // ---- two runs ----

  datatype Order = Order(policy: Policy, stored: StoredSkill, answers: Answers)

  lemma {:induction false} AfterFour(steps: seq<Step>, a: Step, b: Step, c: Step, d: Step)
    ensures After(steps + [a, b, c, d]) == Next(Next(Next(Next(After(steps), a), b), c), d)
    ensures After(steps + [a, b, c]) == Next(Next(Next(After(steps), a), b), c)
  {
    hide Next;
    assert (steps + [a, b, c, d])[..|steps| + 3] == steps + [a, b, c];
    assert (steps + [a, b, c])[..|steps| + 2] == steps + [a, b];
    assert (steps + [a, b])[..|steps| + 1] == steps + [a];
    assert (steps + [a])[..|steps|] == steps;
    assert After(steps + [a]) == Next(After(steps), a);
    assert After(steps + [a, b]) == Next(After(steps + [a]), b);
    assert After(steps + [a, b, c]) == Next(After(steps + [a, b]), c);
  }

  function BothBegin(o1: Order, o2: Order): seq<Step> {
    [Begin(o1.policy, o1.stored, o1.answers), Begin(o2.policy, o2.stored, o2.answers), List(0), List(1)]
  }

  /** Two calls whose steps alternate: both get no verdict before either saves one. */
  function BothAtOnce(o1: Order, o2: Order): seq<Step> { BothBegin(o1, o2) + [Get(0), Get(1), Save(0), Save(1)] }

  function Checks(o: Order, b: Bundle): Call { Call(o.policy, o.stored, o.answers, Checking(b)) }

  lemma BothGet(o1: Order, o2: Order, b1: Bundle, b2: Bundle)
    requires o1.answers.getOk && o2.answers.getOk
    requires Loaded(o1.stored, o1.answers) == Some(b1) && Loaded(o2.stored, o2.answers) == Some(b2)
    ensures After(BothAtOnce(o1, o2)) == Next(Next(State(map[], [Checks(o1, b1), Checks(o2, b2)]), Save(0)), Save(1))
  {
    AfterFour([], Begin(o1.policy, o1.stored, o1.answers), Begin(o2.policy, o2.stored, o2.answers), List(0), List(1));
    assert [] + BothBegin(o1, o2) == BothBegin(o1, o2);
    AfterFour(BothBegin(o1, o2), Get(0), Get(1), Save(0), Save(1));
    hide After;
    BothListed(o1, o2);
    BothLook(o1, o2, b1, b2);
  }

  lemma BothListed(o1: Order, o2: Order)
    ensures Next(Next(Next(Next(INIT, Begin(o1.policy, o1.stored, o1.answers)),
            Begin(o2.policy, o2.stored, o2.answers)),
                      List(0)), List(1)) ==
            State(map[],
                [Call(o1.policy, o1.stored, o1.answers, Clearing({})),
                    Call(o2.policy, o2.stored, o2.answers, Clearing({}))])
  {
    assert forall call: Call :: Listed(map[], call) == {};
  }

  lemma BothLook(o1: Order, o2: Order, b1: Bundle, b2: Bundle)
    requires o1.answers.getOk && o2.answers.getOk
    requires Loaded(o1.stored, o1.answers) == Some(b1) && Loaded(o2.stored, o2.answers) == Some(b2)
    ensures Next(Next(State(map[], [Call(o1.policy, o1.stored, o1.answers, Clearing({})),
                                    Call(o2.policy, o2.stored, o2.answers, Clearing({}))]), Get(0)), Get(1)) ==
            State(map[], [Checks(o1, b1), Checks(o2, b2)])
  {
  }

  /** From an empty store: two turns that validate different bundles of a skill at the same time leave both approved. */
  lemma ConcurrentBothApproved(o1: Order, o2: Order, b1: Bundle, b2: Bundle)
    requires o1.answers.getOk && o1.answers.saveOk && o2.answers.getOk && o2.answers.saveOk
    requires Passes(o1.policy, o1.answers.check) && Passes(o2.policy, o2.answers.check)
             && o1.policy.version == o2.policy.version
    requires Loaded(o1.stored, o1.answers) == Some(b1) && Loaded(o2.stored, o2.answers) == Some(b2)
    requires b1.skillID == b2.skillID && b1.hash != b2.hash
    ensures !OneApproved(After(BothAtOnce(o1, o2)).records)
  {
    BothGet(o1, o2, b1, b2);
    hide After, Passes;
    BothSave(Checks(o1, b1), Checks(o2, b2));
  }

  /** Two calls that both go on to save approvals of different bundles of a skill. */
  lemma BothSave(c1: Call, c2: Call)
    requires c1.phase.Checking? && c2.phase.Checking? && c1.answers.saveOk && c2.answers.saveOk
    requires Passes(c1.policy, c1.answers.check) && Passes(c2.policy, c2.answers.check)
             && c1.policy.version == c2.policy.version
    requires c1.phase.bundle.skillID == c2.phase.bundle.skillID && c1.phase.bundle.hash != c2.phase.bundle.hash
    ensures !OneApproved(Next(Next(State(map[], [c1, c2]), Save(0)), Save(1)).records)
  {
    var t := Next(Next(State(map[], [c1, c2]), Save(0)), Save(1));
    var k1 := Key(c1.phase.bundle.skillID, c1.policy.version, c1.phase.bundle.hash);
    var k2 := Key(c2.phase.bundle.skillID, c2.policy.version, c2.phase.bundle.hash);
    hide Passes;
    assert k1 in t.records && k2 in t.records && t.records[k1].status == Approved && t.records[k2].status == Approved
        && k1 != k2;
  }

  /**
   From an empty store: two turns that validate the same bundle at the same time, the first rejecting
   it and the second not. The rejection is saved, then overwritten, and the skill is activated.
   */
  lemma ConcurrentRevised(o1: Order, o2: Order, b: Bundle)
    requires o1.answers.getOk && o1.answers.saveOk && o2.answers.getOk && o2.answers.saveOk
    requires !Passes(o1.policy, o1.answers.check) && Passes(o2.policy, o2.answers.check)
             && o1.policy.version == o2.policy.version
    requires Loaded(o1.stored, o1.answers) == Some(b) && Loaded(o2.stored, o2.answers) == Some(b)
    ensures var steps := BothAtOnce(o1, o2);
            var k := Key(b.skillID, o1.policy.version, b.hash);
            && IsRejected(After(steps[..7]), k)
            && IsApproved(After(steps), k) && In(After(steps), 1, Ended(Some(b)))
  {
    BothGet(o1, o2, b, b);
    var steps := BothAtOnce(o1, o2);
    assert steps[..7] + [Save(1)] == steps;
    AfterSeven(o1, o2, b);
    hide After, Passes;
    SaveBoth(Checks(o1, b), Checks(o2, b));
  }

  lemma AfterSeven(o1: Order, o2: Order, b: Bundle)
    requires o1.answers.getOk && o2.answers.getOk
    requires Loaded(o1.stored, o1.answers) == Some(b) && Loaded(o2.stored, o2.answers) == Some(b)
    ensures After(BothAtOnce(o1, o2)[..7]) == Next(State(map[], [Checks(o1, b), Checks(o2, b)]), Save(0))
  {
    AfterFour([], Begin(o1.policy, o1.stored, o1.answers), Begin(o2.policy, o2.stored, o2.answers), List(0), List(1));
    assert [] + BothBegin(o1, o2) == BothBegin(o1, o2);
    AfterFour(BothBegin(o1, o2), Get(0), Get(1), Save(0), Save(1));
    assert BothAtOnce(o1, o2)[..7] == BothBegin(o1, o2) + [Get(0), Get(1), Save(0)];
    hide After, Next;
    BothListed(o1, o2);
    BothLook(o1, o2, b, b);
  }

  lemma SaveBoth(c1: Call, c2: Call)
    requires c1.phase.Checking? && c2.phase.Checking? && c1.answers.saveOk && c2.answers.saveOk
    requires !Passes(c1.policy, c1.answers.check) && Passes(c2.policy, c2.answers.check)
             && c1.policy.version == c2.policy.version
    requires c1.phase.bundle == c2.phase.bundle
    ensures var k := Key(c1.phase.bundle.skillID, c1.policy.version, c1.phase.bundle.hash);
            var t := Next(State(map[], [c1, c2]), Save(0));
            && IsRejected(t, k) && IsApproved(Next(t, Save(1)), k)
            && In(Next(t, Save(1)), 1, Ended(Some(c2.phase.bundle)))
  {
  }

  /**
   An approval is read by the InvalidateOthers of another bundle's call, a rejection is saved, and the
   approval is written as stale.
   */
  function Middle(o: Order, k: Key): seq<Step> { [List(2), Read(2, k), Save(1), Write(2)] }

  function StaleRun(o1: Order, o2: Order, other: Order, again: Order, k: Key): seq<Step> {
    BothBegin(o1, o2) + [Get(0), Get(1), Save(0), Begin(other.policy, other.stored, other.answers)] + Middle(other, k)
    + [Begin(again.policy, again.stored, again.answers), List(3), Get(3), Save(3)]
  }

  /** The calls of the run pass, fail, belong to another bundle, and pass. */
  predicate StaleOrders(o1: Order, o2: Order, other: Order, again: Order, b: Bundle, k: Key) {
    && o1.answers.getOk && o1.answers.saveOk && o2.answers.getOk && o2.answers.saveOk && again.answers.getOk
    && again.answers.saveOk
    && Passes(o1.policy, o1.answers.check) && !Passes(o2.policy, o2.answers.check)
    && Passes(again.policy, again.answers.check)
    && Loaded(o1.stored, o1.answers) == Some(b) && Loaded(o2.stored, o2.answers) == Some(b)
    && Loaded(again.stored, again.answers) == Some(b)
    && k == Key(b.skillID, o1.policy.version, b.hash) && k == KeyOf(again.stored, again.policy)
    && o2.policy.version == o1.policy.version
    && Rivals(KeyOf(other.stored, other.policy), k) && other.answers.dirOk && other.answers.entryOk(k.bundleHash)
  }

  /**
   From an empty store: InvalidateOthers, between its reading and its writing of a file, turns a rejection
   saved meanwhile into a stale record, and the next call approves and activates the bundle.
   */
  lemma StaleOverRejection(o1: Order, o2: Order, other: Order, again: Order, b: Bundle, k: Key)
    requires StaleOrders(o1, o2, other, again, b, k)
    ensures var steps := StaleRun(o1, o2, other, again, k);
            && IsRejected(After(steps[..11]), k) && StatusOf(After(steps[..12]).records, k) == Some(Stale)
            && IsApproved(After(steps), k) && In(After(steps), 3, Ended(Some(b)))
  {
    var steps := StaleRun(o1, o2, other, again, k);
    var p8 := BothBegin(o1, o2) + [Get(0), Get(1), Save(0), Begin(other.policy, other.stored, other.answers)];
    AfterFour([], Begin(o1.policy, o1.stored, o1.answers), Begin(o2.policy, o2.stored, o2.answers), List(0), List(1));
    assert [] + BothBegin(o1, o2) == BothBegin(o1, o2);
    AfterFour(BothBegin(o1, o2), Get(0), Get(1), Save(0), Begin(other.policy, other.stored, other.answers));
    AfterFour(p8, List(2), Read(2, k), Save(1), Write(2));
    AfterFour(p8 + Middle(other, k), Begin(again.policy, again.stored, again.answers), List(3), Get(3), Save(3));
    assert steps[..12] == p8 + Middle(other, k) && steps[..11] == p8 + [List(2), Read(2, k), Save(1)];
    hide After, Next, StaleOrders;
    BothListed(o1, o2);
    FirstApproved(o1, o2, other, again, b, k);
    MiddleStales(o1, o2, other, again, b, k);
    AgainApproved(o1, o2, other, again, b, k);
  }

  function RecordOf(k: Key, status: Status, o: Order): Record {
    Record(k, status, if o.answers.check.findings > 0 || o.answers.check.cancelled
        then 0.0 else o.answers.check.confidence)
  }

  function Ends(o: Order, result: Option<Bundle>): Call { Call(o.policy, o.stored, o.answers, Ended(result)) }

  lemma FirstApproved(o1: Order, o2: Order, other: Order, again: Order, b: Bundle, k: Key)
    requires StaleOrders(o1, o2, other, again, b, k)
    ensures Next(Next(Next(Next(State(map[], [Call(o1.policy, o1.stored, o1.answers, Clearing({})),
                                              Call(o2.policy, o2.stored, o2.answers, Clearing({}))]), Get(0)), Get(1)),
                                                  Save(0)),
                 Begin(other.policy, other.stored, other.answers)) ==
            State(map[k := RecordOf(k, Approved, o1)],
                  [Ends(o1, Some(b)), Checks(o2, b), Call(other.policy, other.stored, other.answers, Begun)])
  {
    BothLook(o1, o2, b, b);
    hide Passes;
  }

  lemma MiddleStales(o1: Order, o2: Order, other: Order, again: Order, b: Bundle, k: Key)
    requires StaleOrders(o1, o2, other, again, b, k)
    ensures var s := State(map[k := RecordOf(k, Approved, o1)],
                           [Ends(o1, Some(b)), Checks(o2, b), Call(other.policy, other.stored, other.answers, Begun)]);
            var t := Next(Next(Next(s, List(2)), Read(2, k)), Save(1));
            && IsRejected(t, k)
            && Next(t, Write(2)) == State(map[k := RecordOf(k, Stale, o1)],
                                          [Ends(o1, Some(b)), Ends(o2, None),
                                              Call(other.policy, other.stored, other.answers, Clearing({}))])
  {
    var approved := RecordOf(k, Approved, o1);
    var c := Call(other.policy, other.stored, other.answers, Begun);
    var s := State(map[k := approved], [Ends(o1, Some(b)), Checks(o2, b), c]);
    assert Listed(s.records, c) == {k};
    var s1 := Next(s, List(2));
    assert s1.calls == [Ends(o1, Some(b)), Checks(o2, b), c.(phase := Clearing({k}))];
    var s2 := Next(s1, Read(2, k));
    assert {k} - {k} == {};
    assert s2.calls == [Ends(o1, Some(b)), Checks(o2, b), c.(phase := Superseding({}, k, approved))];
    var s3 := Next(s2, Save(1));
    assert s3.calls == [Ends(o1, Some(b)), Ends(o2, None), c.(phase := Superseding({}, k, approved))];
    hide Passes;
  }

  lemma AgainApproved(o1: Order, o2: Order, other: Order, again: Order, b: Bundle, k: Key)
    requires StaleOrders(o1, o2, other, again, b, k)
    ensures var s := State(map[k := RecordOf(k, Stale, o1)],
                           [Ends(o1, Some(b)), Ends(o2, None),
                               Call(other.policy, other.stored, other.answers, Clearing({}))]);
            var t := Next(Next(Next(Next(s, Begin(again.policy, again.stored, again.answers)), List(3)), Get(3)),
                Save(3));
            IsApproved(t, k) && In(t, 3, Ended(Some(b)))
  {
    var c := Call(again.policy, again.stored, again.answers, Begun);
    var stale := map[k := RecordOf(k, Stale, o1)];
    assert Listed(stale, c) == {};
    hide Passes;
  }
}

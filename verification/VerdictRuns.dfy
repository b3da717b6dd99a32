/** Calls of ensureApproved that overlap, step by step, and what they leave in the store. */
module VerdictRuns {
  import opened Wrappers
  import opened VerdictCache

  /** Where a call stands. */
  datatype Phase =
    | Begun
    | Clearing(todo: set<Key>)                              // InvalidateOthers: the files still to read
    | Superseding(todo: set<Key>, file: Key, held: Record)  // an approved record was read, to be written as stale
    | Checking(bundle: Bundle)                              // past Get, with a bundle to validate and save
    | Ended(result: Option<Bundle>)

  datatype Call = Call(policy: Policy, stored: StoredSkill, answers: Answers, phase: Phase)

  /** The store and all calls so far; calls are numbered in the order in which they begin. */
  datatype State = State(records: Records, calls: seq<Call>)

  const INIT := State(map[], [])

  datatype Step =
    | Begin(policy: Policy, stored: StoredSkill, answers: Answers)
    | List(c: nat)          // InvalidateOthers reads the directory
    | Read(c: nat, k: Key)  // it reads one record file
    | Write(c: nat)         // it rewrites that file
    | Get(c: nat)
    | Save(c: nat)

  predicate In(s: State, c: nat, phase: Phase) { c < |s.calls| && s.calls[c].phase == phase }

  function At(s: State, c: nat, phase: Phase): State
    requires c < |s.calls|
  {
    s.(calls := s.calls[c := s.calls[c].(phase := phase)])
  }

  /** The files that InvalidateOthers finds, but for the call's own. */
  function Listed(records: Records, call: Call): set<Key> {
    if !call.answers.dirOk then {}
    else set k | k in records && Rivals(KeyOf(call.stored, call.policy), k)
  }

  /** Another bundle of the same skill under the same policy version. */
  predicate Rivals(k: Key, other: Key) {
    k.skillID == other.skillID && k.policyVersion == other.policyVersion && k.bundleHash != other.bundleHash
  }

  function AfterRead(call: Call, todo: set<Key>, records: Records, k: Key): Phase {
    if call.answers.entryOk(k.bundleHash) && k in records && records[k].status == Approved
    then Superseding(todo - {k}, k, records[k])
    else Clearing(todo - {k})
  }

  /** What a call does after its Get. */
  function AfterGet(call: Call, records: Records): Phase {
    var k := KeyOf(call.stored, call.policy);
    if !call.answers.getOk then Ended(None)
    else if k in records && records[k].status == Rejected then Ended(None)
    else if k in records && records[k].status == Approved then Ended(Loaded(call.stored, call.answers))
    else
      match Loaded(call.stored, call.answers)
      case None => Ended(None)
      case Some(b) => Checking(b)
  }

  /** One step; a step that is not possible changes nothing. */
  function Next(s: State, step: Step): State {
    match step
    case Begin(policy, stored, a) => s.(calls := s.calls + [Call(policy, stored, a, Begun)])
    case List(c) =>
      if !In(s, c, Begun) then s else At(s, c, Clearing(Listed(s.records, s.calls[c])))
    case Read(c, k) =>
      if c >= |s.calls| || !s.calls[c].phase.Clearing? || k !in s.calls[c].phase.todo then s
      else At(s, c, AfterRead(s.calls[c], s.calls[c].phase.todo, s.records, k))
    case Write(c) =>
      if c >= |s.calls| || !s.calls[c].phase.Superseding? then s
      else
        var p := s.calls[c].phase;
        At(s, c, Clearing(p.todo)).(records := s.records[p.file := p.held.(status := Stale)])
    case Get(c) =>
      if !In(s, c, Clearing({})) then s else At(s, c, AfterGet(s.calls[c], s.records))
    case Save(c) =>
      if c >= |s.calls| || !s.calls[c].phase.Checking? then s
      else
        var call := s.calls[c];
        var rec := Verdict(call.phase.bundle, call.policy, call.answers.check);
        At(s, c, Ended(if rec.status == Approved then Some(call.phase.bundle) else None)).(records :=
          if call.answers.saveOk then s.records[rec.key := rec] else s.records)
  }

  function After(steps: seq<Step>): State
    decreases |steps|
  {
    if steps == [] then INIT else Next(After(steps[..|steps| - 1]), steps[|steps| - 1])
  }

  lemma PrefixNext(steps: seq<Step>, n: nat)
    requires n < |steps|
    ensures After(steps[..n + 1]) == Next(After(steps[..n]), steps[n])
  {
    assert steps[..n + 1][..n] == steps[..n];
  }

  // ---- the status of a record ----

  /** The key under which a call that checks a bundle saves its verdict. */
  predicate SavesTo(call: Call, k: Key) {
    && call.phase.Checking? && call.answers.saveOk
    && k == Key(call.phase.bundle.skillID, call.policy.version, call.phase.bundle.hash)
  }

  predicate Saves(s: State, step: Step, k: Key) { step.Save? && step.c < |s.calls| && SavesTo(s.calls[step.c], k) }

  predicate Approves(s: State, step: Step, k: Key) {
    Saves(s, step, k) && Passes(s.calls[step.c].policy, s.calls[step.c].answers.check)
  }

  predicate Rejects(s: State, step: Step, k: Key) {
    Saves(s, step, k) && !Passes(s.calls[step.c].policy, s.calls[step.c].answers.check)
  }

  predicate Stales(s: State, step: Step, k: Key) {
    step.Write? && step.c < |s.calls| && s.calls[step.c].phase.Superseding? && s.calls[step.c].phase.file == k
  }

  /** The status that a step writes, if it writes the record of this key. */
  function Mark(s: State, step: Step, k: Key): Option<Status> {
    if Approves(s, step, k) then Some(Approved)
    else if Rejects(s, step, k) then Some(Rejected)
    else if Stales(s, step, k) then Some(Stale)
    else None
  }

  lemma StepStatus(s: State, step: Step, k: Key)
    ensures StatusOf(Next(s, step).records, k) ==
            if Mark(s, step, k).Some? then Mark(s, step, k) else StatusOf(s.records, k)
  {
  }

  predicate IsApproved(s: State, k: Key) { StatusOf(s.records, k) == Some(Approved) }

  predicate IsRejected(s: State, k: Key) { StatusOf(s.records, k) == Some(Rejected) }

  /** The record was written at step j with this status, and not since. */
  ghost predicate LastMark(steps: seq<Step>, k: Key, j: nat, status: Status) {
    && j < |steps| && Mark(After(steps[..j]), steps[j], k) == Some(status)
    && forall m | j < m < |steps| :: Mark(After(steps[..m]), steps[m], k) == None
  }

  lemma LastMarkMore(steps: seq<Step>, k: Key, j: nat, status: Status)
    requires steps != [] && j < |steps| - 1
    ensures var n := |steps| - 1;
            LastMark(steps, k, j, status) <==>
                LastMark(steps[..n], k, j, status) && Mark(After(steps[..n]), steps[n], k) == None
  {
    var n := |steps| - 1;
    hide After, Mark;
    assert forall m | 0 <= m < n :: steps[..n][..m] == steps[..m] && steps[..n][m] == steps[m];
  }

  /** In every run a record has a status exactly if that is the one written last. */
  lemma {:induction false} StatusExactly(steps: seq<Step>, k: Key, status: Status)
    ensures StatusOf(After(steps).records, k) == Some(status) <==> exists j :: LastMark(steps, k, j, status)
    decreases |steps|
  {
    if steps != [] {
      var n := |steps| - 1;
      var init := steps[..n];
      StatusExactly(init, k, status);
      StepStatus(After(init), steps[n], k);
      hide Next, Mark, StatusOf;
      forall j: nat | j < n
        ensures LastMark(steps, k, j, status) <==>
                LastMark(init, k, j, status) && Mark(After(init), steps[n], k) == None
      {
        LastMarkMore(steps, k, j, status);
      }
      if Mark(After(init), steps[n], k) == Some(status) {
        assert LastMark(steps, k, n, status);
      }
      if j :| LastMark(steps, k, j, status) {
        assert j == n || LastMark(init, k, j, status);
      }
    }
  }

  /** An approval of the key was saved at step j and stands. */
  ghost predicate Stands(steps: seq<Step>, k: Key, j: nat) { LastMark(steps, k, j, Approved) }

  /** A record is approved exactly if some approval stands. */
  lemma ApprovedExactly(steps: seq<Step>, k: Key)
    ensures IsApproved(After(steps), k) <==> exists j :: Stands(steps, k, j)
  {
    StatusExactly(steps, k, Approved);
    hide LastMark;
    forall j
      ensures Stands(steps, k, j) <==> LastMark(steps, k, j, Approved)
    {
    }
  }

  // ---- when a save breaks the rule of one approval ----

  /** Step n saves an approval while the approval of a rival stands. */
  ghost predicate Clashes(steps: seq<Step>, n: nat) {
    && n < |steps|
    && exists k, other, j ::
         Approves(After(steps[..n]), steps[n], k) && Rivals(k, other) && Stands(steps[..n], other, j)
  }

  lemma OneApprovedIs(s: State)
    ensures OneApproved(s.records) <==>
            forall k, other | Rivals(k, other) :: !(IsApproved(s, k) && IsApproved(s, other))
  {
    if forall k, other | Rivals(k, other) :: !(IsApproved(s, k) && IsApproved(s, other)) {
      forall k1, k2 | k1 in s.records && k2 in s.records && k1.skillID == k2.skillID
          && k1.policyVersion == k2.policyVersion
                      && s.records[k1].status == Approved && s.records[k2].status == Approved
        ensures k1 == k2
      {
        assert IsApproved(s, k1) && IsApproved(s, k2) && !Rivals(k1, k2);
      }
    }
  }

  lemma StepApproved(s: State, step: Step, k: Key)
    ensures IsApproved(Next(s, step), k) <==> Approves(s, step, k) || (IsApproved(s, k) && Mark(s, step, k) == None)
  {
    StepStatus(s, step, k);
    hide Next;
  }

  /** A step from a state with one approval breaks the rule exactly if it is such a save. */
  lemma StepBreaks(steps: seq<Step>, n: nat)
    requires n < |steps| && OneApproved(After(steps[..n]).records)
    ensures OneApproved(Next(After(steps[..n]), steps[n]).records) <==> !Clashes(steps, n)
  {
    var s, t := After(steps[..n]), Next(After(steps[..n]), steps[n]);
    OneApprovedIs(s);
    OneApprovedIs(t);
    forall k
      ensures IsApproved(t, k) <==> Approves(s, steps[n], k) || (IsApproved(s, k) && Mark(s, steps[n], k) == None)
      ensures IsApproved(s, k) <==> exists j :: Stands(steps[..n], k, j)
    {
      StepApproved(s, steps[n], k);
      ApprovedExactly(steps[..n], k);
    }
    hide Next, IsApproved, Stands, After, OneApproved, Mark, Approves;
    if OneApproved(t.records) {
      forall k, other, j | Approves(s, steps[n], k) && Rivals(k, other) && Stands(steps[..n], other, j)
        ensures false
      {
        SaveMarksOwn(s, steps[n], k, other);
      }
    }
    if !Clashes(steps, n) {
      forall k, other | Rivals(k, other)
        ensures !(IsApproved(t, k) && IsApproved(t, other))
      {
        NoClash(steps, n, k, other);
      }
    }
  }

  /** Without a clash no two rivals become approved. */
  lemma NoClash(steps: seq<Step>, n: nat, k: Key, other: Key)
    requires n < |steps| && !Clashes(steps, n) && Rivals(k, other)
    requires !(IsApproved(After(steps[..n]), k) && IsApproved(After(steps[..n]), other))
    ensures !(IsApproved(Next(After(steps[..n]), steps[n]), k) && IsApproved(Next(After(steps[..n]), steps[n]), other))
  {
    var s := After(steps[..n]);
    StepApproved(s, steps[n], k);
    StepApproved(s, steps[n], other);
    ApprovedExactly(steps[..n], k);
    ApprovedExactly(steps[..n], other);
    hide Next, IsApproved, Stands, After, Mark, Saves;
    assert Rivals(other, k);
    if Approves(s, steps[n], k) && Approves(s, steps[n], other) {
      SaveOne(s, steps[n], k, other);
    }
  }

  /** A save writes no other record. */
  lemma SaveMarksOwn(s: State, step: Step, k: Key, other: Key)
    requires Approves(s, step, k) && k != other
    ensures Mark(s, step, other) == None && !Approves(s, step, other)
  {
  }

  lemma SaveOne(s: State, step: Step, k: Key, other: Key)
    requires Approves(s, step, k) && Approves(s, step, other)
    ensures k == other
  {
  }

  /**
   Over a whole run with any overlap and any failures: at every moment at most one bundle of each skill
   is approved under a policy version, exactly if no call ever saved an approval while an approval of
   another bundle stood.
   */
  lemma {:induction false} OneApprovedExactly(steps: seq<Step>)
    ensures (forall n | 0 <= n <= |steps| :: OneApproved(After(steps[..n]).records)) <==>
            (forall n | 0 <= n < |steps| :: !Clashes(steps, n))
    decreases |steps|
  {
    hide Next, OneApproved, Clashes;
    FirstClash(steps, 0);
    if forall n | 0 <= n < |steps| :: !Clashes(steps, n) {
      KeptTo(steps, |steps|);
    }
  }

  lemma InitOne(steps: seq<Step>)
    ensures OneApproved(After(steps[..0]).records)
  {
  }

  lemma {:induction false} KeptTo(steps: seq<Step>, n: nat)
    requires n <= |steps| && forall i | 0 <= i < |steps| :: !Clashes(steps, i)
    ensures forall i | 0 <= i <= n :: OneApproved(After(steps[..i]).records)
    decreases n
  {
    hide After, Next, OneApproved, Clashes;
    if n == 0 {
      InitOne(steps);
    } else {
      KeptTo(steps, n - 1);
      StepBreaks(steps, n - 1);
      PrefixNext(steps, n - 1);
    }
  }

  lemma {:induction false} FirstClash(steps: seq<Step>, n: nat)
    requires n <= |steps|
    ensures (forall i | 0 <= i <= |steps| :: OneApproved(After(steps[..i]).records)) ==>
            (forall i | n <= i < |steps| :: !Clashes(steps, i))
    decreases |steps| - n
  {
    hide After, Next, OneApproved, Clashes;
    if n < |steps| && forall i | 0 <= i <= |steps| :: OneApproved(After(steps[..i]).records) {
      FirstClash(steps, n + 1);
      PrefixNext(steps, n);
      assert OneApproved(After(steps[..n]).records) && OneApproved(After(steps[..n + 1]).records);
      StepBreaks(steps, n);
    }
  }

  // ---- the clash lies between a call's listing and its save ----

  /** Step i is the listing of the call's InvalidateOthers. */
  predicate ListedAt(steps: seq<Step>, c: nat, i: nat) {
    i < |steps| && steps[i] == List(c) && In(After(steps[..i]), c, Begun)
  }

  ghost predicate SameCall(a: Call, b: Call) { a.policy == b.policy && a.stored == b.stored && a.answers == b.answers }

  /** A file that a call's InvalidateOthers still has to deal with. */
  predicate Pending(phase: Phase, k: Key) {
    || (phase.Clearing? && k in phase.todo)
    || (phase.Superseding? && (k in phase.todo || k == phase.file))
  }

  /** Calls stay, and go on from phase to phase. */
  lemma StepCalls(s: State, step: Step, c: nat)
    requires c < |s.calls|
    ensures c < |Next(s, step).calls| && SameCall(Next(s, step).calls[c], s.calls[c])
    ensures Next(s, step).calls[c].phase != Begun && s.calls[c].phase == Begun ==>
              step == List(c) && Next(s, step).calls[c].phase == Clearing(Listed(s.records, s.calls[c]))
    ensures Next(s, step).calls[c].phase == Begun ==> s.calls[c].phase == Begun
    ensures Next(s, step).calls[c].phase.Checking? ==>
              s.calls[c].phase == Next(s, step).calls[c].phase
              || (s.calls[c].phase == Clearing({})
                  && Loaded(s.calls[c].stored, s.calls[c].answers) == Some(Next(s, step).calls[c].phase.bundle))
  {
    hide Listed;
  }

  lemma NewCall(s: State, step: Step, c: nat)
    requires c < |Next(s, step).calls| && Next(s, step).calls[c].phase != Begun
    ensures c < |s.calls|
  {
  }

  /** A file that is approved is dealt with only by being written as stale. */
  lemma StepPending(s: State, step: Step, c: nat, k: Key)
    requires c < |s.calls| && s.calls[c].answers.entryOk(k.bundleHash) && IsApproved(s, k)
             && Pending(s.calls[c].phase, k)
    requires Mark(s, step, k) == None
    ensures Pending(Next(s, step).calls[c].phase, k)
  {
  }

  lemma ListedPending(records: Records, call: Call, k: Key)
    requires call.answers.dirOk && StatusOf(records, k) == Some(Approved) && Rivals(KeyOf(call.stored, call.policy), k)
    ensures Pending(Clearing(Listed(records, call)), k)
  {
  }

  lemma StandsApproved(steps: seq<Step>, k: Key, j: nat)
    requires Stands(steps, k, j)
    ensures IsApproved(After(steps), k)
  {
    ApprovedExactly(steps, k);
  }

  /**
   A call whose catalog entry is consistent, on bundles without hash collisions, that can clear the
   others' records.
   */
  ghost predicate Sure(call: Call, content: string -> Bundle) {
    && Genuine(call.answers, content) && Consistent(call.stored, content) && CanClear(call.answers)
  }

  /**
   A call that is past its beginning was listing at some step i, and validates the bundle that was
   loaded; a rival's approval that is older than the listing and stands is one it still has to deal with.
   */
  lemma {:induction false} WasListed(steps: seq<Step>, c: nat) returns (i: nat)
    requires c < |After(steps).calls| && After(steps).calls[c].phase != Begun
    ensures ListedAt(steps, c, i) && SameCall(After(steps[..i]).calls[c], After(steps).calls[c])
    ensures var call := After(steps).calls[c];
            && (call.phase.Checking? ==> Loaded(call.stored, call.answers) == Some(call.phase.bundle))
            && (CanClear(call.answers) ==>
                  forall k, j: nat | j < i && Rivals(KeyOf(call.stored, call.policy), k)
                      && Stands(steps, k, j) :: Pending(call.phase, k))
    decreases |steps|
  {
    i := 0;
    if steps != [] {
      var n := |steps| - 1;
      var init := steps[..n];
      var s, call := After(init), After(steps).calls[c];
      PrefixNext(steps, n);
      assert steps[..n + 1] == steps;
      NewCall(s, steps[n], c);
      StepCalls(s, steps[n], c);
      if s.calls[c].phase == Begun {
        i := n;
      } else {
        i := WasListed(init, c);
        assert init[..i] == steps[..i];
      }
      hide Next, Loaded, Mark, After, Stands, Listed;
      forall k, j: nat | CanClear(call.answers) && j < i && Rivals(KeyOf(call.stored, call.policy), k)
          && Stands(steps, k, j)
        ensures Pending(call.phase, k)
      {
        StandsBefore(steps, k, j);
        if i == n {
          ListedPending(s.records, s.calls[c], k);
        } else {
          StepPending(s, steps[n], c, k);
        }
      }
    }
  }

  lemma StandsBefore(steps: seq<Step>, k: Key, j: nat)
    requires Stands(steps, k, j) && j < |steps| - 1
    ensures var n := |steps| - 1;
            Stands(steps[..n], k, j) && IsApproved(After(steps[..n]), k) && Mark(After(steps[..n]), steps[n], k) == None
  {
    LastMarkMore(steps, k, j, Approved);
    StandsApproved(steps[..|steps| - 1], k, j);
  }

  lemma KeyOfCall(s: State, c: nat, k: Key, content: string -> Bundle)
    requires Approves(s, Save(c), k) && Sure(s.calls[c], content)
    requires Loaded(s.calls[c].stored, s.calls[c].answers) == Some(s.calls[c].phase.bundle)
    ensures k == KeyOf(s.calls[c].stored, s.calls[c].policy) && s.calls[c].phase.Checking?
  {
  }

  /**
   A save breaks the rule exactly if some call saved an approval of another bundle of the skill after
   the saving call listed the record files, and that approval stands.
   */
  lemma SaveBreaksExactly(steps: seq<Step>, c: nat, k: Key, content: string -> Bundle) returns (i: nat)
    requires OneApproved(After(steps).records) && Approves(After(steps), Save(c), k)
             && Sure(After(steps).calls[c], content)
    ensures ListedAt(steps, c, i)
    ensures !OneApproved(Next(After(steps), Save(c)).records) <==>
            exists other, j: nat :: i < j && Rivals(k, other) && Stands(steps, other, j)
  {
    var more := steps + [Save(c)];
    var n := |steps|;
    assert more[..n] == steps;
    i := WasListed(steps, c);
    KeyOfCall(After(steps), c, k, content);
    StepBreaks(more, n);
    hide Next, OneApproved, Stands, After;
    if other, j: nat :| i < j && Rivals(k, other) && Stands(steps, other, j) {
      assert Clashes(more, n);
    }
    if Clashes(more, n) {
      var k2, other, j :| Approves(After(steps), Save(c), k2) && Rivals(k2, other) && Stands(steps, other, j);
      SaveOne(After(steps), Save(c), k, k2);
      StandsOther(steps, c, i, other, j);
      assert !Pending(After(steps).calls[c].phase, other);
    }
  }

  /** An approval is no listing. */
  lemma StandsOther(steps: seq<Step>, c: nat, i: nat, k: Key, j: nat)
    requires ListedAt(steps, c, i) && Stands(steps, k, j)
    ensures i != j
  {
    hide After;
  }
}

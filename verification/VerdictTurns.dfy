/**
 Turns one after the other, as runs of calls that nothing interrupts.

 A call without interruption is ensureApproved, in whatever order its InvalidateOthers takes the files.
 Between such calls none is in flight, so a rejection is for ever; and a call that can invalidate the
 others' records leaves at most one bundle of a skill approved.
 */
module VerdictTurns {
  import opened Wrappers
  import opened VerdictCache
  import opened VerdictRuns
  import opened Rejections

  // ---- one call without interruption ----

  function KeysIn(keys: seq<Key>): set<Key> { set k | k in keys }

  ghost predicate Distinct(keys: seq<Key>) { forall i, j | 0 <= i < j < |keys| :: keys[i] != keys[j] }

  /** The files of a set, in some order. */
  ghost function InOrder(keys: set<Key>): (r: seq<Key>)
    ensures KeysIn(r) == keys && Distinct(r)
    decreases keys
  {
    if keys == {} then []
    else
      var k :| k in keys;
      var rest := InOrder(keys - {k});
      KeysCons(k, rest);
      [k] + rest
  }

  lemma KeysCons(k: Key, rest: seq<Key>)
    requires k !in KeysIn(rest) && Distinct(rest)
    ensures KeysIn([k] + rest) == {k} + KeysIn(rest) && Distinct([k] + rest)
  {
    assert forall i | 0 <= i < |rest| :: rest[i] in KeysIn(rest);
  }

  function ClearSteps(c: nat, keys: seq<Key>): seq<Step>
    decreases |keys|
  {
    if keys == [] then [] else ClearSteps(c, keys[..|keys| - 1]) + [Read(c, keys[|keys| - 1]), Write(c)]
  }

  function StepsOf(o: Order, c: nat, keys: seq<Key>): seq<Step> {
    [Begin(o.policy, o.stored, o.answers), List(c)] + ClearSteps(c, keys) + [Get(c), Save(c)]
  }

  function CallOf(o: Order, phase: Phase): Call { Call(o.policy, o.stored, o.answers, phase) }

  /** The records after some of the files were dealt with. */
  function Cleared(records: Records, a: Answers, done: set<Key>): Records {
    map k | k in records ::
      if k in done && a.entryOk(k.bundleHash) && records[k].status == Approved
          then records[k].(status := Stale) else records[k]
  }

  lemma AfterTwo(steps: seq<Step>, a: Step, b: Step)
    ensures After(steps + [a, b]) == Next(Next(After(steps), a), b)
  {
    hide Next;
    assert (steps + [a, b])[..|steps| + 1] == steps + [a];
    assert (steps + [a])[..|steps|] == steps;
    assert After(steps + [a]) == Next(After(steps), a);
  }

  lemma ReadWrite(s: State, c: nat, records: Records, todo: set<Key>, done: set<Key>, k: Key)
    requires c < |s.calls| && s.calls[c].phase == Clearing(todo) && k in todo && k !in done && k in records
    requires s.records == Cleared(records, s.calls[c].answers, done)
    ensures var t := Next(Next(s, Read(c, k)), Write(c));
            && t.calls == s.calls[c := s.calls[c].(phase := Clearing(todo - {k}))]
            && t.records == Cleared(records, s.calls[c].answers, done + {k})
  {
    assert s.records[k] == records[k];
    var s1 := Next(s, Read(c, k));
    var t := Next(s1, Write(c));
    assert t.calls[c] == s.calls[c].(phase := Clearing(todo - {k}));
    assert t.records.Keys == records.Keys;
  }

  lemma {:induction false} ClearRun(steps: seq<Step>, c: nat, keys: seq<Key>, todo: set<Key>)
    requires In(After(steps), c, Clearing(todo)) && todo <= After(steps).records.Keys
    requires KeysIn(keys) <= todo && Distinct(keys)
    ensures var s, t := After(steps), After(steps + ClearSteps(c, keys));
            && t.calls == s.calls[c := s.calls[c].(phase := Clearing(todo - KeysIn(keys)))]
            && t.records == Cleared(s.records, s.calls[c].answers, KeysIn(keys))
    decreases |keys|
  {
    hide Next, After;
    var s := After(steps);
    if keys == [] {
      assert steps + ClearSteps(c, keys) == steps;
      assert todo - KeysIn([]) == todo;
    } else {
      var n := |keys| - 1;
      var before := KeysIn(keys[..n]);
      LastKey(keys);
      ClearRun(steps, c, keys[..n], todo);
      assert todo - before - {keys[n]} == todo - KeysIn(keys);
      var t := After(steps + ClearSteps(c, keys[..n]));
      ReadWrite(t, c, s.records, todo - before, before, keys[n]);
      AfterTwo(steps + ClearSteps(c, keys[..n]), Read(c, keys[n]), Write(c));
      assert steps + ClearSteps(c, keys) == steps + ClearSteps(c, keys[..n]) + [Read(c, keys[n]), Write(c)];
    }
  }

  lemma LastKey(keys: seq<Key>)
    requires keys != [] && Distinct(keys)
    ensures var n := |keys| - 1;
            KeysIn(keys) == KeysIn(keys[..n]) + {keys[n]} && keys[n] !in keys[..n] && Distinct(keys[..n])
  {
    assert keys == keys[..|keys| - 1] + [keys[|keys| - 1]];
  }

  lemma ClearedIs(records: Records, o: Order, call: Call)
    requires call == CallOf(o, Begun)
    ensures Cleared(records, o.answers, Listed(records, call))
            == Invalidated(records, o.stored.skillID, o.policy.version, o.stored.bundleHash, o.answers)
  {
  }

  lemma ListedAfter(steps: seq<Step>, o: Order)
    ensures var s := After(steps);
            After(steps + [Begin(o.policy, o.stored, o.answers), List(|s.calls|)]) ==
            State(s.records, s.calls + [CallOf(o, Clearing(Listed(s.records, CallOf(o, Begun))))])
  {
    hide Listed;
    AfterTwo(steps, Begin(o.policy, o.stored, o.answers), List(|After(steps).calls|));
  }

  /** InvalidateOthers without interruption. */
  lemma ClearedAfter(steps: seq<Step>, o: Order, keys: seq<Key>)
    requires Distinct(keys) && KeysIn(keys) == Listed(After(steps).records, CallOf(o, Begun))
    ensures var s := After(steps);
            var c := |s.calls|;
            After(steps + [Begin(o.policy, o.stored, o.answers), List(c)] + ClearSteps(c, keys)) ==
            State(Invalidated(s.records, o.stored.skillID, o.policy.version, o.stored.bundleHash, o.answers),
                  s.calls + [CallOf(o, Clearing({}))])
  {
    var s := After(steps);
    var c := |s.calls|;
    var todo := Listed(s.records, CallOf(o, Begun));
    ListedAfter(steps, o);
    assert todo <= s.records.Keys;
    hide After, Listed;
    var two := steps + [Begin(o.policy, o.stored, o.answers), List(c)];
    ClearRun(two, c, keys, todo);
    ClearedIs(s.records, o, CallOf(o, Begun));
    assert todo - todo == {};
  }

  /** Without interruption, and in whatever order its InvalidateOthers takes the files, a call is ensureApproved. */
  lemma PartsAreCall(steps: seq<Step>, o: Order, keys: seq<Key>)
    requires Distinct(keys) && KeysIn(keys) == Listed(After(steps).records, CallOf(o, Begun))
    ensures var s := After(steps);
            var t := After(steps + StepsOf(o, |s.calls|, keys));
            var e := EnsuredOf(s.records, o.policy, o.stored, o.answers);
            t == State(e.records, s.calls + [CallOf(o, Ended(e.bundle))])
  {
    hide After, ClearSteps, Listed, Invalidated;
    ClearedAfter(steps, o, keys);
    var s := After(steps);
    var c := |s.calls|;
    var three := steps + [Begin(o.policy, o.stored, o.answers), List(c)] + ClearSteps(c, keys);
    AfterTwo(three, Get(c), Save(c));
    assert steps + StepsOf(o, c, keys) == three + [Get(c), Save(c)];
    GetSave(s.calls, c, o, Invalidated(s.records, o.stored.skillID, o.policy.version, o.stored.bundleHash, o.answers));
  }

  lemma GetSave(calls: seq<Call>, c: nat, o: Order, records: Records)
    requires c == |calls|
    ensures var e := Decided(records, o.policy, o.stored, o.answers);
            Next(Next(State(records, calls + [CallOf(o, Clearing({}))]), Get(c)), Save(c))
            == State(e.records, calls + [CallOf(o, Ended(e.bundle))])
  {
    hide Verdict, Loaded;
    var s := State(records, calls + [CallOf(o, Clearing({}))]);
    var s1 := Next(s, Get(c));
    assert s1.calls == calls + [CallOf(o, AfterGet(s.calls[c], records))];
    var t := Next(s1, Save(c));
    assert t.calls[..c] == calls && |t.calls| == c + 1;
  }

  // ---- calls one after the other ----

  /** The records after calls, one after the other. */
  function EnsuredFrom(records: Records, orders: seq<Order>): Records
    decreases |orders|
  {
    if orders == [] then records
    else
      var o := orders[|orders| - 1];
      EnsuredOf(EnsuredFrom(records, orders[..|orders| - 1]), o.policy, o.stored, o.answers).records
  }

  /** The steps of calls, one after the other, behind other steps. */
  ghost function SerialFrom(before: seq<Step>, orders: seq<Order>): seq<Step>
    decreases |orders|
  {
    if orders == [] then before
    else
      var init, o := SerialFrom(before, orders[..|orders| - 1]), orders[|orders| - 1];
      init + StepsOf(o, |After(init).calls|, InOrder(Listed(After(init).records, CallOf(o, Begun))))
  }

  ghost predicate AllEnded(s: State) { forall c | 0 <= c < |s.calls| :: s.calls[c].phase.Ended? }

  lemma {:induction false} SerialState(before: seq<Step>, orders: seq<Order>)
    requires AllEnded(After(before))
    ensures var s := After(SerialFrom(before, orders));
            s.records == EnsuredFrom(After(before).records, orders) && AllEnded(s)
    decreases |orders|
  {
    hide After, EnsuredOf, StepsOf;
    if orders != [] {
      var n := |orders| - 1;
      SerialState(before, orders[..n]);
      var init, o := SerialFrom(before, orders[..n]), orders[n];
      PartsAreCall(init, o, InOrder(Listed(After(init).records, CallOf(o, Begun))));
    }
  }

  ghost predicate AllSure(orders: seq<Order>, content: string -> Bundle) {
    forall i | 0 <= i < |orders| :: Sure(CallOf(orders[i], Begun), content)
  }

  /** A call whose records can be invalidated keeps the rule of one approval. */
  lemma CallKeepsOne(records: Records, o: Order, content: string -> Bundle)
    requires OneApproved(records) && Sure(CallOf(o, Begun), content)
    ensures OneApproved(EnsuredOf(records, o.policy, o.stored, o.answers).records)
  {
    hide Passes;
  }

  lemma {:induction false} SerialOneApproved(orders: seq<Order>, content: string -> Bundle)
    requires AllSure(orders, content)
    ensures OneApproved(EnsuredFrom(map[], orders))
    decreases |orders|
  {
    hide EnsuredOf, Sure;
    if orders != [] {
      var n := |orders| - 1;
      SerialOneApproved(orders[..n], content);
      CallKeepsOne(EnsuredFrom(map[], orders[..n]), orders[n], content);
    }
  }

  // ---- turns one after the other ----

  function TurnOrders(t: Turn): seq<Order> {
    seq(|Selected(t)|,
        i requires 0 <= i < |Selected(t)| => Order(t.policy, ByID(t.catalog)[Selected(t)[i]], t.answers(i)))
  }

  function AllOrders(turns: seq<Turn>): seq<Order>
    decreases |turns|
  {
    if turns == [] then [] else AllOrders(turns[..|turns| - 1]) + TurnOrders(turns[|turns| - 1])
  }

  lemma {:induction false} EnsuredAppend(records: Records, a: seq<Order>, b: seq<Order>)
    ensures EnsuredFrom(records, a + b) == EnsuredFrom(EnsuredFrom(records, a), b)
    decreases |b|
  {
    hide EnsuredOf;
    if b == [] {
      assert a + b == a;
    } else {
      EnsuredAppend(records, a, b[..|b| - 1]);
      assert (a + b)[..|a + b| - 1] == a + b[..|b| - 1];
    }
  }

  lemma {:induction false} PrefixEnsured(records: Records, t: Turn, n: nat)
    requires n <= |Selected(t)|
    ensures Prefix(records, t, n).records == EnsuredFrom(records, TurnOrders(t)[..n])
    decreases n
  {
    hide EnsuredOf, Selected, Prefix, ByID;
    if n == 0 {
      PrefixEnds(records, t);
    } else {
      PrefixEnsured(records, t, n - 1);
      PrefixStep(records, t, n - 1);
      assert TurnOrders(t)[..n][..n - 1] == TurnOrders(t)[..n - 1];
    }
  }

  lemma TurnEnsured(records: Records, t: Turn)
    ensures TurnOf(records, t).records == EnsuredFrom(records, TurnOrders(t))
  {
    hide Selected, Prefix, TurnOf, EnsuredFrom;
    PrefixEnsured(records, t, |Selected(t)|);
    PrefixEnds(records, t);
    assert TurnOrders(t)[..|Selected(t)|] == TurnOrders(t);
  }

  /** Turns one after the other are the calls one after the other. */
  lemma {:induction false} TurnsEnsured(turns: seq<Turn>, more: seq<Turn>)
    ensures RecordsAfter(turns + more) == EnsuredFrom(RecordsAfter(turns), AllOrders(more))
    decreases |more|
  {
    hide TurnOf, TurnOrders, EnsuredOf;
    if more == [] {
      assert turns + more == turns;
    } else {
      var init, t := more[..|more| - 1], more[|more| - 1];
      var all := turns + more;
      assert all[..|all| - 1] == turns + init && all[|all| - 1] == t;
      TurnsEnsured(turns, init);
      EnsuredAppend(RecordsAfter(turns), AllOrders(init), TurnOrders(t));
      TurnEnsured(RecordsAfter(turns + init), t);
    }
  }

  ghost predicate TurnClears(t: Turn) { forall i: nat :: CanClear(t.answers(i)) }

  ghost predicate AllGenuine(orders: seq<Order>, content: string -> Bundle) {
    forall i | 0 <= i < |orders| :: Genuine(orders[i].answers, content) && Consistent(orders[i].stored, content)
  }

  lemma {:induction false} OrdersGenuine(turns: seq<Turn>, content: string -> Bundle)
    requires forall i | 0 <= i < |turns| :: TurnOk(turns[i], content)
    ensures AllGenuine(AllOrders(turns), content)
    decreases |turns|
  {
    hide TurnOk, Selected, Genuine, Consistent;
    if turns != [] {
      var init, t := turns[..|turns| - 1], turns[|turns| - 1];
      OrdersGenuine(init, content);
      var more := TurnOrders(t);
      forall i | 0 <= i < |more|
        ensures Genuine(more[i].answers, content) && Consistent(more[i].stored, content)
      {
        CatalogOk(t, content, i);
      }
    }
  }

  lemma {:induction false} OrdersClear(turns: seq<Turn>)
    requires forall i | 0 <= i < |turns| :: TurnClears(turns[i])
    ensures forall i | 0 <= i < |AllOrders(turns)| :: CanClear(AllOrders(turns)[i].answers)
    decreases |turns|
  {
    hide Selected, CanClear;
    if turns != [] { OrdersClear(turns[..|turns| - 1]); }
  }

  /**
   From an empty store, in every run of turns one after the other whose records can be invalidated, at
   most one bundle hash of a skill is approved under a policy version.
   */
  lemma AtMostOneApproved(turns: seq<Turn>, content: string -> Bundle)
    requires forall i | 0 <= i < |turns| :: TurnOk(turns[i], content) && TurnClears(turns[i])
    ensures OneApproved(RecordsAfter(turns))
  {
    OrdersGenuine(turns, content);
    OrdersClear(turns);
    hide OneApproved, RecordsAfter, AllOrders, Genuine, Consistent, CanClear;
    SerialOneApproved(AllOrders(turns), content);
    TurnsEnsured([], turns);
    assert [] + turns == turns && RecordsAfter([]) == map[] by { NoTurns(); }
  }

  lemma NoTurns()
    ensures RecordsAfter([]) == map[]
  {
  }

  /**
   When the bundle of a licensed skill was replaced meanwhile, its approval licenses nothing: at most
   one hash is approved.
   */
  lemma ReplacedMayNotRun(turns: seq<Turn>, t: Turn, content: string -> Bundle, x: Active, newHash: string,
      getOk: bool, root: Option<string>)
    requires forall i | 0 <= i < |turns + [t]| :: TurnOk((turns + [t])[i], content) && TurnClears((turns + [t])[i])
    requires x in TurnOf(RecordsAfter(turns), t).active && newHash != x.bundle.hash
    requires CanSave(t)
    ensures !Authorized(Some(StoredSkill(x.skillID, newHash)), RecordsAfter(turns + [t]), t.policy.version, getOk, root)
  {
    AtMostOneApproved(turns + [t], content);
    assert (turns + [t])[..|turns|] == turns && (turns + [t])[|turns|] == t;
    assert TurnOk(t, content);
    ActivatedLicensed(RecordsAfter(turns), t, content);
    hide TurnOf, TurnOk, TurnClears, ByID;
    assert Licensed(x, t, RecordsAfter(turns + [t]));
  }

  // ---- rejections ----

  lemma {:induction false} SerialMore(before: seq<Step>, orders: seq<Order>, content: string -> Bundle)
      returns (more: seq<Step>)
    requires AllGenuine(orders, content)
    ensures SerialFrom(before, orders) == before + more && Trusted(more, content)
    decreases |orders|
  {
    hide After, Genuine, Consistent, StepsOf;
    if orders == [] {
      more := [];
    } else {
      var n := |orders| - 1;
      var o := orders[n];
      more := SerialMore(before, orders[..n], content);
      var init := SerialFrom(before, orders[..n]);
      var keys := InOrder(Listed(After(init).records, CallOf(o, Begun)));
      OneBegin(o, |After(init).calls|, keys, content);
      more := more + StepsOf(o, |After(init).calls|, keys);
    }
  }

  lemma OneBegin(o: Order, c: nat, keys: seq<Key>, content: string -> Bundle)
    requires Genuine(o.answers, content) && Consistent(o.stored, content)
    ensures Trusted(StepsOf(o, c, keys), content)
  {
    hide Genuine, Consistent;
    ClearOnly(c, keys);
  }

  lemma {:induction false} ClearOnly(c: nat, keys: seq<Key>)
    ensures forall i | 0 <= i < |ClearSteps(c, keys)| :: !ClearSteps(c, keys)[i].Begin?
    decreases |keys|
  {
    if keys != [] { ClearOnly(c, keys[..|keys| - 1]); }
  }

  lemma EndedFinal(s: State, k: Key, content: string -> Bundle)
    requires AllEnded(s) && IsRejected(s, k)
    ensures Final(s, k, content)
  {
    hide Genuine, Consistent, Passes;
  }

  /**
   Among turns one after the other a rejection is final, whichever reads and writes fail: no call is in
   flight between them.
   */
  lemma RejectedForever(turns: seq<Turn>, more: seq<Turn>, content: string -> Bundle, k: Key)
    requires forall i | 0 <= i < |more| :: TurnOk(more[i], content)
    requires StatusOf(RecordsAfter(turns), k) == Some(Rejected)
    ensures StatusOf(RecordsAfter(turns + more), k) == Some(Rejected)
  {
    var before := SerialFrom([], AllOrders(turns));
    NoTurns();
    TurnsEnsured([], turns);
    assert [] + turns == turns;
    SerialState([], AllOrders(turns));
    OrdersGenuine(more, content);
    hide After, RecordsAfter, AllOrders, AllGenuine, Final, TurnOk, SerialFrom;
    EndedFinal(After(before), k, content);
    var steps := SerialMore(before, AllOrders(more), content);
    StaysRejected(before, steps, k, content);
    SerialState(before, AllOrders(more));
    TurnsEnsured(turns, more);
    assert IsRejected(After(before + steps), k) by { FinalRejected(After(before + steps), k, content); }
  }

  lemma FinalRejected(s: State, k: Key, content: string -> Bundle)
    requires Final(s, k, content)
    ensures IsRejected(s, k)
  {
  }
}

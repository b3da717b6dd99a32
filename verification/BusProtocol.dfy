/**
 The message bus (pkg/bus/bus.go): publishers, consumers and the one effective Close as atomic steps
 on two bounded channels, the done channel, the closed flag and the wait group.
 */
module BusProtocol {
  const BUFFER_SIZE := 64

  datatype Dir = Inbound | Outbound

  /** A message and the publish call that brought it. */
  datatype Item<M> = Item(pub: nat, msg: M)

  datatype Outcome = Sent | BusClosed | CtxError

  /**
   Where a publish call stands: before the closed check, before the done check, before wg.Add (the
   window), in the select, after it, and returned.
   */
  datatype Phase = Fresh | Unflagged | Cleared | Sending | Leaving(r: Outcome) | Returned(r: Outcome)

  datatype Publisher<M> = Publisher(dir: Dir, msg: M, phase: Phase)

  /** How far Close has come. */
  datatype Closing = NotClosing | DoneClosed | Flagged | Waited | InClosed | OutClosed | InDrained | Finished

  datatype State<M> = State(
    inbound: seq<Item<M>>,
    outbound: seq<Item<M>>,
    pubs: seq<Publisher<M>>,
    wg: nat,
    closing: Closing,
    panicked: bool)

  /** What a select takes. */
  datatype Choice = TakeSend | TakeCtx | TakeDone | TakeDefault

  datatype Step<M> =
    | Arrive(dir: Dir, msg: M)
    | LoadClosed(p: nat)
    | PollDone(p: nat, choice: Choice)
    | AddToGroup(p: nat)
    | Select(p: nat, choice: Choice)
    | LeaveGroup(p: nat)
    | Consume(dir: Dir)
    | CloseStep

  function Rank(c: Closing): nat {
    match c
    case NotClosing => 0
    case DoneClosed => 1
    case Flagged => 2
    case Waited => 3
    case InClosed => 4
    case OutClosed => 5
    case InDrained => 6
    case Finished => 7
  }

  predicate IsDone<M>(s: State<M>) { Rank(s.closing) >= 1 }

  predicate IsFlagged<M>(s: State<M>) { Rank(s.closing) >= 2 }

  predicate ChanClosed<M>(s: State<M>, d: Dir) { Rank(s.closing) >= if d == Inbound then 4 else 5 }

  function Buf<M>(s: State<M>, d: Dir): seq<Item<M>> { if d == Inbound then s.inbound else s.outbound }

  function WithBuf<M>(s: State<M>, d: Dir, b: seq<Item<M>>): State<M> {
    if d == Inbound then s.(inbound := b) else s.(outbound := b)
  }

  function At<M>(s: State<M>, p: nat, phase: Phase): State<M>
    requires p < |s.pubs|
  {
    s.(pubs := s.pubs[p := s.pubs[p].(phase := phase)])
  }

  predicate In<M>(s: State<M>, p: nat, phase: Phase) { p < |s.pubs| && s.pubs[p].phase == phase }

  /** A send is ready on a closed channel too, and panics there. */
  predicate CanSend<M>(s: State<M>, d: Dir) { ChanClosed(s, d) || |Buf(s, d)| < BUFFER_SIZE }

  function SelectStep<M>(s: State<M>, p: nat, choice: Choice): State<M>
    requires p < |s.pubs|
  {
    var pub := s.pubs[p];
    match choice
    case TakeSend =>
      if !CanSend(s, pub.dir) then s
      else if ChanClosed(s, pub.dir) then s.(panicked := true)
      else WithBuf(At(s, p, Leaving(Sent)), pub.dir, Buf(s, pub.dir) + [Item(p, pub.msg)])
    case TakeCtx => At(s, p, Leaving(CtxError))
    case TakeDone => if IsDone(s) then At(s, p, Leaving(BusClosed)) else s
    case TakeDefault => s
  }

  /** Close: wait for the group, close the channels, drain them. */
  function CloseNext<M>(s: State<M>): State<M> {
    match s.closing
    case NotClosing => s.(closing := DoneClosed)
    case DoneClosed => s.(closing := Flagged)
    case Flagged => if s.wg == 0 then s.(closing := Waited) else s
    case Waited => s.(closing := InClosed)
    case InClosed => s.(closing := OutClosed)
    case OutClosed => if s.inbound == [] then s.(closing := InDrained) else s.(inbound := s.inbound[1..])
    case InDrained => if s.outbound == [] then s.(closing := Finished) else s.(outbound := s.outbound[1..])
    case Finished => s
  }

  /** One step; a step that is not possible changes nothing, and nothing follows a panic. */
  function Next<M>(s: State<M>, step: Step<M>): State<M> {
    if s.panicked then s
    else
      match step
      case Arrive(d, m) => s.(pubs := s.pubs + [Publisher(d, m, Fresh)])
      case LoadClosed(p) =>
        if !In(s, p, Fresh) then s else At(s, p, if IsFlagged(s) then Returned(BusClosed) else Unflagged)
      case PollDone(p, choice) =>
        if !In(s, p, Unflagged) then s
        else if choice == TakeCtx then At(s, p, Returned(CtxError))
        else if choice == TakeDone && IsDone(s) then At(s, p, Returned(BusClosed))
        else if choice == TakeDefault && !IsDone(s) then At(s, p, Cleared)
        else s
      case AddToGroup(p) => if !In(s, p, Cleared) then s else At(s, p, Sending).(wg := s.wg + 1)
      case Select(p, choice) => if !In(s, p, Sending) then s else SelectStep(s, p, choice)
      case LeaveGroup(p) =>
        if p < |s.pubs| && s.pubs[p].phase.Leaving? && s.wg > 0
        then At(s, p, Returned(s.pubs[p].phase.r)).(wg := s.wg - 1)
        else s
      case Consume(d) => if Buf(s, d) == [] then s else WithBuf(s, d, Buf(s, d)[1..])
      case CloseStep => CloseNext(s)
  }

  function Init<M>(): State<M> { State([], [], [], 0, NotClosing, false) }

  function After<M>(s: State<M>, steps: seq<Step<M>>): State<M>
    decreases |steps|
  {
    if steps == [] then s else Next(After(s, steps[..|steps| - 1]), steps[|steps| - 1])
  }

  // ---- what went in and out, read off a run ----

  /** The step by which the channel accepts the message of a publish call. */
  predicate Accepts<M>(s: State<M>, step: Step<M>, d: Dir) {
    && step.Select? && step.choice == TakeSend && In(s, step.p, Sending) && s.pubs[step.p].dir == d
    && !s.panicked && !ChanClosed(s, d) && |Buf(s, d)| < BUFFER_SIZE
  }

  /** The step by which the consumer, or Close's drain, takes an item. */
  predicate Takes<M>(s: State<M>, step: Step<M>, d: Dir) {
    && !s.panicked && Buf(s, d) != []
    && (step == Consume(d) || (step.CloseStep? && s.closing == if d == Inbound then OutClosed else InDrained))
  }

  function NewItem<M>(s: State<M>, p: nat): Item<M>
    requires p < |s.pubs|
  {
    Item(p, s.pubs[p].msg)
  }

  /** The items a direction's channel accepted, in order. */
  function Accepted<M>(steps: seq<Step<M>>, d: Dir): seq<Item<M>>
    decreases |steps|
  {
    if steps == [] then []
    else
      var init, last := steps[..|steps| - 1], steps[|steps| - 1];
      var s := After(Init(), init);
      if Accepts(s, last, d) then Accepted(init, d) + [NewItem(s, last.p)] else Accepted(init, d)
  }

  /** An item taken out, by the consumer or by Close. */
  datatype Took<M> = Took(item: Item<M>, byClose: bool)

  function Taken<M>(steps: seq<Step<M>>, d: Dir): seq<Took<M>>
    decreases |steps|
  {
    if steps == [] then []
    else
      var init, last := steps[..|steps| - 1], steps[|steps| - 1];
      var s := After(Init(), init);
      if Takes(s, last, d) then Taken(init, d) + [Took(Buf(s, d)[0], last.CloseStep?)] else Taken(init, d)
  }

  function Items<M>(t: seq<Took<M>>): seq<Item<M>> { seq(|t|, i requires 0 <= i < |t| => t[i].item) }

  // ---- conservation ----

  /** How one step moves items. */
  lemma StepMoves<M>(s: State<M>, step: Step<M>, d: Dir)
    ensures Accepts(s, step, d) ==> !Takes(s, step, d)
    ensures Buf(Next(s, step), d) ==
            if Accepts(s, step, d) then Buf(s, d) + [NewItem(s, step.p)]
            else if Takes(s, step, d) then Buf(s, d)[1..]
            else Buf(s, d)
  {
  }

  /**
   In every interleaving, and for each direction: what was accepted is, in order, what the consumer
   and Close's drain took, merged, followed by what waits, which is never more than the buffer holds.
   */
  lemma {:induction false} Conserved<M>(steps: seq<Step<M>>, d: Dir)
    ensures Accepted(steps, d) == Items(Taken(steps, d)) + Buf(After(Init(), steps), d)
    ensures |Buf(After(Init(), steps), d)| <= BUFFER_SIZE
    decreases |steps|
  {
    if steps != [] {
      var init, last := steps[..|steps| - 1], steps[|steps| - 1];
      Conserved(init, d);
      var s := After(Init(), init);
      StepMoves(s, last, d);
      var x := if Accepts(s, last, d) then [NewItem(s, last.p)] else [];
      var u := if Takes(s, last, d) then [Took(Buf(s, d)[0], last.CloseStep?)] else [];
      assert Accepted(steps, d) == Accepted(init, d) + x && Taken(steps, d) == Taken(init, d) + u;
      assert Buf(s, d) + x == Items(u) + Buf(After(Init(), steps), d);
      hide Accepted, Taken, After, Buf, Accepts, Takes;
      ConservedMore(Accepted(init, d), Taken(init, d), Buf(s, d), x, u, Buf(After(Init(), steps), d));
    }
  }

  lemma ConservedMore<M>(a: seq<Item<M>>, t: seq<Took<M>>, b: seq<Item<M>>, x: seq<Item<M>>, u: seq<Took<M>>,
      c: seq<Item<M>>)
    requires a == Items(t) + b && b + x == Items(u) + c
    ensures a + x == Items(t + u) + c
  {
    assert Items(t + u) == Items(t) + Items(u);
    assert a + x == Items(t) + (b + x);
  }

  /** Close's drain takes nothing before both channels are closed; once Close is finished nothing waits. */
  lemma {:induction false} DrainedLast<M>(steps: seq<Step<M>>, d: Dir)
    ensures Rank(After(Init(), steps).closing) < 5 ==>
            forall i | 0 <= i < |Taken(steps, d)| :: !Taken(steps, d)[i].byClose
    ensures Rank(After(Init(), steps).closing) >= (if d == Inbound then 6 else 7) ==> Buf(After(Init(), steps), d) == []
    decreases |steps|
  {
    if steps != [] {
      var init, last := steps[..|steps| - 1], steps[|steps| - 1];
      DrainedLast(init, d);
      CloseMovesOn(After(Init(), init), last);
      StepDrains(After(Init(), init), last, d);
      hide Next, Takes, Buf, Rank;
    }
  }

  lemma StepDrains<M>(s: State<M>, step: Step<M>, d: Dir)
    ensures Takes(s, step, d) && step.CloseStep? ==> Rank(s.closing) >= 5
    ensures var empty := if d == Inbound then 6 else 7;
            Rank(Next(s, step).closing) >= empty && (Rank(s.closing) >= empty ==> Buf(s, d) == []) ==>
                Buf(Next(s, step), d) == []
  {
  }

  lemma CloseMovesOn<M>(s: State<M>, step: Step<M>)
    ensures Rank(s.closing) <= Rank(Next(s, step).closing)
  {
  }

  // ---- exactly once ----

  /** A publish call that reports success, or is about to. */
  predicate Succeeded(phase: Phase) { phase == Leaving(Sent) || phase == Returned(Sent) }

  ghost predicate Holds<M>(items: seq<Item<M>>, p: nat) { exists i :: 0 <= i < |items| && items[i].pub == p }

  ghost predicate ExactlyOnce<M>(s: State<M>, d: Dir, accepted: seq<Item<M>>) {
    && (forall i | 0 <= i < |accepted| ::
          accepted[i].pub < |s.pubs| && s.pubs[accepted[i].pub].dir == d
              && s.pubs[accepted[i].pub].msg == accepted[i].msg
          && Succeeded(s.pubs[accepted[i].pub].phase))
    && (forall i, j | 0 <= i < j < |accepted| :: accepted[i].pub != accepted[j].pub)
    && (forall p | 0 <= p < |s.pubs| && s.pubs[p].dir == d && Succeeded(s.pubs[p].phase) :: Holds(accepted, p))
  }

  lemma OnceKept<M>(s: State<M>, n: State<M>, d: Dir, accepted: seq<Item<M>>)
    requires ExactlyOnce(s, d, accepted) && |s.pubs| <= |n.pubs|
    requires forall p | 0 <= p < |s.pubs| ::
               n.pubs[p].dir == s.pubs[p].dir && n.pubs[p].msg == s.pubs[p].msg
               && (s.pubs[p].dir == d ==> (Succeeded(n.pubs[p].phase) <==> Succeeded(s.pubs[p].phase)))
    requires forall p | |s.pubs| <= p < |n.pubs| :: !Succeeded(n.pubs[p].phase)
    ensures ExactlyOnce(n, d, accepted)
  {
  }

  lemma OnceMore<M>(s: State<M>, n: State<M>, d: Dir, accepted: seq<Item<M>>, p: nat)
    requires ExactlyOnce(s, d, accepted) && p < |s.pubs| && s.pubs[p].dir == d && !Succeeded(s.pubs[p].phase)
    requires n.pubs == s.pubs[p := s.pubs[p].(phase := Leaving(Sent))]
    ensures ExactlyOnce(n, d, accepted + [Item(p, s.pubs[p].msg)])
  {
    var more := accepted + [Item(p, s.pubs[p].msg)];
    forall q | 0 <= q < |n.pubs| && n.pubs[q].dir == d && Succeeded(n.pubs[q].phase)
      ensures Holds(more, q)
    {
      if q == p {
        assert more[|accepted|].pub == p;
      } else {
        assert Holds(accepted, q);
        var i :| 0 <= i < |accepted| && accepted[i].pub == q;
        assert more[i].pub == q;
      }
    }
  }

  /**
   A publish succeeds exactly if its message was accepted, and it was accepted once; with Conserved,
   it is then taken out once or waits.
   */
  lemma {:induction false} AcceptedOnce<M>(steps: seq<Step<M>>, d: Dir)
    ensures ExactlyOnce(After(Init(), steps), d, Accepted(steps, d))
    decreases |steps|
  {
    if steps != [] {
      hide Next, ExactlyOnce;
      var init, last := steps[..|steps| - 1], steps[|steps| - 1];
      AcceptedOnce(init, d);
      StepOnce(After(Init(), init), last, d, Accepted(init, d));
    } else {
      NoneAccepted<M>(d);
    }
  }

  lemma NoneAccepted<M>(d: Dir)
    ensures ExactlyOnce<M>(Init(), d, [])
  {
  }

  lemma StepOnce<M>(s: State<M>, step: Step<M>, d: Dir, a: seq<Item<M>>)
    requires ExactlyOnce(s, d, a)
    ensures ExactlyOnce(Next(s, step), d, if Accepts(s, step, d) then a + [NewItem(s, step.p)] else a)
  {
    hide ExactlyOnce;
    var n := Next(s, step);
    if Accepts(s, step, d) {
      OnceMore(s, n, d, a, step.p);
    } else {
      forall p | 0 <= p < |s.pubs|
        ensures p < |n.pubs| && n.pubs[p].dir == s.pubs[p].dir && n.pubs[p].msg == s.pubs[p].msg
        ensures s.pubs[p].dir == d ==> (Succeeded(n.pubs[p].phase) <==> Succeeded(s.pubs[p].phase))
      {
        NoOtherSuccess(s, step, d, p);
      }
      NoneNew(s, step);
      hide Next, Accepts;
      OnceKept(s, n, d, a);
    }
  }

  lemma NoneNew<M>(s: State<M>, step: Step<M>)
    ensures |s.pubs| <= |Next(s, step).pubs|
    ensures forall p | |s.pubs| <= p < |Next(s, step).pubs| :: !Succeeded(Next(s, step).pubs[p].phase)
  {
  }

  /** Only the step that accepts a message makes its publish call succeed. */
  lemma NoOtherSuccess<M>(s: State<M>, step: Step<M>, d: Dir, p: nat)
    requires !Accepts(s, step, d) && p < |s.pubs|
    ensures var n := Next(s, step);
            && p < |n.pubs| && n.pubs[p].dir == s.pubs[p].dir && n.pubs[p].msg == s.pubs[p].msg
            && (s.pubs[p].dir == d ==> (Succeeded(n.pubs[p].phase) <==> Succeeded(s.pubs[p].phase)))
  {
  }

  /** No publish succeeds once its channel is closed. */
  lemma {:induction false} NothingAfterClose<M>(steps: seq<Step<M>>, more: seq<Step<M>>, d: Dir)
    requires ChanClosed(After(Init(), steps), d)
    ensures Accepted(steps + more, d) == Accepted(steps, d) && ChanClosed(After(Init(), steps + more), d)
    decreases |more|
  {
    hide Next, NewItem, Buf, In, Rank;
    if more == [] {
      assert steps + more == steps;
    } else {
      var all, init := steps + more, steps + more[..|more| - 1];
      NothingAfterClose(steps, more[..|more| - 1], d);
      assert all[..|all| - 1] == init && all[|all| - 1] == more[|more| - 1];
      CloseMovesOn(After(Init(), init), more[|more| - 1]);
    }
  }

  // ---- why a call returns what it returns ----

  /** The outcome a publish call has, returned or about to be. */
  predicate Ended<M>(s: State<M>, p: nat, r: Outcome) {
    p < |s.pubs| && (s.pubs[p].phase == Leaving(r) || s.pubs[p].phase == Returned(r))
  }

  /** What makes a call end so: room in an open channel, a bus whose Close has begun, or a cancelled context. */
  predicate Causes<M>(s: State<M>, step: Step<M>, p: nat, r: Outcome) {
    && !s.panicked && p < |s.pubs|
    && match r
       case Sent =>
         && step == Select(p, TakeSend) && s.pubs[p].phase == Sending && |Buf(s, s.pubs[p].dir)| < 64
         && s.closing !in {OutClosed, InDrained, Finished} && (s.closing == InClosed ==> s.pubs[p].dir == Outbound)
       case BusClosed =>
         || (step == LoadClosed(p) && s.pubs[p].phase == Fresh && s.closing !in {NotClosing, DoneClosed})
         || (step == PollDone(p, TakeDone) && s.pubs[p].phase == Unflagged && s.closing != NotClosing)
         || (step == Select(p, TakeDone) && s.pubs[p].phase == Sending && s.closing != NotClosing)
       case CtxError =>
         || (step == PollDone(p, TakeCtx) && s.pubs[p].phase == Unflagged)
         || (step == Select(p, TakeCtx) && s.pubs[p].phase == Sending)
  }

  lemma StepCauses<M>(s: State<M>, step: Step<M>, p: nat, r: Outcome)
    requires Ended(Next(s, step), p, r)
    ensures Ended(s, p, r) || Causes(s, step, p, r)
  {
  }

  /** The item goes to the end of its direction's channel. */
  lemma StepQueues<M>(s: State<M>, step: Step<M>, p: nat)
    requires Causes(s, step, p, Sent)
    ensures Buf(Next(s, step), s.pubs[p].dir) == Buf(s, s.pubs[p].dir) + [Item(p, s.pubs[p].msg)]
  {
  }

  /** Every call that ended did so by a step that is a reason for its outcome; a success put its message last. */
  lemma {:induction false} EndedBy<M>(steps: seq<Step<M>>, p: nat, r: Outcome) returns (i: nat)
    requires Ended(After(Init(), steps), p, r)
    ensures i < |steps|
    ensures var s := After(Init(), steps[..i]);
            && Causes(s, steps[i], p, r)
            && (r == Sent ==>
                  Buf(After(Init(), steps[..i + 1]), s.pubs[p].dir) ==
                  Buf(s, s.pubs[p].dir) + [Item(p, s.pubs[p].msg)])
    decreases |steps|
  {
    hide Next, Causes;
    var n := |steps| - 1;
    var init := steps[..n];
    StepCauses(After(Init(), init), steps[n], p, r);
    if Ended(After(Init(), init), p, r) {
      i := EndedBy(init, p, r);
      assert init[..i] == steps[..i] && init[..i + 1] == steps[..i + 1];
    } else {
      i := n;
      if r == Sent { StepQueues(After(Init(), init), steps[n], p); }
      assert steps[..n + 1] == steps;
    }
  }

  /** The call has not looked at the flag yet, if it has come at all, or was refused. */
  predicate Late<M>(s: State<M>, p: nat) {
    s.closing !in {NotClosing, DoneClosed}
    && (p < |s.pubs| ==> s.pubs[p].phase == Fresh || s.pubs[p].phase == Returned(BusClosed))
  }

  /** A call that looks at the flag after Close has set it is refused, in every continuation. */
  lemma {:induction false} LateRefused<M>(s: State<M>, p: nat, more: seq<Step<M>>)
    requires Late(s, p)
    ensures Late(After(s, more), p)
    decreases |more|
  {
    hide Next, Late;
    if more != [] {
      var init := more[..|more| - 1];
      LateRefused(s, p, init);
      StepLate(After(s, init), more[|more| - 1], p);
    }
  }

  lemma StepLate<M>(s: State<M>, step: Step<M>, p: nat)
    requires Late(s, p)
    ensures Late(Next(s, step), p)
  {
  }

  /** The steps of a publish call that nothing holds up. */
  function Through<M>(p: nat): seq<Step<M>> {
    [LoadClosed(p), PollDone(p, TakeDefault), AddToGroup(p)] + [Select(p, TakeSend), LeaveGroup(p)]
  }

  /** On an open bus with room a publish call that goes on without interruption succeeds, its message last. */
  lemma PublishAlone<M>(s: State<M>, p: nat)
    requires !s.panicked && s.closing == NotClosing && In(s, p, Fresh) && |Buf(s, s.pubs[p].dir)| < 64
    ensures var n := After(s, Through(p));
            && In(n, p, Returned(Sent)) && n.wg == s.wg
            && Buf(n, s.pubs[p].dir) == Buf(s, s.pubs[p].dir) + [Item(p, s.pubs[p].msg)]
  {
    hide Next, Buf, At;
    var three: seq<Step<M>> := [LoadClosed(p), PollDone(p, TakeDefault), AddToGroup(p)];
    Unroll(s, [], LoadClosed(p), PollDone(p, TakeDefault), AddToGroup(p));
    assert [] + three == three;
    ReachesSelect(s, p);
    assert Through<M>(p)[..3] == three && Through<M>(p)[..4] == three + [Select(p, TakeSend)];
    assert (three + [Select(p, TakeSend)])[..3] == three;
    assert After(s, Through(p)) == Next(Next(After(s, three), Select(p, TakeSend)), LeaveGroup(p));
    SelectsAlone(s, p);
  }

  lemma ReachesSelect<M>(s: State<M>, p: nat)
    requires !s.panicked && s.closing == NotClosing && In(s, p, Fresh)
    ensures Next(Next(Next(s, LoadClosed(p)), PollDone(p, TakeDefault)), AddToGroup(p)) ==
            At(s, p, Sending).(wg := s.wg + 1)
  {
    assert At(At(At(s, p, Unflagged), p, Cleared), p, Sending).pubs == At(s, p, Sending).pubs;
  }

  lemma SelectsAlone<M>(s: State<M>, p: nat)
    requires !s.panicked && s.closing == NotClosing && p < |s.pubs| && |Buf(s, s.pubs[p].dir)| < 64
    ensures var n := Next(Next(At(s, p, Sending).(wg := s.wg + 1), Select(p, TakeSend)), LeaveGroup(p));
            && In(n, p, Returned(Sent)) && n.wg == s.wg
            && Buf(n, s.pubs[p].dir) == Buf(s, s.pubs[p].dir) + [Item(p, s.pubs[p].msg)]
  {
  }

  // ---- panics ----

  /** The call is between wg.Add and wg.Done. */
  predicate Member<M>(pub: Publisher<M>) { pub.phase.Sending? || pub.phase.Leaving? }

  /** How many publish calls are in the wait group. */
  function Busy<M>(pubs: seq<Publisher<M>>): nat
    decreases |pubs|
  {
    if pubs == [] then 0
    else Busy(pubs[..|pubs| - 1]) + (if Member(pubs[|pubs| - 1]) then 1 else 0)
  }

  lemma {:induction false} BusyAt<M>(pubs: seq<Publisher<M>>, p: nat, pub: Publisher<M>)
    requires p < |pubs|
    ensures Busy(pubs[p := pub]) == Busy(pubs)
              - (if Member(pubs[p]) then 1 else 0)
              + (if Member(pub) then 1 else 0)
    decreases |pubs|
  {
    var n := |pubs| - 1;
    if p < n {
      assert pubs[p := pub][..n] == pubs[..n][p := pub];
    } else {
      assert pubs[p := pub][..n] == pubs[..n];
    }
    if p < n {
      BusyAt(pubs[..n], p, pub);
    }
  }

  lemma {:induction false} NoneBusy<M>(pubs: seq<Publisher<M>>, p: nat)
    requires p < |pubs| && Busy(pubs) == 0
    ensures !pubs[p].phase.Sending? && !pubs[p].phase.Leaving?
    decreases |pubs|
  {
    if p < |pubs| - 1 {
      NoneBusy(pubs[..|pubs| - 1], p);
    }
  }

  ghost predicate Counted<M>(s: State<M>) { s.wg == Busy(s.pubs) }

  lemma StepCounted<M>(s: State<M>, step: Step<M>)
    requires Counted(s)
    ensures Counted(Next(s, step))
  {
    var n := Next(s, step);
    if !s.panicked && step.Arrive? {
      assert n.pubs[..|n.pubs| - 1] == s.pubs;
    } else {
      StepMember(s, step);
      hide Next, Busy;
      if n.pubs != s.pubs {
        BusyAt(s.pubs, step.p, n.pubs[step.p]);
      }
    }
  }

  /** A step other than an arrival changes one publish call at most, and the group with it. */
  lemma StepMember<M>(s: State<M>, step: Step<M>)
    requires s.panicked || !step.Arrive?
    ensures var n := Next(s, step);
            if n.pubs == s.pubs then n.wg == s.wg
            else
              && (step.LoadClosed? || step.PollDone? || step.AddToGroup? || step.Select? || step.LeaveGroup?)
              && step.p < |s.pubs| == |n.pubs| && n.pubs == s.pubs[step.p := n.pubs[step.p]]
              && n.wg == s.wg - (if Member(s.pubs[step.p]) then 1 else 0) + (if Member(n.pubs[step.p]) then 1 else 0)
  {
  }

  lemma {:induction false} AlwaysCounted<M>(steps: seq<Step<M>>)
    ensures Counted(After(Init(), steps))
    decreases |steps|
  {
    hide Counted, Next;
    if steps == [] {
      InitCounted<M>();
    } else {
      AlwaysCounted(steps[..|steps| - 1]);
      StepCounted(After(Init(), steps[..|steps| - 1]), steps[|steps| - 1]);
    }
  }

  lemma InitCounted<M>()
    ensures Counted(Init<M>())
  {
  }

  /** Some publish call has passed its checks and has not yet entered the wait group. */
  ghost predicate WindowOpen<M>(s: State<M>) { exists p :: In(s, p, Cleared) }

  /** Once Wait has returned nobody is in the window, in the select or after it. */
  ghost predicate Settled<M>(s: State<M>) {
    && !s.panicked
    && (Rank(s.closing) >= 3 ==>
          forall p | 0 <= p < |s.pubs| :: !s.pubs[p].phase.Cleared? && !s.pubs[p].phase.Sending?
              && !s.pubs[p].phase.Leaving?)
  }

  /** The step by which Wait returns. */
  predicate WaitReturns<M>(s: State<M>, step: Step<M>) {
    step.CloseStep? && s.closing == Flagged && s.wg == 0 && !s.panicked
  }

  lemma StepSettled<M>(s: State<M>, step: Step<M>)
    requires Settled(s) && Counted(s) && (WaitReturns(s, step) ==> !WindowOpen(s))
    ensures Settled(Next(s, step))
  {
    if WaitReturns(s, step) {
      forall p | 0 <= p < |s.pubs|
        ensures !s.pubs[p].phase.Cleared? && !s.pubs[p].phase.Sending? && !s.pubs[p].phase.Leaving?
      {
        NoneBusy(s.pubs, p);
        assert !In(s, p, Cleared);
      }
    }
  }

  lemma {:induction false} StaysSettled<M>(s: State<M>, more: seq<Step<M>>)
    requires Settled(s) && Counted(s) && Rank(s.closing) >= 3
    ensures Settled(After(s, more)) && Counted(After(s, more)) && Rank(After(s, more).closing) >= 3
    decreases |more|
  {
    hide Settled, Counted, Next;
    if more != [] {
      var init := more[..|more| - 1];
      StaysSettled(s, init);
      StepSettled(After(s, init), more[|more| - 1]);
      StepCounted(After(s, init), more[|more| - 1]);
      CloseMovesOn(After(s, init), more[|more| - 1]);
    }
  }

  /** Nobody is in the window whenever Wait returns: then no send ever meets a closed channel. */
  lemma {:induction false} NeverPanics<M>(steps: seq<Step<M>>)
    requires forall i | 0 <= i < |steps| ::
               WaitReturns(After(Init(), steps[..i]), steps[i]) ==> !WindowOpen(After(Init(), steps[..i]))
    ensures Settled(After(Init(), steps)) && !After(Init(), steps).panicked
    decreases |steps|
  {
    hide Next, WindowOpen, WaitReturns;
    if steps != [] {
      var init, last := steps[..|steps| - 1], steps[|steps| - 1];
      forall i | 0 <= i < |init|
        ensures WaitReturns(After(Init(), init[..i]), init[i]) ==> !WindowOpen(After(Init(), init[..i]))
      {
        assert init[..i] == steps[..i] && init[i] == steps[i];
      }
      NeverPanics(init);
      AlwaysCounted(init);
      hide Counted, Settled;
      assert WaitReturns(After(Init(), steps[..|init|]), steps[|init|]) ==> !WindowOpen(After(Init(), steps[..|init|]));
      StepSettled(After(Init(), init), last);
    }
    assert Settled(After(Init(), steps)) ==> !After(Init(), steps).panicked;
  }

  /** The steps by which a publish call in the window sends on a closed channel. */
  function Fatal<M>(p: nat): seq<Step<M>> {
    [CloseStep, CloseStep, AddToGroup(p), Select(p, TakeSend)]
  }

  lemma FatalPanics<M>(s: State<M>, p: nat)
    requires s.closing == Waited && !s.panicked && In(s, p, Cleared)
    ensures After(s, Fatal(p)).panicked
  {
    var s2 := s.(closing := OutClosed);
    Unroll(s, [], CloseStep, CloseStep, AddToGroup(p));
    var three := [] + [CloseStep, CloseStep, AddToGroup(p)];
    assert Fatal<M>(p)[..3] == three;
    assert After(s, three) == At(s2, p, Sending).(wg := s.wg + 1);
    assert After(s, Fatal(p)) == Next(After(s, three), Select(p, TakeSend));
  }

  /**
   In a state in which Wait has just returned, a panic lies ahead in some continuation exactly if the
   window is open.
   */
  lemma PanicExactly<M>(s: State<M>)
    requires Counted(s) && s.wg == 0 && s.closing == Waited && !s.panicked
    ensures (exists more :: After(s, more).panicked) <==> WindowOpen(s)
  {
    if WindowOpen(s) {
      var p :| In(s, p, Cleared);
      FatalPanics(s, p);
    } else {
      forall p | 0 <= p < |s.pubs|
        ensures !s.pubs[p].phase.Cleared? && !s.pubs[p].phase.Sending? && !s.pubs[p].phase.Leaving?
      {
        NoneBusy(s.pubs, p);
        assert !In(s, p, Cleared);
      }
      forall more
        ensures !After(s, more).panicked
      {
        StaysSettled(s, more);
      }
    }
  }

  /** The step by which call p sends on a closed channel. */
  predicate SendsOnClosed<M>(s: State<M>, step: Step<M>, p: nat) {
    step == Select(p, TakeSend) && In(s, p, Sending) && !s.panicked && ChanClosed(s, s.pubs[p].dir)
  }

  /** In the group, with Wait still to return, or gone. */
  ghost predicate Joined<M>(s: State<M>, p: nat) {
    && Counted(s) && p < |s.pubs|
    && (s.pubs[p].phase.Returned? || ((s.pubs[p].phase.Sending? || s.pubs[p].phase.Leaving?) && Rank(s.closing) < 3))
  }

  lemma StepJoined<M>(s: State<M>, step: Step<M>, p: nat)
    requires Joined(s, p)
    ensures Joined(Next(s, step), p)
  {
    StepCounted(s, step);
    if WaitReturns(s, step) {
      NoneBusy(s.pubs, p);
    }
    hide Counted, Busy;
  }

  /**
   A publish call that is in the wait group before Wait returns never sends on a closed channel,
   in any continuation and whoever else stands in the window.
   */
  lemma {:induction false} MemberSafe<M>(s: State<M>, p: nat, more: seq<Step<M>>, step: Step<M>)
    requires Counted(s) && In(s, p, Sending) && Rank(s.closing) < 3
    ensures Joined(After(s, more), p) && !SendsOnClosed(After(s, more), step, p)
    decreases |more|
  {
    hide Counted, Next;
    if more != [] {
      var init, last := more[..|more| - 1], more[|more| - 1];
      MemberSafe(s, p, init, step);
      StepJoined(After(s, init), last, p);
    }
  }

  /** A publish call that passed its checks, then Close up to the return of Wait. */
  function Early<M>(d: Dir, m: M): seq<Step<M>> { [Arrive(d, m), LoadClosed(0), PollDone(0, TakeDefault)] }

  function AtWait<M>(d: Dir, m: M): seq<Step<M>> { Early(d, m) + [CloseStep, CloseStep, CloseStep] }

  lemma Unroll<M>(s: State<M>, steps: seq<Step<M>>, a: Step<M>, b: Step<M>, c: Step<M>)
    ensures After(s, steps + [a, b, c]) == Next(Next(Next(After(s, steps), a), b), c)
  {
    hide Next;
    assert (steps + [a, b, c])[..|steps| + 2] == steps + [a, b];
    assert (steps + [a, b])[..|steps| + 1] == steps + [a];
    assert (steps + [a])[..|steps|] == steps;
    assert After(s, steps + [a]) == Next(After(s, steps), a);
    assert After(s, steps + [a, b]) == Next(After(s, steps + [a]), b);
  }

  /** The window can be open when Wait returns. */
  lemma WindowReachable<M>(d: Dir, m: M)
    ensures var s := After(Init(), AtWait(d, m));
            s.closing == Waited && WindowOpen(s) && s.wg == 0 && !s.panicked
  {
    var s0: State<M> := Init();
    Unroll(s0, [], Arrive(d, m), LoadClosed(0), PollDone(0, TakeDefault));
    assert [] + [Arrive(d, m), LoadClosed(0), PollDone(0, TakeDefault)] == Early(d, m);
    Unroll(s0, Early(d, m), CloseStep, CloseStep, CloseStep);
    var s3 := s0.(pubs := [Publisher(d, m, Cleared)]);
    assert After(s0, Early(d, m)) == s3;
    var s6 := After(s0, AtWait(d, m));
    assert s6 == s3.(closing := Waited);
    assert In(s6, 0, Cleared);
  }
}

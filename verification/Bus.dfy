/**
 The message bus's fields, updated in place. Each method is one atomic piece of PublishInbound,
 PublishOutbound, a consumer's receive or Close, and is one step (or, for the drain loops, a run of
 steps) of BusProtocol on the bus's state.
 */
module Bus {
  import opened BusProtocol

  class MessageBus<M> {
    var inbound: seq<Item<M>>
    var outbound: seq<Item<M>>
    var inboundClosed: bool
    var outboundClosed: bool
    var done: bool
    var closed: bool
    var wg: nat
    // where each publish call and Close stand
    var pubs: seq<Publisher<M>>
    var closing: Closing

    constructor ()
      ensures Valid() && View() == Init()
    {
      inbound, outbound, inboundClosed, outboundClosed := [], [], false, false;
      done, closed, wg, pubs, closing := false, false, 0, [], NotClosing;
    }

    ghost predicate Valid()
      reads this
    {
      && done == (Rank(closing) >= 1) && closed == (Rank(closing) >= 2)
      && inboundClosed == (Rank(closing) >= 4) && outboundClosed == (Rank(closing) >= 5)
    }

    ghost function View(): State<M>
      reads this
    {
      State(inbound, outbound, pubs, wg, closing, false)
    }

    method BeginPublish(dir: Dir, msg: M) returns (p: nat)
      requires Valid()
      modifies this
      ensures Valid() && View() == Next(old(View()), Arrive(dir, msg))
      ensures In(View(), p, Fresh) && pubs[p] == Publisher(dir, msg, Fresh)
    {
      p := |pubs|;
      pubs := pubs + [Publisher(dir, msg, Fresh)];
    }

    method CheckClosed(p: nat) returns (goOn: bool)
      requires Valid() && In(View(), p, Fresh)
      modifies this
      ensures Valid() && View() == Next(old(View()), LoadClosed(p))
      ensures In(View(), p, if goOn then Unflagged else Returned(BusClosed))
    {
      goOn := !closed;
      pubs := pubs[p := pubs[p].(phase := if closed then Returned(BusClosed) else Unflagged)];
    }

    /** The first select; if both the context and the bus are done it takes either. */
    method CheckDone(p: nat, cancelled: bool, preferCtx: bool) returns (choice: Choice)
      requires Valid() && In(View(), p, Unflagged)
      modifies this
      ensures Valid() && View() == Next(old(View()), PollDone(p, choice))
      ensures choice == if cancelled && (preferCtx || !done) then TakeCtx else if done then TakeDone else TakeDefault
      ensures In(View(), p, if choice == TakeCtx then Returned(CtxError) else if choice == TakeDone
                            then Returned(BusClosed) else Cleared)
    {
      if cancelled && (preferCtx || !done) {
        pubs := pubs[p := pubs[p].(phase := Returned(CtxError))];
        return TakeCtx;
      }
      if done {
        pubs := pubs[p := pubs[p].(phase := Returned(BusClosed))];
        return TakeDone;
      }
      pubs := pubs[p := pubs[p].(phase := Cleared)];
      return TakeDefault;
    }

    method Add(p: nat)
      requires Valid() && In(View(), p, Cleared)
      modifies this
      ensures Valid() && View() == Next(old(View()), AddToGroup(p))
    {
      wg := wg + 1;
      pubs := pubs[p := pubs[p].(phase := Sending)];
    }

    /** The second select takes the send; the channel must be open, for otherwise the program panics. */
    method Send(p: nat)
      requires Valid() && In(View(), p, Sending) && !ChanClosed(View(), pubs[p].dir) && CanSend(View(), pubs[p].dir)
      modifies this
      ensures Valid() && View() == Next(old(View()), Select(p, TakeSend))
      ensures Buf(View(), old(pubs)[p].dir) == old(Buf(View(), pubs[p].dir)) + [Item(p, old(pubs)[p].msg)]
    {
      var pub := pubs[p];
      match pub.dir {
        case Inbound => inbound := inbound + [Item(p, pub.msg)];
        case Outbound => outbound := outbound + [Item(p, pub.msg)];
      }
      pubs := pubs[p := pub.(phase := Leaving(Sent))];
    }

    /** The second select takes the context's or the bus's end. */
    method GiveUp(p: nat, choice: Choice)
      requires Valid() && In(View(), p, Sending) && (choice == TakeCtx || (choice == TakeDone && done))
      modifies this
      ensures Valid() && View() == Next(old(View()), Select(p, choice))
      ensures In(View(), p, Leaving(if choice == TakeCtx then CtxError else BusClosed))
    {
      pubs := pubs[p := pubs[p].(phase := Leaving(if choice == TakeCtx then CtxError else BusClosed))];
    }

    /** The deferred wg.Done. */
    method Leave(p: nat)
      requires Valid() && p < |pubs| && pubs[p].phase.Leaving? && wg > 0
      modifies this
      ensures Valid() && View() == Next(old(View()), LeaveGroup(p))
    {
      wg := wg - 1;
      pubs := pubs[p := pubs[p].(phase := Returned(pubs[p].phase.r))];
    }

    method Receive(dir: Dir) returns (item: Item<M>)
      requires Valid() && Buf(View(), dir) != []
      modifies this
      ensures Valid() && View() == Next(old(View()), Consume(dir))
      ensures [item] + Buf(View(), dir) == old(Buf(View(), dir))
    {
      match dir {
        case Inbound => item := inbound[0]; inbound := inbound[1..];
        case Outbound => item := outbound[0]; outbound := outbound[1..];
      }
    }

    /** Close up to the wait: closes done and sets the flag. */
    method CloseDone()
      requires Valid() && closing == NotClosing
      modifies this
      ensures Valid() && View() == Next(old(View()), CloseStep)
    {
      done, closing := true, DoneClosed;
    }

    method StoreClosed()
      requires Valid() && closing == DoneClosed
      modifies this
      ensures Valid() && View() == Next(old(View()), CloseStep)
    {
      closed, closing := true, Flagged;
    }

    method WaitReturn()
      requires Valid() && closing == Flagged && wg == 0
      modifies this
      ensures Valid() && View() == Next(old(View()), CloseStep)
    {
      closing := Waited;
    }

    method CloseInbound()
      requires Valid() && closing == Waited
      modifies this
      ensures Valid() && View() == Next(old(View()), CloseStep)
    {
      inboundClosed, closing := true, InClosed;
    }

    method CloseOutbound()
      requires Valid() && closing == InClosed
      modifies this
      ensures Valid() && View() == Next(old(View()), CloseStep)
    {
      outboundClosed, closing := true, OutClosed;
    }

    /** The two drain loops: from closed channels to a finished Close, one step for each item and each loop's end. */
    method Drain() returns (ghost steps: seq<Step<M>>)
      requires Valid() && closing == OutClosed
      modifies this
      ensures Valid() && closing == Finished && inbound == [] && outbound == []
      ensures View() == After(old(View()), steps) && (forall i | 0 <= i < |steps| :: steps[i] == CloseStep)
      ensures |steps| == |old(inbound)| + |old(outbound)| + 2
    {
      hide Next, After;
      steps := [];
      AfterNone(View());
      while inbound != []
        invariant Valid() && closing == OutClosed
        invariant View() == After(old(View()), steps) && forall i | 0 <= i < |steps| :: steps[i] == CloseStep
        invariant |steps| + |inbound| == |old(inbound)| && outbound == old(outbound)
        decreases |inbound|
      {
        DrainStep(old(View()), steps);
        inbound := inbound[1..];
        steps := steps + [CloseStep];
      }
      DrainStep(old(View()), steps);
      closing := InDrained;
      steps := steps + [CloseStep];
      while outbound != []
        invariant Valid() && closing == InDrained && inbound == []
        invariant View() == After(old(View()), steps) && forall i | 0 <= i < |steps| :: steps[i] == CloseStep
        invariant |steps| + |outbound| == |old(inbound)| + |old(outbound)| + 1
        decreases |outbound|
      {
        DrainStep(old(View()), steps);
        outbound := outbound[1..];
        steps := steps + [CloseStep];
      }
      DrainStep(old(View()), steps);
      closing := Finished;
      steps := steps + [CloseStep];
    }
  }

  lemma AfterNone<M>(s: State<M>)
    ensures After(s, []) == s
  {
  }

  lemma DrainStep<M>(s: State<M>, steps: seq<Step<M>>)
    requires !After(s, steps).panicked
    ensures After(s, steps + [CloseStep]) == CloseNext(After(s, steps))
  {
    assert (steps + [CloseStep])[..|steps|] == steps;
  }
}

/** The fan-out of a chat's events: each subscriber has a buffered channel, and a full one misses the event. */
module Broadcaster {
  import opened Text
  import opened SseFrames

  const BUFFER_SIZE := 64

  /**
   The open channels are those in `subs`; what a channel holds can be received after it was closed.
   Subscribers are numbered in the order in which they come; each step runs under the broadcaster's
   lock or takes from one channel.
   */
  datatype State<T> = State(subs: set<nat>, bufs: seq<seq<T>>)

  datatype Step<T> = Subscribe | Unsubscribe(ch: nat) | Publish(event: T) | Receive(ch: nat)

  predicate Valid<T>(s: State<T>) {
    && (forall ch | ch in s.subs :: ch < |s.bufs|)
    && (forall ch | 0 <= ch < |s.bufs| :: |s.bufs[ch]| <= BUFFER_SIZE)
  }

  /** Whether a publish reaches a channel: it is open and not full. */
  predicate Accepts<T>(s: State<T>, ch: nat) {
    ch in s.subs && ch < |s.bufs| && |s.bufs[ch]| < BUFFER_SIZE
  }

  function Offer<T>(s: State<T>, event: T, ch: nat): seq<T>
    requires ch < |s.bufs|
  {
    if Accepts(s, ch) then s.bufs[ch] + [event] else s.bufs[ch]
  }

  function Next<T>(s: State<T>, step: Step<T>): State<T> {
    match step
    case Subscribe => State(s.subs + {|s.bufs|}, s.bufs + [[]])
    case Unsubscribe(ch) => s.(subs := s.subs - {ch})
    case Publish(e) => s.(bufs := seq(|s.bufs|, ch requires 0 <= ch < |s.bufs| => Offer(s, e, ch)))
    case Receive(ch) => if ch < |s.bufs| && s.bufs[ch] != [] then s.(bufs := s.bufs[ch := s.bufs[ch][1..]]) else s
  }

  function After<T>(steps: seq<Step<T>>): State<T>
    decreases |steps|
  {
    if steps == [] then State({}, []) else Next(After(steps[..|steps| - 1]), steps[|steps| - 1])
  }

  /** What was published while the channel was open, in order. */
  function Offered<T>(steps: seq<Step<T>>, ch: nat): seq<T>
    decreases |steps|
  {
    if steps == [] then []
    else
      var init, last := steps[..|steps| - 1], steps[|steps| - 1];
      if last.Publish? && ch in After(init).subs then Offered(init, ch) + [last.event] else Offered(init, ch)
  }

  /** What the subscriber took from its channel, in order. */
  function Got<T>(steps: seq<Step<T>>, ch: nat): seq<T>
    decreases |steps|
  {
    if steps == [] then []
    else
      var init, last := steps[..|steps| - 1], steps[|steps| - 1];
      var s := After(init);
      if last == Receive(ch) && ch < |s.bufs| && s.bufs[ch] != []
          then Got(init, ch) + [s.bufs[ch][0]] else Got(init, ch)
  }

  function Waiting<T>(steps: seq<Step<T>>, ch: nat): seq<T> {
    if ch < |After(steps).bufs| then After(steps).bufs[ch] else []
  }

  /** How many publishes the open channel saw before the first that found it full. */
  function BeforeFull<T>(steps: seq<Step<T>>, ch: nat): nat
    decreases |steps|
  {
    if steps == [] then 0
    else
      var init, last := steps[..|steps| - 1], steps[|steps| - 1];
      if last.Publish? && Accepts(After(init), ch) && BeforeFull(init, ch) == |Offered(init, ch)|
      then BeforeFull(init, ch) + 1
      else BeforeFull(init, ch)
  }

  /** `picks` says which of b's places a is, in order. */
  ghost predicate PickedBy<T>(a: seq<T>, b: seq<T>, picks: seq<nat>) {
    && |picks| == |a|
    && (forall i | 0 <= i < |a| :: picks[i] < |b| && a[i] == b[picks[i]])
    && (forall i, j | 0 <= i < j < |a| :: picks[i] < picks[j])
  }

  /** A subsequence that begins with the first n, and lacks the next if there is one. */
  ghost predicate SubsequenceAfter<T>(a: seq<T>, b: seq<T>, n: nat, picks: seq<nat>) {
    && PickedBy(a, b, picks)
    && n <= |b| && n <= |a| && (forall i | 0 <= i < n :: picks[i] == i)
    && (n < |b| ==> n !in picks)
  }

  lemma PickMore<T>(a: seq<T>, b: seq<T>, n: nat, picks: seq<nat>, e: T)
    requires SubsequenceAfter(a, b, n, picks)
    ensures SubsequenceAfter(a + [e], b + [e], if n == |b| then n + 1 else n, picks + [|b|])
    ensures SubsequenceAfter(a, b + [e], n, picks)
  {
    if n == |b| {
      AllPicked(a, b, picks);
    }
  }

  lemma {:induction false} PicksGrow<T>(a: seq<T>, b: seq<T>, picks: seq<nat>, i: nat)
    requires PickedBy(a, b, picks) && i < |a|
    ensures i <= picks[i] < |b|
    decreases i
  {
    if i > 0 {
      PicksGrow(a, b, picks, i - 1);
    }
  }

  lemma AllPicked<T>(a: seq<T>, b: seq<T>, picks: seq<nat>)
    requires SubsequenceAfter(a, b, |b|, picks)
    ensures |a| == |b|
  {
    if |a| > |b| {
      PicksGrow(a, b, picks, |b|);
    }
  }

  lemma {:induction false} StaysValid<T>(steps: seq<Step<T>>)
    ensures Valid(After(steps))
    decreases |steps|
  {
    if steps != [] {
      StaysValid(steps[..|steps| - 1]);
      StepValid(After(steps[..|steps| - 1]), steps[|steps| - 1]);
    }
  }

  lemma StepValid<T>(s: State<T>, step: Step<T>)
    requires Valid(s)
    ensures Valid(Next(s, step))
  {
  }

  // ---- who is reached ----

  function Subscriptions<T>(steps: seq<Step<T>>): nat
    decreases |steps|
  {
    if steps == [] then 0
    else Subscriptions(steps[..|steps| - 1]) + (if steps[|steps| - 1].Subscribe? then 1 else 0)
  }

  /** Step i brings the subscriber after `ch` others, and it does not go later. */
  predicate Comes<T(==)>(steps: seq<Step<T>>, ch: nat, i: int) {
    0 <= i < |steps| && steps[i].Subscribe? && Subscriptions(steps[..i]) == ch && Unsubscribe(ch) !in steps[i + 1..]
  }

  /** The subscriber that came after `ch` others has come and has not gone. */
  ghost predicate Subscribed<T>(steps: seq<Step<T>>, ch: nat) { exists i :: Comes(steps, ch, i) }

  lemma ComesMore<T>(steps: seq<Step<T>>, ch: nat, i: int)
    requires steps != []
    ensures var n := |steps| - 1;
            && (i < n ==> (Comes(steps, ch, i) <==> steps[n] != Unsubscribe(ch) && Comes(steps[..n], ch, i)))
            && (Comes(steps, ch, n) <==> steps[n].Subscribe? && Subscriptions(steps[..n]) == ch)
  {
    var n := |steps| - 1;
    assert steps[n + 1..] == [];
    if 0 <= i < n {
      assert steps[..i] == steps[..n][..i] && steps[i + 1..] == steps[..n][i + 1..] + [steps[n]];
    }
  }

  lemma SubscribedMore<T>(steps: seq<Step<T>>, ch: nat)
    requires steps != []
    ensures var init, last := steps[..|steps| - 1], steps[|steps| - 1];
            Subscribed(steps, ch) <==>
            || (last.Subscribe? && Subscriptions(init) == ch)
            || (last != Unsubscribe(ch) && Subscribed(init, ch))
  {
    var n := |steps| - 1;
    ComesMore(steps, ch, n);
    ComesWithin(steps, ch);
    ComesWithin(steps[..n], ch);
    hide Comes, Subscriptions;
    if Subscribed(steps, ch) {
      var i :| Comes(steps, ch, i);
      ComesMore(steps, ch, i);
    }
    if Subscribed(steps[..n], ch) {
      var i :| Comes(steps[..n], ch, i);
      ComesMore(steps, ch, i);
    }
  }

  lemma ComesWithin<T>(steps: seq<Step<T>>, ch: nat)
    ensures forall i | Comes(steps, ch, i) :: 0 <= i < |steps|
  {
  }

  lemma {:induction false} SubscribedExactly<T>(steps: seq<Step<T>>, ch: nat)
    ensures |After(steps).bufs| == Subscriptions(steps)
    ensures ch in After(steps).subs <==> Subscribed(steps, ch)
    decreases |steps|
  {
    hide Subscribed;
    if steps == [] {
      NoneSubscribed<T>(ch);
    } else {
      SubscribedExactly(steps[..|steps| - 1], ch);
      SubscribedMore(steps, ch);
    }
  }

  lemma NoneSubscribed<T>(ch: nat)
    ensures !Subscribed<T>([], ch)
  {
  }

  /** A publish reaches exactly the subscribers that have come, have not gone, and have room among 64. */
  lemma PublishReaches<T>(steps: seq<Step<T>>, event: T, ch: nat)
    ensures Waiting(steps + [Publish(event)], ch) ==
            Waiting(steps, ch) + if Subscribed(steps, ch) && |Waiting(steps, ch)| < 64 then [event] else []
  {
    hide Subscribed;
    SubscribedExactly(steps, ch);
    StaysValid(steps);
    var all := steps + [Publish(event)];
    assert all[..|all| - 1] == steps;
    PublishAdds(all, ch);
    assert Waiting(steps, ch) + [] == Waiting(steps, ch);
  }

  /** A step other than publish moves at most one event of a channel, from its buffer to its subscriber. */
  lemma MovesOn<T>(steps: seq<Step<T>>, ch: nat)
    requires steps != [] && !steps[|steps| - 1].Publish?
    ensures Got(steps, ch) + Waiting(steps, ch) == Got(steps[..|steps| - 1], ch) + Waiting(steps[..|steps| - 1], ch)
  {
    var init, last := steps[..|steps| - 1], steps[|steps| - 1];
    var w := Waiting(init, ch);
    assert After(steps) == Next(After(init), last);
    hide After;
    if last == Receive(ch) && w != [] {
      assert Got(steps, ch) == Got(init, ch) + [w[0]] && Waiting(steps, ch) == w[1..];
      hide Got, Waiting;
      assert Got(init, ch) + [w[0]] + w[1..] == Got(init, ch) + w;
    } else {
      assert Got(steps, ch) == Got(init, ch) && Waiting(steps, ch) == w;
    }
  }

  lemma PublishAdds<T>(steps: seq<Step<T>>, ch: nat)
    requires steps != [] && steps[|steps| - 1].Publish? && Valid(After(steps[..|steps| - 1]))
    ensures Waiting(steps, ch) ==
            if Accepts(After(steps[..|steps| - 1]), ch)
                then Waiting(steps[..|steps| - 1], ch) + [steps[|steps| - 1].event]
            else Waiting(steps[..|steps| - 1], ch)
    ensures Got(steps, ch) == Got(steps[..|steps| - 1], ch)
  {
  }

  /**
   In every run, what a subscriber took followed by what waits for it is an ordered subsequence of
   what was published while it was subscribed: complete up to the first publish that found its
   buffer full, and without that one.
   */
  lemma {:induction false} Delivered<T>(steps: seq<Step<T>>, ch: nat) returns (picks: seq<nat>)
    ensures SubsequenceAfter(Got(steps, ch) + Waiting(steps, ch), Offered(steps, ch), BeforeFull(steps, ch), picks)
    decreases |steps|
  {
    hide SubsequenceAfter;
    if steps == [] {
      picks := [];
      NothingPicked<T>();
    } else {
      var init, last := steps[..|steps| - 1], steps[|steps| - 1];
      StaysValid(init);
      picks := Delivered(init, ch);
      var a, b, n := Got(init, ch) + Waiting(init, ch), Offered(init, ch), BeforeFull(init, ch);
      match last {
        case Publish(e) =>
          PublishAdds(steps, ch);
          PickMore(a, b, n, picks, e);
          if Accepts(After(init), ch) {
            picks := picks + [|b|];
            hide Got, Waiting, Offered, BeforeFull, After;
            assert a + [e] == Got(init, ch) + (Waiting(init, ch) + [e]);
          }
        case _ =>
          MovesOn(steps, ch);
      }
    }
  }

  lemma NothingPicked<T>()
    ensures SubsequenceAfter<T>([] + [], [], 0, [])
  {
  }

  /** No event is lost exactly if no publish found the buffer full. */
  lemma Lossless<T>(steps: seq<Step<T>>, ch: nat)
    ensures Got(steps, ch) + Waiting(steps, ch) == Offered(steps, ch) <==> BeforeFull(steps, ch) == |Offered(steps, ch)|
  {
    var picks := Delivered(steps, ch);
    var a, b, n := Got(steps, ch) + Waiting(steps, ch), Offered(steps, ch), BeforeFull(steps, ch);
    if n == |b| {
      AllPicked(a, b, picks);
    } else if a == b {
      Shifted(a, b, n, picks, n);
      AllShifted(a, b, n, picks);
    }
  }

  /** Past a gap every pick is at least one place further on. */
  lemma {:induction false} Shifted<T>(a: seq<T>, b: seq<T>, n: nat, picks: seq<nat>, i: nat)
    requires SubsequenceAfter(a, b, n, picks) && n < |b| && n <= i < |a|
    ensures picks[i] > i
    decreases i
  {
    if i == n {
      if n > 0 {
        assert picks[n - 1] < picks[n];
      }
      assert picks[n] in picks;
    } else {
      Shifted(a, b, n, picks, i - 1);
    }
  }

  lemma AllShifted<T>(a: seq<T>, b: seq<T>, n: nat, picks: seq<nat>)
    requires SubsequenceAfter(a, b, n, picks) && n < |b|
    ensures |a| < |b|
  {
    if |a| >= |b| {
      Shifted(a, b, n, picks, |a| - 1);
    }
  }

  /**
   From the broadcaster to the client: the frames a subscriber has been sent read back as the events
   it took, which are a subsequence of those published.
   */
  lemma EndToEnd(steps: seq<Step<Event>>, ch: nat) returns (picks: seq<nat>)
    requires forall i | 0 <= i < |Offered(steps, ch)| :: Plain(Offered(steps, ch)[i])
    ensures PickedBy(Decode(Encode(Got(steps, ch))), Offered(steps, ch), picks)
    ensures BeforeFull(steps, ch) >= |Got(steps, ch)| ==> Decode(Encode(Got(steps, ch))) <= Offered(steps, ch)
  {
    hide Plain, Decode, Got, Offered, Waiting, BeforeFull;
    var got := Got(steps, ch);
    var all := Delivered(steps, ch);
    picks := all[..|got|];
    forall i | 0 <= i < |got|
      ensures Plain(got[i]) && picks[i] < |Offered(steps, ch)| && got[i] == Offered(steps, ch)[picks[i]]
    {
      assert (got + Waiting(steps, ch))[i] == got[i];
    }
    RoundTrip(got, "");
    assert Encode(got) + "" == Encode(got);
    NothingLeft(got);
  }

  lemma NothingLeft(events: seq<Event>)
    ensures events + Decode("") == events
  {
  }

  class ChatBroadcaster<T> {
    var subs: set<nat>
    // the channels' contents; a channel's number is its identity
    var bufs: seq<seq<T>>

    constructor ()
      ensures View() == State({}, [])
    {
      subs, bufs := {}, [];
    }

    ghost function View(): State<T>
      reads this
    {
      State(subs, bufs)
    }

    method AddSubscriber() returns (ch: nat)
      requires Valid(View())
      modifies this
      ensures Valid(View()) && View() == Next(old(View()), Subscribe)
      ensures ch == |old(bufs)| && ch in subs
    {
      ch := |bufs|;
      bufs := bufs + [[]];
      subs := subs + {ch};
    }

    /** The function that subscribe returns; a second call does nothing. */
    method RemoveSubscriber(ch: nat)
      requires Valid(View())
      modifies this
      ensures Valid(View()) && View() == Next(old(View()), Unsubscribe(ch))
    {
      if ch in subs { subs := subs - {ch}; }
    }

    /** Offers the event to every subscriber, in whatever order, and never blocks. */
    method Send(event: T)
      requires Valid(View())
      modifies this
      ensures Valid(View()) && View() == Next(old(View()), Publish(event))
    {
      var todo := subs;
      while todo != {}
        invariant todo <= subs == old(subs) && |bufs| == |old(bufs)| && Valid(View())
        invariant forall ch: nat | ch < |bufs| :: bufs[ch] == if ch in todo
                  then old(bufs)[ch] else Offer(old(View()), event, ch)
        decreases todo
      {
        var ch :| ch in todo;
        if |bufs[ch]| < BUFFER_SIZE {
          bufs := bufs[ch := bufs[ch] + [event]];
        }
        todo := todo - {ch};
      }
    }

    method Take(ch: nat) returns (event: T)
      requires Valid(View()) && ch < |bufs| && bufs[ch] != []
      modifies this
      ensures Valid(View()) && View() == Next(old(View()), Receive(ch)) && event == old(bufs)[ch][0]
    {
      event := bufs[ch][0];
      bufs := bufs[ch := bufs[ch][1..]];
    }
  }
}

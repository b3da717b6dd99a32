/**
 The MCP client's request/response correlation (pkg/mcp/client.go) as atomic steps: callers, the pump
 goroutine, the server's messages and Close interleave freely. Each critical section of the source,
 each channel operation and each transport outcome is one step.
 */
module McpProtocol {
  import opened Wrappers

  /** A message the pump recognised as a response (JSON-RPC 2.0, section 5). */
  datatype Message = Message(id: nat, fault: bool, body: string)

  datatype Outcome =
    | Succeeded(msg: Message)
    | Faulted(msg: Message)
    | Undecodable(msg: Message)
    | Disconnected
    | Refused
    | EncodeFailed
    | SendFailed
    | Cancelled

  datatype Phase =
    | Encoding
    | Sending
    | Forgetting
    | Waiting
    | Done(outcome: Outcome)

  datatype Call = Call(id: nat, phase: Phase)

  /** A response channel of capacity 1; `sent` and `closes` record its history. */
  datatype Channel = Channel(buffer: seq<Message>, closed: bool, sent: seq<Message>, closes: nat)

  datatype Pump =
    | Idle
    | Holding(chan: nat, msg: Message)
    | Finishing(chan: nat)
    | Exited

  /** Call number c owns channel number c; `pending` maps request ids to channels. */
  datatype State = State(
    nextID: nat,
    pending: map<nat, nat>,
    closed: bool,
    calls: seq<Call>,
    chans: seq<Channel>,
    pump: Pump)

  datatype Step =
    | Begin                         // take the next id
    | EncodeFail(c: nat)
    | Register(c: nat)              // critical section: refuse if closed, else enter the channel
    | SendOk(c: nat)
    | SendFail(c: nat)
    | Forget(c: nat)                // critical section after a failed send
    | Receive(c: nat, decodes: bool)
    | Cancel(c: nat)
    | Route(msg: Message)           // critical section of the pump
    | Deliver                       // the pump sends on the channel in its hand
    | Finish                        // the pump closes the channel in its hand
    | Exit                          // the transport ended: the pump closes what is pending
    | Close                         // critical section of Close

  const INIT := State(0, map[], false, [], [], Idle)

  const CAPACITY := 1

  predicate InPhase(s: State, c: nat, p: Phase) { c < |s.calls| && s.calls[c].phase == p }

  predicate Enabled(s: State, step: Step) {
    match step
    case Begin => |s.calls| == |s.chans|
    case EncodeFail(c) => InPhase(s, c, Encoding)
    case Register(c) => InPhase(s, c, Encoding)
    case SendOk(c) => InPhase(s, c, Sending)
    case SendFail(c) => InPhase(s, c, Sending)
    case Forget(c) => InPhase(s, c, Forgetting)
    case Receive(c, _) => InPhase(s, c, Waiting) && c < |s.chans| && (s.chans[c].buffer != [] || s.chans[c].closed)
    case Cancel(c) => InPhase(s, c, Waiting)
    case Route(_) => s.pump.Idle?
    case Deliver => s.pump.Holding? && s.pump.chan < |s.chans| && |s.chans[s.pump.chan].buffer| < CAPACITY
    case Finish => s.pump.Finishing? && s.pump.chan < |s.chans|
    case Exit => s.pump.Idle?
    case Close => true
  }

  /** Go panics on a send on a closed channel and on closing a closed channel. */
  ghost predicate Panics(s: State, step: Step)
    requires Enabled(s, step)
  {
    match step
    case Deliver => s.chans[s.pump.chan].closed
    case Finish => s.chans[s.pump.chan].closed
    case Exit => DrainPanics(s)
    case Close => DrainPanics(s)
    case _ => false
  }

  /** Closing every pending channel panics if one is closed already, or pending twice. */
  ghost predicate DrainPanics(s: State) {
    || (exists id | id in s.pending :: s.pending[id] < |s.chans| && s.chans[s.pending[id]].closed)
    || (exists i, j | i in s.pending && j in s.pending && i != j :: s.pending[i] == s.pending[j])
  }

  function SetPhase(s: State, c: nat, p: Phase): State
    requires c < |s.calls|
  {
    s.(calls := s.calls[c := s.calls[c].(phase := p)])
  }

  function CloseChannel(ch: Channel): Channel { ch.(closed := true, closes := ch.closes + 1) }

  /** Every pending channel closed. */
  function CloseAll(chans: seq<Channel>, pending: map<nat, nat>): seq<Channel> {
    seq(|chans|, c requires 0 <= c < |chans| => if c in pending.Values then CloseChannel(chans[c]) else chans[c])
  }

  function Taken(ch: Channel, decodes: bool): Outcome {
    if ch.buffer == [] then Disconnected
    else if ch.buffer[0].fault then Faulted(ch.buffer[0])
    else if decodes then Succeeded(ch.buffer[0])
    else Undecodable(ch.buffer[0])
  }

  function Next(s: State, step: Step): State
    requires Enabled(s, step)
  {
    match step
    case Begin =>
      s.(nextID := s.nextID + 1,
         calls := s.calls + [Call(s.nextID + 1, Encoding)],
         chans := s.chans + [Channel([], false, [], 0)])
    case EncodeFail(c) => SetPhase(s, c, Done(EncodeFailed))
    case Register(c) =>
      if s.closed then SetPhase(s, c, Done(Refused))
      else SetPhase(s, c, Sending).(pending := s.pending[s.calls[c].id := c])
    case SendOk(c) => SetPhase(s, c, Waiting)
    case SendFail(c) => SetPhase(s, c, Forgetting)
    case Forget(c) => SetPhase(s, c, Done(SendFailed)).(pending := s.pending - {s.calls[c].id})
    case Receive(c, decodes) =>
      var ch := s.chans[c];
      var rest := if ch.buffer == [] then ch else ch.(buffer := ch.buffer[1..]);
      SetPhase(s, c, Done(Taken(ch, decodes))).(chans := s.chans[c := rest])
    case Cancel(c) => SetPhase(s, c, Done(Cancelled))
    case Route(msg) =>
      if msg.id in s.pending
      then s.(pending := s.pending - {msg.id}, pump := Holding(s.pending[msg.id], msg))
      else s
    case Deliver =>
      var ch := s.chans[s.pump.chan];
      s.(chans := s.chans[s.pump.chan := ch.(buffer := ch.buffer + [s.pump.msg], sent := ch.sent + [s.pump.msg])],
         pump := Finishing(s.pump.chan))
    case Finish =>
      s.(chans := s.chans[s.pump.chan := CloseChannel(s.chans[s.pump.chan])], pump := Idle)
    case Exit => s.(chans := CloseAll(s.chans, s.pending), pending := map[], pump := Exited)
    case Close => s.(chans := CloseAll(s.chans, s.pending), pending := map[], closed := true)
  }

  // ---- the invariant ----

  predicate InMap(s: State, c: nat) { c + 1 in s.pending }

  predicate InHand(s: State, c: nat) {
    (s.pump.Holding? || s.pump.Finishing?) && s.pump.chan == c
  }

  /** Untouched: nothing was ever sent on the channel and it is open. */
  predicate Fresh(ch: Channel) { ch == Channel([], false, [], 0) }

  /** What holds of call c and its channel. */
  ghost predicate CallInv(s: State, c: nat)
    requires c < |s.calls| && c < |s.chans|
  {
    var call := s.calls[c];
    var ch := s.chans[c];
    // each call has its own id
    && call.id == c + 1
    // one owner: the map, the pump's hand, or nobody; a closed channel has none
    && !(InMap(s, c) && InHand(s, c))
    && (ch.closed ==> !InMap(s, c) && !InHand(s, c))
    && ch.closes == (if ch.closed then 1 else 0)
    // what the owner has done so far
    && (InMap(s, c) ==> Fresh(ch))
    && (s.pump.Holding? && s.pump.chan == c ==> Fresh(ch) && s.pump.msg.id == call.id)
    && (s.pump.Finishing? && s.pump.chan == c ==> |ch.sent| == 1)
    // at most one response, and only the call's own
    && |ch.sent| <= 1
    && (ch.buffer == [] || ch.buffer == ch.sent)
    && (ch.sent != [] ==> ch.sent[0].id == call.id)
    && (ch.sent != [] ==> InHand(s, c) || ch.closed)
    // what the caller's phase tells
    && (call.phase.Encoding? ==> !InMap(s, c) && !InHand(s, c) && Fresh(ch))
    && (call.phase.Sending? || call.phase.Waiting? ==> InMap(s, c) || InHand(s, c) || ch.closed)
    && (!call.phase.Done? ==> ch.buffer == ch.sent)
    && (call.phase.Done? && (call.phase.outcome.Refused? || call.phase.outcome.EncodeFailed?) ==>
          !InMap(s, c) && !InHand(s, c) && Fresh(ch))
    && (call.phase.Done? && call.phase.outcome.SendFailed? ==> !InMap(s, c))
    && (call.phase.Done?
        && (call.phase.outcome.Succeeded? || call.phase.outcome.Faulted? || call.phase.outcome.Undecodable?) ==>
          ch.sent == [call.phase.outcome.msg])
  }

  ghost predicate Inv(s: State) {
    && |s.calls| == |s.chans| == s.nextID
    && (forall id | id in s.pending :: 1 <= id <= |s.calls| && s.pending[id] == id - 1)
    && (s.pump.Holding? || s.pump.Finishing? ==> s.pump.chan < |s.chans|)
    && (s.closed ==> s.pending == map[])
    && (forall c | 0 <= c < |s.calls| :: CallInv(s, c))
  }

  lemma InitInv()
    ensures Inv(INIT)
  {
  }

  /** Every pending channel is closed exactly once, and no other. */
  lemma CloseAllAt(s: State, c: nat)
    requires Inv(s) && c < |s.chans|
    ensures CloseAll(s.chans, s.pending)[c] == if InMap(s, c) then CloseChannel(s.chans[c]) else s.chans[c]
  {
    if InMap(s, c) {
      assert s.pending[c + 1] == c;
    }
  }

  /** Every step keeps the invariant, and none panics. */
  lemma StepInv(s: State, step: Step)
    requires Inv(s) && Enabled(s, step)
    ensures Inv(Next(s, step)) && !Panics(s, step)
  {
    var t := Next(s, step);
    match step {
      case Exit => DrainInv(s, t);
      case Close => DrainInv(s, t);
      case Route(msg) => RouteInv(s, msg);
      case Deliver => HandInv(s, step);
      case Finish => HandInv(s, step);
      case _ => CallerInv(s, step);
    }
  }

  /** The pump's send and close touch only the channel in its hand. */
  lemma HandInv(s: State, step: Step)
    requires Inv(s) && Enabled(s, step) && (step.Deliver? || step.Finish?)
    ensures Inv(Next(s, step)) && !Panics(s, step)
  {
    var t := Next(s, step);
    var h := s.pump.chan;
    assert CallInv(s, h);
    assert step.Deliver? ==> t.chans[h].buffer == [s.pump.msg] && t.chans[h].sent == [s.pump.msg];
    forall c | 0 <= c < |t.calls|
      ensures CallInv(t, c)
    {
      assert CallInv(s, c);
    }
  }

  /** What CallInv says of c depends only on c's call, channel, entry and place in the pump's hand. */
  lemma Framed(s: State, t: State, c: nat)
    requires c < |s.calls| && c < |s.chans| && c < |t.calls| && c < |t.chans| && CallInv(s, c)
    requires t.calls[c] == s.calls[c] && t.chans[c] == s.chans[c] && t.pump == s.pump
    requires InMap(t, c) == InMap(s, c)
    ensures CallInv(t, c)
  {
  }

  /** A caller's step touches only its own call and channel, and its own entry of the map. */
  lemma CallerInv(s: State, step: Step)
    requires Inv(s) && Enabled(s, step)
    requires !step.Deliver? && !step.Finish? && !step.Exit? && !step.Close? && !step.Route?
    ensures Inv(Next(s, step)) && !Panics(s, step)
  {
    var t := Next(s, step);
    if step.Begin? {
      BeginInv(s);
    } else {
      OwnCallInv(s, step);
      OwnEntry(s, step);
      hide CallInv, Next;
      forall c | 0 <= c < |t.calls|
        ensures CallInv(t, c)
      {
        if c != step.c {
          assert CallInv(s, c);
          OthersSame(s, step, c);
          Framed(s, t, c);
        }
      }
    }
  }

  predicate OfCaller(s: State, step: Step) {
    && !step.Deliver? && !step.Finish? && !step.Exit? && !step.Close? && !step.Route? && !step.Begin?
    && Enabled(s, step)
  }

  lemma OthersSame(s: State, step: Step, c: nat)
    requires Inv(s) && OfCaller(s, step) && c < |s.calls| && c != step.c
    ensures var t := Next(s, step);
            && c < |t.calls| && c < |t.chans| && t.calls[c] == s.calls[c] && t.chans[c] == s.chans[c]
            && t.pump == s.pump
            && InMap(t, c) == InMap(s, c)
  {
    assert CallInv(s, c) && CallInv(s, step.c);
    hide CallInv;
    CallIds(s);
  }

  lemma CallIds(s: State)
    requires Inv(s)
    ensures forall c | 0 <= c < |s.calls| :: s.calls[c].id == c + 1
  {
    forall c | 0 <= c < |s.calls|
      ensures s.calls[c].id == c + 1
    {
      assert CallInv(s, c);
    }
  }

  /** The map and the lengths after a caller's step. */
  lemma OwnEntry(s: State, step: Step)
    requires Inv(s) && OfCaller(s, step)
    ensures var t := Next(s, step);
            && |t.calls| == |t.chans| == t.nextID && t.pump == s.pump
            && (forall id | id in t.pending :: 1 <= id <= |t.calls| && t.pending[id] == id - 1)
            && (t.closed ==> t.pending == map[])
            && |t.chans| == |s.chans|
  {
    CallIds(s);
    hide CallInv;
  }

  lemma BeginInv(s: State)
    requires Inv(s) && Enabled(s, Begin)
    ensures Inv(Next(s, Begin))
  {
    var t := Next(s, Begin);
    forall c | 0 <= c < |t.calls|
      ensures CallInv(t, c)
    {
      if c < |s.calls| { Framed(s, t, c); }
    }
  }

  lemma OwnCallInv(s: State, step: Step)
    requires Inv(s) && Enabled(s, step)
    requires !step.Deliver? && !step.Finish? && !step.Exit? && !step.Close? && !step.Route? && !step.Begin?
    ensures |Next(s, step).calls| == |s.calls| == |Next(s, step).chans| && CallInv(Next(s, step), step.c)
  {
    assert CallInv(s, step.c);
    if step.Receive? {
      var ch := s.chans[step.c];
      assert Next(s, step).chans[step.c].buffer == [];
      assert ch.buffer != [] ==> ch.sent == [ch.buffer[0]];
    }
  }

  lemma RouteInv(s: State, msg: Message)
    requires Inv(s) && s.pump.Idle?
    ensures Inv(Next(s, Route(msg)))
  {
    var t := Next(s, Route(msg));
    forall c | 0 <= c < |t.calls|
      ensures CallInv(t, c)
    {
      assert CallInv(s, c);
    }
  }

  lemma DrainInv(s: State, t: State)
    requires Inv(s)
    requires t.pending == map[] && t.calls == s.calls && t.nextID == s.nextID
    requires t.chans == CloseAll(s.chans, s.pending)
    requires t.pump == s.pump || (s.pump.Idle? && t.pump.Exited?)
    ensures Inv(t) && !DrainPanics(s)
  {
    forall c | 0 <= c < |t.calls|
      ensures CallInv(t, c)
    {
      assert CallInv(s, c);
      CloseAllAt(s, c);
    }
    forall id | id in s.pending
      ensures !s.chans[s.pending[id]].closed
    {
      assert CallInv(s, id - 1);
    }
  }

  // ---- runs ----

  /** Whether each step can be taken after those before it. */
  ghost predicate Legal(s: State, steps: seq<Step>)
    decreases |steps|
  {
    steps == [] || (Enabled(s, steps[0]) && Legal(Next(s, steps[0]), steps[1..]))
  }

  ghost function Run(s: State, steps: seq<Step>): State
    requires Legal(s, steps)
    decreases |steps|
  {
    if steps == [] then s else Run(Next(s, steps[0]), steps[1..])
  }

  lemma {:induction false} RunInv(s: State, steps: seq<Step>)
    requires Inv(s) && Legal(s, steps)
    ensures Inv(Run(s, steps))
    decreases |steps|
  {
    if steps != [] {
      StepInv(s, steps[0]);
      RunInv(Next(s, steps[0]), steps[1..]);
    }
  }

  /**
   Safety in every interleaving: no step that can be taken panics, the pump's send has room, and each
   channel has at most one owner, is closed at most once and sent on at most once.
   */
  lemma {:induction false} Safety(steps: seq<Step>, step: Step, c: nat)
    requires Legal(INIT, steps) && c < |Run(INIT, steps).calls|
    ensures var s := Run(INIT, steps);
            && (Enabled(s, step) ==> !Panics(s, step))
            && (s.pump.Holding? ==> Enabled(s, Deliver))
            && (s.pump.Finishing? ==> Enabled(s, Finish))
            && c < |s.chans|
            && !(InMap(s, c) && InHand(s, c))
            && (s.chans[c].closed ==> !InMap(s, c) && !InHand(s, c))
            && s.chans[c].closes <= 1 && |s.chans[c].sent| <= 1
  {
    InitInv();
    RunInv(INIT, steps);
    var s := Run(INIT, steps);
    if Enabled(s, step) { StepInv(s, step); }
    assert CallInv(s, c);
    if s.pump.Holding? { assert CallInv(s, s.pump.chan); }
  }

  /** The pump holds the message for call c's channel, or has sent it there. */
  ghost predicate Got(s: State, c: nat, msg: Message) {
    c < |s.chans| && (s.pump == Holding(c, msg) || s.chans[c].sent == [msg])
  }

  lemma DeliverGot(s: State, c: nat, msg: Message)
    requires Inv(s) && Enabled(s, Deliver) && Got(Next(s, Deliver), c, msg)
    ensures Got(s, c, msg)
  {
    var h := s.pump.chan;
    assert CallInv(s, h);
    assert Next(s, Deliver).chans[h].sent[0] == s.pump.msg;
  }

  lemma GotStep(s: State, step: Step, c: nat, msg: Message)
    requires Inv(s) && Enabled(s, step) && !Got(s, c, msg) && Got(Next(s, step), c, msg)
    ensures step == Route(msg) && InMap(s, c) && msg.id == c + 1
  {
    if step.Deliver? { DeliverGot(s, c, msg); }
    hide CallInv;
    if step.Route? && step.msg.id in s.pending {
      assert s.pending[step.msg.id] == step.msg.id - 1;
    }
  }

  /** After i steps the pump takes the message, and with it the entry of call c out of the map. */
  ghost predicate RoutedAt(s: State, steps: seq<Step>, i: nat, c: nat, msg: Message) {
    i < |steps| && steps[i] == Route(msg) && msg.id == c + 1 && Legal(s, steps[..i]) && InMap(Run(s, steps[..i]), c)
  }

  lemma {:induction false} GotWasRouted(s: State, steps: seq<Step>, c: nat, msg: Message) returns (i: nat)
    requires Inv(s) && Legal(s, steps) && !Got(s, c, msg) && Got(Run(s, steps), c, msg)
    ensures RoutedAt(s, steps, i, c, msg)
    decreases |steps|
  {
    hide Inv, Got, Next, Enabled;
    var next := Next(s, steps[0]);
    if Got(next, c, msg) {
      GotStep(s, steps[0], c, msg);
      i := 0;
      assert steps[..0] == [];
    } else {
      StepInv(s, steps[0]);
      var j := GotWasRouted(next, steps[1..], c, msg);
      i := j + 1;
      assert steps[..i][1..] == steps[1..][..j] && steps[..i][0] == steps[0];
    }
  }

  /**
   A call succeeds only with a response that carries its own id and that the pump received while the
   call's entry was in the map; no response serves two calls.
   */
  lemma {:induction false} Correlated(steps: seq<Step>, c: nat, d: nat)
    requires Legal(INIT, steps)
    requires var s := Run(INIT, steps);
             && c < |s.calls| && d < |s.calls|
             && s.calls[c].phase.Done? && s.calls[c].phase.outcome.Succeeded?
             && s.calls[d].phase.Done? && s.calls[d].phase.outcome.Succeeded?
    ensures var s := Run(INIT, steps);
            && s.calls[c].phase.outcome.msg.id == s.calls[c].id
            && (exists i :: RoutedAt(INIT, steps, i, c, s.calls[c].phase.outcome.msg))
            && (s.calls[c].phase.outcome.msg == s.calls[d].phase.outcome.msg ==> c == d)
  {
    InitInv();
    RunInv(INIT, steps);
    assert CallInv(Run(INIT, steps), c) && CallInv(Run(INIT, steps), d);
    var i := GotWasRouted(INIT, steps, c, Run(INIT, steps).calls[c].phase.outcome.msg);
  }

  // ---- the outcome of a call ----

  /** What the pump has taken for a call stays with it. */
  lemma GotStays(s: State, step: Step, c: nat, msg: Message)
    requires Inv(s) && Enabled(s, step) && Got(s, c, msg)
    ensures Got(Next(s, step), c, msg)
  {
    assert step.Deliver? ==> CallInv(s, s.pump.chan);
    if c < |s.calls| { assert CallInv(s, c); }
  }

  lemma {:induction false} GotOn(s: State, steps: seq<Step>, c: nat, msg: Message)
    requires Inv(s) && Legal(s, steps) && Got(s, c, msg)
    ensures Got(Run(s, steps), c, msg)
    decreases |steps|
  {
    hide Inv, Got, Next, Enabled;
    if steps != [] {
      GotStays(s, steps[0], c, msg);
      StepInv(s, steps[0]);
      GotOn(Next(s, steps[0]), steps[1..], c, msg);
    }
  }

  /** A message that was routed while the call's entry was in the map is the call's for good. */
  lemma {:induction false} RoutedIsGot(s: State, steps: seq<Step>, i: nat, c: nat, msg: Message)
    requires Inv(s) && Legal(s, steps) && RoutedAt(s, steps, i, c, msg)
    ensures Got(Run(s, steps), c, msg)
    decreases |steps|
  {
    var next := Next(s, steps[0]);
    StepInv(s, steps[0]);
    if i == 0 {
      assert steps[..0] == [];
      RouteGets(s, c, msg);
      GotOn(next, steps[1..], c, msg);
    } else {
      hide Inv, Got, Next, Enabled;
      assert steps[..i][1..] == steps[1..][..i - 1] && steps[..i][0] == steps[0];
      RoutedIsGot(next, steps[1..], i - 1, c, msg);
    }
  }

  lemma RouteGets(s: State, c: nat, msg: Message)
    requires Inv(s) && Enabled(s, Route(msg)) && InMap(s, c) && msg.id == c + 1
    ensures Got(Next(s, Route(msg)), c, msg)
  {
  }

  /** The pump took the message for call c while the call's entry was in the map. */
  ghost predicate Answered(steps: seq<Step>, c: nat, msg: Message) {
    exists i :: RoutedAt(INIT, steps, i, c, msg)
  }

  lemma AnsweredIsGot(steps: seq<Step>, c: nat, msg: Message)
    requires Legal(INIT, steps)
    ensures Answered(steps, c, msg) <==> Got(Run(INIT, steps), c, msg)
  {
    InitInv();
    RunInv(INIT, steps);
    hide Inv, Legal, Run;
    if Answered(steps, c, msg) {
      var i :| RoutedAt(INIT, steps, i, c, msg);
      RoutedIsGot(INIT, steps, i, c, msg);
    }
    if Got(Run(INIT, steps), c, msg) {
      var i := GotWasRouted(INIT, steps, c, msg);
    }
  }

  /** What a call returns that takes from its channel. */
  ghost predicate Returns(steps: seq<Step>, c: nat, decodes: bool, o: Outcome) {
    Legal(INIT, steps + [Receive(c, decodes)]) && InPhase(Run(INIT, steps + [Receive(c, decodes)]), c, Done(o))
  }

  lemma {:induction false} RunMore(s: State, steps: seq<Step>, step: Step)
    ensures Legal(s, steps + [step]) <==> Legal(s, steps) && Enabled(Run(s, steps), step)
    ensures Legal(s, steps + [step]) ==> Run(s, steps + [step]) == Next(Run(s, steps), step)
    decreases |steps|
  {
    hide Next, Enabled;
    if steps == [] {
      assert [] + [step] == [step] && [step][1..] == [];
    } else {
      assert (steps + [step])[1..] == steps[1..] + [step] && (steps + [step])[0] == steps[0];
      if Enabled(s, steps[0]) { RunMore(Next(s, steps[0]), steps[1..], step); }
    }
  }

  /**
   What a call returns that takes from its channel, in every run: success with a response exactly if the
   pump received that response for it, the response has no fault and its result decodes; the fault, or
   the decode error, exactly if it does not; and "disconnected" exactly if no response was received for it.
   */
  lemma OutcomeExactly(steps: seq<Step>, c: nat, decodes: bool, msg: Message)
    requires Legal(INIT, steps + [Receive(c, decodes)])
    ensures Legal(INIT, steps) && c < |Run(INIT, steps).chans|
    ensures Returns(steps, c, decodes, Succeeded(msg)) <==> Answered(steps, c, msg) && !msg.fault && decodes
    ensures Returns(steps, c, decodes, Faulted(msg)) <==> Answered(steps, c, msg) && msg.fault
    ensures Returns(steps, c, decodes, Undecodable(msg)) <==> Answered(steps, c, msg) && !msg.fault && !decodes
    ensures Returns(steps, c, decodes, Disconnected) <==> forall m :: !Answered(steps, c, m)
    ensures Returns(steps, c, decodes, Disconnected) <==> Run(INIT, steps).chans[c].sent == []
  {
    RunMore(INIT, steps, Receive(c, decodes));
    forall m
      ensures Answered(steps, c, m) <==> Got(Run(INIT, steps), c, m)
    {
      AnsweredIsGot(steps, c, m);
    }
    InitInv();
    RunInv(INIT, steps);
    hide Legal, Run, Answered;
    Received(Run(INIT, steps), c, decodes, msg);
  }

  lemma Received(s: State, c: nat, decodes: bool, msg: Message)
    requires Inv(s) && Enabled(s, Receive(c, decodes))
    ensures var t := Next(s, Receive(c, decodes));
            && (InPhase(t, c, Done(Succeeded(msg))) <==> Got(s, c, msg) && !msg.fault && decodes)
            && (InPhase(t, c, Done(Faulted(msg))) <==> Got(s, c, msg) && msg.fault)
            && (InPhase(t, c, Done(Undecodable(msg))) <==> Got(s, c, msg) && !msg.fault && !decodes)
            && (InPhase(t, c, Done(Disconnected)) <==> forall m :: !Got(s, c, m))
            && (InPhase(t, c, Done(Disconnected)) <==> s.chans[c].sent == [])
  {
    assert CallInv(s, c);
    var ch := s.chans[c];
    if ch.sent != [] {
      assert ch.sent == [ch.sent[0]] && Got(s, c, ch.sent[0]);
    }
  }

  predicate Returned(s: State, c: nat, o: Outcome) { InPhase(s, c, Done(o)) }

  /**
   Every other outcome has one cause: the request could not be encoded, the client was closed when the
   call registered, the request could not be sent (and the entry is out of the map), or the context ended.
   */
  lemma OutcomeCause(s: State, step: Step, c: nat, o: Outcome)
    requires Inv(s) && Enabled(s, step) && !Returned(s, c, o) && Returned(Next(s, step), c, o)
    ensures o == EncodeFailed <==> step == EncodeFail(c)
    ensures o == Refused <==> step == Register(c)
    ensures o == Refused ==> s.closed
    ensures o == SendFailed <==> step == Forget(c)
    ensures o == SendFailed ==> !InMap(Next(s, step), c)
    ensures o == Cancelled <==> step == Cancel(c)
    ensures o.Succeeded? || o.Faulted? || o.Undecodable? || o.Disconnected? <==> step.Receive? && step.c == c
  {
    if c < |s.calls| { assert CallInv(s, c); }
  }

  /** A waiting call whose response the pump has just taken can get it: the pump sends and closes, the call takes. */
  lemma CanSucceed(s: State, c: nat, msg: Message)
    requires Inv(s) && InPhase(s, c, Waiting) && InMap(s, c) && s.pump.Idle? && msg.id == c + 1 && !msg.fault
    ensures var steps := [Route(msg), Deliver, Finish, Receive(c, true)];
            Legal(s, steps) && InPhase(Run(s, steps), c, Done(Succeeded(msg)))
  {
    assert CallInv(s, c);
    var s1 := Next(s, Route(msg));
    var s2 := Next(s1, Deliver);
    var s3 := Next(s2, Finish);
    var s4 := Next(s3, Receive(c, true));
    assert s3.chans[c].buffer == [msg];
    hide Next, Enabled;
    assert [Route(msg), Deliver, Finish, Receive(c, true)][1..] == [Deliver, Finish, Receive(c, true)];
    assert [Deliver, Finish, Receive(c, true)][1..] == [Finish, Receive(c, true)];
    assert [Finish, Receive(c, true)][1..] == [Receive(c, true)];
    assert [Receive(c, true)][1..] == [];
    assert Legal(s4, []) && Run(s4, []) == s4;
    assert Legal(s3, [Receive(c, true)]) && Run(s3, [Receive(c, true)]) == s4;
    assert Legal(s2, [Finish, Receive(c, true)]) && Run(s2, [Finish, Receive(c, true)]) == s4;
    assert Legal(s1, [Deliver, Finish, Receive(c, true)]) && Run(s1, [Deliver, Finish, Receive(c, true)]) == s4;
  }

  /** A call returns once: nothing changes its outcome afterwards. */
  lemma {:induction false} OutcomeFinal(s: State, steps: seq<Step>, c: nat)
    requires Inv(s) && Legal(s, steps) && c < |s.calls| && s.calls[c].phase.Done?
    ensures c < |Run(s, steps).calls| && Run(s, steps).calls[c] == s.calls[c]
    decreases |steps|
  {
    if steps != [] {
      StepInv(s, steps[0]);
      OutcomeFinal(Next(s, steps[0]), steps[1..], c);
    }
  }

  lemma {:induction false} StaysClosed(s: State, steps: seq<Step>)
    requires s.closed && Legal(s, steps)
    ensures Run(s, steps).closed
    decreases |steps|
  {
    if steps != [] { StaysClosed(Next(s, steps[0]), steps[1..]); }
  }

  /**
   After Close's critical section nothing is ever pending again, and a call that still waits can
   return at once, or as soon as the pump has sent what it holds.
   */
  lemma {:induction false} AfterClose(before: seq<Step>, after: seq<Step>, c: nat)
    requires Legal(INIT, before)
    requires Legal(Next(Run(INIT, before), Close), after)
    ensures var s := Run(Next(Run(INIT, before), Close), after);
            && s.closed && s.pending == map[]
            && (InPhase(s, c, Waiting) ==>
                  || Enabled(s, Receive(c, true))
                  || (Enabled(s, Deliver) && s.pump.chan == c && Enabled(Next(s, Deliver), Receive(c, true))))
  {
    InitInv();
    RunInv(INIT, before);
    StepInv(Run(INIT, before), Close);
    RunInv(Next(Run(INIT, before), Close), after);
    StaysClosed(Next(Run(INIT, before), Close), after);
    var s := Run(Next(Run(INIT, before), Close), after);
    if InPhase(s, c, Waiting) {
      assert CallInv(s, c);
    }
  }

  /** Without a pump, a waiting call can return by itself exactly when its entry is gone from the map. */
  lemma WithoutPump(s: State, c: nat)
    requires Inv(s) && s.pump.Exited? && InPhase(s, c, Waiting)
    ensures Enabled(s, Receive(c, true)) <==> !InMap(s, c)
  {
    assert CallInv(s, c);
  }

  /**
   The pump's exit drains the map but does not set `closed`: a call registered afterwards waits, in
   every continuation, until it is cancelled or Close runs.
   */
  lemma {:induction false} StrandedAfterExit(s: State, steps: seq<Step>, c: nat)
    requires Inv(s) && s.pump.Exited? && InPhase(s, c, Waiting) && InMap(s, c)
    requires Legal(s, steps)
    requires Close !in steps && Cancel(c) !in steps
    ensures var t := Run(s, steps); InPhase(t, c, Waiting) && InMap(t, c) && t.pump.Exited?
    decreases |steps|
  {
    if steps != [] {
      var step := steps[0];
      assert step in steps;
      StepInv(s, step);
      assert CallInv(s, c);
      if step.Forget? { assert CallInv(s, step.c); }
      StrandedAfterExit(Next(s, step), steps[1..], c);
    }
  }

  predicate Stranded(s: State, c: nat) { InPhase(s, c, Waiting) && InMap(s, c) && s.pump.Exited? }

  predicate Returning(s: State, c: nat) { c < |s.calls| && (s.calls[c].phase.Forgetting? || s.calls[c].phase.Done?) }

  lemma {:induction false} ReturnsAnyway(s: State, steps: seq<Step>, c: nat)
    requires Legal(s, steps) && Returning(s, c)
    ensures Returning(Run(s, steps), c) && SendOk(c) !in steps
    decreases |steps|
  {
    if steps != [] {
      assert steps == [steps[0]] + steps[1..];
      ReturnsAnyway(Next(s, steps[0]), steps[1..], c);
    }
  }

  lemma {:induction false} SendingStrands(s: State, steps: seq<Step>, c: nat)
    requires Inv(s) && s.pump.Exited? && InPhase(s, c, Sending) && InMap(s, c)
    requires Legal(s, steps) && Close !in steps && Cancel(c) !in steps
    ensures Stranded(Run(s, steps), c) <==> SendOk(c) in steps
    decreases |steps|
  {
    if steps != [] {
      var step := steps[0];
      assert steps == [step] + steps[1..];
      var next := Next(s, step);
      StepInv(s, step);
      if step == SendOk(c) {
        StrandedAfterExit(next, steps[1..], c);
      } else if step == SendFail(c) {
        ReturnsAnyway(next, steps[1..], c);
      } else {
        assert CallInv(s, c);
        if step.Forget? { assert CallInv(s, step.c); }
        SendingStrands(next, steps[1..], c);
      }
    }
  }

  /**
   A call that begins with the pump gone waits for ever, but for its cancellation and Close, exactly if
   the client was not closed and the send succeeds.
   */
  lemma {:induction false} StrandsExactly(s: State, steps: seq<Step>, c: nat)
    requires Inv(s) && s.pump.Exited? && InPhase(s, c, Encoding)
    requires Legal(s, steps) && Close !in steps && Cancel(c) !in steps
    ensures Stranded(Run(s, steps), c) <==> !s.closed && SendOk(c) in steps
    decreases |steps|
  {
    if steps != [] {
      var step := steps[0];
      assert steps == [step] + steps[1..];
      var next := Next(s, step);
      StepInv(s, step);
      if step == Register(c) && !s.closed {
        assert CallInv(s, c);
        SendingStrands(next, steps[1..], c);
      } else if step == Register(c) || step == EncodeFail(c) {
        ReturnsAnyway(next, steps[1..], c);
      } else {
        StrandsExactly(next, steps[1..], c);
      }
    }
  }

  /** Such a stranded call exists: the pump exits, then a call is made. */
  lemma StrandedExists()
    ensures var steps := [Exit, Begin, Register(0), SendOk(0)];
            && Legal(INIT, steps)
            && var s := Run(INIT, steps);
               !s.closed && s.pump.Exited? && InPhase(s, 0, Waiting) && InMap(s, 0)
  {
    var s1 := Next(INIT, Exit);
    assert s1.chans == [] && s1.calls == [];
    var s2 := Next(s1, Begin);
    var s3 := Next(s2, Register(0));
    var s4 := Next(s3, SendOk(0));
    assert Legal(s4, []);
    assert Legal(s3, [SendOk(0)]) && Run(s3, [SendOk(0)]) == s4 by {
      assert [SendOk(0)][1..] == [];
    }
    assert Legal(s2, [Register(0), SendOk(0)]) && Run(s2, [Register(0), SendOk(0)]) == s4 by {
      assert [Register(0), SendOk(0)][1..] == [SendOk(0)];
    }
    assert Legal(s1, [Begin, Register(0), SendOk(0)]) && Run(s1, [Begin, Register(0), SendOk(0)]) == s4 by {
      assert [Begin, Register(0), SendOk(0)][1..] == [Register(0), SendOk(0)];
    }
    assert [Exit, Begin, Register(0), SendOk(0)][1..] == [Begin, Register(0), SendOk(0)];
  }
}

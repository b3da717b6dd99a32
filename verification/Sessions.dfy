/**
 Stored conversations and the turns that work on them (pkg/http/http.go, cmd/souz-agent/main.go,
 pkg/agent/executor.go). A turn loads its chat, runs the agent and saves; the turns of all HTTP
 requests and of the channel loop interleave at these steps.
 */
module Sessions {
  import opened Wrappers
  import opened Text
  import opened Providers
  import opened History
  import opened GraphRunner
  import opened AgentNodes
  import opened AgentPipeline

  /**
   A line of the visible transcript; the ids of a turn's lines occur in no other turn, so they are
   written as the turn's number.
   */
  datatype Said = Said(turn: nat, role: Role, content: string)

  datatype ChatState = ChatState(messages: seq<Said>, history: Messages)

  const EMPTY_CHAT := ChatState([], [])

  datatype Origin = Http | Channel

  /** Where a turn stands: before the execution slot, with it, or after the agent ran. */
  datatype Phase = Loaded | Running | Broken | Completed(output: string, history: Messages)

  /** The local variables of a handler: the chat as it was loaded is `state`. */
  datatype Turn = Turn(id: nat, origin: Origin, chat: string, content: string, state: ChatState, phase: Phase)

  /** The store, the taken execution slots, the turns in progress and the numbers of all turns so far. */
  datatype State = State(store: map<string, ChatState>, active: set<string>, turns: map<nat, Turn>, used: set<nat>)

  const INIT := State(map[], {}, map[], {})

  datatype Step =
    | CreateChat(chat: string, ok: bool)
    | Load(id: nat, origin: Origin, chat: string, text: string, ok: bool)
    | Begin(id: nat)
    | RunAgent(id: nat, env: AgentEnv, world: World, base: AgentContext)
    | Save(id: nat, ok: bool)

  /** The step limit the agent is configured with. */
  const CONFIGURED_LIMIT := 64

  function Stored(store: map<string, ChatState>, chat: string): ChatState {
    if chat in store then store[chat] else EMPTY_CHAT
  }

  /** The text shown for a turn: the last non-empty assistant text, or the last assistant text. */
  function LastAssistantText(h: Messages): string {
    match LastAssistant(h, true)
    case Some(text) => text
    case None => if LastAssistant(h, false).Some? then LastAssistant(h, false).value else ""
  }

  function LastAssistant(h: Messages, nonEmpty: bool): Option<string>
    decreases |h|
  {
    if h == [] then None
    else
      var m := h[|h| - 1];
      if m.role == Assistant && (nonEmpty ==> m.content != "")
          then Some(m.content) else LastAssistant(h[..|h| - 1], nonEmpty)
  }

  /** Execute: one run of the agent graph. */
  function AfterRun(env: AgentEnv, seed: AgentContext): Phase {
    var o := RunOf(env, Classify, seed, CONFIGURED_LIMIT);
    if o.error.Some? || o.log == [] then Broken
    else
      var h := o.log[|o.log| - 1].out.history;
      Completed(LastAssistantText(h), h)
  }

  /** What a turn saves: a failed HTTP turn keeps the user's message, a failed channel turn nothing. */
  function Saved(t: Turn): Option<ChatState> {
    match t.phase
    case Completed(output, history) =>
      Some(ChatState(t.state.messages + [Said(t.id, User, t.content), Said(t.id, Assistant, output)], history))
    case Broken =>
      if t.origin == Http then Some(t.state.(messages := t.state.messages + [Said(t.id, User, t.content)])) else None
    case _ => None
  }

  function Seed(t: Turn, base: AgentContext): AgentContext {
    base.(input := t.content, history := t.state.history)
  }

  /** One step; a step that does not apply changes nothing. */
  function Next(s: State, step: Step): State {
    match step
    case CreateChat(chat, ok) => if ok then s.(store := s.store[chat := EMPTY_CHAT]) else s
    case Load(id, origin, chat, text, ok) =>
      var content := if origin == Http then TrimSpace(text) else text;
      if id in s.used || !ok || (origin == Http && content == "") then s
      else
        var t := Turn(id, origin, chat, content, Stored(s.store, chat), if origin == Http then Loaded else Running);
        s.(turns := s.turns[id := t], used := s.used + {id})
    case Begin(id) =>
      if id !in s.turns || s.turns[id].phase != Loaded then s
      else if s.turns[id].chat in s.active then s.(turns := s.turns - {id})
      else State(s.store, s.active + {s.turns[id].chat}, s.turns[id := s.turns[id].(phase := Running)], s.used)
    case RunAgent(id, env, _, base) =>
      if id !in s.turns || s.turns[id].phase != Running then s
      else s.(turns := s.turns[id := s.turns[id].(phase := AfterRun(env, Seed(s.turns[id], base)))])
    case Save(id, ok) =>
      if id !in s.turns || s.turns[id].phase.Loaded? || s.turns[id].phase.Running? then s
      else
        var t := s.turns[id];
        State(
          if ok && Saved(t).Some? then s.store[t.chat := Saved(t).value] else s.store,
          if t.origin == Http then s.active - {t.chat} else s.active,
          s.turns - {id},
          s.used)
  }

  function After(s: State, steps: seq<Step>): State
    decreases |steps|
  {
    if steps == [] then s else Next(After(s, steps[..|steps| - 1]), steps[|steps| - 1])
  }

  /** The agent runs its own nodes; nothing else is asked of a step. */
  ghost predicate Legal(steps: seq<Step>) {
    forall i | 0 <= i < |steps| && steps[i].RunAgent? :: InWorld(steps[i].env, steps[i].world)
  }

  // ---- the history invariant ----

  ghost predicate TurnPaired(t: Turn) {
    WellPaired(t.state.history) && (t.phase.Completed? ==> WellPaired(t.phase.history))
  }

  ghost predicate AllPaired(s: State) {
    && (forall c | c in s.store :: WellPaired(s.store[c].history))
    && (forall id | id in s.turns :: TurnPaired(s.turns[id]))
  }

  lemma RunPaired(env: AgentEnv, w: World, t: Turn, base: AgentContext)
    requires InWorld(env, w) && TurnPaired(t)
    ensures TurnPaired(t.(phase := AfterRun(env, Seed(t, base))))
  {
    hide WellPaired, RunOf;
    TurnKeepsPairs(env, w, Seed(t, base), CONFIGURED_LIMIT);
  }

  // ---- the text of a turn ----

  /** No assistant message says anything. */
  predicate NoText(h: Messages) { forall i | 0 <= i < |h| && h[i].role == Assistant :: h[i].content == "" }

  lemma {:induction false} LastTextExactly(h: Messages)
    ensures LastAssistant(h, true).None? <==> NoText(h)
    ensures LastAssistant(h, true).Some? ==> LastAssistant(h, true).value != ""
    decreases |h|
  {
    if h != [] {
      var n := |h| - 1;
      LastTextExactly(h[..n]);
      assert h == h[..n] + [h[n]];
    }
  }

  /**
   The text shown for a completed turn is the model's last answer exactly if that is not empty or no
   assistant message before it, in what is left of the history, says anything; otherwise it is the
   last text before it: an older turn's, or a tool round's, or the memory dump of the compaction.
   */
  lemma OutputExactly(env: AgentEnv, w: World, seed: AgentContext)
    requires InWorld(env, w) && WellPaired(seed.history) && AfterRun(env, seed).Completed?
    ensures var p := AfterRun(env, seed);
            var n := |p.history| - 1;
            && EndsWithAnswer(p.history)
            && (p.output == p.history[n].content <==> p.history[n].content != "" || NoText(p.history[..n]))
            && (p.output != p.history[n].content ==>
                LastAssistant(p.history[..n], true) == Some(p.output) && p.output != "")
  {
    hide RunOf, WellPaired;
    TurnKeepsPairs(env, w, seed, CONFIGURED_LIMIT);
    var h := AfterRun(env, seed).history;
    LastTextExactly(h[..|h| - 1]);
  }

  lemma StepPaired(s: State, step: Step)
    requires AllPaired(s) && (step.RunAgent? ==> InWorld(step.env, step.world))
    ensures AllPaired(Next(s, step))
  {
    assert WellPaired(EMPTY_CHAT.history);
    hide WellPaired, AfterRun, InWorld;
    if step.RunAgent? && step.id in s.turns {
      RunPaired(step.env, step.world, s.turns[step.id], step.base);
    }
  }

  lemma {:induction false} RunKeepsPaired(s: State, steps: seq<Step>)
    requires AllPaired(s) && Legal(steps)
    ensures AllPaired(After(s, steps))
    decreases |steps|
  {
    hide Next, InWorld, AllPaired;
    if steps != [] {
      var n := |steps| - 1;
      RunKeepsPaired(s, steps[..n]);
      StepPaired(After(s, steps[..n]), steps[n]);
    }
  }

  /**
   From an empty store, however the turns interleave, whatever the model, the tools and the nodes
   do, and whichever reads and writes fail: every stored history pairs each assistant message's
   tool calls with its results.
   */
  lemma StoredHistoriesPaired(steps: seq<Step>)
    requires Legal(steps)
    ensures forall c | c in After(INIT, steps).store :: Paired(After(INIT, steps).store[c].history)
  {
    assert AllPaired(INIT);
    hide After, WellPaired, Paired;
    RunKeepsPaired(INIT, steps);
    forall c | c in After(INIT, steps).store
      ensures Paired(After(INIT, steps).store[c].history)
    {
      PairedExactly(After(INIT, steps).store[c].history);
    }
  }

  // ---- one HTTP turn per chat ----

  /** An HTTP turn that holds its chat's execution slot. */
  predicate Holds(t: Turn) { t.origin == Http && t.phase != Loaded }

  ghost predicate Held(s: State, chat: string) {
    exists id :: id in s.turns && Holds(s.turns[id]) && s.turns[id].chat == chat
  }

  ghost predicate SlotsOwned(s: State) {
    && (forall id | id in s.turns && s.turns[id].phase == Loaded :: s.turns[id].origin == Http)
    && (forall id | id in s.turns :: id in s.used && s.turns[id].id == id)
    && (forall id | id in s.turns && Holds(s.turns[id]) :: s.turns[id].chat in s.active)
    && (forall c | c in s.active :: Held(s, c))
    && (forall id1, id2 | id1 in s.turns && id2 in s.turns && id1 != id2 && Holds(s.turns[id1])
        && Holds(s.turns[id2]) ::
          s.turns[id1].chat != s.turns[id2].chat)
  }

  lemma StepHeld(s: State, step: Step, c: string)
    requires SlotsOwned(s) && c in Next(s, step).active
    ensures Held(Next(s, step), c)
  {
    if step.RunAgent? && step.id in s.turns {
      RunEnds(step.env, Seed(s.turns[step.id], step.base));
    }
    hide AfterRun, Saved, Stored;
    var n := Next(s, step);
    if c in s.active {
      assert Held(s, c);
      var id :| id in s.turns && Holds(s.turns[id]) && s.turns[id].chat == c;
      assert id in n.turns && Holds(n.turns[id]) && n.turns[id].chat == c;
    } else {
      assert step.Begin? && Holds(n.turns[step.id]);
    }
  }

  lemma StepNumbers(s: State, step: Step)
    requires SlotsOwned(s)
    ensures forall id | id in Next(s, step).turns ::
              && (Next(s, step).turns[id].phase == Loaded ==> Next(s, step).turns[id].origin == Http)
              && id in Next(s, step).used && Next(s, step).turns[id].id == id
  {
    if step.RunAgent? && step.id in s.turns {
      RunEnds(step.env, Seed(s.turns[step.id], step.base));
    }
    hide AfterRun, Saved, Stored, Held, TrimSpace;
  }

  lemma StepTaken(s: State, step: Step, id: nat)
    requires SlotsOwned(s) && id in Next(s, step).turns && Holds(Next(s, step).turns[id])
    ensures Next(s, step).turns[id].chat in Next(s, step).active
  {
    hide AfterRun, Saved, Stored, Held, TrimSpace;
  }

  lemma StepDistinct(s: State, step: Step, id1: nat, id2: nat)
    requires SlotsOwned(s) && id1 in Next(s, step).turns && id2 in Next(s, step).turns && id1 != id2
    requires Holds(Next(s, step).turns[id1]) && Holds(Next(s, step).turns[id2])
    ensures Next(s, step).turns[id1].chat != Next(s, step).turns[id2].chat
  {
    hide AfterRun, Saved, Stored, Held, TrimSpace;
  }

  lemma StepSlots(s: State, step: Step)
    requires SlotsOwned(s)
    ensures SlotsOwned(Next(s, step))
  {
    hide Next, Held, Holds;
    var n := Next(s, step);
    forall c | c in n.active
      ensures Held(n, c)
    {
      StepHeld(s, step, c);
    }
    StepNumbers(s, step);
    forall id | id in n.turns && Holds(n.turns[id])
      ensures n.turns[id].chat in n.active
    {
      StepTaken(s, step, id);
    }
    forall id1, id2 | id1 in n.turns && id2 in n.turns && id1 != id2 && Holds(n.turns[id1]) && Holds(n.turns[id2])
      ensures n.turns[id1].chat != n.turns[id2].chat
    {
      StepDistinct(s, step, id1, id2);
    }
  }

  lemma {:induction false} RunKeepsSlots(s: State, steps: seq<Step>)
    requires SlotsOwned(s)
    ensures SlotsOwned(After(s, steps))
    decreases |steps|
  {
    hide Next, SlotsOwned;
    if steps != [] {
      var n := |steps| - 1;
      RunKeepsSlots(s, steps[..n]);
      StepSlots(After(s, steps[..n]), steps[n]);
    }
  }

  /**
   At every moment a chat's slot is taken exactly if an HTTP turn past its begin works on the chat, and
   then it is one turn.
   */
  lemma OneTurnPerChat(steps: seq<Step>, c: string)
    ensures var s := After(INIT, steps);
            && (c in s.active <==> Held(s, c))
            && (forall id1, id2 | id1 in s.turns && id2 in s.turns && Holds(s.turns[id1]) && Holds(s.turns[id2])
                                  && s.turns[id1].chat == s.turns[id2].chat :: id1 == id2)
  {
    assert SlotsOwned(INIT);
    hide After;
    RunKeepsSlots(INIT, steps);
  }

  /** An HTTP turn from its begin to its save, with nothing in between. */
  lemma OnTurn(s: State, id: nat, env: AgentEnv, w: World, base: AgentContext, saves: bool)
    requires id in s.turns && s.turns[id].origin == Http && s.turns[id].phase == Loaded && s.turns[id].chat !in s.active
    ensures var t := s.turns[id];
            var done := t.(phase := AfterRun(env, Seed(t, base)));
            && Saved(done).Some?
            && Next(Next(Next(s, Begin(id)), RunAgent(id, env, w, base)), Save(id, saves)) ==
               State(if saves then s.store[t.chat := Saved(done).value] else s.store, s.active, s.turns - {id}, s.used)
  {
    hide AfterRun;
    var t := s.turns[id];
    var t1 := t.(phase := Running);
    assert Seed(t1, base) == Seed(t, base);
    RunEnds(env, Seed(t, base));
    var done := t.(phase := AfterRun(env, Seed(t, base)));
    var s1 := Next(s, Begin(id));
    assert s1 == State(s.store, s.active + {t.chat}, s.turns[id := t1], s.used);
    var s2 := Next(s1, RunAgent(id, env, w, base));
    assert s2 == State(s.store, s.active + {t.chat}, s.turns[id := done], s.used);
    assert s.active + {t.chat} - {t.chat} == s.active;
    assert s2.turns - {id} == s.turns - {id};
  }

  /** A turn saves its own lines after those it loaded, the user's first. */
  lemma SavedLines(t: Turn)
    requires Saved(t).Some?
    ensures t.state.messages + [Said(t.id, User, t.content)] <= Saved(t).value.messages
    ensures forall i | |t.state.messages| <= i < |Saved(t).value.messages| :: Saved(t).value.messages[i].turn == t.id
  {
  }

  lemma RunEnds(env: AgentEnv, seed: AgentContext)
    ensures AfterRun(env, seed).Broken? || AfterRun(env, seed).Completed?
  {
    hide RunOf, LastAssistantText;
  }

  // ---- the handlers ----

  /** The steps of one handler's run. */
  function Script(id: nat, origin: Origin, chat: string, text: string, env: AgentEnv, w: World, base: AgentContext,
                  loads: bool, saves: bool): seq<Step>
  {
    [Load(id, origin, chat, text, loads), Begin(id), RunAgent(id, env, w, base), Save(id, saves)]
  }

  lemma ScriptSteps(s: State, id: nat, origin: Origin, chat: string, text: string, env: AgentEnv, w: World,
      base: AgentContext,
                    loads: bool, saves: bool)
    ensures After(s, Script(id, origin, chat, text, env, w, base, loads, saves)) ==
            Next(Next(Next(Next(s, Load(id, origin, chat, text, loads)), Begin(id)), RunAgent(id, env, w, base)),
                Save(id, saves))
  {
    AfterFour(s, [], Load(id, origin, chat, text, loads), Begin(id), RunAgent(id, env, w, base), Save(id, saves));
    var steps := Script(id, origin, chat, text, env, w, base, loads, saves);
    assert [] + steps == steps;
  }

  lemma AfterFour(s: State, steps: seq<Step>, a: Step, b: Step, c: Step, d: Step)
    ensures After(s, steps + [a, b, c, d]) == Next(Next(Next(Next(After(s, steps), a), b), c), d)
  {
    hide Next;
    assert (steps + [a, b, c, d])[..|steps| + 3] == steps + [a, b, c];
    assert (steps + [a, b, c])[..|steps| + 2] == steps + [a, b];
    assert (steps + [a, b])[..|steps| + 1] == steps + [a];
    assert (steps + [a])[..|steps|] == steps;
    assert After(s, steps + [a]) == Next(After(s, steps), a);
    assert After(s, steps + [a, b]) == Next(After(s, steps + [a]), b);
    assert After(s, steps + [a, b, c]) == Next(After(s, steps + [a, b]), c);
  }

  class Server {
    var store: map<string, ChatState>
    var active: set<string>

    constructor ()
      ensures store == map[] && active == {}
    {
      store, active := map[], {};
    }

    /** The server beside turns that are in progress elsewhere. */
    ghost function View(turns: map<nat, Turn>, used: set<nat>): State
      reads this
    {
      State(store, active, turns, used)
    }

    method TryBeginExecution(chat: string) returns (ok: bool)
      modifies this`active
      ensures ok == (chat !in old(active)) && active == old(active) + {chat}
    {
      if chat in active { return false; }
      active := active + {chat};
      return true;
    }

    method EndExecution(chat: string)
      modifies this`active
      ensures active == old(active) - {chat}
    {
      active := active - {chat};
    }

    method Get(chat: string) returns (cs: ChatState)
      ensures cs == Stored(store, chat)
    {
      cs := if chat in store then store[chat] else EMPTY_CHAT;
    }

    method SaveChat(chat: string, cs: ChatState, ok: bool)
      modifies this`store
      ensures store == if ok then old(store)[chat := cs] else old(store)
    {
      if ok { store := store[chat := cs]; }
    }

    /** Execute on a seed with the chat's history. */
    method Execute(def: Definition<Node, AgentContext>, env: AgentEnv, seed: AgentContext) returns (p: Phase)
      requires env.edges == def.edges
      ensures p == AfterRun(env, seed)
    {
      hide RunOf;
      var lastOut, error, log := Run(def, Classify, seed, CONFIGURED_LIMIT, env);
      if error.Some? || lastOut.None? { return Broken; }
      return Completed(LastAssistantText(lastOut.value.history), lastOut.value.history);
    }

    /** handleSendMessage as turn `id`, with nothing in between and any turns in progress: its four steps. */
    method HandleSendMessage(
      def: Definition<Node, AgentContext>, env: AgentEnv, ghost w: World, base: AgentContext, id: nat, chat: string,
      text: string, loads: bool, saves: bool, ghost turns: map<nat, Turn>, ghost used: set<nat>)
      requires env.edges == def.edges && id !in used && id !in turns
      modifies this
      ensures var r := After(old(View(turns, used)), Script(id, Http, chat, text, env, w, base, loads, saves));
              View(turns, r.used) == r
    {
      ghost var s0 := View(turns, used);
      ScriptSteps(s0, id, Http, chat, text, env, w, base, loads, saves);
      hide AfterRun, After;
      var content := TrimSpace(text);
      hide TrimSpace;
      if content == "" || !loads { return; }
      var cs := Get(chat);
      ghost var t := Turn(id, Http, chat, content, cs, Loaded);
      ghost var s1 := s0.(turns := turns[id := t], used := used + {id});
      assert Next(s0, Load(id, Http, chat, text, loads)) == s1;
      assert turns[id := t] - {id} == turns;
      var ok := TryBeginExecution(chat);
      if !ok { return; }
      OnTurn(s1, id, env, w, base, saves);
      hide Next;
      var seed := base.(input := content, history := cs.history);
      var p := Execute(def, env, seed);
      assert seed == Seed(t, base);
      RunEnds(env, seed);
      var messages := cs.messages + [Said(id, User, content)];
      if p.Broken? {
        SaveChat(chat, cs.(messages := messages), saves);
      } else {
        messages := messages + [Said(id, Assistant, p.output)];
        assert messages == cs.messages + [Said(id, User, content), Said(id, Assistant, p.output)];
        SaveChat(chat, ChatState(messages, p.history), saves);
      }
      EndExecution(chat);
      assert active == s0.active;
    }

    /** handleInbound as turn `id`, with nothing in between and any turns in progress. */
    method HandleInbound(
      def: Definition<Node, AgentContext>, env: AgentEnv, ghost w: World, base: AgentContext, id: nat, chat: string,
      text: string, loads: bool, saves: bool, ghost turns: map<nat, Turn>, ghost used: set<nat>)
      requires env.edges == def.edges && id !in used && id !in turns
      modifies this
      ensures var r := After(old(View(turns, used)), Script(id, Channel, chat, text, env, w, base, loads, saves));
              View(turns, r.used) == r
      ensures active == old(active)
    {
      ghost var s0 := View(turns, used);
      ScriptSteps(s0, id, Channel, chat, text, env, w, base, loads, saves);
      hide AfterRun, After, TrimSpace;
      if !loads { return; }
      var cs := Get(chat);
      ghost var t := Turn(id, Channel, chat, text, cs, Running);
      ghost var s1 := View(turns[id := t], used + {id});
      assert Next(s0, Load(id, Channel, chat, text, loads)) == s1 && Next(s1, Begin(id)) == s1;
      assert turns[id := t] - {id} == turns;
      var seed := base.(input := text, history := cs.history);
      var p := Execute(def, env, seed);
      assert seed == Seed(t, base);
      assert Next(s1, RunAgent(id, env, w, base)) == View(turns[id := t.(phase := p)], used + {id});
      assert turns[id := t.(phase := p)] - {id} == turns;
      RunEnds(env, seed);
      if p.Completed? {
        SaveChat(chat, ChatState(cs.messages + [Said(id, User, text), Said(id, Assistant, p.output)], p.history),
            saves);
      }
    }
  }
}

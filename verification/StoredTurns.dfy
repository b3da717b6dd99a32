/**
 What a turn leaves in the store, from the load to the save: the chat as it was loaded with the turn's
 own lines behind it, and the history of a run that began with the loaded one.
 */
module StoredTurns {
  import opened Wrappers
  import opened Text
  import opened Providers
  import opened History
  import opened GraphRunner
  import opened AgentNodes
  import opened AgentPipeline
  import opened Sessions
  import opened TurnLaws

  type AgentRun = Outcome<Node, AgentContext, string>

  /** The chat in the store, an empty one if there is none. */
  function Held(store: map<string, ChatState>, chat: string): ChatState {
    if chat in store then store[chat] else ChatState([], [])
  }

  /** The last text of an assistant message that is not empty, or nothing. */
  ghost predicate Shows(h: Messages, text: string) {
    || (text == "" && forall j | 0 <= j < |h| && h[j].role == Assistant :: h[j].content == "")
    || (exists i | 0 <= i < |h| ::
          && h[i].role == Assistant && h[i].content == text && text != ""
          && forall j | i < j < |h| && h[j].role == Assistant :: h[j].content == "")
  }

  /** The user's line and, if the run ended without error, the assistant's and the history the run left. */
  ghost predicate Extends(before: ChatState, after: ChatState, id: nat, content: string, run: AgentRun) {
    if run.error.None? then
      exists text ::
        && run.log != [] && Shows(run.log[|run.log| - 1].out.history, text)
        && after.messages == before.messages + [Said(id, User, content), Said(id, Assistant, text)]
        && after.history == run.log[|run.log| - 1].out.history
    else after.messages == before.messages + [Said(id, User, content)] && after.history == before.history
  }

  /** The store after a turn's save: a channel turn that failed changes nothing. */
  ghost predicate Leaves(store: map<string, ChatState>, now: map<string, ChatState>, loaded: ChatState, t: Turn,
      run: AgentRun) {
    if run.error.Some? && t.origin == Channel then now == store
    else t.chat in now && now == store[t.chat := now[t.chat]] && Extends(loaded, now[t.chat], t.id, t.content, run)
  }

  lemma {:induction false} LastIsShown(h: Messages)
    ensures match LastAssistant(h, true) case Some(text) => text != "" && Shows(h, text) case None => NoText(h)
    decreases |h|
  {
    if h != [] {
      var n := |h| - 1;
      var m := h[n];
      assert h == h[..n] + [m];
      if m.role != Assistant || m.content == "" {
        LastIsShown(h[..n]);
        assert LastAssistant(h, true) == LastAssistant(h[..n], true);
        hide LastAssistant;
        StillShown(h[..n], m);
      } else {
        assert LastAssistant(h, true) == Some(m.content);
        hide LastAssistant;
        assert h[n].content == m.content && Shows(h, m.content);
      }
    }
  }

  /** A message that says nothing changes nothing. */
  lemma StillShown(h: Messages, m: Message)
    requires m.role != Assistant || m.content == ""
    ensures forall text | text != "" && Shows(h, text) :: Shows(h + [m], text)
    ensures NoText(h) ==> NoText(h + [m])
  {
    forall text | text != "" && Shows(h, text)
      ensures Shows(h + [m], text)
    {
      var i :|
        && 0 <= i < |h| && h[i].role == Assistant && h[i].content == text
        && forall j | i < j < |h| && h[j].role == Assistant :: h[j].content == "";
      assert (h + [m])[i] == h[i];
    }
  }

  lemma {:induction false} LastOfAny(h: Messages)
    ensures LastAssistant(h, false).Some? ==>
              exists i | 0 <= i < |h| :: h[i].role == Assistant && h[i].content == LastAssistant(h, false).value
    decreases |h|
  {
    if h != [] && h[|h| - 1].role != Assistant {
      LastOfAny(h[..|h| - 1]);
      assert h == h[..|h| - 1] + [h[|h| - 1]];
    }
  }

  lemma TextIsShown(h: Messages)
    ensures Shows(h, LastAssistantText(h))
  {
    LastIsShown(h);
    LastOfAny(h);
  }

  lemma SavedExtends(t: Turn, env: AgentEnv, seed: AgentContext, store: map<string, ChatState>)
    requires OnPipeline(env) && t.phase == AfterRun(env, seed)
    ensures Leaves(store, if Saved(t).Some? then store[t.chat := Saved(t).value] else store, t.state, t,
        RunOf(env, Classify, seed, 64))
  {
    CompletedExactly(env, seed);
    CompletedShows(env, seed);
    hide RunOf, AfterRun, Shows;
    if t.phase.Completed? {
      var run := RunOf(env, Classify, seed, 64);
      assert Shows(run.log[|run.log| - 1].out.history, t.phase.output);
    }
  }

  lemma CompletedShows(env: AgentEnv, seed: AgentContext)
    ensures var p := AfterRun(env, seed); p.Completed? ==> Shows(p.history, p.output)
  {
    hide RunOf, LastAssistantText, Shows;
    var p := AfterRun(env, seed);
    if p.Completed? { TextIsShown(p.history); }
  }

  // ---- every turn of every run ----

  /** What does not change while a turn is in progress. */
  predicate SameTurn(t: Turn, u: Turn) {
    t.id == u.id && t.origin == u.origin && t.chat == u.chat && t.content == u.content && t.state == u.state
  }

  /** The turn began with this load, of the chat as it was then. */
  ghost predicate LoadedBy(s: State, step: Step, t: Turn) {
    && step.Load? && step.ok && step.id == t.id && step.origin == t.origin && step.chat == t.chat
    && t.content == (if t.origin == Http then TrimSpace(step.text) else step.text)
    && t.state == Held(s.store, t.chat)
  }

  lemma StepSame(s: State, step: Step, id: nat)
    requires id in Next(s, step).turns
    ensures var t := Next(s, step).turns[id];
            || (id in s.turns && SameTurn(s.turns[id], t))
            || (step.Load? && step.id == id && LoadedBy(s, step, t))
  {
    hide AfterRun, Saved, TrimSpace;
  }

  lemma {:induction false} WasLoaded(steps: seq<Step>, id: nat) returns (i: nat)
    requires id in After(INIT, steps).turns
    ensures i < |steps| && LoadedBy(After(INIT, steps[..i]), steps[i], After(INIT, steps).turns[id])
    decreases |steps|
  {
    hide Next, TrimSpace;
    var n := |steps| - 1;
    var s := After(INIT, steps[..n]);
    StepSame(s, steps[n], id);
    if id in s.turns && SameTurn(s.turns[id], After(INIT, steps).turns[id]) {
      i := WasLoaded(steps[..n], id);
      assert steps[..n][..i] == steps[..i];
    } else {
      i := n;
    }
  }

  /** Whether the agent ran for the turn. */
  predicate Ran(t: Turn) { t.phase.Broken? || t.phase.Completed? }

  lemma StepRan(s: State, step: Step, id: nat)
    requires id in Next(s, step).turns && Ran(Next(s, step).turns[id])
    ensures id in s.turns && SameTurn(s.turns[id], Next(s, step).turns[id])
    ensures var t := Next(s, step).turns[id];
            || s.turns[id] == t
            || (step.RunAgent? && step.id == id
                && t.phase == AfterRun(step.env, step.base.(input := t.content, history := t.state.history)))
  {
    hide AfterRun, Saved, TrimSpace;
  }

  lemma {:induction false} WasRun(steps: seq<Step>, id: nat) returns (j: nat)
    requires id in After(INIT, steps).turns && Ran(After(INIT, steps).turns[id])
    ensures j < |steps| && steps[j].RunAgent? && steps[j].id == id
    ensures var s, t := After(INIT, steps[..j]), After(INIT, steps).turns[id];
            && id in s.turns && SameTurn(s.turns[id], t)
            && t.phase == AfterRun(steps[j].env, steps[j].base.(input := t.content, history := t.state.history))
    decreases |steps|
  {
    hide Next, AfterRun;
    var n := |steps| - 1;
    var s := After(INIT, steps[..n]);
    StepRan(s, steps[n], id);
    if s.turns[id] == After(INIT, steps).turns[id] {
      j := WasRun(steps[..n], id);
      assert steps[..n][..j] == steps[..j];
    } else {
      j := n;
    }
  }

  /**
   However the turns interleave: a turn that is saved after the agent ran for it was loaded at some step
   and run at a later one, its run began with the loaded history and the turn's text as input, and what
   the save leaves is the chat as it was loaded with the turn's own lines behind it.
   */
  lemma SavedTurn(steps: seq<Step>, id: nat) returns (i: nat, j: nat)
    requires Legal(steps)
    requires id in After(INIT, steps).turns && Ran(After(INIT, steps).turns[id])
    ensures i < j < |steps| && steps[j].RunAgent? && steps[j].id == id
    ensures var s := After(INIT, steps);
            var t := s.turns[id];
            var loaded := Held(After(INIT, steps[..i]).store, t.chat);
            var seed := steps[j].base.(input := t.content, history := loaded.history);
            && LoadedBy(After(INIT, steps[..i]), steps[i], t)
            && Leaves(s.store, After(INIT, steps + [Save(id, true)]).store, loaded, t,
                  RunOf(steps[j].env, Classify, seed, 64))
            && After(INIT, steps + [Save(id, false)]).store == s.store
  {
    var s := After(INIT, steps);
    j := WasRun(steps, id);
    i := WasLoaded(steps[..j], id);
    assert steps[..j][..i] == steps[..i];
    assert InWorld(steps[j].env, steps[j].world);
    SaveStep(steps, id);
    hide After, AfterRun, InWorld, Leaves, TrimSpace;
    SavedExtends(s.turns[id], steps[j].env,
        steps[j].base.(input := s.turns[id].content, history := s.turns[id].state.history), s.store);
  }

  lemma SaveStep(steps: seq<Step>, id: nat)
    requires id in After(INIT, steps).turns && Ran(After(INIT, steps).turns[id])
    ensures var s := After(INIT, steps);
            var t := s.turns[id];
            && After(INIT, steps + [Save(id, true)]).store ==
                (if Saved(t).Some? then s.store[t.chat := Saved(t).value] else s.store)
            && After(INIT, steps + [Save(id, false)]).store == s.store
  {
    forall ok: bool
      ensures After(INIT, steps + [Save(id, ok)]) == Next(After(INIT, steps), Save(id, ok))
    {
      assert (steps + [Save(id, ok)])[..|steps|] == steps;
    }
    hide After;
  }

  /**
   A handler with nothing in between: an HTTP turn with blank text, a turn whose chat cannot be loaded,
   and an HTTP turn whose chat has another HTTP turn in progress leave everything as it was; every other
   turn runs on what is stored and, if its save succeeds, leaves it extended.
   */
  lemma WholeTurn(s: State, id: nat, origin: Origin, chat: string, text: string, env: AgentEnv, w: World,
      base: AgentContext, loads: bool, saves: bool)
    requires InWorld(env, w) && id !in s.used && id !in s.turns
    ensures var content := if origin == Http then TrimSpace(text) else text;
            var r := After(s, Script(id, origin, chat, text, env, w, base, loads, saves));
            var loaded := Held(s.store, chat);
            var seed := base.(input := content, history := loaded.history);
            && r.active == s.active && r.turns == s.turns
            && (!saves || !loads || (origin == Http && (content == "" || chat in s.active)) ==> r.store == s.store)
            && (saves && loads && (origin == Http ==> content != "" && chat !in s.active) ==>
                  Leaves(s.store, r.store, loaded, Turn(id, origin, chat, content, loaded, Loaded),
                      RunOf(env, Classify, seed, 64)))
  {
    var content := if origin == Http then TrimSpace(text) else text;
    var seed := base.(input := content, history := Held(s.store, chat).history);
    var done := Turn(id, origin, chat, content, Held(s.store, chat), AfterRun(env, seed));
    SavedExtends(done, env, seed, s.store);
    hide After, AfterRun, RunOf, InWorld, TrimSpace, Extends, Saved;
    if origin == Http {
      HttpSteps(s, id, chat, text, env, w, base, loads, saves);
    } else {
      ChannelSteps(s, id, chat, text, env, w, base, loads, saves);
    }
  }

  lemma HttpSteps(s: State, id: nat, chat: string, text: string, env: AgentEnv, w: World, base: AgentContext,
      loads: bool, saves: bool)
    requires id !in s.used && id !in s.turns
    ensures var content := TrimSpace(text);
            var r := After(s, Script(id, Http, chat, text, env, w, base, loads, saves));
            var seed := base.(input := content, history := Held(s.store, chat).history);
            var done := Turn(id, Http, chat, content, Held(s.store, chat), AfterRun(env, seed));
            && r.active == s.active && r.turns == s.turns
            && r.store == (if loads && saves && content != "" && chat !in s.active && Saved(done).Some?
                           then s.store[chat := Saved(done).value] else s.store)
  {
    ScriptSteps(s, id, Http, chat, text, env, w, base, loads, saves);
    var content := TrimSpace(text);
    hide After, AfterRun, TrimSpace, Saved;
    if loads && content != "" {
      var t := Turn(id, Http, chat, content, Held(s.store, chat), Loaded);
      var s1 := s.(turns := s.turns[id := t], used := s.used + {id});
      assert Next(s, Load(id, Http, chat, text, loads)) == s1;
      assert s.turns[id := t] - {id} == s.turns;
      if chat !in s.active {
        OnTurn(s1, id, env, w, base, saves);
        assert Seed(t, base) == base.(input := content, history := Held(s.store, chat).history);
      }
    }
  }

  lemma ChannelSteps(s: State, id: nat, chat: string, text: string, env: AgentEnv, w: World, base: AgentContext,
      loads: bool, saves: bool)
    requires id !in s.used && id !in s.turns
    ensures var r := After(s, Script(id, Channel, chat, text, env, w, base, loads, saves));
            var seed := base.(input := text, history := Held(s.store, chat).history);
            var done := Turn(id, Channel, chat, text, Held(s.store, chat), AfterRun(env, seed));
            && r.active == s.active && r.turns == s.turns
            && r.store == (if loads && saves && Saved(done).Some? then s.store[chat := Saved(done).value] else s.store)
  {
    ScriptSteps(s, id, Channel, chat, text, env, w, base, loads, saves);
    hide After, AfterRun, TrimSpace, Saved;
    if loads {
      var t := Turn(id, Channel, chat, text, Held(s.store, chat), Running);
      var seed := base.(input := text, history := Held(s.store, chat).history);
      var done := t.(phase := AfterRun(env, seed));
      RunEnds(env, seed);
      var s1 := s.(turns := s.turns[id := t], used := s.used + {id});
      assert Next(s, Load(id, Channel, chat, text, loads)) == s1 && Next(s1, Begin(id)) == s1;
      assert Next(s1, RunAgent(id, env, w, base)) == s1.(turns := s.turns[id := done]);
      assert s.turns[id := done] - {id} == s.turns;
    }
  }
}

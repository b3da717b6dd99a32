/** When a turn's lines are lost: another turn saved the chat while it worked on what it had loaded. */
module LostTurns {
  import opened Wrappers
  import opened Text
  import opened Providers
  import opened AgentNodes
  import opened AgentPipeline
  import opened Sessions

  /** The chat that a step's save writes, if any. */
  function Writes(s: State, step: Step): Option<string> {
    if step.Save? && step.ok && step.id in s.turns && Saved(s.turns[step.id]).Some?
        then Some(s.turns[step.id].chat) else None
  }

  predicate Creates(step: Step, chat: string) { step.CreateChat? && step.ok && step.chat == chat }

  /**
   From step i on the turn is in progress; step i saves the turn's chat (for another turn, as its own
   save ends it), and the chat is not created anew after that.
   */
  ghost predicate OverwrittenAt(steps: seq<Step>, id: nat, i: nat) {
    && i < |steps| && InProgress(steps, id, i)
    && Writes(After(INIT, steps[..i]), steps[i]) == Some(After(INIT, steps[..|steps|]).turns[id].chat)
    && !CreatedSince(steps, i, After(INIT, steps[..|steps|]).turns[id].chat)
  }

  ghost predicate InProgress(steps: seq<Step>, id: nat, i: nat)
    ensures InProgress(steps, id, i) && i <= |steps| ==> id in After(INIT, steps[..|steps|]).turns
  {
    forall m | i <= m <= |steps| :: id in After(INIT, steps[..m]).turns
  }

  predicate CreatedSince(steps: seq<Step>, i: nat, chat: string) {
    exists m | i < m < |steps| :: Creates(steps[m], chat)
  }

  /** Between the turn's load and now another turn saved the chat. */
  ghost predicate Overwritten(steps: seq<Step>, id: nat) { exists i :: OverwrittenAt(steps, id, i) }

  predicate SaidBy(lines: seq<Said>, id: nat) { exists i | 0 <= i < |lines| :: lines[i].turn == id }

  /** No line was said by a turn that is still to save, and every line by a turn that was. */
  ghost predicate OldLines(s: State, lines: seq<Said>) {
    forall i | 0 <= i < |lines| :: lines[i].turn in s.used && lines[i].turn !in s.turns
  }

  ghost predicate LinesOwned(s: State) {
    && (forall id | id in s.turns :: id in s.used && s.turns[id].id == id && OldLines(s, s.turns[id].state.messages))
    && (forall c | c in s.store :: OldLines(s, s.store[c].messages))
  }

  /** Of the chat that a turn works on: it holds another turn's line that the turn has not seen. */
  ghost predicate Ahead(s: State, id: nat)
    requires id in s.turns
  {
    exists i :: 0 <= i < |Stored(s.store, s.turns[id].chat).messages|
                && !SaidBy(s.turns[id].state.messages, Stored(s.store, s.turns[id].chat).messages[i].turn)
  }

  /** Or it holds just what the turn loaded, or, created anew, nothing. */
  ghost predicate Level(s: State, id: nat)
    requires id in s.turns
  {
    var lines := Stored(s.store, s.turns[id].chat).messages;
    lines == s.turns[id].state.messages || lines == []
  }

  lemma StepLinesOwned(s: State, step: Step)
    requires LinesOwned(s)
    ensures LinesOwned(Next(s, step))
  {
    hide AfterRun, TrimSpace;
    var n := Next(s, step);
    assert OldLines(s, EMPTY_CHAT.messages);
    forall lines | OldLines(s, lines)
      ensures OldLines(n, lines)
    {
    }
    if step.Save? && step.id in s.turns && Saved(s.turns[step.id]).Some? {
      var t := s.turns[step.id];
      assert OldLines(n, t.state.messages);
      assert n == s || OldLines(n, Saved(t).value.messages);
    }
  }

  lemma {:induction false} AlwaysOwned(steps: seq<Step>)
    ensures LinesOwned(After(INIT, steps))
    decreases |steps|
  {
    hide Next, LinesOwned;
    if steps == [] {
      InitOwned();
    } else {
      AlwaysOwned(steps[..|steps| - 1]);
      StepLinesOwned(After(INIT, steps[..|steps| - 1]), steps[|steps| - 1]);
    }
  }

  lemma InitOwned()
    ensures LinesOwned(INIT)
  {
  }

  /** What a step does to the standing of a turn in progress before and after it. */
  lemma StepStanding(s: State, step: Step, id: nat)
    requires LinesOwned(s) && id in s.turns && id in Next(s, step).turns
    ensures Next(s, step).turns[id].chat == s.turns[id].chat && Next(s, step).turns[id].state == s.turns[id].state
    ensures var chat := s.turns[id].chat;
            && (Writes(s, step) == Some(chat) ==> Ahead(Next(s, step), id))
            && (Creates(step, chat) ==> Level(Next(s, step), id))
            && (Writes(s, step) != Some(chat) && !Creates(step, chat) ==>
                  Stored(Next(s, step).store, chat) == Stored(s.store, chat))
  {
    hide AfterRun, TrimSpace;
    var n := Next(s, step);
    if Writes(s, step) == Some(s.turns[id].chat) {
      var t := s.turns[step.id];
      var lines := Stored(n.store, n.turns[id].chat).messages;
      assert lines == Saved(t).value.messages;
      assert lines[|t.state.messages|].turn == step.id;
      assert !SaidBy(s.turns[id].state.messages, step.id);
    }
  }

  /** A turn that has just loaded is level. */
  lemma StepLoads(s: State, step: Step, id: nat)
    requires id !in s.turns && id in Next(s, step).turns
    ensures Level(Next(s, step), id)
  {
    hide AfterRun;
  }

  lemma OverwrittenMore(steps: seq<Step>, id: nat, i: nat)
    requires steps != [] && i < |steps| - 1
    requires id in After(INIT, steps).turns && id in After(INIT, steps[..|steps| - 1]).turns
    requires After(INIT, steps).turns[id].chat == After(INIT, steps[..|steps| - 1]).turns[id].chat
    ensures OverwrittenAt(steps, id, i) <==>
            OverwrittenAt(steps[..|steps| - 1], id, i)
                && !Creates(steps[|steps| - 1], After(INIT, steps).turns[id].chat)
  {
    var n := |steps| - 1;
    hide After, Writes, CreatedSince, InProgress;
    assert steps[..|steps|] == steps && steps[..n][..n] == steps[..n] && steps[..n][..i] == steps[..i];
    InProgressMore(steps, id, i);
    CreatedMore(steps, i, After(INIT, steps).turns[id].chat);
  }

  lemma InProgressMore(steps: seq<Step>, id: nat, i: nat)
    requires steps != [] && i < |steps| && id in After(INIT, steps).turns
    ensures InProgress(steps, id, i) <==> InProgress(steps[..|steps| - 1], id, i)
  {
    hide After;
    var n := |steps| - 1;
    assert steps[..|steps|] == steps;
    assert forall m | 0 <= m <= n :: steps[..n][..m] == steps[..m];
  }

  lemma CreatedMore(steps: seq<Step>, i: nat, chat: string)
    requires steps != [] && i < |steps| - 1
    ensures CreatedSince(steps, i, chat) <==>
            CreatedSince(steps[..|steps| - 1], i, chat) || Creates(steps[|steps| - 1], chat)
  {
    hide Creates;
    var n := |steps| - 1;
    assert forall m | 0 <= m < n :: steps[..n][m] == steps[m];
    if CreatedSince(steps, i, chat) {
      var m :| i < m < |steps| && Creates(steps[m], chat);
      assert m == n || Creates(steps[..n][m], chat);
    }
  }

  /** At every moment of every run a turn in progress is overwritten or level. */
  lemma {:induction false} Standing(steps: seq<Step>, id: nat)
    requires id in After(INIT, steps).turns
    ensures Overwritten(steps, id) ==> Ahead(After(INIT, steps), id)
    ensures !Overwritten(steps, id) ==> Level(After(INIT, steps), id)
    decreases |steps|
  {
    if steps != [] {
      var n := |steps| - 1;
      var init, last := steps[..n], steps[n];
      var s, t := After(INIT, init), After(INIT, steps);
      assert t == Next(s, last);
      hide Next, After, Writes, Creates;
      assert steps[..|steps|] == steps;
      if id in s.turns {
        Standing(init, id);
        AlwaysOwned(init);
        StepStanding(s, last, id);
        forall i: nat | i < n
          ensures OverwrittenAt(steps, id, i) <==> OverwrittenAt(init, id, i) && !Creates(last, t.turns[id].chat)
        {
          OverwrittenMore(steps, id, i);
        }
        LastOverwrites(steps, id);
        var chat := s.turns[id].chat;
        if Writes(s, last) == Some(chat) {
          assert OverwrittenAt(steps, id, n);
        } else if Creates(last, chat) {
          assert forall i: nat :: !OverwrittenAt(steps, id, i);
        } else {
          StandingStep(s, t, last, id);
          assert forall i: nat :: OverwrittenAt(steps, id, i) <==> OverwrittenAt(init, id, i);
        }
      } else {
        StepLoads(s, last, id);
        NewIsLevel(steps, id);
      }
    }
  }

  lemma NewIsLevel(steps: seq<Step>, id: nat)
    requires steps != [] && id !in After(INIT, steps[..|steps| - 1]).turns
    ensures !Overwritten(steps, id)
  {
    hide After;
  }

  /** The last step is an overwriting one exactly if it saves the chat. */
  lemma LastOverwrites(steps: seq<Step>, id: nat)
    requires steps != [] && id in After(INIT, steps).turns && id in After(INIT, steps[..|steps| - 1]).turns
    ensures OverwrittenAt(steps, id, |steps| - 1) <==>
            Writes(After(INIT, steps[..|steps| - 1]), steps[|steps| - 1]) == Some(After(INIT, steps).turns[id].chat)
  {
    hide After, Writes;
    assert steps[..|steps|] == steps;
  }

  lemma StandingStep(s: State, t: State, step: Step, id: nat)
    requires id in s.turns && id in t.turns && t.turns[id].chat == s.turns[id].chat
             && t.turns[id].state == s.turns[id].state
    requires Stored(t.store, s.turns[id].chat) == Stored(s.store, s.turns[id].chat)
    ensures Ahead(t, id) <==> Ahead(s, id)
    ensures Level(t, id) <==> Level(s, id)
  {
  }

  // ---- when a save drops a line ----

  /** A stored line of the turn's chat is not among those the turn would save. */
  ghost predicate Drops(s: State, id: nat)
    requires id in s.turns && Saved(s.turns[id]).Some?
  {
    exists i :: 0 <= i < |Stored(s.store, s.turns[id].chat).messages|
                && Stored(s.store, s.turns[id].chat).messages[i] !in Saved(s.turns[id]).value.messages
  }

  lemma DropsAhead(s: State, id: nat)
    requires LinesOwned(s) && id in s.turns && Saved(s.turns[id]).Some?
    ensures Ahead(s, id) ==>
            Drops(s, id) && !(Stored(s.store, s.turns[id].chat).messages <= Saved(s.turns[id]).value.messages)
    ensures Level(s, id) ==>
            !Drops(s, id) && Stored(s.store, s.turns[id].chat).messages <= Saved(s.turns[id]).value.messages
  {
    var t := s.turns[id];
    var lines, mine := Stored(s.store, t.chat).messages, Saved(t).value.messages;
    SavedLines(t);
    if Ahead(s, id) {
      var i :| 0 <= i < |lines| && !SaidBy(t.state.messages, lines[i].turn);
      assert t.chat in s.store && lines[i].turn !in s.turns;
      assert forall j | 0 <= j < |t.state.messages| :: mine[j] == t.state.messages[j] && mine[j].turn != lines[i].turn;
      assert forall j | |t.state.messages| <= j < |mine| :: mine[j].turn == t.id;
      assert lines[i] !in mine;
    }
    if Level(s, id) {
      assert t.state.messages <= mine;
    }
  }

  /**
   In every run: a turn's save drops a stored line exactly if another turn saved the chat since the
   turn loaded it.
   */
  lemma SaveDropsExactly(steps: seq<Step>, id: nat)
    requires var s := After(INIT, steps); id in s.turns && Saved(s.turns[id]).Some?
    ensures Drops(After(INIT, steps), id) <==> Overwritten(steps, id)
  {
    hide After, Saved;
    Standing(steps, id);
    AlwaysOwned(steps);
    DropsAhead(After(INIT, steps), id);
  }

  /** Every chat of the first store is in the second, its transcript extended. */
  ghost predicate Extends(a: map<string, ChatState>, b: map<string, ChatState>) {
    forall c | c in a :: c in b && a[c].messages <= b[c].messages
  }

  /** Step n loses lines: the save of an overwritten turn, or a chat created over one that has lines. */
  ghost predicate Loses(steps: seq<Step>, n: nat) {
    && n < |steps|
    && var s := After(INIT, steps[..n]);
       || (Writes(s, steps[n]).Some? && Overwritten(steps[..n], steps[n].id))
       || (steps[n].CreateChat? && steps[n].ok && Stored(s.store, steps[n].chat).messages != [])
  }

  lemma StepExtends(steps: seq<Step>, n: nat)
    requires n < |steps|
    ensures Extends(After(INIT, steps[..n]).store, Next(After(INIT, steps[..n]), steps[n]).store) <==> !Loses(steps, n)
  {
    var s, step := After(INIT, steps[..n]), steps[n];
    if Writes(s, step).Some? {
      Standing(steps[..n], step.id);
      AlwaysOwned(steps[..n]);
      DropsAhead(s, step.id);
    }
    hide After, AfterRun, Ahead, Level, Drops, LinesOwned, TrimSpace;
    var t := Next(s, step);
    if Writes(s, step).Some? {
      var chat := s.turns[step.id].chat;
      assert t.store == s.store[chat := Saved(s.turns[step.id]).value];
      assert Extends(s.store, t.store) <==> Stored(s.store, chat).messages <= t.store[chat].messages;
    } else if step.CreateChat? && step.ok {
      assert Extends(s.store, t.store) <==> Stored(s.store, step.chat).messages <= [];
    } else {
      assert t.store == s.store;
    }
  }

  ghost predicate GrowsAt(steps: seq<Step>, n: nat) {
    n < |steps| && Extends(After(INIT, steps[..n]).store, After(INIT, steps[..n + 1]).store)
  }

  /** Over a whole run transcripts only grow exactly if no step loses lines. */
  lemma GrowsExactly(steps: seq<Step>)
    ensures (forall n: nat | n < |steps| :: GrowsAt(steps, n)) <==> (forall n: nat | n < |steps| :: !Loses(steps, n))
  {
    forall n: nat | n < |steps|
      ensures GrowsAt(steps, n) <==> !Loses(steps, n)
    {
      PrefixNext(steps, n);
      StepExtends(steps, n);
    }
  }

  lemma PrefixNext(steps: seq<Step>, n: nat)
    requires n < |steps|
    ensures After(INIT, steps[..n + 1]) == Next(After(INIT, steps[..n]), steps[n])
  {
    assert steps[..n + 1][..n] == steps[..n];
  }

  /** From a moment of a run on, while no step loses lines, transcripts only grow. */
  lemma {:induction false} NoTurnLost(steps: seq<Step>, m: nat, n: nat)
    requires m <= n <= |steps| && forall i | m <= i < n :: !Loses(steps, i)
    ensures Extends(After(INIT, steps[..m]).store, After(INIT, steps[..n]).store)
    decreases n
  {
    hide After, Next, Loses;
    if m < n {
      NoTurnLost(steps, m, n - 1);
      PrefixNext(steps, n - 1);
      StepExtends(steps, n - 1);
    }
  }

  // ---- HTTP turns only ----

  ghost predicate HttpOnly(steps: seq<Step>) {
    forall i | 0 <= i < |steps| && steps[i].Load? :: steps[i].origin == Http
  }

  lemma {:induction false} AllHttp(steps: seq<Step>)
    requires HttpOnly(steps)
    ensures forall id | id in After(INIT, steps).turns :: After(INIT, steps).turns[id].origin == Http
    decreases |steps|
  {
    if steps != [] {
      var n := |steps| - 1;
      AllHttp(steps[..n]);
      StepHttp(After(INIT, steps[..n]), steps[n]);
    }
  }

  lemma StepHttp(s: State, step: Step)
    requires (forall id | id in s.turns :: s.turns[id].origin == Http) && (step.Load? ==> step.origin == Http)
    ensures forall id | id in Next(s, step).turns :: Next(s, step).turns[id].origin == Http
  {
    hide AfterRun, Saved, TrimSpace;
  }

  /**
   Without channel turns a turn is overwritten exactly if another turn saved the chat between its load
   and its begin: the slot keeps the time after that.
   */
  lemma OverwrittenBeforeBegin(steps: seq<Step>, id: nat)
    requires HttpOnly(steps) && id in After(INIT, steps).turns
    ensures Overwritten(steps, id) <==>
            exists i: nat :: OverwrittenAt(steps, id, i) && After(INIT, steps[..i]).turns[id].phase == Loaded
  {
    hide After, Next, Writes;
    forall i: nat | OverwrittenAt(steps, id, i)
      ensures After(INIT, steps[..i]).turns[id].phase == Loaded
    {
      SameChat(steps, id, i, |steps|);
      PrefixNext(steps, i);
      assert id in After(INIT, steps[..i + 1]).turns;
      NotItsOwn(After(INIT, steps[..i]), steps[i], id);
      assert forall j | 0 <= j < i :: steps[..i][j] == steps[j];
      AllHttp(steps[..i]);
      SlotOwner(steps[..i], steps[i], id);
    }
  }

  /** A turn's own save ends it. */
  lemma NotItsOwn(s: State, step: Step, id: nat)
    requires Writes(s, step).Some? && id in Next(s, step).turns
    ensures step.id != id
  {
  }

  /** Only the turn that holds the slot can save the chat. */
  lemma SlotOwner(steps: seq<Step>, step: Step, id: nat)
    requires var s := After(INIT, steps);
             id in s.turns && Writes(s, step) == Some(s.turns[id].chat) && step.id != id
    requires forall x | x in After(INIT, steps).turns :: After(INIT, steps).turns[x].origin == Http
    ensures After(INIT, steps).turns[id].phase == Loaded
  {
    assert SlotsOwned(INIT);
    hide After;
    RunKeepsSlots(INIT, steps);
  }

  /** A turn in progress keeps its chat. */
  lemma {:induction false} SameChat(steps: seq<Step>, id: nat, i: nat, n: nat)
    requires i <= n <= |steps| && forall m | i <= m <= n :: id in After(INIT, steps[..m]).turns
    ensures After(INIT, steps[..i]).turns[id].chat == After(INIT, steps[..n]).turns[id].chat
    decreases n
  {
    hide After, Next;
    if i < n {
      SameChat(steps, id, i, n - 1);
      PrefixNext(steps, n - 1);
      AlwaysOwned(steps[..n - 1]);
      StepChat(After(INIT, steps[..n - 1]), steps[n - 1], id);
    }
  }

  lemma StepChat(s: State, step: Step, id: nat)
    requires LinesOwned(s) && id in s.turns && id in Next(s, step).turns
    ensures Next(s, step).turns[id].chat == s.turns[id].chat
  {
    hide AfterRun, TrimSpace;
  }

  // ---- a lost turn ----

  /** Two requests to chat "c": the second loads it before the first saves, and begins after it. */
  function LosingRun(env: AgentEnv, w: World, base: AgentContext): seq<Step> {
    [Load(1, Http, "c", "a", true), Load(2, Http, "c", "b", true), Begin(1), RunAgent(1, env, w, base)]
    + [Save(1, true), Begin(2), RunAgent(2, env, w, base), Save(2, true)]
  }

  lemma LosingPrefixes(steps: seq<Step>)
    requires |steps| == 8
    ensures After(INIT, steps[..4]) == Next(Next(Next(Next(INIT, steps[0]), steps[1]), steps[2]), steps[3])
    ensures After(INIT, steps[..7]) == Next(Next(Next(After(INIT, steps[..4]), steps[4]), steps[5]), steps[6])
    ensures After(INIT, steps[..5]) == Next(After(INIT, steps[..4]), steps[4])
    ensures After(INIT, steps) == Next(After(INIT, steps[..7]), steps[7])
  {
    hide Next;
    PrefixNext(steps, 0);
    PrefixNext(steps, 1);
    PrefixNext(steps, 2);
    PrefixNext(steps, 3);
    PrefixNext(steps, 4);
    PrefixNext(steps, 5);
    PrefixNext(steps, 6);
    PrefixNext(steps, 7);
    assert steps[..0] == [] && steps[..8] == steps;
    assert After(INIT, []) == INIT;
  }

  function Waiting(id: nat, content: string): Turn { Turn(id, Http, "c", content, EMPTY_CHAT, Loaded) }

  function Done(id: nat, content: string, env: AgentEnv, base: AgentContext): Turn {
    Waiting(id, content).(phase := AfterRun(env, Seed(Waiting(id, content), base)))
  }

  /** The state after the first turn's save. */
  function Between(env: AgentEnv, base: AgentContext): State
    requires Saved(Done(1, "a", env, base)).Some?
  {
    State(map["c" := Saved(Done(1, "a", env, base)).value], {}, map[2 := Waiting(2, "b")], {1, 2})
  }

  lemma FirstSaves(env: AgentEnv, w: World, base: AgentContext)
    ensures Saved(Done(1, "a", env, base)).Some?
    ensures After(INIT, LosingRun(env, w, base)[..5]) == Between(env, base)
  {
    var steps := LosingRun(env, w, base);
    LosingPrefixes(steps);
    TwoLoads();
    assert steps[2] == Begin(1) && steps[3] == RunAgent(1, env, w, base) && steps[4] == Save(1, true);
    hide AfterRun, After, Saved, Next, LosingRun, Done;
    FirstFrom(env, w, base);
  }

  lemma FirstFrom(env: AgentEnv, w: World, base: AgentContext)
    ensures var x := State(map[], {}, map[1 := Waiting(1, "a"), 2 := Waiting(2, "b")], {1, 2});
            && Saved(Done(1, "a", env, base)).Some?
            && Next(Next(Next(x, Begin(1)), RunAgent(1, env, w, base)), Save(1, true)) == Between(env, base)
  {
    hide AfterRun, Saved, Next;
    var x := State(map[], {}, map[1 := Waiting(1, "a"), 2 := Waiting(2, "b")], {1, 2});
    OnTurn(x, 1, env, w, base, true);
    assert x.turns - {1} == map[2 := Waiting(2, "b")];
    assert x.store["c" := Saved(Done(1, "a", env, base)).value] == map["c" := Saved(Done(1, "a", env, base)).value];
  }

  /** The states before and after the second turn's save. */
  lemma SecondSaves(env: AgentEnv, w: World, base: AgentContext)
    ensures Saved(Done(1, "a", env, base)).Some? && Saved(Done(2, "b", env, base)).Some?
    ensures var steps := LosingRun(env, w, base);
            var d2 := Done(2, "b", env, base);
            && After(INIT, steps[..7]) == State(Between(env, base).store, {"c"}, map[2 := d2], {1, 2})
            && After(INIT, steps).store == map["c" := Saved(d2).value]
  {
    var steps := LosingRun(env, w, base);
    LosingPrefixes(steps);
    FirstSaves(env, w, base);
    assert steps[5] == Begin(2) && steps[6] == RunAgent(2, env, w, base) && steps[7] == Save(2, true);
    hide AfterRun, After, Saved, Next, LosingRun, Done;
    SecondFrom(Saved(Done(1, "a", env, base)).value, env, w, base);
  }

  lemma SecondFrom(cs: ChatState, env: AgentEnv, w: World, base: AgentContext)
    ensures var y := State(map["c" := cs], {}, map[2 := Waiting(2, "b")], {1, 2});
            var d2 := Done(2, "b", env, base);
            var z := Next(Next(y, Begin(2)), RunAgent(2, env, w, base));
            && Saved(d2).Some?
            && z == State(y.store, {"c"}, map[2 := d2], {1, 2})
            && Next(z, Save(2, true)).store == map["c" := Saved(d2).value]
  {
    hide AfterRun, Saved, Next;
    var y := State(map["c" := cs], {}, map[2 := Waiting(2, "b")], {1, 2});
    OnRun(y, 2, env, w, base);
    OnTurn(y, 2, env, w, base, true);
    assert y.turns[2 := Done(2, "b", env, base)] == map[2 := Done(2, "b", env, base)];
    assert y.store["c" := Saved(Done(2, "b", env, base)).value] == map["c" := Saved(Done(2, "b", env, base)).value];
  }

  lemma TwoLoads()
    ensures Next(Next(INIT, Load(1, Http, "c", "a", true)), Load(2, Http, "c", "b", true)) ==
            State(map[], {}, map[1 := Waiting(1, "a"), 2 := Waiting(2, "b")], {1, 2})
  {
    assert TrimSpace("a") == "a" && TrimSpace("b") == "b";
  }

  /** An HTTP turn from its begin to the end of the agent's run. */
  lemma OnRun(s: State, id: nat, env: AgentEnv, w: World, base: AgentContext)
    requires id in s.turns && s.turns[id].phase == Loaded && s.turns[id].chat !in s.active
    ensures Next(Next(s, Begin(id)), RunAgent(id, env, w, base)) ==
            State(s.store, s.active + {s.turns[id].chat},
                  s.turns[id := s.turns[id].(phase := AfterRun(env, Seed(s.turns[id], base)))], s.used)
  {
    hide AfterRun;
    var t1 := s.turns[id].(phase := Running);
    assert Seed(t1, base) == Seed(s.turns[id], base);
    var s1 := Next(s, Begin(id));
    assert s1 == State(s.store, s.active + {t1.chat}, s.turns[id := t1], s.used);
  }

  /** A turn can be lost, although one HTTP turn at a time runs: the second is overwritten before it begins. */
  lemma TurnLost(env: AgentEnv, w: World, base: AgentContext)
    ensures var steps := LosingRun(env, w, base);
            var s1, s2 := After(INIT, steps[..5]), After(INIT, steps);
            && "c" in s1.store && Said(1, User, "a") in s1.store["c"].messages
            && "c" in s2.store && Said(1, User, "a") !in s2.store["c"].messages
            && Overwritten(steps[..7], 2) && Loses(steps, 7)
  {
    var steps := LosingRun(env, w, base);
    var d1, d2 := Done(1, "a", env, base), Done(2, "b", env, base);
    FirstSaves(env, w, base);
    SecondSaves(env, w, base);
    SavedLines(d1);
    SavedLines(d2);
    hide After, Saved, AfterRun;
    SaveDropsExactly(steps[..7], 2);
    var lines1, lines2 := Saved(d1).value.messages, Saved(d2).value.messages;
    assert lines1[0] == Said(1, User, "a") && d2.state.messages == [];
    assert Said(1, User, "a") !in lines2;
    var s7 := After(INIT, steps[..7]);
    assert Stored(s7.store, s7.turns[2].chat).messages == lines1 && Saved(s7.turns[2]).value.messages == lines2;
    assert Drops(s7, 2);
  }
}

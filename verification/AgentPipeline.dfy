/**
 Runs of the agent graph: which nodes execute in which order, when a turn fits into the step limit,
 and what every node keeps of the pairing of tool calls and results.
 */
module AgentPipeline {
  import opened Wrappers
  import opened Providers
  import opened History
  import opened GraphRunner
  import opened AgentNodes

  type AgentEnv = Env<Node, AgentContext, string>

  /** The graph is the one BuildGraph makes. */
  ghost predicate OnPipeline(env: AgentEnv) {
    forall node, out :: Successors(env.edges, node, out) == NextOf(node, out)
  }

  // ---- the order of the nodes ----

  /** classify, mcp, skills, enrich, llm, (toolloop, llm) k times, summarize. */
  function Path(k: nat): (r: seq<Node>)
    ensures |r| == 2 * k + 6
    ensures forall i | 0 <= i < |r| :: r[i] == PathAt(k, i)
  {
    seq(2 * k + 6, i requires 0 <= i < 2 * k + 6 => PathAt(k, i))
  }

  function PathAt(k: nat, i: nat): Node {
    if i == 0 then Classify
    else if i == 1 then Mcp
    else if i == 2 then Skills
    else if i == 3 then Enrich
    else if i >= 2 * k + 5 then Summarize
    else if i % 2 == 0 then Llm
    else ToolLoop
  }

  /** The nodes that may stand at place i of some path. */
  predicate MayStand(node: Node, i: nat) {
    if i < 4 then node == PathAt(0, i)
    else if i % 2 == 0 then node == Llm
    else node == ToolLoop || node == Summarize
  }

  function Nodes(log: seq<Entry<Node, AgentContext>>): seq<Node> {
    seq(|log|, i requires 0 <= i < |log| => log[i].frame.node)
  }

  /** Each node has at most one successor, summarize alone has none, and the successor's place is the next. */
  lemma NextStands(node: Node, out: AgentContext, i: nat)
    requires MayStand(node, i)
    ensures |NextOf(node, out)| == if node == Summarize then 0 else 1
    ensures node != Summarize ==> MayStand(NextOf(node, out)[0], i + 1)
  {
  }

  /**
   A log that began at a place: each entry's node may stand at its place, depth is the place, and
   summarize is last.
   */
  ghost predicate InOrder(log: seq<Entry<Node, AgentContext>>, place: nat) {
    forall j | 0 <= j < |log| ::
      && MayStand(log[j].frame.node, place + j)
      && log[j].frame.depth == place + j
      && (j < |log| - 1 ==> log[j].frame.node != Summarize)
  }

  lemma InOrderMore(e: Entry<Node, AgentContext>, rest: seq<Entry<Node, AgentContext>>, place: nat)
    requires MayStand(e.frame.node, place) && e.frame.depth == place && InOrder(rest, place + 1)
    requires e.frame.node == Summarize ==> rest == []
    ensures InOrder([e] + rest, place)
  {
    hide MayStand;
    var log := [e] + rest;
    forall j | 0 <= j < |log|
      ensures MayStand(log[j].frame.node, place + j) && log[j].frame.depth == place + j
      ensures j < |log| - 1 ==> log[j].frame.node != Summarize
    {
      if j > 0 {
        assert log[j] == rest[j - 1];
        assert place + j == place + 1 + (j - 1);
      }
    }
  }

  lemma {:induction false} DrainOrder(
    env: AgentEnv, queue: seq<Frame<Node, AgentContext>>, step: nat, limit: nat, clock: Clock)
    requires OnPipeline(env) && step <= limit && |queue| <= 1
    requires queue != [] ==> MayStand(queue[0].node, step) && queue[0].depth == step
    ensures var o := Drain(env, queue, step, limit, clock);
            && InOrder(o.log, step)
            && (queue == [] ==> o.log == [])
            && (o.error.None? && queue != [] ==> o.log != [] && o.log[|o.log| - 1].frame.node == Summarize)
    decreases limit - step
  {
    hide Try, Successors, NextOf, MayStand;
    if queue != [] {
      DrainStep(env, queue, step, limit, clock);
      hide Drain;
      if !env.cancelled(clock.checks) && step < limit {
        var f := queue[0];
        var t := Try(env, f.node, f.input, 1, clock.(checks := clock.checks + 1));
        if t.result.Ok? {
          var out := t.result.value;
          NextStands(f.node, out, step);
          var next := queue[1..] + Follow(NextOf(f.node, out), out, f.depth + 1);
          assert queue[1..] == [];
          DrainOrder(env, next, step + 1, limit, t.clock);
          hide InOrder;
          InOrderMore(Entry(step + 1, f, out), Drain(env, next, step + 1, limit, t.clock).log, step);
        }
      }
    }
  }

  /**
   Every run executes a prefix of a path, one frame at a time (a frame's depth is its place), and a
   run that ends without error executes a whole path.
   */
  lemma {:induction false} RunFollowsPath(env: AgentEnv, seed: AgentContext, stepLimit: int) returns (k: nat)
    requires OnPipeline(env)
    ensures var o := RunOf(env, Classify, seed, stepLimit);
            && Nodes(o.log) <= Path(k)
            && (forall j | 0 <= j < |o.log| :: o.log[j].frame.depth == j)
            && (o.error.None? ==> Nodes(o.log) == Path(k))
  {
    hide Drain;
    DrainOrder(env, [Frame(Classify, seed, 0)], 0, StepLimit(stepLimit), Clock(0, 0));
    k := PathOf(RunOf(env, Classify, seed, stepLimit).log);
  }

  /** The path that a log in order follows; the whole of it if the log ends with summarize. */
  lemma PathOf(log: seq<Entry<Node, AgentContext>>) returns (k: nat)
    requires InOrder(log, 0)
    ensures Nodes(log) <= Path(k)
    ensures forall j | 0 <= j < |log| :: log[j].frame.depth == j
    ensures log != [] && log[|log| - 1].frame.node == Summarize ==> Nodes(log) == Path(k)
  {
    var n := |log|;
    k := n;
    if n > 0 && log[n - 1].frame.node == Summarize {
      assert MayStand(log[n - 1].frame.node, 0 + (n - 1));
      k := (n - 6) / 2;
    }
    forall j | 0 <= j < n
      ensures j < |Path(k)| && Nodes(log)[j] == Path(k)[j] && log[j].frame.depth == j
    {
      assert MayStand(log[j].frame.node, 0 + j);
    }
  }

  // ---- the step limit ----

  /** How many times the model asked for tools. */
  function Rounds(log: seq<Entry<Node, AgentContext>>): nat
    decreases |log|
  {
    if log == [] then 0
    else (if log[0].frame.node == Llm && HasPendingToolCalls(log[0].out) then 1 else 0) + Rounds(log[1..])
  }

  /** How many steps a turn takes from a node on if the model does not ask for tools any more. */
  function Remaining(node: Node): nat {
    match node
    case Classify => 6
    case Mcp => 5
    case Skills => 4
    case Enrich => 3
    case ToolLoop => 3
    case Llm => 2
    case Summarize => 1
  }

  lemma {:induction false} DrainRounds(env: AgentEnv, f: Frame<Node, AgentContext>, step: nat, limit: nat, clock: Clock)
    requires OnPipeline(env) && step <= limit && Drain(env, [f], step, limit, clock).error.None?
    ensures var log := Drain(env, [f], step, limit, clock).log; |log| == Remaining(f.node) + 2 * Rounds(log)
    decreases limit - step
  {
    hide Try, Successors, NextOf, HasPendingToolCalls, Remaining;
    DrainStep(env, [f], step, limit, clock);
    hide Drain;
    var t := Try(env, f.node, f.input, 1, clock.(checks := clock.checks + 1));
    var out := t.result.value;
    var next := [f][1..] + Follow(NextOf(f.node, out), out, f.depth + 1);
    var rest := Drain(env, next, step + 1, limit, t.clock);
    var log := [Entry(step + 1, f, out)] + rest.log;
    assert log[1..] == rest.log;
    NextRemaining(f.node, out);
    if f.node == Summarize {
      assert next == [];
      DrainEmpty(env, step + 1, limit, t.clock);
    } else {
      var g := Frame(NextOf(f.node, out)[0], out, f.depth + 1);
      assert next == [g];
      DrainRounds(env, g, step + 1, limit, t.clock);
    }
  }

  lemma NextRemaining(node: Node, out: AgentContext)
    ensures if node == Summarize then NextOf(node, out) == [] && Remaining(node) == 1
            else |NextOf(node, out)| == 1
                 && Remaining(node) + (if node == Llm && HasPendingToolCalls(out) then 2 else 0) ==
                     1 + Remaining(NextOf(node, out)[0])
  {
  }

  /**
   A turn that completes under some limit, the model having asked for tools k times, completes under
   another one exactly if that allows 2k + 6 steps, and then is the same; else it is cut there. No
   matter how often nodes failed and were retried.
   */
  lemma CompletesIff(env: AgentEnv, seed: AgentContext, stepLimit: int, enough: int)
    requires OnPipeline(env) && RunOf(env, Classify, seed, enough).error.None?
    ensures var o := RunOf(env, Classify, seed, stepLimit);
            var whole := RunOf(env, Classify, seed, enough);
            var k := Rounds(whole.log);
            && |whole.log| == 2 * k + 6
            && (o.error.None? <==> 2 * k + 6 <= StepLimit(stepLimit))
            && (o.error.None? ==> o == whole)
            && (!o.error.None? ==>
                o.error == Some(MaxSteps(StepLimit(stepLimit))) && o.log == whole.log[..StepLimit(stepLimit)])
  {
    hide Drain;
    var f := Frame(Classify, seed, 0);
    DrainRounds(env, f, 0, StepLimit(enough), Clock(0, 0));
    DrainLimits(env, [f], 0, StepLimit(stepLimit), StepLimit(enough), Clock(0, 0));
  }

  /** No node fails, and nothing is cancelled. */
  ghost predicate Untroubled(env: AgentEnv) {
    (forall c :: !env.cancelled(c)) && forall node, ctx, t :: env.exec(node, ctx, t).Ok?
  }

  lemma {:induction false} DrainUntroubled(env: AgentEnv, queue: seq<Frame<Node, AgentContext>>, step: nat, limit: nat,
      clock: Clock)
    requires Untroubled(env) && step <= limit
    ensures var o := Drain(env, queue, step, limit, clock);
            o.error.None? || (o.error == Some(MaxSteps(limit)) && |o.log| == limit - step)
    decreases limit - step
  {
    hide Try, Successors;
    if queue == [] {
      DrainEmpty(env, step, limit, clock);
    } else {
      DrainStep(env, queue, step, limit, clock);
      hide Drain;
      if step < limit {
        var f := queue[0];
        var c1 := clock.(checks := clock.checks + 1);
        FirstTry(env, f.node, f.input, c1);
        var t := Try(env, f.node, f.input, 1, c1);
        DrainUntroubled(env,
            queue[1..] + Follow(Successors(env.edges, f.node, t.result.value), t.result.value, f.depth + 1),
                        step + 1, limit, t.clock);
      }
    }
  }

  lemma FirstTry(env: AgentEnv, node: Node, input: AgentContext, clock: Clock)
    requires !env.cancelled(clock.checks) && env.exec(node, input, clock.attempts).Ok?
    ensures Try(env, node, input, 1, clock) ==
            Tried(Ok(env.exec(node, input, clock.attempts).value), Clock(clock.attempts + 1, clock.checks + 1))
  {
  }

  // ---- pairing ----

  /** The environment of a turn: the nodes of AgentNodes in a world. */
  ghost predicate InWorld(env: AgentEnv, w: World) {
    OnPipeline(env) && forall node, ctx, t :: env.exec(node, ctx, t) == Execute(w, node, ctx, t)
  }

  /** With k requests for tools in the log, 2k + 6 steps were executed, and no limit below would have done. */
  ghost predicate NeedsSteps(env: AgentEnv, seed: AgentContext, stepLimit: int) {
    var o := RunOf(env, Classify, seed, stepLimit);
    && |o.log| == 2 * Rounds(o.log) + 6
    && forall l: int :: RunOf(env, Classify, seed, l).error.None? <==> 2 * Rounds(o.log) + 6 <= StepLimit(l)
  }

  /**
   In a world whose model always answers, whatever it answers, a turn completes or is stopped at the
   limit; if it completes with k requests for tools, it does so under all limits of 2k + 6 steps or
   more and no other, so under 64 exactly if k is at most 29.
   */
  lemma WorldCompletesIff(env: AgentEnv, w: World, seed: AgentContext, stepLimit: int)
    requires InWorld(env, w) && forall c :: !env.cancelled(c)
    requires forall req, t :: w.chat(req, t).Ok?
    requires forall req, t :: w.chatStream(req, t).Ok?
    ensures var o := RunOf(env, Classify, seed, stepLimit);
            && (o.error.None? || (o.error == Some(MaxSteps(StepLimit(stepLimit))) && |o.log| == StepLimit(stepLimit)))
            && (o.error.None? ==>
                  && NeedsSteps(env, seed, stepLimit)
                  && (RunOf(env, Classify, seed, 64).error.None? <==> Rounds(o.log) <= 29))
  {
    forall node, ctx, t
      ensures env.exec(node, ctx, t).Ok?
    {
      assert env.exec(node, ctx, t) == Execute(w, node, ctx, t);
    }
    hide Drain;
    DrainUntroubled(env, [Frame(Classify, seed, 0)], 0, StepLimit(stepLimit), Clock(0, 0));
    if RunOf(env, Classify, seed, stepLimit).error.None? {
      forall l: int
        ensures RunOf(env, Classify, seed, l).error.None? <==>
                2 * Rounds(RunOf(env, Classify, seed, stepLimit).log) + 6 <= StepLimit(l)
      {
        CompletesIff(env, seed, l, stepLimit);
      }
      CompletesIff(env, seed, stepLimit, stepLimit);
    }
  }

  /** The last message is an answer of the model that asks for no tools. */
  predicate EndsWithAnswer(h: Messages) { h != [] && h[|h| - 1].role == Assistant && h[|h| - 1].toolCalls == [] }

  /** What a node may rely on about the history it is given. */
  predicate Ready(node: Node, h: Messages) {
    match node
    case ToolLoop => Open(h)
    case Summarize => WellPaired(h) && EndsWithAnswer(h)
    case _ => WellPaired(h)
  }

  lemma AnswerPaired(m: Message)
    requires m.role == Assistant && m.toolCalls == []
    ensures WellPaired([m])
  {
    assert [m][1..1] == [] && [m][1..] == [];
  }

  /** Every node hands the next one a history it may rely on; the last leaves a well-paired one. */
  lemma NodeKeepsPairs(w: World, node: Node, ctx: AgentContext, t: nat)
    requires Ready(node, ctx.history) && Execute(w, node, ctx, t).Ok?
    ensures var out := Execute(w, node, ctx, t).value;
            && |NextOf(node, out)| <= 1
            && (forall j | 0 <= j < |NextOf(node, out)| :: Ready(NextOf(node, out)[j], out.history))
            && (node == Summarize ==>
                  WellPaired(out.history) && EndsWithAnswer(out.history)
                  && out.history[|out.history| - 1] == ctx.history[|ctx.history| - 1])
  {
    hide WellPaired, Enriched, Results;
    var out := Execute(w, node, ctx, t).value;
    match node
    case Enrich => EnrichKeepsPairs(ctx.history, ctx.input, w.contextBlock(t));
    case Llm =>
      var m := out.history[|out.history| - 1];
      assert out.history[..|out.history| - 1] == ctx.history;
      if m.toolCalls == [] {
        AnswerPaired(m);
        PairedAppend(ctx.history, [m]);
      }
    case ToolLoop =>
      var calls := LastToolCalls(ctx.history);
      ResultsClose(ctx.history, seq(|calls|, i requires 0 <= i < |calls| => ExecuteTool(w, calls[i], t, i)));
    case Summarize =>
      if out != ctx {
        CompactKeepsPairs(ctx.history, SUMMARY_PREFIX + "\n\n" + w.chat(SummaryRequest(ctx), t).value.content);
      }
    case _ =>
  }

  function SummaryRequest(ctx: AgentContext): ChatRequest {
    ChatRequest(ctx.settings.model, ctx.history + [Message(User, SUMMARY_PROMPT, "", "", [])], [], ctx.systemPrompt,
        ctx.settings.maxTokens)
  }

  lemma {:induction false} DrainKeepsPairs(
    env: AgentEnv, w: World, queue: seq<Frame<Node, AgentContext>>, step: nat, limit: nat, clock: Clock)
    requires InWorld(env, w) && step <= limit && |queue| <= 1
    requires queue != [] ==> Ready(queue[0].node, queue[0].input.history)
    ensures var log := Drain(env, queue, step, limit, clock).log;
            var tries := Attempted(env, queue, step, limit, clock);
            && (forall j | 0 <= j < |tries| :: Ready(tries[j].node, tries[j].input.history))
            && (forall j | 0 <= j < |log| :: log[j].frame.node == Summarize ==>
                  WellPaired(log[j].out.history) && EndsWithAnswer(log[j].out.history))
    decreases limit - step
  {
    hide Try, Successors, Ready, WellPaired, EndsWithAnswer, Execute, NextOf, Drain, Attempted;
    AttemptedStep(env, queue, step, limit, clock);
    if queue == [] {
      DrainEmpty(env, step, limit, clock);
    } else {
      DrainStep(env, queue, step, limit, clock);
      var c1 := clock.(checks := clock.checks + 1);
      if !env.cancelled(clock.checks) && step < limit {
        var f := queue[0];
        var tried := Try(env, f.node, f.input, 1, c1);
        if tried.result.Ok? {
          var out := tried.result.value;
          var k := RetryExactly(env, f.node, f.input, c1);
          NodeKeepsPairs(w, f.node, f.input, c1.attempts + k);
          var next := queue[1..] + Follow(NextOf(f.node, out), out, f.depth + 1);
          assert queue[1..] == [];
          DrainKeepsPairs(env, w, next, step + 1, limit, tried.clock);
        }
      }
    }
  }

  /** The frames that a turn tried its nodes on: those of the log, and the one at which a node stopped it. */
  function TriedFrames(env: AgentEnv, seed: AgentContext, stepLimit: int): seq<Frame<Node, AgentContext>> {
    Attempted(env, [Frame(Classify, seed, 0)], 0, StepLimit(stepLimit), Clock(0, 0))
  }

  /**
   A turn keeps the pairing, whatever the model, the tools and the context do: started on a well-paired
   history, a turn that ends without error leaves a well-paired one that ends with an answer, and every
   request to the model,
   failed ones included, was cut (with `ContextSize` applied) from a well-paired one.
   */
  lemma TurnKeepsPairs(env: AgentEnv, w: World, seed: AgentContext, stepLimit: int)
    requires InWorld(env, w) && WellPaired(seed.history)
    ensures var o := RunOf(env, Classify, seed, stepLimit);
            var tries := TriedFrames(env, seed, stepLimit);
            && (o.error.None? ==> o.log != [] && WellPaired(o.log[|o.log| - 1].out.history)
                                  && EndsWithAnswer(o.log[|o.log| - 1].out.history))
            && (forall j | 0 <= j < |tries| && tries[j].node == Llm :: WellPaired(tries[j].input.history))
            && |tries| == |o.log| + (if o.error.Some? && o.error.value.NodeStopped? then 1 else 0)
            && (forall j | 0 <= j < |o.log| :: tries[j] == o.log[j].frame)
            && (o.error.Some? && o.error.value.NodeStopped? ==> tries[|o.log|].node == o.error.value.node)
  {
    hide Drain, Attempted, WellPaired, EndsWithAnswer;
    var queue := [Frame(Classify, seed, 0)];
    DrainKeepsPairs(env, w, queue, 0, StepLimit(stepLimit), Clock(0, 0));
    DrainOrder(env, queue, 0, StepLimit(stepLimit), Clock(0, 0));
    AttemptedLog(env, queue, 0, StepLimit(stepLimit), Clock(0, 0));
    var o := RunOf(env, Classify, seed, stepLimit);
    assert o == Drain(env, queue, 0, StepLimit(stepLimit), Clock(0, 0));
    var tries := TriedFrames(env, seed, stepLimit);
    forall j | 0 <= j < |tries| && tries[j].node == Llm
      ensures WellPaired(tries[j].input.history)
    {
      assert Ready(tries[j].node, tries[j].input.history);
    }
  }
}

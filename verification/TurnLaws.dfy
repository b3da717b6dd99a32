/** What each frame of a turn leaves and what is shown in the end, without the functions that model the nodes. */
module TurnLaws {
  import opened Wrappers
  import opened Text
  import opened Providers
  import opened History
  import opened GraphRunner
  import opened AgentNodes
  import opened AgentPipeline
  import opened Sessions

  type AgentEntry = Entry<Node, AgentContext>

  /**
   The request carries the last messages, as many as the context size if that is positive, the tools and
   the prompt.
   */
  predicate Asks(req: ChatRequest, ctx: AgentContext) {
    var h, m, size := ctx.history, req.messages, ctx.settings.contextSize;
    && |m| == (if 0 < size < |h| then size else |h|)
    && m == h[|h| - |m|..]
    && req.model == ctx.settings.model && req.maxTokens == ctx.settings.maxTokens
    && req.tools == ctx.activeTools && req.systemPrompt == ctx.systemPrompt
  }

  /** What the model answered, at some time, to a request for the context. */
  ghost predicate ModelGave(w: World, ctx: AgentContext, resp: ChatResponse) {
    exists req: ChatRequest, t: nat :: Asks(req, ctx) && w.chatStream(req, t) == Ok(resp)
  }

  /** The output is the input with some messages behind its history. */
  predicate Appends(e: AgentEntry, msgs: Messages) {
    && e.out.history == e.frame.input.history + msgs
    && e.out == e.frame.input.(history := e.out.history)
  }

  /** The model's answer becomes one assistant message. */
  ghost predicate LlmLaw(w: World, e: AgentEntry, resp: ChatResponse) {
    && ModelGave(w, e.frame.input, resp)
    && Appends(e, [Message(Assistant, resp.content, "", "", resp.toolCalls)])
  }

  /** The calls of the last assistant message. */
  ghost predicate LastCalls(h: Messages, calls: seq<ToolCall>) {
    || (exists i | 0 <= i < |h| ::
          h[i].role == Assistant && h[i].toolCalls == calls && forall j | i < j < |h| :: h[j].role != Assistant)
    || (calls == [] && forall j | 0 <= j < |h| :: h[j].role != Assistant)
  }

  /** The name reads "server.tool". */
  predicate Names(name: string, server: string, tool: string) {
    server != "" && tool != "" && '.' !in server && name == server + "." + tool
  }

  /** What a call, the k-th of its message, returns: a tool of the agent's own goes first, then a server's. */
  ghost predicate Returns(w: World, call: ToolCall, t: nat, k: nat, text: string) {
    if w.isLocal(call.name) then text == w.runLocal(call, t, k)
    else if exists server, tool :: Names(call.name, server, tool) && w.isServer(server) then
      (exists server, tool ::
        Names(call.name, server, tool) && w.isServer(server) && text == w.runRemote(server, tool, call, t, k))
    else text == "no such tool: " + call.name
  }

  /** Each call gets one tool message with its id, its name and what it returned. */
  ghost predicate ToolLoopLaw(w: World, e: AgentEntry, calls: seq<ToolCall>, results: Messages, t: nat) {
    && LastCalls(e.frame.input.history, calls)
    && Appends(e, results) && |results| == |calls|
    && forall k | 0 <= k < |calls| ::
         && results[k] == Message(Tool, results[k].content, calls[k].id, calls[k].name, [])
         && Returns(w, calls[k], t, k, results[k].content)
  }

  /** Old context blocks go; with an input, a new one and the input come. */
  ghost predicate EnrichLaw(w: World, e: AgentEntry, t: nat) {
    var input := e.frame.input;
    && e.out == input.(history := e.out.history)
    && e.out.history == Unmarked(input.history)
        + if input.input == "" then []
          else [Message(User, w.contextBlock(t), "", "", []), Message(User, input.input, "", "", [])]
  }

  /** The history and the instruction to summarize, without tools. */
  predicate AsksSummary(req: ChatRequest, ctx: AgentContext) {
    && req.messages == ctx.history + [Message(User, SUMMARY_PROMPT, "", "", [])]
    && req.model == ctx.settings.model && req.maxTokens == ctx.settings.maxTokens
    && req.tools == [] && req.systemPrompt == ctx.systemPrompt
  }

  /** From four fifths of the context size on, the dump and the last message are left; else everything. */
  ghost predicate SummarizeLaw(w: World, e: AgentEntry) {
    var ctx := e.frame.input;
    var h, size := ctx.history, ctx.settings.contextSize;
    if 0 < size && 4 * size <= 5 * (EstimateTokens(ctx.systemPrompt) + Total(h)) then
      exists req: ChatRequest, t: nat, resp :: AsksSummary(req, ctx) && w.chat(req, t) == Ok(resp) && Dumped(e, resp)
    else e.out == ctx
  }

  predicate Dumped(e: AgentEntry, resp: ChatResponse) {
    var h := e.frame.input.history;
    && e.out == e.frame.input.(history := e.out.history)
    && e.out.history ==
        [Message(Assistant,
          "Previous session was compacted. Resume from this memory dump:" + "\n\n" + resp.content, "", "", [])]
        + if h == [] then [] else [h[|h| - 1]]
  }

  /** What each executed frame leaves. */
  ghost predicate NodeLaw(w: World, e: AgentEntry) {
    var input := e.frame.input;
    match e.frame.node
    case Classify => e.out == input.(activeTools := w.localTools)
    case Mcp => exists t: nat :: e.out == input.(activeTools := input.activeTools + w.mcpTools(t))
    case Skills => exists t: nat :: SkillsLaw(w, e, t)
    case Enrich => exists t: nat :: EnrichLaw(w, e, t)
    case Llm => exists resp :: LlmLaw(w, e, resp)
    case ToolLoop => exists calls, results, t: nat :: ToolLoopLaw(w, e, calls, results, t)
    case Summarize => SummarizeLaw(w, e)
  }

  ghost predicate SkillsLaw(w: World, e: AgentEntry, t: nat) {
    var s := w.skills(e.frame.input, t);
    e.out == e.frame.input.(systemPrompt := s.systemPrompt, activeTools := s.activeTools,
        activeSkillIDs := s.activeSkillIDs)
  }

  // ---- the nodes obey ----

  lemma WindowAsks(ctx: AgentContext)
    ensures Asks(BuildChatRequest(ctx), ctx)
  {
  }

  lemma LlmObeys(w: World, e: AgentEntry, t: nat)
    requires LlmStep(w, e.frame.input, t) == Ok(e.out)
    ensures exists resp :: LlmLaw(w, e, resp)
  {
    var req := BuildChatRequest(e.frame.input);
    WindowAsks(e.frame.input);
    hide Asks, BuildChatRequest;
    var resp := w.chatStream(req, t).value;
    assert ModelGave(w, e.frame.input, resp);
    assert LlmLaw(w, e, resp);
  }

  lemma {:induction false} LastCallsExactly(h: Messages)
    ensures LastCalls(h, LastToolCalls(h))
    decreases |h|
  {
    if h != [] && h[|h| - 1].role != Assistant {
      var n := |h| - 1;
      LastCallsExactly(h[..n]);
      if i :|
        && 0 <= i < n && h[..n][i].role == Assistant && h[..n][i].toolCalls == LastToolCalls(h)
        && forall j | i < j < n :: h[..n][j].role != Assistant
      {
        assert h[i] == h[..n][i];
        forall j | i < j < |h|
          ensures h[j].role != Assistant
        {
          if j < n { assert h[j] == h[..n][j]; }
        }
      } else {
        forall j | 0 <= j < |h|
          ensures h[j].role != Assistant
        {
          if j < n { assert h[j] == h[..n][j]; }
        }
      }
    }
  }

  /** A name that reads "server.tool" is split there, and no other name is split. */
  lemma SplitNames(name: string)
    ensures match SplitMcpToolName(name)
            case Some((server, tool)) => Names(name, server, tool)
            case None => forall server, tool :: !Names(name, server, tool)
    ensures forall server, tool | Names(name, server, tool) :: SplitMcpToolName(name) == Some((server, tool))
  {
    var idx := IndexOf(name, '.');
    if 0 < idx < |name| - 1 {
      assert name == name[..idx] + "." + name[idx + 1..];
    }
    forall server, tool | Names(name, server, tool)
      ensures SplitMcpToolName(name) == Some((server, tool))
    {
      assert name == server + ['.'] + tool;
      IndexOfCut(server, '.', tool);
      assert name[..|server|] == server && name[|server| + 1..] == tool;
    }
  }

  lemma ToolReturns(w: World, call: ToolCall, t: nat, k: nat)
    ensures Returns(w, call, t, k, ExecuteTool(w, call, t, k))
  {
    SplitNames(call.name);
    hide Names;
    match SplitMcpToolName(call.name)
    case None =>
    case Some((server, tool)) =>
      assert Names(call.name, server, tool);
      if w.isServer(server) && !w.isLocal(call.name) {
        assert ExecuteTool(w, call, t, k) == w.runRemote(server, tool, call, t, k);
      }
  }

  lemma ToolLoopObeys(w: World, e: AgentEntry, t: nat)
    requires e.out == ToolLoopStep(w, e.frame.input, t)
    ensures exists calls, results, t: nat :: ToolLoopLaw(w, e, calls, results, t)
  {
    var h := e.frame.input.history;
    var calls := LastToolCalls(h);
    LastCallsExactly(h);
    var results: Messages := e.out.history[|h|..];
    forall k | 0 <= k < |calls|
      ensures Returns(w, calls[k], t, k, ExecuteTool(w, calls[k], t, k))
    {
      ToolReturns(w, calls[k], t, k);
    }
    hide LastCalls, Returns, ExecuteTool, LastToolCalls;
    assert h + [] == h;
    assert ToolLoopLaw(w, e, calls, results, t);
  }

  lemma SummarizeObeys(w: World, e: AgentEntry, t: nat)
    requires SummarizeStep(w, e.frame.input, t) == Ok(e.out)
    ensures SummarizeLaw(w, e)
  {
    var ctx := e.frame.input;
    TooBigExactly(ctx.systemPrompt, ctx.history, ctx.settings.contextSize);
    hide EstimateTokens, EstimateAll, Total;
    if TooBig(ctx.systemPrompt, ctx.history, ctx.settings.contextSize) {
      var req := SummaryRequest(ctx);
      var resp := w.chat(req, t).value;
      assert AsksSummary(req, ctx) && w.chat(req, t) == Ok(resp);
      assert Dumped(e, resp);
    }
  }

  lemma NodeObeys(w: World, e: AgentEntry, t: nat)
    requires Execute(w, e.frame.node, e.frame.input, t) == Ok(e.out)
    ensures NodeLaw(w, e)
  {
    hide LlmStep, ToolLoopStep, SummarizeStep, LlmLaw, ToolLoopLaw, SummarizeLaw, Unmarked, StripContext;
    match e.frame.node
    case Llm => LlmObeys(w, e, t);
    case ToolLoop => ToolLoopObeys(w, e, t);
    case Summarize => SummarizeObeys(w, e, t);
    case Enrich =>
      StripExactly(e.frame.input.history);
      assert EnrichLaw(w, e, t);
    case Skills => assert SkillsLaw(w, e, t);
    case Mcp =>
      assert e.out == e.frame.input.(activeTools := e.frame.input.activeTools + w.mcpTools(t));
    case Classify =>
  }

  // ---- the frames of a run ----

  /** Each frame's input is what the one before left, and its node the one that follows there. */
  ghost predicate Chained(log: seq<AgentEntry>) {
    forall j | 0 <= j < |log| - 1 ::
      log[j + 1].frame.input == log[j].out && log[j + 1].frame.node in NextOf(log[j].frame.node, log[j].out)
  }

  lemma ChainedMore(e: AgentEntry, rest: seq<AgentEntry>)
    requires Chained(rest)
    requires rest != [] ==> rest[0].frame.input == e.out && rest[0].frame.node in NextOf(e.frame.node, e.out)
    ensures Chained([e] + rest)
  {
    hide NextOf;
    var log := [e] + rest;
    forall j | 0 <= j < |log| - 1
      ensures log[j + 1].frame.input == log[j].out && log[j + 1].frame.node in NextOf(log[j].frame.node, log[j].out)
    {
      if j > 0 { assert log[j] == rest[j - 1] && log[j + 1] == rest[j]; }
    }
  }

  lemma {:induction false} DrainChained(env: AgentEnv, queue: seq<Frame<Node, AgentContext>>, step: nat, limit: nat,
      clock: Clock)
    requires OnPipeline(env) && step <= limit && |queue| <= 1
    ensures var log := Drain(env, queue, step, limit, clock).log;
            Chained(log) && (log != [] ==> queue != [] && log[0].frame == queue[0])
    decreases limit - step
  {
    hide Try, Successors, NextOf, Drain;
    if queue == [] {
      DrainEmpty(env, step, limit, clock);
    } else {
      DrainStep(env, queue, step, limit, clock);
      if !env.cancelled(clock.checks) && step < limit {
        var f := queue[0];
        var t := Try(env, f.node, f.input, 1, clock.(checks := clock.checks + 1));
        if t.result.Ok? {
          var out := t.result.value;
          var next := queue[1..] + Follow(NextOf(f.node, out), out, f.depth + 1);
          OneNext(f.node, out);
          assert queue[1..] == [];
          DrainChained(env, next, step + 1, limit, t.clock);
          hide Chained, OnPipeline;
          ChainedMore(Entry(step + 1, f, out), Drain(env, next, step + 1, limit, t.clock).log);
        }
      }
    }
  }

  lemma OneNext(node: Node, out: AgentContext)
    ensures |NextOf(node, out)| <= 1
  {
  }

  /** The last message, if there is one. */
  function LastOf(ctx: AgentContext): Message {
    if ctx.history == [] then Message(System, "", "", "", []) else ctx.history[|ctx.history| - 1]
  }

  /** After the model's answer the tools run exactly if it asks for some. */
  lemma AfterLlm(w: World, e: AgentEntry, next: Node)
    requires e.frame.node == Llm && NodeLaw(w, e) && next in NextOf(Llm, e.out)
    ensures next == if LastOf(e.out).toolCalls == [] then Summarize else ToolLoop
  {
    hide ModelGave;
    var resp :| LlmLaw(w, e, resp);
    assert LastOf(e.out) == Message(Assistant, resp.content, "", "", resp.toolCalls);
  }

  /**
   In every run in a world each executed frame obeys its node's law, the first on the seed and each
   other on what the one before it left, in the order of the pipeline.
   */
  lemma FramesObey(env: AgentEnv, w: World, seed: AgentContext, stepLimit: int)
    requires InWorld(env, w)
    ensures var log := RunOf(env, Classify, seed, stepLimit).log;
            && (forall j | 0 <= j < |log| :: NodeLaw(w, log[j]))
            && (log != [] ==> log[0].frame.input == seed)
            && (forall j | 0 <= j < |log| - 1 ::
                  && log[j + 1].frame.input == log[j].out
                  && (log[j].frame.node == Llm ==>
                        log[j + 1].frame.node == if LastOf(log[j].out).toolCalls == [] then Summarize else ToolLoop))
  {
    hide Drain, NodeLaw;
    var first := Frame(Classify, seed, 0);
    DrainChained(env, [first], 0, StepLimit(stepLimit), Clock(0, 0));
    DrainGave(env, [first], 0, StepLimit(stepLimit), Clock(0, 0));
    var log := RunOf(env, Classify, seed, stepLimit).log;
    forall j | 0 <= j < |log|
      ensures NodeLaw(w, log[j])
    {
      var e := log[j];
      assert e in log && Gave(env, e.frame.node, e.frame.input, e.out);
      var t: nat :| env.exec(e.frame.node, e.frame.input, t) == Ok(e.out);
      NodeObeys(w, e, t);
    }
    forall j | 0 <= j < |log| - 1 && log[j].frame.node == Llm
      ensures log[j + 1].frame.node == if LastOf(log[j].out).toolCalls == [] then Summarize else ToolLoop
    {
      AfterLlm(w, log[j], log[j + 1].frame.node);
    }
  }

  // ---- what is shown ----

  /** A turn completes exactly if its run ends without error, and then the last frame left its history. */
  lemma CompletedExactly(env: AgentEnv, seed: AgentContext)
    requires OnPipeline(env)
    ensures var p, o := AfterRun(env, seed), RunOf(env, Classify, seed, 64);
            && (p.Completed? <==> o.error.None?) && (p.Broken? <==> o.error.Some?)
            && (p.Completed? ==> o.log != [] && p.history == o.log[|o.log| - 1].out.history)
  {
    hide Drain, LastAssistantText;
    DrainOrder(env, [Frame(Classify, seed, 0)], 0, StepLimit(64), Clock(0, 0));
  }

  /**
   The last frame but one of a completed turn is the model's last answer, which asks for no tools; its
   text is the text of the last message that is stored, and, if it is not empty, what is shown.
   */
  lemma ShownIsAnswer(env: AgentEnv, w: World, seed: AgentContext) returns (resp: ChatResponse)
    requires InWorld(env, w) && AfterRun(env, seed).Completed?
    ensures var p, log := AfterRun(env, seed), RunOf(env, Classify, seed, 64).log;
            var n := |log| - 2;
            && n >= 0 && log[n].frame.node == Llm && log[n + 1].frame.node == Summarize
            && LlmLaw(w, log[n], resp) && resp.toolCalls == []
            && p.history != [] && p.history[|p.history| - 1] == Message(Assistant, resp.content, "", "", [])
            && (resp.content != "" ==> p.output == resp.content)
  {
    hide RunOf, AfterRun, LlmLaw, NodeLaw, NextOf, OnPipeline, Execute;
    CompletedExactly(env, seed);
    FramesObey(env, w, seed, 64);
    LastTwo(env, seed, 64);
    LastShown(env, seed);
    var log := RunOf(env, Classify, seed, 64).log;
    resp := Answer(w, log[|log| - 2], log[|log| - 1]);
  }

  lemma Answer(w: World, e: AgentEntry, last: AgentEntry) returns (resp: ChatResponse)
    requires NodeLaw(w, e) && NodeLaw(w, last) && e.frame.node == Llm && last.frame.node == Summarize
    requires last.frame.input == e.out && LastOf(e.out).toolCalls == []
    ensures LlmLaw(w, e, resp) && resp.toolCalls == []
    ensures last.out.history != [] && LastOf(last.out) == Message(Assistant, resp.content, "", "", [])
  {
    hide LlmLaw, LastOf;
    resp :| LlmLaw(w, e, resp);
    AnswerLast(w, e, last, resp);
  }

  lemma LastTwo(env: AgentEnv, seed: AgentContext, stepLimit: int)
    requires OnPipeline(env) && RunOf(env, Classify, seed, stepLimit).error.None?
    ensures var log := RunOf(env, Classify, seed, stepLimit).log;
            |log| >= 2 && log[|log| - 2].frame.node == Llm && log[|log| - 1].frame.node == Summarize
  {
    var log := RunOf(env, Classify, seed, stepLimit).log;
    var k := RunFollowsPath(env, seed, stepLimit);
    hide RunOf;
    var n := |log| - 1;
    assert |Nodes(log)| == 2 * k + 6;
    assert Nodes(log)[n] == PathAt(k, n) && Nodes(log)[n - 1] == PathAt(k, n - 1);
  }

  /** Summarizing leaves the last message as it is. */
  lemma AnswerLast(w: World, e: AgentEntry, last: AgentEntry, resp: ChatResponse)
    requires LlmLaw(w, e, resp) && SummarizeLaw(w, last) && last.frame.input == e.out
    ensures LastOf(e.out) == LastOf(last.out) == Message(Assistant, resp.content, "", "", resp.toolCalls)
    ensures last.out.history != []
  {
    hide ModelGave, EstimateTokens, Total;
  }

  lemma LastShown(env: AgentEnv, seed: AgentContext)
    ensures var p := AfterRun(env, seed);
            (p.Completed? && p.history != [] && p.history[|p.history| - 1].role == Assistant
             && p.history[|p.history| - 1].content != "") ==>
              p.output == p.history[|p.history| - 1].content
  {
    hide RunOf;
  }
}

/**
 The agent's nodes and the graph they form (pkg/agent/context.go, pkg/agent/nodes). What lies
 outside the process is a World: the model, the tools, the clock, the MCP servers and the skills
 subsystem answer arbitrarily, and differently at different times.
 */
module AgentNodes {
  import opened Wrappers
  import opened Providers
  import opened Text
  import opened History
  import opened GraphRunner

  datatype ToolDefinition = ToolDefinition(name: string, description: string)

  datatype Settings = Settings(model: string, maxTokens: int, contextSize: int)

  datatype AgentContext = AgentContext(
    input: string,
    history: Messages,
    activeTools: seq<ToolDefinition>,
    systemPrompt: string,
    settings: Settings,
    activeSkillIDs: seq<string>)

  datatype ChatRequest = ChatRequest(model: string, messages: Messages, tools: seq<ToolDefinition>,
      systemPrompt: string, maxTokens: int)

  datatype Skilled = Skilled(systemPrompt: string, activeTools: seq<ToolDefinition>, activeSkillIDs: seq<string>)

  /** Everything the nodes ask for; the numbers are the time of the question and the place among a message's calls. */
  datatype World = World(
    localTools: seq<ToolDefinition>,
    mcpTools: nat -> seq<ToolDefinition>,
    skills: (AgentContext, nat) -> Skilled,
    contextBlock: nat -> string,
    chatStream: (ChatRequest, nat) -> Result<ChatResponse, string>,
    chat: (ChatRequest, nat) -> Result<ChatResponse, string>,
    isLocal: string -> bool,
    isServer: string -> bool,
    runLocal: (ToolCall, nat, nat) -> string,
    runRemote: (string, string, ToolCall, nat, nat) -> string)

  function WithHistory(ctx: AgentContext, msgs: Messages): AgentContext { ctx.(history := ctx.history + msgs) }

  // ---- tool dispatch ----

  function McpToolName(server: string, tool: string): string { server + "." + tool }

  function SplitMcpToolName(name: string): Option<(string, string)> {
    var idx := IndexOf(name, '.');
    if idx <= 0 || idx == |name| - 1 then None else Some((name[..idx], name[idx + 1..]))
  }

  datatype Dispatch = Local | Remote(server: string, tool: string) | Unknown

  /** Local tools first, then a "server.tool" name of a known server. */
  function DispatchOf(w: World, name: string): Dispatch {
    if w.isLocal(name) then Local
    else
      match SplitMcpToolName(name)
      case None => Unknown
      case Some((server, tool)) => if w.isServer(server) then Remote(server, tool) else Unknown
  }

  /** An advertised MCP tool is routed back to its server and tool exactly under these conditions. */
  lemma {:induction false} RoutedBack(w: World, server: string, tool: string)
    ensures DispatchOf(w, McpToolName(server, tool)) == Remote(server, tool) <==>
            && !w.isLocal(McpToolName(server, tool)) && w.isServer(server)
            && server != "" && tool != "" && '.' !in server
  {
    var name := McpToolName(server, tool);
    var idx := IndexOf(name, '.');
    assert name[|server|] == '.';
    assert name[..|server|] == server && name[|server| + 1..] == tool;
    if 0 <= idx < |server| {
      assert server[idx] == name[idx];
      assert '.' in server && |name[..idx]| < |server|;
    }
    if '.' in server {
      var i :| 0 <= i < |server| && server[i] == '.';
      assert name[i] == '.';
    }
  }

  function ExecuteTool(w: World, call: ToolCall, t: nat, i: nat): string {
    match DispatchOf(w, call.name)
    case Local => w.runLocal(call, t, i)
    case Remote(server, tool) => w.runRemote(server, tool, call, t, i)
    case Unknown => "no such tool: " + call.name
  }

  // ---- the nodes ----

  datatype Node = Classify | Mcp | Skills | Enrich | Llm | ToolLoop | Summarize

  const SUMMARY_PREFIX := "Previous session was compacted. Resume from this memory dump:"

  /** The first sentence of the instruction to summarize; nothing depends on the rest. */
  const SUMMARY_PROMPT := "You are the memory-management module for an autonomous AI agent."

  function BuildChatRequest(ctx: AgentContext): ChatRequest {
    ChatRequest(ctx.settings.model, Window(ctx.history, ctx.settings.contextSize), ctx.activeTools, ctx.systemPrompt,
        ctx.settings.maxTokens)
  }

  function LlmStep(w: World, ctx: AgentContext, t: nat): Result<AgentContext, string> {
    match w.chatStream(BuildChatRequest(ctx), t)
    case Err(e) => Err(e)
    case Ok(resp) => Ok(WithHistory(ctx, [Message(Assistant, resp.content, "", "", resp.toolCalls)]))
  }

  function ToolLoopStep(w: World, ctx: AgentContext, t: nat): AgentContext {
    var calls := LastToolCalls(ctx.history);
    if calls == [] then ctx
    else WithHistory(ctx, Results(calls, seq(|calls|, i requires 0 <= i < |calls| => ExecuteTool(w, calls[i], t, i))))
  }

  method RunToolLoop(w: World, ctx: AgentContext, t: nat) returns (out: AgentContext)
    ensures out == ToolLoopStep(w, ctx, t)
  {
    var calls := FindLastToolCalls(ctx.history);
    if calls == [] { return ctx; }
    ghost var contents := seq(|calls|, i requires 0 <= i < |calls| => ExecuteTool(w, calls[i], t, i));
    var results: Messages := [];
    for i := 0 to |calls|
      invariant results == Results(calls, contents)[..i]
    {
      results := results + [Message(Tool, ExecuteTool(w, calls[i], t, i), calls[i].id, calls[i].name, [])];
    }
    out := WithHistory(ctx, results);
  }

  function SummarizeStep(w: World, ctx: AgentContext, t: nat): Result<AgentContext, string> {
    if !TooBig(ctx.systemPrompt, ctx.history, ctx.settings.contextSize) then Ok(ctx)
    else
      var conversation := ctx.history + [Message(User, SUMMARY_PROMPT, "", "", [])];
      match w.chat(ChatRequest(ctx.settings.model, conversation, [], ctx.systemPrompt, ctx.settings.maxTokens), t)
      case Err(e) => Err(e)
      case Ok(resp) => Ok(ctx.(history := Compacted(ctx.history, SUMMARY_PREFIX + "\n\n" + resp.content)))
  }

  /** What each node makes of a context. */
  function Execute(w: World, node: Node, ctx: AgentContext, t: nat): Result<AgentContext, string> {
    match node
    case Classify => Ok(ctx.(activeTools := w.localTools))
    case Mcp => Ok(ctx.(activeTools := ctx.activeTools + w.mcpTools(t)))
    case Skills =>
      var s := w.skills(ctx, t);
      Ok(ctx.(systemPrompt := s.systemPrompt, activeTools := s.activeTools, activeSkillIDs := s.activeSkillIDs))
    case Enrich => Ok(ctx.(history := Enriched(ctx.history, ctx.input, w.contextBlock(t))))
    case Llm => LlmStep(w, ctx, t)
    case ToolLoop => Ok(ToolLoopStep(w, ctx, t))
    case Summarize => SummarizeStep(w, ctx, t)
  }

  // ---- the graph ----

  predicate HasPendingToolCalls(ctx: AgentContext) {
    && ctx.history != []
    && ctx.history[|ctx.history| - 1].role == Assistant
    && ctx.history[|ctx.history| - 1].toolCalls != []
  }

  /** BuildGraph: the nodes and their edges; the run starts at Classify. */
  method BuildGraph() returns (def: Definition<Node, AgentContext>, start: Node)
    ensures fresh(def) && start == Classify
    ensures forall node, out :: Successors(def.edges, node, out) == NextOf(node, out)
  {
    def := new Definition();
    def.AddEdge(Classify, Mcp);
    def.AddEdge(Mcp, Skills);
    def.AddEdge(Skills, Enrich);
    def.AddEdge(Enrich, Llm);
    var pending := (out: AgentContext) => HasPendingToolCalls(out);
    var settled := (out: AgentContext) => !HasPendingToolCalls(out);
    def.AddConditionalEdge(Llm, pending, ToolLoop);
    def.AddConditionalEdge(Llm, settled, Summarize);
    def.AddEdge(ToolLoop, Llm);
    start := Classify;
    assert EdgesFrom(def.edges, Llm) == [Edge(Some(pending), ToolLoop), Edge(Some(settled), Summarize)];
    forall node: Node, out: AgentContext
      ensures Successors(def.edges, node, out) == NextOf(node, out)
    {
      match node
      case Llm => TwoTargets(Edge(Some(pending), ToolLoop), Edge(Some(settled), Summarize), out);
      case Classify => OneTarget(Mcp, out);
      case Mcp => OneTarget(Skills, out);
      case Skills => OneTarget(Enrich, out);
      case Enrich => OneTarget(Llm, out);
      case ToolLoop => OneTarget(Llm, out);
      case Summarize =>
    }
  }

  lemma OneTarget(to: Node, out: AgentContext)
    ensures Targets([Edge(None, to)], out) == [to]
  {
    assert [Edge<Node, AgentContext>.Edge(None, to)][..0] == [];
  }

  lemma TwoTargets(e1: Edge<Node, AgentContext>, e2: Edge<Node, AgentContext>, out: AgentContext)
    requires Taken(e1, out) != Taken(e2, out)
    ensures Targets([e1, e2], out) == [if Taken(e1, out) then e1.to else e2.to]
  {
    assert [e1, e2][..1] == [e1] && [e1][..0] == [];
    assert Targets([e1], out) == if Taken(e1, out) then [e1.to] else [];
  }

  /** The one node that follows, or none. */
  function NextOf(node: Node, out: AgentContext): seq<Node> {
    match node
    case Classify => [Mcp]
    case Mcp => [Skills]
    case Skills => [Enrich]
    case Enrich => [Llm]
    case Llm => if HasPendingToolCalls(out) then [ToolLoop] else [Summarize]
    case ToolLoop => [Llm]
    case Summarize => []
  }
}

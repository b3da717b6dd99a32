# Verification of the souz-go agent

A model in Dafny of the algorithmic parts of souz-go, a single-process LLM agent, with proofs of what
these parts are for. `dafny verify dfyconfig.toml` checks everything.

Code that changes things in place is modelled by classes and by methods with loops; what such a method
computes is a function of its inputs or of the old state, and the theorems are about that function.
Concurrent code is a state machine whose steps are the atomic pieces between which other goroutines
may run; a class beside it performs the same steps on fields.

| files | component |
|---|---|
| `CalcSyntax`, `CalcGrammar`, `CalcComment`, `CalcMeaning`, `CalcEval`, `CalcPrinter` | the calculator's fused parser and evaluator, its grammar and the one its comment states, what a text means, and a printer |
| `McpProtocol`, `McpClient` | request/response correlation of the MCP client (JSON-RPC 2.0, section 5, "Response object") |
| `Interleave`, `StreamLines`, `OpenAiStream`, `AnthropicStream` | reassembly of streamed answers, from their lines on |
| `GraphRunner`, `AgentNodes`, `AgentPipeline`, `TurnLaws` | the worklist runner, the agent's nodes and graph, and what each frame of a turn leaves |
| `History`, `Sessions`, `StoredTurns`, `LostTurns` | conversation histories, the turns of many chats on the store, what each leaves there, and when one is lost |
| `SseFrames`, `SseStandard`, `SsePrefixes`, `Broadcaster` | the event stream: frames, their reader, the standard's reading (WHATWG HTML, section 9.2.6, "Interpreting an event stream"), and the fan-out |
| `BusProtocol`, `Bus` | the message bus |
| `VerdictCache`, `VerdictLaws`, `VerdictRuns`, `Rejections`, `VerdictTurns`, `Bundle`, `BundleLaws`, `HashSplits`, `Registry`, `RegistryLaws`, `Frontmatter`, `SkillsPrompt` | the life of a skill |
| `Wrappers`, `Text`, `Search`, `Providers` | optional values, strings, messages |

## What was found

Where the code does not do what one would expect, the model follows the code, shows an input, and says
exactly when the expectation holds.

- The grammar in the comment at `pkg/tools/math/math.go:85` allows one sign before a power; the code
  (`math.go:165-178`) allows any number (`CalcComment.TwoSignsAccepted`). The comment's grammar has
  exactly those texts in which no sign, other than a binary operator, is followed by another sign
  (`CalcComment.AcceptedExactly`). `CalcSyntax` has the code's rule.
- A call on the MCP client that registers after the pump ended waits until it is cancelled or the
  client is closed: the pump's exit empties `pending` but does not set `closed`
  (`McpProtocol.StrandedAfterExit`, `StrandedExists`). A call begun with the pump gone waits so exactly
  if the client was not closed and its send succeeds (`McpProtocol.StrandsExactly`; `WithoutPump` is the
  condition while it waits).
- An Anthropic stream whose text blocks overlap gives the text in the order of arrival, not of the
  blocks (`AnthropicStream.OverlapScrambles`). Blocks of one shape, streamed in one order, give the
  blocks' text whatever they say exactly if the text comes in block order
  (`AnthropicStream.ContentExactly`; `TextOrderNeeded` builds a failing stream for any other order), and
  their calls in block order exactly if the tool blocks stop in block order (`CallsExactly`,
  `CallOrderNeeded`). Text and tool input that the start of a block carries are dropped: the content is
  the message's exactly if every text block starts empty, the calls are exactly if the input of every tool
  block comes in deltas or is empty (`StreamingRefines`). The finish reason is that of the assembled
  message exactly if there is no tool call or the stop reason is `tool_use`.
- Compaction keeps tool calls and results paired exactly if the last message is not a tool result and
  asks for no tool (`History.CompactKeepsPairs`); in the pipeline it always is so.
- The text shown for a turn is the model's last answer exactly if that is not empty or nothing was said
  before it; otherwise it is an older text, which after a compaction is the memory dump
  (`Sessions.OutputExactly`).
- Two HTTP turns on one chat never run at once (`Sessions.OneTurnPerChat`), but a turn can be lost,
  because the chat is loaded before the slot is taken (`LostTurns.TurnLost`). A turn's save drops stored
  lines exactly if another turn saved the chat since the turn loaded it (`LostTurns.SaveDropsExactly`);
  with HTTP turns only, that other save falls between load and begin (`OverwrittenBeforeBegin`).
- The reader of event streams delivers a last event that no empty line ends, which the standard
  discards (`SseStandard.UnendedDelivered`); it does not skip a byte order mark (`MarkHides`) and does not
  end lines at a lone carriage return (`LoneReturn`). Where neither occurs and lines fit, it reads a
  block as the standard does exactly if the block has no `data` line without a colon and, when there is
  data, the event types agree: the reader trims all white space around a type where the standard drops
  one space, and does not see an `event` line without a colon (`BlockExactly`). If that holds of all
  complete blocks, the two readings of a text agree exactly if no data line comes after the last empty
  line (`AgreesExactly`); and they agree on every prefix that ends with an empty line exactly if that holds
  of all complete blocks (`SsePrefixes.PrefixesAgreeExactly`).
- Closing the bus panics in some continuation exactly if a publish call stands between its check of
  `done` and its `wg.Add` when `Wait` returns (`BusProtocol.PanicExactly`, `WindowReachable`); a call
  that is in the group before then never sends on a closed channel (`MemberSafe`).
- If a new verdict cannot be saved the skill is activated all the same (`VerdictCache.UnsavedIsActivated`):
  an activated skill has an approved record at the end of the turn exactly if it had one before or a call
  that returned its bundle could save (`VerdictCache.LicensedExactly`).
- Two turns at once can leave two bundles of a skill approved (`Rejections.ConcurrentBothApproved`): a
  save does so exactly if another bundle's approval was saved after the saving call listed the record
  files, and still stands (`VerdictRuns.SaveBreaksExactly`).
- A rejection is final for turns one after the other (`VerdictTurns.RejectedForever`), but not for turns at
  once: a call that looked before the rejection was saved can approve over it and activate the skill
  (`Rejections.ConcurrentRevised`), and `InvalidateOthers` can write a stale record over it, which the next
  call approves (`StaleOverRejection`). It is final exactly if no call is in flight for the record, that is,
  about to save an approval of it or holding an approval of it to write as stale
  (`RejectedForeverExactly`); whoever revises it looked before it was saved (`RevisedByEarlier`).
- A path with a line feed, which `NormalizePath` lets through, makes the hashed encoding ambiguous
  (`Bundle.FeedInPathCollides`). Two bundles are hashed alike exactly if they come to the same files when
  their paths are cut, as often as possible, at a line feed with a digest behind it
  (`HashSplits.HashExactly`). The first of two such bundles to be saved is what loading either finds
  (`Registry.SavedLoads`).
- A skill whose name, version, description or body contains the end marker leaves a rest behind when its
  block is removed (`SkillsPrompt.StripAppend`).

## Model

| member | source | states |
|---|---|---|
| CalcGrammar.ParseAllCorrect | pkg/tools/math/math.go:81-283 | the deterministic parse finds a tree with its leading blanks exactly if the text derives from the grammar as that tree: four levels, left-associative + - * /, right-associative ^, signs, calls, blanks wherever skipSpace runs |
| CalcGrammar.Unambiguous | pkg/tools/math/math.go:81-88 | no text has two derivations |
| CalcComment.CommentExactly | pkg/tools/math/math.go:81-88 | the derivations of the comment's grammar are those of the code's with no sign directly under a sign, that is, of the texts in which no sign but a binary operator is followed by a sign |
| CalcComment.AcceptedExactly | pkg/tools/math/math.go:85-85 | a text has a derivation in the comment's grammar exactly if the code reads it and it has no such double sign |
| CalcComment.TwoSignsAccepted | pkg/tools/math/math.go:165-178 | the code reads "--1", the comment's grammar does not |
| CalcGrammar.BinSound | pkg/tools/math/math.go:106-163 | what the two binary levels read is a well-formed tree of that level whose text is what was consumed |
| CalcGrammar.UnarySound | pkg/tools/math/math.go:165-178 | what is read as a signed power, with any number of signs, is a well-formed tree of that level with the consumed text |
| CalcGrammar.PowerSound | pkg/tools/math/math.go:180-195 | what is read as a power is an atom or an atom raised to a signed power, with the consumed text |
| CalcGrammar.AtomSound | pkg/tools/math/math.go:197-275 | what is read as an atom is a numeral, a call or a parenthesized expression, with the consumed text |
| CalcGrammar.BinComplete | pkg/tools/math/math.go:106-163 | every well-formed tree of a binary level, followed by text that cannot continue it, is what is read there |
| CalcGrammar.UnaryComplete | pkg/tools/math/math.go:165-178 | every well-formed signed power, followed by text that cannot continue it, is what is read there |
| CalcGrammar.PowerComplete | pkg/tools/math/math.go:180-195 | every well-formed power, followed by text that cannot continue it, is what is read there |
| CalcGrammar.AtomComplete | pkg/tools/math/math.go:197-224 | every well-formed atom, followed by text that cannot continue it, is what is read there |
| CalcGrammar.NumberComplete | pkg/tools/math/math.go:226-236 | a numeral is read to its end and accepted |
| CalcGrammar.CallComplete | pkg/tools/math/math.go:238-275 | a function call is read to its closing parenthesis |
| CalcEval.Evaluate | pkg/tools/math/math.go:67-79 | for every input that derives a tree, and every arithmetic: the value of the tree's term, left operand first and function names in lower case, or the first fault of its parts in evaluation order, which are a zero divisor, the root of a negative number, any other name and an unreadable numeral; an error if the text derives no tree |
| CalcMeaning.DenotesTerm | pkg/tools/math/math.go:106-275 | the denotation of an expression is its term's value under an interpretation of terms that is defined apart from the evaluator, or the first fault in evaluation order |
| CalcMeaning.TreeMeans | pkg/tools/math/math.go:106-275 | the same for trees |
| CalcMeaning.MeansOne | pkg/tools/math/math.go:67-79 | a term has one result in an arithmetic |
| CalcMeaning.OwnTerm | pkg/tools/math/math.go:106-275 | over the arithmetic of terms, in which no divisor is zero and nothing is negative, an expression of known functions evaluates to its own term |
| CalcMeaning.Groupings | pkg/tools/math/math.go:81-88 | the terms of "7-2-1", "2^3^2", "-2^2", "1+2*3", "8/4", "SQRT(4)" and three more texts |
| CalcEval.Parser.ParseExpr | pkg/tools/math/math.go:106-132 | the loop over + and - returns the meaning of the tree read at the cursor (the term's value or first fault, by `CalcMeaning.DenotesTerm`) and moves the cursor to its end |
| CalcEval.Parser.ParseTerm | pkg/tools/math/math.go:134-163 | the loop over * and / returns the meaning of the term at the cursor, or the error of its first zero divisor |
| CalcEval.Parser.ParseUnary | pkg/tools/math/math.go:165-178 | the recursion over signs returns the meaning of the signed power at the cursor and ends behind it |
| CalcEval.Parser.ParsePower | pkg/tools/math/math.go:180-195 | returns the meaning of the power at the cursor, right-associative, and ends behind it |
| CalcEval.Parser.ParseAtom | pkg/tools/math/math.go:197-224 | returns the meaning of the atom at the cursor; a success consumes at least one character |
| CalcEval.Parser.ParseNumber | pkg/tools/math/math.go:226-236 | a run of digits and dots, accepted exactly if it is a numeral |
| CalcEval.Parser.ParseFunctionCall | pkg/tools/math/math.go:238-275 | a call: name in lower case, argument, meaning or error |
| CalcPrinter.EvaluatePrinted | pkg/tools/math/math.go:67-79 | printing an expression with the parentheses the four levels need, with blanks anywhere they may stand, then evaluating, gives the value of the expression's own term, or its first fault |
| CalcPrinter.PrintedDerives | pkg/tools/math/math.go:81-97 | every such text derives the expression |
| CalcPrinter.DrawDerives | pkg/tools/math/math.go:81-88 | the printed tree is well-formed and stands for the expression |
| CalcPrinter.DrawMinimal | pkg/tools/math/math.go:81-88 | no tree that stands for the expression has fewer parentheses |
| McpProtocol.StepInv | pkg/mcp/client.go:41-131 | every step of callers, pump and Close keeps the ownership invariant and does not panic |
| McpProtocol.RunInv | pkg/mcp/client.go:41-131 | every run from a state with the invariant keeps it |
| McpProtocol.Safety | pkg/mcp/client.go:41-131 | in every interleaving: a channel is never both in the map and in the pump's hand, a closed one in neither; closed at most once, sent to at most once, the pump's send always possible |
| McpProtocol.Correlated | pkg/mcp/client.go:64-79 | a call that succeeds got the response with its own id, which the pump received at some step of the run while the call's entry was in the map; no response serves two calls |
| McpProtocol.OutcomeExactly | pkg/mcp/client.go:114-127 | over every run, a call that takes from its channel succeeds with a message exactly if that message, of its id, was routed while its entry was in the map, carries no error and decodes; fails with its error exactly if it carries one, with a decode error exactly if it does not decode, and as disconnected exactly if no message was routed to it, that is, nothing was sent on its channel |
| McpProtocol.OutcomeCause | pkg/mcp/client.go:91-130 | every other outcome has exactly one kind of step as its cause: encoding, a closed client, a failed send, a cancelled context |
| McpProtocol.CanSucceed | pkg/mcp/client.go:64-127 | in every state of a run, a waiting call whose response comes next can succeed with it by the pump's route, delivery and end and its own receive |
| McpProtocol.OutcomeFinal | pkg/mcp/client.go:107-131 | a call that returned keeps its outcome |
| McpProtocol.AfterClose | pkg/mcp/client.go:41-50 | after Close's critical section, in every later state, pending is empty and each waiting call can receive at once or after the pump's next step |
| McpProtocol.WithoutPump | pkg/mcp/client.go:82-88 | after the pump's exit a waiting call can go on exactly if it is not in the map |
| McpProtocol.StrandedAfterExit | pkg/mcp/client.go:82-105 | a call registered after the pump's exit waits in every continuation without Close or its cancellation |
| McpProtocol.StrandsExactly | pkg/mcp/client.go:82-105 | a call begun after the pump's exit is left waiting, in any continuation without Close or its cancellation, exactly if the client was not closed and its send succeeded |
| McpProtocol.StrandedExists | pkg/mcp/client.go:82-105 | a run that leads there |
| McpClient.Client.constructor | pkg/mcp/client.go:26-28 | a new client is in the protocol's initial state |
| McpClient.Client.BeginCall | pkg/mcp/client.go:91-98 | the next id is taken; one protocol step |
| McpClient.Client.RegisterCall | pkg/mcp/client.go:99-105 | the channel enters the map unless the client is closed |
| McpClient.Client.ForgetCall | pkg/mcp/client.go:107-112 | a failed send takes the entry out again |
| McpClient.Client.ReceiveCall | pkg/mcp/client.go:114-127 | the caller's select on the channel, as one protocol step; what it returns is settled by `McpProtocol.OutcomeExactly` |
| McpClient.Client.CancelCall | pkg/mcp/client.go:114-130 | its other branch: the context ends, and the entry stays in the map |
| McpClient.Client.RouteResponse | pkg/mcp/client.go:69-74 | the pump takes the channel of a response's id out of the map |
| McpClient.Client.DeliverResponse | pkg/mcp/client.go:76-79 | the pump sends on the channel in its hand and closes it |
| McpClient.Client.CloseClient | pkg/mcp/client.go:41-50 | closes every pending channel once, empties the map, sets the flag |
| McpClient.Client.PumpExit | pkg/mcp/client.go:82-88 | closes every pending channel once and empties the map, leaving the flag as it is |
| McpClient.Client.DrainPending | pkg/mcp/client.go:44-47 | the loop over the map, in any order, closes exactly the pending channels |
| Interleave.UnweaveWeave | pkg/providers/openai_compat/openai_compat.go:332-374 | every sequence is the interleaving of its parts by any schedule: the interleavings that are quantified over leave none out |
| Interleave.TextOrderExact | pkg/providers/anthropic/anthropic.go:343-348 | a schedule joins the pieces of all texts in text order, whatever non-empty pieces they are, exactly if it is sorted |
| OpenAiStream.ToChatResponse | pkg/providers/openai_compat/openai_compat.go:252-273 | the loop over tool calls gives the decoded response |
| OpenAiStream.ReadStream | pkg/providers/openai_compat/openai_compat.go:322-391 | the loop over lines, with its map of accumulators; for lines that carry chunks in "data:" lines, with or without blanks, among any other lines, empty data and "[DONE]": the message that the chunks send, field by field (text in order, calls in the order of first appearance, last finish reason and usage), and onChunk saw every non-empty text |
| OpenAiStream.CarriedChunks | pkg/providers/openai_compat/openai_compat.go:334-350 | the chunks that lines carry, said of the lines alone, are those that the reader takes from them |
| OpenAiStream.SentComesOut | pkg/providers/openai_compat/openai_compat.go:352-391 | chunks that send a message, read front to back, give its response |
| OpenAiStream.StreamingRefines | pkg/providers/openai_compat/openai_compat.go:252-391 | for every split of a message into deltas and every interleaving by index whose first appearances follow call order: the streamed response equals toChatResponse of the whole message, and the onChunk texts join to its content |
| OpenAiStream.CallsByFirst | pkg/providers/openai_compat/openai_compat.go:355-383 | for every interleaving: the calls, in the order of their first appearances |
| OpenAiStream.WeaveIndex | pkg/providers/openai_compat/openai_compat.go:355-369 | interleaving does not disturb the deltas of one index |
| OpenAiStream.SplitCall | pkg/providers/openai_compat/openai_compat.go:286-291 | any split of a call's id, name and arguments assembles to the call, with "{}" for no arguments |
| OpenAiStream.OrderFollows | pkg/providers/openai_compat/openai_compat.go:356-361 | toolOrder is the order of first appearances |
| AnthropicStream.ToChatResponse | pkg/providers/anthropic/anthropic.go:245-265 | the loop over content blocks gives the decoded response |
| AnthropicStream.StreamReader.Flush | pkg/providers/anthropic/anthropic.go:317-329 | joins the data lines, skips empty, "[DONE]" and malformed data, and handles the event |
| AnthropicStream.StreamReader.Handle | pkg/providers/anthropic/anthropic.go:330-370 | the fields after an event are the step function of the fields before |
| AnthropicStream.StreamReader.ReadStream | pkg/providers/anthropic/anthropic.go:306-399 | the loop over lines folds the stream's events, flushing at its end; for lines whose blocks of "data:" lines carry events: the message that the events send, field by field, any tool call making the finish reason tool_use |
| AnthropicStream.FramesRead | pkg/providers/anthropic/anthropic.go:371-392 | the texts that a stream's blocks frame, said of the lines alone, are those that are flushed |
| AnthropicStream.SentComesOut | pkg/providers/anthropic/anthropic.go:330-399 | events that send a message, read front to back, give its response |
| AnthropicStream.StreamingRefines | pkg/providers/anthropic/anthropic.go:245-399 | for every fragmentation and interleaving of blocks whose tool blocks stop in block order and whose text comes in block order: usage and onChunk texts; the content of the assembled message exactly if no text block starts with text, its tool calls exactly if no tool block starts with input that no delta brings; the finish reasons agree exactly if there are no calls or the stop reason is tool_use |
| AnthropicStream.CallsRefine | pkg/providers/anthropic/anthropic.go:335-362 | the calls alone, whatever the order of the text and of the other stops: those of the deltas, and those of the message exactly if its tool input comes in deltas |
| AnthropicStream.CallsExactly | pkg/providers/anthropic/anthropic.go:335-362 | for blocks of some kinds streamed in an order: every such stream gives the calls in block order exactly if the tool blocks stop in block order |
| AnthropicStream.CallOrderNeeded | pkg/providers/anthropic/anthropic.go:335-362 | for every other order of the stops: blocks of those kinds, and a stream of them in that order, whose calls are not in block order |
| AnthropicStream.CallsByStops | pkg/providers/anthropic/anthropic.go:335-362 | for every interleaving: each tool block is emitted once, at its stop, in the order of the stops |
| AnthropicStream.ContentRefines | pkg/providers/anthropic/anthropic.go:335-348 | the content alone, whatever the order of the stops: that of the deltas, and that of the message exactly if no text block starts with text |
| AnthropicStream.ContentExactly | pkg/providers/anthropic/anthropic.go:343-348 | for blocks of a shape streamed in an order: every such stream gives the content of its deltas in block order exactly if the pieces of text come in block order |
| AnthropicStream.TextOrderNeeded | pkg/providers/anthropic/anthropic.go:343-348 | for every other order: blocks of the shape, and a stream of them in that order, whose content is not that of the blocks |
| AnthropicStream.TextIsPieces | pkg/providers/anthropic/anthropic.go:344-348 | the text is the interleaving of the blocks' pieces |
| AnthropicStream.BlocksOnly | pkg/providers/anthropic/anthropic.go:330-370 | events that are not about blocks, anywhere in between, change neither text nor calls |
| AnthropicStream.OverlapScrambles | pkg/providers/anthropic/anthropic.go:344-348 | two overlapping text blocks whose streamed text differs from the assembled one |
| GraphRunner.Definition.AddEdge | pkg/graph/definition.go:24-26 | appends one unconditional edge, and changes no other node's |
| GraphRunner.Definition.AddConditionalEdge | pkg/graph/definition.go:29-31 | appends one guarded edge |
| GraphRunner.Definition.NextNodes | pkg/graph/definition.go:34-42 | the targets of the edges whose condition holds, in order |
| GraphRunner.ExecuteWithRetry | pkg/graph/runner.go:98-114 | the attempt loop: cancellation, success, refusal to retry, last error |
| GraphRunner.RetryExactly | pkg/graph/runner.go:98-114 | whatever the node and the context do: attempts are made until one succeeds, the policy asks for no other, the allowed number (one if none is given) is used up, or the context is found cancelled; every attempt before failed and was asked to be repeated; and the result is the last attempt's |
| GraphRunner.Run | pkg/graph/runner.go:48-96 | the queue loop: executed entries, last output and error of a run |
| GraphRunner.RunBounded | pkg/graph/runner.go:57-114 | never more steps than the limit, nor attempts than limit times MaxAttempts |
| GraphRunner.RunIsBreadthFirst | pkg/graph/runner.go:57-96 | whatever the nodes and the context do, the executed frames are the start and then, step after step, one frame for each edge whose condition the step's output meets, in the order of the edges and with that output as input; a run ends without error exactly if nothing due is left, with ErrMaxSteps after exactly limit steps (64 if none is given), with a node's error at the frame that is next; every output is what its node gave |
| GraphRunner.FollowIsDue | pkg/graph/definition.go:34-42 | a step's successors, as frames, are the targets of the edges taken, front to back |
| GraphRunner.RunIsLevelOrder | pkg/graph/runner.go:64-96 | with nodes that do not fail and no cancellation, for any graph: the executed frames are the first of level 0, level 1 and so on, cut at the limit; ErrMaxSteps exactly if more frames exist |
| GraphRunner.DepthIsLevel | pkg/graph/runner.go:90-92 | the depth of every frame of a level is the level's number |
| GraphRunner.DrainTrace | pkg/graph/runner.go:68-93 | the loop executes the first frames of the queue's trace |
| GraphRunner.DrainLimits | pkg/graph/runner.go:68-75 | a run that ends without error ends the same under every limit not below its length, and under a smaller one is cut there with ErrMaxSteps, whatever the graph and the failures |
| AgentNodes.BuildGraph | pkg/agent/nodes/graph.go:31-68 | the edges built step by step give each node the one successor, or none, that the pipeline prescribes |
| AgentNodes.RoutedBack | pkg/agent/nodes/toolloop.go:62-115 | an advertised "server.tool" is dispatched to that server and tool exactly if no local tool has the name, the server is known, neither part is empty and the server has no dot |
| AgentNodes.RunToolLoop | pkg/agent/nodes/toolloop.go:28-51 | the loop appends one result for each call of the last assistant message, with its id and name |
| AgentPipeline.RunFollowsPath | pkg/agent/nodes/graph.go:45-54 | every run executes, one frame at a time, a prefix of classify, mcp, skills, enrich, llm, (toolloop, llm)^k, summarize; without error all of it |
| AgentPipeline.CompletesIff | pkg/graph/runner.go:68-95 | a turn that completes under some limit, k of its model answers asking for tools, takes 2k + 6 steps, completes under another limit exactly if that allows them, and otherwise is the same turn cut there with ErrMaxSteps; retries do not matter |
| AgentPipeline.WorldCompletesIff | cmd/souz-agent/main.go:101-102 | with the agent's own nodes and a model that always answers, whatever it answers: a turn completes or takes limit steps, and if it completes with k rounds of tools, exactly the limits of 2k + 6 and more allow it, so 64 exactly if k <= 29 |
| AgentPipeline.NodeKeepsPairs | pkg/agent/nodes/graph.go:45-54 | every node, whatever the world answers, hands its successor a history whose calls and results are paired as the successor may rely on |
| AgentPipeline.TurnKeepsPairs | pkg/agent/executor.go:49-68 | a turn on a well-paired history ends in one whose last message is an answer without tool calls, and every frame on which the model was tried, the one at which the turn failed included, holds one |
| TurnLaws.FramesObey | pkg/agent/nodes/llm.go:18-53 | in every run in a world: each executed llm frame leaves its input history with one assistant message more, of content and calls that the model gave at some time for a request with the last ContextSize messages of that history and the frame's model, tools, prompt and token limit; each toolloop frame one result for each call of the last assistant message, in order, with what the tool of that name, local or of that server, returned; enrich, summarize, classify, mcp and skills frames what `NodeLaw` says; each frame starts from what the one before left, the first from the seed; tools follow an answer exactly if it asks for some |
| TurnLaws.ToolReturns | pkg/agent/nodes/toolloop.go:62-115 | a call is run by the local tool of its name, else by tool t of server s if the name reads "s.t" for a known s without dots, else answered with "no such tool" |
| TurnLaws.CompletedExactly | pkg/agent/executor.go:49-68 | a turn completes exactly if its run has no error, with the history of its last frame |
| TurnLaws.ShownIsAnswer | pkg/agent/executor.go:49-82 | a completed turn ends with an llm frame, whose answer asks for no tools, and a summarize frame; that answer is the last message stored, and its text, if not empty, is what is shown |
| History.PairedExactly | pkg/agent/nodes/toolloop.go:40-49 | a history is cut into closed groups exactly if every assistant message with n calls is followed by its n results, in order with the same ids and names, and no other tool message occurs |
| History.FindLastToolCalls | pkg/agent/nodes/toolloop.go:53-60 | the backward loop finds the calls of the last assistant message |
| History.ResultsClose | pkg/agent/nodes/toolloop.go:40-49 | appending the results pairs an open history |
| History.StripContextMessages | pkg/agent/nodes/enrich.go:39-48 | the loop drops exactly the user messages with a context marker |
| History.StripExactly | pkg/agent/nodes/enrich.go:39-48 | what is left are, front to back, the messages that are not the user's with "<context>" in them |
| History.StripKeepsPairs | pkg/agent/nodes/enrich.go:39-48 | dropping them keeps the pairing |
| History.EnrichKeepsPairs | pkg/agent/nodes/enrich.go:27-36 | so does the enrich node |
| History.WindowPairs | pkg/agent/nodes/llm.go:39-43 | the messages sent are the suffix of length min(len, ContextSize); the only results in it without their assistant message are its leading run of tool messages |
| History.CutInGroup | pkg/agent/nodes/llm.go:39-43 | wherever a well-paired history is cut, the rest is well-paired behind its leading tool messages, and these answer a call before the cut |
| History.HistoryIsTooBig | pkg/agent/nodes/summarize.go:65-78 | the loop's estimate reaches four fifths of the context size |
| History.TooBigExactly | pkg/agent/nodes/summarize.go:65-74 | too big exactly if there is a context size and five times the tokens of prompt and messages reach four times it |
| History.TokensExactly | pkg/agent/nodes/summarize.go:76-78 | the estimate is the smallest number of four-byte tokens that the UTF-8 encoding fits into |
| History.CompactKeepsPairs | pkg/agent/nodes/summarize.go:50-60 | the compacted history is well-paired exactly if the last message is no tool result and has no calls |
| Sessions.StoredHistoriesPaired | pkg/http/http.go:262-344 | from an empty store, in every interleaving of loads, runs and saves of HTTP and channel turns, with any failures, every stored history is paired |
| Sessions.StepPaired | cmd/souz-agent/main.go:187-244 | one step of any turn keeps this of the store and of every turn in progress |
| Sessions.OneTurnPerChat | pkg/http/http.go:285-292 | in every run the slot of a chat is taken exactly while an HTTP turn past its begin works on it, and there is at most one such turn |
| Sessions.OutputExactly | pkg/agent/executor.go:70-82 | the text shown for a completed turn is its last message's exactly if that is not empty or no assistant message before it in the remaining history has text; otherwise it is the last such text |
| StoredTurns.SavedTurn | pkg/http/http.go:262-344 | however turns interleave: a turn whose agent ran was loaded at some step and run at a later one, on the history stored at the load and with its text as input; its save leaves the loaded transcript with exactly the user's line and, if the run ended without error, the last text that the assistant said behind it, and the run's last history; a failed HTTP turn adds the user's line alone, a failed channel turn nothing; other chats keep what they have |
| StoredTurns.WholeTurn | cmd/souz-agent/main.go:187-244 | a handler alone: blank HTTP text, a failed load, a taken slot and a failed save leave the store as it was; otherwise the chat is extended so |
| LostTurns.SaveDropsExactly | pkg/http/http.go:276-332 | in every run a turn's save drops a line from the stored transcript exactly if another turn saved the chat, not created anew since, after the turn loaded it |
| LostTurns.GrowsExactly | pkg/http/http.go:276-332 | transcripts only grow over a run exactly if no step is the save of such a turn or creates a chat over one with lines |
| LostTurns.NoTurnLost | pkg/http/http.go:276-332 | from any moment to any later one between which there is no such step, every transcript only grows |
| LostTurns.OverwrittenBeforeBegin | pkg/http/http.go:276-292 | with HTTP turns only, the other save falls between the turn's load and its begin: the slot keeps the rest |
| LostTurns.TurnLost | pkg/http/http.go:276-289 | a run in which the second of two turns overwrites the first |
| Sessions.Server.HandleSendMessage | pkg/http/http.go:262-344 | run by itself the handler is its four steps: rejected input, refused slot, failed and completed turn included |
| Sessions.Server.HandleInbound | cmd/souz-agent/main.go:187-244 | run by itself the channel handler is its steps; a failed turn saves nothing, and no slot is touched |
| Sessions.Server.TryBeginExecution | pkg/http/http.go:359-367 | takes the slot unless it is taken |
| Sessions.Server.EndExecution | pkg/http/http.go:369-373 | gives it back |
| Sessions.Server.Execute | pkg/agent/executor.go:49-68 | one run of the graph: its last history and its text, or an error |
| SseFrames.WriteEvents | pkg/http/sse.go:148-159 | the loop writes the frames of the events |
| SseFrames.Reader.Flush | pkg/mcp/sse.go:95-109 | dispatches what the lines since the last empty line mean, and forgets them |
| SseFrames.Reader.Handle | pkg/mcp/sse.go:113-123 | one line: an empty one dispatches, others extend the block |
| SseFrames.Reader.ReadLoop | pkg/mcp/sse.go:86-125 | the loop dispatches exactly the events of the stream's blocks; the URLs set are the data of the endpoint events, the messages received the data of those of type message or of none, each in order |
| SseFrames.RoundTrip | pkg/mcp/sse.go:86-125 | reading what the server writes gives the events back, whatever follows |
| SseFrames.FrameExact | pkg/http/sse.go:158-158 | one frame is read back as its event exactly if the type is one trimmed line, the data one line without final carriage return, and both fit the line limit |
| SseStandard.ReaderAddsLast | pkg/mcp/sse.go:86-125 | of a text with LF or CR LF ends and no mark, whose complete blocks are read alike, the reader delivers the standard's events and then that of the lines after the last empty one |
| SseStandard.AgreesExactly | pkg/mcp/sse.go:123-124 | so the two agree exactly if no data line comes after the last empty line |
| SseStandard.BlockExactly | pkg/mcp/sse.go:113-122 | a block means the same to both exactly if no data line is without a colon and, if there is data, the event types agree |
| SsePrefixes.PrefixesAgreeExactly | pkg/mcp/sse.go:86-125 | of a text with LF or CR LF ends and no mark: the two agree on every prefix that ends with an empty line exactly if they read every complete block alike |
| SseStandard.UnendedDelivered | pkg/mcp/sse.go:124-124 | one data line at the end of a text is an event for the reader and none for the standard |
| SseStandard.MarkHides | pkg/mcp/sse.go:113-122 | behind a byte order mark the reader does not see the first field |
| SseStandard.LoneReturn | pkg/mcp/sse.go:110-113 | a carriage return alone ends a line for the standard only |
| Broadcaster.Delivered | pkg/http/sse.go:32-60 | in every run, what a subscriber took and what waits for it is an ordered subsequence of what was published while it was subscribed, complete up to the first publish that found 64 waiting, which is missing |
| Broadcaster.Lossless | pkg/http/sse.go:49-60 | nothing is lost exactly if no publish found the buffer full |
| Broadcaster.SubscribedExactly | pkg/http/sse.go:32-45 | a channel is open exactly if its subscriber has come and has not gone since |
| Broadcaster.PublishReaches | pkg/http/sse.go:49-60 | in every run a publish adds the event, last, for exactly the subscribers that are there and have fewer than 64 waiting |
| Broadcaster.EndToEnd | pkg/http/sse.go:139-159 | decoding what a subscriber was sent gives a subsequence of the published events, a prefix while the buffer was not full |
| Broadcaster.StaysValid | pkg/http/sse.go:32-60 | only known channels are open, and none holds more than 64 |
| Broadcaster.ChatBroadcaster.AddSubscriber | pkg/http/sse.go:32-36 | a new open empty channel |
| Broadcaster.ChatBroadcaster.RemoveSubscriber | pkg/http/sse.go:38-45 | closes it once |
| Broadcaster.ChatBroadcaster.Send | pkg/http/sse.go:49-60 | the loop over subscribers, in any order, offers each the event once and never blocks |
| Broadcaster.ChatBroadcaster.Take | pkg/http/sse.go:150-150 | the oldest event is received |
| BusProtocol.Conserved | pkg/bus/bus.go:38-114 | in every interleaving and for each direction: accepted messages are, in order, those taken by the consumer and by the drain, merged, and those that wait, at most 64 |
| BusProtocol.AcceptedOnce | pkg/bus/bus.go:50-61 | a publish call succeeds exactly if its message was accepted, and it was accepted once |
| BusProtocol.DrainedLast | pkg/bus/bus.go:107-112 | the drain takes nothing before the channels are closed, and leaves nothing |
| BusProtocol.NothingAfterClose | pkg/bus/bus.go:107-108 | no publish succeeds once its channel is closed |
| BusProtocol.EndedBy | pkg/bus/bus.go:38-61 | in every run a call that ended did so by a step that is a reason for it: success by a send with room in an open channel, its message last; ErrBusClosed at the flag, or at either select after Close began; the context's error at either select |
| BusProtocol.LateRefused | pkg/bus/bus.go:39-41 | a call that has not looked at the flag when Close has set it is refused, in every continuation |
| BusProtocol.PublishAlone | pkg/bus/bus.go:38-61 | on an open bus with room, a call that is not interrupted succeeds, with its message last |
| BusProtocol.AlwaysCounted | pkg/bus/bus.go:50-51 | the wait group counts the publish calls between Add and Done |
| BusProtocol.NeverPanics | pkg/bus/bus.go:102-114 | if no publish call is between its checks and wg.Add whenever Wait returns, no send meets a closed channel |
| BusProtocol.PanicExactly | pkg/bus/bus.go:39-61 | when Wait has returned, a panic lies ahead in some continuation exactly if a call is there |
| BusProtocol.MemberSafe | pkg/bus/bus.go:50-61 | a call that is in the wait group before Wait returns never sends on a closed channel, in any continuation and whoever else stands in the window |
| BusProtocol.WindowReachable | pkg/bus/bus.go:39-50 | a run that leads there |
| Bus.MessageBus.BeginPublish | pkg/bus/bus.go:38-38 | a publish call begins |
| Bus.MessageBus.CheckClosed | pkg/bus/bus.go:39-41 | returns ErrBusClosed if the flag is set |
| Bus.MessageBus.CheckDone | pkg/bus/bus.go:42-48 | the first select: context, done channel, or neither |
| Bus.MessageBus.Add | pkg/bus/bus.go:50-50 | enters the wait group |
| Bus.MessageBus.Send | pkg/bus/bus.go:53-55 | the message goes to the end of its own direction's buffer |
| Bus.MessageBus.GiveUp | pkg/bus/bus.go:56-60 | the second select without the send |
| Bus.MessageBus.Leave | pkg/bus/bus.go:51-51 | the deferred Done |
| Bus.MessageBus.Receive | pkg/bus/bus.go:63-66 | the oldest message of a direction |
| Bus.MessageBus.CloseDone | pkg/bus/bus.go:104-104 | Close closes the done channel |
| Bus.MessageBus.StoreClosed | pkg/bus/bus.go:105-105 | then sets the flag |
| Bus.MessageBus.WaitReturn | pkg/bus/bus.go:106-106 | goes on when the group is empty |
| Bus.MessageBus.CloseInbound | pkg/bus/bus.go:107-107 | closes one channel |
| Bus.MessageBus.CloseOutbound | pkg/bus/bus.go:108-108 | and the other |
| Bus.MessageBus.Drain | pkg/bus/bus.go:109-112 | the two loops empty both buffers, one step for each item |
| VerdictCache.Store.Get | pkg/skills/validation/store.go:32-45 | the record of a key, none, or a read error |
| VerdictCache.Store.Save | pkg/skills/validation/store.go:48-61 | the record is written under its own key, or nothing changes |
| VerdictCache.Store.InvalidateOthers | pkg/skills/validation/store.go:68-101 | the loop over the files of a skill and policy version makes exactly the approved records of other hashes stale, as far as files can be written |
| VerdictCache.Validate | pkg/skills/validation/validation.go:92-127 | the three stages give the verdict, which is approved exactly if nothing was found, the turn lives, and the model approves with enough confidence |
| VerdictCache.EnsureApproved | pkg/agent/nodes/skills.go:159-188 | the store and the bundle after one call, each error path included |
| VerdictLaws.ReturnsExactly | pkg/agent/nodes/skills.go:159-188 | a call returns a bundle exactly if the record can be read, the bundle is on disk under the catalog's hash, and its record is approved, or is missing or stale and there are no findings, no cancellation and an approval of enough confidence |
| VerdictLaws.WritesExactly | pkg/skills/validation/store.go:48-101 | what a call writes, record by record: its own verdict with status and confidence exactly if there was none or a stale one, it was read, loaded and saved; stale for approved records of other hashes of the skill and policy version whose files can be listed and rewritten; nothing else |
| VerdictCache.Select | pkg/skills/selection/selection.go:73-83 | the two loops keep exactly the offered ids, in the model's order |
| VerdictCache.FilterKeeps | pkg/skills/selection/selection.go:73-83 | every selected id was offered and named; every offered id that was named is selected |
| VerdictLaws.SelectedExactly | pkg/skills/selection/selection.go:73-83 | a turn calls for the offered ids in the order in which the model named them, each with the last catalog entry of that id |
| VerdictLaws.TurnIsCalls | pkg/agent/nodes/skills.go:117-145 | a turn is its calls one after the other, and the active skills are the returned bundles in that order |
| VerdictCache.ActivateSkills | pkg/agent/nodes/skills.go:86-145 | the store and the activated skills after a turn |
| VerdictCache.CallChanges | pkg/agent/nodes/skills.go:159-188 | one call gives a new verdict only to its own key, and only if that had none or a stale one; other keys can only go from approved to stale |
| VerdictCache.CallSpares | pkg/skills/validation/store.go:68-101 | a call on one skill changes no other skill's records |
| VerdictCache.CallApprovesExactly | pkg/agent/nodes/skills.go:167-187 | whatever fails, a record is approved after its call exactly if it was before or the call returns the bundle and can save; a returned bundle has the id and hash asked for |
| VerdictCache.CallApproves | pkg/agent/nodes/skills.go:167-187 | a call that can save returns a bundle only with an approved record for exactly its id and hash |
| VerdictCache.StaleWasApproved | pkg/skills/validation/validation.go:33-35 | in turns one after the other a stale record was approved after some earlier call |
| VerdictCache.LicensedExactly | pkg/agent/nodes/skills.go:120-145 | in a turn that no other overlaps, whatever fails: an activated id was offered and named, and its bundle has an approved record at the end of the turn exactly if it had one before or a call that returned the bundle could save |
| VerdictCache.ActivatedLicensed | pkg/agent/nodes/skills.go:120-145 | in such a turn that can save, whichever reads fail, every activated id has an approved record for exactly the hash of the bundle shown |
| VerdictCache.ActiveMayRun | pkg/tools/skills/skills.go:160-193 | after such a turn an active skill that is installed as the catalog had it is authorized exactly if its record can be read, its directory is found, and that condition holds |
| VerdictCache.UnsavedIsActivated | pkg/agent/nodes/skills.go:172-177 | on any records, a failed save of a new verdict does not stop the activation, and leaves the record unapproved |
| VerdictRuns.StatusExactly | pkg/skills/validation/store.go:48-101 | in every run of overlapping calls, whose InvalidateOthers lists, reads and rewrites the files one at a time, a record has a status exactly if that was written last |
| VerdictRuns.ApprovedExactly | pkg/skills/validation/store.go:48-101 | so a record is approved exactly if some saved approval stands |
| VerdictRuns.OneApprovedExactly | pkg/agent/nodes/skills.go:159-188 | over every run of overlapping calls, with any failures, at most one hash of a skill is ever approved exactly if no approval is saved while one of another hash stands |
| VerdictRuns.SaveBreaksExactly | pkg/agent/nodes/skills.go:159-178 | a save makes two hashes approved exactly if an approval of another hash was saved after the saving call listed the record files, and still stands |
| Rejections.ConcurrentBothApproved | pkg/agent/nodes/skills.go:159-178 | a run of two calls whose steps alternate leaves two hashes approved |
| Rejections.RejectedKept | pkg/skills/validation/validation.go:29-32 | in every run of overlapping calls a rejection stays from one moment to a later one exactly if no step between saves an approval of it or rewrites it as stale |
| Rejections.RevisedByEarlier | pkg/agent/nodes/skills.go:160-173 | the call that revises a rejection looked at the store, by its Get or by reading the file in InvalidateOthers, before the rejection was saved |
| Rejections.RejectedForeverExactly | pkg/skills/validation/validation.go:29-32 | a rejection is final in every continuation exactly if no call is about to save an approval of it or holds an approval of it to write as stale |
| Rejections.ConcurrentRevised | pkg/agent/nodes/skills.go:160-178 | a run of two calls on one bundle in which a saved rejection is overwritten by an approval and the skill activated |
| Rejections.StaleOverRejection | pkg/skills/validation/store.go:80-97 | a run in which InvalidateOthers reads an approval, a rejection is saved, the stale record is written over it, and the next call approves and activates the bundle |
| Rejections.StaleHeldApproval | pkg/skills/validation/validation.go:33-35 | whatever overlaps, a stale record was approved at an earlier moment of the run |
| Rejections.ReturnedApprovedExactly | pkg/agent/nodes/skills.go:159-188 | whatever overlaps, a bundle that a call returned is approved at a later moment exactly if it was right after the call, as it was unless its verdict could not be saved, and its record was not written since, or an approval saved since stands |
| VerdictTurns.PartsAreCall | pkg/agent/nodes/skills.go:159-188 | the steps of a call, uninterrupted, in whatever order its InvalidateOthers takes the files, are ensureApproved |
| VerdictTurns.SerialOneApproved | pkg/agent/nodes/skills.go:159-188 | calls one after the other, whose records can be invalidated, never leave two hashes approved |
| VerdictTurns.AtMostOneApproved | pkg/agent/nodes/skills.go:120-145 | from an empty store, after any turns one after the other whose records can be invalidated, at most one hash of a skill is approved under a policy version |
| VerdictTurns.ReplacedMayNotRun | pkg/tools/skills/skills.go:175-193 | an active skill whose bundle was replaced meanwhile is not authorized |
| VerdictTurns.RejectedForever | pkg/skills/validation/validation.go:29-32 | among turns one after the other a rejection is never revised, whichever reads and writes fail |
| Frontmatter.ParseFrontmatter | pkg/skills/bundle/frontmatter.go:24-50 | the loop for the closing delimiter, and the three results or the error |
| Frontmatter.ParseManifestLines | pkg/skills/bundle/frontmatter.go:52-102 | the index loop, with its jump over the metadata block, looks at every line once: it equals a fold with one mode flag |
| Frontmatter.ParseMetadataBlock | pkg/skills/bundle/frontmatter.go:107-127 | reads the block's entries and says how many lines it took |
| Frontmatter.RoundTrip | pkg/skills/bundle/frontmatter.go:24-150 | parsing a written manifest, each value bare, in single or in double quotes where it fits, gives the manifest, its lines and the trimmed body, or the error of the first required field that is blank |
| Frontmatter.SplitWritten | pkg/skills/bundle/frontmatter.go:129-150 | for every key without a colon and every value that fits its style (bare: trimmed and not between equal quotes; in single or double quotes: anything), with white space anywhere around them, the line gives back key and value |
| Frontmatter.NoFrontmatter | pkg/skills/bundle/frontmatter.go:24-43 | parsing fails for want of a start exactly if the first line is not "---" between blanks, and for want of an end exactly if no later line is |
| Frontmatter.JunkIgnored | pkg/skills/bundle/frontmatter.go:57-73 | a blank line, an indented one, or one without a key may stand between the fields and changes nothing |
| Frontmatter.JoinSplit | pkg/skills/bundle/frontmatter.go:25-43 | joining the split lines gives the text |
| Bundle.FromFiles | pkg/skills/bundle/bundle.go:161-197 | the loop over paths: the first empty or repeated path, else the missing or malformed SKILL.md, else the bundle |
| BundleLaws.BundleExactly | pkg/skills/bundle/bundle.go:161-197 | files become a bundle exactly if all paths are given and differ and a SKILL.md is there that parses: id the slug of its name, its manifest, body and lines, and the same files ordered by path; otherwise the error names the first path that is empty or repeated, a missing SKILL.md, or what is wrong with it |
| BundleLaws.LessExactly | pkg/skills/bundle/bundle.go:186-188 | paths are ordered by their first different character, a path before its continuations |
| BundleLaws.SegmentsJoin | pkg/skills/bundle/bundle.go:239-246 | every path is its segments joined by slashes, so a path that is let through is returned as it is |
| BundleLaws.NormalExactly | pkg/skills/bundle/bundle.go:222-246 | a path is normalized exactly if it has no NUL, no backslash and no part "", "." or ".." between its slashes |
| Bundle.OrderIndependent | pkg/skills/bundle/bundle.go:161-197 | any rearrangement of the files gives the same bundle, or fails as well |
| Bundle.SortedUnique | pkg/skills/bundle/bundle.go:186-188 | a set of files with distinct paths has one sorted order |
| Bundle.OneLineNoDigest | pkg/skills/bundle/bundle.go:203-210 | one-line paths have no place where a digest follows a line feed |
| Bundle.SplitCollides | pkg/skills/bundle/bundle.go:203-210 | a bundle with line feed, digest, line feed in a path has the hash of the files with that one split in two, and these are another bundle exactly if they are in order and the first part is not empty |
| Bundle.FeedInPathCollides | pkg/skills/bundle/bundle.go:205-208 | for every SKILL.md and any two normalized paths behind it: two different bundles of normalized paths with one hash |
| HashSplits.HashExactly | pkg/skills/bundle/bundle.go:199-210 | with a collision-free digest, any two bundles have the same hash exactly if cutting their files at such places, as often as possible, comes to the same files |
| HashSplits.CleanUnique | pkg/skills/bundle/bundle.go:203-210 | lists of files that cannot be cut are determined by the hashed text |
| HashSplits.ReachesClean | pkg/skills/bundle/bundle.go:203-210 | every list of files can be cut until it cannot be cut any more |
| HashSplits.EncodingInjective | pkg/skills/bundle/bundle.go:203-210 | so the hashed text determines the files unless in some path a line feed is followed by a digest |
| HashSplits.HashIdentifies | pkg/skills/bundle/bundle.go:199-210 | with a collision-free digest, two bundles without such paths have the same hash exactly if they are made of the same files, and then are equal |
| Registry.WriteFiles | pkg/skills/registry/registry.go:185-215 | the files are written as one directory exactly if no path nests in another |
| RegistryLaws.NestsExactly | pkg/skills/registry/registry.go:196-203 | a path needs another's place for a directory exactly if its segments go on after the other's |
| Registry.CollectFiles | pkg/skills/bundle/bundle.go:79-149 | the walk's checks let exactly the files within policy through |
| RegistryLaws.PolicyExactly | pkg/skills/bundle/bundle.go:79-149 | the limits on number, path, extension, size of each and size of all, in bytes of UTF-8 |
| Registry.SkillRegistry.SaveSkillBundle | pkg/skills/registry/registry.go:124-149 | an existing directory is kept, else written, or the save fails and nothing changes; the catalog entry is replaced |
| Registry.SkillRegistry.LoadSkillBundle | pkg/skills/registry/registry.go:154-183 | the managed directory or a loose one, read within policy, rebuilt, and checked against the hash |
| RegistryLaws.LoadsExactly | pkg/skills/registry/registry.go:154-183 | loading fails as not found exactly if there is neither the managed directory nor a loose one with a SKILL.md; else the directory's files are refused, broken, or a bundle, which is returned exactly if its hash is the one asked for |
| RegistryLaws.CatalogLast | pkg/skills/registry/registry.go:124-149 | from an empty registry, after any saves, the catalog has for each skill the hash of the last bundle of it whose save succeeds |
| Registry.SavedLoads | pkg/skills/registry/registry.go:124-167 | whatever is saved before or after, a saved bundle within policy is loaded back under its id and hash, in whatever order its directory is walked, exactly if no different bundle of that id and hash was saved first |
| Registry.CleanLoads | pkg/skills/registry/registry.go:124-167 | so always, with a collision-free digest and no line feed followed by a digest in a path |
| Registry.WriteOnce | pkg/skills/registry/registry.go:129-135 | no save changes the files of an earlier hash |
| Registry.SavesUnlessNested | pkg/skills/registry/registry.go:124-149 | from an empty registry, after any saves, a save succeeds exactly if no path of the bundle nests in another or a bundle of its id and hash was saved before; the second decides nothing when paths are clean |
| Registry.KeysSaved | pkg/skills/registry/registry.go:129-135 | after any saves the managed directories are exactly those of the saved bundles whose paths do not nest |
| Registry.WalkedBack | pkg/skills/bundle/bundle.go:91-144 | walking a written directory gives its files in some order |
| SkillsPrompt.AppendSkillsContext | pkg/agent/nodes/skills.go:257-280 | the loop over skills writes the block behind the prompt |
| SkillsPrompt.AppendShows | pkg/agent/nodes/skills.go:257-280 | behind the prompt, between the markers, every skill's name, version, description and body, in order |
| SkillsPrompt.StripAppend | pkg/agent/nodes/skills.go:244-280 | removing the block gives the trimmed prompt exactly if no name, version, description or body contains the end marker: no marker straddles two fields |
| SkillsPrompt.StripExactly | pkg/agent/nodes/skills.go:244-255 | of any prompt: what lies between the first start marker and the end of the first end marker is taken out and the rest trimmed; without one of the two the prompt stays as it is |
| SkillsPrompt.NoAccumulation | pkg/agent/nodes/skills.go:149-149 | after any number of activations the prompt carries one block, the last |
| SkillsPrompt.SectionFree | pkg/agent/nodes/skills.go:262-273 | a skill's section contains the end marker exactly if one of its fields does |

## Left out

- HTTP, subprocess, Telegram, OAuth and YAML configuration code: input and output around libraries.
- JSON: stream events, messages, records and catalog entries are decoded data; a decoder is a parameter.
- Floating point: numbers are abstract with abstract operations and tests; a numeral is a run of digits with at most one dot and at least one digit. The summarizing threshold is compared in exact arithmetic.
- SHA-256 is a digest without collisions, written in hexadecimal; the file system is a map, so symbolic links, permissions and half-written files do not occur.
- Regular expressions: `Slug` is an arbitrary function, the static checks an arbitrary number of findings.
- Strings are sequences of code points; where the code counts bytes (`Text.Bytes`) the UTF-8 length is used, and malformed UTF-8 does not occur.
- `McpClient`: request ids do not wrap at 64 bits, `Start` is called once, a channel is a value with its history, and `notify` is not modelled.
- `BusProtocol`: the wait group's own misuse panic is not modelled; a send to a waiting receiver is a send followed by a receive.
- `Sessions`: cancelling a running turn is part of what the run's environment may do.
- `AgentNodes`: the texts of the context block and of the summarizing instruction do not matter and are parameters or shortened; event sinks, the sampling temperature, tool argument decoding and `InvocationMeta` other than the active skills are not modelled.
- `VerdictCache`: the theorems are about turns whose skills nodes do not overlap; overlapping calls are the matter of `VerdictRuns` and `Rejections`. A catalog entry's id and hash belong to one bundle, as `SaveSkillBundle` writes them; hand-edited entries are not modelled.
- `VerdictRuns`: the temporary files that a save leaves in the record directory for a moment, which a listing sees, are not modelled.
- `SseStandard`: an event's last event ID and the reconnection time, which the client ignores, are not modelled.
- `Registry`: paths of saved bundles are taken to be normalized, which loading ensures; listing the catalog is not modelled.
- `SkillsPrompt`: the rewriting of tool descriptions and the hiding of `RunSkillCommand` are not modelled.
- File sandboxing and working-directory confinement, which depend on resolved symbolic links.
- The Codex stream, capped buffers, truncation, clamping, allow-lists, stub channels, logging and hooks: repetitions of what is modelled, or simple.

/**
 The Anthropic backend (pkg/providers/anthropic/anthropic.go): the streaming reader with its open
 content blocks, against the decoder of a whole response. JSON decoding is the parameter `decode`.
 */
module AnthropicStream {
  import opened Wrappers
  import opened Providers
  import opened Interleave
  import opened StreamLines
  import Text

  datatype BlockKind = TextBlock | ToolUseBlock | OtherBlock

  datatype DeltaKind = TextDelta | InputJsonDelta | OtherDelta

  datatype EventKind = MessageStart | BlockStart | BlockDelta | BlockStop | MessageDelta | OtherEvent

  datatype ContentBlock = ContentBlock(kind: BlockKind, text: string, id: string, name: string, input: string)

  datatype Delta = Delta(kind: DeltaKind, text: string, partial: string, stopReason: string)

  datatype Event = Event(
    kind: EventKind,
    index: int,
    inputTokens: Option<int>,
    block: Option<ContentBlock>,
    delta: Option<Delta>,
    outputTokens: Option<int>)

  datatype WireResponse = WireResponse(stopReason: string, content: seq<ContentBlock>, usage: Usage)

  function ToFinishReason(reason: string): FinishReason {
    if reason == "tool_use" then ToolUse else if reason == "max_tokens" then Length else Stop
  }

  // ---- the whole response ----

  /** The texts of the text blocks. */
  function BlockTexts(blocks: seq<ContentBlock>): seq<string>
    decreases |blocks|
  {
    if blocks == [] then []
    else
      var b := blocks[|blocks| - 1];
      var before := BlockTexts(blocks[..|blocks| - 1]);
      if b.kind == TextBlock then before + [b.text] else before
  }

  function BlockCalls(blocks: seq<ContentBlock>): seq<ToolCall>
    decreases |blocks|
  {
    if blocks == [] then []
    else
      var b := blocks[|blocks| - 1];
      var before := BlockCalls(blocks[..|blocks| - 1]);
      if b.kind == ToolUseBlock then before + [ToolCall(b.id, b.name, b.input)] else before
  }

  /** What a whole response means. */
  function Decoded(r: WireResponse): ChatResponse {
    ChatResponse(Concat(BlockTexts(r.content)), BlockCalls(r.content), ToFinishReason(r.stopReason), r.usage)
  }

  /** The text of the text blocks, one after the other. */
  function TextIn(blocks: seq<ContentBlock>): string
    decreases |blocks|
  {
    if blocks == [] then "" else (if blocks[0].kind == TextBlock then blocks[0].text else "") + TextIn(blocks[1..])
  }

  /** The tool blocks, one after the other. */
  function CallsIn(blocks: seq<ContentBlock>): seq<ToolCall>
    decreases |blocks|
  {
    if blocks == [] then []
    else
      var b := blocks[0];
      (if b.kind == ToolUseBlock then [ToolCall(b.id, b.name, b.input)] else []) + CallsIn(blocks[1..])
  }

  /** The finish reason that a stop reason means. */
  predicate Finishes(finish: FinishReason, reason: string) {
    && (finish == ToolUse <==> reason == "tool_use")
    && (finish == Length <==> reason == "max_tokens")
    && (finish == Stop <==> reason != "tool_use" && reason != "max_tokens")
  }

  lemma {:induction false} TextsFront(blocks: seq<ContentBlock>)
    ensures Concat(BlockTexts(blocks)) == TextIn(blocks) && BlockCalls(blocks) == CallsIn(blocks)
    decreases |blocks|
  {
    if blocks != [] {
      TextsFront(blocks[1..]);
      var b := blocks[0];
      BlocksCons(b, blocks[1..]);
      assert blocks == [b] + blocks[1..];
      ConcatAppend(if b.kind == TextBlock then [b.text] else [], BlockTexts(blocks[1..]));
      assert Concat([]) == "" && Concat([b.text]) == b.text + Concat([]);
    }
  }

  lemma {:induction false} BlocksCons(b: ContentBlock, rest: seq<ContentBlock>)
    ensures BlockTexts([b] + rest) == (if b.kind == TextBlock then [b.text] else []) + BlockTexts(rest)
    ensures BlockCalls([b] + rest) ==
            (if b.kind == ToolUseBlock then [ToolCall(b.id, b.name, b.input)] else []) + BlockCalls(rest)
    decreases |rest|
  {
    var all := [b] + rest;
    if rest == [] {
      assert all[..0] == [];
    } else {
      var n := |rest| - 1;
      assert all[..|all| - 1] == [b] + rest[..n] && all[|all| - 1] == rest[n];
      BlocksCons(b, rest[..n]);
    }
  }

  method ToChatResponse(r: WireResponse) returns (out: ChatResponse)
    ensures out == Decoded(r)
    ensures out.content == TextIn(r.content) && out.toolCalls == CallsIn(r.content) && out.usage == r.usage
    ensures Finishes(out.finish, r.stopReason)
  {
    TextsFront(r.content);
    var text := "";
    var toolCalls: seq<ToolCall> := [];
    for i := 0 to |r.content|
      invariant text == Concat(BlockTexts(r.content[..i])) && toolCalls == BlockCalls(r.content[..i])
    {
      var block := r.content[i];
      assert r.content[..i + 1][..i] == r.content[..i];
      if block.kind == TextBlock {
        ConcatSnoc(BlockTexts(r.content[..i]), block.text);
        text := text + block.text;
      } else if block.kind == ToolUseBlock {
        toolCalls := toolCalls + [ToolCall(block.id, block.name, block.input)];
      }
    }
    assert r.content[..|r.content|] == r.content;
    out := ChatResponse(text, toolCalls, ToFinishReason(r.stopReason), r.usage);
  }

  // ---- the reader, event by event ----

  datatype ToolBlock = ToolBlock(id: string, name: string, args: string)

  /** Everything the reader keeps: `emitted` is what onChunk was called with. */
  datatype Reading = Reading(
    text: string,
    emitted: seq<string>,
    open: map<int, ToolBlock>,
    calls: seq<ToolCall>,
    finish: FinishReason,
    usage: Usage)

  const START := Reading("", [], map[], [], Stop, Usage(0, 0))

  function Closed(tb: ToolBlock): ToolCall { ToolCall(tb.id, tb.name, if tb.args == "" then "{}" else tb.args) }

  function Step(st: Reading, e: Event): Reading {
    if e.kind == MessageStart then
      if e.inputTokens.Some? then st.(usage := st.usage.(inputTokens := e.inputTokens.value)) else st
    else if e.kind == BlockStart then
      if e.block.Some? && e.block.value.kind == ToolUseBlock
      then st.(open := st.open[e.index := ToolBlock(e.block.value.id, e.block.value.name, "")])
      else st
    else if e.kind == BlockDelta then
      if e.delta.None? then st
      else if e.delta.value.kind == TextDelta then
        if e.delta.value.text != ""
        then st.(text := st.text + e.delta.value.text, emitted := st.emitted + [e.delta.value.text])
        else st
      else if e.delta.value.kind == InputJsonDelta && e.index in st.open then
        var tb := st.open[e.index];
        st.(open := st.open[e.index := tb.(args := tb.args + e.delta.value.partial)])
      else st
    else if e.kind == BlockStop then
      if e.index in st.open
      then st.(open := st.open - {e.index}, calls := st.calls + [Closed(st.open[e.index])])
      else st
    else if e.kind == MessageDelta then
      var st1 :=
        if e.delta.Some? && e.delta.value.stopReason != ""
        then st.(finish := ToFinishReason(e.delta.value.stopReason)) else st;
      if e.outputTokens.Some? then st1.(usage := st1.usage.(outputTokens := e.outputTokens.value)) else st1
    else st
  }

  function Fold(st: Reading, es: seq<Event>): Reading
    decreases |es|
  {
    if es == [] then st else Fold(Step(st, es[0]), es[1..])
  }

  /** The response at the end of the stream: any call makes the finish reason tool_use. */
  function Finished(st: Reading): ChatResponse {
    ChatResponse(st.text, st.calls, if st.calls != [] then ToolUse else st.finish, st.usage)
  }

  // ---- framing ----

  /** What a blank line makes of the data lines held back. */
  function Flushed(held: seq<string>): seq<string> {
    if held == [] then []
    else
      var data := Text.Join(held, "\n");
      if data == "" || data == "[DONE]" then [] else [data]
  }

  function Payloads(lines: seq<string>, held: seq<string>): seq<string>
    decreases |lines|
  {
    if lines == [] then Flushed(held)
    else if lines[0] == "" then Flushed(held) + Payloads(lines[1..], [])
    else if Text.HasPrefix(lines[0], "data:") then
      Payloads(lines[1..], held + [Text.TrimPrefix(Text.TrimPrefix(lines[0], "data:"), " ")])
    else Payloads(lines[1..], held)
  }

  /** The events of a stream: payloads that do not decode are skipped. */
  function Decode(payloads: seq<string>, decode: string -> Option<Event>): seq<Event>
    decreases |payloads|
  {
    if payloads == [] then []
    else
      match decode(payloads[0])
      case None => Decode(payloads[1..], decode)
      case Some(e) => [e] + Decode(payloads[1..], decode)
  }

  lemma {:induction false} FoldAppend(st: Reading, a: seq<Event>, b: seq<Event>)
    ensures Fold(st, a + b) == Fold(Fold(st, a), b)
    decreases |a|
  {
    if a == [] {
      assert a + b == b;
    } else {
      assert (a + b)[1..] == a[1..] + b;
      FoldAppend(Step(st, a[0]), a[1..], b);
    }
  }

  lemma {:induction false} DecodeAppend(a: seq<string>, b: seq<string>, decode: string -> Option<Event>)
    ensures Decode(a + b, decode) == Decode(a, decode) + Decode(b, decode)
    decreases |a|
  {
    if a == [] {
      assert a + b == b;
    } else {
      assert (a + b)[1..] == a[1..] + b;
      DecodeAppend(a[1..], b, decode);
    }
  }

  class StreamReader {
    const decode: string -> Option<Event>
    var dataLines: seq<string>
    var text: string
    var emitted: seq<string>
    var toolBlocks: map<int, ToolBlock>
    var toolCalls: seq<ToolCall>
    var finish: FinishReason
    var usage: Usage

    constructor (decode: string -> Option<Event>)
      ensures View() == START && dataLines == [] && this.decode == decode
    {
      this.decode := decode;
      dataLines, text, emitted, toolBlocks, toolCalls, finish, usage := [], "", [], map[], [], Stop, Usage(0, 0);
    }

    ghost function View(): Reading
      reads this
    {
      Reading(text, emitted, toolBlocks, toolCalls, finish, usage)
    }

    /** Handles the event that the data lines held back spell, if any. */
    method Flush()
      modifies this
      ensures dataLines == []
      ensures View() == Fold(old(View()), Decode(Flushed(old(dataLines)), decode))
    {
      if dataLines == [] { return; }
      var data := Text.Join(dataLines, "\n");
      dataLines := [];
      if data == "" || data == "[DONE]" { return; }
      assert Decode([data], decode) == match decode(data) case None => [] case Some(e) => [e];
      match decode(data)
      case None =>
      case Some(evt) =>
        Handle(evt);
        assert Fold(old(View()), [evt]) == Fold(Step(old(View()), evt), []);
    }

    method Handle(evt: Event)
      modifies this`text, this`emitted, this`toolBlocks, this`toolCalls, this`finish, this`usage
      ensures View() == Step(old(View()), evt)
    {
      match evt.kind {
        case MessageStart =>
          if evt.inputTokens.Some? { usage := usage.(inputTokens := evt.inputTokens.value); }
        case BlockStart =>
          if evt.block.Some? && evt.block.value.kind == ToolUseBlock {
            toolBlocks := toolBlocks[evt.index := ToolBlock(evt.block.value.id, evt.block.value.name, "")];
          }
        case BlockDelta =>
          if evt.delta.None? { return; }
          var delta := evt.delta.value;
          if delta.kind == TextDelta {
            if delta.text != "" {
              text := text + delta.text;
              emitted := emitted + [delta.text];
            }
          } else if delta.kind == InputJsonDelta {
            if evt.index in toolBlocks {
              var tb := toolBlocks[evt.index];
              toolBlocks := toolBlocks[evt.index := tb.(args := tb.args + delta.partial)];
            }
          }
        case BlockStop =>
          if evt.index in toolBlocks {
            var tb := toolBlocks[evt.index];
            toolBlocks := toolBlocks - {evt.index};
            var args := tb.args;
            if args == "" { args := "{}"; }
            toolCalls := toolCalls + [ToolCall(tb.id, tb.name, args)];
          }
        case MessageDelta =>
          if evt.delta.Some? && evt.delta.value.stopReason != "" {
            finish := ToFinishReason(evt.delta.value.stopReason);
          }
          if evt.outputTokens.Some? { usage := usage.(outputTokens := evt.outputTokens.value); }
        case _ =>
      }
    }

    /** Reads a whole stream, line by line. */
    method ReadStream(lines: seq<string>, readError: bool) returns (r: Result<ChatResponse, string>)
      requires View() == START && dataLines == []
      modifies this
      ensures View() == Fold(START, Decode(Payloads(lines, []), decode)).(finish := finish)
      ensures readError ==> r.Err?
      ensures !readError ==> r == Ok(Finished(Fold(START, Decode(Payloads(lines, []), decode))))
      ensures !readError ==>
                forall texts, es, m: Sent | Frames(lines, texts) && Decodes(texts, es, decode) && Sends(es, m) ::
                  r.Ok? && Tells(r.value, es, m)
    {
      LinesLaw(lines, decode);
      ghost var all := Fold(START, Decode(Payloads(lines, []), decode));
      for n := 0 to |lines|
        invariant all == Fold(View(), Decode(Payloads(lines[n..], dataLines), decode))
      {
        var line := lines[n];
        assert lines[n..][1..] == lines[n + 1..];
        if line == "" {
          ghost var rest := Payloads(lines[n + 1..], []);
          DecodeAppend(Flushed(dataLines), rest, decode);
          FoldAppend(View(), Decode(Flushed(dataLines), decode), Decode(rest, decode));
          Flush();
        } else if Text.HasPrefix(line, "data:") {
          dataLines := dataLines + [Text.TrimPrefix(Text.TrimPrefix(line, "data:"), " ")];
        }
      }
      Flush();
      if readError { return Err("read stream"); }
      if |toolCalls| > 0 { finish := ToolUse; }
      r := Ok(ChatResponse(text, toolCalls, finish, usage));
    }
  }

  // ---- content blocks as streams ----

  /** A content block as it is streamed: its opening and the deltas that fill it. */
  datatype Block = Block(head: ContentBlock, deltas: seq<Delta>)

  /** Only text blocks carry text deltas. */
  predicate ProperBlock(b: Block) {
    b.head.kind != TextBlock ==> forall j | 0 <= j < |b.deltas| :: b.deltas[j].kind != TextDelta
  }

  function DeltaTexts(ds: seq<Delta>): seq<string>
    decreases |ds|
  {
    if ds == [] then []
    else if ds[0].kind == TextDelta && ds[0].text != "" then [ds[0].text] + DeltaTexts(ds[1..])
    else DeltaTexts(ds[1..])
  }

  function DeltaArgs(ds: seq<Delta>): string
    decreases |ds|
  {
    if ds == [] then ""
    else
      var before := DeltaArgs(ds[..|ds| - 1]);
      if ds[|ds| - 1].kind == InputJsonDelta then before + ds[|ds| - 1].partial else before
  }

  /** The block as its deltas give it; a tool call without input has the empty object. */
  function Received(b: Block): ContentBlock {
    if b.head.kind == TextBlock then b.head.(text := Concat(DeltaTexts(b.deltas)))
    else if b.head.kind == ToolUseBlock then
      var args := DeltaArgs(b.deltas);
      b.head.(input := if args == "" then "{}" else args)
    else b.head
  }

  function ReceivedAll(bs: seq<Block>): seq<ContentBlock> {
    seq(|bs|, k requires 0 <= k < |bs| => Received(bs[k]))
  }

  /** The block of the whole response: what its start brought counts too. */
  function Assembled(b: Block): ContentBlock {
    if b.head.kind == TextBlock then b.head.(text := b.head.text + Concat(DeltaTexts(b.deltas)))
    else if b.head.kind == ToolUseBlock then
      var args := DeltaArgs(b.deltas);
      b.head.(input := if args != "" then args else if b.head.input != "" then b.head.input else "{}")
    else b.head
  }

  function AssembledAll(bs: seq<Block>): seq<ContentBlock> {
    seq(|bs|, k requires 0 <= k < |bs| => Assembled(bs[k]))
  }

  /** A text block that starts with no text. */
  predicate TextStreamed(b: Block) { b.head.kind == TextBlock ==> b.head.text == "" }

  /** A tool block whose input comes in deltas, or is empty. */
  predicate InputStreamed(b: Block) {
    b.head.kind == ToolUseBlock ==> DeltaArgs(b.deltas) != "" || b.head.input == "" || b.head.input == "{}"
  }

  function StartEvent(i: int, b: Block): Event { Event(BlockStart, i, None, Some(b.head), None, None) }

  function DeltaEvent(i: int, d: Delta): Event { Event(BlockDelta, i, None, None, Some(d), None) }

  function StopEvent(i: int): Event { Event(BlockStop, i, None, None, None, None) }

  /** The events of one block: its start, its deltas, its stop. */
  function ScriptAt(i: int, b: Block, j: nat): Event
    requires j < |b.deltas| + 2
  {
    if j == 0 then StartEvent(i, b)
    else if j <= |b.deltas| then DeltaEvent(i, b.deltas[j - 1])
    else StopEvent(i)
  }

  ghost function Script(i: int, b: Block): (r: seq<Event>)
    ensures |r| == |b.deltas| + 2
    ensures forall j | 0 <= j < |r| :: r[j] == ScriptAt(i, b, j)
  {
    seq(|b.deltas| + 2, j requires 0 <= j < |b.deltas| + 2 => ScriptAt(i, b, j))
  }

  ghost function Scripts(idx: seq<int>, bs: seq<Block>): seq<seq<Event>>
    requires |idx| == |bs|
  {
    seq(|bs|, k requires 0 <= k < |bs| => Script(idx[k], bs[k]))
  }

  predicate IsBlockEvent(e: Event) {
    e.kind in {BlockStart, BlockDelta, BlockStop}
  }

  function BlockEvents(es: seq<Event>): seq<Event>
    decreases |es|
  {
    if es == [] then []
    else if IsBlockEvent(es[0]) then [es[0]] + BlockEvents(es[1..])
    else BlockEvents(es[1..])
  }

  ghost predicate SameBlocks(a: Reading, b: Reading) {
    a.text == b.text && a.emitted == b.emitted && a.open == b.open && a.calls == b.calls
  }

  /** Text and calls depend on the block events only. */
  lemma {:induction false} BlocksOnly(a: Reading, b: Reading, es: seq<Event>)
    requires SameBlocks(a, b)
    ensures SameBlocks(Fold(a, es), Fold(b, BlockEvents(es)))
    decreases |es|
  {
    if es != [] {
      if IsBlockEvent(es[0]) {
        BlocksOnly(Step(a, es[0]), Step(b, es[0]), es[1..]);
      } else {
        BlocksOnly(Step(a, es[0]), b, es[1..]);
      }
    }
  }

  // ---- tool calls ----

  /** What is left of each block's script once prog[k] of its events were read. */
  ghost function Left(idx: seq<int>, bs: seq<Block>, prog: seq<nat>): seq<seq<Event>>
    requires |idx| == |bs| == |prog| && forall k | 0 <= k < |bs| :: prog[k] <= |bs[k].deltas| + 2
  {
    seq(|bs|, k requires 0 <= k < |bs| => Script(idx[k], bs[k])[prog[k]..])
  }

  /** The open tool blocks are those started and not stopped, with the input received so far. */
  ghost predicate OpenAt(open: map<int, ToolBlock>, idx: seq<int>, bs: seq<Block>, prog: seq<nat>) {
    && |idx| == |bs| == |prog|
    && (forall k | 0 <= k < |bs| :: prog[k] <= |bs[k].deltas| + 2)
    && forall k | 0 <= k < |bs| ::
         if bs[k].head.kind == ToolUseBlock && 1 <= prog[k] <= |bs[k].deltas| + 1
         then idx[k] in open
             && open[idx[k]] == ToolBlock(bs[k].head.id, bs[k].head.name, DeltaArgs(bs[k].deltas[..prog[k] - 1]))
         else idx[k] !in open
  }

  ghost function CallOf(b: Block): seq<ToolCall> {
    if b.head.kind == ToolUseBlock then [ToolCall(b.head.id, b.head.name, Received(b).input)] else []
  }

  /** The calls of the blocks numbered ks. */
  ghost function CallsOf(bs: seq<Block>, ks: seq<nat>): seq<ToolCall>
    requires forall j | 0 <= j < |ks| :: ks[j] < |bs|
    decreases |ks|
  {
    if ks == [] then [] else CallOf(bs[ks[0]]) + CallsOf(bs, ks[1..])
  }

  lemma {:induction false} LastsIn(sched: seq<nat>, n: nat)
    requires forall j | 0 <= j < |sched| :: sched[j] < n
    ensures forall j | 0 <= j < |Lasts(sched)| :: Lasts(sched)[j] < n
    decreases |sched|
  {
    if sched != [] { LastsIn(sched[1..], n); }
  }

  lemma {:induction false} ScheduleBound<T>(parts: seq<seq<T>>, sched: seq<nat>)
    requires Schedule(parts, sched)
    ensures forall j | 0 <= j < |sched| :: sched[j] < |parts|
    decreases |sched|
  {
    if sched != [] { ScheduleBound(parts[sched[0] := parts[sched[0]][1..]], sched[1..]); }
  }

  /** One event of block k: what it does to the open blocks and the calls. */
  lemma BlockStep(st: Reading, idx: seq<int>, bs: seq<Block>, prog: seq<nat>, k: nat)
    requires OpenAt(st.open, idx, bs, prog) && k < |bs| && prog[k] < |bs[k].deltas| + 2
    requires forall a, b | 0 <= a < b < |idx| :: idx[a] != idx[b]
    ensures var e := Script(idx[k], bs[k])[prog[k]];
            && OpenAt(Step(st, e).open, idx, bs, prog[k := prog[k] + 1])
            && Step(st, e).calls == st.calls + (if prog[k] == |bs[k].deltas| + 1 then CallOf(bs[k]) else [])
  {
    var b, i, p := bs[k], idx[k], prog[k];
    var e := Script(i, b)[p];
    var tool := b.head.kind == ToolUseBlock;
    if p == 0 {
      assert Step(st, e).open == if tool then st.open[i := ToolBlock(b.head.id, b.head.name, "")] else st.open;
    } else if p <= |b.deltas| {
      var d := b.deltas[p - 1];
      assert b.deltas[..p][..p - 1] == b.deltas[..p - 1];
      assert tool ==> Step(st, e).open[i].args == DeltaArgs(b.deltas[..p]);
    } else {
      assert b.deltas[..|b.deltas|] == b.deltas;
      assert Step(st, e).open == if tool then st.open - {i} else st.open;
    }
  }

  lemma LeftNext(idx: seq<int>, bs: seq<Block>, prog: seq<nat>, k: nat)
    requires |idx| == |bs| == |prog| && forall k | 0 <= k < |bs| :: prog[k] <= |bs[k].deltas| + 2
    requires k < |bs| && Left(idx, bs, prog)[k] != []
    ensures prog[k] < |bs[k].deltas| + 2 && Left(idx, bs, prog)[k][0] == Script(idx[k], bs[k])[prog[k]]
    ensures Left(idx, bs, prog)[k := Left(idx, bs, prog)[k][1..]] == Left(idx, bs, prog[k := prog[k] + 1])
  {
    assert Script(idx[k], bs[k])[prog[k]..][1..] == Script(idx[k], bs[k])[prog[k] + 1..];
  }

  /** Whatever the interleaving, each tool block becomes one call, in the order of the stops. */
  lemma {:induction false} CallsByStops(st: Reading, idx: seq<int>, bs: seq<Block>, prog: seq<nat>, sched: seq<nat>)
    requires |idx| == |bs| == |prog| && forall k | 0 <= k < |bs| :: prog[k] <= |bs[k].deltas| + 2
    requires OpenAt(st.open, idx, bs, prog)
    requires forall a, b | 0 <= a < b < |idx| :: idx[a] != idx[b]
    requires Schedule(Left(idx, bs, prog), sched)
    ensures forall j | 0 <= j < |Lasts(sched)| :: Lasts(sched)[j] < |bs|
    ensures Fold(st, Weave(Left(idx, bs, prog), sched)).calls == st.calls + CallsOf(bs, Lasts(sched))
    decreases |sched|
  {
    hide Step, CallOf, Script, OpenAt;
    var parts := Left(idx, bs, prog);
    ScheduleBound(parts, sched);
    LastsIn(sched, |bs|);
    if sched != [] {
      var k := sched[0];
      var rest := prog[k := prog[k] + 1];
      LeftNext(idx, bs, prog, k);
      BlockStep(st, idx, bs, prog, k);
      ScheduleNames(Left(idx, bs, rest), sched[1..], k);
      CallsByStops(Step(st, parts[k][0]), idx, bs, rest, sched[1..]);
    }
  }

  lemma {:induction false} CallsInOrder(bs: seq<Block>, n: nat)
    requires n <= |bs|
    ensures CallsOf(bs, UpTo(n)) == BlockCalls(ReceivedAll(bs)[..n])
    decreases n
  {
    hide DeltaArgs, DeltaTexts, Concat;
    if n > 0 {
      CallsInOrder(bs, n - 1);
      CallsAppend(bs, UpTo(n - 1), n - 1);
      assert UpTo(n) == UpTo(n - 1) + [n - 1];
      assert ReceivedAll(bs)[..n][..n - 1] == ReceivedAll(bs)[..n - 1];
    }
  }

  lemma {:induction false} CallsAppend(bs: seq<Block>, ks: seq<nat>, k: nat)
    requires k < |bs| && forall j | 0 <= j < |ks| :: ks[j] < |bs|
    ensures CallsOf(bs, ks + [k]) == CallsOf(bs, ks) + CallOf(bs[k])
    decreases |ks|
  {
    if ks != [] {
      assert (ks + [k])[1..] == ks[1..] + [k];
      CallsAppend(bs, ks[1..], k);
    } else {
      assert (ks + [k])[1..] == [];
    }
  }

  // ---- the order of the calls ----

  /** The tool blocks among those numbered ks. */
  ghost function Tools(bs: seq<Block>, ks: seq<nat>): (r: seq<nat>)
    requires forall j | 0 <= j < |ks| :: ks[j] < |bs|
    ensures forall j | 0 <= j < |r| :: r[j] < |bs| && bs[r[j]].head.kind == ToolUseBlock
    ensures forall k: nat :: k in r <==> k in ks && bs[k].head.kind == ToolUseBlock
    decreases |ks|
  {
    if ks == [] then []
    else
      assert ks == [ks[0]] + ks[1..];
      (if bs[ks[0]].head.kind == ToolUseBlock then [ks[0]] else []) + Tools(bs, ks[1..])
  }

  ghost predicate Increasing(ks: seq<nat>) { forall i, j | 0 <= i < j < |ks| :: ks[i] < ks[j] }

  lemma {:induction false} CallsOfTools(bs: seq<Block>, ks: seq<nat>)
    requires forall j | 0 <= j < |ks| :: ks[j] < |bs|
    ensures CallsOf(bs, ks) == CallsOf(bs, Tools(bs, ks))
    decreases |ks|
  {
    hide CallOf, Tools;
    if ks != [] {
      CallsOfTools(bs, ks[1..]);
      ToolsCons(bs, ks);
      if bs[ks[0]].head.kind == ToolUseBlock {
        assert ([ks[0]] + Tools(bs, ks[1..]))[1..] == Tools(bs, ks[1..]);
      }
    }
  }

  lemma ToolsCons(bs: seq<Block>, ks: seq<nat>)
    requires ks != [] && forall j | 0 <= j < |ks| :: ks[j] < |bs|
    ensures bs[ks[0]].head.kind == ToolUseBlock ==> Tools(bs, ks) == [ks[0]] + Tools(bs, ks[1..])
    ensures bs[ks[0]].head.kind != ToolUseBlock ==> Tools(bs, ks) == Tools(bs, ks[1..]) && CallOf(bs[ks[0]]) == []
    ensures Tools(bs, []) == []
  {
    hide Received;
  }

  lemma {:induction false} ToolsIncreasing(bs: seq<Block>, ks: seq<nat>)
    requires (forall j | 0 <= j < |ks| :: ks[j] < |bs|) && Increasing(ks)
    ensures Increasing(Tools(bs, ks))
    decreases |ks|
  {
    if ks != [] {
      ToolsIncreasing(bs, ks[1..]);
      assert forall k: nat | k in ks[1..] :: ks[0] < k;
    }
  }

  /** There is one increasing order of some numbers. */
  lemma {:induction false} IncreasingUnique(a: seq<nat>, b: seq<nat>)
    requires Increasing(a) && Increasing(b) && forall k: nat :: k in a <==> k in b
    ensures a == b
    decreases |a|
  {
    if a == [] {
      HasHead(b);
    } else {
      assert a[0] in b;
      assert b != [] && b[0] in a;
      HeadLeast(a);
      HeadLeast(b);
      assert a[0] == b[0];
      assert a == [a[0]] + a[1..] && b == [b[0]] + b[1..];
      IncreasingUnique(a[1..], b[1..]);
    }
  }

  lemma HasHead(b: seq<nat>)
    ensures b == [] || b[0] in b
  {
  }

  lemma HeadLeast(a: seq<nat>)
    requires Increasing(a) && a != []
    ensures forall k: nat :: k in a <==> k == a[0] || k in a[1..]
    ensures forall k: nat | k in a[1..] :: a[0] < k
    ensures Increasing(a[1..])
  {
    assert a == [a[0]] + a[1..];
  }

  lemma {:induction false} LastsNames(sched: seq<nat>)
    ensures forall k: nat :: k in Lasts(sched) <==> k in sched
    decreases |sched|
  {
    if sched != [] {
      assert sched == [sched[0]] + sched[1..];
      LastsNames(sched[1..]);
    }
  }

  /** The tool blocks in the order of their stops. */
  ghost function ToolStops(bs: seq<Block>, sched: seq<nat>): (r: seq<nat>)
    requires forall j | 0 <= j < |sched| :: sched[j] < |bs|
    ensures forall j | 0 <= j < |r| :: r[j] < |bs| && bs[r[j]].head.kind == ToolUseBlock
  {
    LastsIn(sched, |bs|);
    Tools(bs, Lasts(sched))
  }

  /** All tool blocks stop, so in block order only if they stop as they stand. */
  lemma StopsInOrder(idx: seq<int>, bs: seq<Block>, sched: seq<nat>)
    requires |idx| == |bs| && Schedule(Scripts(idx, bs), sched)
    ensures forall j | 0 <= j < |sched| :: sched[j] < |bs|
    ensures Increasing(ToolStops(bs, sched)) <==> ToolStops(bs, sched) == Tools(bs, UpTo(|bs|))
  {
    ScheduleBound(Scripts(idx, bs), sched);
    ToolsIncreasing(bs, UpTo(|bs|));
    LastsNames(sched);
    hide Schedule, Lasts;
    forall k: nat
      ensures k in sched <==> k in UpTo(|bs|)
    {
      if k < |bs| {
        ScheduleNames(Scripts(idx, bs), sched, k);
        assert UpTo(|bs|)[k] == k;
      }
    }
    if Increasing(ToolStops(bs, sched)) {
      IncreasingUnique(ToolStops(bs, sched), Tools(bs, UpTo(|bs|)));
    }
  }

  // ---- text ----

  predicate IsText(e: Event) {
    e.kind == BlockDelta && e.delta.Some? && e.delta.value.kind == TextDelta && e.delta.value.text != ""
  }

  /** The pieces of text of some events. */
  function EventTexts(es: seq<Event>): seq<string>
    decreases |es|
  {
    if es == [] then []
    else if IsText(es[0]) then [es[0].delta.value.text] + EventTexts(es[1..])
    else EventTexts(es[1..])
  }

  /** The part of a schedule that concerns pieces of text. */
  ghost function TextSchedule(es: seq<Event>, sched: seq<nat>): seq<nat>
    requires |es| == |sched|
    decreases |es|
  {
    if es == [] then []
    else if IsText(es[0]) then [sched[0]] + TextSchedule(es[1..], sched[1..])
    else TextSchedule(es[1..], sched[1..])
  }

  lemma {:induction false} FoldText(st: Reading, es: seq<Event>)
    ensures Fold(st, es).emitted == st.emitted + EventTexts(es)
    ensures Fold(st, es).text == st.text + Concat(EventTexts(es))
    decreases |es|
  {
    if es != [] {
      FoldText(Step(st, es[0]), es[1..]);
    }
  }

  ghost function TextParts(parts: seq<seq<Event>>): seq<seq<string>> {
    seq(|parts|, k requires 0 <= k < |parts| => EventTexts(parts[k]))
  }

  /** The pieces of text of an interleaving are an interleaving of the blocks' pieces of text. */
  lemma {:induction false} WeaveTexts(parts: seq<seq<Event>>, sched: seq<nat>)
    requires Schedule(parts, sched)
    ensures var es := Weave(parts, sched);
            && Schedule(TextParts(parts), TextSchedule(es, sched))
            && Weave(TextParts(parts), TextSchedule(es, sched)) == EventTexts(es)
    decreases |sched|
  {
    if sched != [] {
      var k := sched[0];
      var rest := parts[k := parts[k][1..]];
      WeaveTexts(rest, sched[1..]);
      var es := Weave(parts, sched);
      assert es[1..] == Weave(rest, sched[1..]);
      if IsText(es[0]) {
        assert TextParts(rest) == TextParts(parts)[k := TextParts(parts)[k][1..]];
      } else {
        assert TextParts(rest) == TextParts(parts);
      }
    }
  }

  lemma {:induction false} ScriptTexts(i: int, b: Block, p: nat)
    requires 1 <= p <= |b.deltas| + 1
    ensures EventTexts(Script(i, b)[p..]) == DeltaTexts(b.deltas[p - 1..])
    decreases |b.deltas| + 1 - p
  {
    var es := Script(i, b)[p..];
    if p <= |b.deltas| {
      assert es[1..] == Script(i, b)[p + 1..];
      assert b.deltas[p - 1..][1..] == b.deltas[p..];
      ScriptTexts(i, b, p + 1);
    } else {
      assert es[1..] == [];
    }
  }

  lemma {:induction false} NoTexts(ds: seq<Delta>)
    requires forall j | 0 <= j < |ds| :: ds[j].kind != TextDelta
    ensures DeltaTexts(ds) == []
    decreases |ds|
  {
    if ds != [] { NoTexts(ds[1..]); }
  }

  /** A block's pieces of text join up to the text of the assembled block. */
  lemma BlockText(i: int, b: Block)
    requires ProperBlock(b)
    ensures Concat(EventTexts(Script(i, b))) == if b.head.kind == TextBlock then Received(b).text else ""
    ensures Received(b).kind == b.head.kind
  {
    ScriptTexts(i, b, 1);
    assert b.deltas[0..] == b.deltas;
    if b.head.kind != TextBlock { NoTexts(b.deltas); }
  }

  lemma {:induction false} FlatTexts(idx: seq<int>, bs: seq<Block>, n: nat)
    requires |idx| == |bs| && n <= |bs| && forall k | 0 <= k < |bs| :: ProperBlock(bs[k])
    ensures Concat(BlockTexts(ReceivedAll(bs)[..n])) + Concat(Flat(TextParts(Scripts(idx, bs)), n))
            == Concat(Flat(TextParts(Scripts(idx, bs)), 0))
    decreases n
  {
    hide Script, EventTexts, Received, Concat;
    var parts := TextParts(Scripts(idx, bs));
    if n > 0 {
      FlatTexts(idx, bs, n - 1);
      var a := ReceivedAll(bs)[..n];
      assert a[..n - 1] == ReceivedAll(bs)[..n - 1];
      BlockText(idx[n - 1], bs[n - 1]);
      ConcatAppend(parts[n - 1], Flat(parts, n));
      if bs[n - 1].head.kind == TextBlock {
        ConcatSnoc(BlockTexts(a[..n - 1]), a[n - 1].text);
      }
    } else {
      assert ReceivedAll(bs)[..0] == [];
      ConcatNone();
    }
  }

  // ---- the whole stream ----

  /** The last stop reason given, or none. */
  function LastStop(es: seq<Event>, sofar: string): string
    decreases |es|
  {
    if es == [] then sofar
    else
      var e := es[0];
      LastStop(es[1..],
               if e.kind == MessageDelta && e.delta.Some? && e.delta.value.stopReason != ""
               then e.delta.value.stopReason else sofar)
  }

  lemma {:induction false} FoldFinish(st: Reading, es: seq<Event>, sofar: string)
    requires st.finish == ToFinishReason(sofar)
    ensures Fold(st, es).finish == ToFinishReason(LastStop(es, sofar))
    decreases |es|
  {
    if es != [] {
      var e := es[0];
      var next := if e.kind == MessageDelta && e.delta.Some? && e.delta.value.stopReason != ""
                  then e.delta.value.stopReason else sofar;
      FoldFinish(Step(st, e), es[1..], next);
    }
  }

  /** The usage given last: input tokens when the message starts, output tokens as it goes on. */
  function LastUsage(es: seq<Event>, sofar: Usage): Usage
    decreases |es|
  {
    if es == [] then sofar
    else
      var e := es[0];
      LastUsage(es[1..],
                if e.kind == MessageStart && e.inputTokens.Some? then sofar.(inputTokens := e.inputTokens.value)
                else if e.kind == MessageDelta && e.outputTokens.Some? then sofar.(outputTokens := e.outputTokens.value)
                else sofar)
  }

  lemma {:induction false} FoldUsage(st: Reading, es: seq<Event>)
    ensures Fold(st, es).usage == LastUsage(es, st.usage)
    decreases |es|
  {
    if es != [] { FoldUsage(Step(st, es[0]), es[1..]); }
  }

  /** A stream of the blocks bs: any interleaving of their scripts, with other events anywhere between. */
  ghost predicate Streams(es: seq<Event>, idx: seq<int>, bs: seq<Block>, sched: seq<nat>) {
    && |idx| == |bs|
    && (forall a, b | 0 <= a < b < |idx| :: idx[a] != idx[b])
    && (forall k | 0 <= k < |bs| :: ProperBlock(bs[k]))
    && Schedule(Scripts(idx, bs), sched)
    && BlockEvents(es) == Weave(Scripts(idx, bs), sched)
  }

  lemma CallsAtStops(es: seq<Event>, idx: seq<int>, bs: seq<Block>, sched: seq<nat>)
    requires Streams(es, idx, bs, sched)
    ensures forall j | 0 <= j < |Lasts(sched)| :: Lasts(sched)[j] < |bs|
    ensures Fold(START, es).calls == CallsOf(bs, Lasts(sched))
  {
    hide Fold, CallsOf, Lasts, Script;
    var prog := seq(|bs|, k => 0 as nat);
    BlocksOnly(START, START, es);
    assert Left(idx, bs, prog) == Scripts(idx, bs);
    CallsByStops(START, idx, bs, prog, sched);
  }

  /** The calls are those of the tool blocks, in the order of their stops. */
  lemma CallsAre(es: seq<Event>, idx: seq<int>, bs: seq<Block>, sched: seq<nat>)
    requires Streams(es, idx, bs, sched)
    ensures forall j | 0 <= j < |sched| :: sched[j] < |bs|
    ensures Fold(START, es).calls == CallsOf(bs, ToolStops(bs, sched))
    ensures BlockCalls(ReceivedAll(bs)) == CallsOf(bs, Tools(bs, UpTo(|bs|)))
  {
    ScheduleBound(Scripts(idx, bs), sched);
    CallsAtStops(es, idx, bs, sched);
    hide Fold, CallsOf, Lasts, Streams, Schedule, Tools, BlockCalls;
    CallsInOrder(bs, |bs|);
    assert ReceivedAll(bs)[..|bs|] == ReceivedAll(bs);
    CallsOfTools(bs, Lasts(sched));
    CallsOfTools(bs, UpTo(|bs|));
  }

  /**
   In any interleaving whose tool blocks stop in block order the calls are those of the deltas, and of
   the message if its tool input comes in deltas.
   */
  lemma CallsRefine(es: seq<Event>, idx: seq<int>, bs: seq<Block>, sched: seq<nat>)
    requires Streams(es, idx, bs, sched) && (forall j | 0 <= j < |sched| :: sched[j] < |bs|)
             && Increasing(ToolStops(bs, sched))
    ensures Fold(START, es).calls == BlockCalls(ReceivedAll(bs))
    ensures Fold(START, es).calls == BlockCalls(AssembledAll(bs)) <==> forall k | 0 <= k < |bs| :: InputStreamed(bs[k])
    ensures |Fold(START, es).calls| == |BlockCalls(AssembledAll(bs))|
  {
    CallsAre(es, idx, bs, sched);
    StopsInOrder(idx, bs, sched);
    hide Fold, CallsOf, Tools, Lasts, BlockCalls, Streams;
    StartInput(bs, |bs|);
    assert ReceivedAll(bs)[..|bs|] == ReceivedAll(bs) && AssembledAll(bs)[..|bs|] == AssembledAll(bs);
  }

  /** The text is the pieces in the order they came. */
  lemma TextIsPieces(es: seq<Event>, idx: seq<int>, bs: seq<Block>, sched: seq<nat>)
    requires Streams(es, idx, bs, sched)
    ensures var pieces := EventTexts(BlockEvents(es));
            && Fold(START, es).emitted == pieces && Fold(START, es).text == Concat(pieces)
            && Schedule(TextParts(Scripts(idx, bs)), TextSchedule(BlockEvents(es), sched))
            && pieces == Weave(TextParts(Scripts(idx, bs)), TextSchedule(BlockEvents(es), sched))
  {
    BlocksOnly(START, START, es);
    FoldText(START, BlockEvents(es));
    WeaveTexts(Scripts(idx, bs), sched);
  }

  /**
   Streaming refines the whole response: for any interleaving whose tool blocks stop in block order and
   whose pieces of text come in block order, the reader gives the usage and (when the stream carries it)
   the stop reason's meaning of the assembled message, its content exactly if no text block starts with
   text, and its calls exactly if no tool block starts with input that no delta brings. With a call in it the
   finish reason is always tool_use, so it differs from the whole response's exactly when that one
   stopped for another reason although it has calls.
   */
  lemma StreamingRefines(es: seq<Event>, idx: seq<int>, bs: seq<Block>, sched: seq<nat>)
    requires Streams(es, idx, bs, sched) && (forall j | 0 <= j < |sched| :: sched[j] < |bs|)
             && Increasing(ToolStops(bs, sched))
    requires Sorted(TextSchedule(BlockEvents(es), sched))
    ensures var r := Finished(Fold(START, es));
            var d := Decoded(WireResponse(LastStop(es, ""), AssembledAll(bs), LastUsage(es, Usage(0, 0))));
            && (r.content == d.content <==> forall k | 0 <= k < |bs| :: TextStreamed(bs[k]))
            && Concat(Fold(START, es).emitted) == r.content
            && (r.toolCalls == d.toolCalls <==> forall k | 0 <= k < |bs| :: InputStreamed(bs[k]))
            && |r.toolCalls| == |d.toolCalls|
            && r.usage == d.usage
            && (r.toolCalls != [] ==> r.finish == ToolUse)
            && (r.finish == d.finish <==> d.toolCalls == [] || LastStop(es, "") == "tool_use")
  {
    CallsRefine(es, idx, bs, sched);
    ContentRefines(es, idx, bs, sched);
    FoldFinish(START, es, "");
    FoldUsage(START, es);
  }

  /** Text that blocks start with makes the content longer. */
  lemma {:induction false} StartText(bs: seq<Block>, n: nat)
    requires n <= |bs|
    ensures var r, a := Concat(BlockTexts(ReceivedAll(bs)[..n])), Concat(BlockTexts(AssembledAll(bs)[..n]));
            && |r| <= |a| && ((forall k | 0 <= k < n :: TextStreamed(bs[k])) ==> r == a)
            && (|r| == |a| ==> forall k | 0 <= k < n :: TextStreamed(bs[k]))
    decreases n
  {
    hide DeltaTexts, DeltaArgs, Concat;
    if n > 0 {
      StartText(bs, n - 1);
      assert ReceivedAll(bs)[..n][..n - 1] == ReceivedAll(bs)[..n - 1];
      assert AssembledAll(bs)[..n][..n - 1] == AssembledAll(bs)[..n - 1];
      if bs[n - 1].head.kind == TextBlock {
        ConcatSnoc(BlockTexts(ReceivedAll(bs)[..n - 1]), Received(bs[n - 1]).text);
        ConcatSnoc(BlockTexts(AssembledAll(bs)[..n - 1]), Assembled(bs[n - 1]).text);
        assert Assembled(bs[n - 1]).text == bs[n - 1].head.text + Received(bs[n - 1]).text;
      }
    } else {
      assert ReceivedAll(bs)[..0] == [] && AssembledAll(bs)[..0] == [];
    }
  }

  lemma {:induction false} StartInput(bs: seq<Block>, n: nat)
    requires n <= |bs|
    ensures var r, a := BlockCalls(ReceivedAll(bs)[..n]), BlockCalls(AssembledAll(bs)[..n]);
            && |r| == |a| && (r == a <==> forall k | 0 <= k < n :: InputStreamed(bs[k]))
    decreases n
  {
    hide DeltaTexts, DeltaArgs, Concat;
    if n > 0 {
      StartInput(bs, n - 1);
      assert ReceivedAll(bs)[..n][..n - 1] == ReceivedAll(bs)[..n - 1];
      assert AssembledAll(bs)[..n][..n - 1] == AssembledAll(bs)[..n - 1];
      var r, a := BlockCalls(ReceivedAll(bs)[..n - 1]), BlockCalls(AssembledAll(bs)[..n - 1]);
      var x, y := Received(bs[n - 1]), Assembled(bs[n - 1]);
      if bs[n - 1].head.kind == ToolUseBlock {
        SnocEqual(r, ToolCall(x.id, x.name, x.input), a, ToolCall(y.id, y.name, y.input));
      }
    } else {
      assert ReceivedAll(bs)[..0] == [] && AssembledAll(bs)[..0] == [];
    }
  }

  lemma SnocEqual(r: seq<ToolCall>, x: ToolCall, a: seq<ToolCall>, y: ToolCall)
    requires |r| == |a|
    ensures r + [x] == a + [y] <==> r == a && x == y
  {
    assert (r + [x])[..|r|] == r && (a + [y])[..|a|] == a && (r + [x])[|r|] == x && (a + [y])[|a|] == y;
  }

  /** The content, given that the pieces of text come in block order. */
  lemma ContentRefines(es: seq<Event>, idx: seq<int>, bs: seq<Block>, sched: seq<nat>)
    requires Streams(es, idx, bs, sched) && Sorted(TextSchedule(BlockEvents(es), sched))
    ensures Fold(START, es).text == Concat(Fold(START, es).emitted) == Concat(BlockTexts(ReceivedAll(bs)))
    ensures Fold(START, es).text == Concat(BlockTexts(AssembledAll(bs))) <==>
            forall k | 0 <= k < |bs| :: TextStreamed(bs[k])
  {
    ContentReceived(es, idx, bs, sched);
    hide Fold, Streams, Sorted, TextSchedule, BlockTexts, Concat;
    StartText(bs, |bs|);
    assert ReceivedAll(bs)[..|bs|] == ReceivedAll(bs) && AssembledAll(bs)[..|bs|] == AssembledAll(bs);
  }

  lemma ContentReceived(es: seq<Event>, idx: seq<int>, bs: seq<Block>, sched: seq<nat>)
    requires Streams(es, idx, bs, sched) && Sorted(TextSchedule(BlockEvents(es), sched))
    ensures Fold(START, es).text == Concat(Fold(START, es).emitted) == Concat(BlockTexts(ReceivedAll(bs)))
  {
    TextIsPieces(es, idx, bs, sched);
    SortedWeave(TextParts(Scripts(idx, bs)), TextSchedule(BlockEvents(es), sched));
    FlatTexts(idx, bs, |bs|);
    assert ReceivedAll(bs)[..|bs|] == ReceivedAll(bs);
  }

  // ---- from the lines of a stream to the message ----

  /** A message and how it is sent: its blocks under their indices, interleaved by a schedule. */
  datatype Sent = Sent(idx: seq<int>, bs: seq<Block>, sched: seq<nat>)

  /**
   The events send the message: tool blocks stop in block order, text comes in block order, and all text
   and tool input comes in deltas.
   */
  ghost predicate Sends(es: seq<Event>, m: Sent) {
    && Streams(es, m.idx, m.bs, m.sched) && (forall j | 0 <= j < |m.sched| :: m.sched[j] < |m.bs|)
    && Increasing(ToolStops(m.bs, m.sched)) && Sorted(TextSchedule(BlockEvents(es), m.sched))
    && forall k | 0 <= k < |m.bs| :: TextStreamed(m.bs[k]) && InputStreamed(m.bs[k])
  }

  /** The last of some values, or a default. */
  function Final<T>(xs: seq<T>, default: T): T { if xs == [] then default else xs[|xs| - 1] }

  /** The stop reasons that events give. */
  function StopsIn(es: seq<Event>): seq<string>
    decreases |es|
  {
    if es == [] then []
    else
      var e := es[0];
      (if e.kind == MessageDelta && e.delta.Some? && e.delta.value.stopReason != ""
       then [e.delta.value.stopReason] else []) + StopsIn(es[1..])
  }

  function InputsIn(es: seq<Event>): seq<int>
    decreases |es|
  {
    if es == [] then []
    else
      (if es[0].kind == MessageStart && es[0].inputTokens.Some? then [es[0].inputTokens.value] else [])
      + InputsIn(es[1..])
  }

  function OutputsIn(es: seq<Event>): seq<int>
    decreases |es|
  {
    if es == [] then []
    else
      (if es[0].kind == MessageDelta && es[0].outputTokens.Some? then [es[0].outputTokens.value] else [])
      + OutputsIn(es[1..])
  }

  /** The response tells the message: text, calls and usage, and the stop reason unless there are calls. */
  predicate Tells(r: ChatResponse, es: seq<Event>, m: Sent) {
    && r.content == TextIn(AssembledAll(m.bs)) && r.toolCalls == CallsIn(AssembledAll(m.bs))
    && (r.toolCalls != [] ==> r.finish == ToolUse)
    && (r.toolCalls == [] ==> Finishes(r.finish, Final(StopsIn(es), "")))
    && r.usage == Usage(Final(InputsIn(es), 0), Final(OutputsIn(es), 0))
  }

  lemma FinalCons<T>(x: T, xs: seq<T>, default: T)
    ensures Final([x] + xs, default) == Final(xs, x)
  {
  }

  lemma {:induction false} LastStopIs(es: seq<Event>, sofar: string)
    ensures LastStop(es, sofar) == Final(StopsIn(es), sofar)
    decreases |es|
  {
    if es != [] {
      var e := es[0];
      var given := e.kind == MessageDelta && e.delta.Some? && e.delta.value.stopReason != "";
      LastStopIs(es[1..], if given then e.delta.value.stopReason else sofar);
      if given { FinalCons(e.delta.value.stopReason, StopsIn(es[1..]), sofar); }
    }
  }

  lemma {:induction false} LastUsageIs(es: seq<Event>, sofar: Usage)
    ensures LastUsage(es, sofar) ==
            Usage(Final(InputsIn(es), sofar.inputTokens), Final(OutputsIn(es), sofar.outputTokens))
    decreases |es|
  {
    if es != [] {
      var e := es[0];
      if e.kind == MessageStart && e.inputTokens.Some? {
        LastUsageIs(es[1..], sofar.(inputTokens := e.inputTokens.value));
        FinalCons(e.inputTokens.value, InputsIn(es[1..]), sofar.inputTokens);
      } else if e.kind == MessageDelta && e.outputTokens.Some? {
        LastUsageIs(es[1..], sofar.(outputTokens := e.outputTokens.value));
        FinalCons(e.outputTokens.value, OutputsIn(es[1..]), sofar.outputTokens);
      } else {
        LastUsageIs(es[1..], sofar);
      }
    }
  }

  /** A message that is sent comes out. */
  lemma SentComesOut(es: seq<Event>, m: Sent)
    requires Sends(es, m)
    ensures Tells(Finished(Fold(START, es)), es, m)
  {
    StreamingRefines(es, m.idx, m.bs, m.sched);
    FoldFinish(START, es, "");
    LastStopIs(es, "");
    LastUsageIs(es, Usage(0, 0));
    FoldUsage(START, es);
    TextsFront(AssembledAll(m.bs));
    hide Fold, Streams, ToolStops, TextSchedule, BlockTexts, BlockCalls, AssembledAll, StopsIn, InputsIn, OutputsIn;
  }

  /** The part that a data line carries is what the reader takes off it. */
  lemma PartTaken(line: string, part: string)
    requires WritesPart(line, part)
    ensures line != "" && Text.HasPrefix(line, "data:")
    ensures Text.TrimPrefix(Text.TrimPrefix(line, "data:"), " ") == part
  {
    if line == "data: " + part {
      assert line[..5] == "data:" && line[5..] == " " + part && (" " + part)[1..] == part;
    } else {
      assert line[..5] == "data:" && line[5..] == part;
      assert part != "" ==> part[0] != ' ';
    }
  }

  lemma {:induction false} BlockRead(block: seq<string>, rest: seq<string>, held: seq<string>, parts: seq<string>)
    requires StreamLines.Block(block, parts)
    ensures Payloads(block + rest, held) == Payloads(rest, held + parts)
    decreases |block|
  {
    if block == [] {
      assert block + rest == rest && held + parts == held;
    } else {
      var all := block + rest;
      assert all[0] == block[0] && all[1..] == block[1..] + rest;
      if Aside(block[0]) && StreamLines.Block(block[1..], parts) {
        NoPrefix(block[0]);
        BlockRead(block[1..], rest, held, parts);
      } else {
        PartTaken(block[0], parts[0]);
        BlockRead(block[1..], rest, held + [parts[0]], parts[1..]);
        assert held + [parts[0]] + parts[1..] == held + parts;
      }
    }
  }

  lemma FrameRead(lines: seq<string>, parts: seq<string>)
    requires lines != [] && StreamLines.Block(lines[..FirstEmpty(lines)], parts)
    ensures Payloads(lines, []) == (if Idle(parts) then [] else [Text.Join(parts, "\n")]) + Payloads(Behind(lines), [])
  {
    var n := FirstEmpty(lines);
    assert lines == lines[..n] + lines[n..];
    BlockRead(lines[..n], lines[n..], [], parts);
    assert [] + parts == parts;
    if n < |lines| {
      assert lines[n..][0] == "" && lines[n..][1..] == lines[n + 1..];
    } else {
      assert lines[n..] == [];
      assert Payloads([], []) == [];
    }
  }

  lemma {:induction false} FramesRead(lines: seq<string>, texts: seq<string>)
    requires Frames(lines, texts)
    ensures Payloads(lines, []) == texts
    decreases |lines|
  {
    if lines != [] {
      var parts :| StreamLines.Block(lines[..FirstEmpty(lines)], parts)
                   && if Idle(parts) then Frames(Behind(lines), texts)
                      else texts != [] && texts[0] == Text.Join(parts, "\n") && Frames(Behind(lines), texts[1..]);
      FrameRead(lines, parts);
      hide Payloads, StreamLines.Block, Idle, Frames;
      if Idle(parts) {
        FramesRead(Behind(lines), texts);
      } else {
        FramesRead(Behind(lines), texts[1..]);
        assert texts == [texts[0]] + texts[1..];
      }
    }
  }

  lemma {:induction false} DecodesRead(texts: seq<string>, es: seq<Event>, decode: string -> Option<Event>)
    requires Decodes(texts, es, decode)
    ensures Decode(texts, decode) == es
    decreases |texts|
  {
    if texts != [] {
      if decode(texts[0]) == None {
        DecodesRead(texts[1..], es, decode);
      } else {
        DecodesRead(texts[1..], es[1..], decode);
        assert es == [es[0]] + es[1..];
      }
    }
  }

  lemma LinesLaw(lines: seq<string>, decode: string -> Option<Event>)
    ensures forall texts, es, m: Sent | Frames(lines, texts) && Decodes(texts, es, decode) && Sends(es, m) ::
              Tells(Finished(Fold(START, Decode(Payloads(lines, []), decode))), es, m)
  {
    hide Frames, Decodes, Sends, Tells, Fold, Decode, Payloads;
    forall texts, es, m: Sent | Frames(lines, texts) && Decodes(texts, es, decode) && Sends(es, m)
      ensures Tells(Finished(Fold(START, Decode(Payloads(lines, []), decode))), es, m)
    {
      FramesRead(lines, texts);
      DecodesRead(texts, es, decode);
      SentComesOut(es, m);
    }
  }

  // ---- text that arrives out of order ----

  predicate SameDelta(c: Delta, d: Delta) {
    c.kind == d.kind && (c.text == "" <==> d.text == "")
  }

  /** Blocks that differ in what their deltas say only, not in which of them are pieces of text. */
  ghost predicate SameShape(cs: seq<Block>, bs: seq<Block>) {
    && |cs| == |bs|
    && forall k | 0 <= k < |bs| ::
         && cs[k].head == bs[k].head && |cs[k].deltas| == |bs[k].deltas|
         && forall j | 0 <= j < |bs[k].deltas| :: SameDelta(cs[k].deltas[j], bs[k].deltas[j])
  }

  ghost predicate SamePlaces(p: seq<seq<Event>>, q: seq<seq<Event>>) {
    && |p| == |q|
    && forall k | 0 <= k < |p| ::
         |p[k]| == |q[k]| && forall j | 0 <= j < |p[k]| :: IsText(p[k][j]) == IsText(q[k][j])
  }

  lemma ShapePlaces(idx: seq<int>, cs: seq<Block>, bs: seq<Block>)
    requires |idx| == |bs| && SameShape(cs, bs)
    ensures SamePlaces(Scripts(idx, cs), Scripts(idx, bs))
  {
    forall k, j | 0 <= k < |bs| && 0 <= j < |bs[k].deltas| + 2
      ensures IsText(Script(idx[k], cs[k])[j]) == IsText(Script(idx[k], bs[k])[j])
    {
      if 1 <= j <= |bs[k].deltas| { assert SameDelta(cs[k].deltas[j - 1], bs[k].deltas[j - 1]); }
    }
  }

  lemma {:induction false} SameTextSchedule(p: seq<seq<Event>>, q: seq<seq<Event>>, sched: seq<nat>)
    requires SamePlaces(p, q) && Schedule(p, sched) && Schedule(q, sched)
    ensures TextSchedule(Weave(p, sched), sched) == TextSchedule(Weave(q, sched), sched)
    decreases |sched|
  {
    hide IsText;
    if sched != [] {
      var k := sched[0];
      var p1, q1 := p[k := p[k][1..]], q[k := q[k][1..]];
      assert SamePlaces(p1, q1);
      SameTextSchedule(p1, q1, sched[1..]);
      assert Weave(p, sched)[1..] == Weave(p1, sched[1..]) && Weave(q, sched)[1..] == Weave(q1, sched[1..]);
    }
  }

  /** Whether the pieces of text come in block order is a matter of the shape alone. */
  lemma ShapeDecides(idx: seq<int>, cs: seq<Block>, bs: seq<Block>, sched: seq<nat>)
    requires |idx| == |bs| && SameShape(cs, bs) && Schedule(Scripts(idx, bs), sched)
    ensures Schedule(Scripts(idx, cs), sched)
    ensures TextSchedule(Weave(Scripts(idx, cs), sched), sched) == TextSchedule(Weave(Scripts(idx, bs), sched), sched)
  {
    ShapePlaces(idx, cs, bs);
    SameSchedule(Scripts(idx, bs), Scripts(idx, cs), sched);
    SameTextSchedule(Scripts(idx, cs), Scripts(idx, bs), sched);
  }

  function Recode(d: Delta, k: nat): Delta {
    if d.kind == TextDelta && d.text != "" then d.(text := Code(k)) else d
  }

  function RecodedBlock(b: Block, k: nat): Block {
    b.(deltas := seq(|b.deltas|, j requires 0 <= j < |b.deltas| => Recode(b.deltas[j], k)))
  }

  /** The blocks with each piece of text of block k replaced by the code of k. */
  function Recoded(bs: seq<Block>): seq<Block> {
    seq(|bs|, k requires 0 <= k < |bs| => RecodedBlock(bs[k], k))
  }

  lemma RecodedShape(bs: seq<Block>)
    requires forall k | 0 <= k < |bs| :: ProperBlock(bs[k])
    ensures SameShape(Recoded(bs), bs) && forall k | 0 <= k < |bs| :: ProperBlock(Recoded(bs)[k])
  {
  }

  lemma {:induction false} TextsAll(es: seq<Event>, x: string)
    requires forall j | 0 <= j < |es| && IsText(es[j]) :: es[j].delta.value.text == x
    ensures forall j | 0 <= j < |EventTexts(es)| :: EventTexts(es)[j] == x
    decreases |es|
  {
    if es != [] { TextsAll(es[1..], x); }
  }

  lemma RecodedCoded(idx: seq<int>, bs: seq<Block>)
    requires |idx| == |bs|
    ensures Coded(TextParts(Scripts(idx, Recoded(bs))))
  {
    hide Code, EventTexts;
    forall k | 0 <= k < |bs|
      ensures forall j | 0 <= j < |EventTexts(Script(idx[k], RecodedBlock(bs[k], k)))| ::
                EventTexts(Script(idx[k], RecodedBlock(bs[k], k)))[j] == Code(k)
    {
      TextsAll(Script(idx[k], RecodedBlock(bs[k], k)), Code(k));
    }
  }

  lemma {:induction false} AllBlockEvents(es: seq<Event>)
    requires forall j | 0 <= j < |es| :: IsBlockEvent(es[j])
    ensures BlockEvents(es) == es
    decreases |es|
  {
    if es != [] { AllBlockEvents(es[1..]); }
  }

  /** The scripts of blocks, interleaved with nothing between them, are a stream of the blocks. */
  lemma BareStream(idx: seq<int>, bs: seq<Block>, sched: seq<nat>)
    requires |idx| == |bs| && (forall a, b | 0 <= a < b < |idx| :: idx[a] != idx[b])
    requires (forall k | 0 <= k < |bs| :: ProperBlock(bs[k])) && Schedule(Scripts(idx, bs), sched)
    ensures Streams(Weave(Scripts(idx, bs), sched), idx, bs, sched)
  {
    var es := Weave(Scripts(idx, bs), sched);
    forall j | 0 <= j < |es|
      ensures IsBlockEvent(es[j])
    {
      WeaveAt(Scripts(idx, bs), sched, j);
    }
    AllBlockEvents(es);
  }

  /** Of any shape and order in which text comes out of block order there is a stream whose content is wrong. */
  lemma TextOrderNeeded(es: seq<Event>, idx: seq<int>, bs: seq<Block>, sched: seq<nat>)
    requires Streams(es, idx, bs, sched) && !Sorted(TextSchedule(BlockEvents(es), sched))
    ensures SameShape(Recoded(bs), bs) && Schedule(Scripts(idx, Recoded(bs)), sched)
    ensures var wrong := Weave(Scripts(idx, Recoded(bs)), sched);
            && Streams(wrong, idx, Recoded(bs), sched)
            && Fold(START, wrong).text != Concat(BlockTexts(ReceivedAll(Recoded(bs))))
  {
    hide Step, Script, EventTexts, Sorted, Code;
    var cs := Recoded(bs);
    RecodedShape(bs);
    ShapeDecides(idx, cs, bs, sched);
    BareStream(idx, cs, sched);
    var wrong := Weave(Scripts(idx, cs), sched);
    TextIsPieces(wrong, idx, cs, sched);
    RecodedCoded(idx, bs);
    Scrambled(TextParts(Scripts(idx, cs)), TextSchedule(wrong, sched));
    FlatTexts(idx, cs, |cs|);
    assert ReceivedAll(cs)[..|cs|] == ReceivedAll(cs);
  }

  /**
   A shape and an order of arrival give the assembled content, whatever the deltas say, exactly if the
   pieces of text come in block order.
   */
  lemma ContentExactly(es: seq<Event>, idx: seq<int>, bs: seq<Block>, sched: seq<nat>)
    requires Streams(es, idx, bs, sched)
    ensures Sorted(TextSchedule(BlockEvents(es), sched)) <==>
            forall cs: seq<Block>, fs: seq<Event> | SameShape(cs, bs) && Streams(fs, idx, cs, sched) ::
              Fold(START, fs).text == Concat(BlockTexts(ReceivedAll(cs)))
  {
    hide Fold, Script, EventTexts, Sorted, SameShape;
    if Sorted(TextSchedule(BlockEvents(es), sched)) {
      forall cs: seq<Block>, fs: seq<Event> | SameShape(cs, bs) && Streams(fs, idx, cs, sched)
        ensures Fold(START, fs).text == Concat(BlockTexts(ReceivedAll(cs)))
      {
        ShapeDecides(idx, cs, bs, sched);
        ContentRefines(fs, idx, cs, sched);
      }
    } else {
      TextOrderNeeded(es, idx, bs, sched);
    }
  }

  // ---- calls that end out of order ----

  /** Blocks of the same kinds, with the same kinds of deltas, whatever they say. */
  ghost predicate SameKinds(cs: seq<Block>, bs: seq<Block>) {
    && |cs| == |bs|
    && forall k | 0 <= k < |bs| ::
         && cs[k].head.kind == bs[k].head.kind && |cs[k].deltas| == |bs[k].deltas|
         && forall j | 0 <= j < |bs[k].deltas| :: cs[k].deltas[j].kind == bs[k].deltas[j].kind
  }

  lemma {:induction false} SameTools(cs: seq<Block>, bs: seq<Block>, ks: seq<nat>)
    requires SameKinds(cs, bs) && forall j | 0 <= j < |ks| :: ks[j] < |bs|
    ensures Tools(cs, ks) == Tools(bs, ks)
    decreases |ks|
  {
    if ks != [] { SameTools(cs, bs, ks[1..]); }
  }

  /** The blocks with ids that tell their places. */
  function Marked(bs: seq<Block>): seq<Block> {
    seq(|bs|, k requires 0 <= k < |bs| => bs[k].(head := bs[k].head.(id := Code(k))))
  }

  lemma {:induction false} MarkedCalls(bs: seq<Block>, ks: seq<nat>)
    requires forall j | 0 <= j < |ks| :: ks[j] < |bs| && bs[ks[j]].head.kind == ToolUseBlock
    ensures |CallsOf(Marked(bs), ks)| == |ks|
    ensures forall j | 0 <= j < |ks| :: CallsOf(Marked(bs), ks)[j].id == Code(ks[j])
    decreases |ks|
  {
    hide Code, DeltaArgs, DeltaTexts;
    if ks != [] { MarkedCalls(bs, ks[1..]); }
  }

  lemma MarkedDiffer(bs: seq<Block>, a: seq<nat>, b: seq<nat>)
    requires forall j | 0 <= j < |a| :: a[j] < |bs| && bs[a[j]].head.kind == ToolUseBlock
    requires forall j | 0 <= j < |b| :: b[j] < |bs| && bs[b[j]].head.kind == ToolUseBlock
    ensures CallsOf(Marked(bs), a) == CallsOf(Marked(bs), b) ==> a == b
  {
    hide CallsOf;
    MarkedCalls(bs, a);
    MarkedCalls(bs, b);
    if CallsOf(Marked(bs), a) == CallsOf(Marked(bs), b) {
      forall j | 0 <= j < |a|
        ensures a[j] == b[j]
      {
        CodeTells(a[j], b[j]);
      }
    }
  }

  lemma CodeTells(i: nat, j: nat)
    ensures Code(i) == Code(j) ==> i == j
  {
    AsOnly(i);
    AsOnly(j);
  }

  lemma MarkedKinds(bs: seq<Block>)
    requires forall k | 0 <= k < |bs| :: ProperBlock(bs[k])
    ensures SameKinds(Marked(bs), bs) && forall k | 0 <= k < |bs| :: ProperBlock(Marked(bs)[k])
  {
    hide Code;
  }

  lemma MarkedScripts(idx: seq<int>, bs: seq<Block>)
    requires |idx| == |bs|
    ensures |Marked(bs)| == |bs|
    ensures forall k | 0 <= k < |bs| :: |Scripts(idx, bs)[k]| == |Scripts(idx, Marked(bs))[k]|
  {
    hide Code;
  }

  /**
   Of any kinds and order in which tool blocks stop out of block order there is a stream whose calls are
   in the wrong order.
   */
  lemma CallOrderNeeded(es: seq<Event>, idx: seq<int>, bs: seq<Block>, sched: seq<nat>)
    requires Streams(es, idx, bs, sched) && (forall j | 0 <= j < |sched| :: sched[j] < |bs|)
             && !Increasing(ToolStops(bs, sched))
    ensures SameKinds(Marked(bs), bs) && Schedule(Scripts(idx, Marked(bs)), sched)
    ensures var wrong := Weave(Scripts(idx, Marked(bs)), sched);
            && Streams(wrong, idx, Marked(bs), sched)
            && Fold(START, wrong).calls != BlockCalls(ReceivedAll(Marked(bs)))
  {
    hide *;
    MarkedStream(es, idx, bs, sched);
    StreamLengths(es, idx, bs, sched);
    StopsInOrder(idx, bs, sched);
    CallsAre(Weave(Scripts(idx, Marked(bs)), sched), idx, Marked(bs), sched);
    SameStops(Marked(bs), bs, sched);
    SameTools(Marked(bs), bs, UpTo(|bs|));
    MarkedDiffer(bs, ToolStops(bs, sched), Tools(bs, UpTo(|bs|)));
  }

  lemma StreamLengths(es: seq<Event>, idx: seq<int>, bs: seq<Block>, sched: seq<nat>)
    requires Streams(es, idx, bs, sched)
    ensures |idx| == |bs| && Schedule(Scripts(idx, bs), sched) && |Marked(bs)| == |bs|
  {
  }

  lemma MarkedStream(es: seq<Event>, idx: seq<int>, bs: seq<Block>, sched: seq<nat>)
    requires Streams(es, idx, bs, sched)
    ensures |idx| == |Marked(bs)| && SameKinds(Marked(bs), bs) && Schedule(Scripts(idx, Marked(bs)), sched)
    ensures Streams(Weave(Scripts(idx, Marked(bs)), sched), idx, Marked(bs), sched)
  {
    hide Script, Code, Weave;
    MarkedKinds(bs);
    MarkedScripts(idx, bs);
    SameSchedule(Scripts(idx, bs), Scripts(idx, Marked(bs)), sched);
    BareStream(idx, Marked(bs), sched);
  }

  /**
   Blocks of some kinds, streamed in some order, give the calls in block order, whatever the blocks say,
   exactly if the tool blocks stop in block order.
   */
  lemma CallsExactly(es: seq<Event>, idx: seq<int>, bs: seq<Block>, sched: seq<nat>)
    requires Streams(es, idx, bs, sched) && forall j | 0 <= j < |sched| :: sched[j] < |bs|
    ensures Increasing(ToolStops(bs, sched)) <==>
            forall cs: seq<Block>, fs: seq<Event> | SameKinds(cs, bs) && Streams(fs, idx, cs, sched) ::
              Fold(START, fs).calls == BlockCalls(ReceivedAll(cs))
  {
    hide Fold, Script, Tools, Streams, SameKinds, Increasing;
    if Increasing(ToolStops(bs, sched)) {
      forall cs: seq<Block>, fs: seq<Event> | SameKinds(cs, bs) && Streams(fs, idx, cs, sched)
        ensures Fold(START, fs).calls == BlockCalls(ReceivedAll(cs))
      {
        SameStops(cs, bs, sched);
        CallsRefine(fs, idx, cs, sched);
      }
    } else {
      CallOrderNeeded(es, idx, bs, sched);
    }
  }

  lemma SameStops(cs: seq<Block>, bs: seq<Block>, sched: seq<nat>)
    requires SameKinds(cs, bs) && forall j | 0 <= j < |sched| :: sched[j] < |bs|
    ensures |cs| == |bs| && ToolStops(cs, sched) == ToolStops(bs, sched)
  {
    LastsIn(sched, |bs|);
    hide Tools;
    SameTools(cs, bs, Lasts(sched));
  }

  function Piece(text: string): Delta { Delta(TextDelta, text, "", "") }

  /** Two text blocks that are open at the same time. */
  const OVERLAPPING := [
    Block(ContentBlock(TextBlock, "", "", "", ""), [Piece("a"), Piece("b")]),
    Block(ContentBlock(TextBlock, "", "", "", ""), [Piece("c")])]

  const OVERLAP_EVENTS := [
    StartEvent(0, OVERLAPPING[0]), StartEvent(1, OVERLAPPING[1]),
    DeltaEvent(0, Piece("a")), DeltaEvent(1, Piece("c")), DeltaEvent(0, Piece("b")),
    StopEvent(0), StopEvent(1)]

  /** Text blocks that overlap come out scrambled: the stream gives "acb", the whole response "abc". */
  lemma OverlapScrambles()
    ensures Fold(START, OVERLAP_EVENTS).text == "acb"
    ensures Concat(BlockTexts(AssembledAll(OVERLAPPING))) == "abc"
  {
    hide *;
    FoldText(START, OVERLAP_EVENTS);
    OverlapPieces();
    OverlapWhole();
  }

  lemma OverlapPieces()
    ensures START.text + Concat(EventTexts(OVERLAP_EVENTS)) == "acb"
  {
    var es := OVERLAP_EVENTS;
    assert es[1..][1..][1..][1..][1..] == [StopEvent(0), StopEvent(1)];
    assert EventTexts([StopEvent(0), StopEvent(1)]) == [] by {
      assert [StopEvent(0), StopEvent(1)][1..] == [StopEvent(1)];
    }
    assert EventTexts(es[1..][1..][1..][1..]) == ["b"];
    assert EventTexts(es[1..][1..][1..]) == ["c", "b"];
    assert EventTexts(es[1..][1..]) == ["a", "c", "b"];
    assert Concat(["a", "c", "b"]) == "a" + ("c" + ("b" + Concat([])));
  }

  lemma OverlapWhole()
    ensures Concat(BlockTexts(AssembledAll(OVERLAPPING))) == "abc"
  {
    OverlapTexts();
    hide DeltaTexts, DeltaArgs;
    var a := AssembledAll(OVERLAPPING);
    assert a[..1] == [Assembled(OVERLAPPING[0])];
    assert a[..1][..0] == [];
    assert BlockTexts(a[..1]) == ["ab"];
    assert BlockTexts(a) == ["ab", "c"];
    assert Concat(["ab", "c"]) == "ab" + ("c" + Concat([]));
  }

  lemma OverlapTexts()
    ensures Assembled(OVERLAPPING[0]).text == "ab" && Assembled(OVERLAPPING[1]).text == "c"
  {
    var ds := OVERLAPPING[0].deltas;
    assert ds[1..] == [Piece("b")];
    assert DeltaTexts(ds) == ["a", "b"] && Concat(["a", "b"]) == "a" + ("b" + Concat([]));
    assert DeltaTexts([Piece("c")]) == ["c"] && Concat(["c"]) == "c" + Concat([]);
  }
}

/**
 The OpenAI-compatible backend (pkg/providers/openai_compat/openai_compat.go): the streaming reader,
 which reassembles text and tool calls from deltas keyed by index, against the decoder of a whole
 response. JSON decoding is the parameter `decode`.
 */
module OpenAiStream {
  import opened Wrappers
  import opened Providers
  import opened Interleave
  import opened StreamLines
  import Text

  datatype ToolDelta = ToolDelta(index: int, id: string, name: string, args: string)

  datatype Choice = Choice(content: Option<string>, toolCalls: seq<ToolDelta>, finish: Option<string>)

  datatype Chunk = Chunk(choices: seq<Choice>, usage: Option<Usage>)

  /** A tool call of a whole response, its arguments as the text of a JSON object. */
  datatype WireCall = WireCall(id: string, name: string, args: string)

  datatype WireChoice = WireChoice(content: string, toolCalls: seq<WireCall>, finish: string)

  datatype WireResponse = WireResponse(choices: seq<WireChoice>, usage: Usage)

  function ToFinishReason(reason: string): FinishReason {
    if reason == "tool_calls" then ToolUse else if reason == "length" then Length else Stop
  }

  function ToRawArgs(s: string): string { if s == "" then "{}" else s }

  // ---- the whole response ----

  function ToCall(c: WireCall): ToolCall { ToolCall(c.id, c.name, ToRawArgs(c.args)) }

  /** What a whole response means. */
  function Decoded(r: WireResponse): ChatResponse {
    if r.choices == [] then ChatResponse("", [], Unset, r.usage)
    else
      var choice := r.choices[0];
      ChatResponse(choice.content,
                   seq(|choice.toolCalls|, i requires 0 <= i < |choice.toolCalls| => ToCall(choice.toolCalls[i])),
                   ToFinishReason(choice.finish), r.usage)
  }

  /** The response, field by field: a call without arguments has the empty object. */
  predicate Tells(r: ChatResponse, choice: WireChoice, usage: Usage) {
    && r.content == choice.content && r.usage == usage
    && |r.toolCalls| == |choice.toolCalls|
    && (forall k | 0 <= k < |r.toolCalls| ::
          var c, w := r.toolCalls[k], choice.toolCalls[k];
          c.id == w.id && c.name == w.name && (if w.args == "" then c.args == "{}" else c.args == w.args))
    && (r.finish == ToolUse <==> choice.finish == "tool_calls")
    && (r.finish == Length <==> choice.finish == "length")
    && (r.finish == Stop <==> choice.finish != "tool_calls" && choice.finish != "length")
  }

  lemma DecodedTells(choice: WireChoice, more: seq<WireChoice>, usage: Usage)
    ensures Tells(Decoded(WireResponse([choice] + more, usage)), choice, usage)
  {
  }

  method ToChatResponse(r: WireResponse) returns (out: ChatResponse)
    ensures out == Decoded(r)
    ensures r.choices != [] ==> Tells(out, r.choices[0], r.usage)
    ensures r.choices == [] ==> out == ChatResponse("", [], Unset, r.usage)
  {
    if r.choices == [] { return ChatResponse("", [], Unset, r.usage); }
    var choice := r.choices[0];
    var calls: seq<ToolCall> := [];
    for i := 0 to |choice.toolCalls|
      invariant |calls| == i && forall j | 0 <= j < i :: calls[j] == ToCall(choice.toolCalls[j])
    {
      var tc := choice.toolCalls[i];
      calls := calls + [ToolCall(tc.id, tc.name, ToRawArgs(tc.args))];
    }
    out := ChatResponse(choice.content, calls, ToFinishReason(choice.finish), r.usage);
  }

  // ---- what a stream says ----

  /** The JSON text of a "data:" line, unless it is empty or the end mark. */
  function Payload(line: string): Option<string> {
    if !Text.HasPrefix(line, "data:") then None
    else
      var data := Text.TrimSpace(Text.TrimPrefix(line, "data:"));
      if data == "" || data == "[DONE]" then None else Some(data)
  }

  function ChunkOf(line: string, decode: string -> Option<Chunk>): Option<Chunk> {
    match Payload(line)
    case None => None
    case Some(data) => decode(data)
  }

  /** The chunks of a stream: lines that carry none are skipped. */
  function Chunks(lines: seq<string>, decode: string -> Option<Chunk>): seq<Chunk>
    decreases |lines|
  {
    if lines == [] then []
    else
      var n := |lines| - 1;
      Chunks(lines[..n], decode) + (match ChunkOf(lines[n], decode) case None => [] case Some(c) => [c])
  }

  /** The choices of a stream, in order. */
  function Choices(chunks: seq<Chunk>): seq<Choice>
    decreases |chunks|
  {
    if chunks == [] then [] else Choices(chunks[..|chunks| - 1]) + chunks[|chunks| - 1].choices
  }

  /** The pieces of text, without the empty ones. */
  function Texts(choices: seq<Choice>): seq<string>
    decreases |choices|
  {
    if choices == [] then []
    else
      var c := choices[|choices| - 1].content;
      Texts(choices[..|choices| - 1]) + (if c.Some? && c.value != "" then [c.value] else [])
  }

  function Deltas(choices: seq<Choice>): seq<ToolDelta>
    decreases |choices|
  {
    if choices == [] then [] else Deltas(choices[..|choices| - 1]) + choices[|choices| - 1].toolCalls
  }

  /** The last finish reason given, if any. */
  function LastFinish(choices: seq<Choice>): Option<string>
    decreases |choices|
  {
    if choices == [] then None
    else
      var f := choices[|choices| - 1].finish;
      if f.Some? then f else LastFinish(choices[..|choices| - 1])
  }

  function LastUsage(chunks: seq<Chunk>): Usage
    decreases |chunks|
  {
    if chunks == [] then Usage(0, 0)
    else
      var u := chunks[|chunks| - 1].usage;
      if u.Some? then u.value else LastUsage(chunks[..|chunks| - 1])
  }

  /** The indices in the order in which they first appear. */
  function Order(ds: seq<ToolDelta>): (r: seq<int>)
    decreases |ds|
  {
    if ds == [] then []
    else
      var before := Order(ds[..|ds| - 1]);
      var i := ds[|ds| - 1].index;
      if i in before then before else before + [i]
  }

  /** The last non-empty id given for index i. */
  function IdOf(ds: seq<ToolDelta>, i: int): string
    decreases |ds|
  {
    if ds == [] then ""
    else
      var d := ds[|ds| - 1];
      if d.index == i && d.id != "" then d.id else IdOf(ds[..|ds| - 1], i)
  }

  function NameOf(ds: seq<ToolDelta>, i: int): string
    decreases |ds|
  {
    if ds == [] then ""
    else
      var d := ds[|ds| - 1];
      if d.index == i && d.name != "" then d.name else NameOf(ds[..|ds| - 1], i)
  }

  /** All argument text given for index i. */
  function ArgsOf(ds: seq<ToolDelta>, i: int): string
    decreases |ds|
  {
    if ds == [] then ""
    else
      var d := ds[|ds| - 1];
      ArgsOf(ds[..|ds| - 1], i) + (if d.index == i then d.args else "")
  }

  function CallAt(ds: seq<ToolDelta>, i: int): ToolCall {
    ToolCall(IdOf(ds, i), NameOf(ds, i), ToRawArgs(ArgsOf(ds, i)))
  }

  /** One call per index, in the order of first appearance. */
  function Assembled(ds: seq<ToolDelta>): (r: seq<ToolCall>) {
    var order := Order(ds);
    seq(|order|, k requires 0 <= k < |order| => CallAt(ds, order[k]))
  }

  function Finish(choices: seq<Choice>): FinishReason {
    match LastFinish(choices)
    case None => Stop
    case Some(reason) => ToFinishReason(reason)
  }

  /** What a stream means. */
  function Streamed(chunks: seq<Chunk>): ChatResponse {
    var choices := Choices(chunks);
    ChatResponse(Concat(Texts(choices)), Assembled(Deltas(choices)), Finish(choices), LastUsage(chunks))
  }

  // ---- what a stream carries, read from its beginning ----

  function AllChoices(chunks: seq<Chunk>): seq<Choice>
    decreases |chunks|
  {
    if chunks == [] then [] else chunks[0].choices + AllChoices(chunks[1..])
  }

  function AllDeltas(choices: seq<Choice>): seq<ToolDelta>
    decreases |choices|
  {
    if choices == [] then [] else choices[0].toolCalls + AllDeltas(choices[1..])
  }

  /** All text, one piece after the other. */
  function SaidIn(choices: seq<Choice>): string
    decreases |choices|
  {
    if choices == [] then ""
    else (if choices[0].content.Some? then choices[0].content.value else "") + SaidIn(choices[1..])
  }

  function TextsOf(c: Choice): seq<string> {
    if c.content.Some? && c.content.value != "" then [c.content.value] else []
  }

  /** The pieces of text that are not empty. */
  function Pieces(choices: seq<Choice>): seq<string>
    decreases |choices|
  {
    if choices == [] then [] else TextsOf(choices[0]) + Pieces(choices[1..])
  }

  /** The finish reason that is given last, or none is given. */
  ghost predicate EndsWith(choices: seq<Choice>, reason: Option<string>) {
    if reason.None? then forall i | 0 <= i < |choices| :: choices[i].finish == None
    else
      exists i | 0 <= i < |choices| ::
        choices[i].finish == reason && forall j | i < j < |choices| :: choices[j].finish == None
  }

  /** The usage that is given last, or none is given and it counts as nothing. */
  ghost predicate Used(chunks: seq<Chunk>, usage: Usage) {
    || ((forall i | 0 <= i < |chunks| :: chunks[i].usage == None) && usage == Usage(0, 0))
    || exists i | 0 <= i < |chunks| ::
         chunks[i].usage == Some(usage) && forall j | i < j < |chunks| :: chunks[j].usage == None
  }

  /** A message and how it is sent: its calls split into deltas, interleaved by a schedule under these indices. */
  datatype Sent = Sent(choice: WireChoice, usage: Usage, parts: seq<seq<ToolDelta>>, sched: seq<nat>, idx: seq<int>)

  ghost predicate Distinct(idx: seq<int>) { forall a, b | 0 <= a < b < |idx| :: idx[a] != idx[b] }

  /** The chunks send the message, its calls first appearing in their order; no finish reason means "stop". */
  ghost predicate Sends(chunks: seq<Chunk>, m: Sent) {
    && |m.parts| == |m.idx| == |m.choice.toolCalls| && Distinct(m.idx)
    && (forall k | 0 <= k < |m.parts| :: Splits(m.parts[k], m.idx[k], m.choice.toolCalls[k]))
    && Schedule(m.parts, m.sched) && Firsts(m.sched) == UpTo(|m.parts|)
    && AllDeltas(AllChoices(chunks)) == Weave(m.parts, m.sched)
    && SaidIn(AllChoices(chunks)) == m.choice.content
    && (EndsWith(AllChoices(chunks), Some(m.choice.finish))
        || (EndsWith(AllChoices(chunks), None) && m.choice.finish != "tool_calls" && m.choice.finish != "length"))
    && Used(chunks, m.usage)
  }

  lemma {:induction false} ChoicesCons(chunks: seq<Chunk>)
    ensures Choices(chunks) == AllChoices(chunks)
    decreases |chunks|
  {
    if |chunks| > 0 { ChoicesFront(chunks); ChoicesCons(chunks[1..]); }
  }

  lemma {:induction false} ChoicesFront(chunks: seq<Chunk>)
    requires chunks != []
    ensures Choices(chunks) == chunks[0].choices + Choices(chunks[1..])
    decreases |chunks|
  {
    var n := |chunks| - 1;
    if n > 0 {
      ChoicesFront(chunks[..n]);
      assert chunks[..n][1..] == chunks[1..][..n - 1];
    } else {
      assert chunks[..0] == [] && chunks[1..] == [];
    }
  }

  lemma {:induction false} DeltasFront(choices: seq<Choice>)
    requires choices != []
    ensures Deltas(choices) == choices[0].toolCalls + Deltas(choices[1..])
    decreases |choices|
  {
    var n := |choices| - 1;
    if n > 0 {
      DeltasFront(choices[..n]);
      assert choices[..n][1..] == choices[1..][..n - 1];
    } else {
      assert choices[..0] == [] && choices[1..] == [];
    }
  }

  lemma {:induction false} DeltasAll(choices: seq<Choice>)
    ensures Deltas(choices) == AllDeltas(choices)
    decreases |choices|
  {
    if choices != [] { DeltasFront(choices); DeltasAll(choices[1..]); }
  }

  lemma {:induction false} TextsFront(choices: seq<Choice>)
    requires choices != []
    ensures Texts(choices) == TextsOf(choices[0]) + Texts(choices[1..])
    decreases |choices|
  {
    var n := |choices| - 1;
    if n > 0 {
      TextsFront(choices[..n]);
      assert choices[..n][1..] == choices[1..][..n - 1];
    } else {
      assert choices[..0] == [] && choices[1..] == [];
    }
  }

  lemma {:induction false} TextsSaid(choices: seq<Choice>)
    ensures Concat(Texts(choices)) == SaidIn(choices) && Texts(choices) == Pieces(choices)
    decreases |choices|
  {
    if choices != [] {
      TextsFront(choices);
      TextsSaid(choices[1..]);
      ConcatAppend(TextsOf(choices[0]), Texts(choices[1..]));
      assert Concat([]) == "" && forall x: string :: Concat([x]) == x + Concat([]);
    }
  }

  lemma {:induction false} LastFinishIs(choices: seq<Choice>, reason: Option<string>)
    requires EndsWith(choices, reason)
    ensures LastFinish(choices) == reason
    decreases |choices|
  {
    if choices != [] {
      var n := |choices| - 1;
      if choices[n].finish == None { LastFinishIs(choices[..n], reason); }
    }
  }

  lemma {:induction false} LastUsageIs(chunks: seq<Chunk>, usage: Usage)
    requires Used(chunks, usage)
    ensures LastUsage(chunks) == usage
    decreases |chunks|
  {
    if chunks != [] {
      var n := |chunks| - 1;
      if chunks[n].usage == None { LastUsageIs(chunks[..n], usage); }
    }
  }

  /** A message that is sent comes out, field by field. */
  lemma SentComesOut(chunks: seq<Chunk>, m: Sent)
    requires Sends(chunks, m)
    ensures Tells(Streamed(chunks), m.choice, m.usage)
  {
    ChoicesCons(chunks);
    DeltasAll(AllChoices(chunks));
    TextsSaid(AllChoices(chunks));
    LastUsageIs(chunks, m.usage);
    if EndsWith(AllChoices(chunks), Some(m.choice.finish)) {
      LastFinishIs(AllChoices(chunks), Some(m.choice.finish));
    } else {
      LastFinishIs(AllChoices(chunks), None);
    }
    hide Choices, Deltas, Texts, LastFinish, LastUsage, AllChoices, AllDeltas, SaidIn, Splits, Schedule, Firsts;
    StreamingRefines(m.choice, m.usage, chunks, m.parts, m.sched, m.idx);
    DecodedTells(m.choice, [], m.usage);
    assert [m.choice] + [] == [m.choice];
  }

  lemma {:induction false} ChunksFront(lines: seq<string>, decode: string -> Option<Chunk>)
    requires lines != []
    ensures Chunks(lines, decode) ==
            (match ChunkOf(lines[0], decode) case None => [] case Some(c) => [c]) + Chunks(lines[1..], decode)
    decreases |lines|
  {
    var n := |lines| - 1;
    hide ChunkOf;
    if n > 0 {
      ChunksFront(lines[..n], decode);
      assert lines[..n][1..] == lines[1..][..n - 1];
    } else {
      assert lines[..0] == [] && lines[1..] == [];
    }
  }

  lemma SilentLine(line: string)
    requires Silent(line)
    ensures Payload(line) == None
  {
    if Writes(line, "") {
      WritesTrimmed(line, "");
    } else if Writes(line, "[DONE]") {
      WritesTrimmed(line, "[DONE]");
    } else {
      NoPrefix(line);
    }
  }

  lemma ShownLine(line: string, text: string)
    requires Shows(line, text)
    ensures Payload(line) == Some(text)
  {
    WritesTrimmed(line, text);
  }

  /** The chunks that lines carry are those that are read. */
  lemma {:induction false} CarriedChunks(lines: seq<string>, chunks: seq<Chunk>, decode: string -> Option<Chunk>)
    requires Carries(lines, chunks, decode)
    ensures Chunks(lines, decode) == chunks
    decreases |lines|
  {
    hide Silent, Shows, Payload;
    if lines != [] {
      ChunksFront(lines, decode);
      if Silent(lines[0]) && Carries(lines[1..], chunks, decode) {
        SilentLine(lines[0]);
        CarriedChunks(lines[1..], chunks, decode);
      } else if text :| Shows(lines[0], text) && decode(text) == None && Carries(lines[1..], chunks, decode) {
        ShownLine(lines[0], text);
        CarriedChunks(lines[1..], chunks, decode);
      } else {
        var text :| Shows(lines[0], text) && decode(text) == Some(chunks[0]);
        ShownLine(lines[0], text);
        CarriedChunks(lines[1..], chunks[1..], decode);
        assert chunks == [chunks[0]] + chunks[1..];
      }
    }
  }

  lemma LinesLaw(lines: seq<string>, decode: string -> Option<Chunk>)
    ensures forall chunks, m: Sent | Carries(lines, chunks, decode) && Sends(chunks, m) ::
              Tells(Streamed(Chunks(lines, decode)), m.choice, m.usage)
    ensures forall chunks | Carries(lines, chunks, decode) ::
              var texts := Texts(Choices(Chunks(lines, decode)));
              texts == Pieces(AllChoices(chunks)) && Concat(texts) == SaidIn(AllChoices(chunks))
  {
    hide Carries, Sends, Tells, Streamed, Chunks, Texts, SaidIn;
    forall chunks | Carries(lines, chunks, decode)
      ensures Chunks(lines, decode) == chunks
    {
      CarriedChunks(lines, chunks, decode);
    }
    forall chunks, m: Sent | Carries(lines, chunks, decode) && Sends(chunks, m)
      ensures Tells(Streamed(Chunks(lines, decode)), m.choice, m.usage)
    {
      SentComesOut(chunks, m);
    }
    forall chunks | Carries(lines, chunks, decode)
      ensures var texts := Texts(Choices(Chunks(lines, decode)));
              texts == Pieces(AllChoices(chunks)) && Concat(texts) == SaidIn(AllChoices(chunks))
    {
      ChoicesCons(chunks);
      TextsSaid(AllChoices(chunks));
    }
  }

  // ---- the reader ----

  datatype Accumulator = Accumulator(id: string, name: string, args: string)

  /** The map and the list hold exactly what the deltas read so far say. */
  ghost predicate Tracks(toolCalls: map<int, Accumulator>, toolOrder: seq<int>, ds: seq<ToolDelta>) {
    && toolOrder == Order(ds)
    && (forall i :: i in toolCalls <==> i in toolOrder)
    && (forall i | i in toolCalls :: toolCalls[i] == Accumulator(IdOf(ds, i), NameOf(ds, i), ArgsOf(ds, i)))
  }

  lemma {:induction false} UnseenIndex(ds: seq<ToolDelta>, i: int)
    requires i !in Order(ds)
    ensures IdOf(ds, i) == "" && NameOf(ds, i) == "" && ArgsOf(ds, i) == ""
    decreases |ds|
  {
    if ds != [] { UnseenIndex(ds[..|ds| - 1], i); }
  }

  /** One delta into its accumulator, which is made on first use. */
  method Accumulate(toolCalls: map<int, Accumulator>, toolOrder: seq<int>, tc: ToolDelta, ghost ds: seq<ToolDelta>)
    returns (calls: map<int, Accumulator>, order: seq<int>)
    requires Tracks(toolCalls, toolOrder, ds)
    ensures Tracks(calls, order, ds + [tc])
  {
    ghost var after := ds + [tc];
    assert after[..|after| - 1] == ds;
    calls, order := toolCalls, toolOrder;
    var acc := Accumulator("", "", "");
    if tc.index in calls {
      acc := calls[tc.index];
    } else {
      order := order + [tc.index];
      UnseenIndex(ds, tc.index);
    }
    if tc.id != "" { acc := acc.(id := tc.id); }
    if tc.name != "" { acc := acc.(name := tc.name); }
    calls := calls[tc.index := acc.(args := acc.args + tc.args)];
  }

  /** All of a choice's deltas. */
  method AccumulateAll(toolCalls: map<int, Accumulator>, toolOrder: seq<int>, tcs: seq<ToolDelta>,
      ghost ds: seq<ToolDelta>)
    returns (calls: map<int, Accumulator>, order: seq<int>)
    requires Tracks(toolCalls, toolOrder, ds)
    ensures Tracks(calls, order, ds + tcs)
  {
    calls, order := toolCalls, toolOrder;
    assert ds + tcs[..0] == ds;
    for j := 0 to |tcs|
      invariant Tracks(calls, order, ds + tcs[..j])
    {
      calls, order := Accumulate(calls, order, tcs[j], ds + tcs[..j]);
      assert ds + tcs[..j] + [tcs[j]] == ds + tcs[..j + 1];
    }
    assert tcs[..|tcs|] == tcs;
  }

  /** What the reader keeps of the choices read so far. */
  datatype Reading = Reading(text: string, emitted: seq<string>, calls: map<int, Accumulator>, order: seq<int>,
      finish: FinishReason)

  ghost predicate Follows(st: Reading, choices: seq<Choice>) {
    && st.emitted == Texts(choices)
    && st.text == Concat(st.emitted)
    && Tracks(st.calls, st.order, Deltas(choices))
    && st.finish == Finish(choices)
  }

  method ReadChoice(st: Reading, choice: Choice, ghost before: seq<Choice>) returns (out: Reading)
    requires Follows(st, before)
    ensures Follows(out, before + [choice])
  {
    ghost var upTo := before + [choice];
    assert upTo[..|upTo| - 1] == before;
    var text, emitted, finish := st.text, st.emitted, st.finish;
    if choice.content.Some? && choice.content.value != "" {
      ConcatSnoc(emitted, choice.content.value);
      text := text + choice.content.value;
      emitted := emitted + [choice.content.value];
    }
    var calls, order := AccumulateAll(st.calls, st.order, choice.toolCalls, Deltas(before));
    if choice.finish.Some? { finish := ToFinishReason(choice.finish.value); }
    out := Reading(text, emitted, calls, order, finish);
  }

  method ReadChoices(st: Reading, choices: seq<Choice>, ghost before: seq<Choice>) returns (out: Reading)
    requires Follows(st, before)
    ensures Follows(out, before + choices)
  {
    hide Follows;
    out := st;
    assert before + choices[..0] == before;
    for k := 0 to |choices|
      invariant Follows(out, before + choices[..k])
    {
      out := ReadChoice(out, choices[k], before + choices[..k]);
      assert before + choices[..k] + [choices[k]] == before + choices[..k + 1];
    }
    assert choices[..|choices|] == choices;
  }

  /**
   Reads a stream line by line, handing each piece of text to onChunk (collected in `emitted`) as it
   comes. The result is what the stream means, whatever else stands between the chunks.
   */
  method ReadStream(lines: seq<string>, decode: string -> Option<Chunk>, readError: bool)
    returns (r: Result<ChatResponse, string>, emitted: seq<string>)
    ensures readError ==> r.Err?
    ensures !readError ==> r == Ok(Streamed(Chunks(lines, decode)))
    ensures emitted == Texts(Choices(Chunks(lines, decode)))
    ensures !readError ==>
              forall chunks, m: Sent | Carries(lines, chunks, decode) && Sends(chunks, m) ::
                r.Ok? && Tells(r.value, m.choice, m.usage)
    ensures forall chunks | Carries(lines, chunks, decode) ::
              emitted == Pieces(AllChoices(chunks)) && Concat(emitted) == SaidIn(AllChoices(chunks))
  {
    LinesLaw(lines, decode);
    var st := Reading("", [], map[], [], Stop);
    var usage := Usage(0, 0);
    for n := 0 to |lines|
      invariant Follows(st, Choices(Chunks(lines[..n], decode)))
      invariant usage == LastUsage(Chunks(lines[..n], decode))
    {
      ghost var chunks := Chunks(lines[..n], decode);
      assert lines[..n + 1][..n] == lines[..n];
      var data := ChunkOf(lines[n], decode);
      assert data.None? ==> Chunks(lines[..n + 1], decode) == chunks;
      if data.Some? {
        var chunk := data.value;
        assert Chunks(lines[..n + 1], decode) == chunks + [chunk];
        assert (chunks + [chunk])[..|chunks|] == chunks;
        assert Choices(chunks + [chunk]) == Choices(chunks) + chunk.choices;
        if chunk.usage.Some? { usage := chunk.usage.value; }
        st := ReadChoices(st, chunk.choices, Choices(chunks));
      }
    }
    assert lines[..|lines|] == lines;
    emitted := st.emitted;
    if readError { return Err("read stream"), emitted; }
    var calls := Calls(st.calls, st.order, Deltas(Choices(Chunks(lines, decode))));
    r := Ok(ChatResponse(st.text, calls, st.finish, usage));
  }

  /** The calls of the accumulators, in order. */
  method Calls(toolCalls: map<int, Accumulator>, toolOrder: seq<int>, ghost ds: seq<ToolDelta>)
      returns (calls: seq<ToolCall>)
    requires Tracks(toolCalls, toolOrder, ds)
    ensures calls == Assembled(ds)
  {
    hide IdOf, NameOf, ArgsOf;
    calls := [];
    for k := 0 to |toolOrder|
      invariant |calls| == k && forall j | 0 <= j < k :: calls[j] == CallAt(ds, toolOrder[j])
    {
      assert toolOrder[k] in toolOrder;
      var acc := toolCalls[toolOrder[k]];
      calls := calls + [ToolCall(acc.id, acc.name, ToRawArgs(acc.args))];
    }
  }

  // ---- streaming refines the whole response ----

  /** The deltas of one index among others. */
  ghost function At(ds: seq<ToolDelta>, i: int): seq<ToolDelta>
    decreases |ds|
  {
    if ds == [] then []
    else At(ds[..|ds| - 1], i) + (if ds[|ds| - 1].index == i then [ds[|ds| - 1]] else [])
  }

  lemma {:induction false} AtCons(d: ToolDelta, ds: seq<ToolDelta>, i: int)
    ensures At([d] + ds, i) == (if d.index == i then [d] else []) + At(ds, i)
    decreases |ds|
  {
    var all := [d] + ds;
    if ds == [] {
      assert all[..0] == [];
    } else {
      assert all[..|all| - 1] == [d] + ds[..|ds| - 1];
      AtCons(d, ds[..|ds| - 1], i);
    }
  }

  /** What a stream says of an index depends only on the deltas of that index. */
  lemma {:induction false} OnlyAt(ds: seq<ToolDelta>, i: int)
    ensures IdOf(ds, i) == IdOf(At(ds, i), i)
    ensures NameOf(ds, i) == NameOf(At(ds, i), i)
    ensures ArgsOf(ds, i) == ArgsOf(At(ds, i), i)
    decreases |ds|
  {
    if ds != [] {
      var n := |ds| - 1;
      OnlyAt(ds[..n], i);
      var all := At(ds, i);
      if ds[n].index == i {
        assert all[..|all| - 1] == At(ds[..n], i);
        assert all[|all| - 1] == ds[n];
      } else {
        assert all == At(ds[..n], i);
      }
    }
  }

  /**
   A well-formed split of one call into deltas: all carry its index, each repeats the id and the name
   or leaves them out, each of the two is given at least once, and the argument texts join up.
   */
  ghost predicate Splits(part: seq<ToolDelta>, i: int, c: WireCall) {
    && part != []
    && (forall j | 0 <= j < |part| :: part[j].index == i)
    && (forall j | 0 <= j < |part| :: part[j].id in {"", c.id} && part[j].name in {"", c.name})
    && (exists j | 0 <= j < |part| :: part[j].id == c.id)
    && (exists j | 0 <= j < |part| :: part[j].name == c.name)
    && Concat(ArgTexts(part)) == c.args
  }

  ghost function ArgTexts(part: seq<ToolDelta>): seq<string> {
    seq(|part|, j requires 0 <= j < |part| => part[j].args)
  }

  lemma {:induction false} SplitId(part: seq<ToolDelta>, i: int, id: string, name: string)
    requires forall j | 0 <= j < |part| :: part[j].index == i && part[j].id in {"", id} && part[j].name in {"", name}
    ensures (exists j | 0 <= j < |part| :: part[j].id == id) ==> IdOf(part, i) == id
    ensures (exists j | 0 <= j < |part| :: part[j].name == name) ==> NameOf(part, i) == name
    ensures IdOf(part, i) in {"", id} && NameOf(part, i) in {"", name}
    decreases |part|
  {
    if part != [] {
      var n := |part| - 1;
      var init := part[..n];
      SplitId(init, i, id, name);
      if j :| 0 <= j < |part| && part[j].id == id && part[n].id != id { assert init[j].id == id; }
      if j :| 0 <= j < |part| && part[j].name == name && part[n].name != name { assert init[j].name == name; }
    }
  }

  lemma {:induction false} SplitArgs(part: seq<ToolDelta>, i: int)
    requires forall j | 0 <= j < |part| :: part[j].index == i
    ensures ArgsOf(part, i) == Concat(ArgTexts(part))
    decreases |part|
  {
    if part != [] {
      var n := |part| - 1;
      SplitArgs(part[..n], i);
      assert ArgTexts(part) == ArgTexts(part[..n]) + [part[n].args];
      ConcatSnoc(ArgTexts(part[..n]), part[n].args);
    }
  }

  /** Whatever the interleaving, the deltas of a call's index are the call's own. */
  lemma {:induction false} WeaveIndex(parts: seq<seq<ToolDelta>>, sched: seq<nat>, idx: seq<int>, k: nat)
    requires Schedule(parts, sched) && |idx| == |parts| && k < |parts|
    requires forall a, b | 0 <= a < b < |idx| :: idx[a] != idx[b]
    requires forall a, j | 0 <= a < |parts| && 0 <= j < |parts[a]| :: parts[a][j].index == idx[a]
    ensures At(Weave(parts, sched), idx[k]) == parts[k]
    decreases |sched|
  {
    if sched != [] {
      var a := sched[0];
      var rest := parts[a := parts[a][1..]];
      WeaveIndex(rest, sched[1..], idx, k);
      AtCons(parts[a][0], Weave(rest, sched[1..]), idx[k]);
      assert parts[a] == [parts[a][0]] + parts[a][1..];
    }
  }

  /** The indices appear in the order in which the schedule turns to the calls. */
  lemma {:induction false} OrderFollows(ds: seq<ToolDelta>, sched: seq<nat>, idx: seq<int>)
    requires |ds| == |sched|
    requires forall i | 0 <= i < |sched| :: sched[i] < |idx| && ds[i].index == idx[sched[i]]
    requires forall a, b | 0 <= a < b < |idx| :: idx[a] != idx[b]
    ensures (forall i | 0 <= i < |Firsts(sched)| :: Firsts(sched)[i] < |idx|)
    ensures |Order(ds)| == |Firsts(sched)| && forall i | 0 <= i < |Order(ds)| :: Order(ds)[i] == idx[Firsts(sched)[i]]
    decreases |ds|
  {
    if ds != [] {
      var n := |ds| - 1;
      OrderFollows(ds[..n], sched[..n], idx);
      var f, o := Firsts(sched[..n]), Order(ds[..n]);
      assert sched[n] in f <==> ds[n].index in o by {
        if sched[n] in f {
          var i :| 0 <= i < |f| && f[i] == sched[n];
          assert o[i] == ds[n].index;
        }
        if ds[n].index in o {
          var i :| 0 <= i < |o| && o[i] == ds[n].index;
          assert f[i] == sched[n];
        }
      }
    }
  }

  /**
   Streaming refines the whole response. Take a choice's text in pieces and its calls in well-formed
   splits, interleaved in any way in which the calls first appear in their order, grouped into chunks
   in any way: the reader's result is the one for the whole response, and the pieces handed to onChunk
   join up to its content.
   */
  lemma StreamingRefines(
    choice: WireChoice, usage: Usage, chunks: seq<Chunk>,
    parts: seq<seq<ToolDelta>>, sched: seq<nat>, idx: seq<int>)
    requires |parts| == |idx| == |choice.toolCalls|
    requires forall a, b | 0 <= a < b < |idx| :: idx[a] != idx[b]
    requires forall k | 0 <= k < |parts| :: Splits(parts[k], idx[k], choice.toolCalls[k])
    requires Schedule(parts, sched) && Firsts(sched) == UpTo(|parts|)
    requires Deltas(Choices(chunks)) == Weave(parts, sched)
    requires Concat(Texts(Choices(chunks))) == choice.content
    requires match LastFinish(Choices(chunks))
             case Some(reason) => reason == choice.finish
             case None => ToFinishReason(choice.finish) == Stop
    requires LastUsage(chunks) == usage
    ensures Streamed(chunks) == Decoded(WireResponse([choice], usage))
    ensures Concat(Texts(Choices(chunks))) == Decoded(WireResponse([choice], usage)).content
  {
    CallsByFirst(choice.toolCalls, parts, sched, idx);
    assert Assembled(Weave(parts, sched)) == Decoded(WireResponse([choice], usage)).toolCalls;
  }

  /** In any interleaving the calls come out whole, in the order in which they first appeared. */
  lemma CallsByFirst(calls: seq<WireCall>, parts: seq<seq<ToolDelta>>, sched: seq<nat>, idx: seq<int>)
    requires |parts| == |idx| == |calls|
    requires forall a, b | 0 <= a < b < |idx| :: idx[a] != idx[b]
    requires forall k | 0 <= k < |parts| :: Splits(parts[k], idx[k], calls[k])
    requires Schedule(parts, sched)
    ensures var r := Assembled(Weave(parts, sched));
            && |r| == |Firsts(sched)|
            && forall j | 0 <= j < |r| :: Firsts(sched)[j] < |calls| && r[j] == ToCall(calls[Firsts(sched)[j]])
  {
    var ds := Weave(parts, sched);
    forall i | 0 <= i < |sched|
      ensures sched[i] < |idx| && ds[i].index == idx[sched[i]]
    {
      WeaveAt(parts, sched, i);
    }
    OrderFollows(ds, sched, idx);
    forall j | 0 <= j < |Firsts(sched)|
      ensures CallAt(ds, Order(ds)[j]) == ToCall(calls[Firsts(sched)[j]])
    {
      var k := Firsts(sched)[j];
      WeaveIndex(parts, sched, idx, k);
      OnlyAt(ds, idx[k]);
      SplitCall(parts[k], idx[k], calls[k]);
    }
  }

  lemma SplitCall(part: seq<ToolDelta>, i: int, c: WireCall)
    requires Splits(part, i, c)
    ensures CallAt(part, i) == ToCall(c)
  {
    SplitId(part, i, c.id, c.name);
    SplitArgs(part, i);
  }
}

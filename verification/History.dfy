/**
 Conversation histories: pairing of tool calls with tool results, and the operations of the agent
 nodes on histories (pkg/agent/nodes/toolloop.go, enrich.go, llm.go, summarize.go).
 */
module History {
  import opened Providers
  import opened Search
  import opened Text

  type Messages = seq<Message>

  /** One tool message per call, in order, with the call's id and name. */
  predicate Answers(calls: seq<ToolCall>, msgs: Messages) {
    && |msgs| == |calls|
    && forall i | 0 <= i < |calls| ::
         msgs[i].role == Tool && msgs[i].toolCallID == calls[i].id && msgs[i].name == calls[i].name
  }

  /**
   Every assistant message is followed at once by the answers to its calls, and every tool message is
   such an answer.
   */
  ghost predicate Paired(h: Messages) {
    && (forall i | 0 <= i < |h| && h[i].role == Assistant ::
          i + |h[i].toolCalls| < |h| && Answers(h[i].toolCalls, h[i + 1..i + 1 + |h[i].toolCalls|]))
    && (forall j | 0 <= j < |h| && h[j].role == Tool :: Answered(h, j))
  }

  /** Message j stands among the answers to some assistant message before it. */
  ghost predicate Answered(h: Messages, j: nat)
    requires j < |h|
  {
    exists i | 0 <= i < j :: h[i].role == Assistant && j <= i + |h[i].toolCalls|
  }

  /** The same, read from front to back. */
  predicate WellPaired(h: Messages)
    decreases |h|
  {
    if h == [] then true
    else if h[0].role == Tool then false
    else if h[0].role == Assistant then
      var n := |h[0].toolCalls|;
      n < |h| && Answers(h[0].toolCalls, h[1..1 + n]) && WellPaired(h[1 + n..])
    else WellPaired(h[1..])
  }

  /** How many messages the first message and its answers take. */
  function Group(h: Messages): nat
    requires h != []
  {
    if h[0].role == Assistant then 1 + |h[0].toolCalls| else 1
  }

  lemma {:induction false} GroupTools(h: Messages)
    requires h != [] && WellPaired(h)
    ensures h[0].role != Tool && Group(h) <= |h| && forall i | 1 <= i < Group(h) :: h[i].role == Tool
  {
    forall i: nat | 1 <= i < Group(h) {
      GroupToolAt(h, i);
    }
  }

  lemma {:induction false} GroupToolAt(h: Messages, i: nat)
    requires h != [] && WellPaired(h) && 1 <= i < Group(h)
    ensures i < |h| && h[i].role == Tool
  {
    assert h[1..Group(h)][i - 1] == h[i];
  }

  lemma {:induction false} WellPairedPaired(h: Messages)
    requires WellPaired(h)
    ensures Paired(h)
    decreases |h|
  {
    hide Answers, Answered;
    if h != [] {
      var g := Group(h);
      GroupTools(h);
      WellPairedPaired(h[g..]);
      forall i | 0 <= i < |h| && h[i].role == Assistant
        ensures i + |h[i].toolCalls| < |h| && Answers(h[i].toolCalls, h[i + 1..i + 1 + |h[i].toolCalls|])
      {
        if i >= g { LiftAssistant(h, g, i); }
      }
      forall j | 0 <= j < |h| && h[j].role == Tool
        ensures Answered(h, j)
      {
        LiftAnswered(h, g, j);
      }
    }
  }

  lemma LiftAssistant(h: Messages, g: nat, i: nat)
    requires g <= i < |h| && Paired(h[g..]) && h[i].role == Assistant
    ensures i + |h[i].toolCalls| < |h| && Answers(h[i].toolCalls, h[i + 1..i + 1 + |h[i].toolCalls|])
  {
    hide Answers, Answered;
    var n := |h[i].toolCalls|;
    assert h[g..][i - g] == h[i];
    assert h[g..][i - g + 1..i - g + 1 + n] == h[i + 1..i + 1 + n];
  }

  lemma LiftAnswered(h: Messages, g: nat, j: nat)
    requires h != [] && g == Group(h) && j < |h| && h[0].role != Tool && g <= |h| && Paired(h[g..]) && h[j].role == Tool
    ensures Answered(h, j)
  {
    hide Answers;
    if j >= g {
      assert h[g..][j - g] == h[j] && Answered(h[g..], j - g);
      var i :| 0 <= i < j - g && h[g..][i].role == Assistant && j - g <= i + |h[g..][i].toolCalls|;
      assert h[i + g] == h[g..][i];
    } else {
      assert j <= 0 + |h[0].toolCalls|;
    }
  }

  /** What is paired stays so without its first group. */
  lemma RestPaired(h: Messages, g: nat)
    requires Paired(h) && h != [] && h[0].role != Tool && g == Group(h)
    ensures g <= |h| && Paired(h[g..])
  {
    var rest := h[g..];
    forall i | 0 <= i < |rest| && rest[i].role == Assistant
      ensures i + |rest[i].toolCalls| < |rest| && Answers(rest[i].toolCalls, rest[i + 1..i + 1 + |rest[i].toolCalls|])
    {
      RestAssistant(h, g, i);
    }
    forall j | 0 <= j < |rest| && rest[j].role == Tool
      ensures Answered(rest, j)
    {
      RestAnswered(h, g, j);
    }
  }

  lemma RestAssistant(h: Messages, g: nat, i: nat)
    requires Paired(h) && g + i < |h| && h[g + i].role == Assistant
    ensures var n := |h[g + i].toolCalls|;
            g + i + n < |h| && Answers(h[g + i].toolCalls, h[g..][i + 1..i + 1 + n])
  {
    var n := |h[g + i].toolCalls|;
    assert h[g..][i + 1..i + 1 + n] == h[g + i + 1..g + i + 1 + n];
  }

  lemma NotInGroup(h: Messages, i: nat)
    requires Paired(h) && h != [] && i < Group(h) <= |h| && h[i].role == Assistant
    ensures i == 0
  {
    if i > 0 { assert h[1..Group(h)][i - 1] == h[i]; }
  }

  lemma RestAnswered(h: Messages, g: nat, j: nat)
    requires Paired(h) && h != [] && g == Group(h) && g + j < |h| && h[g + j].role == Tool
    ensures Answered(h[g..], j)
  {
    assert Answered(h, g + j);
    GroupFits(h);
    hide Answers, Group, Paired;
    var i :| 0 <= i < g + j && h[i].role == Assistant && g + j <= i + |h[i].toolCalls|;
    if i < g {
      NotInGroup(h, i);
      GroupFirst(h);
    } else {
      assert h[g..][i - g] == h[i];
    }
  }

  lemma GroupFits(h: Messages)
    requires Paired(h) && h != []
    ensures Group(h) <= |h|
  {
    hide Answers, Answered;
  }

  lemma GroupFirst(h: Messages)
    requires h != [] && h[0].role == Assistant
    ensures Group(h) == 1 + |h[0].toolCalls|
  {
  }

  lemma {:induction false} PairedWellPaired(h: Messages)
    requires Paired(h)
    ensures WellPaired(h)
    decreases |h|
  {
    if h != [] {
      assert !Answered(h, 0);
      var g := Group(h);
      var rest := h[g..];
      RestPaired(h, g);
      PairedWellPaired(rest);
    }
  }

  /** The two readings of pairing agree. */
  lemma PairedExactly(h: Messages)
    ensures WellPaired(h) <==> Paired(h)
  {
    if WellPaired(h) { WellPairedPaired(h); }
    if Paired(h) { PairedWellPaired(h); }
  }

  lemma {:induction false} PairedAppend(a: Messages, b: Messages)
    requires WellPaired(a) && WellPaired(b)
    ensures WellPaired(a + b)
    decreases |a|
  {
    if a == [] {
      assert a + b == b;
    } else {
      var g := Group(a);
      assert (a + b)[1..g] == a[1..g];
      assert (a + b)[g..] == a[g..] + b;
      PairedAppend(a[g..], b);
    }
  }

  // ---- toolloop ----

  /** A history whose last message asks for tools that have not been run yet. */
  predicate Open(h: Messages) {
    && h != []
    && WellPaired(h[..|h| - 1])
    && h[|h| - 1].role == Assistant
    && h[|h| - 1].toolCalls != []
  }

  /** The calls of the most recent assistant message. */
  function LastToolCalls(h: Messages): seq<ToolCall>
    decreases |h|
  {
    if h == [] then []
    else if h[|h| - 1].role == Assistant then h[|h| - 1].toolCalls
    else LastToolCalls(h[..|h| - 1])
  }

  method FindLastToolCalls(h: Messages) returns (calls: seq<ToolCall>)
    ensures calls == LastToolCalls(h)
  {
    var i := |h|;
    assert h[..|h|] == h;
    while i > 0
      invariant 0 <= i <= |h| && LastToolCalls(h[..i]) == LastToolCalls(h)
    {
      i := i - 1;
      assert h[..i + 1][..i] == h[..i];
      if h[i].role == Assistant { return h[i].toolCalls; }
    }
    calls := [];
  }

  function ToolResult(call: ToolCall, content: string): Message {
    Message(Tool, content, call.id, call.name, [])
  }

  /** What the tool loop appends, given what each call returned. */
  function Results(calls: seq<ToolCall>, contents: seq<string>): Messages
    requires |calls| == |contents|
  {
    seq(|calls|, i requires 0 <= i < |calls| => ToolResult(calls[i], contents[i]))
  }

  /** Answering the open calls closes the history again. */
  lemma {:induction false} ResultsClose(h: Messages, contents: seq<string>)
    requires Open(h) && |contents| == |LastToolCalls(h)|
    ensures WellPaired(h + Results(LastToolCalls(h), contents))
  {
    hide WellPaired, Results;
    var n := |h| - 1;
    var results := Results(h[n].toolCalls, contents);
    GroupPaired(h[n], contents);
    PairedAppend(h[..n], [h[n]] + results);
    assert h[..n] + ([h[n]] + results) == h + results;
  }

  lemma GroupPaired(m: Message, contents: seq<string>)
    requires m.role == Assistant && |contents| == |m.toolCalls|
    ensures WellPaired([m] + Results(m.toolCalls, contents))
  {
    var results := Results(m.toolCalls, contents);
    var group := [m] + results;
    assert group[1..1 + |m.toolCalls|] == results && group[|group|..] == [];
    assert WellPaired([]);
  }

  // ---- enrich ----

  const CONTEXT_MARKER := "<context>"

  predicate IsContext(m: Message) { m.role == User && Contains(m.content, CONTEXT_MARKER) }

  /** A history without the context blocks of earlier turns. */
  function StripContext(h: Messages): Messages
    decreases |h|
  {
    if h == [] then []
    else
      var before := StripContext(h[..|h| - 1]);
      if IsContext(h[|h| - 1]) then before else before + [h[|h| - 1]]
  }

  method StripContextMessages(h: Messages) returns (out: Messages)
    ensures out == StripContext(h)
  {
    out := [];
    for i := 0 to |h|
      invariant out == StripContext(h[..i])
    {
      assert h[..i + 1][..i] == h[..i];
      if !(h[i].role == User && Contains(h[i].content, CONTEXT_MARKER)) {
        out := out + [h[i]];
      }
    }
    assert h[..|h|] == h;
  }

  /** The messages that are not context blocks of the user, front to back. */
  function Unmarked(h: Messages): Messages
    decreases |h|
  {
    if h == [] then []
    else if h[0].role == User && Contains(h[0].content, "<context>") then Unmarked(h[1..])
    else [h[0]] + Unmarked(h[1..])
  }

  lemma {:induction false} StripExactly(h: Messages)
    ensures StripContext(h) == Unmarked(h)
    decreases |h|
  {
    hide Contains;
    if h != [] {
      assert h == [h[0]] + h[1..];
      StripAppend([h[0]], h[1..]);
      StripExactly(h[1..]);
      assert [h[0]][..0] == [];
    }
  }

  lemma {:induction false} StripAppend(a: Messages, b: Messages)
    ensures StripContext(a + b) == StripContext(a) + StripContext(b)
    decreases |b|
  {
    if b == [] {
      assert a + b == a;
    } else {
      var n := |b| - 1;
      assert (a + b)[..|a + b| - 1] == a + b[..n];
      StripAppend(a, b[..n]);
    }
  }

  lemma {:induction false} StripNothing(h: Messages)
    requires forall i | 0 <= i < |h| :: h[i].role != User
    ensures StripContext(h) == h
    decreases |h|
  {
    if h != [] {
      StripNothing(h[..|h| - 1]);
      assert h == h[..|h| - 1] + [h[|h| - 1]];
    }
  }

  /** Dropping context blocks keeps the pairing: no user message stands inside a group. */
  lemma {:induction false} StripKeepsPairs(h: Messages)
    requires WellPaired(h)
    ensures WellPaired(StripContext(h))
    decreases |h|
  {
    hide Answers, Contains, StripContext;
    if h == [] {
      StripNothing(h);
    } else {
      var g := Group(h);
      var group, rest := h[..g], h[g..];
      assert h == group + rest;
      StripAppend(group, rest);
      StripKeepsPairs(rest);
      StripGroup(h);
      PairedAppend(StripContext(group), StripContext(rest));
    }
  }

  lemma StripGroup(h: Messages)
    requires h != [] && WellPaired(h)
    ensures WellPaired(StripContext(h[..Group(h)]))
  {
    hide Contains;
    var g := Group(h);
    var group := h[..g];
    GroupTools(h);
    if h[0].role == Assistant {
      StripNothing(group);
      assert group[1..] == h[1..g] && group[g..] == [];
    } else {
      assert group == [h[0]] && group[..0] == [] && group[1..] == [];
    }
  }

  /** Enriching: stale context out, then (for a turn with input) fresh context and the input. */
  function Enriched(h: Messages, input: string, context: string): Messages {
    if input == "" then StripContext(h)
    else StripContext(h) + [Message(User, context, "", "", []), Message(User, input, "", "", [])]
  }

  lemma EnrichKeepsPairs(h: Messages, input: string, context: string)
    requires WellPaired(h)
    ensures WellPaired(Enriched(h, input, context))
  {
    StripKeepsPairs(h);
    var two := [Message(User, context, "", "", []), Message(User, input, "", "", [])];
    assert two[1..] == [two[1]] && two[1..][1..] == [];
    PairedAppend(StripContext(h), two);
  }

  // ---- llm ----

  /** The messages sent to the model: the last `size` ones, all of them if size is not positive. */
  function Window(h: Messages, size: int): Messages {
    if size > 0 && |h| > size then h[|h| - size..] else h
  }

  /** The run of tool messages a sequence starts with. */
  function LeadingTools(h: Messages): (r: nat)
    ensures r <= |h|
    decreases |h|
  {
    if h != [] && h[0].role == Tool then 1 + LeadingTools(h[1..]) else 0
  }

  /** Cutting a well-paired history anywhere leaves, behind the leading run of tool messages, a well-paired one. */
  lemma {:induction false} CutInGroup(h: Messages, cut: nat)
    requires WellPaired(h) && cut <= |h|
    ensures WellPaired(h[cut..][LeadingTools(h[cut..])..])
    ensures LeadingTools(h[cut..]) > 0 ==> Answered(h, cut)
    decreases |h|
  {
    hide Answers, WellPaired, Answered, LeadingTools, Group;
    if h == [] || cut == 0 {
      assert h[cut..] == h && h[0..] == h;
      NoLeading(h);
    } else {
      var g := Group(h);
      GroupRest(h);
      if cut >= g {
        assert h[cut..] == h[g..][cut - g..];
        CutInGroup(h[g..], cut - g);
        if LeadingTools(h[cut..]) > 0 {
          LeadingOne(h[cut..]);
          AnsweredBehind(h, g, cut);
        }
      } else {
        ToolsThen(h, cut, g);
        assert h[cut..][g - cut..] == h[g..];
        AnsweredFirst(h, cut);
      }
    }
  }

  lemma NoLeading(h: Messages)
    requires WellPaired(h)
    ensures LeadingTools(h) == 0 && h[0..] == h
  {
    hide Answers;
  }

  lemma GroupRest(h: Messages)
    requires h != [] && WellPaired(h)
    ensures 1 <= Group(h) <= |h| && WellPaired(h[Group(h)..])
  {
    hide Answers;
  }

  lemma LeadingOne(h: Messages)
    requires LeadingTools(h) > 0
    ensures h != []
  {
  }

  lemma AnsweredBehind(h: Messages, g: nat, cut: nat)
    requires g <= cut < |h| && Answered(h[g..], cut - g)
    ensures Answered(h, cut)
  {
    var i :| 0 <= i < cut - g && h[g..][i].role == Assistant && cut - g <= i + |h[g..][i].toolCalls|;
    assert h[i + g] == h[g..][i];
  }

  lemma AnsweredFirst(h: Messages, cut: nat)
    requires 1 <= cut < |h| && cut < Group(h)
    ensures Answered(h, cut)
  {
    assert h[0].role == Assistant && cut <= 0 + |h[0].toolCalls|;
  }

  /** From inside a group the leading run of tool messages reaches exactly to the group's end. */
  lemma {:induction false} ToolsThen(h: Messages, cut: nat, g: nat)
    requires h != [] && WellPaired(h) && g == Group(h) && 1 <= cut <= g
    ensures LeadingTools(h[cut..]) == g - cut
    decreases g - cut
  {
    if cut == g {
      assert h[g..] == [] || h[g..][0].role != Tool;
    } else {
      assert h[cut] == h[1..g][cut - 1];
      assert h[cut..][1..] == h[cut + 1..];
      ToolsThen(h, cut + 1, g);
    }
  }

  /**
   The window is the suffix of the required length, and the tool results in it whose assistant message
   was cut off are exactly its leading run of tool messages: behind that run the pairing is intact.
   */
  lemma WindowPairs(h: Messages, size: int)
    requires WellPaired(h)
    ensures var w := Window(h, size);
            && |w| == (if size > 0 && size < |h| then size else |h|)
            && w == h[|h| - |w|..]
            && Paired(w[LeadingTools(w)..])
            && (LeadingTools(w) > 0 ==> |w| < |h| && Answered(h, |h| - |w|))
  {
    var w := Window(h, size);
    var cut := |h| - |w|;
    assert w == h[cut..];
    CutInGroup(h, cut);
    PairedExactly(w[LeadingTools(w)..]);
  }

  // ---- summarize ----

  /** Four characters to the token, rounded up. */
  function EstimateTokens(s: string): nat { (Bytes(s) + 3) / 4 }

  function EstimateAll(h: Messages): nat
    decreases |h|
  {
    if h == [] then 0 else EstimateAll(h[..|h| - 1]) + EstimateTokens(h[|h| - 1].content)
  }

  /** The estimate reaches 80 per cent of the context size. */
  predicate TooBig(systemPrompt: string, h: Messages, contextSize: int) {
    contextSize > 0 && (EstimateTokens(systemPrompt) + EstimateAll(h)) * 10 >= contextSize * 8
  }

  /** One token for every four bytes that were begun. */
  lemma TokensExactly(s: string, n: nat)
    ensures EstimateTokens(s) == n <==> |Encoded(s)| <= 4 * n < |Encoded(s)| + 4
  {
    BytesExactly(s);
  }

  /** The tokens of all messages, front to back. */
  function Total(h: Messages): nat
    decreases |h|
  {
    if h == [] then 0 else EstimateTokens(h[0].content) + Total(h[1..])
  }

  lemma {:induction false} EstimateAppend(a: Messages, b: Messages)
    ensures EstimateAll(a + b) == EstimateAll(a) + EstimateAll(b)
    decreases |b|
  {
    hide EstimateTokens;
    if b == [] {
      assert a + b == a;
    } else {
      var n := |b| - 1;
      assert (a + b)[..|a + b| - 1] == a + b[..n];
      EstimateAppend(a, b[..n]);
    }
  }

  lemma {:induction false} EstimateIsTotal(h: Messages)
    ensures EstimateAll(h) == Total(h)
    decreases |h|
  {
    hide EstimateTokens;
    if h != [] {
      assert h == [h[0]] + h[1..] && [h[0]][..0] == [];
      EstimateAppend([h[0]], h[1..]);
      EstimateIsTotal(h[1..]);
    }
  }

  /** With a context size, a turn is too big exactly from four fifths of it on, counting prompt and messages. */
  lemma TooBigExactly(systemPrompt: string, h: Messages, contextSize: int)
    ensures TooBig(systemPrompt, h, contextSize) <==>
            contextSize > 0 && 5 * (EstimateTokens(systemPrompt) + Total(h)) >= 4 * contextSize
  {
    EstimateIsTotal(h);
  }

  method HistoryIsTooBig(systemPrompt: string, h: Messages, contextSize: int) returns (big: bool)
    ensures big == TooBig(systemPrompt, h, contextSize)
  {
    if contextSize <= 0 { return false; }
    var estimated := EstimateTokens(systemPrompt);
    for i := 0 to |h|
      invariant estimated == EstimateTokens(systemPrompt) + EstimateAll(h[..i])
    {
      assert h[..i + 1][..i] == h[..i];
      estimated := estimated + EstimateTokens(h[i].content);
    }
    assert h[..|h|] == h;
    big := estimated * 10 >= contextSize * 8;
  }

  /** Compaction: the summary and the most recent message. */
  function Compacted(h: Messages, summary: string): Messages {
    var s := Message(Assistant, summary, "", "", []);
    if h == [] then [s] else [s, h[|h| - 1]]
  }

  /** Compaction keeps the pairing exactly if the message it keeps is no tool result and asks for no tools. */
  lemma CompactKeepsPairs(h: Messages, summary: string)
    ensures WellPaired(Compacted(h, summary)) <==>
            h == [] || (h[|h| - 1].role != Tool && (h[|h| - 1].role == Assistant ==> h[|h| - 1].toolCalls == []))
  {
    var c := Compacted(h, summary);
    assert c[1..1] == [];
    if h == [] {
      assert c[1..] == [];
    } else {
      var m := h[|h| - 1];
      assert c[1..] == [m];
      assert [m][1..] == [] && [m][1..1] == [];
      assert WellPaired(c) == WellPaired([m]);
      assert m.role == Assistant ==> WellPaired([m]) == (m.toolCalls == []);
    }
  }
}

/**
 Server-sent events: the frames the HTTP server writes (pkg/http/sse.go) and the reader of the MCP
 client's transport (pkg/mcp/sse.go), with the line splitting of bufio.ScanLines in between.
 Events are interpreted as in WHATWG HTML, section 9.2.6, "Interpreting an event stream".
 */
module SseFrames {
  import opened Text

  datatype Event = Event(eventType: string, data: string)

  // ---- the writer ----

  function Frame(e: Event): string { "event: " + e.eventType + "\ndata: " + e.data + "\n\n" }

  function Encode(events: seq<Event>): string
    decreases |events|
  {
    if events == [] then "" else Encode(events[..|events| - 1]) + Frame(events[|events| - 1])
  }

  /** The loop of handleEvents over the events a subscriber receives. */
  method WriteEvents(events: seq<Event>) returns (out: string)
    ensures out == Encode(events)
  {
    out := "";
    for i := 0 to |events|
      invariant out == Encode(events[..i])
    {
      assert events[..i + 1][..i] == events[..i];
      out := out + "event: " + events[i].eventType + "\ndata: " + events[i].data + "\n\n";
    }
    assert events[..|events|] == events;
  }

  // ---- lines ----

  /** The largest line the reader takes, with its line feed, in bytes. */
  const MAX_LINE_BYTES := 10 * 1024 * 1024

  function DropCR(line: string): string {
    if line != "" && line[|line| - 1] == '\r' then line[..|line| - 1] else line
  }

  /** bufio.ScanLines; scanning stops at a line that does not fit. */
  function Lines(text: string): seq<string>
    decreases |text|
  {
    if text == "" then []
    else
      var i := IndexOf(text, '\n');
      var raw := if i < 0 then text else text[..i];
      if Bytes(raw) >= MAX_LINE_BYTES then []
      else [DropCR(raw)] + (if i < 0 then [] else Lines(text[i + 1..]))
  }

  lemma {:induction false} LinesCons(line: string, rest: string)
    requires '\n' !in line
    ensures Lines(line + "\n" + rest) == if Bytes(line) >= MAX_LINE_BYTES then [] else [DropCR(line)] + Lines(rest)
  {
    var text := line + "\n" + rest;
    var i := IndexOf(text, '\n');
    assert text[|line|] == '\n';
    assert text[..|line|] == line;
    assert i == |line|;
    assert text[..i] == line && text[i + 1..] == rest;
  }

  // ---- events ----

  /** How many lines stand before the first empty one. */
  function BlockLen(lines: seq<string>): (n: nat)
    ensures n <= |lines| && "" !in lines[..n] && (n < |lines| ==> lines[n] == "")
    decreases |lines|
  {
    if lines == [] || lines[0] == "" then 0 else BlockLen(lines[1..]) + 1
  }

  /** A block's event type: the value of its last event field, without surrounding space. */
  function TypeOf(block: seq<string>): string
    decreases |block|
  {
    if block == [] then ""
    else
      var line := block[|block| - 1];
      if HasPrefix(line, "event:") then TrimSpace(TrimPrefix(line, "event:")) else TypeOf(block[..|block| - 1])
  }

  predicate IsData(line: string) { !HasPrefix(line, "event:") && HasPrefix(line, "data:") }

  function DataOf(line: string): string { TrimPrefix(TrimPrefix(line, "data:"), " ") }

  /** The values of a block's data fields, each without one leading space. */
  function DataLines(block: seq<string>): seq<string>
    decreases |block|
  {
    if block == [] then []
    else
      var line := block[|block| - 1];
      if IsData(line) then DataLines(block[..|block| - 1]) + [DataOf(line)] else DataLines(block[..|block| - 1])
  }

  /** What one block of lines dispatches. */
  function EventOf(block: seq<string>): seq<Event> {
    if DataLines(block) == [] then [] else [Event(TypeOf(block), Join(DataLines(block), "\n"))]
  }

  /** The stream is cut into blocks at its empty lines. */
  function Events(lines: seq<string>): seq<Event>
    decreases |lines|
  {
    if lines == [] then []
    else
      var n := BlockLen(lines);
      EventOf(lines[..n]) + if n < |lines| then Events(lines[n + 1..]) else []
  }

  function Decode(text: string): seq<Event> { Events(Lines(text)) }

  lemma {:induction false} BlockLenIs(block: seq<string>, rest: seq<string>)
    requires "" !in block
    ensures BlockLen(block + [""] + rest) == |block|
    ensures BlockLen(block) == |block|
  {
    var lines := block + [""] + rest;
    assert lines[|block|] == "" && lines[..|block|] == block;
    assert forall i | 0 <= i < |block| :: lines[i] == block[i];
  }

  lemma EventsCons(block: seq<string>, rest: seq<string>)
    requires "" !in block
    ensures Events(block + [""] + rest) == EventOf(block) + Events(rest)
    ensures Events(block) == EventOf(block)
  {
    BlockLenIs(block, rest);
    var lines := block + [""] + rest;
    assert lines[..|block|] == block && lines[|block| + 1..] == rest;
    assert block[..|block|] == block;
    assert EventOf([]) == [];
  }

  lemma EventsLine(block: seq<string>, line: string, rest: seq<string>)
    requires "" !in block
    ensures line == "" ==> Events(block + ([line] + rest)) == EventOf(block) + Events([] + rest)
    ensures block + ([line] + rest) == (block + [line]) + rest
  {
    if line == "" {
      EventsCons(block, rest);
      assert block + ([line] + rest) == block + [""] + rest;
      assert [] + rest == rest;
    }
  }

  // ---- the reader ----

  /** What the transport does with an event: endpoint and message events, and no others, have an effect. */
  datatype Effect = Endpoint(raw: string) | Received(message: string)

  function EffectOf(e: Event): seq<Effect> {
    if e.eventType == "endpoint" then [Endpoint(e.data)]
    else if e.eventType == "message" || e.eventType == "" then [Received(e.data)]
    else []
  }

  function Effects(events: seq<Event>): seq<Effect>
    decreases |events|
  {
    if events == [] then [] else Effects(events[..|events| - 1]) + EffectOf(events[|events| - 1])
  }

  /** The URLs that the transport was told to post to. */
  function PostURLs(effects: seq<Effect>): seq<string>
    decreases |effects|
  {
    if effects == [] then []
    else (if effects[0].Endpoint? then [effects[0].raw] else []) + PostURLs(effects[1..])
  }

  /** The messages that the client receives. */
  function Messages(effects: seq<Effect>): seq<string>
    decreases |effects|
  {
    if effects == [] then []
    else (if effects[0].Received? then [effects[0].message] else []) + Messages(effects[1..])
  }

  /** The data of the events of some types, in order. */
  function DataOfTypes(events: seq<Event>, types: set<string>): seq<string>
    decreases |events|
  {
    if events == [] then []
    else (if events[0].eventType in types then [events[0].data] else []) + DataOfTypes(events[1..], types)
  }

  lemma {:induction false} URLsAppend(a: seq<Effect>, b: seq<Effect>)
    ensures PostURLs(a + b) == PostURLs(a) + PostURLs(b)
    decreases |a|
  {
    if a == [] {
      assert a + b == b;
    } else {
      assert (a + b)[1..] == a[1..] + b && (a + b)[0] == a[0];
      URLsAppend(a[1..], b);
    }
  }

  lemma {:induction false} MessagesAppend(a: seq<Effect>, b: seq<Effect>)
    ensures Messages(a + b) == Messages(a) + Messages(b)
    decreases |a|
  {
    if a == [] {
      assert a + b == b;
    } else {
      assert (a + b)[1..] == a[1..] + b && (a + b)[0] == a[0];
      MessagesAppend(a[1..], b);
    }
  }

  lemma {:induction false} TypesAppend(a: seq<Event>, b: seq<Event>, types: set<string>)
    ensures DataOfTypes(a + b, types) == DataOfTypes(a, types) + DataOfTypes(b, types)
    decreases |a|
  {
    if a == [] {
      assert a + b == b;
    } else {
      assert (a + b)[1..] == a[1..] + b && (a + b)[0] == a[0];
      TypesAppend(a[1..], b, types);
    }
  }

  /** Endpoint events name the URLs, and message events, or events of no type, are the messages. */
  lemma {:induction false} EffectsExactly(events: seq<Event>)
    ensures PostURLs(Effects(events)) == DataOfTypes(events, {"endpoint"})
    ensures Messages(Effects(events)) == DataOfTypes(events, {"message", ""})
    decreases |events|
  {
    if events != [] {
      var n := |events| - 1;
      var e := events[n];
      EffectsExactly(events[..n]);
      assert events == events[..n] + [e];
      URLsAppend(Effects(events[..n]), EffectOf(e));
      MessagesAppend(Effects(events[..n]), EffectOf(e));
      TypesAppend(events[..n], [e], {"endpoint"});
      TypesAppend(events[..n], [e], {"message", ""});
      OneEffect(e);
    }
  }

  lemma OneEffect(e: Event)
    ensures PostURLs(EffectOf(e)) == DataOfTypes([e], {"endpoint"})
    ensures Messages(EffectOf(e)) == DataOfTypes([e], {"message", ""})
  {
    assert [e][1..] == [];
  }

  class Reader {
    var eventType: string
    var dataLines: seq<string>
    // what setPostURL and the receive channel were given, in order
    var effects: seq<Effect>
    // the lines since the last empty one, and the events so far
    ghost var block: seq<string>
    ghost var events: seq<Event>

    ghost predicate Valid()
      reads this
    {
      && eventType == TypeOf(block) && dataLines == DataLines(block) && "" !in block
      && effects == Effects(events)
    }

    constructor ()
      ensures Valid() && block == [] && events == []
    {
      eventType, dataLines, effects, block, events := "", [], [], [], [];
    }

    method Flush()
      requires Valid()
      modifies this
      ensures Valid() && block == [] && events == old(events + EventOf(block))
    {
      ghost var next := events + EventOf(block);
      if |dataLines| != 0 {
        var data := Join(dataLines, "\n");
        dataLines := [];
        if eventType == "endpoint" {
          effects := effects + [Endpoint(data)];
        } else if eventType == "message" || eventType == "" {
          effects := effects + [Received(data)];
        }
        assert next[..|next| - 1] == events;
      } else {
        assert next == events;
      }
      eventType := "";
      events, block := next, [];
    }

    method Handle(line: string)
      requires Valid()
      modifies this
      ensures Valid()
      ensures line == "" ==> block == [] && events == old(events + EventOf(block))
      ensures line != "" ==> block == old(block) + [line] && events == old(events)
    {
      if line == "" {
        Flush();
      } else {
        if HasPrefix(line, "event:") {
          eventType := TrimSpace(TrimPrefix(line, "event:"));
        } else if HasPrefix(line, "data:") {
          dataLines := dataLines + [TrimPrefix(TrimPrefix(line, "data:"), " ")];
        }
        block := block + [line];
        assert block[..|block| - 1] == old(block);
      }
    }

    /** readLoop over a whole stream: line by line it dispatches what the stream's blocks mean. */
    method ReadLoop(text: string)
      requires Valid() && block == [] && events == []
      modifies this
      ensures Valid() && events == Decode(text) && effects == Effects(Decode(text))
      ensures PostURLs(effects) == DataOfTypes(Decode(text), {"endpoint"})
      ensures Messages(effects) == DataOfTypes(Decode(text), {"message", ""})
    {
      hide TypeOf, DataLines, EventOf, Events, Effects, BlockLen, Lines;
      var lines := Lines(text);
      var i := 0;
      assert block + lines[0..] == lines && events + Events(lines) == Events(lines);
      while i < |lines|
        invariant 0 <= i <= |lines| && Valid()
        invariant events + Events(block + lines[i..]) == Decode(text)
      {
        EventsLine(block, lines[i], lines[i + 1..]);
        assert lines[i..] == [lines[i]] + lines[i + 1..];
        Handle(lines[i]);
        i := i + 1;
      }
      assert block + lines[i..] == block;
      EventsCons(block, []);
      Flush();
      EffectsExactly(events);
    }
  }

  // ---- round trip ----

  /** The events a frame can carry: the type is one line without surrounding space, the data one line. */
  predicate Plain(e: Event) {
    && '\n' !in e.eventType && Trimmed(e.eventType)
    && '\n' !in e.data && (e.data != "" ==> e.data[|e.data| - 1] != '\r')
    && Bytes(EventLine(e)) < MAX_LINE_BYTES && Bytes(DataLine(e)) < MAX_LINE_BYTES
  }

  lemma EmptyLine(rest: string)
    ensures Lines("\n" + rest) == [""] + Lines(rest)
  {
    assert Bytes("") < MAX_LINE_BYTES && DropCR("") == "";
    LinesCons("", rest);
    assert "" + "\n" + rest == "\n" + rest;
  }

  lemma LineEnd(line: string, rest: string)
    requires '\n' !in line && Bytes(line) < MAX_LINE_BYTES
    ensures Lines(line + "\n" + "\n" + rest) == [DropCR(line)] + [""] + Lines(rest)
  {
    hide Lines, Bytes, DropCR;
    assert line + "\n" + "\n" + rest == line + "\n" + ("\n" + rest);
    LinesCons(line, "\n" + rest);
    EmptyLine(rest);
    assert [DropCR(line)] + ([""] + Lines(rest)) == [DropCR(line)] + [""] + Lines(rest);
  }

  lemma LineEnds(l1: string, l2: string, rest: string)
    requires '\n' !in l1 && '\n' !in l2 && Bytes(l1) < MAX_LINE_BYTES && Bytes(l2) < MAX_LINE_BYTES
    ensures Lines(l1 + "\n" + l2 + "\n" + "\n" + rest) == [DropCR(l1), DropCR(l2)] + [""] + Lines(rest)
  {
    hide Lines, Bytes, DropCR;
    var tail := l2 + "\n" + "\n" + rest;
    assert l1 + "\n" + l2 + "\n" + "\n" + rest == l1 + "\n" + tail;
    LinesCons(l1, tail);
    LineEnd(l2, rest);
    assert [DropCR(l1)] + ([DropCR(l2)] + [""] + Lines(rest)) == [DropCR(l1), DropCR(l2)] + [""] + Lines(rest);
  }

  const EVENT_PREFIX := "event: "
  const DATA_PREFIX := "data: "

  function EventLine(e: Event): string { EVENT_PREFIX + e.eventType }
  function DataLine(e: Event): string { DATA_PREFIX + e.data }

  lemma FrameIs(e: Event, rest: string)
    ensures Frame(e) + rest == EventLine(e) + "\n" + DataLine(e) + "\n" + "\n" + rest
  {
  }

  lemma EventField(e: Event)
    ensures HasPrefix(EventLine(e), "event:") && TrimPrefix(EventLine(e), "event:") == " " + e.eventType
    ensures HasPrefix(DropCR(EventLine(e)), "event:")
    ensures '\n' !in e.eventType ==> '\n' !in EventLine(e)
  {
  }

  lemma DataField(e: Event)
    ensures IsData(DropCR(DataLine(e))) && DataOf(DropCR(DataLine(e))) == DropCR(e.data)
    ensures '\n' !in e.data ==> '\n' !in DataLine(e)
  {
    var l := DropCR(DataLine(e));
    assert l == DATA_PREFIX + DropCR(e.data);
    assert l[0] == 'd';
    assert TrimPrefix(l, "data:") == " " + DropCR(e.data);
  }

  lemma FieldsOf(e: Event)
    requires Trimmed(e.eventType)
    ensures DropCR(EventLine(e)) == EventLine(e)
    ensures "" !in [EventLine(e), DropCR(DataLine(e))]
    ensures TypeOf([EventLine(e), DropCR(DataLine(e))]) == e.eventType
    ensures DataLines([EventLine(e), DropCR(DataLine(e))]) == [DropCR(e.data)]
  {
    var l1, l2 := EventLine(e), DropCR(DataLine(e));
    assert DropCR(l1) == l1;
    EventField(e);
    DataField(e);
    TrimAfterSpace(e.eventType);
    hide EventLine, DataLine, DropCR, DataOf, TrimPrefix, TrimSpace;
    assert [l1, l2][..1] == [l1] && [l1][..0] == [];
    assert DataLines([l1]) == [];
  }

  lemma TrimAfterSpace(s: string)
    requires Trimmed(s)
    ensures TrimSpace(" " + s) == s
  {
    assert (" " + s)[0] == ' ' && (" " + s)[1..] == s;
    assert TrimLeft(" " + s) == TrimLeft(s);
    assert TrimLeft(s) == s && TrimRight(s) == s;
  }

  /**
   A frame of one-line fields that fit, whatever follows it, is read as one event; a final carriage
   return of the data is lost.
   */
  lemma FrameRead(e: Event, rest: string)
    requires '\n' !in e.eventType && Trimmed(e.eventType) && '\n' !in e.data
    requires Bytes(EventLine(e)) < MAX_LINE_BYTES && Bytes(DataLine(e)) < MAX_LINE_BYTES
    ensures Decode(Frame(e) + rest) == [e.(data := DropCR(e.data))] + Decode(rest)
  {
    hide Frame, Lines, Bytes, Events, EventLine, DataLine, TypeOf, DataLines, DropCR, Trimmed;
    FrameIs(e, rest);
    EventField(e);
    DataField(e);
    FieldsOf(e);
    LineEnds(EventLine(e), DataLine(e), rest);
    EventsCons([EventLine(e), DropCR(DataLine(e))], Lines(rest));
  }

  /** What the server writes, the reader reads back, event by event. */
  lemma {:induction false} RoundTrip(events: seq<Event>, rest: string)
    requires forall i | 0 <= i < |events| :: Plain(events[i])
    ensures Decode(Encode(events) + rest) == events + Decode(rest)
    decreases |events|
  {
    hide Decode, Frame, Trimmed, Bytes, EventLine, DataLine;
    if events == [] {
      assert "" + rest == rest;
    } else {
      var init, last := events[..|events| - 1], events[|events| - 1];
      assert Encode(events) + rest == Encode(init) + (Frame(last) + rest);
      RoundTrip(init, Frame(last) + rest);
      FrameRead(last, rest);
      assert last.(data := DropCR(last.data)) == last;
      assert events == init + [last];
    }
  }

  // ---- the condition is exact ----

  /**
   A single frame is read back as the event it was made from exactly if the type is one line without
   surrounding space, the data is one line that does not end in a carriage return, and both lines fit.
   */
  lemma FrameExact(e: Event)
    ensures Decode(Frame(e)) == [e] <==> Plain(e)
  {
    assert Frame(e) + "" == Frame(e);
    if Plain(e) {
      FrameRead(e, "");
      assert DropCR(e.data) == e.data;
    } else if Decode(Frame(e)) == [e] {
      NotPlain(e);
    }
  }

  /** No event has a type that is not trimmed, or has a line feed. */
  lemma {:induction false} TypeOfBlock(block: seq<string>)
    requires forall i | 0 <= i < |block| :: '\n' !in block[i]
    ensures Trimmed(TypeOf(block)) && '\n' !in TypeOf(block)
    decreases |block|
  {
    if block == [] {
    } else {
      var line := block[|block| - 1];
      if HasPrefix(line, "event:") {
        var v := TrimPrefix(line, "event:");
        var a, b := TrimSpaceWhere(v);
      } else {
        TypeOfBlock(block[..|block| - 1]);
      }
    }
  }

  /** The characters of the data lines, with a line feed each. */
  function DataWeight(lines: seq<string>): nat
    decreases |lines|
  {
    if lines == [] then 0
    else
      var line := lines[|lines| - 1];
      DataWeight(lines[..|lines| - 1]) + (if IsData(line) then |line| + 1 else 0)
  }

  lemma {:induction false} DataWeightCons(lines: seq<string>)
    requires lines != []
    ensures DataWeight(lines) == (if IsData(lines[0]) then |lines[0]| + 1 else 0) + DataWeight(lines[1..])
    decreases |lines|
  {
    hide IsData;
    var n := |lines|;
    if n > 1 {
      DataWeightCons(lines[..n - 1]);
      assert lines[..n - 1][1..] == lines[1..][..n - 2];
    }
  }

  lemma {:induction false} JoinMore(parts: seq<string>, last: string)
    ensures |Join(parts + [last], "\n")| == (if parts == [] then 0 else |Join(parts, "\n")| + 1) + |last|
    decreases |parts|
  {
    if |parts| > 1 {
      JoinMore(parts[1..], last);
      assert (parts + [last])[1..] == parts[1..] + [last];
    } else if |parts| == 1 {
      assert (parts + [last])[1..] == [last];
    }
  }

  /** A block's data is at least five characters for each data line shorter than these lines. */
  lemma {:induction false} DataShrinks(block: seq<string>)
    requires DataLines(block) != []
    ensures |Join(DataLines(block), "\n")| + 1 + 5 * |DataLines(block)| <= DataWeight(block)
    decreases |block|
  {
    var init, line := block[..|block| - 1], block[|block| - 1];
    if IsData(line) {
      JoinMore(DataLines(init), DataOf(line));
      if DataLines(init) != [] {
        DataShrinks(init);
      }
    } else {
      DataShrinks(init);
    }
  }

  /** Data with a line feed came from data lines at least eleven characters longer, line feeds included. */
  lemma DataOfBlock(block: seq<string>)
    requires DataLines(block) != [] && forall i | 0 <= i < |block| :: '\n' !in block[i]
    ensures var d := Join(DataLines(block), "\n"); '\n' !in d || |d| + 11 <= DataWeight(block)
  {
    DataShrinks(block);
    OneDataLine(block);
  }

  lemma {:induction false} OneDataLine(block: seq<string>)
    requires forall i | 0 <= i < |block| :: '\n' !in block[i]
    ensures forall i | 0 <= i < |DataLines(block)| :: '\n' !in DataLines(block)[i]
    decreases |block|
  {
    if block != [] {
      OneDataLine(block[..|block| - 1]);
    }
  }

  lemma {:induction false} DataWeightSplit(a: seq<string>, b: seq<string>)
    ensures DataWeight(a + b) == DataWeight(a) + DataWeight(b)
    decreases |b|
  {
    hide IsData;
    if b == [] {
      assert a + b == a;
    } else {
      DataWeightSplit(a, b[..|b| - 1]);
      assert (a + b)[..|a + b| - 1] == a + b[..|b| - 1];
    }
  }

  ghost predicate Possible(e: Event, weight: nat) {
    Trimmed(e.eventType) && '\n' !in e.eventType && ('\n' !in e.data || |e.data| + 11 <= weight)
  }

  ghost predicate AllPossible(events: seq<Event>, weight: nat) {
    forall i | 0 <= i < |events| :: Possible(events[i], weight)
  }

  lemma AllPossibleMore(a: seq<Event>, wa: nat, b: seq<Event>, wb: nat, w: nat)
    requires AllPossible(a, wa) && AllPossible(b, wb) && wa <= w && wb <= w
    ensures AllPossible(a + b, w)
  {
    hide Trimmed;
    forall i | 0 <= i < |a + b|
      ensures Possible((a + b)[i], w)
    {
      if i < |a| {
        assert (a + b)[i] == a[i] && Possible(a[i], wa);
      } else {
        assert (a + b)[i] == b[i - |a|] && Possible(b[i - |a|], wb);
      }
    }
  }

  lemma EventPossible(block: seq<string>)
    requires forall i | 0 <= i < |block| :: '\n' !in block[i]
    ensures AllPossible(EventOf(block), DataWeight(block))
  {
    hide Trimmed, TypeOf, DataLines, DataWeight;
    TypeOfBlock(block);
    if DataLines(block) != [] {
      DataOfBlock(block);
    }
  }

  lemma {:induction false} EventsPossible(lines: seq<string>)
    requires forall i | 0 <= i < |lines| :: '\n' !in lines[i]
    ensures AllPossible(Events(lines), DataWeight(lines))
    decreases |lines|
  {
    hide AllPossible, DataWeight, EventOf;
    if lines == [] {
      assert AllPossible([], DataWeight(lines)) by { AllPossibleNone(DataWeight(lines)); }
    } else {
      var n := BlockLen(lines);
      var block := lines[..n];
      EventPossible(block);
      DataWeightSplit(block, lines[n..]);
      assert lines == block + lines[n..];
      if n < |lines| {
        EventsPossible(lines[n + 1..]);
        DataWeightSplit([lines[n]], lines[n + 1..]);
        assert lines[n..] == [lines[n]] + lines[n + 1..];
        AllPossibleMore(EventOf(block), DataWeight(block), Events(lines[n + 1..]), DataWeight(lines[n + 1..]),
            DataWeight(lines));
      } else {
        AllPossibleNone(0);
        AllPossibleMore(EventOf(block), DataWeight(block), [], 0, DataWeight(lines));
      }
    }
  }

  lemma AllPossibleNone(weight: nat)
    ensures AllPossible([], weight)
  {
  }

  lemma DropWeight(raw: string, rest: seq<string>)
    requires '\n' !in raw
    ensures '\n' !in DropCR(raw) && |DropCR(raw)| <= |raw|
    ensures DataWeight([DropCR(raw)] + rest) <= |raw| + 1 + DataWeight(rest)
  {
    hide IsData;
    DataWeightCons([DropCR(raw)] + rest);
    assert ([DropCR(raw)] + rest)[1..] == rest;
  }

  ghost predicate LightLines(text: string) {
    && (forall i | 0 <= i < |Lines(text)| :: '\n' !in Lines(text)[i])
    && DataWeight(Lines(text)) <= |text| + 1
    && (text != "" && text[|text| - 1] == '\n' ==> DataWeight(Lines(text)) <= |text|)
  }

  lemma LightLast(raw: string)
    requires '\n' !in raw
    ensures LightLines(raw)
  {
    if raw != "" {
      assert IndexOf(raw, '\n') < 0;
      DropWeight(raw, []);
      hide Bytes, DropCR;
      assert DataWeight([]) == 0 && [DropCR(raw)] + [] == [DropCR(raw)];
    }
  }

  lemma LightCons(raw: string, rest: string)
    requires '\n' !in raw && LightLines(rest)
    ensures LightLines(raw + "\n" + rest)
  {
    var text := raw + "\n" + rest;
    assert |text| == |raw| + 1 + |rest|;
    assert rest != "" ==> text[|text| - 1] == rest[|rest| - 1];
    LinesCons(raw, rest);
    DropWeight(raw, Lines(rest));
    hide Bytes, DropCR, Lines, IsData;
    assert DataWeight([]) == 0;
    if Bytes(raw) < MAX_LINE_BYTES {
      forall i | 0 <= i < |Lines(text)|
        ensures '\n' !in Lines(text)[i]
      {
        if i > 0 {
          assert Lines(text)[i] == Lines(rest)[i - 1];
        }
      }
    }
  }

  /** Lines hold no line feeds, and no more characters than the text. */
  lemma {:induction false} LinesWeight(text: string)
    ensures LightLines(text)
    decreases |text|
  {
    hide LightLines;
    var i := IndexOf(text, '\n');
    if i < 0 {
      LightLast(text);
    } else {
      LinesWeight(text[i + 1..]);
      LightCons(text[..i], text[i + 1..]);
      assert text == text[..i] + "\n" + text[i + 1..];
    }
  }

  lemma NotPlain(e: Event)
    requires !Plain(e)
    ensures Decode(Frame(e)) != [e]
  {
    hide Bytes, Lines, Frame, Trimmed, Events, EventLine, DataLine, DropCR, DataWeight;
    FrameIs(e, "");
    assert Frame(e) + "" == Frame(e);
    LinesWeight(Frame(e));
    EventsPossible(Lines(Frame(e)));
    if Decode(Frame(e)) == [e] {
      assert Possible(Events(Lines(Frame(e)))[0], DataWeight(Lines(Frame(e))));
      NotPlainData(e);
    }
  }

  lemma NotPlainData(e: Event)
    requires !Plain(e) && Trimmed(e.eventType) && '\n' !in e.eventType
    requires Possible(e, DataWeight(Lines(Frame(e))))
    ensures Decode(Frame(e)) != [e]
  {
    hide Bytes, Lines, Frame, Trimmed, Events, DataWeight, EventLine, DataLine;
    var tail := DataLine(e) + "\n" + "\n";
    FrameTail(e);
    EventField(e);
    DataField(e);
    LinesCons(EventLine(e), tail);
    if Bytes(EventLine(e)) >= MAX_LINE_BYTES {
      EventsCons([], []);
      assert Events(Lines(Frame(e))) == [];
    } else {
      var first := DropCR(EventLine(e));
      DataWeightCons([first] + Lines(tail));
      assert ([first] + Lines(tail))[1..] == Lines(tail);
      LinesWeight(tail);
      assert |tail| == |e.data| + 8 by { DataLength(e); }
      assert '\n' !in e.data;
      if Bytes(DataLine(e)) < MAX_LINE_BYTES {
        FrameRead(e, "");
        assert Frame(e) + "" == Frame(e);
        NoneAfter(e.(data := DropCR(e.data)));
      } else {
        assert tail == DataLine(e) + "\n" + "\n";
        LinesCons(DataLine(e), "\n");
        assert Lines(Frame(e)) == [first];
        EventsCons([first], []);
        NoData(first);
      }
    }
  }

  lemma NoneAfter(e: Event)
    ensures [e] + Decode("") == [e]
  {
  }

  lemma DataLength(e: Event)
    ensures |DataLine(e) + "\n" + "\n"| == |e.data| + 8
  {
  }

  lemma FrameTail(e: Event)
    ensures Frame(e) == EventLine(e) + "\n" + (DataLine(e) + "\n" + "\n")
  {
    FrameIs(e, "");
    hide Frame, EventLine, DataLine;
    assert Frame(e) + "" == Frame(e);
    assert EventLine(e) + "\n" + DataLine(e) + "\n" + "\n" + "" == EventLine(e) + "\n" + (DataLine(e) + "\n" + "\n");
  }

  lemma NoData(line: string)
    requires HasPrefix(line, "event:")
    ensures EventOf([line]) == []
  {
    assert [line][..0] == [];
    assert DataLines([line]) == [];
  }
}

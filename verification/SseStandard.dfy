/**
 The interpretation of an event stream as WHATWG HTML, section 9.2.6, prescribes it, against the one
 of the MCP client's reader (pkg/mcp/sse.go:93-124): for which blocks and which texts the two agree,
 and texts on which they do not. Event ids and reconnection times do not matter here.
 */
module SseStandard {
  import opened Text
  import opened SseFrames

  // ---- the standard ----

  const BYTE_ORDER_MARK := 0xFEFF as char

  function WithoutMark(text: string): string {
    if text != "" && text[0] == BYTE_ORDER_MARK then text[1..] else text
  }

  predicate IsEnd(c: char) { c == '\n' || c == '\r' }

  /** The place of the first line feed or carriage return, or the length. */
  function EndOfLine(text: string): (r: nat)
    ensures r <= |text| && forall i | 0 <= i < r :: !IsEnd(text[i])
    ensures r < |text| ==> IsEnd(text[r])
    decreases |text|
  {
    if text == "" || IsEnd(text[0]) then 0 else EndOfLine(text[1..]) + 1
  }

  /** Lines end in CR LF, LF or CR. What comes after the last end is not looked at. */
  function StandardLines(text: string): seq<string>
    decreases |text|
  {
    var i := EndOfLine(text);
    if i == |text| then []
    else if text[i] == '\r' && i + 1 < |text| && text[i + 1] == '\n' then [text[..i]] + StandardLines(text[i + 2..])
    else [text[..i]] + StandardLines(text[i + 1..])
  }

  /** The data buffer and the event type buffer, and the events dispatched so far. */
  datatype Buffers = Buffers(data: string, eventType: string, events: seq<Event>)

  /** The part of a line before its first colon; all of a line without one. */
  function Field(line: string): string {
    var i := IndexOf(line, ':');
    if i < 0 then line else line[..i]
  }

  function Value(line: string): string {
    var i := IndexOf(line, ':');
    if i < 0 then "" else TrimPrefix(line[i + 1..], " ")
  }

  function Named(e: Event): Event { if e.eventType == "" then e.(eventType := "message") else e }

  function Dispatch(b: Buffers): Buffers {
    if b.data == "" then Buffers("", "", b.events)
    else
      var data := if b.data[|b.data| - 1] == '\n' then b.data[..|b.data| - 1] else b.data;
      Buffers("", "", b.events + [Named(Event(b.eventType, data))])
  }

  function Line(b: Buffers, line: string): Buffers {
    if line == "" then Dispatch(b)
    else if Field(line) == "event" then b.(eventType := Value(line))
    else if Field(line) == "data" then b.(data := b.data + Value(line) + "\n")
    else b
  }

  function Interpret(b: Buffers, lines: seq<string>): Buffers
    decreases |lines|
  {
    if lines == [] then b else Interpret(Line(b, lines[0]), lines[1..])
  }

  /** The events of a text; at its end what was not dispatched is discarded. */
  function Standard(text: string): seq<Event> {
    Interpret(Buffers("", "", []), StandardLines(WithoutMark(text))).events
  }

  // ---- texts that the two readers see alike ----

  function AllNamed(events: seq<Event>): (r: seq<Event>)
    ensures |r| == |events| && forall i | 0 <= i < |r| :: r[i] == Named(events[i])
  {
    seq(|events|, i requires 0 <= i < |events| => Named(events[i]))
  }

  /** Every carriage return stands before a line feed. */
  predicate ReturnsFed(text: string) {
    forall i | 0 <= i < |text| :: text[i] == '\r' ==> i + 1 < |text| && text[i + 1] == '\n'
  }

  predicate LinesFit(text: string) {
    forall i, j | 0 <= i <= j <= |text| && '\n' !in text[i..j] :: Bytes(text[i..j]) < MAX_LINE_BYTES
  }

  /** Lines end in LF or CR LF, and fit; there is no byte order mark. */
  predicate SameEnds(text: string) {
    (text != "" ==> text[0] != BYTE_ORDER_MARK) && ReturnsFed(text) && LinesFit(text)
  }

  /** The event type that the standard's buffer holds after a block of lines. */
  function StandardType(block: seq<string>): string
    decreases |block|
  {
    if block == [] then ""
    else
      var line := block[|block| - 1];
      if Field(line) == "event" then Value(line) else StandardType(block[..|block| - 1])
  }

  function StandardData(block: seq<string>): seq<string>
    decreases |block|
  {
    if block == [] then []
    else
      var line := block[|block| - 1];
      var before := StandardData(block[..|block| - 1]);
      if Field(line) == "data" then before + [Value(line)] else before
  }

  /** No data field is without a colon, and if there is one, the event types agree. */
  ghost predicate SameBlock(block: seq<string>) {
    && "data" !in block
    && (DataLines(block) != [] ==> Named(Event(TypeOf(block), "")) == Named(Event(StandardType(block), "")))
  }

  /** All blocks that an empty line ends are such. */
  ghost predicate SameBlocks(lines: seq<string>)
    decreases |lines|
  {
    var n := BlockLen(lines);
    n < |lines| ==> SameBlock(lines[..n]) && SameBlocks(lines[n + 1..])
  }

  /** The lines after the last empty one. */
  function LastBlock(lines: seq<string>): (r: seq<string>)
    ensures "" !in r
    decreases |lines|
  {
    if lines == [] || lines[|lines| - 1] == "" then []
    else LastBlock(lines[..|lines| - 1]) + [lines[|lines| - 1]]
  }

  // ---- lines ----

  ghost predicate LastLine(tail: seq<string>) { tail == [] || (|tail| == 1 && tail[0] != "") }

  /** The reader's lines are the standard's, and the rest of the text that no line end closes. */
  lemma {:induction false} SameLines(text: string) returns (tail: seq<string>)
    requires ReturnsFed(text) && LinesFit(text)
    ensures Lines(text) == StandardLines(text) + tail && LastLine(tail)
    decreases |text|
  {
    hide Bytes, ReturnsFed, LinesFit, StandardLines, DropCR, Lines;
    var i := IndexOf(text, '\n');
    if i < 0 {
      NoEnd(text);
      LineFits(text, 0, |text|);
      assert text[0..|text|] == text;
      LastRaw(text);
      tail := if text == "" then [] else [text];
    } else {
      RestAlike(text, i + 1);
      tail := SameLines(text[i + 1..]);
      assert text[0..i] == text[..i];
      LineFits(text, 0, i);
      FirstLine(text, i);
      LinesCons(text[..i], text[i + 1..]);
      assert text == text[..i] + "\n" + text[i + 1..];
    }
  }

  lemma LastRaw(text: string)
    requires '\n' !in text && Bytes(text) < MAX_LINE_BYTES && DropCR(text) == text
    ensures Lines(text) == if text == "" then [] else [text]
  {
    hide Bytes, DropCR;
  }

  lemma FeedAfter(text: string, i: nat)
    requires ReturnsFed(text) && i < |text| && text[i] == '\r'
    ensures '\n' in text
  {
    assert text[i + 1] == '\n';
  }

  lemma NoEnd(text: string)
    requires ReturnsFed(text) && '\n' !in text
    ensures StandardLines(text) == [] && DropCR(text) == text
  {
    forall i | 0 <= i < |text|
      ensures text[i] != '\r'
    {
      if text[i] == '\r' { FeedAfter(text, i); }
    }
  }

  lemma LineFits(text: string, i: nat, j: nat)
    requires LinesFit(text) && i <= j <= |text| && '\n' !in text[i..j]
    ensures Bytes(text[i..j]) < MAX_LINE_BYTES
  {
    hide Bytes;
  }

  lemma RestAlike(text: string, k: nat)
    requires ReturnsFed(text) && LinesFit(text) && k <= |text|
    ensures ReturnsFed(text[k..]) && LinesFit(text[k..])
  {
    hide Bytes;
    var rest := text[k..];
    assert forall i | 0 <= i < |rest| :: rest[i] == text[k + i];
    forall i, j | 0 <= i <= j <= |rest| && '\n' !in rest[i..j]
      ensures Bytes(rest[i..j]) < MAX_LINE_BYTES
    {
      assert rest[i..j] == text[k + i..k + j];
      LineFits(text, k + i, k + j);
    }
  }

  lemma FirstLine(text: string, i: nat)
    requires ReturnsFed(text) && i < |text| && text[i] == '\n' && '\n' !in text[..i]
    ensures StandardLines(text) == [DropCR(text[..i])] + StandardLines(text[i + 1..])
  {
    hide StandardLines, EndOfLine, ReturnsFed;
    FirstEnd(text, i);
    StandardCut(text);
    DropCRCut(text, i);
  }

  lemma DropCRCut(text: string, i: nat)
    requires i < |text|
    ensures DropCR(text[..i]) == text[..if i > 0 && text[i - 1] == '\r' then i - 1 else i]
  {
    if i > 0 { assert text[..i][..i - 1] == text[..i - 1]; }
  }

  lemma StandardCut(text: string)
    requires EndOfLine(text) < |text|
    ensures var e := EndOfLine(text);
            var two := text[e] == '\r' && e + 1 < |text| && text[e + 1] == '\n';
            StandardLines(text) == [text[..e]] + StandardLines(text[if two then e + 2 else e + 1..])
  {
    hide EndOfLine;
  }

  lemma FirstEnd(text: string, i: nat)
    requires ReturnsFed(text) && i < |text| && text[i] == '\n' && '\n' !in text[..i]
    ensures EndOfLine(text) == if i > 0 && text[i - 1] == '\r' then i - 1 else i
  {
    var e := EndOfLine(text);
    assert forall k | 0 <= k < i :: text[k] == text[..i][k];
    assert text[e] == '\r' ==> text[e + 1] == '\n';
  }

  // ---- fields ----

  lemma SameData(line: string)
    requires line != "data"
    ensures Field(line) == "data" <==> IsData(line)
    ensures IsData(line) ==> Value(line) == DataOf(line)
  {
    var i := IndexOf(line, ':');
    if HasPrefix(line, "data:") {
      assert line[..4] == "data" && line[4] == ':';
      assert i == 4;
    }
    if i >= 0 && line[..i] == "data" { assert line[..5] == "data:"; }
  }

  lemma OnlyWord()
    ensures Field("data") == "data" && Value("data") == "" && !IsData("data")
  {
    assert ':' !in "data";
  }

  /** The data buffer for some data lines: each of them with a line feed. */
  function Held(dataLines: seq<string>): string
    decreases |dataLines|
  {
    if dataLines == [] then "" else Held(dataLines[..|dataLines| - 1]) + dataLines[|dataLines| - 1] + "\n"
  }

  lemma {:induction false} HeldJoined(dataLines: seq<string>)
    requires dataLines != []
    ensures Held(dataLines) == Join(dataLines, "\n") + "\n"
    decreases |dataLines|
  {
    var n := |dataLines| - 1;
    if n > 0 {
      HeldJoined(dataLines[..n]);
      JoinSnoc(dataLines[..n], dataLines[n]);
      assert dataLines == dataLines[..n] + [dataLines[n]];
    } else {
      assert dataLines[..0] == [];
    }
  }

  lemma {:induction false} JoinSnoc(parts: seq<string>, last: string)
    requires parts != []
    ensures Join(parts + [last], "\n") == Join(parts, "\n") + "\n" + last
    decreases |parts|
  {
    if |parts| > 1 {
      JoinSnoc(parts[1..], last);
      assert (parts + [last])[1..] == parts[1..] + [last];
    } else {
      assert (parts + [last])[1..] == [last];
    }
  }

  // ---- blocks ----

  /** The buffers hold what a block of lines left in them. */
  ghost predicate Holds(b: Buffers, block: seq<string>) {
    b.data == Held(StandardData(block)) && b.eventType == StandardType(block)
  }

  lemma LineHolds(b: Buffers, block: seq<string>, line: string)
    requires Holds(b, block) && line != ""
    ensures Holds(Line(b, line), block + [line]) && Line(b, line).events == b.events
  {
    hide Field, Value;
    assert (block + [line])[..|block + [line]| - 1] == block;
    var ds := StandardData(block);
    assert (ds + [Value(line)])[..|ds|] == ds;
  }

  /** The data lines without a colon are the ones that the reader does not see. */
  lemma {:induction false} DataSeen(block: seq<string>)
    ensures "data" !in block ==> StandardData(block) == DataLines(block)
    ensures "data" in block ==> |Held(StandardData(block))| > |Held(DataLines(block))|
    ensures |Held(StandardData(block))| >= |Held(DataLines(block))|
    decreases |block|
  {
    hide IsData, DataOf, Field, Value;
    if block != [] {
      var init, line := block[..|block| - 1], block[|block| - 1];
      DataSeen(init);
      assert block == init + [line];
      HeldMore(DataLines(init), DataOf(line));
      HeldMore(StandardData(init), Value(line));
      if line == "data" {
        OnlyWord();
      } else {
        SameData(line);
      }
    }
  }

  lemma HeldMore(ds: seq<string>, d: string)
    ensures |Held(ds + [d])| == |Held(ds)| + |d| + 1
  {
    assert (ds + [d])[..|ds|] == ds;
  }

  /** What the standard dispatches for a block. */
  function StandardEvent(block: seq<string>): seq<Event> {
    if StandardData(block) == [] then [] else [Named(Event(StandardType(block), Join(StandardData(block), "\n")))]
  }

  /** The two readers make the same of a block exactly if it is such. */
  lemma BlockExactly(block: seq<string>)
    ensures AllNamed(EventOf(block)) == StandardEvent(block) <==> SameBlock(block)
  {
    hide TypeOf, StandardType, Join;
    DataSeen(block);
    var ds, ss := DataLines(block), StandardData(block);
    if ds != [] { HeldJoined(ds); }
    if ss != [] { HeldJoined(ss); }
    assert AllNamed([]) == [];
    assert ds != [] ==> AllNamed(EventOf(block)) == [Named(Event(TypeOf(block), Join(ds, "\n")))];
  }

  lemma DispatchHeld(b: Buffers, block: seq<string>)
    requires Holds(b, block)
    ensures Holds(Dispatch(b), []) && Dispatch(b).events == b.events + StandardEvent(block)
  {
    hide StandardType, Join;
    var ds := StandardData(block);
    if ds != [] {
      HeldJoined(ds);
      assert b.data[..|b.data| - 1] == Join(ds, "\n");
    }
    NoLines();
  }

  lemma NoLines()
    ensures StandardType([]) == "" && StandardData([]) == [] && Held([]) == ""
  {
  }

  lemma {:induction false} LastBlockCut(block: seq<string>, rest: seq<string>)
    ensures LastBlock(block + [""] + rest) == LastBlock(rest)
    decreases |rest|
  {
    var lines := block + [""] + rest;
    if rest != [] {
      var n := |rest| - 1;
      LastBlockCut(block, rest[..n]);
      assert lines[..|lines| - 1] == block + [""] + rest[..n];
    }
  }

  lemma {:induction false} LastBlockAll(block: seq<string>)
    requires "" !in block
    ensures LastBlock(block) == block
    decreases |block|
  {
    if block != [] { LastBlockAll(block[..|block| - 1]); }
  }

  /** From any moment on, the standard dispatches what the reader does, but for the block at the end. */
  lemma {:induction false} InterpretEvents(b: Buffers, block: seq<string>, rest: seq<string>)
    requires Holds(b, block) && "" !in block && SameBlocks(block + rest)
    ensures Interpret(b, rest).events + AllNamed(EventOf(LastBlock(block + rest)))
            == b.events + AllNamed(Events(block + rest))
    decreases |rest|
  {
    hide Line, Holds, EventOf, Events, LastBlock, SameBlock, SameBlocks, Dispatch, StandardEvent;
    if rest == [] {
      assert block + rest == block;
      EventsCons(block, []);
      LastBlockAll(block);
    } else {
      var line, more := rest[0], rest[1..];
      assert rest == [line] + more;
      EventsLine(block, line, more);
      if line == "" {
        assert block + rest == block + [""] + more && [] + more == more;
        FirstBlock(block, more);
        BlockExactly(block);
        DispatchHeld(b, block);
        EmptyLineDispatches(b);
        InterpretEvents(Dispatch(b), [], more);
        LastBlockCut(block, more);
        NamedAppend(EventOf(block), Events(more));
      } else {
        LineHolds(b, block, line);
        InterpretEvents(Line(b, line), block + [line], more);
      }
    }
  }

  lemma FirstBlock(block: seq<string>, rest: seq<string>)
    requires "" !in block && SameBlocks(block + [""] + rest)
    ensures SameBlock(block) && SameBlocks(rest)
  {
    BlockLenIs(block, rest);
    var lines := block + [""] + rest;
    assert lines[..|block|] == block && lines[|block| + 1..] == rest;
  }

  lemma EmptyLineDispatches(b: Buffers)
    ensures Line(b, "") == Dispatch(b)
  {
  }

  lemma NamedAppend(a: seq<Event>, b: seq<Event>)
    ensures AllNamed(a + b) == AllNamed(a) + AllNamed(b)
  {
  }

  lemma {:induction false} InterpretAppend(b: Buffers, x: seq<string>, y: seq<string>)
    ensures Interpret(b, x + y) == Interpret(Interpret(b, x), y)
    decreases |x|
  {
    if x == [] {
      assert x + y == y;
    } else {
      assert (x + y)[1..] == x[1..] + y;
      InterpretAppend(Line(b, x[0]), x[1..], y);
    }
  }

  /** A rest without a line end dispatches nothing. */
  lemma RestIgnored(b: Buffers, lines: seq<string>, tail: seq<string>)
    requires LastLine(tail)
    ensures Interpret(b, lines + tail).events == Interpret(b, lines).events
  {
    InterpretAppend(b, lines, tail);
    var c := Interpret(b, lines);
    assert tail != [] ==> Interpret(c, tail) == Interpret(Line(c, tail[0]), []);
  }

  // ---- the two readers ----

  /**
   Of a text whose complete blocks they read alike the reader delivers the standard's events, and then
   the event of the lines after the last empty one, which the standard discards.
   */
  lemma ReaderAddsLast(text: string)
    requires SameEnds(text) && SameBlocks(Lines(text))
    ensures AllNamed(Decode(text)) == Standard(text) + AllNamed(EventOf(LastBlock(Lines(text))))
  {
    hide Lines, Bytes, Events, EventOf, LastBlock, SameBlocks, Interpret, StandardLines;
    var tail := SameLines(text);
    var b := Buffers("", "", []);
    NoLines();
    assert [] + Lines(text) == Lines(text);
    InterpretEvents(b, [], Lines(text));
    RestIgnored(b, StandardLines(text), tail);
  }

  /** So the two agree exactly if there is no data line after the last empty line. */
  lemma AgreesExactly(text: string)
    requires SameEnds(text) && SameBlocks(Lines(text))
    ensures AllNamed(Decode(text)) == Standard(text) <==> DataLines(LastBlock(Lines(text))) == []
  {
    hide Lines, DataLines, LastBlock, SameBlocks, Decode, Standard;
    ReaderAddsLast(text);
  }

  // ---- texts that they read differently ----

  lemma FirstLineOf(line: string, rest: string)
    requires forall i | 0 <= i < |line| :: !IsEnd(line[i])
    ensures StandardLines(line + "\n" + rest) == [line] + StandardLines(rest)
  {
    var text := line + "\n" + rest;
    var e := EndOfLine(text);
    assert text[|line|] == '\n' && forall i | 0 <= i < |line| :: text[i] == line[i];
    assert e == |line| && text[..e] == line && text[e + 1..] == rest;
  }

  /** One line of text for a data field. */
  predicate Fitting(line: string) {
    '\n' !in line && '\r' !in line && Bytes(line) < MAX_LINE_BYTES
  }

  lemma DataLineRead(value: string)
    ensures DataLines([DATA_PREFIX + value]) == [value]
    ensures Field(DATA_PREFIX + value) == "data" && Value(DATA_PREFIX + value) == value
  {
    var line := DATA_PREFIX + value;
    assert line[0] == 'd' && TrimPrefix(line, "data:") == " " + value;
    var none: seq<string> := [];
    assert [line][..0] == none;
    assert line[4] == ':' && forall i | 0 <= i < 4 :: line[i] == DATA_PREFIX[i];
    assert IndexOf(line, ':') == 4;
    assert line[..4] == "data" && line[5..] == " " + value;
  }

  lemma FittingRead(line: string, rest: string)
    requires Fitting(line)
    ensures Lines(line + "\n" + rest) == [line] + Lines(rest)
    ensures StandardLines(line + "\n" + rest) == [line] + StandardLines(rest)
  {
    hide Bytes;
    LinesCons(line, rest);
    FirstLineOf(line, rest);
  }

  lemma NothingLeft()
    ensures Lines("") == [] && StandardLines("") == [] && Interpret(Buffers("", "", []), []).events == []
    ensures Events([]) == [] && EventOf([]) == []
  {
  }

  /** An event that no empty line ends is delivered; the standard discards it. */
  lemma UnendedDelivered(value: string)
    requires Fitting(DATA_PREFIX + value)
    ensures Decode(DATA_PREFIX + value + "\n") == [Event("", value)] && Standard(DATA_PREFIX + value + "\n") == []
  {
    hide Lines, DataLines, Interpret, StandardLines, Fitting;
    var line := DATA_PREFIX + value;
    DataLineRead(value);
    FittingRead(line, "");
    NothingLeft();
    assert line + "\n" + "" == line + "\n";
    NoType(line);
    EventsCons([line], []);
    assert WithoutMark(line + "\n") == line + "\n";
    RestIgnored(Buffers("", "", []), [], [line]);
    assert [] + [line] == [line];
    assert StandardLines(line + "\n") == [line];
  }

  lemma NoType(line: string)
    requires line != "" && line[0] != 'e'
    ensures TypeOf([line]) == "" && "" !in [line]
  {
    assert [line][..0] == [];
  }

  /** One block of the standard's, whole. */
  lemma StandardBlock(block: seq<string>)
    requires "" !in block
    ensures Interpret(Buffers("", "", []), block + [""]).events == StandardEvent(block)
  {
    hide Line, Holds, Dispatch, StandardEvent;
    var b := Buffers("", "", []);
    NoLines();
    HoldsAfter(block);
    InterpretAppend(b, block, [""]);
    var c := Interpret(b, block);
    EmptyLineDispatches(c);
    DispatchHeld(c, block);
    assert Interpret(c, [""]) == Interpret(Dispatch(c), []);
  }

  lemma {:induction false} HoldsAfter(block: seq<string>)
    requires "" !in block
    ensures var b := Interpret(Buffers("", "", []), block); Holds(b, block) && b.events == []
    decreases |block|
  {
    hide Line;
    var b := Buffers("", "", []);
    if block == [] {
      NoLines();
    } else {
      var n := |block| - 1;
      HoldsAfter(block[..n]);
      assert block == block[..n] + [block[n]];
      InterpretAppend(b, block[..n], [block[n]]);
      LineHolds(Interpret(b, block[..n]), block[..n], block[n]);
    }
  }

  /** Behind a byte order mark the reader does not see the first field. */
  lemma MarkHides(value: string)
    requires Fitting([BYTE_ORDER_MARK] + (DATA_PREFIX + value))
    ensures var text := [BYTE_ORDER_MARK] + (DATA_PREFIX + value) + "\n" + "\n";
            Decode(text) == [] && Standard(text) == [Event("message", value)]
  {
    hide *;
    var line := DATA_PREFIX + value;
    MarkedRead([BYTE_ORDER_MARK] + line);
    MarkSkipped(line);
    assert ([BYTE_ORDER_MARK] + line)[1..] == line;
    FitsToo([BYTE_ORDER_MARK] + line, line);
    EndedRead(line, value);
  }

  /** The reader's view: a line that is no field. */
  lemma MarkedRead(marked: string)
    requires Fitting(marked) && marked != "" && marked[0] == BYTE_ORDER_MARK
    ensures Decode(marked + "\n" + "\n") == []
  {
    hide Lines, StandardLines, Fitting, DataLines, Events, EventOf;
    NothingLeft();
    EmptyRead();
    FittingRead(marked, "\n");
    MarkedField(marked);
    EventsCons([marked], []);
    assert [marked] + [""] + [] == [marked] + [""];
  }

  lemma MarkSkipped(line: string)
    ensures Standard([BYTE_ORDER_MARK] + line + "\n" + "\n")
            == Interpret(Buffers("", "", []), StandardLines(line + "\n" + "\n")).events
  {
    hide Interpret, StandardLines;
    assert ([BYTE_ORDER_MARK] + line + "\n" + "\n")[1..] == line + "\n" + "\n";
  }

  /** The standard's view: a data line and an empty one. */
  lemma EndedRead(line: string, value: string)
    requires Fitting(line) && line == DATA_PREFIX + value
    ensures Interpret(Buffers("", "", []), StandardLines(line + "\n" + "\n")).events == [Event("message", value)]
  {
    hide Lines, StandardLines, Interpret, Fitting, StandardEvent, Field, Value;
    EmptyRead();
    FittingRead(line, "\n");
    DataLineRead(value);
    assert line[0] == 'd';
    OneField(line, value);
    StandardBlock([line]);
  }

  lemma MarkedField(line: string)
    requires line != "" && line[0] == BYTE_ORDER_MARK
    ensures EventOf([line]) == [] && "" !in [line]
  {
    assert [line][..0] == [];
    assert DataLines([line]) == [];
  }

  lemma OneField(line: string, value: string)
    requires line != "" && Field(line) == "data" && Value(line) == value
    ensures StandardEvent([line]) == [Event("message", value)] && "" !in [line]
  {
    hide Field, Value;
    assert [line][..0] == [];
    assert StandardData([line]) == [value];
    assert StandardType([line]) == "";
  }

  lemma EmptyRead()
    ensures Lines("\n") == [""] && StandardLines("\n") == [""]
  {
    assert Fitting("");
    FittingRead("", "");
    NothingLeft();
    assert "" + "\n" + "" == "\n";
  }

  lemma FitsToo(a: string, b: string)
    requires Fitting(a) && |a| == |b| + 1 && a[1..] == b
    ensures Fitting(b)
  {
    hide Bytes;
    assert forall i | 0 <= i < |b| :: b[i] == a[i + 1];
    assert a == [a[0]] + b;
    BytesBehind(a[0], b);
  }

  lemma {:induction false} BytesBehind(c: char, s: string)
    ensures Bytes([c] + s) >= Bytes(s)
    decreases |s|
  {
    if s != "" {
      BytesBehind(c, s[..|s| - 1]);
      assert ([c] + s)[..|s|] == [c] + s[..|s| - 1];
    }
  }

  /** A carriage return alone ends no line for the reader. */
  lemma LoneReturn(a: string, b: string)
    requires Fitting(DATA_PREFIX + a) && Fitting(DATA_PREFIX + b)
    requires Bytes(DATA_PREFIX + (a + "\r" + DATA_PREFIX + b)) < MAX_LINE_BYTES
    ensures var text := DATA_PREFIX + (a + "\r" + DATA_PREFIX + b) + "\n" + "\n";
            && Decode(text) == [Event("", a + "\r" + DATA_PREFIX + b)]
            && Standard(text) == [Event("message", a + "\n" + b)]
  {
    hide Lines, StandardLines, Interpret, DataLines, Bytes, Fitting, Field, Value, StandardEvent, Events, EventOf;
    var one, two := DATA_PREFIX + a, DATA_PREFIX + b;
    var value := a + "\r" + DATA_PREFIX + b;
    var line := DATA_PREFIX + value;
    var text := line + "\n" + "\n";
    NothingLeft();
    EmptyRead();
    ReturnInside(one, two, line);
    assert line == one + "\r" + two;
    LinesCons(line, "\n");
    DataLineRead(value);
    NoType(line);
    OneEvent(line, value);
    EventsCons([line], []);
    assert [line] + [""] + [] == [line] + [""];
    assert text == one + "\r" + (two + "\n" + "\n");
    ReturnCut(one, two + "\n" + "\n");
    FittingRead(two, "\n");
    DataLineRead(a);
    DataLineRead(b);
    TwoFields(one, a, two, b);
    StandardBlock([one, two]);
    assert [one] + ([two] + [""]) == [one, two] + [""];
    assert WithoutMark(text) == text;
  }

  lemma OneEvent(line: string, value: string)
    requires TypeOf([line]) == "" && DataLines([line]) == [value]
    ensures EventOf([line]) == [Event("", value)]
  {
  }

  lemma ReturnInside(one: string, two: string, line: string)
    requires Fitting(one) && Fitting(two) && line == one + "\r" + two && two != ""
    ensures '\n' !in line && DropCR(line) == line
  {
    assert line[|line| - 1] == two[|two| - 1];
  }

  lemma ReturnCut(one: string, rest: string)
    requires Fitting(one) && rest != "" && rest[0] != '\n'
    ensures StandardLines(one + "\r" + rest) == [one] + StandardLines(rest)
  {
    hide Bytes;
    var text := one + "\r" + rest;
    var e := EndOfLine(text);
    assert text[|one|] == '\r' && forall i | 0 <= i < |one| :: text[i] == one[i];
    assert e == |one| && text[..e] == one && text[e + 1..] == rest && text[e + 1] == rest[0];
  }

  lemma TwoFields(one: string, a: string, two: string, b: string)
    requires one != "" && Field(one) == "data" && Value(one) == a
    requires two != "" && Field(two) == "data" && Value(two) == b
    ensures StandardEvent([one, two]) == [Event("message", a + "\n" + b)] && "" !in [one, two]
  {
    hide Field, Value;
    var none: seq<string> := [];
    assert [one, two][..1] == [one] && [one][..0] == none;
    assert StandardData([one]) == [a] && StandardData([one, two]) == [a, b];
    assert StandardType([one]) == "" && StandardType([one, two]) == "";
    assert Join([a, b], "\n") == a + "\n" + b by { assert [a, b][1..] == [b]; }
  }
}

/**
 On which texts the MCP client's reader agrees with the standard at every empty line
 (WHATWG HTML, section 9.2.6, against pkg/mcp/sse.go:93-124).
 */
module SsePrefixes {
  import opened Text
  import opened SseFrames
  import opened SseStandard

  const NOTHING := Buffers("", "", [])

  /** The end of the first n lines is an empty line, or the beginning. */
  predicate StopsAt(lines: seq<string>, n: nat) { n <= |lines| && (n == 0 || lines[n - 1] == "") }

  ghost predicate AgreeAt(lines: seq<string>, n: nat)
    requires n <= |lines|
  {
    AllNamed(Events(lines[..n])) == Interpret(NOTHING, lines[..n]).events
  }

  // ---- one block after the other ----

  /** Events dispatched before do not matter to those that come. */
  lemma {:induction false} InterpretShift(b: Buffers, lines: seq<string>)
    ensures Interpret(b, lines).events == b.events + Interpret(b.(events := []), lines).events
    ensures Interpret(b, lines).data == Interpret(b.(events := []), lines).data
    ensures Interpret(b, lines).eventType == Interpret(b.(events := []), lines).eventType
    decreases |lines|
  {
    if lines != [] {
      LineShift(b, lines[0]);
      hide Line;
      InterpretShift(Line(b, lines[0]), lines[1..]);
      InterpretShift(Line(b.(events := []), lines[0]), lines[1..]);
    }
  }

  lemma LineShift(b: Buffers, line: string)
    ensures var c := b.(events := []);
            && Line(b, line).events == b.events + Line(c, line).events
            && Line(b, line).(events := []) == Line(c, line).(events := [])
  {
    hide Field, Value;
  }

  lemma BlockEnds(block: seq<string>)
    requires "" !in block
    ensures Interpret(NOTHING, block + [""]) == Buffers("", "", StandardEvent(block))
  {
    hide Line, StandardEvent, Dispatch;
    StandardBlock(block);
    InterpretAppend(NOTHING, block, [""]);
    var c := Interpret(NOTHING, block);
    EmptyLineDispatches(c);
    assert Interpret(c, [""]) == Interpret(Dispatch(c), []);
    Emptied(c);
  }

  lemma Emptied(b: Buffers)
    ensures Dispatch(b).data == "" && Dispatch(b).eventType == ""
  {
  }

  /** A block, its empty line, and what follows. */
  lemma BlockThen(block: seq<string>, rest: seq<string>)
    requires "" !in block
    ensures Interpret(NOTHING, block + [""] + rest).events == StandardEvent(block) + Interpret(NOTHING, rest).events
    ensures AllNamed(Events(block + [""] + rest)) == AllNamed(EventOf(block)) + AllNamed(Events(rest))
  {
    hide StandardEvent, Interpret, Events, EventOf;
    BlockEnds(block);
    InterpretAppend(NOTHING, block + [""], rest);
    InterpretShift(Buffers("", "", StandardEvent(block)), rest);
    EventsCons(block, rest);
    NamedAppend(EventOf(block), Events(rest));
  }

  lemma {:induction false} BlocksAgree(lines: seq<string>)
    ensures (forall n | StopsAt(lines, n) :: AgreeAt(lines, n)) <==> SameBlocks(lines)
    decreases |lines|
  {
    hide AgreeAt, SameBlock, Interpret, Events;
    var k := BlockLen(lines);
    AgreeAtStart(lines);
    if k < |lines| {
      var block, rest := lines[..k], lines[k + 1..];
      BlocksAgree(rest);
      assert lines == block + [""] + rest;
      forall m: nat | m <= |rest|
        ensures StopsAt(rest, m) <==> StopsAt(lines, k + 1 + m)
        ensures SameBlock(block) ==> (AgreeAt(lines, k + 1 + m) <==> AgreeAt(rest, m))
      {
        AgreeBehind(block, rest, m);
      }
      AgreeFirst(block, rest);
      if forall n | StopsAt(lines, n) :: AgreeAt(lines, n) {
        assert StopsAt(lines, k + 1);
        forall m | StopsAt(rest, m)
          ensures AgreeAt(rest, m)
        {
          assert StopsAt(lines, k + 1 + m);
        }
      }
      if SameBlocks(lines) {
        forall n: nat | StopsAt(lines, n)
          ensures AgreeAt(lines, n)
        {
          NoStopInside(lines, n);
          if n > 0 {
            assert StopsAt(rest, n - k - 1) && AgreeAt(rest, n - k - 1);
            assert AgreeAt(lines, k + 1 + (n - k - 1));
          }
        }
      }
    } else {
      forall n: nat | StopsAt(lines, n)
        ensures n == 0
      {
        NoStopInside(lines, n);
      }
    }
  }

  lemma AgreeAtStart(lines: seq<string>)
    ensures AgreeAt(lines, 0)
  {
    assert lines[..0] == [];
    NothingLeft();
  }

  lemma NoStopInside(lines: seq<string>, n: nat)
    ensures StopsAt(lines, n) && n > 0 ==> n > BlockLen(lines)
  {
    var k := BlockLen(lines);
    assert forall i | 0 <= i < k :: lines[i] == lines[..k][i];
  }

  lemma AgreeBehind(block: seq<string>, rest: seq<string>, m: nat)
    requires "" !in block && m <= |rest|
    ensures var lines := block + [""] + rest;
            var k := |block|;
            && (StopsAt(rest, m) <==> StopsAt(lines, k + 1 + m))
            && (SameBlock(block) ==> (AgreeAt(lines, k + 1 + m) <==> AgreeAt(rest, m)))
  {
    var lines := block + [""] + rest;
    hide Interpret, Events, SameBlock, StandardEvent, EventOf;
    assert lines[..|block| + 1 + m] == block + [""] + rest[..m];
    BlockThen(block, rest[..m]);
    BlockExactly(block);
    Cancel(StandardEvent(block), AllNamed(Events(rest[..m])), Interpret(NOTHING, rest[..m]).events);
    StopBehind(block, rest, m);
  }

  lemma Cancel(a: seq<Event>, b: seq<Event>, c: seq<Event>)
    ensures a + b == a + c <==> b == c
  {
    assert (a + b)[|a|..] == b && (a + c)[|a|..] == c;
  }

  lemma StopBehind(block: seq<string>, rest: seq<string>, m: nat)
    requires m <= |rest|
    ensures StopsAt(rest, m) <==> StopsAt(block + [""] + rest, |block| + 1 + m)
  {
    var lines := block + [""] + rest;
    assert lines[|block|] == "" && forall i | 0 <= i < |rest| :: lines[|block| + 1 + i] == rest[i];
  }

  lemma AgreeFirst(block: seq<string>, rest: seq<string>)
    requires "" !in block
    ensures AgreeAt(block + [""] + rest, |block| + 1) <==> SameBlock(block)
  {
    var lines := block + [""] + rest;
    hide Interpret, Events, SameBlock, StandardEvent, EventOf;
    assert lines[..|block| + 1] == block + [""] + [];
    BlockThen(block, []);
    BlockExactly(block);
    NoEvents();
    assert StandardEvent(block) + [] == StandardEvent(block)
        && AllNamed(EventOf(block)) + [] == AllNamed(EventOf(block));
  }

  lemma NoEvents()
    ensures Interpret(NOTHING, []).events == [] && AllNamed(Events([])) == []
  {
  }

  // ---- prefixes of the text ----

  /** A prefix of a text that ends with an empty line, or the empty one. */
  predicate EndsEmpty(p: string) {
    p == "" || (p[|p| - 1] == '\n' && Lines(p) != [] && Lines(p)[|Lines(p)| - 1] == "")
  }

  /** Lines that fit do not depend on what follows the last line feed. */
  lemma {:induction false} LinesAppend(p: string, r: string)
    requires p == "" || p[|p| - 1] == '\n'
    requires LinesFit(p + r)
    ensures Lines(p + r) == Lines(p) + Lines(r)
    decreases |p|
  {
    hide Lines, LinesFit, Bytes;
    if p == "" {
      assert p + r == r;
      NothingLeft();
    } else {
      var i := IndexOf(p, '\n');
      FirstRaw(p, r, i);
      LineFits(p + r, 0, i);
      RestFits(p + r, i + 1);
      LinesAppend(p[i + 1..], r);
      LinesMore(p[..i], p[i + 1..], r);
    }
  }

  lemma LinesMore(line: string, rest: string, r: string)
    requires '\n' !in line && Bytes(line) < MAX_LINE_BYTES && Lines(rest + r) == Lines(rest) + Lines(r)
    ensures Lines(line + "\n" + (rest + r)) == Lines(line + "\n" + rest) + Lines(r)
  {
    hide Lines, Bytes, DropCR;
    LinesCons(line, rest);
    LinesCons(line, rest + r);
  }

  lemma FirstRaw(p: string, r: string, i: nat)
    requires i < |p| && p[i] == '\n' && p[|p| - 1] == '\n'
    ensures p == p[..i] + "\n" + p[i + 1..] && p + r == p[..i] + "\n" + (p[i + 1..] + r)
    ensures (p + r)[0..i] == p[..i] && (p + r)[i + 1..] == p[i + 1..] + r
    ensures p[i + 1..] != "" ==> p[i + 1..][|p[i + 1..]| - 1] == '\n'
  {
  }

  lemma RestFits(text: string, k: nat)
    requires LinesFit(text) && k <= |text|
    ensures LinesFit(text[k..])
  {
    hide Bytes;
    var rest := text[k..];
    forall i, j | 0 <= i <= j <= |rest| && '\n' !in rest[i..j]
      ensures Bytes(rest[i..j]) < MAX_LINE_BYTES
    {
      assert rest[i..j] == text[k + i..k + j];
      LineFits(text, k + i, k + j);
    }
  }

  /** The text up to the end of its first n lines. */
  lemma {:induction false} LinePrefix(text: string, n: nat) returns (p: string)
    requires LinesFit(text) && StopsAt(Lines(text), n)
    requires ReturnsFed(text)
    ensures p <= text && (p == "" || p[|p| - 1] == '\n') && Lines(p) == Lines(text)[..n] && (n == 0 ==> p == "")
    decreases |text|
  {
    hide LinesFit, ReturnsFed, Lines;
    if n == 0 {
      p := "";
      NothingLeft();
    } else {
      var i := IndexOf(text, '\n');
      if i < 0 {
        NoneStops(text, n);
      } else {
        var line, rest := text[..i], text[i + 1..];
        assert text == line + "\n" + rest && text[0..i] == line;
        LineFits(text, 0, i);
        RestAlike(text, i + 1);
        LinesCons(line, rest);
        if n == 1 {
          p := line + "\n";
          LinesCons(line, "");
          NothingLeft();
          assert line + "\n" + "" == p;
        } else {
          assert Lines(text)[n - 1] == Lines(rest)[n - 2];
          var q := LinePrefix(rest, n - 1);
          p := line + "\n" + q;
          LinesCons(line, q);
          assert text[..|p|] == p;
        }
      }
    }
  }

  /** The last line, if no line feed ends it, is not empty. */
  lemma NoneStops(text: string, n: nat)
    requires '\n' !in text && ReturnsFed(text) && LinesFit(text) && n > 0
    ensures !StopsAt(Lines(text), n)
  {
    hide LinesFit, ReturnsFed, Bytes;
    NoEnd(text);
    LineFits(text, 0, |text|);
    assert text[0..|text|] == text;
    LastRaw(text);
  }

  lemma PrefixEnds(p: string, text: string)
    requires SameEnds(text) && p <= text && EndsEmpty(p)
    ensures SameEnds(p) && StopsAt(Lines(text), |Lines(p)|) && Lines(p) == Lines(text)[..|Lines(p)|]
  {
    hide Lines, Bytes;
    var r := text[|p|..];
    assert text == p + r;
    PrefixFits(p, text);
    LinesAppend(p, r);
    NothingLeft();
    assert forall i | 0 <= i < |p| :: p[i] == text[i];
    forall i | 0 <= i < |p| && p[i] == '\r'
      ensures i + 1 < |p| && p[i + 1] == '\n'
    {
      assert text[i] == '\r';
    }
  }

  lemma PrefixFits(p: string, text: string)
    requires p <= text && LinesFit(text)
    ensures LinesFit(p)
  {
    hide Bytes;
    forall i, j | 0 <= i <= j <= |p| && '\n' !in p[i..j]
      ensures Bytes(p[i..j]) < MAX_LINE_BYTES
    {
      assert p[i..j] == text[i..j];
      LineFits(text, i, j);
    }
  }

  /** Of a text that ends with an empty line both readers look at the same lines. */
  lemma EndedLines(p: string)
    requires SameEnds(p) && EndsEmpty(p)
    ensures AllNamed(Decode(p)) == Standard(p) <==> AgreeAt(Lines(p), |Lines(p)|)
  {
    hide Lines, StandardLines, Bytes, ReturnsFed, LinesFit;
    var tail := SameLines(p);
    NothingLeft();
    assert Lines(p)[..|Lines(p)|] == Lines(p);
    LastOf(StandardLines(p), tail);
  }

  lemma LastOf(a: seq<string>, tail: seq<string>)
    requires LastLine(tail)
    ensures tail == [] ==> a + tail == a
    ensures tail != [] ==> (a + tail)[|a + tail| - 1] != ""
  {
  }

  /**
   Of a text whose line ends both readers see alike: they agree on every prefix that ends with an empty
   line exactly if they read every complete block alike.
   */
  lemma PrefixesAgreeExactly(text: string)
    requires SameEnds(text)
    ensures (forall p | p <= text && EndsEmpty(p) :: AllNamed(Decode(p)) == Standard(p)) <==> SameBlocks(Lines(text))
  {
    hide Lines, SameBlocks, AgreeAt, Decode, Standard, SameEnds, EndsEmpty;
    var lines := Lines(text);
    BlocksAgree(lines);
    forall p | p <= text && EndsEmpty(p)
      ensures StopsAt(lines, |Lines(p)|)
      ensures AllNamed(Decode(p)) == Standard(p) <==> AgreeAt(lines, |Lines(p)|)
    {
      PrefixEnds(p, text);
      EndedLines(p);
      SameAgree(Lines(p), lines);
    }
    forall n | StopsAt(lines, n)
      ensures exists p :: p <= text && EndsEmpty(p) && |Lines(p)| == n
    {
      var p := StopPrefix(text, n);
    }
  }

  lemma SameAgree(a: seq<string>, b: seq<string>)
    requires |a| <= |b| && a == b[..|a|]
    ensures AgreeAt(a, |a|) <==> AgreeAt(b, |a|)
  {
    hide Interpret, Events;
    assert a[..|a|] == b[..|a|];
  }

  lemma StopPrefix(text: string, n: nat) returns (p: string)
    requires SameEnds(text) && StopsAt(Lines(text), n)
    ensures p <= text && EndsEmpty(p) && |Lines(p)| == n
  {
    hide Lines, LinesFit, ReturnsFed;
    p := LinePrefix(text, n);
    NothingLeft();
    if n > 0 { assert Lines(p)[n - 1] == Lines(text)[n - 1]; }
  }
}

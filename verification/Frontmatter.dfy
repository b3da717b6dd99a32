/**
 The frontmatter of SKILL.md: the parser, and a writer it inverts (pkg/skills/bundle/frontmatter.go).

 The parser is the source's: a search for the closing delimiter, a loop over lines whose index jumps
 over the metadata block, and the splitting of one line at its first colon. The writer puts each
 value in double quotes, in single ones or in none, and ends every line with a line feed.
 */
module Frontmatter {
  import opened Wrappers
  import opened Text

  /** No metadata and empty metadata are the same. */
  datatype Manifest = Manifest(name: string, description: string, author: string, version: string,
      metadata: map<string, string>)

  const NO_MANIFEST := Manifest("", "", "", "", map[])

  datatype Parsed = Parsed(manifest: Manifest, raw: string, body: string)

  datatype ParseError = NoStart | NoClosing | NameRequired | DescriptionRequired

  // ---- lines ----

  /** Every "\r\n" becomes "\n". */
  function Normalize(s: string): string
    decreases |s|
  {
    if s == "" then ""
    else if |s| >= 2 && s[0] == '\r' && s[1] == '\n' then "\n" + Normalize(s[2..])
    else [s[0]] + Normalize(s[1..])
  }

  /** strings.Split at line feeds: one more part than there are line feeds. */
  function SplitLines(s: string): (r: seq<string>)
    ensures r != []
    decreases |s|
  {
    var i := IndexOf(s, '\n');
    if i < 0 then [s] else [s[..i]] + SplitLines(s[i + 1..])
  }

  lemma {:induction false} JoinSplit(s: string)
    ensures Join(SplitLines(s), "\n") == s
    decreases |s|
  {
    var i := IndexOf(s, '\n');
    if i >= 0 {
      JoinSplit(s[i + 1..]);
      assert s == s[..i] + "\n" + s[i + 1..];
      assert SplitLines(s)[1..] == SplitLines(s[i + 1..]);
    }
  }

  predicate Blank(line: string) { TrimSpace(line) == "" }

  predicate Indented(line: string) { line != "" && (line[0] == ' ' || line[0] == '\t') }

  function TrimIndent(line: string): string
    decreases |line|
  {
    if Indented(line) then TrimIndent(line[1..]) else line
  }

  // ---- one line ----

  function Unquote(s: string): string {
    if |s| >= 2 && ((s[0] == '"' && s[|s| - 1] == '"') || (s[0] == '\'' && s[|s| - 1] == '\''))
        then s[1..|s| - 1] else s
  }

  function SplitKeyValue(line: string): Option<(string, string)> {
    var idx := IndexOf(line, ':');
    if idx < 0 then None
    else
      var key := TrimSpace(line[..idx]);
      if key == "" then None else Some((key, Unquote(TrimSpace(line[idx + 1..]))))
  }

  function WithField(m: Manifest, key: string, value: string): Manifest {
    if key == "name" then m.(name := value)
    else if key == "description" then m.(description := value)
    else if key == "author" then m.(author := value)
    else if key == "version" then m.(version := value)
    else m
  }

  // ---- the lines of the frontmatter, read one after the other ----

  /** Outside a metadata block, or inside one with what it holds so far. */
  datatype Scan = Outside(m: Manifest) | Inside(m: Manifest, meta: map<string, string>)

  function Close(s: Scan): Manifest {
    match s
    case Outside(m) => m
    case Inside(m, meta) => m.(metadata := meta)
  }

  function StepOutside(m: Manifest, line: string): Scan {
    if Blank(line) || Indented(line) then Outside(m)
    else
      match SplitKeyValue(line)
      case None => Outside(m)
      case Some((key, value)) => if key == "metadata" then Inside(m, map[]) else Outside(WithField(m, key, value))
  }

  function MetaStep(meta: map<string, string>, line: string): map<string, string> {
    match SplitKeyValue(TrimIndent(line))
    case None => meta
    case Some((key, value)) => meta[key := value]
  }

  /** Each line is looked at once; a blank or dedented line ends a metadata block and is read as any other. */
  function Step(s: Scan, line: string): Scan {
    match s
    case Outside(m) => StepOutside(m, line)
    case Inside(m, meta) =>
      if Blank(line) || !Indented(line) then StepOutside(Close(s), line) else Inside(m, MetaStep(meta, line))
  }

  function Scanned(s: Scan, lines: seq<string>): Scan
    decreases |lines|
  {
    if lines == [] then s else Scanned(Step(s, lines[0]), lines[1..])
  }

  function Checked(m: Manifest): Result<Manifest, ParseError> {
    if TrimSpace(m.name) == "" then Err(NameRequired)
    else if TrimSpace(m.description) == "" then Err(DescriptionRequired)
    else Ok(m)
  }

  function ManifestOf(lines: seq<string>): Result<Manifest, ParseError> {
    Checked(Close(Scanned(Outside(NO_MANIFEST), lines)))
  }

  /** `m` is the manifest read before the block. */
  method ParseMetadataBlock(lines: seq<string>, ghost m: Manifest) returns (meta: map<string, string>, consumed: nat)
    ensures consumed <= |lines|
    ensures Close(Scanned(Inside(m, map[]), lines)) == Close(Scanned(Outside(m.(metadata := meta)), lines[consumed..]))
  {
    hide Blank, Indented, StepOutside, MetaStep;
    meta, consumed := map[], 0;
    assert lines[0..] == lines;
    while consumed < |lines|
      invariant consumed <= |lines|
      invariant Scanned(Inside(m, map[]), lines) == Scanned(Inside(m, meta), lines[consumed..])
    {
      var line := lines[consumed];
      assert lines[consumed..][1..] == lines[consumed + 1..];
      if Blank(line) || !Indented(line) {
        assert Step(Inside(m, meta), line) == Step(Outside(m.(metadata := meta)), line);
        return;
      }
      assert Step(Inside(m, meta), line) == Inside(m, MetaStep(meta, line));
      meta := MetaStep(meta, line);
      consumed := consumed + 1;
    }
    assert lines[consumed..] == [];
  }

  /** A line that sets nothing. */
  predicate Idle(line: string) { Blank(line) || Indented(line) || SplitKeyValue(line).None? }

  lemma IdleStep(m: Manifest, lines: seq<string>, i: nat)
    requires i < |lines| && Idle(lines[i])
    ensures Scanned(Outside(m), lines[i..]) == Scanned(Outside(m), lines[i + 1..])
  {
    hide Blank, Indented, SplitKeyValue;
    assert lines[i..][0] == lines[i] && lines[i..][1..] == lines[i + 1..];
    assert Step(Outside(m), lines[i]) == Outside(m);
  }

  lemma FieldStep(m: Manifest, lines: seq<string>, i: nat)
    requires i < |lines| && !Idle(lines[i])
    ensures var (key, value) := SplitKeyValue(lines[i]).value;
            Scanned(Outside(m), lines[i..]) ==
            Scanned(if key == "metadata" then Inside(m, map[]) else Outside(WithField(m, key, value)), lines[i + 1..])
  {
    hide Blank, Indented, SplitKeyValue, WithField;
    assert lines[i..][0] == lines[i] && lines[i..][1..] == lines[i + 1..];
  }

  method SetField(m: Manifest, key: string, value: string) returns (r: Manifest)
    ensures r == WithField(m, key, value)
  {
    r := m;
    if key == "name" {
      r := r.(name := value);
    } else if key == "description" {
      r := r.(description := value);
    } else if key == "author" {
      r := r.(author := value);
    } else if key == "version" {
      r := r.(version := value);
    }
  }

  method ParseManifestLines(lines: seq<string>) returns (r: Result<Manifest, ParseError>)
    ensures r == ManifestOf(lines)
  {
    hide Blank, Indented, SplitKeyValue, Step, Scanned, WithField, TrimSpace;
    hide Checked;
    var m := NO_MANIFEST;
    var i := 0;
    assert lines[0..] == lines;
    while i < |lines|
      invariant 0 <= i <= |lines|
      invariant Close(Scanned(Outside(m), lines[i..])) == Close(Scanned(Outside(NO_MANIFEST), lines))
      decreases |lines| - i
    {
      var line := lines[i];
      if Blank(line) || Indented(line) {
        IdleStep(m, lines, i);
        i := i + 1;
        continue;
      }
      var kv := SplitKeyValue(line);
      if kv.None? {
        IdleStep(m, lines, i);
        i := i + 1;
        continue;
      }
      FieldStep(m, lines, i);
      if kv.value.0 == "metadata" {
        var meta, consumed := ParseMetadataBlock(lines[i + 1..], m);
        assert lines[i + 1..][consumed..] == lines[i + 1 + consumed..];
        m := m.(metadata := meta);
        i := i + 1 + consumed;
        continue;
      }
      m := SetField(m, kv.value.0, kv.value.1);
      i := i + 1;
    }
    assert lines[i..] == [];
    ScannedNone(m);
    r := Require(m);
  }

  /** The two required fields. */
  method Require(m: Manifest) returns (r: Result<Manifest, ParseError>)
    ensures r == Checked(m)
  {
    if TrimSpace(m.name) == "" { return Err(NameRequired); }
    if TrimSpace(m.description) == "" { return Err(DescriptionRequired); }
    return Ok(m);
  }

  lemma ScannedNone(m: Manifest)
    ensures Close(Scanned(Outside(m), [])) == m
  {
  }

  // ---- the whole file ----

  predicate Delimiter(line: string) { TrimSpace(line) == "---" }

  /** The first delimiter from a line on, or -1. */
  function FirstDelimiter(lines: seq<string>, from: nat): (r: int)
    requires from <= |lines|
    ensures r >= 0 ==> from <= r < |lines| && Delimiter(lines[r]) && forall i | from <= i < r :: !Delimiter(lines[i])
    ensures r < 0 ==> forall i | from <= i < |lines| :: !Delimiter(lines[i])
    decreases |lines| - from
  {
    if from == |lines| then -1 else if Delimiter(lines[from]) then from else FirstDelimiter(lines, from + 1)
  }

  function ParseOf(content: string): Result<Parsed, ParseError> {
    var lines := SplitLines(Normalize(content));
    if !Delimiter(lines[0]) then Err(NoStart)
    else
      var end := FirstDelimiter(lines, 1);
      if end < 0 then Err(NoClosing)
      else
        match ManifestOf(lines[1..end])
        case Err(e) => Err(e)
        case Ok(m) => Ok(Parsed(m, Join(lines[1..end], "\n"), TrimSpace(Join(lines[end + 1..], "\n"))))
  }

  method ParseFrontmatter(content: string) returns (r: Result<Parsed, ParseError>)
    ensures r == ParseOf(content)
  {
    hide Normalize, SplitLines, Delimiter, ManifestOf;
    var lines := SplitLines(Normalize(content));
    if !Delimiter(lines[0]) { return Err(NoStart); }
    var end := -1;
    var i := 1;
    while i < |lines|
      invariant 1 <= i <= |lines| && end == -1
      invariant FirstDelimiter(lines, 1) == FirstDelimiter(lines, i)
    {
      if Delimiter(lines[i]) {
        end := i;
        break;
      }
      i := i + 1;
    }
    assert end == FirstDelimiter(lines, 1);
    if end == -1 { return Err(NoClosing); }
    var m := ParseManifestLines(lines[1..end]);
    match m {
      case Err(e) => return Err(e);
      case Ok(manifest) => return Ok(Parsed(manifest, Join(lines[1..end], "\n"),
          TrimSpace(Join(lines[end + 1..], "\n"))));
    }
  }

  // ---- a writer ----

  datatype Style = Bare | Single | Double

  /** A value as it is written. */
  function Styled(value: string, style: Style): string {
    match style
    case Bare => value
    case Single => "'" + value + "'"
    case Double => "\"" + value + "\""
  }

  function Written(key: string, value: string, style: Style): string { key + ": " + Styled(value, style) }

  /** The first and the last character are the same quote, and not the same character. */
  predicate Enclosed(value: string) {
    |value| >= 2 && value[0] == value[|value| - 1] && (value[0] == '"' || value[0] == '\'')
  }

  /** A value can be written in quotes whatever it holds, and without if it is trimmed and not enclosed in quotes. */
  predicate Fits(value: string, style: Style) { style == Bare ==> Trimmed(value) && !Enclosed(value) }

  /** The metadata entries, in some order. */
  datatype Entry = Entry(key: string, value: string, style: Style)

  datatype Styles = Styles(name: Style, description: Style, author: Style, version: Style)

  function MapOf(entries: seq<Entry>): map<string, string>
    decreases |entries|
  {
    if entries == []
        then map[] else MapOf(entries[..|entries| - 1])[entries[|entries| - 1].key := entries[|entries| - 1].value]
  }

  function EntryLines(entries: seq<Entry>): seq<string> {
    seq(|entries|, i requires 0 <= i < |entries| => "  " + Written(entries[i].key, entries[i].value, entries[i].style))
  }

  function Optional(key: string, value: string, style: Style): seq<string> {
    if value == "" then [] else [Written(key, value, style)]
  }

  /** A manifest's lines; `entries` are its metadata. */
  function ManifestLines(m: Manifest, styles: Styles, entries: seq<Entry>): seq<string> {
    [Written("name", m.name, styles.name)] + [Written("description", m.description, styles.description)]
    + Optional("author", m.author, styles.author)
    + Optional("version", m.version, styles.version)
    + MetadataLines(entries)
  }

  function Unlines(lines: seq<string>): string
    decreases |lines|
  {
    if lines == [] then "" else lines[0] + "\n" + Unlines(lines[1..])
  }

  function Render(m: Manifest, styles: Styles, entries: seq<Entry>, body: string): string {
    Unlines([DASHES] + ManifestLines(m, styles, entries) + [DASHES]) + body
  }

  predicate GoodKey(key: string) { key != "" && Trimmed(key) && ':' !in key && '\n' !in key }

  predicate OneLine(value: string, style: Style) { '\n' !in value && Fits(value, style) }

  predicate GoodEntries(entries: seq<Entry>) {
    forall i | 0 <= i < |entries| :: GoodKey(entries[i].key) && OneLine(entries[i].value, entries[i].style)
  }

  predicate Writable(m: Manifest, styles: Styles, entries: seq<Entry>) {
    && OneLine(m.name, styles.name) && OneLine(m.description, styles.description)
    && OneLine(m.author, styles.author) && OneLine(m.version, styles.version)
    && GoodEntries(entries) && m.metadata == MapOf(entries)
  }

  // ---- reading back ----

  /** A line that survives splitting and joining. */
  predicate Whole(line: string) { '\n' !in line && (line != "" ==> line[|line| - 1] != '\r') }

  lemma {:induction false} NormalizeLine(line: string, rest: string)
    requires Whole(line)
    ensures Normalize(line + "\n" + rest) == line + "\n" + Normalize(rest)
    decreases |line|
  {
    var s := line + "\n" + rest;
    if line == "" {
      assert s[0] == '\n' && s[1..] == rest;
    } else {
      NormalizeLine(line[1..], rest);
      assert s[1..] == line[1..] + "\n" + rest;
      if |line| >= 2 {
        assert s[1] == line[1];
      }
    }
  }

  lemma SplitLine(line: string, rest: string)
    requires '\n' !in line
    ensures SplitLines(line + "\n" + rest) == [line] + SplitLines(rest)
  {
    var s := line + "\n" + rest;
    assert s[|line|] == '\n' && s[..|line|] == line && s[|line| + 1..] == rest;
    assert IndexOf(s, '\n') == |line|;
  }

  lemma {:induction false} SplitRendered(lines: seq<string>, body: string)
    requires forall i | 0 <= i < |lines| :: Whole(lines[i])
    ensures SplitLines(Normalize(Unlines(lines) + body)) == lines + SplitLines(Normalize(body))
    decreases |lines|
  {
    hide Normalize, SplitLines;
    if lines == [] {
      assert "" + body == body;
    } else {
      var rest := Unlines(lines[1..]) + body;
      assert Unlines(lines) + body == lines[0] + "\n" + rest;
      SplitRendered(lines[1..], body);
      NormalizeLine(lines[0], rest);
      SplitLine(lines[0], Normalize(rest));
      assert lines == [lines[0]] + lines[1..];
    }
  }

  /** A value comes back as it was from any style that it fits, whatever white space is around it and its key. */
  lemma SplitWritten(before: string, key: string, after: string, left: string, value: string, right: string,
      style: Style)
    requires key != "" && Trimmed(key) && ':' !in key && Fits(value, style)
    requires Spaces(before) && Spaces(after) && Spaces(left) && Spaces(right)
    ensures SplitKeyValue(before + key + after + ":" + left + Styled(value, style) + right) == Some((key, value))
  {
    var head, w := before + key + after, Styled(value, style);
    var line := before + key + after + ":" + left + w + right;
    SpacesNoColon(before);
    SpacesNoColon(after);
    assert line == head + [':'] + (left + w + right);
    IndexOfCut(head, ':', left + w + right);
    assert line[..|head|] == head && line[|head| + 1..] == left + w + right;
    StyledTrimmed(value, style);
    TrimAround(before, key, after);
    TrimAround(left, w, right);
    hide TrimSpace, IndexOf;
    StyledBack(value, style);
  }

  lemma SpacesNoColon(s: string)
    requires Spaces(s)
    ensures ':' !in s
  {
  }

  lemma StyledTrimmed(value: string, style: Style)
    requires Fits(value, style)
    ensures Trimmed(Styled(value, style))
  {
  }

  lemma StyledBack(value: string, style: Style)
    requires Fits(value, style)
    ensures Unquote(Styled(value, style)) == value
  {
    var w := Styled(value, style);
    assert style != Bare ==> w[1..|w| - 1] == value;
  }

  lemma SplitOwn(key: string, value: string, style: Style)
    requires GoodKey(key) && OneLine(value, style)
    ensures SplitKeyValue(Written(key, value, style)) == Some((key, value))
  {
    hide SplitKeyValue, Styled, Fits;
    SplitWritten("", key, "", " ", value, "", style);
    assert "" + key + "" + ":" + " " + Styled(value, style) + "" == Written(key, value, style);
  }

  /** A line with a colon is no delimiter; one that starts or ends with no space is not blank. */
  lemma NotDelimiter(line: string, i: nat)
    requires i < |line| && line[i] == ':'
    ensures !Delimiter(line) && !Blank(line)
  {
    var a, b := TrimSpaceWhere(line);
    assert a <= i < b;
    assert TrimSpace(line)[i - a] == ':';
  }

  lemma WrittenLine(key: string, value: string, style: Style)
    requires GoodKey(key) && OneLine(value, style)
    ensures var line := Written(key, value, style);
            && Whole(line) && !Delimiter(line) && !Blank(line) && !Indented(line)
            && Whole("  " + line) && !Delimiter("  " + line) && !Blank("  " + line)
            && Indented("  " + line) && TrimIndent("  " + line) == line
  {
    var line := Written(key, value, style);
    var w := Styled(value, style);
    assert '\n' !in w && (w != "" ==> w[|w| - 1] != '\r');
    assert line[|key|] == ':' && line[0] == key[0] && line[|line| - 1] == if w == "" then ' ' else w[|w| - 1];
    IndentedLine(line, key[0]);
    hide Delimiter, Blank, TrimIndent, Styled;
    NotDelimiter(line, |key|);
    var indented := "  " + line;
    assert indented[|key| + 2] == ':' && indented[|indented| - 1] == line[|line| - 1];
    NotDelimiter(indented, |key| + 2);
  }

  lemma IndentedLine(line: string, c: char)
    requires line != "" && line[0] == c && c != ' ' && c != '\t'
    ensures TrimIndent("  " + line) == line
  {
    var indented := "  " + line;
    assert indented[1..] == " " + line && indented[1..][1..] == line;
    assert TrimIndent(line) == line;
    assert TrimIndent(" " + line) == line;
  }

  lemma {:induction false} ScannedAppend(s: Scan, a: seq<string>, b: seq<string>)
    ensures Scanned(s, a + b) == Scanned(Scanned(s, a), b)
    decreases |a|
  {
    hide Step;
    if a == [] {
      assert a + b == b;
    } else {
      ScannedAppend(Step(s, a[0]), a[1..], b);
      assert (a + b)[1..] == a[1..] + b;
    }
  }

  lemma FieldRead(m: Manifest, key: string, value: string, style: Style)
    requires GoodKey(key) && key != "metadata" && OneLine(value, style)
    ensures Scanned(Outside(m), [Written(key, value, style)]) == Outside(WithField(m, key, value))
  {
    WrittenLine(key, value, style);
    SplitOwn(key, value, style);
    hide Written, Blank, Indented, SplitKeyValue, GoodKey;
    assert Step(Outside(m), Written(key, value, style)) == Outside(WithField(m, key, value));
  }

  lemma OptionalRead(m: Manifest, key: string, value: string, style: Style)
    requires key == "author" || key == "version"
    requires OneLine(value, style) && (key == "author" ==> m.author == "") && (key == "version" ==> m.version == "")
    ensures Scanned(Outside(m), Optional(key, value, style)) == Outside(WithField(m, key, value))
  {
    FieldKeys();
    if value != "" {
      FieldRead(m, key, value, style);
    }
  }

  lemma FieldKeys()
    ensures GoodKey("name") && GoodKey("description") && GoodKey("author") && GoodKey("version")
  {
  }

  const METADATA_LINE := "metadata:"

  lemma MetadataSplit()
    ensures SplitKeyValue(METADATA_LINE) == Some(("metadata", ""))
  {
    assert METADATA_LINE[8] == ':' && METADATA_LINE[..8] == "metadata" && METADATA_LINE[9..] == "";
    assert ':' !in "metadata";
    TrimmedUnchanged("metadata");
    hide TrimSpace, IndexOf;
    assert TrimSpace("") == "" by { TrimmedUnchanged(""); }
  }

  lemma MetadataShape()
    ensures Whole(METADATA_LINE) && !Delimiter(METADATA_LINE) && !Blank(METADATA_LINE) && !Indented(METADATA_LINE)
  {
    assert METADATA_LINE[8] == ':';
    NotDelimiter(METADATA_LINE, 8);
  }

  lemma MetadataRead(m: Manifest)
    ensures Scanned(Outside(m), [METADATA_LINE]) == Inside(m, map[])
  {
    MetadataSplit();
    MetadataShape();
    hide SplitKeyValue, Blank, Indented;
    assert Step(Outside(m), METADATA_LINE) == Inside(m, map[]);
  }

  lemma {:induction false} EntriesRead(m: Manifest, entries: seq<Entry>)
    requires GoodEntries(entries)
    ensures Scanned(Inside(m, map[]), EntryLines(entries)) == Inside(m, MapOf(entries))
    decreases |entries|
  {
    hide Written, GoodKey, OneLine;
    if entries != [] {
      var init, last := entries[..|entries| - 1], entries[|entries| - 1];
      EntriesRead(m, init);
      var line := "  " + Written(last.key, last.value, last.style);
      assert EntryLines(entries) == EntryLines(init) + [line];
      ScannedAppend(Inside(m, map[]), EntryLines(init), [line]);
      EntryRead(m, MapOf(init), last);
    }
  }

  lemma EntryRead(m: Manifest, meta: map<string, string>, e: Entry)
    requires GoodKey(e.key) && OneLine(e.value, e.style)
    ensures Scanned(Inside(m, meta), ["  " + Written(e.key, e.value, e.style)]) == Inside(m, meta[e.key := e.value])
  {
    WrittenLine(e.key, e.value, e.style);
    SplitOwn(e.key, e.value, e.style);
    hide Written, Blank, Indented, SplitKeyValue, TrimIndent, GoodKey;
    var line := "  " + Written(e.key, e.value, e.style);
    assert Step(Inside(m, meta), line) == Inside(m, meta[e.key := e.value]);
  }

  function MetadataLines(entries: seq<Entry>): seq<string> {
    if entries == [] then [] else [METADATA_LINE] + EntryLines(entries)
  }

  lemma MetadataLinesRead(m: Manifest, entries: seq<Entry>)
    requires GoodEntries(entries)
    requires m.metadata == map[]
    ensures Close(Scanned(Outside(m), MetadataLines(entries))) == m.(metadata := MapOf(entries))
  {
    hide GoodEntries, EntryLines, Step;
    if entries != [] {
      ScannedAppend(Outside(m), [METADATA_LINE], EntryLines(entries));
      MetadataRead(m);
      EntriesRead(m, entries);
    }
  }

  lemma ScannedFive(s: Scan, a: seq<string>, b: seq<string>, c: seq<string>, d: seq<string>, e: seq<string>)
    ensures Scanned(s, a + b + c + d + e) == Scanned(Scanned(Scanned(Scanned(Scanned(s, a), b), c), d), e)
  {
    hide Scanned;
    ScannedAppend(s, a + b + c + d, e);
    ScannedAppend(s, a + b + c, d);
    ScannedAppend(s, a + b, c);
    ScannedAppend(s, a, b);
  }

  lemma ManifestRead(m: Manifest, styles: Styles, entries: seq<Entry>)
    requires Writable(m, styles, entries)
    ensures ManifestOf(ManifestLines(m, styles, entries)) == Required(m)
  {
    FieldKeys();
    var m1 := WithField(NO_MANIFEST, "name", m.name);
    var m2 := WithField(m1, "description", m.description);
    var m3 := WithField(m2, "author", m.author);
    var m4 := WithField(m3, "version", m.version);
    assert m4 == m.(metadata := map[]) && m2.author == "" && m3.version == "";
    assert m4.(metadata := m.metadata) == m;
    hide Written, GoodKey, GoodEntries, OneLine, Blank, Optional, MetadataLines, MapOf, WithField, Scanned, Checked;
    FieldRead(NO_MANIFEST, "name", m.name, styles.name);
    FieldRead(m1, "description", m.description, styles.description);
    OptionalRead(m2, "author", m.author, styles.author);
    OptionalRead(m3, "version", m.version, styles.version);
    MetadataLinesRead(m4, entries);
    RequiredIs(m);
    ScannedFive(
      Outside(NO_MANIFEST), [Written("name", m.name, styles.name)],
      [Written("description", m.description, styles.description)],
      Optional("author", m.author, styles.author), Optional("version", m.version, styles.version),
      MetadataLines(entries));
  }

  /** Name and description must hold something other than white space, and the name is asked for first. */
  function Required(m: Manifest): Result<Manifest, ParseError> {
    if Spaces(m.name) then Err(NameRequired) else if Spaces(m.description) then Err(DescriptionRequired) else Ok(m)
  }

  lemma RequiredIs(m: Manifest)
    ensures Checked(m) == Required(m)
  {
    BlankIs(m.name);
    BlankIs(m.description);
  }

  lemma BlankIs(line: string)
    ensures TrimSpace(line) == "" <==> Spaces(line)
  {
    var a, b := TrimSpaceWhere(line);
    if Spaces(line) {
      TrimAround(line, "", "");
      assert line + "" + "" == line;
    }
  }

  /** Lines that can be written in a frontmatter. */
  predicate Plain(lines: seq<string>) { forall i | 0 <= i < |lines| :: Whole(lines[i]) && !Delimiter(lines[i]) }

  lemma PlainField(key: string, value: string, style: Style)
    requires GoodKey(key) && OneLine(value, style)
    ensures Plain([Written(key, value, style)]) && Plain(Optional(key, value, style))
  {
    WrittenLine(key, value, style);
    hide Written, Whole, Delimiter;
  }

  lemma PlainMetadata(entries: seq<Entry>)
    requires GoodEntries(entries)
    ensures Plain(MetadataLines(entries))
  {
    hide Whole, Delimiter, GoodEntries, EntryLines;
    MetadataShape();
    PlainEntries(entries);
  }

  lemma PlainEntries(entries: seq<Entry>)
    requires GoodEntries(entries)
    ensures Plain(EntryLines(entries))
  {
    hide Whole, Delimiter, GoodKey, OneLine, Written;
    forall i | 0 <= i < |entries|
      ensures Whole(EntryLines(entries)[i]) && !Delimiter(EntryLines(entries)[i])
    {
      WrittenLine(entries[i].key, entries[i].value, entries[i].style);
    }
  }

  lemma PlainFive(a: seq<string>, b: seq<string>, c: seq<string>, d: seq<string>, e: seq<string>)
    requires Plain(a) && Plain(b) && Plain(c) && Plain(d) && Plain(e)
    ensures Plain(a + b + c + d + e)
  {
    hide Whole, Delimiter;
  }

  lemma ManifestLinesPlain(m: Manifest, styles: Styles, entries: seq<Entry>)
    requires Writable(m, styles, entries)
    ensures Plain(ManifestLines(m, styles, entries))
  {
    FieldKeys();
    hide Plain, GoodKey, GoodEntries, OneLine, Written, Optional, MetadataLines, Blank, MapOf;
    PlainField("name", m.name, styles.name);
    PlainField("description", m.description, styles.description);
    PlainField("author", m.author, styles.author);
    PlainField("version", m.version, styles.version);
    PlainMetadata(entries);
    PlainFive([Written("name", m.name, styles.name)], [Written("description", m.description, styles.description)],
              Optional("author", m.author, styles.author), Optional("version", m.version, styles.version),
              MetadataLines(entries));
  }

  const DASHES := "---"

  lemma DashesWhole()
    ensures Delimiter(DASHES) && Whole(DASHES)
  {
  }

  /** A file whose lines are a delimiter, plain lines, a delimiter and others. */
  lemma ParseLines(content: string, front: seq<string>, tail: seq<string>)
    requires SplitLines(Normalize(content)) == [DASHES] + front + [DASHES] + tail && Plain(front)
    ensures ParseOf(content) ==
            match ManifestOf(front)
            case Err(e) => Err(e)
            case Ok(m) => Ok(Parsed(m, Join(front, "\n"), TrimSpace(Join(tail, "\n"))))
  {
    DashesWhole();
    hide ManifestOf, Whole, Delimiter, Normalize, SplitLines, Join, TrimSpace;
    var lines := SplitLines(Normalize(content));
    assert lines[0] == DASHES && lines[|front| + 1] == DASHES;
    assert forall i | 1 <= i < |front| + 1 :: lines[i] == front[i - 1];
    assert FirstDelimiter(lines, 1) == |front| + 1;
    assert lines[1..|front| + 1] == front;
    assert lines[|front| + 2..] == tail;
  }

  /** The delimiter with white space around it. */
  ghost predicate Dashes(line: string) { exists a, b :: Spaces(a) && Spaces(b) && line == a + DASHES + b }

  lemma DelimiterIs(line: string)
    ensures Delimiter(line) <==> Dashes(line)
  {
    if Dashes(line) {
      var a, b :| Spaces(a) && Spaces(b) && line == a + DASHES + b;
      TrimAround(a, DASHES, b);
    }
    if Delimiter(line) {
      var a, b := TrimSpaceWhere(line);
      assert Spaces(line[..a]) && Spaces(line[b..]);
      assert line == line[..a] + line[a..b] + line[b..];
    }
  }

  /** A file that does not begin with a delimiter has no frontmatter, and one without a second has no end of it. */
  lemma NoFrontmatter(content: string)
    ensures ParseOf(content) == Err(NoStart) <==> !Dashes(SplitLines(Normalize(content))[0])
    ensures ParseOf(content) == Err(NoClosing) <==>
            && Dashes(SplitLines(Normalize(content))[0])
            && forall i | 1 <= i < |SplitLines(Normalize(content))| :: !Dashes(SplitLines(Normalize(content))[i])
  {
    var lines := SplitLines(Normalize(content));
    forall i | 0 <= i < |lines|
      ensures Delimiter(lines[i]) <==> Dashes(lines[i])
    {
      DelimiterIs(lines[i]);
    }
    hide SplitLines, Normalize, Delimiter, Dashes, Scanned;
    FirstDelimiterIs(lines);
  }

  lemma FirstDelimiterIs(lines: seq<string>)
    requires lines != []
    ensures FirstDelimiter(lines, 1) < 0 <==> forall i | 1 <= i < |lines| :: !Delimiter(lines[i])
  {
    hide Delimiter;
  }

  /** A line that says nothing outside a metadata block: white space, an indented line, or one without a key. */
  ghost predicate Junk(line: string) {
    || Spaces(line)
    || (line[0] == ' ' || line[0] == '\t')
    || ':' !in line
    || exists i | 0 <= i < |line| :: line[i] == ':' && Spaces(line[..i])
  }

  lemma JunkIdle(line: string)
    requires Junk(line)
    ensures Idle(line)
  {
    BlankIs(line);
    if !Spaces(line) && line[0] != ' ' && line[0] != '\t' && ':' in line {
      var i :| 0 <= i < |line| && line[i] == ':' && Spaces(line[..i]);
      assert IndexOf(line, ':') == i by {
        assert forall j | 0 <= j < i :: line[j] == line[..i][j];
      }
      BlankIs(line[..i]);
    }
  }

  /** Such lines may stand anywhere between the fields. */
  lemma JunkIgnored(before: seq<string>, line: string, after: seq<string>)
    requires Junk(line) && Scanned(Outside(NO_MANIFEST), before).Outside?
    ensures ManifestOf(before + [line] + after) == ManifestOf(before + after)
  {
    JunkIdle(line);
    var m := Scanned(Outside(NO_MANIFEST), before).m;
    ScannedAppend(Outside(NO_MANIFEST), before + [line], after);
    ScannedAppend(Outside(NO_MANIFEST), before, [line]);
    ScannedAppend(Outside(NO_MANIFEST), before, after);
    hide Junk, Idle, Checked, SplitKeyValue;
    IdleStep(m, [line], 0);
    assert [line][0..] == [line] && [line][1..] == [];
  }

  /**
   Parsing a written file gives back the manifest, the lines in between and the trimmed body, if no
   required field is blank.
   */
  lemma RoundTrip(m: Manifest, styles: Styles, entries: seq<Entry>, body: string)
    requires Writable(m, styles, entries)
    ensures ParseOf(Render(m, styles, entries, body)) ==
            match Required(m)
            case Err(e) => Err(e)
            case Ok(_) => Ok(Parsed(m, Join(ManifestLines(m, styles, entries), "\n"), TrimSpace(Normalize(body))))
  {
    hide ManifestLines, ManifestOf, ParseOf, Whole, Delimiter, Normalize, SplitLines, Join, TrimSpace, Writable,
        Unlines;
    var front := ManifestLines(m, styles, entries);
    var all := [DASHES] + front + [DASHES];
    DashesWhole();
    ManifestLinesPlain(m, styles, entries);
    ManifestRead(m, styles, entries);
    JoinSplit(Normalize(body));
    SplitRendered(all, body);
    ParseLines(Render(m, styles, entries, body), front, SplitLines(Normalize(body)));
  }
}

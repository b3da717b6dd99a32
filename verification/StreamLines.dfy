/** Which lines of a stream of "data:" lines carry a JSON text, told by how such lines are written. */
module StreamLines {
  import opened Wrappers
  import opened Text

  /** The line is "data:" and the text, with any white space on both sides of it. */
  ghost predicate Writes(line: string, text: string) {
    exists a, b :: Spaces(a) && Spaces(b) && line == "data:" + a + text + b
  }

  /** A line that carries a text: a text without white space at its ends, not empty, and not the end mark. */
  ghost predicate Shows(line: string, text: string) {
    text != "" && text != "[DONE]" && Trimmed(text) && Writes(line, text)
  }

  /** A line that carries none: not a "data:" line, an empty one, or the end mark. */
  ghost predicate Silent(line: string) {
    line[..if |line| < 5 then |line| else 5] != "data:" || Writes(line, "") || Writes(line, "[DONE]")
  }

  /**
   The lines carry these items, one after the other, each as a text that decodes to it, with silent lines
   and lines whose text does not decode anywhere between them.
   */
  ghost predicate Carries<T(!new)>(lines: seq<string>, items: seq<T>, decode: string -> Option<T>)
    decreases |lines|
  {
    if lines == [] then items == []
    else
      || ((Silent(lines[0]) || exists text :: Shows(lines[0], text) && decode(text) == None)
          && Carries(lines[1..], items, decode))
      || (items != [] && (exists text :: Shows(lines[0], text) && decode(text) == Some(items[0]))
          && Carries(lines[1..], items[1..], decode))
  }

  /** What a reader finds that takes "data:" and the white space off a line. */
  lemma WritesTrimmed(line: string, text: string)
    requires Writes(line, text) && Trimmed(text)
    ensures HasPrefix(line, "data:") && TrimSpace(TrimPrefix(line, "data:")) == text
  {
    var a, b :| Spaces(a) && Spaces(b) && line == "data:" + a + text + b;
    assert line[..5] == "data:" && line[5..] == a + text + b;
    TrimAround(a, text, b);
  }

  lemma NoPrefix(line: string)
    requires line[..if |line| < 5 then |line| else 5] != "data:"
    ensures !HasPrefix(line, "data:")
  {
  }

  // ---- frames: data lines up to an empty line ----

  /** A data line of this content: one space after the colon does not belong to it. */
  predicate WritesPart(line: string, part: string) {
    line == "data: " + part || (line == "data:" + part && (part == "" || part[0] != ' '))
  }

  predicate Aside(line: string) { line != "" && line[..if |line| < 5 then |line| else 5] != "data:" }

  /** Lines of one frame: its parts as data lines, and any other lines between them. */
  predicate Block(lines: seq<string>, parts: seq<string>)
    decreases |lines|
  {
    if lines == [] then parts == []
    else
      || (Aside(lines[0]) && Block(lines[1..], parts))
      || (parts != [] && WritesPart(lines[0], parts[0]) && Block(lines[1..], parts[1..]))
  }

  /** Where the first empty line stands, or the number of lines. */
  function FirstEmpty(lines: seq<string>): (n: nat)
    ensures n <= |lines| && "" !in lines[..n] && (n < |lines| ==> lines[n] == "")
    decreases |lines|
  {
    if lines == [] || lines[0] == "" then 0 else FirstEmpty(lines[1..]) + 1
  }

  /** What follows the first empty line. */
  function Behind(lines: seq<string>): seq<string> {
    if FirstEmpty(lines) < |lines| then lines[FirstEmpty(lines) + 1..] else []
  }

  /** A frame that counts for nothing: without data, or with the end mark. */
  predicate Idle(parts: seq<string>) { parts == [] || Join(parts, "\n") == "" || Join(parts, "\n") == "[DONE]" }

  /** The lines carry these texts, one frame each, with idle frames anywhere; the last needs no empty line. */
  ghost predicate Frames(lines: seq<string>, texts: seq<string>)
    decreases |lines|
  {
    if lines == [] then texts == []
    else
      exists parts ::
        && Block(lines[..FirstEmpty(lines)], parts)
        && if Idle(parts) then Frames(Behind(lines), texts)
           else texts != [] && texts[0] == Join(parts, "\n") && Frames(Behind(lines), texts[1..])
  }

  /** The texts decode to these items, but for those that do not decode. */
  predicate Decodes<T(==)>(texts: seq<string>, items: seq<T>, decode: string -> Option<T>)
    decreases |texts|
  {
    if texts == [] then items == []
    else if decode(texts[0]) == None then Decodes(texts[1..], items, decode)
    else items != [] && decode(texts[0]) == Some(items[0]) && Decodes(texts[1..], items[1..], decode)
  }
}

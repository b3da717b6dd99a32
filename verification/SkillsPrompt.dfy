/** The block of skill instructions in the system prompt: inserted and removed (pkg/agent/nodes/skills.go). */
module SkillsPrompt {
  import opened Text
  import opened Search

  const START := "<souz_skills_context>"
  const END := "</souz_skills_context>"

  const INTRO_PART_1 := "The following skills were"
  const INTRO_PART_2 := " selected as relevant to "
  const INTRO_PART_3 := "the current request. "
  const INTRO_PART_4 := "Follow each skill's "
  const INTRO_PART_5 := "instructions when "
  const INTRO_PART_6 := "performing related work; "
  const INTRO_PART_7 := "ignore skills that turn "
  const INTRO_PART_8 := "out not to apply."

  /** The sentence that opens the block. */
  function Intro(): string {
    INTRO_PART_1 + INTRO_PART_2 + INTRO_PART_3 + INTRO_PART_4 + INTRO_PART_5 + INTRO_PART_6 + INTRO_PART_7
        + INTRO_PART_8
  }

  datatype Skill = Skill(skillID: string, name: string, description: string, version: string, body: string)

  // ---- the two operations ----

  function Strip(prompt: string): string {
    var start := Index(prompt, START);
    if start < 0 then prompt
    else
      var end := Index(prompt, END);
      if end < 0 then prompt else TrimSpace(prompt[..start] + prompt[end + |END|..])
  }

  function Heading(s: Skill): string {
    "\n## " + s.name + (if s.version != "" then " (v" + s.version + ")" else "") + "\n"
  }

  function Content(s: Skill): string { (if s.description != "" then s.description + "\n\n" else "") + s.body + "\n" }

  function Sections(skills: seq<Skill>): string
    decreases |skills|
  {
    if skills == [] then ""
    else Sections(skills[..|skills| - 1]) + Heading(skills[|skills| - 1]) + Content(skills[|skills| - 1])
  }

  /** The sections, front to back: a heading with name and version, the description if there is one, the body. */
  function Shown(skills: seq<Skill>): string
    decreases |skills|
  {
    if skills == [] then ""
    else
      var s := skills[0];
      "\n## " + s.name + (if s.version == "" then "" else " (v" + s.version + ")") + "\n"
      + (if s.description == "" then "" else s.description + "\n\n") + s.body + "\n"
      + Shown(skills[1..])
  }

  lemma {:induction false} ShownMore(skills: seq<Skill>, s: Skill)
    ensures Shown(skills + [s]) == Shown(skills) + Shown([s])
    decreases |skills|
  {
    var all := skills + [s];
    if skills == [] {
      assert all == [s] && Shown([]) + Shown([s]) == Shown([s]);
    } else {
      assert all[0] == skills[0] && all[1..] == skills[1..] + [s];
      ShownMore(skills[1..], s);
    }
  }

  lemma {:induction false} SectionsShown(skills: seq<Skill>)
    ensures Sections(skills) == Shown(skills)
    decreases |skills|
  {
    if skills != [] {
      var n := |skills| - 1;
      var s := skills[n];
      SectionsShown(skills[..n]);
      ShownMore(skills[..n], s);
      assert skills == skills[..n] + [s];
      assert Shown([s]) == Heading(s) + Content(s) by { OneShown(s); }
    }
  }

  lemma OneShown(s: Skill)
    ensures Shown([s]) == Heading(s) + Content(s)
  {
    assert [s][1..] == [];
  }

  /** The block stands behind the prompt, between its markers, and shows every skill in order. */
  lemma AppendShows(prompt: string, skills: seq<Skill>)
    ensures Append(prompt, skills) ==
            (if prompt == "" then "" else prompt + "\n\n") + (START + "\n" + Intro() + "\n") + Shown(skills) + END
  {
    hide Intro, Sections, Shown;
    SectionsShown(skills);
  }

  function Opening(): string { START + "\n" + Intro() + "\n" }

  function Before(prompt: string): string { if prompt == "" then "" else prompt + "\n\n" }

  function Append(prompt: string, skills: seq<Skill>): string { Before(prompt) + Opening() + Sections(skills) + END }

  method AppendSkillsContext(prompt: string, skills: seq<Skill>) returns (out: string)
    ensures out == Append(prompt, skills)
  {
    hide Opening, Heading, Content;
    out := Opening();
    for i := 0 to |skills|
      invariant out == Opening() + Sections(skills[..i])
    {
      var s := skills[i];
      assert skills[..i + 1][..i] == skills[..i];
      assert out + Heading(s) + Content(s) == Opening() + Sections(skills[..i + 1]);
      out := out + Heading(s) + Content(s);
    }
    assert skills[..|skills|] == skills;
    out := out + END;
    if prompt != "" {
      out := prompt + "\n\n" + out;
    }
  }

  // ---- no marker straddles a boundary ----

  /** The characters that stand between the fields; none is in a marker. */
  predicate Separator(sep: string) { forall i | 0 <= i < |sep| :: sep[i] !in END }

  predicate Lacks(s: string, c: char) { forall i | 0 <= i < |s| :: s[i] != c }

  lemma OffMarker(c: char)
    requires c == '\n' || c == '#' || c == ' ' || c == '(' || c == 'v' || c == ')'
    ensures c !in END
  {
  }

  lemma FeedSeparates()
    ensures Separator("\n") && Separator("\n\n")
  {
    hide *;
    OffMarker('\n');
    Separating("\n");
    Separating("\n\n");
  }

  lemma Separating(sep: string)
    requires forall i | 0 <= i < |sep| :: sep[i] !in END
    ensures Separator(sep)
  {
  }

  lemma HashSeparates()
    ensures Separator("\n## ")
  {
    hide *;
    OffMarker('\n');
    OffMarker('#');
    OffMarker(' ');
    Separating("\n## ");
  }

  lemma OpenSeparates()
    ensures Separator(" (v")
  {
    hide *;
    OffMarker(' ');
    OffMarker('(');
    OffMarker('v');
    Separating(" (v");
  }

  lemma CloseSeparates()
    ensures Separator(")\n")
  {
    hide *;
    OffMarker(')');
    OffMarker('\n');
    Separating(")\n");
  }

  lemma EndChars()
    ensures Separator("\n") && Separator("\n\n") && Separator("\n## ") && Separator(" (v") && Separator(")\n")
  {
    hide *;
    FeedSeparates();
    HashSeparates();
    OpenSeparates();
    CloseSeparates();
  }

  predicate Free(s: string) { !Contains(s, END) }

  lemma FreeAround(a: string, sep: string, b: string)
    requires sep != "" && Separator(sep)
    ensures Free(a + sep + b) <==> Free(a) && Free(b)
  {
    ContainsAround(a, sep, b, END);
  }

  lemma FreeShort(s: string)
    requires |s| < 22
    ensures Free(s)
  {
  }

  lemma FreeAfter(a: string, sep: string)
    requires sep != "" && Separator(sep)
    ensures Free(a + sep) <==> Free(a)
  {
    FreeAround(a, sep, "");
    FreeShort("");
    assert a + sep + "" == a + sep;
  }

  lemma FreeBefore(sep: string, b: string)
    requires sep != "" && Separator(sep)
    ensures Free(sep + b) <==> Free(b)
  {
    FreeAround("", sep, b);
    FreeShort("");
    assert "" + sep + b == sep + b;
  }

  lemma HeadingFree(s: Skill)
    ensures Free(Heading(s)) <==> Free(s.name) && Free(s.version)
    ensures Heading(s) != ""
  {
    hide Free, Separator;
    EndChars();
    FreeShort("");
    if s.version == "" {
      assert Heading(s) == "\n## " + (s.name + "\n");
      FreeBefore("\n## ", s.name + "\n");
      FreeAfter(s.name, "\n");
    } else {
      var v := s.version + ")\n";
      assert Heading(s) == "\n## " + (s.name + " (v" + v);
      FreeBefore("\n## ", s.name + " (v" + v);
      FreeAround(s.name, " (v", v);
      FreeAfter(s.version, ")\n");
    }
  }

  lemma TextFree(s: Skill)
    ensures Free(Content(s)) <==> Free(s.description) && Free(s.body)
  {
    hide Free, Separator;
    EndChars();
    FreeShort("");
    FreeAfter(s.body, "\n");
    if s.description == "" {
      assert Content(s) == s.body + "\n";
    } else {
      assert Content(s) == s.description + "\n\n" + (s.body + "\n");
      FreeAround(s.description, "\n\n", s.body + "\n");
    }
  }

  predicate SkillFree(s: Skill) { Free(s.name) && Free(s.version) && Free(s.description) && Free(s.body) }

  /** A heading begins and ends with a line feed. */
  lemma HeadingEnds(s: Skill) returns (h: string, body: string)
    ensures Heading(s) == "\n" + h && Heading(s) == body + "\n"
  {
    h, body := Heading(s)[1..], Heading(s)[..|Heading(s)| - 1];
  }

  /** Text before a heading does not matter to it: a heading begins with a line feed. */
  lemma SectionFree(before: string, s: Skill)
    ensures Free(before + Heading(s) + Content(s)) <==> Free(before) && SkillFree(s)
  {
    hide Free, Separator, Heading, Content;
    HeadingFree(s);
    TextFree(s);
    EndChars();
    var h, body := HeadingEnds(s);
    var t := Content(s);
    FreeAround(before, "\n", h + t);
    assert before + Heading(s) + t == before + "\n" + (h + t);
    FreeBefore("\n", h + t);
    assert "\n" + (h + t) == body + "\n" + t;
    FreeAround(body, "\n", t);
    FreeAfter(body, "\n");
  }

  lemma NoBracket(s: string)
    requires Lacks(s, '<')
    ensures Free(s)
  {
    assert END[0] == '<';
    if Contains(s, END) {
      var i :| 0 <= i <= |s| && At(s, END, i);
      AtIs(s, END, i);
    }
  }

  lemma IntroLacks()
    ensures Lacks(Intro(), '<')
  {
    assert Lacks(INTRO_PART_1, '<') && Lacks(INTRO_PART_2, '<') && Lacks(INTRO_PART_3, '<') && Lacks(INTRO_PART_4, '<');
    assert Lacks(INTRO_PART_5, '<') && Lacks(INTRO_PART_6, '<') && Lacks(INTRO_PART_7, '<') && Lacks(INTRO_PART_8, '<');
    hide *;
  }

  lemma OpeningFree()
    ensures Free(Opening())
  {
    EndChars();
    FreeShort(START);
    IntroLacks();
    NoBracket(Intro());
    hide Free, Separator, Intro;
    assert Opening() == START + "\n" + (Intro() + "\n");
    FreeAround(START, "\n", Intro() + "\n");
    FreeAfter(Intro(), "\n");
  }

  /** The block before its end marker, with what precedes it. */
  lemma {:induction false} SectionsFree(before: string, skills: seq<Skill>)
    requires Free(before)
    ensures Free(before + Sections(skills)) <==> forall i | 0 <= i < |skills| :: SkillFree(skills[i])
    decreases |skills|
  {
    hide Free, SkillFree, Heading, Content;
    if skills == [] {
      assert before + "" == before;
    } else {
      var init, last := skills[..|skills| - 1], skills[|skills| - 1];
      SectionsFree(before, init);
      SectionFree(before + Sections(init), last);
      assert before + Sections(skills) == before + Sections(init) + Heading(last) + Content(last);
      assert skills == init + [last];
    }
  }

  // ---- insert, then remove ----

  /** A prompt without a marker. */
  predicate Clean(p: string) { !Contains(p, START) && Free(p) }

  lemma StartLacks()
    ensures '\n' !in START && |START| == 21 && |END| == 22
  {
  }

  lemma StartPlace(prompt: string, rest: string)
    requires !Contains(prompt, START)
    ensures Index(Before(prompt) + START + rest, START) == |Before(prompt)|
  {
    StartLacks();
    var s := Before(prompt) + START + rest;
    AtLeft(START, rest, START, 0);
    AtRight(Before(prompt), START + rest, START, 0);
    assert s == Before(prompt) + (START + rest);
    forall j | 0 <= j < |Before(prompt)|
      ensures !At(s, START, j)
    {
      if At(s, START, j) {
        assert s == prompt + "\n\n" + (START + rest);
        AtAround(prompt, "\n\n", START + rest, START, j);
        AtWithin(prompt, START, j);
      }
    }
    IndexIs(s, START, |Before(prompt)|);
  }

  lemma EndPlace(x: string)
    requires x != "" && x[|x| - 1] == '\n' && Free(x)
    ensures Index(x + END, END) == |x|
  {
    var y := x[..|x| - 1];
    assert x == y + "\n";
    EndChars();
    FreeAfter(y, "\n");
    AtRight(x, END, END, 0);
    forall j | 0 <= j < |x|
      ensures !At(x + END, END, j)
    {
      if At(x + END, END, j) {
        AtAround(y, "\n", END, END, j);
        AtWithin(y, END, j);
      }
    }
    IndexIs(x + END, END, |x|);
  }

  /** What stands before the end marker. */
  function Head(prompt: string, skills: seq<Skill>): string { Before(prompt) + Opening() + Sections(skills) }

  lemma HeadShape(prompt: string, skills: seq<Skill>)
    ensures Append(prompt, skills) == Head(prompt, skills) + END
    ensures Head(prompt, skills) != "" && Head(prompt, skills)[|Head(prompt, skills)| - 1] == '\n'
  {
    hide Intro, Heading, Before;
    if skills != [] {
      var last := skills[|skills| - 1];
      assert Sections(skills)[|Sections(skills)| - 1] == Content(last)[|Content(last)| - 1];
    } else {
      assert Head(prompt, skills) == Before(prompt) + Opening();
    }
  }

  /** What follows the start marker. */
  function Rest(skills: seq<Skill>): string { "\n" + Intro() + "\n" + Sections(skills) + END }

  lemma AppendShape(prompt: string, skills: seq<Skill>)
    ensures Append(prompt, skills) == Before(prompt) + START + Rest(skills)
  {
    hide Intro, Before, Sections;
  }

  lemma HeadFree(prompt: string, skills: seq<Skill>)
    requires Free(prompt)
    ensures Free(Head(prompt, skills)) <==> forall i | 0 <= i < |skills| :: SkillFree(skills[i])
  {
    hide Free, Separator, Opening, Sections, SkillFree;
    EndChars();
    OpeningFree();
    FreeAround(prompt, "\n\n", Opening());
    assert "" + Opening() == Opening();
    SectionsFree(Before(prompt) + Opening(), skills);
  }

  /** Trimming does not reach past a character that is no space. */
  lemma TrimKeeps(u: string, v: string) returns (a: nat)
    requires v != "" && Trimmed(v)
    ensures a <= |u| && TrimSpace(u + v) == u[a..] + v
  {
    var b;
    a, b := TrimSpaceWhere(u + v);
    assert !IsSpace((u + v)[|u + v| - 1]) && !IsSpace((u + v)[|u|]);
    assert b == |u + v|;
    assert a <= |u|;
    assert (u + v)[a..b] == u[a..] + v;
  }

  lemma TrimBlankTail(u: string, v: string)
    requires forall i | 0 <= i < |v| :: IsSpace(v[i])
    ensures TrimSpace(u + v) == TrimSpace(u)
  {
    var c, d := TrimSpaceWhere(u);
    hide TrimSpace;
    var left, text, right := u[..c], u[c..d], u[d..];
    assert u == left + text + right && u + v == left + text + (right + v);
    TrimAround(left, text, right);
    TrimAround(left, text, right + v);
  }

  lemma TrimFree(p: string)
    requires Free(p)
    ensures Free(TrimSpace(p))
  {
    var a, b := TrimSpaceWhere(p);
    if Contains(p[a..b], END) {
      ContainsPart(p, a, b, END);
    }
  }

  /**
   Removing the block gives back the trimmed prompt exactly if no field of a skill contains the end
   marker, whatever else the fields contain.
   */
  lemma StripAppend(prompt: string, skills: seq<Skill>)
    requires Clean(prompt)
    ensures Strip(Append(prompt, skills)) == TrimSpace(prompt) <==> forall i | 0 <= i < |skills| :: SkillFree(skills[i])
  {
    HeadFree(prompt, skills);
    hide Free, Append, Head, Sections, Opening, SkillFree;
    if Free(Head(prompt, skills)) {
      StripFree(prompt, skills);
    } else {
      StripTorn(prompt, skills);
    }
  }

  lemma TrimBefore(prompt: string)
    ensures TrimSpace(Before(prompt)) == TrimSpace(prompt)
  {
    TrimBlankTail(prompt, "\n\n");
  }

  lemma StripFree(prompt: string, skills: seq<Skill>)
    requires Clean(prompt) && Free(Head(prompt, skills))
    ensures Strip(Append(prompt, skills)) == TrimSpace(prompt)
  {
    hide *;
    var h, b := Head(prompt, skills), Before(prompt);
    TrimBefore(prompt);
    HeadShape(prompt, skills);
    StripCuts(prompt, skills);
    EndPlace(h);
    CutAll(b, h, END);
  }

  lemma StripTorn(prompt: string, skills: seq<Skill>)
    requires Clean(prompt) && !Free(Head(prompt, skills))
    ensures Strip(Append(prompt, skills)) != TrimSpace(prompt)
  {
    hide Append, Head, Before, Opening, Sections, Intro, Strip, Index, Contains, TrimSpace;
    var h, b := Head(prompt, skills), Before(prompt);
    StripCuts(prompt, skills);
    EndInside(h);
    TrimFree(prompt);
    hide *;
    var e := Index(h + END, END) + |END|;
    EndStays(b + h[e..]);
    CutSome(b, h, e, END);
  }

  lemma CutAll(b: string, h: string, m: string)
    ensures b + (h + m)[|h| + |m|..] == b
  {
  }

  lemma CutSome(b: string, h: string, e: nat, m: string)
    requires e <= |h|
    ensures b + (h + m)[e..] == b + h[e..] + m
  {
  }

  /** Strip keeps what precedes the start marker and what follows the first end marker. */
  lemma StripCuts(prompt: string, skills: seq<Skill>)
    requires Clean(prompt)
    ensures var h := Head(prompt, skills);
            var e := Index(h + END, END);
            && 0 <= e <= |h|
            && Strip(Append(prompt, skills)) == TrimSpace(Before(prompt) + (h + END)[e + |END|..])
  {
    var h := Head(prompt, skills);
    HeadShape(prompt, skills);
    AppendShape(prompt, skills);
    StartPlace(prompt, Rest(skills));
    hide Append, Head, Before, Rest, TrimSpace;
    AtRight(h, END, END, 0);
    AtWithin(h + END, END, |h|);
    assert (Before(prompt) + START + Rest(skills))[..|Before(prompt)|] == Before(prompt);
  }

  lemma EndStays(u: string)
    ensures !Free(TrimSpace(u + END))
  {
    assert Trimmed(END);
    var a := TrimKeeps(u, END);
    AtRight(u[a..], END, END, 0);
    AtWithin(u[a..] + END, END, |u[a..]|);
  }

  lemma EndInside(h: string)
    requires !Free(h)
    ensures 0 <= Index(h + END, END) <= |h| - |END|
  {
    var i :| 0 <= i <= |h| && At(h, END, i);
    AtLeft(h, END, END, i);
    AtWithin(h + END, END, i);
  }

  // ---- repeated activation ----

  /** The system prompt after turns that each activated some skills. */
  function Prompts(prompt: string, turns: seq<seq<Skill>>): string
    decreases |turns|
  {
    if turns == [] then prompt
    else Append(Strip(Prompts(prompt, turns[..|turns| - 1])), turns[|turns| - 1])
  }

  lemma CleanTrim(p: string)
    requires Clean(p)
    ensures Clean(TrimSpace(p)) && TrimSpace(TrimSpace(p)) == TrimSpace(p)
  {
    TrimFree(p);
    var a, b := TrimSpaceWhere(p);
    if Contains(p[a..b], START) {
      ContainsPart(p, a, b, START);
    }
    TrimmedUnchanged(TrimSpace(p));
  }

  /** Blocks never pile up: after any number of activations there is the prompt and one block, the last. */
  lemma {:induction false} NoAccumulation(prompt: string, turns: seq<seq<Skill>>)
    requires Clean(prompt) && turns != []
    requires forall i, j | 0 <= i < |turns| && 0 <= j < |turns[i]| :: SkillFree(turns[i][j])
    ensures Prompts(prompt, turns) == Append(if |turns| == 1 then prompt else TrimSpace(prompt), turns[|turns| - 1])
    decreases |turns|
  {
    hide Append, SkillFree, TrimSpace, Clean, Free;
    var n := |turns|;
    var init := turns[..n - 1];
    if n == 1 {
      StripClean(prompt);
      assert init == [];
      assert Prompts(prompt, []) == prompt;
    } else {
      NoAccumulation(prompt, init);
      CleanTrim(prompt);
      var last := init[n - 2];
      assert last == turns[n - 2];
      StripAppend(if n == 2 then prompt else TrimSpace(prompt), last);
      assert Strip(Prompts(prompt, init)) == TrimSpace(prompt);
    }
  }

  lemma StripClean(prompt: string)
    requires Clean(prompt)
    ensures Strip(prompt) == prompt
  {
    var i := Index(prompt, START);
    AtWithin(prompt, START, i);
  }

  /** The first place of a text in another. */
  ghost predicate FirstAt(s: string, sub: string, i: nat) { At(s, sub, i) && forall k | 0 <= k < i :: !At(s, sub, k) }

  /** Removing takes out what lies between the first start marker and the end of the first end marker, if both occur. */
  lemma StripExactly(prompt: string, i: nat, j: nat)
    ensures FirstAt(prompt, START, i) && FirstAt(prompt, END, j) ==>
              Strip(prompt) == TrimSpace(prompt[..i] + prompt[j + |END|..])
    ensures !Contains(prompt, START) || !Contains(prompt, END) ==> Strip(prompt) == prompt
  {
    hide START, END, TrimSpace;
    AtWithin(prompt, START, Index(prompt, START));
    AtWithin(prompt, END, Index(prompt, END));
    if FirstAt(prompt, START, i) && FirstAt(prompt, END, j) {
      IndexIs(prompt, START, i);
      IndexIs(prompt, END, j);
    }
  }
}

/**
 The calculator's grammar as its comment states it (pkg/tools/math/math.go:81-88), with at most one
 sign before a power, against the one the code reads.
 */
module CalcComment {
  import opened Wrappers
  import opened CalcSyntax
  import opened CalcGrammar

  /** The derivations of the comment's grammar: what a sign stands before is a power. */
  predicate CommentTree(t: Tree) {
    match t
    case TNum(text, sp) => IsNumeral(text) && AllBlank(sp)
    case TSign(_, sp, a) => AllBlank(sp) && CommentTree(a) && Level(a) >= POWER
    case TBin(l, op, sp, r) =>
      AllBlank(sp) && CommentTree(l) && CommentTree(r) && Level(l) >= OpLevel(op) && Level(r) > OpLevel(op)
    case TPow(b, sp, x) =>
      AllBlank(sp) && CommentTree(b) && CommentTree(x) && Level(b) >= ATOM && Level(x) >= UNARY
    case TCall(name, sp, sp1, a, sp2) =>
      IsIdent(name) && AllBlank(sp) && AllBlank(sp1) && AllBlank(sp2) && CommentTree(a)
    case TParen(sp1, a, sp2) => AllBlank(sp1) && AllBlank(sp2) && CommentTree(a)
  }

  ghost predicate CommentDerives(s: string, lead: string, t: Tree) {
    AllBlank(lead) && CommentTree(t) && s == lead + Yield(t)
  }

  /** No sign stands directly under a sign. */
  predicate SingleSigns(t: Tree) {
    match t
    case TNum(_, _) => true
    case TSign(_, _, a) => !a.TSign? && SingleSigns(a)
    case TBin(l, _, _, r) => SingleSigns(l) && SingleSigns(r)
    case TPow(b, _, x) => SingleSigns(b) && SingleSigns(x)
    case TCall(_, _, _, a, _) => SingleSigns(a)
    case TParen(_, a, _) => SingleSigns(a)
  }

  lemma {:induction false} CommentTrees(t: Tree)
    ensures CommentTree(t) <==> WellFormed(t) && SingleSigns(t)
    decreases t
  {
    match t
    case TNum(_, _) =>
    case TSign(_, _, a) => CommentTrees(a);
    case TBin(l, _, _, r) => CommentTrees(l); CommentTrees(r);
    case TPow(b, _, x) => CommentTrees(b); CommentTrees(x);
    case TCall(_, _, _, a, _) => CommentTrees(a);
    case TParen(_, a, _) => CommentTrees(a);
  }

  // ---- the difference, seen in the text ----

  /** What went before: an operand, a sign that is no binary operator, two such signs, or neither. */
  datatype Seen = AnOperand | OneSign | TwoSigns | Neither

  function Look(seen: Seen, c: char): Seen {
    if seen == TwoSigns || IsBlank(c) then seen
    else if c == '+' || c == '-' then
      if seen == AnOperand then Neither else if seen == Neither then OneSign else TwoSigns
    else if c == '*' || c == '/' || c == '^' || c == '(' then Neither
    else AnOperand
  }

  function Scan(seen: Seen, s: string): Seen
    decreases |s|
  {
    if s == "" then seen else Scan(Look(seen, s[0]), s[1..])
  }

  /** Somewhere in the text a sign that is no binary operator is followed by another one. */
  predicate DoubleSign(s: string) { Scan(Neither, s) == TwoSigns }

  lemma {:induction false} ScanAppend(seen: Seen, a: string, b: string)
    ensures Scan(seen, a + b) == Scan(Scan(seen, a), b)
    decreases |a|
  {
    if a == "" {
      assert a + b == b;
    } else {
      assert (a + b)[1..] == a[1..] + b;
      ScanAppend(Look(seen, a[0]), a[1..], b);
    }
  }

  lemma {:induction false} ScanBlanks(seen: Seen, s: string)
    requires AllBlank(s)
    ensures Scan(seen, s) == seen
    decreases |s|
  {
    if s != "" { ScanBlanks(seen, s[1..]); }
  }

  lemma {:induction false} ScanTwoSigns(s: string)
    ensures Scan(TwoSigns, s) == TwoSigns
    decreases |s|
  {
    if s != "" { ScanTwoSigns(s[1..]); }
  }

  lemma {:induction false} ScanWord(seen: Seen, s: string)
    requires s != "" && seen != TwoSigns && forall i | 0 <= i < |s| :: IsNumeric(s[i]) || IsIdentPart(s[i])
    ensures Scan(seen, s) == AnOperand
    decreases |s|
  {
    if |s| > 1 { ScanWord(AnOperand, s[1..]); }
  }

  /** One token that is no word, and the blanks after it. */
  lemma ScanToken(seen: Seen, c: char, sp: string, rest: string)
    requires AllBlank(sp)
    ensures Scan(seen, [c] + (sp + rest)) == Scan(Look(seen, c), rest)
  {
    ScanAppend(seen, [c], sp + rest);
    ScanAppend(Look(seen, c), sp, rest);
    ScanBlanks(Look(seen, c), sp);
    assert Scan(seen, [c]) == Look(seen, c);
  }

  /** The blanks that end a token. */
  lemma ScanEnd(seen: Seen, s: string, sp: string)
    requires AllBlank(sp)
    ensures Scan(seen, s + sp) == Scan(seen, s)
  {
    ScanAppend(seen, s, sp);
    ScanBlanks(Scan(seen, s), sp);
  }

  /** The text of a tree begins with a sign. */
  predicate SignFirst(t: Tree) {
    match t
    case TSign(_, _, _) => true
    case TBin(l, _, _, _) => SignFirst(l)
    case _ => false
  }

  /** Scanning a tree's text, where an operand may begin, ends behind an operand or at two signs. */
  lemma {:induction false} ScanTree(seen: Seen, t: Tree)
    requires WellFormed(t) && (seen == Neither || seen == OneSign)
    ensures Scan(seen, Yield(t)) == if SingleSigns(t) && !(seen == OneSign && SignFirst(t)) then AnOperand else TwoSigns
    decreases t, 0
  {
    hide Scan, AllBlank;
    match t
    case TNum(text, sp) =>
      ScanWord(seen, text);
      ScanEnd(seen, text, sp);
    case TSign(minus, sp, a) =>
      ScanToken(seen, if minus then '-' else '+', sp, Yield(a));
      if seen == OneSign {
        ScanTwoSigns(Yield(a));
      } else {
        ScanTree(OneSign, a);
      }
    case TBin(l, op, sp, r) =>
      ScanTree(seen, l);
      ScanPair(seen, l, OpChar(op), sp, r);
    case TPow(b, sp, x) =>
      ScanTree(seen, b);
      ScanPair(seen, b, '^', sp, x);
    case TCall(name, sp, spOpen, a, spClose) =>
      ScanWord(seen, name);
      var rest := sp + (['('] + (spOpen + (Yield(a) + ([')'] + spClose))));
      ScanAppend(seen, name, rest);
      ScanAppend(AnOperand, sp, ['('] + (spOpen + (Yield(a) + ([')'] + spClose))));
      ScanBlanks(AnOperand, sp);
      ScanClosed(AnOperand, spOpen, a, spClose);
    case TParen(spOpen, a, spClose) =>
      ScanClosed(seen, spOpen, a, spClose);
  }

  lemma {:induction false} ScanPair(seen: Seen, l: Tree, c: char, sp: string, r: Tree)
    requires WellFormed(r) && AllBlank(sp) && c in "+-*/^"
             && (Scan(seen, Yield(l)) == AnOperand || Scan(seen, Yield(l)) == TwoSigns)
    ensures Scan(seen, Yield(l) + ([c] + (sp + Yield(r))))
            == if Scan(seen, Yield(l)) == AnOperand && SingleSigns(r) then AnOperand else TwoSigns
    decreases r, 1
  {
    hide Scan, AllBlank;
    ScanAppend(seen, Yield(l), [c] + (sp + Yield(r)));
    if Scan(seen, Yield(l)) == AnOperand {
      ScanToken(AnOperand, c, sp, Yield(r));
      ScanTree(Neither, r);
    } else {
      ScanTwoSigns([c] + (sp + Yield(r)));
    }
  }

  lemma {:induction false} ScanClosed(seen: Seen, sp1: string, a: Tree, sp2: string)
    requires WellFormed(a) && AllBlank(sp1) && AllBlank(sp2) && seen != TwoSigns
    ensures Scan(seen, ['('] + (sp1 + (Yield(a) + ([')'] + sp2)))) == if SingleSigns(a) then AnOperand else TwoSigns
    decreases a, 1
  {
    hide Scan, AllBlank;
    ScanToken(seen, '(', sp1, Yield(a) + ([')'] + sp2));
    ScanAppend(Neither, Yield(a), [')'] + sp2);
    ScanTree(Neither, a);
    ScanToken(Scan(Neither, Yield(a)), ')', sp2, "");
    assert sp2 + "" == sp2;
    ScanNothing(Look(Scan(Neither, Yield(a)), ')'));
  }

  lemma ScanNothing(seen: Seen)
    ensures Scan(seen, "") == seen
  {
  }

  /**
   The comment's grammar has the derivations of the code's in which no sign stands directly under a
   sign, that is, those of the texts in which no sign other than a binary operator is followed by another sign.
   */
  lemma CommentExactly(s: string, lead: string, t: Tree)
    ensures CommentDerives(s, lead, t) <==> Derives(s, lead, t) && SingleSigns(t)
    ensures CommentDerives(s, lead, t) <==> Derives(s, lead, t) && !DoubleSign(s)
  {
    CommentTrees(t);
    if Derives(s, lead, t) {
      ScanAppend(Neither, lead, Yield(t));
      ScanBlanks(Neither, lead);
      ScanTree(Neither, t);
    }
  }

  /** A text that the code accepts is accepted under the comment's grammar exactly if it has no double sign. */
  lemma AcceptedExactly(s: string)
    ensures (exists lead, t :: CommentDerives(s, lead, t)) <==> ParseAll(s).Some? && !DoubleSign(s)
  {
    if ParseAll(s).Some? {
      var lead, t := s[..SkipSpace(s, 0)], ParseAll(s).value;
      ParseAllCorrect(s, lead, t);
      CommentExactly(s, lead, t);
    }
    forall lead, t | CommentDerives(s, lead, t)
      ensures ParseAll(s).Some? && !DoubleSign(s)
    {
      CommentExactly(s, lead, t);
      ParseAllCorrect(s, lead, t);
    }
  }

  /** The code accepts any number of signs before a numeral, which the comment's grammar does not. */
  lemma TwoSignsAccepted()
    ensures ParseAll("--1") == Some(TSign(true, "", TSign(true, "", TNum("1", ""))))
    ensures forall lead, t :: !CommentDerives("--1", lead, t)
  {
    var t := TSign(true, "", TSign(true, "", TNum("1", "")));
    TwoSignsTree(t);
    TwoSignsSeen();
    hide *;
    ParseAllCorrect("--1", "", t);
    forall lead, u
      ensures !CommentDerives("--1", lead, u)
    {
      CommentExactly("--1", lead, u);
    }
  }

  lemma TwoSignsTree(t: Tree)
    requires t == TSign(true, "", TSign(true, "", TNum("1", "")))
    ensures Derives("--1", "", t)
  {
    assert "1"[0] == '1';
    assert Yield(t) == "--1";
  }

  lemma TwoSignsSeen()
    ensures DoubleSign("--1")
  {
    assert "--1"[1..] == "-1" && "-1"[1..] == "1";
  }
}

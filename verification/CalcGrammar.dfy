/**
 The deterministic reading of the calculator's grammar finds exactly the derivations (soundness and
 completeness), so the grammar is unambiguous.
 */
module CalcGrammar {
  import opened Wrappers
  import opened CalcSyntax

  /** The first position at or after pos that holds no blank. */
  function SkipSpace(s: string, pos: nat): (r: nat)
    requires pos <= |s|
    ensures pos <= r <= |s|
    ensures r == |s| || !IsBlank(s[r])
    decreases |s| - pos
  {
    if pos < |s| && IsBlank(s[pos]) then SkipSpace(s, pos + 1) else pos
  }

  function NumberEnd(s: string, pos: nat): (r: nat)
    requires pos <= |s|
    ensures pos <= r <= |s|
    ensures r == |s| || !IsNumeric(s[r])
    decreases |s| - pos
  {
    if pos < |s| && IsNumeric(s[pos]) then NumberEnd(s, pos + 1) else pos
  }

  function IdentEnd(s: string, pos: nat): (r: nat)
    requires pos <= |s|
    ensures pos <= r <= |s|
    ensures r == |s| || !IsIdentPart(s[r])
    decreases |s| - pos
  {
    if pos < |s| && IsIdentPart(s[pos]) then IdentEnd(s, pos + 1) else pos
  }

  /** The binary operator of the given level that stands at pos, if any. */
  function OpAt(s: string, pos: nat, level: nat): Option<Op> {
    if pos >= |s| then None
    else if level == EXPR && s[pos] == '+' then Some(Add)
    else if level == EXPR && s[pos] == '-' then Some(Sub)
    else if level == TERM && s[pos] == '*' then Some(Mul)
    else if level == TERM && s[pos] == '/' then Some(Div)
    else None
  }

  datatype Parsed = NoParse | Parsed(tree: Tree, end: nat)

  /** expr and term: an operand, then the loop over the operators of the level. */
  function ParseBin(s: string, pos: nat, level: nat): (r: Parsed)
    requires pos <= |s| && level <= TERM
    ensures r.Parsed? ==> pos < r.end <= |s|
    decreases |s| - pos, UNARY + 2 - level, 0
  {
    match Operand(s, pos, level)
    case NoParse => NoParse
    case Parsed(t, end) => ParseTail(s, end, level, t)
  }

  /** What the operators of the level combine. */
  function Operand(s: string, pos: nat, level: nat): (r: Parsed)
    requires pos <= |s| && level <= TERM
    ensures r.Parsed? ==> pos < r.end <= |s|
    decreases |s| - pos, UNARY + 1 - level, 1
  {
    if level == EXPR then ParseBin(s, pos, TERM) else ParseUnary(s, pos)
  }

  /** Extends `left` to the right for as long as operators of the level follow. */
  function ParseTail(s: string, pos: nat, level: nat, left: Tree): (r: Parsed)
    requires pos <= |s| && level <= TERM
    ensures r.Parsed? ==> pos <= r.end <= |s|
    decreases |s| - pos
  {
    match OpAt(s, pos, level)
    case None => Parsed(left, pos)
    case Some(op) =>
      var q := SkipSpace(s, pos + 1);
      match Operand(s, q, level)
      case NoParse => NoParse
      case Parsed(r, end) => ParseTail(s, end, level, TBin(left, op, s[pos + 1..q], r))
  }

  predicate SignAt(s: string, pos: nat) { pos < |s| && (s[pos] == '+' || s[pos] == '-') }

  function ParseUnary(s: string, pos: nat): (r: Parsed)
    requires pos <= |s|
    ensures r.Parsed? ==> pos < r.end <= |s|
    decreases |s| - pos, 1, 1
  {
    if SignAt(s, pos) then
      var q := SkipSpace(s, pos + 1);
      match ParseUnary(s, q)
      case NoParse => NoParse
      case Parsed(a, end) => Parsed(TSign(s[pos] == '-', s[pos + 1..q], a), end)
    else ParsePower(s, pos)
  }

  function ParsePower(s: string, pos: nat): (r: Parsed)
    requires pos <= |s|
    ensures r.Parsed? ==> pos < r.end <= |s|
    decreases |s| - pos, 1, 0
  {
    match ParseAtom(s, pos)
    case NoParse => NoParse
    case Parsed(b, m) => PowerRest(s, b, m)
  }

  /** The exponent of b, if a '^' stands at m. */
  function PowerRest(s: string, b: Tree, m: nat): (r: Parsed)
    requires m <= |s|
    ensures r.Parsed? ==> m <= r.end <= |s|
    decreases |s| - m, 1, 0
  {
    if CharAt(s, m, '^') then
      var q := SkipSpace(s, m + 1);
      match ParseUnary(s, q)
      case NoParse => NoParse
      case Parsed(x, end) => Parsed(TPow(b, s[m + 1..q], x), end)
    else Parsed(b, m)
  }

  predicate CharAt(s: string, pos: nat, c: char) { pos < |s| && s[pos] == c }

  function ParseAtom(s: string, pos: nat): (r: Parsed)
    requires pos <= |s|
    ensures r.Parsed? ==> pos < r.end <= |s|
    decreases |s| - pos, 0, 1
  {
    if pos == |s| then NoParse
    else if s[pos] == '(' then
      match ParseClosed(s, pos)
      case NoParse => NoParse
      case Parsed(a, m) =>
        var end := SkipSpace(s, m + 1);
        Parsed(TParen(s[pos + 1..SkipSpace(s, pos + 1)], a, s[m + 1..end]), end)
    else if IsNumeric(s[pos]) then ParseNumber(s, pos)
    else if IsIdentStart(s[pos]) then ParseCall(s, pos)
    else NoParse
  }

  function ParseNumber(s: string, pos: nat): (r: Parsed)
    requires pos < |s| && IsNumeric(s[pos])
    ensures r.Parsed? ==> pos < r.end <= |s|
  {
    var m := NumberEnd(s, pos);
    var end := SkipSpace(s, m);
    if IsNumeral(s[pos..m]) then Parsed(TNum(s[pos..m], s[m..end]), end) else NoParse
  }

  function ParseCall(s: string, pos: nat): (r: Parsed)
    requires pos < |s| && IsIdentStart(s[pos])
    ensures r.Parsed? ==> pos < r.end <= |s|
    decreases |s| - pos, 0, 0
  {
    var m := IdentEnd(s, pos);
    var o := SkipSpace(s, m);
    if CharAt(s, o, '(') then
      match ParseClosed(s, o)
      case NoParse => NoParse
      case Parsed(a, c) =>
        var end := SkipSpace(s, c + 1);
        Parsed(TCall(s[pos..m], s[m..o], s[o + 1..SkipSpace(s, o + 1)], a, s[c + 1..end]), end)
    else NoParse
  }

  /** After the '(' at o, reads an expression that a ')' follows; the end is the position of that ')'. */
  function ParseClosed(s: string, o: nat): (r: Parsed)
    requires o < |s|
    ensures r.Parsed? ==> o < r.end < |s| && s[r.end] == ')'
    decreases |s| - o, 0, 0
  {
    match ParseBin(s, SkipSpace(s, o + 1), EXPR)
    case NoParse => NoParse
    case Parsed(a, m) => if CharAt(s, m, ')') then Parsed(a, m) else NoParse
  }

  // ---- soundness ----

  ghost predicate Settled(s: string, pos: nat) {
    pos <= |s| && (pos == |s| || !IsBlank(s[pos]))
  }

  /** What is read is a derivation of what was consumed, and ends where no blank stands. */
  ghost predicate Sound(s: string, pos: nat, r: Parsed, level: nat) {
    r.Parsed? ==>
      && pos < r.end <= |s|
      && WellFormed(r.tree)
      && Level(r.tree) >= level
      && s[pos..r.end] == Yield(r.tree)
      && Settled(s, r.end)
  }

  lemma {:induction false} SkipBlank(s: string, pos: nat)
    requires pos <= |s|
    ensures AllBlank(s[pos..SkipSpace(s, pos)])
    decreases |s| - pos
  {
    if pos < |s| && IsBlank(s[pos]) {
      SkipBlank(s, pos + 1);
      var r := SkipSpace(s, pos);
      assert s[pos..r] == [s[pos]] + s[pos + 1..r];
    }
  }

  lemma {:induction false} IdentChars(s: string, pos: nat)
    requires pos <= |s|
    ensures forall i | pos <= i < IdentEnd(s, pos) :: IsIdentPart(s[i])
    decreases |s| - pos
  {
    if pos < |s| && IsIdentPart(s[pos]) { IdentChars(s, pos + 1); }
  }

  lemma Join(s: string, i: nat, j: nat, k: nat)
    requires i <= j <= k <= |s|
    ensures s[i..k] == s[i..j] + s[j..k]
  {
  }

  /** A character, the blanks after it, and the rest. */
  lemma JoinToken(s: string, i: nat, q: nat, k: nat)
    requires i < |s| && q == SkipSpace(s, i + 1) && q <= k <= |s|
    ensures s[i..k] == [s[i]] + (s[i + 1..q] + s[q..k]) && AllBlank(s[i + 1..q])
  {
    hide AllBlank, SkipSpace;
    SkipBlank(s, i + 1);
    assert s[i..i + 1] == [s[i]];
    Join(s, i, i + 1, k);
    Join(s, i + 1, q, k);
  }

  lemma {:induction false} BinSound(s: string, pos: nat, level: nat)
    requires pos <= |s| && level <= TERM
    ensures Sound(s, pos, ParseBin(s, pos, level), level)
    decreases |s| - pos, UNARY + 2 - level, 0
  {
    OperandSound(s, pos, level);
    var r := Operand(s, pos, level);
    if r.Parsed? {
      TailSound(s, pos, r.end, level, r.tree);
    }
  }

  lemma {:induction false} OperandSound(s: string, pos: nat, level: nat)
    requires pos <= |s| && level <= TERM
    ensures Sound(s, pos, Operand(s, pos, level), level + 1)
    decreases |s| - pos, UNARY + 1 - level, 1
  {
    if level == EXPR { BinSound(s, pos, TERM); } else { UnarySound(s, pos); }
  }

  lemma {:induction false} TailSound(s: string, start: nat, pos: nat, level: nat, left: Tree)
    requires start < pos <= |s| && level <= TERM
    requires Sound(s, start, Parsed(left, pos), level)
    ensures Sound(s, start, ParseTail(s, pos, level, left), level)
    decreases |s| - pos
  {
    match OpAt(s, pos, level)
    case None =>
    case Some(op) =>
      var q := SkipSpace(s, pos + 1);
      OperandSound(s, q, level);
      var r := Operand(s, q, level);
      if r.Parsed? {
        Join(s, start, pos, r.end);
        JoinToken(s, pos, q, r.end);
        TailSound(s, start, r.end, level, TBin(left, op, s[pos + 1..q], r.tree));
      }
  }

  lemma {:induction false} UnarySound(s: string, pos: nat)
    requires pos <= |s|
    ensures Sound(s, pos, ParseUnary(s, pos), UNARY)
    decreases |s| - pos, 1, 1
  {
    if SignAt(s, pos) {
      var q := SkipSpace(s, pos + 1);
      UnarySound(s, q);
      var r := ParseUnary(s, q);
      if r.Parsed? {
        JoinToken(s, pos, q, r.end);
      }
    } else {
      PowerSound(s, pos);
    }
  }

  lemma {:induction false} PowerSound(s: string, pos: nat)
    requires pos <= |s|
    ensures Sound(s, pos, ParsePower(s, pos), POWER)
    decreases |s| - pos, 1, 0
  {
    AtomSound(s, pos);
    var b := ParseAtom(s, pos);
    if b.Parsed? {
      PowerRestSound(s, pos, b.tree, b.end);
    }
  }

  lemma {:induction false} PowerRestSound(s: string, pos: nat, b: Tree, m: nat)
    requires pos < m <= |s| && Sound(s, pos, Parsed(b, m), ATOM)
    ensures Sound(s, pos, PowerRest(s, b, m), POWER)
    decreases |s| - m, 1, 0
  {
    if CharAt(s, m, '^') {
      var q := SkipSpace(s, m + 1);
      UnarySound(s, q);
      var x := ParseUnary(s, q);
      if x.Parsed? {
        Join(s, pos, m, x.end);
        JoinToken(s, m, q, x.end);
      }
    }
  }

  lemma {:induction false} AtomSound(s: string, pos: nat)
    requires pos <= |s|
    ensures Sound(s, pos, ParseAtom(s, pos), ATOM)
    decreases |s| - pos, 0, 1
  {
    if pos < |s| {
      if s[pos] == '(' {
        ClosedSound(s, pos);
      } else if IsNumeric(s[pos]) {
        NumberSound(s, pos);
      } else if IsIdentStart(s[pos]) {
        CallSound(s, pos);
      }
    }
  }

  lemma NumberSound(s: string, pos: nat)
    requires pos < |s| && IsNumeric(s[pos])
    ensures Sound(s, pos, ParseNumber(s, pos), ATOM)
  {
    var m := NumberEnd(s, pos);
    Join(s, pos, m, SkipSpace(s, m));
    SkipBlank(s, m);
  }

  lemma {:induction false} CallSound(s: string, pos: nat)
    requires pos < |s| && IsIdentStart(s[pos])
    ensures Sound(s, pos, ParseCall(s, pos), ATOM)
    decreases |s| - pos, 0, 0
  {
    hide ParseCall, ParseClosed, SkipSpace, IdentEnd, Sound, ClosedText;
    var o := SkipSpace(s, IdentEnd(s, pos));
    CallIs(s, pos);
    if CharAt(s, o, '(') && ParseClosed(s, o).Parsed? {
      ClosedSound(s, o);
      CallBuild(s, pos, ParseClosed(s, o));
    } else {
      NoParseSound(s, pos, ATOM);
    }
  }

  /** What is read as a call, given what is read in its parentheses. */
  function CallOf(s: string, pos: nat, r: Parsed): Parsed
    requires pos <= |s| && r.Parsed? && SkipSpace(s, IdentEnd(s, pos)) < r.end < |s|
  {
    var m := IdentEnd(s, pos);
    var o := SkipSpace(s, m);
    var end := SkipSpace(s, r.end + 1);
    Parsed(TCall(s[pos..m], s[m..o], s[o + 1..SkipSpace(s, o + 1)], r.tree, s[r.end + 1..end]), end)
  }

  lemma CallIs(s: string, pos: nat)
    requires pos < |s| && IsIdentStart(s[pos])
    ensures var o := SkipSpace(s, IdentEnd(s, pos));
            ParseCall(s, pos) ==
            if CharAt(s, o, '(') && ParseClosed(s, o).Parsed? then CallOf(s, pos, ParseClosed(s, o)) else NoParse
  {
    hide ParseClosed, SkipSpace, IdentEnd;
  }

  lemma NoParseSound(s: string, pos: nat, level: nat)
    ensures Sound(s, pos, NoParse, level)
  {
  }

  lemma CallBuild(s: string, pos: nat, r: Parsed)
    requires pos < |s| && IsIdentStart(s[pos])
    requires var o := SkipSpace(s, IdentEnd(s, pos)); r.Parsed? && o < r.end < |s| && ClosedText(s, o, r)
    ensures Sound(s, pos, CallOf(s, pos, r), ATOM)
  {
    CallEnd(s, pos, r);
    hide *;
    var whole, tail := CallPieces(s, pos, r);
    CallText(CallOf(s, pos, r).tree, whole, tail);
    SettledSound(s, pos, CallOf(s, pos, r).tree, r.end + 1, whole);
  }

  lemma CallEnd(s: string, pos: nat, r: Parsed)
    requires pos <= |s| && r.Parsed? && SkipSpace(s, IdentEnd(s, pos)) < r.end < |s|
    ensures CallOf(s, pos, r).Parsed? && CallOf(s, pos, r).tree.TCall?
            && CallOf(s, pos, r).end == SkipSpace(s, r.end + 1)
    ensures CallOf(s, pos, r) == Parsed(CallOf(s, pos, r).tree, SkipSpace(s, r.end + 1))
  {
    hide SkipSpace, IdentEnd;
  }

  predicate IsSlice(whole: string, s: string, i: nat, j: nat)
    requires i <= j <= |s|
  {
    whole == s[i..j]
  }

  lemma CallPieces(s: string, pos: nat, r: Parsed) returns (whole: string, tail: string)
    requires pos < |s| && IsIdentStart(s[pos])
    requires var o := SkipSpace(s, IdentEnd(s, pos)); r.Parsed? && o < r.end < |s| && ClosedText(s, o, r)
    ensures CallOf(s, pos, r).Parsed? && CallOf(s, pos, r).tree.TCall?
    ensures var t := CallOf(s, pos, r).tree;
            && IsIdent(t.name) && AllBlank(t.sp) && AllBlank(t.spOpen) && AllBlank(t.spClose) && WellFormed(t.arg)
            && IsWords(whole, t.name, t.sp, tail) && IsParens(tail, t.spOpen, t.arg, t.spClose)
            && IsSlice(whole, s, pos, SkipSpace(s, r.end + 1))
  {
    CallEnd(s, pos, r);
    hide *;
    whole := CallWords(s, pos, r);
    tail := CallParens(s, pos, r);
  }

  /** The name and the blanks behind it; the rest begins at the '('. */
  lemma CallWords(s: string, pos: nat, r: Parsed) returns (whole: string)
    requires pos < |s| && IsIdentStart(s[pos])
    requires r.Parsed? && SkipSpace(s, IdentEnd(s, pos)) < r.end < |s| && CallOf(s, pos, r).Parsed?
             && CallOf(s, pos, r).tree.TCall?
    ensures var t := CallOf(s, pos, r).tree;
            var end := SkipSpace(s, r.end + 1);
            && IsIdent(t.name) && AllBlank(t.sp) && IsSlice(whole, s, pos, end)
            && IsWords(whole, t.name, t.sp, s[SkipSpace(s, IdentEnd(s, pos))..end])
  {
    hide AllBlank, IsIdent, SkipSpace, IdentEnd, IsWords, Parens, Words;
    var m := IdentEnd(s, pos);
    CallJoin(s, pos, m, SkipSpace(s, m), SkipSpace(s, r.end + 1));
    whole := s[pos..SkipSpace(s, r.end + 1)];
  }

  lemma CallParens(s: string, pos: nat, r: Parsed) returns (tail: string)
    requires pos < |s|
    requires var o := SkipSpace(s, IdentEnd(s, pos)); r.Parsed? && o < r.end < |s| && ClosedText(s, o, r)
    requires CallOf(s, pos, r).Parsed? && CallOf(s, pos, r).tree.TCall?
    ensures var t := CallOf(s, pos, r).tree;
            && AllBlank(t.spOpen) && AllBlank(t.spClose) && WellFormed(t.arg)
            && IsParens(tail, t.spOpen, t.arg, t.spClose)
            && tail == s[SkipSpace(s, IdentEnd(s, pos))..SkipSpace(s, r.end + 1)]
  {
    hide WellFormed, AllBlank, SkipSpace, IdentEnd, IsParens;
    tail := s[SkipSpace(s, IdentEnd(s, pos))..SkipSpace(s, r.end + 1)];
  }


  lemma CallText(t: Tree, whole: string, tail: string)
    requires t.TCall? && IsIdent(t.name) && AllBlank(t.sp) && AllBlank(t.spOpen) && AllBlank(t.spClose)
             && WellFormed(t.arg)
    requires IsWords(whole, t.name, t.sp, tail) && IsParens(tail, t.spOpen, t.arg, t.spClose)
    ensures WellFormed(t) && Level(t) == ATOM && IsYield(whole, t)
  {
    CallFields(t);
    hide Yield, Words, Parens, WellFormed;
  }

  predicate IsWords(whole: string, name: string, sp: string, tail: string) { whole == Words(name, sp, tail) }

  predicate IsParens(whole: string, sp1: string, a: Tree, sp2: string) { whole == Parens(sp1, Yield(a), sp2) }

  predicate IsYield(whole: string, t: Tree) { whole == Yield(t) }

  /** A word, the blanks behind it, and the rest. */
  function Words(name: string, sp: string, tail: string): string { name + (sp + tail) }

  function Parens(sp1: string, inner: string, sp2: string): string { ['('] + (sp1 + (inner + ([')'] + sp2))) }

  /** What makes a call well-formed, and its text. */
  lemma CallFields(t: Tree)
    requires t.TCall?
    ensures WellFormed(t) <==>
            IsIdent(t.name) && AllBlank(t.sp) && AllBlank(t.spOpen) && AllBlank(t.spClose) && WellFormed(t.arg)
    ensures Yield(t) == Words(t.name, t.sp, Parens(t.spOpen, Yield(t.arg), t.spClose))
    ensures Level(t) == ATOM
  {
    hide IsIdent, AllBlank;
  }

  lemma SettledSound(s: string, pos: nat, t: Tree, from: nat, whole: string)
    requires from <= |s| && pos < SkipSpace(s, from)
    requires WellFormed(t) && Level(t) == ATOM && IsYield(whole, t) && IsSlice(whole, s, pos, SkipSpace(s, from))
    ensures Sound(s, pos, Parsed(t, SkipSpace(s, from)), ATOM)
  {
    hide WellFormed, Yield, SkipSpace;
  }

  /** From the '(' at o to the blanks after the ')' at r.end stands r.tree in parentheses. */
  ghost predicate ClosedText(s: string, o: nat, r: Parsed)
    requires o < |s| && r.Parsed? && o < r.end < |s|
  {
    var q := SkipSpace(s, o + 1);
    var end := SkipSpace(s, r.end + 1);
    && q <= r.end
    && WellFormed(r.tree) && AllBlank(s[o + 1..q]) && AllBlank(s[r.end + 1..end])
    && IsParens(s[o..end], s[o + 1..q], r.tree, s[r.end + 1..end])
  }

  lemma CallJoin(s: string, pos: nat, m: nat, o: nat, end: nat)
    requires pos < |s| && IsIdentStart(s[pos])
    requires m == IdentEnd(s, pos) && o == SkipSpace(s, m) && o <= end <= |s|
    ensures IsWords(s[pos..end], s[pos..m], s[m..o], s[o..end])
    ensures IsIdent(s[pos..m]) && AllBlank(s[m..o])
  {
    hide AllBlank, IsIdent, SkipSpace, IdentEnd;
    IdentAt(s, pos);
    SkipBlank(s, m);
    Join(s, pos, m, end);
    Join(s, m, o, end);
  }

  lemma IdentAt(s: string, pos: nat)
    requires pos < |s| && IsIdentStart(s[pos])
    ensures IsIdent(s[pos..IdentEnd(s, pos)])
  {
    assert IdentEnd(s, pos) > pos by { assert IsIdentPart(s[pos]); }
    IdentChars(s, pos);
  }

  /** The part of an atom from its '(' on. */
  lemma {:induction false} ClosedSound(s: string, o: nat)
    requires o < |s| && s[o] == '('
    ensures var r := ParseClosed(s, o);
            r.Parsed? ==> ClosedText(s, o, r)
    decreases |s| - o, 0, 0
  {
    var r := ParseClosed(s, o);
    if r.Parsed? {
      var q := SkipSpace(s, o + 1);
      BinSound(s, q, EXPR);
      ClosedJoin(s, o, q, r.end, SkipSpace(s, r.end + 1), Yield(r.tree));
    }
  }

  lemma ClosedJoin(s: string, o: nat, q: nat, m: nat, end: nat, y: string)
    requires o < |s| && q == SkipSpace(s, o + 1) && q <= m < end <= |s| && end == SkipSpace(s, m + 1)
    requires s[o] == '(' && s[m] == ')' && s[q..m] == y
    ensures AllBlank(s[o + 1..q]) && AllBlank(s[m + 1..end])
    ensures s[o..end] == Parens(s[o + 1..q], y, s[m + 1..end])
  {
    hide SkipSpace, AllBlank;
    JoinToken(s, o, q, end);
    Join(s, q, m, end);
    JoinToken(s, m, end, end);
    assert s[end..end] == [];
  }

  // ---- completeness ----

  /** What may stand after a tree of the given level: the end, a ')', or an operator of a lower level. */
  ghost predicate Follows(s: string, pos: nat, level: nat) {
    && pos <= |s|
    && (pos < |s| ==>
          || s[pos] == ')'
          || (level > EXPR && s[pos] in {'+', '-'})
          || (level > TERM && s[pos] in {'*', '/'})
          || (level > POWER && s[pos] == '^'))
  }

  lemma Split(s: string, i: nat, k: nat, a: string, b: string)
    requires i <= k <= |s| && s[i..k] == a + b
    ensures i + |a| <= k && s[i..i + |a|] == a && s[i + |a|..k] == b
  {
    assert |s[i..k]| == |a| + |b|;
    assert s[i..k][..|a|] == a;
    assert s[i..k][|a|..] == b;
  }

  /** Blanks that something else follows are exactly the blanks skipped. */
  lemma {:induction false} SkipExact(s: string, i: nat, j: nat)
    requires i <= j && Settled(s, j) && AllBlank(s[i..j])
    ensures SkipSpace(s, i) == j
    decreases j - i
  {
    if i < j {
      assert s[i..j][0] == s[i];
      assert s[i + 1..j] == s[i..j][1..];
      SkipExact(s, i + 1, j);
    }
  }

  lemma {:induction false} NumberExact(s: string, i: nat, j: nat)
    requires i <= j <= |s| && (j == |s| || !IsNumeric(s[j]))
    requires forall k | i <= k < j :: IsNumeric(s[k])
    ensures NumberEnd(s, i) == j
    decreases j - i
  {
    if i < j { NumberExact(s, i + 1, j); }
  }

  lemma {:induction false} IdentExact(s: string, i: nat, j: nat)
    requires i <= j <= |s| && (j == |s| || !IsIdentPart(s[j]))
    requires forall k | i <= k < j :: IsIdentPart(s[k])
    ensures IdentEnd(s, i) == j
    decreases j - i
  {
    if i < j { IdentExact(s, i + 1, j); }
  }

  /** A yield is not empty and starts with a character that no blank is and no operator follows. */
  lemma {:induction false} YieldStart(t: Tree)
    requires WellFormed(t)
    ensures Yield(t) != [] && !IsBlank(Yield(t)[0])
    ensures Level(t) > UNARY ==> Yield(t)[0] !in {'+', '-'}
  {
    match t
    case TBin(l, _, _, _) => YieldStart(l);
    case TPow(b, _, _) => YieldStart(b);
    case _ =>
  }

  lemma StartsSettled(s: string, i: nat, k: nat, t: Tree)
    requires i <= k <= |s| && s[i..k] == Yield(t) && WellFormed(t)
    ensures i < k && Settled(s, i) && s[i] == Yield(t)[0]
  {
    YieldStart(t);
    assert s[i..k][0] == s[i];
  }

  /** Where a token stands and where what comes after its blanks begins. */
  lemma TokenExact(s: string, i: nat, k: nat, c: char, sp: string, t: Tree, rest: string)
    requires i <= k <= |s| && s[i..k] == [c] + (sp + (Yield(t) + rest))
    requires AllBlank(sp) && WellFormed(t)
    ensures CharAt(s, i, c)
    ensures i + 1 + |sp| <= k && SkipSpace(s, i + 1) == i + 1 + |sp| && s[i + 1..i + 1 + |sp|] == sp
    ensures s[i + 1 + |sp|..k] == Yield(t) + rest
  {
    Split(s, i, k, [c], sp + (Yield(t) + rest));
    assert s[i] == s[i..i + 1][0];
    Split(s, i + 1, k, sp, Yield(t) + rest);
    var q := i + 1 + |sp|;
    Split(s, q, k, Yield(t), rest);
    StartsSettled(s, q, q + |Yield(t)|, t);
    SkipExact(s, i + 1, q);
  }

  /** TokenExact with nothing behind the tree. */
  lemma TokenLast(s: string, i: nat, k: nat, c: char, sp: string, t: Tree)
    requires i <= k <= |s| && s[i..k] == [c] + (sp + Yield(t))
    requires AllBlank(sp) && WellFormed(t)
    ensures CharAt(s, i, c)
    ensures i + 1 + |sp| <= k && SkipSpace(s, i + 1) == i + 1 + |sp| && s[i + 1..i + 1 + |sp|] == sp
    ensures s[i + 1 + |sp|..k] == Yield(t)
  {
    assert Yield(t) + [] == Yield(t);
    TokenExact(s, i, k, c, sp, t, []);
  }

  /** Every derivation is found again: reading its yield gives back the very tree. */
  lemma {:induction false} BinComplete(s: string, pos: nat, end: nat, t: Tree, level: nat)
    requires pos <= end <= |s| && s[pos..end] == Yield(t)
    requires WellFormed(t) && level <= Level(t) && level <= TERM
    requires Follows(s, end, level)
    ensures ParseBin(s, pos, level) == Parsed(t, end)
    decreases t, UNARY + 2 - level, 1
  {
    hide AllBlank, IsNumeral, IsIdent;
    LoopComplete(s, pos, end, t, level);
    assert OpAt(s, end, level) == None;
  }

  /** The left-associative loop: reading the yield of t leaves exactly the tail loop with t in hand. */
  lemma {:induction false} LoopComplete(s: string, pos: nat, end: nat, t: Tree, level: nat)
    requires pos <= end <= |s| && s[pos..end] == Yield(t)
    requires WellFormed(t) && level <= Level(t) && level <= TERM
    requires Follows(s, end, level + 1)
    ensures ParseBin(s, pos, level) == ParseTail(s, end, level, t)
    decreases t, UNARY + 2 - level, 0
  {
    hide AllBlank, IsNumeral, IsIdent, ParseUnary, SkipSpace, Yield, Operand, ParseTail, OpAt, Follows;
    if Level(t) > level {
      OperandComplete(s, pos, end, t, level);
    } else {
      BinStep(s, pos, end, t, level);
      var m := pos + |Yield(t.left)|;
      LoopComplete(s, pos, m, t.left, level);
      OperandComplete(s, m + 1 + |t.sp|, end, t.right, level);
      TailStep(s, m, end, t, level);
    }
  }

  /** One turn of the tail loop. */
  lemma TailStep(s: string, m: nat, end: nat, t: Tree, level: nat)
    requires t.TBin? && m <= |s| && level <= TERM && OpAt(s, m, level) == Some(t.op)
    requires SkipSpace(s, m + 1) == m + 1 + |t.sp| && s[m + 1..m + 1 + |t.sp|] == t.sp
    requires Operand(s, m + 1 + |t.sp|, level) == Parsed(t.right, end)
    ensures ParseTail(s, m, level, t.left) == ParseTail(s, end, level, t)
  {
  }

  lemma BinStep(s: string, pos: nat, end: nat, t: Tree, level: nat)
    requires pos <= end <= |s| && s[pos..end] == Yield(t)
    requires WellFormed(t) && t.TBin? && level == Level(t)
    ensures var m := pos + |Yield(t.left)|;
            var q := m + 1 + |t.sp|;
            && q <= end && s[pos..m] == Yield(t.left) && s[q..end] == Yield(t.right)
            && SkipSpace(s, m + 1) == q && s[m + 1..q] == t.sp
            && OpAt(s, m, level) == Some(t.op) && Follows(s, m, level + 1)
  {
    Split(s, pos, end, Yield(t.left), [OpChar(t.op)] + (t.sp + Yield(t.right)));
    TokenLast(s, pos + |Yield(t.left)|, end, OpChar(t.op), t.sp, t.right);
  }

  lemma {:induction false} OperandComplete(s: string, pos: nat, end: nat, t: Tree, level: nat)
    requires pos <= end <= |s| && s[pos..end] == Yield(t)
    requires WellFormed(t) && level < Level(t) && level <= TERM
    requires Follows(s, end, level + 1)
    ensures Operand(s, pos, level) == Parsed(t, end)
    decreases t, UNARY + 1 - level, 2
  {
    if level == EXPR { BinComplete(s, pos, end, t, TERM); } else { UnaryComplete(s, pos, end, t); }
  }

  lemma {:induction false} UnaryComplete(s: string, pos: nat, end: nat, t: Tree)
    requires pos <= end <= |s| && s[pos..end] == Yield(t)
    requires WellFormed(t) && UNARY <= Level(t)
    requires Follows(s, end, UNARY)
    ensures ParseUnary(s, pos) == Parsed(t, end)
    decreases t, 1, 1
  {
    if t.TSign? {
      TokenLast(s, pos, end, if t.minus then '-' else '+', t.sp, t.arg);
      UnaryComplete(s, pos + 1 + |t.sp|, end, t.arg);
    } else {
      StartsSettled(s, pos, end, t);
      YieldStart(t);
      PowerComplete(s, pos, end, t);
    }
  }

  lemma {:induction false} PowerComplete(s: string, pos: nat, end: nat, t: Tree)
    requires pos <= end <= |s| && s[pos..end] == Yield(t)
    requires WellFormed(t) && POWER <= Level(t)
    requires Follows(s, end, UNARY)
    ensures ParsePower(s, pos) == Parsed(t, end)
    decreases t, 1, 0
  {
    if t.TPow? {
      Split(s, pos, end, Yield(t.base), ['^'] + (t.sp + Yield(t.exponent)));
      var m := pos + |Yield(t.base)|;
      PowerRestComplete(s, m, end, t);
      AtomComplete(s, pos, m, t.base);
    } else {
      AtomComplete(s, pos, end, t);
    }
  }

  lemma {:induction false} PowerRestComplete(s: string, m: nat, end: nat, t: Tree)
    requires t.TPow? && WellFormed(t)
    requires m <= end <= |s| && s[m..end] == ['^'] + (t.sp + Yield(t.exponent))
    requires Follows(s, end, UNARY)
    ensures CharAt(s, m, '^') && PowerRest(s, t.base, m) == Parsed(t, end)
    decreases t, 0, 0
  {
    TokenLast(s, m, end, '^', t.sp, t.exponent);
    UnaryComplete(s, m + 1 + |t.sp|, end, t.exponent);
  }

  lemma {:induction false} AtomComplete(s: string, pos: nat, end: nat, t: Tree)
    requires pos <= end <= |s| && s[pos..end] == Yield(t)
    requires WellFormed(t) && Level(t) == ATOM
    requires Follows(s, end, ATOM)
    ensures ParseAtom(s, pos) == Parsed(t, end)
    decreases t, 0, 1
  {
    hide AllBlank, IsNumeral, IsIdent, ParseClosed, ParseCall, ParseNumber, SkipSpace;
    StartsSettled(s, pos, end, t);
    match t
    case TNum(text, sp) => NumberComplete(s, pos, end, text, sp);
    case TParen(sp1, a, sp2) => ClosedComplete(s, pos, end, sp1, a, sp2);
    case TCall(_, _, _, _, _) => CallComplete(s, pos, end, t);
  }

  lemma NumberComplete(s: string, pos: nat, end: nat, text: string, sp: string)
    requires pos < end <= |s| && s[pos..end] == text + sp && IsNumeral(text) && AllBlank(sp)
    requires Follows(s, end, ATOM) && s[pos] == (text + sp)[0]
    ensures IsNumeric(s[pos]) && ParseNumber(s, pos) == Parsed(TNum(text, sp), end)
  {
    Split(s, pos, end, text, sp);
    var m := pos + |text|;
    assert forall k | pos <= k < m :: s[k] == s[pos..m][k - pos];
    assert m < end ==> s[m..end][0] == s[m];
    NumberExact(s, pos, m);
    SkipExact(s, m, end);
  }

  lemma {:induction false} CallComplete(s: string, pos: nat, end: nat, t: Tree)
    requires pos < end <= |s| && t.TCall? && WellFormed(t) && s[pos..end] == Yield(t)
    requires Follows(s, end, ATOM) && Settled(s, end)
    ensures IsIdentStart(s[pos]) && ParseCall(s, pos) == Parsed(t, end)
    decreases t, 0, 0
  {
    hide AllBlank, IsIdent, ParseClosed, SkipSpace, IdentEnd, ParseCall, Yield, Settled, WellFormed, Follows, Words,
        Parens;
    CallFields(t);
    var tail := Parens(t.spOpen, Yield(t.arg), t.spClose);
    ParensOpen(t.spOpen, Yield(t.arg), t.spClose);
    CallParts(s, pos, end, t.name, t.sp, tail);
    var o := pos + |t.name| + |t.sp|;
    ClosedComplete(s, o, end, t.spOpen, t.arg, t.spClose);
    CallStep(s, pos, o, end, t);
  }

  lemma ParensOpen(sp1: string, inner: string, sp2: string)
    ensures Parens(sp1, inner, sp2) != [] && Parens(sp1, inner, sp2)[0] == '('
  {
  }

  lemma CallStep(s: string, pos: nat, o: nat, end: nat, t: Tree)
    requires pos < o < end <= |s| && t.TCall? && CharAt(s, o, '(') && IsIdentStart(s[pos])
    requires var m := pos + |t.name|;
             o == m + |t.sp| && IdentEnd(s, pos) == m && s[pos..m] == t.name && SkipSpace(s, m) == o && s[m..o] == t.sp
    requires var c := end - |t.spClose| - 1;
             && o < c && o + 1 + |t.spOpen| <= |s| && ParseClosed(s, o) == Parsed(t.arg, c)
             && SkipSpace(s, o + 1) == o + 1 + |t.spOpen| && s[o + 1..o + 1 + |t.spOpen|] == t.spOpen
             && SkipSpace(s, c + 1) == end && s[c + 1..end] == t.spClose
    ensures ParseCall(s, pos) == Parsed(t, end)
  {
    hide ParseClosed, SkipSpace, IdentEnd;
  }

  lemma CallParts(s: string, pos: nat, end: nat, name: string, sp: string, tail: string)
    requires pos < end <= |s| && s[pos..end] == Words(name, sp, tail) && tail != [] && tail[0] == '('
    requires IsIdent(name) && AllBlank(sp)
    ensures var m := pos + |name|;
            var o := m + |sp|;
            && o < end && s[o..end] == tail && s[o] == '(' && IsIdentStart(s[pos])
            && IdentEnd(s, pos) == m && s[pos..m] == name
            && SkipSpace(s, m) == o && s[m..o] == sp
  {
    Split(s, pos, end, name, sp + tail);
    var m := pos + |name|;
    Split(s, m, end, sp, tail);
    var o := m + |sp|;
    assert s[o] == s[o..end][0];
    assert forall k | pos <= k < m :: s[k] == s[pos..m][k - pos];
    assert m < o ==> s[m..o][0] == s[m];
    IdentExact(s, pos, m);
    SkipExact(s, m, o);
  }

  lemma {:induction false} ClosedComplete(s: string, o: nat, end: nat, sp1: string, a: Tree, sp2: string)
    requires o <= end <= |s| && s[o..end] == Parens(sp1, Yield(a), sp2)
    requires WellFormed(a) && AllBlank(sp1) && AllBlank(sp2) && Settled(s, end)
    ensures CharAt(s, o, '(')
    ensures var q := SkipSpace(s, o + 1);
            var m := end - |sp2| - 1;
            && q <= m && s[o + 1..q] == sp1
            && ParseClosed(s, o) == Parsed(a, m)
            && SkipSpace(s, m + 1) == end && s[m + 1..end] == sp2
    decreases a, UNARY + 3
  {
    hide Parens, Yield, WellFormed, AllBlank, SkipSpace;
    var q := o + 1 + |sp1|;
    var m := q + |Yield(a)|;
    ClosedParts(s, o, end, sp1, a, sp2);
    BinComplete(s, q, m, a, EXPR);
  }

  lemma ClosedParts(s: string, o: nat, end: nat, sp1: string, a: Tree, sp2: string)
    requires o <= end <= |s| && s[o..end] == Parens(sp1, Yield(a), sp2)
    requires WellFormed(a) && AllBlank(sp1) && AllBlank(sp2) && Settled(s, end)
    ensures CharAt(s, o, '(')
    ensures var q := o + 1 + |sp1|;
            var m := q + |Yield(a)|;
            && m + 1 + |sp2| == end
            && SkipSpace(s, o + 1) == q && s[o + 1..q] == sp1
            && s[q..m] == Yield(a) && CharAt(s, m, ')')
            && SkipSpace(s, m + 1) == end && s[m + 1..end] == sp2
  {
    TokenExact(s, o, end, '(', sp1, a, [')'] + sp2);
    var q := o + 1 + |sp1|;
    Split(s, q, end, Yield(a), [')'] + sp2);
    var m := q + |Yield(a)|;
    Split(s, m, end, [')'], sp2);
    assert s[m] == s[m..m + 1][0];
    SkipExact(s, m + 1, end);
  }

  // ---- whole strings ----

  /** The tree of a whole string, if it has one. */
  function ParseAll(s: string): Option<Tree> {
    match ParseBin(s, SkipSpace(s, 0), EXPR)
    case NoParse => None
    case Parsed(t, end) => if end == |s| then Some(t) else None
  }

  /** ParseAll finds a derivation of the string exactly when there is one. */
  lemma {:induction false} ParseAllCorrect(s: string, lead: string, t: Tree)
    ensures Derives(s, lead, t) <==> ParseAll(s) == Some(t) && lead == s[..SkipSpace(s, 0)]
  {
    if Derives(s, lead, t) {
      assert s[0..|s|] == s;
      Split(s, 0, |s|, lead, Yield(t));
      StartsSettled(s, |lead|, |s|, t);
      SkipExact(s, 0, |lead|);
      BinComplete(s, |lead|, |s|, t, EXPR);
    }
    var q := SkipSpace(s, 0);
    if ParseAll(s) == Some(t) && lead == s[..q] {
      SkipBlank(s, 0);
      BinSound(s, q, EXPR);
      assert s == s[..q] + s[q..|s|];
    }
  }

  /** The grammar is unambiguous: a string has one derivation, hence one expression. */
  lemma {:induction false} Unambiguous(s: string, lead1: string, t1: Tree, lead2: string, t2: Tree)
    requires Derives(s, lead1, t1) && Derives(s, lead2, t2)
    ensures lead1 == lead2 && t1 == t2
  {
    ParseAllCorrect(s, lead1, t1);
    ParseAllCorrect(s, lead2, t2);
  }
}

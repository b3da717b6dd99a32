/**
 The calculator itself: one pass over the input that parses and evaluates at once, with a cursor it
 moves in place. Each method is tied to the grammar's reading at the cursor and to the meaning of
 the expression read there.
 */
module CalcEval {
  import opened Wrappers
  import opened CalcSyntax
  import opened CalcGrammar
  import CalcMeaning

  /** What a derivation means: the meaning of its expression. */
  function Meaning<F>(t: Tree, fl: Floats<F>): Result<F, Error> { Denote(Strip(t), fl) }

  /** Two operands and an operator, the left operand's error first. */
  function Combine<F>(op: Op, x: Result<F, Error>, y: Result<F, Error>, fl: Floats<F>): Result<F, Error> {
    match (x, y)
    case (Err(e), _) => Err(e)
    case (_, Err(e)) => Err(e)
    case (Ok(v), Ok(w)) => Arith(op, v, w, fl)
  }

  class Parser<F> {
    const input: string
    const fl: Floats<F>
    var pos: nat

    constructor (input: string, fl: Floats<F>)
      ensures this.input == input && this.fl == fl && pos == 0
    {
      this.input := input;
      this.fl := fl;
      this.pos := 0;
    }

    ghost predicate Valid()
      reads this
    {
      pos <= |input|
    }

    /** r is the value of what the grammar reads, and an error whenever it reads nothing. */
    ghost predicate Agrees(spec: Parsed, r: Result<F, Error>)
      reads this
    {
      match spec
      case NoParse => r.Err?
      case Parsed(t, end) => r == Meaning(t, fl) && (r.Ok? ==> pos == end)
    }

    method SkipSpaces()
      requires Valid()
      modifies this`pos
      ensures Valid() && pos == SkipSpace(input, old(pos)) && SkipSpace(input, pos) == pos
    {
      while pos < |input| && (input[pos] == ' ' || input[pos] == '\t')
        invariant old(pos) <= pos <= |input| && SkipSpace(input, pos) == SkipSpace(input, old(pos))
      {
        pos := pos + 1;
      }
    }

    /** The character at the cursor, or NUL at the end. */
    method Peek() returns (c: char)
      requires Valid()
      ensures c == if pos < |input| then input[pos] else '\0'
    {
      c := if pos >= |input| then '\0' else input[pos];
    }

    method ParseExpr() returns (r: Result<F, Error>)
      requires Valid()
      modifies this`pos
      ensures Valid() && Agrees(ParseBin(input, SkipSpace(input, old(pos)), EXPR), r)
      decreases |input| - pos, 8
    {
      ghost var start := SkipSpace(input, pos);
      FirstTurn(input, start, EXPR, fl);
      hide ParseBin, ParseTail, Operand, Meaning, CalcGrammar.ParseUnary, Sound;
      r := ParseTerm();
      if r.Err? { return; }
      var v := r.value;
      ghost var left := Operand(input, start, EXPR).tree;
      while true
        invariant Valid() && pos > old(pos) && SkipSpace(input, pos) == pos
        invariant Meaning(left, fl) == Ok(v)
        invariant ParseBin(input, start, EXPR) == ParseTail(input, pos, EXPR, left)
        decreases |input| - pos
      {
        SkipSpaces();
        var c := Peek();
        if c == '+' {
          r, left := ParseOperand(EXPR, Add, v, left);
        } else if c == '-' {
          r, left := ParseOperand(EXPR, Sub, v, left);
        } else {
          LastTurn(input, pos, EXPR, left);
          return Ok(v);
        }
        if r.Err? { return; }
        v := r.value;
      }
    }

    /** One turn of a loop: the operator at the cursor, its right operand, and the value of the two. */
    method ParseOperand(level: nat, op: Op, v: F, ghost left: Tree) returns (r: Result<F, Error>, ghost next: Tree)
      requires Valid() && level <= TERM && OpAt(input, pos, level) == Some(op) && Meaning(left, fl) == Ok(v)
      modifies this`pos
      ensures Valid() && (r.Ok? ==> pos > old(pos))
      ensures r.Err? ==> Agrees(ParseTail(input, old(pos), level, left), r)
      ensures r.Ok? ==>
                && SkipSpace(input, pos) == pos
                && Meaning(next, fl) == r
                && ParseTail(input, old(pos), level, left) == ParseTail(input, pos, level, next)
      decreases |input| - pos, 7
    {
      hide ParseBin, ParseTail, Operand, Meaning, CalcGrammar.ParseUnary, SkipSpace, Settled, Combine;
      next := TailTurn(input, pos, level, left, fl);
      pos := pos + 1;
      var rhs;
      if level == EXPR { rhs := ParseTerm(); } else { rhs := ParseUnary(); }
      CombineIs(op, v, rhs, fl);
      if rhs.Err? { return Err(rhs.error), next; }
      SettledSkip(input, pos);
      match op
      case Add => r := Ok(fl.add(v, rhs.value));
      case Sub => r := Ok(fl.sub(v, rhs.value));
      case Mul => r := Ok(fl.mul(v, rhs.value));
      case Div =>
        if fl.isZero(rhs.value) { return Err(DivisionByZero), next; }
        r := Ok(fl.div(v, rhs.value));
    }

    method ParseTerm() returns (r: Result<F, Error>)
      requires Valid()
      modifies this`pos
      ensures Valid() && Agrees(ParseBin(input, SkipSpace(input, old(pos)), TERM), r)
      ensures Operand(input, SkipSpace(input, old(pos)), EXPR) == ParseBin(input, SkipSpace(input, old(pos)), TERM)
      decreases |input| - pos, 6
    {
      ghost var start := SkipSpace(input, pos);
      assert Operand(input, start, EXPR) == ParseBin(input, start, TERM);
      FirstTurn(input, start, TERM, fl);
      hide ParseBin, ParseTail, Operand, Meaning, CalcGrammar.ParseUnary, Sound;
      r := ParseUnary();
      if r.Err? { return; }
      var v := r.value;
      ghost var left := Operand(input, start, TERM).tree;
      while true
        invariant Valid() && pos > old(pos) && SkipSpace(input, pos) == pos
        invariant Meaning(left, fl) == Ok(v)
        invariant ParseBin(input, start, TERM) == ParseTail(input, pos, TERM, left)
        decreases |input| - pos
      {
        SkipSpaces();
        var c := Peek();
        if c == '*' {
          r, left := ParseOperand(TERM, Mul, v, left);
        } else if c == '/' {
          r, left := ParseOperand(TERM, Div, v, left);
        } else {
          LastTurn(input, pos, TERM, left);
          return Ok(v);
        }
        if r.Err? { return; }
        v := r.value;
      }
    }

    method ParseUnary() returns (r: Result<F, Error>)
      requires Valid()
      modifies this`pos
      ensures Valid() && Agrees(CalcGrammar.ParseUnary(input, SkipSpace(input, old(pos))), r)
      ensures CalcGrammar.ParseUnary(input, SkipSpace(input, old(pos))) ==
              Operand(input, SkipSpace(input, old(pos)), TERM)
      decreases |input| - pos, 4
    {
      hide CalcGrammar.ParseUnary, CalcGrammar.ParsePower, Operand, Meaning, SkipSpace;
      SkipSpaces();
      OperandIsUnary(input, pos);
      var c := Peek();
      if c == '+' {
        Signed(input, pos, fl);
        pos := pos + 1;
        r := ParseUnary();
      } else if c == '-' {
        Signed(input, pos, fl);
        pos := pos + 1;
        var v := ParseUnary();
        r := match v case Ok(x) => Ok(fl.neg(x)) case Err(e) => Err(e);
      } else {
        NotSigned(input, pos);
        r := ParsePower();
      }
    }

    method ParsePower() returns (r: Result<F, Error>)
      requires Valid() && SkipSpace(input, pos) == pos
      modifies this`pos
      ensures Valid() && Agrees(CalcGrammar.ParsePower(input, old(pos)), r)
      decreases |input| - pos, 3
    {
      hide CalcGrammar.ParseAtom, CalcGrammar.ParseUnary, CalcGrammar.ParsePower, Meaning, SkipSpace;
      ghost var start := pos;
      var base := ParseAtom();
      if base.Err? {
        BaseFails(input, start, fl);
        return base;
      }
      SkipSpaces();
      var c := Peek();
      if c == '^' {
        Raised(input, start, fl);
        pos := pos + 1;
        var exp := ParseUnary();
        if exp.Err? { return exp; }
        return Ok(fl.pow(base.value, exp.value));
      }
      NotRaised(input, start);
      return base;
    }

    method ParseAtom() returns (r: Result<F, Error>)
      requires Valid() && SkipSpace(input, pos) == pos
      modifies this`pos
      ensures Valid() && AgreesUnskipped(CalcGrammar.ParseAtom(input, old(pos)), r)
      ensures r.Ok? ==> pos > old(pos)
      decreases |input| - pos, 2
    {
      SkipSpaces();
      if pos >= |input| { return Err(Syntax); }
      var c := Peek();
      if c == '(' {
        r := ParseParens();
      } else if '0' <= c <= '9' || c == '.' {
        r := ParseNumber();
      } else if IsIdentStart(c) {
        r := ParseFunctionCall();
      } else {
        r := Err(Syntax);
      }
    }

    /** Agrees, with the blanks behind what was read still to be skipped. */
    ghost predicate AgreesUnskipped(spec: Parsed, r: Result<F, Error>)
      requires Valid()
      reads this
    {
      match spec
      case NoParse => r.Err?
      case Parsed(t, end) => r == Meaning(t, fl) && (r.Ok? ==> SkipSpace(input, pos) == end)
    }

    /** From a '(' to behind the matching ')'. */
    method ParseParens() returns (r: Result<F, Error>)
      requires Valid() && CharAt(input, pos, '(')
      modifies this`pos
      ensures Valid()
      ensures var c := ParseClosed(input, old(pos));
              if c.Parsed? then r == Meaning(c.tree, fl) && (r.Ok? ==> pos == c.end + 1) else r.Err?
      decreases |input| - pos, 1
    {
      pos := pos + 1;
      ghost var q := SkipSpace(input, pos);
      r := ParseExpr();
      if r.Err? { return; }
      BinSound(input, q, EXPR);
      SkipSpaces();
      var c := Peek();
      if c != ')' { return Err(Syntax); }
      pos := pos + 1;
    }

    method ParseNumber() returns (r: Result<F, Error>)
      requires Valid() && pos < |input| && IsNumeric(input[pos])
      modifies this`pos
      ensures Valid() && pos > old(pos) && AgreesUnskipped(CalcGrammar.ParseNumber(input, old(pos)), r)
    {
      var start := pos;
      while pos < |input| && ('0' <= input[pos] <= '9' || input[pos] == '.')
        invariant start <= pos <= |input| && NumberEnd(input, pos) == NumberEnd(input, start)
        invariant pos == start ==> pos < |input| && IsNumeric(input[pos])
      {
        pos := pos + 1;
      }
      var text := input[start..pos];
      if !IsNumeral(text) { return Err(BadNumber); }
      match fl.parse(text)
      case Some(v) => return Ok(v);
      case None => return Err(BadNumber);
    }

    method ParseFunctionCall() returns (r: Result<F, Error>)
      requires Valid() && pos < |input| && IsIdentStart(input[pos])
      modifies this`pos
      ensures Valid() && AgreesUnskipped(ParseCall(input, old(pos)), r)
      ensures r.Ok? ==> pos > old(pos)
      decreases |input| - pos, 1
    {
      hide ParseCall, ParseClosed, Meaning, SkipSpace;
      var start := pos;
      assert IsIdentPart(input[start]);
      while pos < |input| && IsIdentPart(input[pos])
        invariant start <= pos <= |input| && IdentEnd(input, pos) == IdentEnd(input, start)
      {
        pos := pos + 1;
      }
      var name := ToLower(input[start..pos]);
      assert pos == IdentEnd(input, start);
      hide IdentEnd;
      SkipSpaces();
      var c := Peek();
      if c != '(' {
        NoCall(input, start);
        return Err(Syntax);
      }
      CallTurn(input, start, fl);
      var arg := ParseParens();
      if arg.Err? { return arg; }
      match name
      case "sqrt" =>
        if fl.isNegative(arg.value) { return Err(SqrtOfNegative); }
        return Ok(fl.sqrt(arg.value));
      case "sin" => return Ok(fl.sin(arg.value));
      case "cos" => return Ok(fl.cos(arg.value));
      case "tan" => return Ok(fl.tan(arg.value));
      case _ => return Err(UnknownFunction);
    }
  }

  lemma CombineIs<F>(op: Op, v: F, y: Result<F, Error>, fl: Floats<F>)
    ensures Combine(op, Ok(v), y, fl) == if y.Err? then y else Arith(op, v, y.value, fl)
  {
  }

  lemma SettledSkip(s: string, pos: nat)
    requires Settled(s, pos)
    ensures SkipSpace(s, pos) == pos
  {
  }

  /** Once a part of the tree in hand means an error, so does the whole tree, with the same error. */
  lemma {:induction false} TailKeepsError<F>(s: string, pos: nat, level: nat, left: Tree, fl: Floats<F>)
    requires pos <= |s| && level <= TERM && Meaning(left, fl).Err?
    ensures var r := ParseTail(s, pos, level, left);
            r.Parsed? ==> Meaning(r.tree, fl) == Meaning(left, fl)
    decreases |s| - pos
  {
    match OpAt(s, pos, level)
    case None =>
    case Some(op) =>
      var q := SkipSpace(s, pos + 1);
      var x := Operand(s, q, level);
      if x.Parsed? {
        TailKeepsError(s, x.end, level, TBin(left, op, s[pos + 1..q], x.tree), fl);
      }
  }

  /** One turn of the tail loop: the tree it goes on with, and what an error on the way comes to. */
  lemma TailTurn<F>(s: string, m: nat, level: nat, left: Tree, fl: Floats<F>) returns (next: Tree)
    requires m < |s| && level <= TERM && OpAt(s, m, level).Some?
    ensures var x := Operand(s, SkipSpace(s, m + 1), level);
            var op := OpAt(s, m, level).value;
            var r := ParseTail(s, m, level, left);
            && (x.NoParse? ==> r.NoParse?)
            && (x.Parsed? ==>
                  && Settled(s, x.end)
                  && Meaning(next, fl) == Combine(op, Meaning(left, fl), Meaning(x.tree, fl), fl)
                  && r == ParseTail(s, x.end, level, next)
                  && (r.Parsed? && Meaning(next, fl).Err? ==> Meaning(r.tree, fl) == Meaning(next, fl)))
  {
    var q := SkipSpace(s, m + 1);
    var x := Operand(s, q, level);
    next := left;
    if x.Parsed? {
      OperandSound(s, q, level);
      next := TBin(left, OpAt(s, m, level).value, s[m + 1..q], x.tree);
      if Meaning(next, fl).Err? {
        TailKeepsError(s, x.end, level, next, fl);
      }
    }
  }

  /** How a loop starts: its first operand, and what an error there comes to. */
  lemma FirstTurn<F>(s: string, start: nat, level: nat, fl: Floats<F>)
    requires start <= |s| && level <= TERM
    ensures var x := Operand(s, start, level);
            var r := ParseBin(s, start, level);
            && (x.NoParse? ==> r.NoParse?)
            && (x.Parsed? ==>
                  && Settled(s, x.end)
                  && r == ParseTail(s, x.end, level, x.tree)
                  && (r.Parsed? && Meaning(x.tree, fl).Err? ==>
                        Meaning(r.tree, fl) == Meaning(x.tree, fl)))
  {
    OperandSound(s, start, level);
    var x := Operand(s, start, level);
    if x.Parsed? && Meaning(x.tree, fl).Err? {
      TailKeepsError(s, x.end, level, x.tree, fl);
    }
  }

  /** How a loop ends. */
  lemma LastTurn(s: string, pos: nat, level: nat, left: Tree)
    requires pos <= |s| && level <= TERM && OpAt(s, pos, level) == None
    ensures ParseTail(s, pos, level, left) == Parsed(left, pos)
  {
  }

  lemma OperandIsUnary(s: string, pos: nat)
    requires pos <= |s|
    ensures Operand(s, pos, TERM) == CalcGrammar.ParseUnary(s, pos)
  {
    hide CalcGrammar.ParseUnary;
  }

  lemma NotSigned(s: string, pos: nat)
    requires pos <= |s| && !SignAt(s, pos)
    ensures CalcGrammar.ParseUnary(s, pos) == CalcGrammar.ParsePower(s, pos)
  {
    hide CalcGrammar.ParsePower;
  }

  /** What a signed power comes to, given what stands behind the sign. */
  lemma Signed<F>(s: string, pos: nat, fl: Floats<F>)
    requires pos <= |s| && SignAt(s, pos)
    ensures var r := CalcGrammar.ParseUnary(s, pos);
            var x := CalcGrammar.ParseUnary(s, SkipSpace(s, pos + 1));
            && (x.NoParse? ==> r.NoParse?)
            && (x.Parsed? ==>
                  && r.Parsed? && r.end == x.end
                  && Meaning(r.tree, fl) ==
                     match Meaning(x.tree, fl)
                     case Err(e) => Err(e)
                     case Ok(v) => Ok(if s[pos] == '-' then fl.neg(v) else v))
  {
    hide CalcGrammar.ParsePower;
  }

  /** A power whose base is missing or means an error. */
  lemma BaseFails<F>(s: string, pos: nat, fl: Floats<F>)
    requires pos <= |s| && var b := CalcGrammar.ParseAtom(s, pos); b.Parsed? ==> Meaning(b.tree, fl).Err?
    ensures var b, r := CalcGrammar.ParseAtom(s, pos), CalcGrammar.ParsePower(s, pos);
            r.Parsed? ==> b.Parsed? && Meaning(r.tree, fl) == Meaning(b.tree, fl)
  {
    hide CalcGrammar.ParseAtom, CalcGrammar.ParseUnary;
  }

  lemma NotRaised(s: string, pos: nat)
    requires pos <= |s| && var b := CalcGrammar.ParseAtom(s, pos); b.Parsed? && !CharAt(s, b.end, '^')
    ensures CalcGrammar.ParsePower(s, pos) == CalcGrammar.ParseAtom(s, pos)
  {
    hide CalcGrammar.ParseAtom, CalcGrammar.ParseUnary;
  }

  /** What a power comes to, given its base's value and what stands behind the '^'. */
  lemma Raised<F>(s: string, pos: nat, fl: Floats<F>)
    requires pos <= |s|
    requires var b := CalcGrammar.ParseAtom(s, pos); b.Parsed? && CharAt(s, b.end, '^') && Meaning(b.tree, fl).Ok?
    ensures var b, r := CalcGrammar.ParseAtom(s, pos), CalcGrammar.ParsePower(s, pos);
            var x := CalcGrammar.ParseUnary(s, SkipSpace(s, b.end + 1));
            if x.NoParse? then r.NoParse?
            else
              && r.Parsed? && r.end == x.end
              && (Meaning(x.tree, fl).Err? ==> Meaning(r.tree, fl) == Meaning(x.tree, fl))
              && (Meaning(x.tree, fl).Ok? ==>
                    Meaning(r.tree, fl) == Ok(fl.pow(Meaning(b.tree, fl).value, Meaning(x.tree, fl).value)))
  {
    hide CalcGrammar.ParseAtom, CalcGrammar.ParseUnary;
  }

  lemma NoCall(s: string, pos: nat)
    requires pos < |s| && IsIdentStart(s[pos]) && !CharAt(s, SkipSpace(s, IdentEnd(s, pos)), '(')
    ensures ParseCall(s, pos).NoParse?
  {
    hide ParseClosed;
  }

  /** What a call comes to, given what stands in its parentheses. */
  lemma CallTurn<F>(s: string, pos: nat, fl: Floats<F>)
    requires pos < |s| && IsIdentStart(s[pos]) && CharAt(s, SkipSpace(s, IdentEnd(s, pos)), '(')
    ensures var m := IdentEnd(s, pos);
            var r := ParseCall(s, pos);
            var c := ParseClosed(s, SkipSpace(s, m));
            && (c.NoParse? ==> r.NoParse?)
            && (c.Parsed? ==>
                  && r.Parsed? && r.end == SkipSpace(s, c.end + 1)
                  && (Meaning(c.tree, fl).Err? ==> Meaning(r.tree, fl) == Meaning(c.tree, fl))
                  && (Meaning(c.tree, fl).Ok? ==>
                        Meaning(r.tree, fl) == Apply(ToLower(s[pos..m]), Meaning(c.tree, fl).value, fl)))
  {
    hide ParseClosed, SkipSpace, IdentEnd, Meaning;
    var o := SkipSpace(s, IdentEnd(s, pos));
    if ParseClosed(s, o).Parsed? {
      CallMeans(ParseCall(s, pos).tree, fl);
    }
  }

  lemma CallMeans<F>(t: Tree, fl: Floats<F>)
    requires t.TCall?
    ensures Meaning(t, fl) ==
            match Meaning(t.arg, fl)
            case Err(e) => Err(e)
            case Ok(v) => Apply(ToLower(t.name), v, fl)
  {
    hide Apply, ToLower;
  }

  /**
   Evaluates a whole string: the result is the meaning of the string's one derivation, that is, the value
   of the derivation's term or the error of the first part of it that has none, and an error when the
   string has no derivation.
   */
  method Evaluate<F>(expr: string, fl: Floats<F>) returns (r: Result<F, Error>)
    ensures forall lead, t | Derives(expr, lead, t) :: r == Meaning(t, fl)
    ensures forall lead, t, zero | Derives(expr, lead, t) :: CalcMeaning.Means(CalcMeaning.TermOf(t), fl, zero, r)
    ensures (forall lead, t :: !Derives(expr, lead, t)) ==> r.Err?
  {
    var p := new Parser(expr, fl);
    p.SkipSpaces();
    ghost var start := p.pos;
    r := p.ParseExpr();
    BinSound(expr, start, EXPR);
    if r.Ok? {
      p.SkipSpaces();
      if p.pos != |expr| {
        r := Err(Syntax);
      }
    }
    forall lead, t | Derives(expr, lead, t)
      ensures r == Meaning(t, fl)
    {
      ParseAllCorrect(expr, lead, t);
    }
    forall lead, t, zero | Derives(expr, lead, t)
      ensures CalcMeaning.Means(CalcMeaning.TermOf(t), fl, zero, r)
    {
      CalcMeaning.TreeMeans(t, fl, zero);
    }
    if forall lead, t :: !Derives(expr, lead, t) {
      var tree := ParseAll(expr);
      if tree.Some? {
        ParseAllCorrect(expr, expr[..start], tree.value);
      }
    }
  }
}

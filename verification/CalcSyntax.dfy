/**
 The calculator's language (pkg/tools/math/math.go): abstract expressions and their meaning, and the
 grammar as a set of derivation trees. A string belongs to the language exactly when it is some
 leading space followed by the yield of a well-formed tree.
 */
module CalcSyntax {
  import opened Wrappers

  datatype Op = Add | Sub | Mul | Div

  datatype Expr =
    | Num(text: string)
    | Sign(minus: bool, arg: Expr)
    | Bin(op: Op, left: Expr, right: Expr)
    | Pow(base: Expr, exponent: Expr)
    | Call(name: string, arg: Expr)

  datatype Error =
    | Syntax
    | BadNumber
    | DivisionByZero
    | SqrtOfNegative
    | UnknownFunction

  /** The floating-point operations, left abstract. The trigonometric ones take degrees. */
  datatype Floats<!F> = Floats(
    parse: string -> Option<F>,
    add: (F, F) -> F,
    sub: (F, F) -> F,
    mul: (F, F) -> F,
    div: (F, F) -> F,
    pow: (F, F) -> F,
    neg: F -> F,
    sqrt: F -> F,
    sin: F -> F,
    cos: F -> F,
    tan: F -> F,
    isZero: F -> bool,
    isNegative: F -> bool)

  function Arith<F>(op: Op, x: F, y: F, fl: Floats<F>): Result<F, Error> {
    match op
    case Add => Ok(fl.add(x, y))
    case Sub => Ok(fl.sub(x, y))
    case Mul => Ok(fl.mul(x, y))
    case Div => if fl.isZero(y) then Err(DivisionByZero) else Ok(fl.div(x, y))
  }

  /** The prefix functions; names are compared in lower case. */
  function Apply<F>(name: string, x: F, fl: Floats<F>): Result<F, Error> {
    if name == "sqrt" then
      if fl.isNegative(x) then Err(SqrtOfNegative) else Ok(fl.sqrt(x))
    else if name == "sin" then Ok(fl.sin(x))
    else if name == "cos" then Ok(fl.cos(x))
    else if name == "tan" then Ok(fl.tan(x))
    else Err(UnknownFunction)
  }

  /** What an expression means: evaluation from left to right, the first error winning. */
  function Denote<F>(e: Expr, fl: Floats<F>): Result<F, Error> {
    match e
    case Num(text) => (match fl.parse(text) case Some(v) => Ok(v) case None => Err(BadNumber))
    case Sign(minus, a) =>
      (match Denote(a, fl)
       case Err(er) => Err(er)
       case Ok(v) => Ok(if minus then fl.neg(v) else v))
    case Bin(op, l, r) =>
      (match Denote(l, fl)
       case Err(er) => Err(er)
       case Ok(x) =>
         match Denote(r, fl)
         case Err(er) => Err(er)
         case Ok(y) => Arith(op, x, y, fl))
    case Pow(b, x) =>
      (match Denote(b, fl)
       case Err(er) => Err(er)
       case Ok(v) =>
         match Denote(x, fl)
         case Err(er) => Err(er)
         case Ok(w) => Ok(fl.pow(v, w)))
    case Call(name, a) =>
      (match Denote(a, fl)
       case Err(er) => Err(er)
       case Ok(v) => Apply(ToLower(name), v, fl))
  }

  // ---- characters ----

  predicate IsBlank(c: char) { c == ' ' || c == '\t' }

  predicate IsDigit(c: char) { '0' <= c <= '9' }

  predicate IsNumeric(c: char) { IsDigit(c) || c == '.' }

  predicate IsIdentStart(c: char) { 'a' <= c <= 'z' || 'A' <= c <= 'Z' }

  predicate IsIdentPart(c: char) { IsIdentStart(c) || IsDigit(c) }

  predicate AllBlank(s: string) { forall i | 0 <= i < |s| :: IsBlank(s[i]) }

  function ToLower(s: string): string {
    seq(|s|, i requires 0 <= i < |s| => if 'A' <= s[i] <= 'Z' then s[i] - 'A' + 'a' else s[i])
  }

  /** A numeral: digits with at most one dot, and at least one digit. */
  predicate IsNumeral(s: string) {
    && (forall i | 0 <= i < |s| :: IsNumeric(s[i]))
    && (exists i | 0 <= i < |s| :: IsDigit(s[i]))
    && (forall i, j | 0 <= i < j < |s| :: !(s[i] == '.' && s[j] == '.'))
  }

  predicate IsIdent(s: string) {
    && |s| > 0
    && IsIdentStart(s[0])
    && forall i | 0 <= i < |s| :: IsIdentPart(s[i])
  }

  // ---- the grammar ----

  /**
   A derivation, with the blanks after each of its tokens. The source's nonterminals are levels:
   expr 0, term 1, unary 2, power 3, atom 4. A tree of some level also derives from every lower one.
   */
  datatype Tree =
    | TNum(text: string, sp: string)
    | TSign(minus: bool, sp: string, arg: Tree)
    | TBin(left: Tree, op: Op, sp: string, right: Tree)
    | TPow(base: Tree, sp: string, exponent: Tree)
    | TCall(name: string, sp: string, spOpen: string, arg: Tree, spClose: string)
    | TParen(spOpen: string, inner: Tree, spClose: string)

  const EXPR := 0
  const TERM := 1
  const UNARY := 2
  const POWER := 3
  const ATOM := 4

  function OpLevel(op: Op): nat { if op.Add? || op.Sub? then EXPR else TERM }

  function OpChar(op: Op): char {
    match op case Add => '+' case Sub => '-' case Mul => '*' case Div => '/'
  }

  function Level(t: Tree): nat {
    match t
    case TBin(_, op, _, _) => OpLevel(op)
    case TSign(_, _, _) => UNARY
    case TPow(_, _, _) => POWER
    case _ => ATOM
  }

  /** Binary operators associate to the left, '^' to the right and tighter than a sign on its left. */
  predicate WellFormed(t: Tree) {
    match t
    case TNum(text, sp) => IsNumeral(text) && AllBlank(sp)
    case TSign(_, sp, a) => AllBlank(sp) && WellFormed(a) && Level(a) >= UNARY
    case TBin(l, op, sp, r) =>
      AllBlank(sp) && WellFormed(l) && WellFormed(r) && Level(l) >= OpLevel(op) && Level(r) > OpLevel(op)
    case TPow(b, sp, x) =>
      AllBlank(sp) && WellFormed(b) && WellFormed(x) && Level(b) >= ATOM && Level(x) >= UNARY
    case TCall(name, sp, sp1, a, sp2) =>
      IsIdent(name) && AllBlank(sp) && AllBlank(sp1) && AllBlank(sp2) && WellFormed(a)
    case TParen(sp1, a, sp2) => AllBlank(sp1) && AllBlank(sp2) && WellFormed(a)
  }

  function Yield(t: Tree): string {
    match t
    case TNum(text, sp) => text + sp
    case TSign(minus, sp, a) => [if minus then '-' else '+'] + (sp + Yield(a))
    case TBin(l, op, sp, r) => Yield(l) + ([OpChar(op)] + (sp + Yield(r)))
    case TPow(b, sp, x) => Yield(b) + (['^'] + (sp + Yield(x)))
    case TCall(name, sp, sp1, a, sp2) => name + (sp + (['('] + (sp1 + (Yield(a) + ([')'] + sp2)))))
    case TParen(sp1, a, sp2) => ['('] + (sp1 + (Yield(a) + ([')'] + sp2)))
  }

  function Strip(t: Tree): Expr {
    match t
    case TNum(text, _) => Num(text)
    case TSign(minus, _, a) => Sign(minus, Strip(a))
    case TBin(l, op, _, r) => Bin(op, Strip(l), Strip(r))
    case TPow(b, _, x) => Pow(Strip(b), Strip(x))
    case TCall(name, _, _, a, _) => Call(name, Strip(a))
    case TParen(_, a, _) => Strip(a)
  }

  /** The whole string s is `lead` blanks and then the yield of t. */
  ghost predicate Derives(s: string, lead: string, t: Tree) {
    AllBlank(lead) && WellFormed(t) && s == lead + Yield(t)
  }
}

/**
 Printing expressions for the calculator: parentheses only where the four levels need them, blanks
 wherever the parser skips them. Printing and then evaluating gives the meaning of the expression.
 */
module CalcPrinter {
  import opened Wrappers
  import opened CalcSyntax
  import opened CalcEval
  import CalcMeaning

  /** Expressions whose numerals and function names can be written down. */
  predicate Printable(e: Expr) {
    match e
    case Num(text) => IsNumeral(text)
    case Sign(_, a) => Printable(a)
    case Bin(_, l, r) => Printable(l) && Printable(r)
    case Pow(b, x) => Printable(b) && Printable(x)
    case Call(name, a) => IsIdent(name) && Printable(a)
  }

  /** The tree of e for a place of the given level, with no blanks, in parentheses only if its own level is lower. */
  function Draw(e: Expr, level: nat): Tree {
    var core :=
      match e
      case Num(text) => TNum(text, "")
      case Sign(minus, a) => TSign(minus, "", Draw(a, UNARY))
      case Bin(op, l, r) => TBin(Draw(l, OpLevel(op)), op, "", Draw(r, OpLevel(op) + 1))
      case Pow(b, x) => TPow(Draw(b, ATOM), "", Draw(x, UNARY))
      case Call(name, a) => TCall(name, "", "", Draw(a, EXPR), "");
    if Level(core) < level then TParen("", core, "") else core
  }

  /** The tree without its blanks. */
  function Squeeze(t: Tree): Tree {
    match t
    case TNum(text, _) => TNum(text, "")
    case TSign(minus, _, a) => TSign(minus, "", Squeeze(a))
    case TBin(l, op, _, r) => TBin(Squeeze(l), op, "", Squeeze(r))
    case TPow(b, _, x) => TPow(Squeeze(b), "", Squeeze(x))
    case TCall(name, _, _, a, _) => TCall(name, "", "", Squeeze(a), "")
    case TParen(_, a, _) => TParen("", Squeeze(a), "")
  }

  /** Only spaces and tabs stand between the tokens. */
  predicate SpacedByBlanks(t: Tree) {
    match t
    case TNum(_, sp) => AllBlank(sp)
    case TSign(_, sp, a) => AllBlank(sp) && SpacedByBlanks(a)
    case TBin(l, _, sp, r) => AllBlank(sp) && SpacedByBlanks(l) && SpacedByBlanks(r)
    case TPow(b, sp, x) => AllBlank(sp) && SpacedByBlanks(b) && SpacedByBlanks(x)
    case TCall(_, sp, sp1, a, sp2) => AllBlank(sp) && AllBlank(sp1) && AllBlank(sp2) && SpacedByBlanks(a)
    case TParen(sp1, a, sp2) => AllBlank(sp1) && AllBlank(sp2) && SpacedByBlanks(a)
  }

  function Parens(t: Tree): nat {
    match t
    case TNum(_, _) => 0
    case TSign(_, _, a) => Parens(a)
    case TBin(l, _, _, r) => Parens(l) + Parens(r)
    case TPow(b, _, x) => Parens(b) + Parens(x)
    case TCall(_, _, _, a, _) => Parens(a)
    case TParen(_, a, _) => 1 + Parens(a)
  }

  /** What is drawn is a derivation, at the level asked for, of the expression drawn. */
  lemma {:induction false} DrawDerives(e: Expr, level: nat)
    requires Printable(e) && level <= ATOM
    ensures var t := Draw(e, level); WellFormed(t) && Level(t) >= level && Strip(t) == e
    decreases e
  {
    match e
    case Num(_) =>
    case Sign(_, a) => DrawDerives(a, UNARY);
    case Bin(op, l, r) => DrawDerives(l, OpLevel(op)); DrawDerives(r, OpLevel(op) + 1);
    case Pow(b, x) => DrawDerives(b, ATOM); DrawDerives(x, UNARY);
    case Call(_, a) => DrawDerives(a, EXPR);
  }

  /** No derivation of e has fewer parentheses than the one drawn. */
  lemma {:induction false} DrawMinimal(e: Expr, level: nat, t: Tree)
    requires WellFormed(t) && Level(t) >= level && Strip(t) == e
    ensures Parens(t) >= Parens(Draw(e, level))
    decreases t
  {
    match t
    case TNum(_, _) =>
    case TSign(_, _, a) => DrawMinimal(e.arg, UNARY, a);
    case TBin(l, op, _, r) => DrawMinimal(e.left, OpLevel(op), l); DrawMinimal(e.right, OpLevel(op) + 1, r);
    case TPow(b, _, x) => DrawMinimal(e.base, ATOM, b); DrawMinimal(e.exponent, UNARY, x);
    case TCall(_, _, _, a, _) => DrawMinimal(e.arg, EXPR, a);
    case TParen(_, a, _) => DrawMinimal(e, EXPR, a);
  }

  /** Blanks change neither the level nor the expression nor whether a tree is a derivation. */
  lemma {:induction false} SqueezeKeeps(t: Tree)
    ensures Level(Squeeze(t)) == Level(t) && Strip(Squeeze(t)) == Strip(t)
    ensures WellFormed(t) <==> WellFormed(Squeeze(t)) && SpacedByBlanks(t)
  {
    match t
    case TNum(_, _) =>
    case TSign(_, _, a) => SqueezeKeeps(a);
    case TBin(l, _, _, r) => SqueezeKeeps(l); SqueezeKeeps(r);
    case TPow(b, _, x) => SqueezeKeeps(b); SqueezeKeeps(x);
    case TCall(_, _, _, a, _) => SqueezeKeeps(a);
    case TParen(_, a, _) => SqueezeKeeps(a);
  }

  /** The drawing of e with any blanks put in is a derivation of e. */
  lemma PrintedDerives(e: Expr, lead: string, t: Tree)
    requires Printable(e) && AllBlank(lead) && SpacedByBlanks(t) && Squeeze(t) == Draw(e, EXPR)
    ensures Derives(lead + Yield(t), lead, t) && Strip(t) == e
  {
    DrawDerives(e, EXPR);
    SqueezeKeeps(t);
  }

  /** Print, then evaluate: the result is what the expression itself means. */
  method EvaluatePrinted<F>(e: Expr, lead: string, t: Tree, fl: Floats<F>) returns (r: Result<F, Error>)
    requires Printable(e) && AllBlank(lead) && SpacedByBlanks(t) && Squeeze(t) == Draw(e, EXPR)
    ensures r == Denote(e, fl)
    ensures forall zero :: CalcMeaning.Means(CalcMeaning.ExprTerm(e), fl, zero, r)
  {
    PrintedDerives(e, lead, t);
    r := Evaluate(lead + Yield(t), fl);
    forall zero
      ensures CalcMeaning.Means(CalcMeaning.ExprTerm(e), fl, zero, r)
    {
      CalcMeaning.DenotesTerm(e, fl, zero);
    }
  }
}

/**
 What an expression means, told without the evaluation: the term that a derivation stands for, and the
 value of a term under any floating-point operations (pkg/tools/math/math.go:106-283).
 */
module CalcMeaning {
  import opened Wrappers
  import opened CalcSyntax

  datatype Term =
    | Numeral(text: string)
    | Negated(arg: Term)
    | Sum(left: Term, right: Term)
    | Difference(left: Term, right: Term)
    | Product(left: Term, right: Term)
    | Quotient(left: Term, right: Term)
    | Power(base: Term, exponent: Term)
    | Root(arg: Term)
    | Sine(arg: Term)
    | Cosine(arg: Term)
    | Tangent(arg: Term)
    | Other(arg: Term)

  /** The name is the word, but for the case of its letters. */
  predicate Spells(name: string, word: string) {
    |name| == |word| && forall i | 0 <= i < |name| :: name[i] == word[i] || name[i] as int + 32 == word[i] as int
  }

  function Applied(name: string, arg: Term): Term {
    if Spells(name, "sqrt") then Root(arg)
    else if Spells(name, "sin") then Sine(arg)
    else if Spells(name, "cos") then Cosine(arg)
    else if Spells(name, "tan") then Tangent(arg)
    else Other(arg)
  }

  function Combined(op: Op, left: Term, right: Term): Term {
    match op
    case Add => Sum(left, right)
    case Sub => Difference(left, right)
    case Mul => Product(left, right)
    case Div => Quotient(left, right)
  }

  /** The term of a derivation: what stands first in the text is the left operand. */
  function TermOf(t: Tree): Term {
    match t
    case TNum(text, _) => Numeral(text)
    case TSign(minus, _, a) => if minus then Negated(TermOf(a)) else TermOf(a)
    case TBin(l, op, _, r) => Combined(op, TermOf(l), TermOf(r))
    case TPow(b, _, x) => Power(TermOf(b), TermOf(x))
    case TCall(name, _, _, a, _) => Applied(name, TermOf(a))
    case TParen(_, a, _) => TermOf(a)
  }

  function ExprTerm(e: Expr): Term {
    match e
    case Num(text) => Numeral(text)
    case Sign(minus, a) => if minus then Negated(ExprTerm(a)) else ExprTerm(a)
    case Bin(op, l, r) => Combined(op, ExprTerm(l), ExprTerm(r))
    case Pow(b, x) => Power(ExprTerm(b), ExprTerm(x))
    case Call(name, a) => Applied(name, ExprTerm(a))
  }

  lemma {:induction false} StripTerm(t: Tree)
    ensures ExprTerm(Strip(t)) == TermOf(t)
    decreases t
  {
    match t
    case TNum(_, _) =>
    case TSign(_, _, a) => StripTerm(a);
    case TBin(l, _, _, r) => StripTerm(l); StripTerm(r);
    case TPow(b, _, x) => StripTerm(b); StripTerm(x);
    case TCall(_, _, _, a, _) => StripTerm(a);
    case TParen(_, a, _) => StripTerm(a);
  }

  // ---- the value of a term ----

  /** The parts of a term in the order in which they are computed, itself last. */
  function Parts(x: Term): (r: seq<Term>)
    ensures |r| > 0 && r[|r| - 1] == x
  {
    match x
    case Numeral(_) => [x]
    case Negated(a) => Parts(a) + [x]
    case Sum(l, r) => Parts(l) + Parts(r) + [x]
    case Difference(l, r) => Parts(l) + Parts(r) + [x]
    case Product(l, r) => Parts(l) + Parts(r) + [x]
    case Quotient(l, r) => Parts(l) + Parts(r) + [x]
    case Power(b, e) => Parts(b) + Parts(e) + [x]
    case Root(a) => Parts(a) + [x]
    case Sine(a) => Parts(a) + [x]
    case Cosine(a) => Parts(a) + [x]
    case Tangent(a) => Parts(a) + [x]
    case Other(a) => Parts(a) + [x]
  }

  /** The value of a term none of whose parts is at fault; `zero` stands for what has no value. */
  function ValueOf<F>(x: Term, fl: Floats<F>, zero: F): F {
    match x
    case Numeral(text) => if fl.parse(text).Some? then fl.parse(text).value else zero
    case Negated(a) => fl.neg(ValueOf(a, fl, zero))
    case Sum(l, r) => fl.add(ValueOf(l, fl, zero), ValueOf(r, fl, zero))
    case Difference(l, r) => fl.sub(ValueOf(l, fl, zero), ValueOf(r, fl, zero))
    case Product(l, r) => fl.mul(ValueOf(l, fl, zero), ValueOf(r, fl, zero))
    case Quotient(l, r) => fl.div(ValueOf(l, fl, zero), ValueOf(r, fl, zero))
    case Power(b, e) => fl.pow(ValueOf(b, fl, zero), ValueOf(e, fl, zero))
    case Root(a) => fl.sqrt(ValueOf(a, fl, zero))
    case Sine(a) => fl.sin(ValueOf(a, fl, zero))
    case Cosine(a) => fl.cos(ValueOf(a, fl, zero))
    case Tangent(a) => fl.tan(ValueOf(a, fl, zero))
    case Other(_) => zero
  }

  /** What is wrong with a term once its parts have values. */
  function FaultOf<F>(x: Term, fl: Floats<F>, zero: F): Option<Error> {
    match x
    case Numeral(text) => if fl.parse(text).None? then Some(BadNumber) else None
    case Quotient(_, r) => if fl.isZero(ValueOf(r, fl, zero)) then Some(DivisionByZero) else None
    case Root(a) => if fl.isNegative(ValueOf(a, fl, zero)) then Some(SqrtOfNegative) else None
    case Other(_) => Some(UnknownFunction)
    case _ => None
  }

  /** Part i is at fault, and no part computed before it is. */
  ghost predicate FirstFault<F>(parts: seq<Term>, fl: Floats<F>, zero: F, i: nat, e: Error) {
    && i < |parts| && FaultOf(parts[i], fl, zero) == Some(e)
    && forall j | 0 <= j < i :: FaultOf(parts[j], fl, zero) == None
  }

  ghost predicate Faultless<F>(parts: seq<Term>, fl: Floats<F>, zero: F) {
    forall j | 0 <= j < |parts| :: FaultOf(parts[j], fl, zero) == None
  }

  /** The result is the value if no part is at fault, and otherwise the error of the first part that is. */
  ghost predicate Means<F>(x: Term, fl: Floats<F>, zero: F, r: Result<F, Error>) {
    && (r.Ok? ==> Faultless(Parts(x), fl, zero) && r.value == ValueOf(x, fl, zero))
    && (r.Err? ==> exists i :: FirstFault(Parts(x), fl, zero, i, r.error))
  }

  /** Of two results that a term may have there is one. */
  lemma MeansOne<F>(x: Term, fl: Floats<F>, zero: F, r: Result<F, Error>, s: Result<F, Error>)
    requires Means(x, fl, zero, r) && Means(x, fl, zero, s)
    ensures r == s
  {
    var parts := Parts(x);
    if r.Err? && s.Err? {
      var i :| FirstFault(parts, fl, zero, i, r.error);
      var j :| FirstFault(parts, fl, zero, j, s.error);
      assert i == j;
    }
  }

  lemma FaultAppend<F>(a: seq<Term>, b: seq<Term>, all: seq<Term>, fl: Floats<F>, zero: F)
    requires all == a + b
    ensures Faultless(all, fl, zero) <==> Faultless(a, fl, zero) && Faultless(b, fl, zero)
    ensures forall i: nat, e | FirstFault(a, fl, zero, i, e) :: FirstFault(all, fl, zero, i, e)
    ensures Faultless(a, fl, zero) ==>
              forall k: nat, e | k >= |a| && FirstFault(b, fl, zero, k - |a|, e) :: FirstFault(all, fl, zero, k, e)
  {
    hide FaultOf;
    assert forall j | 0 <= j < |a| :: all[j] == a[j];
    assert forall j | 0 <= j < |b| :: all[|a| + j] == b[j];
    if Faultless(all, fl, zero) {
      forall j | 0 <= j < |b|
        ensures FaultOf(b[j], fl, zero) == None
      {
        assert all[|a| + j] == b[j];
      }
    }
  }

  /** What a term means whose last step comes after all of `before`. */
  lemma LastPart<F>(x: Term, before: seq<Term>, fl: Floats<F>, zero: F, r: Result<F, Error>)
    requires Parts(x) == before + [x]
    requires !Faultless(before, fl, zero) ==> r.Err? && exists i :: FirstFault(before, fl, zero, i, r.error)
    requires Faultless(before, fl, zero) ==>
               r == match FaultOf(x, fl, zero) case Some(e) => Err(e) case None => Ok(ValueOf(x, fl, zero))
    ensures Means(x, fl, zero, r)
  {
    hide FaultOf, ValueOf, Parts;
    FaultAppend(before, [x], Parts(x), fl, zero);
    if !Faultless(before, fl, zero) {
      var i :| FirstFault(before, fl, zero, i, r.error);
      assert FirstFault(Parts(x), fl, zero, i, r.error);
    } else if r.Err? {
      assert FirstFault([x], fl, zero, 0, r.error);
      assert FirstFault(Parts(x), fl, zero, |before| + 0, r.error);
    }
  }

  /** Two operands, the left one computed first. */
  lemma TwoOperands<F>(a: Term, b: Term, fl: Floats<F>, zero: F, r: Result<F, Error>, s: Result<F, Error>)
    requires Means(a, fl, zero, r) && Means(b, fl, zero, s)
    ensures var before := Parts(a) + Parts(b);
            && (Faultless(before, fl, zero) <==> r.Ok? && s.Ok?)
            && (r.Err? ==> exists i :: FirstFault(before, fl, zero, i, r.error))
            && (r.Ok? && s.Err? ==> exists i :: FirstFault(before, fl, zero, i, s.error))
  {
    hide FaultOf, Parts;
    FaultAppend(Parts(a), Parts(b), Parts(a) + Parts(b), fl, zero);
    if r.Err? {
      var i :| FirstFault(Parts(a), fl, zero, i, r.error);
      assert FirstFault(Parts(a) + Parts(b), fl, zero, i, r.error);
    } else if s.Err? {
      var i :| FirstFault(Parts(b), fl, zero, i, s.error);
      assert FirstFault(Parts(a) + Parts(b), fl, zero, |Parts(a)| + i, s.error);
    }
  }

  lemma OneOperand<F>(a: Term, fl: Floats<F>, zero: F, r: Result<F, Error>)
    requires Means(a, fl, zero, r)
    ensures Faultless(Parts(a), fl, zero) <==> r.Ok?
  {
    hide FaultOf, Parts;
  }

  // ---- the evaluation computes the value ----

  /** Evaluating an expression gives what its term means, whatever the floating-point operations do. */
  lemma {:induction false} DenotesTerm<F>(e: Expr, fl: Floats<F>, zero: F)
    ensures Means(ExprTerm(e), fl, zero, Denote(e, fl))
    decreases e
  {
    hide Means, Denote, ExprTerm;
    match e
    case Num(text) =>
      NumMeans(text, fl, zero);
    case Sign(minus, a) =>
      DenotesTerm(a, fl, zero);
      SignMeans(minus, a, fl, zero);
    case Bin(op, l, r) =>
      DenotesTerm(l, fl, zero);
      DenotesTerm(r, fl, zero);
      BinMeans(op, l, r, fl, zero);
    case Pow(b, x) =>
      DenotesTerm(b, fl, zero);
      DenotesTerm(x, fl, zero);
      PowMeans(b, x, fl, zero);
    case Call(name, a) =>
      DenotesTerm(a, fl, zero);
      CallMeans(name, a, fl, zero);
  }

  lemma NumMeans<F>(text: string, fl: Floats<F>, zero: F)
    ensures Means(Numeral(text), fl, zero, Denote(Num(text), fl)) && ExprTerm(Num(text)) == Numeral(text)
  {
    LastPart(Numeral(text), [], fl, zero, Denote(Num(text), fl));
  }

  lemma SignMeans<F>(minus: bool, a: Expr, fl: Floats<F>, zero: F)
    requires Means(ExprTerm(a), fl, zero, Denote(a, fl))
    ensures Means(ExprTerm(Sign(minus, a)), fl, zero, Denote(Sign(minus, a), fl))
  {
    var x, r := ExprTerm(a), Denote(a, fl);
    if minus {
      OneOperand(x, fl, zero, r);
      MeansValue(x, fl, zero, r);
      hide Means, Faultless, FirstFault;
      LastPart(Negated(x), Parts(x), fl, zero, Denote(Sign(minus, a), fl));
    } else {
      assert Denote(Sign(minus, a), fl) == r;
    }
  }

  lemma BinMeans<F>(op: Op, l: Expr, r: Expr, fl: Floats<F>, zero: F)
    requires Means(ExprTerm(l), fl, zero, Denote(l, fl)) && Means(ExprTerm(r), fl, zero, Denote(r, fl))
    ensures Means(ExprTerm(Bin(op, l, r)), fl, zero, Denote(Bin(op, l, r), fl))
  {
    var x, y := ExprTerm(l), ExprTerm(r);
    TwoOperands(x, y, fl, zero, Denote(l, fl), Denote(r, fl));
    MeansValue(x, fl, zero, Denote(l, fl));
    MeansValue(y, fl, zero, Denote(r, fl));
    hide Means, Faultless, FirstFault;
    LastPart(Combined(op, x, y), Parts(x) + Parts(y), fl, zero, Denote(Bin(op, l, r), fl));
  }

  lemma PowMeans<F>(b: Expr, e: Expr, fl: Floats<F>, zero: F)
    requires Means(ExprTerm(b), fl, zero, Denote(b, fl)) && Means(ExprTerm(e), fl, zero, Denote(e, fl))
    ensures Means(ExprTerm(Pow(b, e)), fl, zero, Denote(Pow(b, e), fl))
  {
    var x, y := ExprTerm(b), ExprTerm(e);
    TwoOperands(x, y, fl, zero, Denote(b, fl), Denote(e, fl));
    MeansValue(x, fl, zero, Denote(b, fl));
    MeansValue(y, fl, zero, Denote(e, fl));
    hide Means, Faultless, FirstFault;
    LastPart(Power(x, y), Parts(x) + Parts(y), fl, zero, Denote(Pow(b, e), fl));
  }

  lemma CallMeans<F>(name: string, a: Expr, fl: Floats<F>, zero: F)
    requires Means(ExprTerm(a), fl, zero, Denote(a, fl))
    ensures Means(ExprTerm(Call(name, a)), fl, zero, Denote(Call(name, a), fl))
  {
    var x := ExprTerm(a);
    OneOperand(x, fl, zero, Denote(a, fl));
    MeansValue(x, fl, zero, Denote(a, fl));
    LowerSpells(name);
    hide ToLower, Spells, Means, Faultless, FirstFault;
    LastPart(Applied(name, x), Parts(x), fl, zero, Denote(Call(name, a), fl));
  }

  lemma MeansValue<F>(x: Term, fl: Floats<F>, zero: F, r: Result<F, Error>)
    requires Means(x, fl, zero, r)
    ensures r.Ok? ==> r.value == ValueOf(x, fl, zero)
    ensures r.Err? ==> !Faultless(Parts(x), fl, zero) && exists i :: FirstFault(Parts(x), fl, zero, i, r.error)
  {
  }

  lemma LowerSpells(name: string)
    ensures ToLower(name) == "sqrt" <==> Spells(name, "sqrt")
    ensures ToLower(name) == "sin" <==> Spells(name, "sin")
    ensures ToLower(name) == "cos" <==> Spells(name, "cos")
    ensures ToLower(name) == "tan" <==> Spells(name, "tan")
  {
    LowerWord(name, "sqrt");
    LowerWord(name, "sin");
    LowerWord(name, "cos");
    LowerWord(name, "tan");
  }

  lemma LowerWord(name: string, word: string)
    requires forall i | 0 <= i < |word| :: 'a' <= word[i] <= 'z'
    ensures ToLower(name) == word <==> Spells(name, word)
  {
    if Spells(name, word) {
      forall i | 0 <= i < |name|
        ensures ToLower(name)[i] == word[i]
      {
      }
    }
    if ToLower(name) == word {
      forall i | 0 <= i < |name|
        ensures name[i] == word[i] || name[i] as int + 32 == word[i] as int
      {
        assert ToLower(name)[i] == word[i];
      }
    }
  }

  /** A derivation means what its term means. */
  lemma TreeMeans<F>(t: Tree, fl: Floats<F>, zero: F)
    ensures Means(TermOf(t), fl, zero, Denote(Strip(t), fl))
  {
    StripTerm(t);
    DenotesTerm(Strip(t), fl, zero);
  }

  // ---- terms themselves as the numbers ----

  /** Operations that write down what is computed; nothing is zero or negative. */
  const TERMS: Floats<Term> := Floats(
    s => Some(Numeral(s)),
    (x, y) => Sum(x, y), (x, y) => Difference(x, y), (x, y) => Product(x, y), (x, y) => Quotient(x, y),
    (x, y) => Power(x, y), x => Negated(x), x => Root(x), x => Sine(x), x => Cosine(x), x => Tangent(x),
    x => false, x => false)

  predicate AllKnown(parts: seq<Term>) { forall i | 0 <= i < |parts| :: !parts[i].Other? }

  lemma KnownAppend(a: seq<Term>, b: seq<Term>)
    ensures AllKnown(a + b) <==> AllKnown(a) && AllKnown(b)
  {
    assert forall i | 0 <= i < |a| :: (a + b)[i] == a[i];
    assert forall i | 0 <= i < |b| :: (a + b)[|a| + i] == b[i];
  }

  lemma {:induction false} TermItself(x: Term, zero: Term)
    requires AllKnown(Parts(x))
    ensures ValueOf(x, TERMS, zero) == x
    decreases x
  {
    hide AllKnown;
    match x
    case Numeral(_) =>
    case Negated(a) => TermItself1(x, a, zero);
    case Sum(l, r) => TermItself2(x, l, r, zero);
    case Difference(l, r) => TermItself2(x, l, r, zero);
    case Product(l, r) => TermItself2(x, l, r, zero);
    case Quotient(l, r) => TermItself2(x, l, r, zero);
    case Power(b, e) => TermItself2(x, b, e, zero);
    case Root(a) => TermItself1(x, a, zero);
    case Sine(a) => TermItself1(x, a, zero);
    case Cosine(a) => TermItself1(x, a, zero);
    case Tangent(a) => TermItself1(x, a, zero);
    case Other(a) => KnownAppend(Parts(a), [x]); NotKnown(x);
  }

  lemma NotKnown(x: Term)
    requires x.Other?
    ensures !AllKnown([x])
  {
    assert [x][0].Other?;
  }

  lemma {:induction false} TermItself1(x: Term, a: Term, zero: Term)
    requires AllKnown(Parts(x)) && Parts(x) == Parts(a) + [x] && a < x
    ensures ValueOf(a, TERMS, zero) == a
    decreases x, 0
  {
    KnownAppend(Parts(a), [x]);
    TermItself(a, zero);
  }

  lemma {:induction false} TermItself2(x: Term, a: Term, b: Term, zero: Term)
    requires AllKnown(Parts(x)) && Parts(x) == Parts(a) + Parts(b) + [x] && a < x && b < x
    ensures ValueOf(a, TERMS, zero) == a && ValueOf(b, TERMS, zero) == b
    decreases x, 0
  {
    KnownAppend(Parts(a) + Parts(b), [x]);
    KnownAppend(Parts(a), Parts(b));
    TermItself(a, zero);
    TermItself(b, zero);
  }

  /** On terms the meaning of a term is the term itself, or an error if it has a name that is no function's. */
  lemma OwnTerm(x: Term, zero: Term, r: Result<Term, Error>)
    requires Means(x, TERMS, zero, r)
    ensures r == if AllKnown(Parts(x)) then Ok(x) else Err(UnknownFunction)
  {
    TermFaults(zero);
    hide FaultOf, Parts, ValueOf;
    if AllKnown(Parts(x)) { TermItself(x, zero); }
  }

  lemma TermFaults(zero: Term)
    ensures forall y :: FaultOf(y, TERMS, zero) == if y.Other? then Some(UnknownFunction) else None
  {
  }

  // ---- some texts ----

  /** Binary operators of a level group to the left, powers to the right, and a sign stands outside a power. */
  lemma Groupings()
    ensures exists t ::
              Derives("7-2-1", "", t) && TermOf(t) == Difference(Difference(Numeral("7"), Numeral("2")), Numeral("1"))
    ensures exists t :: Derives("2^3^2", "", t) && TermOf(t) == Power(Numeral("2"), Power(Numeral("3"), Numeral("2")))
    ensures exists t :: Derives("-2^2", "", t) && TermOf(t) == Negated(Power(Numeral("2"), Numeral("2")))
    ensures exists t :: Derives("1+2*3", "", t) && TermOf(t) == Sum(Numeral("1"), Product(Numeral("2"), Numeral("3")))
    ensures exists t :: Derives("SQRT(4)", "", t) && TermOf(t) == Root(Numeral("4"))
    ensures exists t :: Derives("8/4", "", t) && TermOf(t) == Quotient(Numeral("8"), Numeral("4"))
    ensures exists t :: Derives(" 1.5\t", " ", t) && TermOf(t) == Numeral("1.5")
    ensures exists t :: Derives("+( 4)", "", t) && TermOf(t) == Numeral("4")
  {
    MinusMinus();
    OverOver();
    Dotted();
    Wrapped();
    PowerPower();
    SignPower();
    SumProduct();
    RootOf();
  }

  function Digit(c: char): Tree { TNum([c], "") }

  lemma DigitFormed(c: char)
    requires IsDigit(c)
    ensures WellFormed(Digit(c)) && Yield(Digit(c)) == [c] && Level(Digit(c)) == ATOM
            && TermOf(Digit(c)) == Numeral([c])
  {
    assert [c][0] == c;
  }

  lemma MinusMinus()
    ensures exists t ::
              Derives("7-2-1", "", t) && TermOf(t) == Difference(Difference(Numeral("7"), Numeral("2")), Numeral("1"))
  {
    DigitFormed('7');
    DigitFormed('2');
    DigitFormed('1');
    hide Digit;
    var t := TBin(TBin(Digit('7'), Sub, "", Digit('2')), Sub, "", Digit('1'));
    assert Yield(t) == "7-2-1";
    assert Derives("7-2-1", "", t);
  }

  lemma PowerPower()
    ensures exists t :: Derives("2^3^2", "", t) && TermOf(t) == Power(Numeral("2"), Power(Numeral("3"), Numeral("2")))
  {
    DigitFormed('2');
    DigitFormed('3');
    hide Digit;
    var t := TPow(Digit('2'), "", TPow(Digit('3'), "", Digit('2')));
    assert Yield(t) == "2^3^2";
    assert Derives("2^3^2", "", t);
  }

  lemma SignPower()
    ensures exists t :: Derives("-2^2", "", t) && TermOf(t) == Negated(Power(Numeral("2"), Numeral("2")))
  {
    DigitFormed('2');
    hide Digit;
    var t := TSign(true, "", TPow(Digit('2'), "", Digit('2')));
    assert Yield(t) == "-2^2";
    assert Derives("-2^2", "", t);
  }

  lemma SumProduct()
    ensures exists t :: Derives("1+2*3", "", t) && TermOf(t) == Sum(Numeral("1"), Product(Numeral("2"), Numeral("3")))
  {
    DigitFormed('1');
    DigitFormed('2');
    DigitFormed('3');
    hide Digit;
    var t := TBin(Digit('1'), Add, "", TBin(Digit('2'), Mul, "", Digit('3')));
    assert Yield(t) == "1+2*3";
    assert Derives("1+2*3", "", t);
  }

  lemma RootOf()
    ensures exists t :: Derives("SQRT(4)", "", t) && TermOf(t) == Root(Numeral("4"))
  {
    DigitFormed('4');
    hide Digit;
    var t := TCall("SQRT", "", "", Digit('4'), "");
    assert Yield(t) == "SQRT(4)";
    assert Derives("SQRT(4)", "", t);
  }

  lemma OverOver()
    ensures exists t :: Derives("8/4", "", t) && TermOf(t) == Quotient(Numeral("8"), Numeral("4"))
  {
    DigitFormed('8');
    DigitFormed('4');
    hide Digit;
    var t := TBin(Digit('8'), Div, "", Digit('4'));
    assert Yield(t) == "8/4";
    assert Derives("8/4", "", t);
  }

  lemma Dotted()
    ensures exists t :: Derives(" 1.5\t", " ", t) && TermOf(t) == Numeral("1.5")
  {
    var text := "1.5";
    assert text[0] == '1' && text[1] == '.' && text[2] == '5' && IsNumeral(text);
    hide IsNumeral;
    var t := TNum("1.5", "\t");
    assert " " + Yield(t) == " 1.5\t";
    assert Derives(" 1.5\t", " ", t);
  }

  lemma Wrapped()
    ensures exists t :: Derives("+( 4)", "", t) && TermOf(t) == Numeral("4")
  {
    DigitFormed('4');
    hide Digit;
    var t := TSign(false, "", TParen(" ", Digit('4'), ""));
    assert Yield(t.arg) == "( 4)";
    assert Yield(t) == "+( 4)";
    assert Derives("+( 4)", "", t);
  }
}

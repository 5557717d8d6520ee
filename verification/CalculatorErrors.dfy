/**
 What each error of the reference calculator of fixture t8 means (scripts/bench/make_tasks.py): the
 evaluator reports exactly the first thing that is wrong when the tokens are read left to right.
*/
module CalculatorErrors {
  import opened Calculator
  import opened Wrappers

  /** What has been read when an operand is expected next; every part of it that is complete has a value. */
  datatype Context =
    | Start
    | InParen(outer: Context)
    | AfterSum(outer: Context, left: Tree, op: Op)
    | AfterProduct(outer: Context, left: Tree, op: Op)
    | AfterSign(outer: Context)

  predicate HasValue(c: Tree) { Meaning(c).Ok? }

  predicate AwaitsExpr(k: Context)
    decreases k, 0
  {
    k.Start? || (k.InParen? && AwaitsOperand(k.outer))
  }

  predicate AwaitsTerm(k: Context)
    decreases k, 1
  {
    || AwaitsExpr(k)
    || (k.AfterSum? && AwaitsExpr(k.outer) && IsExpr(k.left) && HasValue(k.left) && IsSum(k.op))
  }

  predicate AwaitsOperand(k: Context)
    decreases k, 2
  {
    || AwaitsTerm(k)
    || (k.AfterSign? && AwaitsOperand(k.outer))
    || (k.AfterProduct? && AwaitsTerm(k.outer) && IsTerm(k.left) && HasValue(k.left) && !IsSum(k.op))
  }

  /** The tokens read so far. */
  function Before(k: Context): seq<Token> {
    match k
    case Start => []
    case InParen(o) => Before(o) + [Open]
    case AfterSum(o, l, op) => Before(o) + (Yield(l) + [Sign(op)])
    case AfterProduct(o, l, op) => Before(o) + (Yield(l) + [Sign(op)])
    case AfterSign(o) => Before(o) + [Sign(Sub)]
  }

  /** The first thing that is wrong, and what follows it. */
  datatype Fault =
    | Ends(k: Context)
    | Stray(k: Context, token: Token, rest: seq<Token>)
    | Unclosed(k: Context, inner: Tree, rest: seq<Token>)
    | ZeroDivisor(k: Context, quotient: Tree, rest: seq<Token>)
    | Trailing(whole: Tree, rest: seq<Token>)

  predicate StartsOperand(t: Token) { t.Num? || t.Open? || t == Sign(Sub) }

  predicate Continues(rest: seq<Token>) { rest != [] && rest[0].Sign? }

  predicate IsFault(f: Fault) {
    match f
    case Ends(k) => AwaitsOperand(k) && k != Start
    case Stray(k, t, _) => AwaitsOperand(k) && !StartsOperand(t)
    case Unclosed(k, c, rest) =>
      AwaitsOperand(k) && IsExpr(c) && HasValue(c) && !Continues(rest) && (rest == [] || rest[0] != Close)
    case ZeroDivisor(k, c, _) =>
      AwaitsTerm(k) && IsTerm(c) && c.Bin? && c.op == Div && HasValue(c.left) && Meaning(c.right) == Ok(0.0)
    case Trailing(c, rest) => IsExpr(c) && HasValue(c) && rest != [] && !Continues(rest)
  }

  function Tokens(f: Fault): seq<Token> {
    match f
    case Ends(k) => Before(k)
    case Stray(k, t, rest) => Before(k) + ([t] + rest)
    case Unclosed(k, c, rest) => Before(k) + ([Open] + (Yield(c) + rest))
    case ZeroDivisor(k, c, rest) => Before(k) + (Yield(c) + rest)
    case Trailing(c, rest) => Yield(c) + rest
  }

  function ErrorOf(f: Fault): Error {
    match f
    case Ends(_) => UnexpectedEnd
    case Stray(_, t, _) => Unexpected(t)
    case Unclosed(_, _, _) => MissingClose
    case ZeroDivisor(_, _, _) => DivisionByZero
    case Trailing(_, _) => TrailingInput
  }

  lemma Regroup(a: seq<Token>, b: seq<Token>, c: seq<Token>)
    ensures (a + b) + c == a + (b + c)
  {
  }

  lemma Behind(t: Token, rest: seq<Token>)
    ensures ([t] + rest)[0] == t && ([t] + rest)[1..] == rest
  {
  }

  // An error behind a context is the error of the whole.

  lemma {:induction false} ExprPropagates(k: Context, s: seq<Token>)
    requires AwaitsExpr(k) && ParseExpr(s).Err?
    ensures ParseExpr(Before(k) + s) == ParseExpr(s)
    decreases k, 0
  {
    if k.InParen? {
      Behind(Open, s);
      OperandPropagates(k.outer, [Open] + s);
      Regroup(Before(k.outer), [Open], s);
    } else {
      assert Before(k) + s == s;
    }
  }

  lemma {:induction false} TermPropagates(k: Context, s: seq<Token>)
    requires AwaitsTerm(k) && ParseTerm(s).Err?
    ensures ParseExpr(Before(k) + s) == ParseTerm(s)
    decreases k, 1
  {
    if AwaitsExpr(k) {
      ExprPropagates(k, s);
    } else {
      var rest := [Sign(k.op)] + s;
      Behind(Sign(k.op), s);
      ExprComplete(k.left, rest);
      assert ParseExpr(Yield(k.left) + rest) == ParseTerm(s);
      ExprPropagates(k.outer, Yield(k.left) + rest);
      Regroup(Yield(k.left), [Sign(k.op)], s);
      Regroup(Before(k.outer), Yield(k.left) + [Sign(k.op)], s);
    }
  }

  lemma {:induction false} OperandPropagates(k: Context, s: seq<Token>)
    requires AwaitsOperand(k) && ParseUnary(s).Err?
    ensures ParseExpr(Before(k) + s) == ParseUnary(s)
    decreases k, 2
  {
    if AwaitsTerm(k) {
      TermPropagates(k, s);
    } else if k.AfterSign? {
      Behind(Sign(Sub), s);
      OperandPropagates(k.outer, [Sign(Sub)] + s);
      Regroup(Before(k.outer), [Sign(Sub)], s);
    } else {
      var rest := [Sign(k.op)] + s;
      Behind(Sign(k.op), s);
      TermComplete(k.left, rest);
      assert ParseTerm(Yield(k.left) + rest) == ParseUnary(s);
      TermPropagates(k.outer, Yield(k.left) + rest);
      Regroup(Yield(k.left), [Sign(k.op)], s);
      Regroup(Before(k.outer), Yield(k.left) + [Sign(k.op)], s);
    }
  }

  lemma BeforeNonempty(k: Context)
    requires k != Start
    ensures Before(k) != []
  {
  }

  /** Every fault is reported as such. */
  lemma FaultIsReported(f: Fault)
    requires IsFault(f)
    ensures Tokens(f) != [] && Evaluated(Tokens(f)) == Err(ErrorOf(f))
  {
    match f
    case Ends(k) =>
      OperandPropagates(k, []);
      assert Before(k) + [] == Before(k);
      BeforeNonempty(k);
    case Stray(k, t, rest) =>
      Behind(t, rest);
      OperandPropagates(k, [t] + rest);
    case Unclosed(k, c, rest) =>
      ExprComplete(c, rest);
      Behind(Open, Yield(c) + rest);
      OperandPropagates(k, [Open] + (Yield(c) + rest));
    case ZeroDivisor(k, c, rest) =>
      TermComplete(c, rest);
      TermPropagates(k, Yield(c) + rest);
      YieldNonempty(c);
    case Trailing(c, rest) =>
      ExprComplete(c, rest);
  }

  // Whatever is reported is there.

  /** `f` is a fault of `ts` read behind `k`. */
  predicate Found(f: Fault, k: Context, ts: seq<Token>, e: Error) {
    IsFault(f) && Tokens(f) == Before(k) + ts && ErrorOf(f) == e
  }

  lemma {:induction false} ExprFails(k: Context, ts: seq<Token>) returns (f: Fault)
    requires AwaitsExpr(k) && ParseExpr(ts).Err? && (k != Start || ts != [])
    ensures Found(f, k, ts, ParseExpr(ts).error)
    decreases |ts|, 4
  {
    if ParseTerm(ts).Err? {
      f := TermFails(k, ts);
    } else {
      var l := TermSound(ts);
      var (left, rest) := ParseTerm(ts).value;
      assert IsExpr(l);
      f := SumFails(k, l, left, rest);
    }
  }

  lemma {:induction false} SumFails(k: Context, l: Tree, left: real, rest: seq<Token>) returns (f: Fault)
    requires AwaitsExpr(k) && IsExpr(l) && Meaning(l) == Ok(left) && SumLoop(left, rest).Err?
    ensures Found(f, k, Yield(l) + rest, SumLoop(left, rest).error)
    decreases |rest|, 5
  {
    var k', ts := AfterSum(k, l, rest[0].op), rest[1..];
    assert rest == [Sign(rest[0].op)] + ts;
    Regroup(Yield(l), [Sign(rest[0].op)], ts);
    Regroup(Before(k), Yield(l) + [Sign(rest[0].op)], ts);
    if ParseTerm(ts).Err? {
      f := TermFails(k', ts);
    } else {
      var r := TermSound(ts);
      var (right, more) := ParseTerm(ts).value;
      BinMeaning(rest[0].op, l, r, left, right);
      BinYield(rest[0].op, l, r, rest, more);
      f := SumFails(k, Bin(rest[0].op, l, r), Apply(rest[0].op, left, right).value, more);
    }
  }

  lemma {:induction false} TermFails(k: Context, ts: seq<Token>) returns (f: Fault)
    requires AwaitsTerm(k) && ParseTerm(ts).Err? && (k != Start || ts != [])
    ensures Found(f, k, ts, ParseTerm(ts).error)
    decreases |ts|, 3
  {
    if ParseUnary(ts).Err? {
      f := UnaryFails(k, ts);
    } else {
      var l := UnarySound(ts);
      var (left, rest) := ParseUnary(ts).value;
      assert IsTerm(l);
      f := ProductFails(k, l, left, rest);
    }
  }

  lemma {:induction false} ProductFails(k: Context, l: Tree, left: real, rest: seq<Token>) returns (f: Fault)
    requires AwaitsTerm(k) && IsTerm(l) && Meaning(l) == Ok(left) && ProductLoop(left, rest).Err?
    ensures Found(f, k, Yield(l) + rest, ProductLoop(left, rest).error)
    decreases |rest|, 5
  {
    var op, ts := rest[0].op, rest[1..];
    assert rest == [Sign(op)] + ts;
    Regroup(Yield(l), [Sign(op)], ts);
    Regroup(Before(k), Yield(l) + [Sign(op)], ts);
    if ParseUnary(ts).Err? {
      f := UnaryFails(AfterProduct(k, l, op), ts);
    } else {
      var r := UnarySound(ts);
      var (right, more) := ParseUnary(ts).value;
      BinYield(op, l, r, rest, more);
      if Apply(op, left, right).Err? {
        f := ZeroDivisor(k, Bin(op, l, r), more);
      } else {
        BinMeaning(op, l, r, left, right);
        f := ProductFails(k, Bin(op, l, r), Apply(op, left, right).value, more);
      }
    }
  }

  lemma {:induction false} UnaryFails(k: Context, ts: seq<Token>) returns (f: Fault)
    requires AwaitsOperand(k) && ParseUnary(ts).Err? && (k != Start || ts != [])
    ensures Found(f, k, ts, ParseUnary(ts).error)
    decreases |ts|, 2
  {
    if ts == [] {
      assert Before(k) + [] == Before(k);
      f := Ends(k);
    } else {
      assert ts == [ts[0]] + ts[1..];
      Regroup(Before(k), [ts[0]], ts[1..]);
      if ts[0] == Sign(Sub) {
        f := UnaryFails(AfterSign(k), ts[1..]);
      } else if ts[0].Open? {
        f := ParenFails(k, ts);
      } else {
        f := Stray(k, ts[0], ts[1..]);
      }
    }
  }

  lemma {:induction false} ParenFails(k: Context, ts: seq<Token>) returns (f: Fault)
    requires AwaitsOperand(k) && ts != [] && ts[0] == Open && ParseAtom(ts).Err?
    ensures Found(f, k, ts, ParseAtom(ts).error)
    decreases |ts|, 1
  {
    assert ts == [Open] + ts[1..];
    Regroup(Before(k), [Open], ts[1..]);
    if ParseExpr(ts[1..]).Err? {
      f := ExprFails(InParen(k), ts[1..]);
    } else {
      var c := ExprSound(ts[1..]);
      var rest := ParseExpr(ts[1..]).value.1;
      LoopsEnd(ts[1..]);
      f := Unclosed(k, c, rest);
    }
  }

  /** Where an expression ends, no operator follows. */
  lemma {:induction false} LoopsEnd(ts: seq<Token>)
    requires ParseExpr(ts).Ok?
    ensures !Continues(ParseExpr(ts).value.1)
  {
    ProductEnds(ParseUnary(ts).value.0, ParseUnary(ts).value.1);
    SumEnds(ParseTerm(ts).value.0, ParseTerm(ts).value.1);
  }

  lemma {:induction false} SumEnds(left: real, rest: seq<Token>)
    requires SumLoop(left, rest).Ok? && !LeadsProduct(rest)
    ensures !Continues(SumLoop(left, rest).value.1)
    decreases |rest|
  {
    if LeadsSum(rest) {
      var (right, more) := ParseTerm(rest[1..]).value;
      ProductEnds(ParseUnary(rest[1..]).value.0, ParseUnary(rest[1..]).value.1);
      SumEnds(Apply(rest[0].op, left, right).value, more);
    }
  }

  lemma {:induction false} ProductEnds(left: real, rest: seq<Token>)
    requires ProductLoop(left, rest).Ok?
    ensures !LeadsProduct(ProductLoop(left, rest).value.1)
    decreases |rest|
  {
    if LeadsProduct(rest) {
      var (right, more) := ParseUnary(rest[1..]).value;
      ProductEnds(Apply(rest[0].op, left, right).value, more);
    }
  }

  /**
   Each error means what it says, and is reported exactly if it comes first: an operand is missing
   at the end or something else stands in its place, a parenthesis is not closed, a complete
   quotient has the divisor zero, or something follows a complete expression.
  */
  lemma ErrorsAreExact(ts: seq<Token>, e: Error)
    ensures Evaluated(ts) == Err(e) <==>
      if ts == [] then e == EmptyInput else exists f :: IsFault(f) && Tokens(f) == ts && ErrorOf(f) == e
  {
    if ts != [] && Evaluated(ts) == Err(e) {
      if ParseExpr(ts).Err? {
        var f := ExprFails(Start, ts);
        assert Before(Start) + ts == ts;
      } else {
        var c := ExprSound(ts);
        LoopsEnd(ts);
        var f := Trailing(c, ParseExpr(ts).value.1);
        assert IsFault(f) && Tokens(f) == ts;
      }
    }
    if f :| IsFault(f) && Tokens(f) == ts && ErrorOf(f) == e {
      FaultIsReported(f);
    }
  }

  /** "1 / 0 )" divides by zero, although no tree has these tokens. */
  lemma DividesBeforeStray()
    ensures Evaluated([Num("1"), Sign(Div), Num("0"), Close]) == Err(DivisionByZero)
    ensures forall c | IsExpr(c) :: Yield(c) != [Num("1"), Sign(Div), Num("0"), Close]
  {
    var ts := [Num("1"), Sign(Div), Num("0"), Close];
    var f := ZeroDivisor(Start, Bin(Div, Lit("1"), Lit("0")), [Close]);
    assert Meaning(Lit("0")) == Ok(0.0) by { ZeroIsZero(); }
    assert IsFault(f);
    FaultIsReported(f);
    assert Tokens(f) == ts;
    forall c | IsExpr(c) ensures Yield(c) != ts {
      Balanced(c);
    }
  }

  lemma ZeroIsZero()
    ensures Decimal("0") == 0.0
  {
    assert DigitsEnd("0", 0) == 1;
    assert "0"[..1] == "0" && "0"[..0] == "";
    assert DigitsValue("0") == 0;
  }

  function Count(ts: seq<Token>, t: Token): nat { multiset(ts)[t] }

  lemma {:induction false} Balanced(c: Tree)
    ensures Count(Yield(c), Open) == Count(Yield(c), Close)
  {
    match c
    case Lit(_) =>
    case Neg(u) =>
      Balanced(u);
    case Paren(e) =>
      Balanced(e);
    case Bin(_, l, r) =>
      Balanced(l);
      Balanced(r);
  }
}

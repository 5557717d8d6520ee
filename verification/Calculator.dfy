/**
 The reference calculator of fixture t8 (scripts/bench/make_tasks.py): a tokenizer and a
 recursive-descent evaluator that computes while it parses. Numbers are exact decimals here.
*/
module Calculator {
  import opened Text
  import opened Wrappers

  datatype Op = Add | Sub | Mul | Div

  datatype Token = Num(lexeme: string) | Sign(op: Op) | Open | Close

  datatype Error =
    | BadInput
    | EmptyInput
    | TrailingInput
    | UnexpectedEnd
    | MissingClose
    | Unexpected(token: Token)
    | DivisionByZero

  type Parsed = Result<(real, seq<Token>), Error>

  function DigitsValue(s: string): nat
    requires forall c | c in s :: IsDigit(c)
  {
    if s == "" then 0
    else
      var last := s[|s| - 1];
      assert IsDigit(last);
      10 * DigitsValue(s[..|s| - 1]) + (last as int - '0' as int)
  }

  function PowerOfTen(n: nat): (p: nat)
    ensures p > 0
  {
    if n == 0 then 1 else 10 * PowerOfTen(n - 1)
  }

  /** Digits, or digits, a point and digits. */
  predicate IsNumber(s: string) {
    s != "" && IsDigit(s[0]) && NumberEnd(s) == |s|
  }

  function DigitsEnd(s: string, i: nat): (j: nat)
    requires i <= |s|
    ensures i <= j <= |s|
    ensures forall k | i <= k < j :: IsDigit(s[k])
    ensures j < |s| ==> !IsDigit(s[j])
    decreases |s| - i
  {
    if i < |s| && IsDigit(s[i]) then DigitsEnd(s, i + 1) else i
  }

  /** How far the number at the start of `s` extends; the fraction is optional. */
  function NumberEnd(s: string): (j: nat)
    ensures j <= |s|
  {
    var i := DigitsEnd(s, 0);
    if i + 1 < |s| && s[i] == '.' && IsDigit(s[i + 1]) then DigitsEnd(s, i + 1) else i
  }

  function Decimal(lexeme: string): real {
    var i := DigitsEnd(lexeme, 0);
    var whole := DigitsValue(lexeme[..i]) as real;
    if i + 1 < |lexeme| then
      var j := DigitsEnd(lexeme, i + 1);
      whole + DigitsValue(lexeme[i + 1..j]) as real / PowerOfTen(j - i - 1) as real
    else whole
  }

  predicate IsSum(op: Op) { op.Add? || op.Sub? }

  predicate LeadsSum(ts: seq<Token>) { ts != [] && ts[0].Sign? && IsSum(ts[0].op) }

  predicate LeadsProduct(ts: seq<Token>) { ts != [] && ts[0].Sign? && !IsSum(ts[0].op) }

  function Apply(op: Op, left: real, right: real): Result<real, Error> {
    match op
    case Add => Ok(left + right)
    case Sub => Ok(left - right)
    case Mul => Ok(left * right)
    case Div => if right == 0.0 then Err(DivisionByZero) else Ok(left / right)
  }

  // The evaluator as functions: what each method below returns.

  function ParseExpr(ts: seq<Token>): (p: Parsed)
    ensures p.Ok? ==> |p.value.1| < |ts|
    decreases |ts|, 4
  {
    match ParseTerm(ts)
    case Err(e) => Err(e)
    case Ok((left, rest)) => SumLoop(left, rest)
  }

  function SumLoop(left: real, rest: seq<Token>): (p: Parsed)
    ensures p.Ok? ==> |p.value.1| <= |rest|
    decreases |rest|, 5
  {
    if LeadsSum(rest) then
      match ParseTerm(rest[1..])
      case Err(e) => Err(e)
      case Ok((right, rest')) =>
        match Apply(rest[0].op, left, right)
        case Err(e) => Err(e)
        case Ok(v) => SumLoop(v, rest')
    else Ok((left, rest))
  }

  function ParseTerm(ts: seq<Token>): (p: Parsed)
    ensures p.Ok? ==> |p.value.1| < |ts|
    decreases |ts|, 3
  {
    match ParseUnary(ts)
    case Err(e) => Err(e)
    case Ok((left, rest)) => ProductLoop(left, rest)
  }

  function ProductLoop(left: real, rest: seq<Token>): (p: Parsed)
    ensures p.Ok? ==> |p.value.1| <= |rest|
    decreases |rest|, 5
  {
    if LeadsProduct(rest) then
      match ParseUnary(rest[1..])
      case Err(e) => Err(e)
      case Ok((right, rest')) =>
        match Apply(rest[0].op, left, right)
        case Err(e) => Err(e)
        case Ok(v) => ProductLoop(v, rest')
    else Ok((left, rest))
  }

  function ParseUnary(ts: seq<Token>): (p: Parsed)
    ensures p.Ok? ==> |p.value.1| < |ts|
    decreases |ts|, 2
  {
    if ts != [] && ts[0] == Sign(Sub) then
      match ParseUnary(ts[1..])
      case Err(e) => Err(e)
      case Ok((v, rest)) => Ok((-v, rest))
    else ParseAtom(ts)
  }

  function ParseAtom(ts: seq<Token>): (p: Parsed)
    ensures p.Ok? ==> |p.value.1| < |ts|
    decreases |ts|, 1
  {
    if ts == [] then Err(UnexpectedEnd)
    else match ts[0]
      case Open =>
        (match ParseExpr(ts[1..])
         case Err(e) => Err(e)
         case Ok((v, rest)) =>
           if rest == [] || rest[0] != Close then Err(MissingClose) else Ok((v, rest[1..])))
      case Num(lexeme) => Ok((Decimal(lexeme), ts[1..]))
      case _ => Err(Unexpected(ts[0]))
  }

  function Evaluated(ts: seq<Token>): Result<real, Error> {
    if ts == [] then Err(EmptyInput)
    else match ParseExpr(ts)
      case Err(e) => Err(e)
      case Ok((v, rest)) => if rest == [] then Ok(v) else Err(TrailingInput)
  }

  // The evaluator as the source writes it.

  method Expr(ts: seq<Token>) returns (p: Parsed)
    ensures p == ParseExpr(ts)
    decreases |ts|, 4
  {
    p := Term(ts);
    if p.Err? {
      return;
    }
    var (left, rest) := p.value;
    while LeadsSum(rest)
      invariant |rest| < |ts|
      invariant ParseExpr(ts) == SumLoop(left, rest)
      decreases |rest|
    {
      var op := rest[0].op;
      p := Term(rest[1..]);
      if p.Err? {
        return;
      }
      var right := p.value.0;
      rest := p.value.1;
      var applied := Apply(op, left, right);
      if applied.Err? {
        return Err(applied.error);
      }
      left := applied.value;
    }
    return Ok((left, rest));
  }

  method Term(ts: seq<Token>) returns (p: Parsed)
    ensures p == ParseTerm(ts)
    decreases |ts|, 3
  {
    p := Unary(ts);
    if p.Err? {
      return;
    }
    var (left, rest) := p.value;
    while LeadsProduct(rest)
      invariant |rest| < |ts|
      invariant ParseTerm(ts) == ProductLoop(left, rest)
      decreases |rest|
    {
      var op := rest[0].op;
      p := Unary(rest[1..]);
      if p.Err? {
        return;
      }
      var right := p.value.0;
      rest := p.value.1;
      var applied := Apply(op, left, right);
      if applied.Err? {
        return Err(applied.error);
      }
      left := applied.value;
    }
    return Ok((left, rest));
  }

  /** Whatever begins with a unary is read as that unary, and nothing else is accepted. */
  method Unary(ts: seq<Token>) returns (p: Parsed)
    ensures p == ParseUnary(ts)
    ensures forall c | IsUnary(c) && Yield(c) <= ts :: p == ThenRest(Meaning(c), ts[|Yield(c)|..])
    ensures p.Ok? ==> exists c :: IsUnary(c) && Yield(c) <= ts
    decreases |ts|, 2
  {
    UnaryRead(ts);
    if ts != [] && ts[0] == Sign(Sub) {
      p := Unary(ts[1..]);
      if p.Ok? {
        return Ok((-p.value.0, p.value.1));
      }
    } else {
      p := Atom(ts);
    }
  }

  /** The same for a number or a parenthesis. */
  method Atom(ts: seq<Token>) returns (p: Parsed)
    ensures p == ParseAtom(ts)
    ensures forall c | IsUnary(c) && !c.Neg? && Yield(c) <= ts :: p == ThenRest(Meaning(c), ts[|Yield(c)|..])
    ensures p.Ok? ==>
      exists c :: IsUnary(c) && !c.Neg? && Yield(c) <= ts
    decreases |ts|, 1
  {
    AtomRead(ts);
    if ts == [] {
      return Err(UnexpectedEnd);
    }
    if ts[0].Open? {
      p := Expr(ts[1..]);
      if p.Err? {
        return;
      }
      var (v, rest) := p.value;
      return if rest == [] || rest[0] != Close then Err(MissingClose) else Ok((v, rest[1..]));
    }
    return if ts[0].Num? then Ok((Decimal(ts[0].lexeme), ts[1..])) else Err(Unexpected(ts[0]));
  }

  /** Every grammatical list of tokens gives what its tree stands for, and no other gives a value. */
  method Evaluate(ts: seq<Token>) returns (r: Result<real, Error>)
    ensures forall c | IsExpr(c) && Yield(c) == ts :: r == Meaning(c)
    ensures r.Ok? ==> exists c :: IsExpr(c) && Yield(c) == ts
    ensures r == Evaluated(ts)
  {
    TreesDecide(ts);
    if ts == [] {
      return Err(EmptyInput);
    }
    var p := Expr(ts);
    return match p
      case Err(e) => Err(e)
      case Ok((v, rest)) => if rest == [] then Ok(v) else Err(TrailingInput);
  }

  // The grammar, independently of how it is parsed.

  /** A parse tree; parentheses are part of it. */
  datatype Tree = Lit(lexeme: string) | Neg(arg: Tree) | Paren(inner: Tree)
                | Bin(op: Op, left: Tree, right: Tree)

  predicate IsExpr(c: Tree)
    decreases c, 2
  {
    if c.Bin? && IsSum(c.op) then IsExpr(c.left) && IsTerm(c.right) else IsTerm(c)
  }

  predicate IsTerm(c: Tree)
    decreases c, 1
  {
    match c
    case Bin(op, l, r) => !IsSum(op) && IsTerm(l) && IsUnary(r)
    case _ => IsUnary(c)
  }

  predicate IsUnary(c: Tree)
    decreases c, 0
  {
    match c
    case Neg(u) => IsUnary(u)
    case Paren(e) => IsExpr(e)
    case Lit(_) => true
    case Bin(_, _, _) => false
  }

  /** The tokens of a tree, left to right. */
  function Yield(c: Tree): seq<Token> {
    match c
    case Lit(lexeme) => [Num(lexeme)]
    case Neg(u) => [Sign(Sub)] + Yield(u)
    case Paren(e) => [Open] + Yield(e) + [Close]
    case Bin(op, l, r) => Yield(l) + [Sign(op)] + Yield(r)
  }

  /** The tree's value; division by zero has none. */
  function Meaning(c: Tree): Result<real, Error> {
    match c
    case Lit(lexeme) => Ok(Decimal(lexeme))
    case Neg(u) => (match Meaning(u) case Ok(v) => Ok(-v) case Err(e) => Err(e))
    case Paren(e) => Meaning(e)
    case Bin(op, l, r) =>
      match Meaning(l)
      case Err(e) => Err(e)
      case Ok(vl) =>
        match Meaning(r)
        case Err(e) => Err(e)
        case Ok(vr) => Apply(op, vl, vr)
  }

  lemma {:induction false} MeaningError(c: Tree)
    ensures Meaning(c).Err? ==> Meaning(c).error == DivisionByZero
  {
    match c
    case Lit(_) =>
    case Neg(u) => MeaningError(u);
    case Paren(e) => MeaningError(e);
    case Bin(_, l, r) => MeaningError(l); MeaningError(r);
  }

  // Completeness: every derivable token list is evaluated to the meaning of its tree.

  /** The value with what is left to read, or with what the loop over operators makes of it. */
  function ThenRest(m: Result<real, Error>, rest: seq<Token>): Parsed {
    if m.Ok? then Ok((m.value, rest)) else Err(m.error)
  }

  function ThenProduct(m: Result<real, Error>, rest: seq<Token>): Parsed {
    if m.Ok? then ProductLoop(m.value, rest) else Err(m.error)
  }

  function ThenSum(m: Result<real, Error>, rest: seq<Token>): Parsed {
    if m.Ok? then SumLoop(m.value, rest) else Err(m.error)
  }

  lemma {:induction false} UnaryComplete(c: Tree, rest: seq<Token>)
    requires IsUnary(c)
    ensures ParseUnary(Yield(c) + rest) == ThenRest(Meaning(c), rest)
    decreases c, 2
  {
    var ts := Yield(c) + rest;
    match c
    case Lit(_) =>
      assert ts[1..] == rest;
    case Neg(u) =>
      assert ts[1..] == Yield(u) + rest;
      UnaryComplete(u, rest);
    case Paren(e) =>
      var rest' := [Close] + rest;
      assert ts[1..] == Yield(e) + rest';
      ExprComplete(e, rest');
      assert rest'[1..] == rest;
  }

  lemma {:induction false} TermComplete(c: Tree, rest: seq<Token>)
    requires IsTerm(c)
    ensures ParseTerm(Yield(c) + rest) == ThenProduct(Meaning(c), rest)
    decreases c, 3
  {
    if c.Bin? {
      var rest' := [Sign(c.op)] + (Yield(c.right) + rest);
      assert Yield(c) + rest == Yield(c.left) + rest';
      assert rest'[1..] == Yield(c.right) + rest;
      TermComplete(c.left, rest');
      UnaryComplete(c.right, rest);
    } else {
      UnaryComplete(c, rest);
    }
  }

  lemma {:induction false} ExprComplete(c: Tree, rest: seq<Token>)
    requires IsExpr(c) && !LeadsProduct(rest)
    ensures ParseExpr(Yield(c) + rest) == ThenSum(Meaning(c), rest)
    decreases c, 4
  {
    if c.Bin? && IsSum(c.op) {
      var rest' := [Sign(c.op)] + (Yield(c.right) + rest);
      assert Yield(c) + rest == Yield(c.left) + rest';
      assert rest'[1..] == Yield(c.right) + rest;
      ExprComplete(c.left, rest');
      TermComplete(c.right, rest);
    } else {
      TermComplete(c, rest);
    }
  }

  // Soundness: whatever is consumed is the yield of a tree with that value.

  lemma {:induction false} UnarySound(ts: seq<Token>) returns (c: Tree)
    requires ParseUnary(ts).Ok?
    ensures IsUnary(c) && Yield(c) + ParseUnary(ts).value.1 == ts
    ensures Meaning(c) == Ok(ParseUnary(ts).value.0)
    decreases |ts|, 2
  {
    if ts != [] && ts[0] == Sign(Sub) {
      var u := UnarySound(ts[1..]);
      c := Neg(u);
    } else if ts[0].Open? {
      var e := ExprSound(ts[1..]);
      c := Paren(e);
    } else {
      c := Lit(ts[0].lexeme);
    }
  }

  lemma {:induction false} TermSound(ts: seq<Token>) returns (c: Tree)
    requires ParseTerm(ts).Ok?
    ensures IsTerm(c) && Yield(c) + ParseTerm(ts).value.1 == ts
    ensures Meaning(c) == Ok(ParseTerm(ts).value.0)
    decreases |ts|, 3
  {
    var l := UnarySound(ts);
    c := ProductLoopSound(l, ParseUnary(ts).value.0, ParseUnary(ts).value.1);
  }

  lemma BinMeaning(op: Op, l: Tree, r: Tree, left: real, right: real)
    requires Meaning(l) == Ok(left) && Meaning(r) == Ok(right)
    ensures Meaning(Bin(op, l, r)) == Apply(op, left, right)
  {
  }

  /** An operator and its right operand move from the input to the tree. */
  lemma BinYield(op: Op, l: Tree, r: Tree, rest: seq<Token>, more: seq<Token>)
    requires rest != [] && rest[0] == Sign(op) && rest[1..] == Yield(r) + more
    ensures Yield(Bin(op, l, r)) + more == Yield(l) + rest
  {
    assert rest == [Sign(op)] + (Yield(r) + more);
  }

  lemma {:induction false} ProductLoopSound(l: Tree, left: real, rest: seq<Token>) returns (c: Tree)
    requires IsTerm(l) && Meaning(l) == Ok(left) && ProductLoop(left, rest).Ok?
    ensures IsTerm(c) && Yield(c) + ProductLoop(left, rest).value.1 == Yield(l) + rest
    ensures Meaning(c) == Ok(ProductLoop(left, rest).value.0)
    decreases |rest|, 5
  {
    if LeadsProduct(rest) {
      var r := UnarySound(rest[1..]);
      var (right, rest') := ParseUnary(rest[1..]).value;
      var v := Apply(rest[0].op, left, right).value;
      assert ProductLoop(left, rest) == ProductLoop(v, rest');
      BinMeaning(rest[0].op, l, r, left, right);
      BinYield(rest[0].op, l, r, rest, rest');
      c := ProductLoopSound(Bin(rest[0].op, l, r), v, rest');
    } else {
      c := l;
    }
  }

  lemma {:induction false} ExprSound(ts: seq<Token>) returns (c: Tree)
    requires ParseExpr(ts).Ok?
    ensures IsExpr(c) && Yield(c) + ParseExpr(ts).value.1 == ts
    ensures Meaning(c) == Ok(ParseExpr(ts).value.0)
    decreases |ts|, 4
  {
    var l := TermSound(ts);
    assert IsExpr(l);
    c := SumLoopSound(l, ParseTerm(ts).value.0, ParseTerm(ts).value.1);
  }

  lemma {:induction false} SumLoopSound(l: Tree, left: real, rest: seq<Token>) returns (c: Tree)
    requires IsExpr(l) && Meaning(l) == Ok(left) && SumLoop(left, rest).Ok?
    ensures IsExpr(c) && Yield(c) + SumLoop(left, rest).value.1 == Yield(l) + rest
    ensures Meaning(c) == Ok(SumLoop(left, rest).value.0)
    decreases |rest|, 5
  {
    if LeadsSum(rest) {
      var r := TermSound(rest[1..]);
      var (right, rest') := ParseTerm(rest[1..]).value;
      var v := Apply(rest[0].op, left, right).value;
      assert SumLoop(left, rest) == SumLoop(v, rest');
      BinMeaning(rest[0].op, l, r, left, right);
      BinYield(rest[0].op, l, r, rest, rest');
      c := SumLoopSound(Bin(rest[0].op, l, r), v, rest');
    } else {
      c := l;
    }
  }

  /**
   The evaluator decides the grammar: it returns a value exactly for the token lists that have a
   tree with that value, and reports division by zero for those whose tree has none.
  */
  lemma EvaluateDecidesGrammar(ts: seq<Token>, v: real)
    ensures Evaluated(ts) == Ok(v) <==> exists c :: IsExpr(c) && Yield(c) == ts && Meaning(c) == Ok(v)
    ensures forall c | IsExpr(c) && Yield(c) == ts && Meaning(c).Err? ::
      Evaluated(ts) == Err(DivisionByZero)
  {
    TreesDecide(ts);
    forall c | IsExpr(c) && Yield(c) == ts && Meaning(c).Err? ensures Meaning(c) == Err(DivisionByZero) {
      MeaningError(c);
    }
  }

  lemma TreesDecide(ts: seq<Token>)
    ensures forall c | IsExpr(c) && Yield(c) == ts :: Evaluated(ts) == Meaning(c)
    ensures Evaluated(ts).Ok? ==> exists c :: IsExpr(c) && Yield(c) == ts
  {
    forall c | IsExpr(c) && Yield(c) == ts ensures Evaluated(ts) == Meaning(c) {
      assert Yield(c) + [] == ts;
      ExprComplete(c, []);
      YieldNonempty(c);
    }
    if Evaluated(ts).Ok? {
      var c := ExprSound(ts);
      assert Yield(c) + [] == Yield(c);
    }
  }

  lemma UnaryRead(ts: seq<Token>)
    ensures forall c | IsUnary(c) && Yield(c) <= ts :: ParseUnary(ts) == ThenRest(Meaning(c), ts[|Yield(c)|..])
    ensures ParseUnary(ts).Ok? ==>
      exists c :: IsUnary(c) && Yield(c) <= ts
  {
    forall c | IsUnary(c) && Yield(c) <= ts ensures ParseUnary(ts) == ThenRest(Meaning(c), ts[|Yield(c)|..]) {
      assert Yield(c) + ts[|Yield(c)|..] == ts;
      UnaryComplete(c, ts[|Yield(c)|..]);
    }
    if ParseUnary(ts).Ok? {
      var c := UnarySound(ts);
      assert ts[|Yield(c)|..] == ParseUnary(ts).value.1;
    }
  }

  lemma AtomRead(ts: seq<Token>)
    ensures forall c | IsUnary(c) && !c.Neg? && Yield(c) <= ts ::
      ParseAtom(ts) == ThenRest(Meaning(c), ts[|Yield(c)|..])
    ensures ParseAtom(ts).Ok? ==>
      exists c :: IsUnary(c) && !c.Neg? && Yield(c) <= ts
  {
    forall c | IsUnary(c) && Yield(c) <= ts ensures Yield(c)[0] == ts[0] {
      YieldNonempty(c);
    }
    UnaryRead(ts);
  }

  lemma {:induction false} YieldNonempty(c: Tree)
    ensures Yield(c) != []
  {
    match c
    case Lit(_) =>
    case Neg(u) =>
    case Paren(e) =>
    case Bin(_, l, r) =>
  }

  // Printing an abstract tree with as few parentheses as precedence allows.

  datatype Ast = Number(lexeme: string) | Negate(arg: Ast) | Binary(op: Op, left: Ast, right: Ast)

  /** Binding strength: sums 0, products 1, everything else 2. */
  function Strength(a: Ast): nat {
    match a
    case Binary(op, _, _) => if IsSum(op) then 0 else 1
    case _ => 2
  }

  function Bare(a: Ast): Tree
    decreases a, 0
  {
    match a
    case Number(lexeme) => Lit(lexeme)
    case Negate(u) => Neg(Printed(u, 2))
    case Binary(op, l, r) =>
      Bin(op, Printed(l, Strength(a)), Printed(r, Strength(a) + 1))
  }

  /** `a` where an operand of at least this strength is expected. */
  function Printed(a: Ast, strength: nat): Tree
    decreases a, 1
  {
    if Strength(a) < strength then Paren(Bare(a)) else Bare(a)
  }

  function AstValue(a: Ast): Result<real, Error> {
    match a
    case Number(lexeme) => Ok(Decimal(lexeme))
    case Negate(u) => (match AstValue(u) case Ok(v) => Ok(-v) case Err(e) => Err(e))
    case Binary(op, l, r) =>
      match AstValue(l)
      case Err(e) => Err(e)
      case Ok(vl) =>
        match AstValue(r)
        case Err(e) => Err(e)
        case Ok(vr) => Apply(op, vl, vr)
  }

  lemma {:induction false} BareIsGrammatical(a: Ast)
    ensures IsExpr(Bare(a)) && Meaning(Bare(a)) == AstValue(a)
    ensures Strength(a) >= 1 ==> IsTerm(Bare(a))
    ensures Strength(a) >= 2 ==> IsUnary(Bare(a))
    decreases a, 0
  {
    match a
    case Number(_) =>
    case Negate(u) =>
      PrintedIsGrammatical(u, 2);
    case Binary(op, l, r) =>
      PrintedIsGrammatical(l, Strength(a));
      PrintedIsGrammatical(r, Strength(a) + 1);
  }

  lemma {:induction false} PrintedIsGrammatical(a: Ast, strength: nat)
    requires strength <= 2
    ensures IsExpr(Printed(a, strength)) && Meaning(Printed(a, strength)) == AstValue(a)
    ensures strength >= 1 ==> IsTerm(Printed(a, strength))
    ensures strength >= 2 ==> IsUnary(Printed(a, strength))
    decreases a, 1
  {
    BareIsGrammatical(a);
  }

  /** Printing a tree and evaluating the tokens gives the tree's value. */
  lemma PrintThenEvaluate(a: Ast)
    ensures Evaluated(Yield(Bare(a))) == AstValue(a)
  {
    BareIsGrammatical(a);
    assert Yield(Bare(a)) + [] == Yield(Bare(a));
    ExprComplete(Bare(a), []);
    YieldNonempty(Bare(a));
  }
}

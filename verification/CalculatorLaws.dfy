/**
 What the reference calculator of fixture t8 computes, said of texts, characters and numbers alone
 (scripts/bench/make_tasks.py).
*/
module CalculatorLaws {
  import opened Calculator
  import opened CalculatorText
  import opened Text
  import opened Wrappers

  // Operators on grammatical operands.

  lemma TreeValue(c: Tree)
    requires IsExpr(c)
    ensures Evaluated(Yield(c)) == Meaning(c)
  {
    TreesDecide(Yield(c));
  }

  lemma MeaningOfSum(l: Tree, r: Tree, x: real, y: real)
    requires Meaning(l) == Ok(x) && Meaning(r) == Ok(y)
    ensures Meaning(Bin(Add, l, r)) == Ok(x + y) && Meaning(Bin(Sub, l, r)) == Ok(x - y)
  {
  }

  lemma MeaningOfProduct(l: Tree, r: Tree, x: real, y: real, v: real)
    requires Meaning(l) == Ok(x) && Meaning(r) == Ok(y) && v == x * y
    ensures Meaning(Bin(Mul, l, r)) == Ok(v)
  {
  }

  lemma MeaningOfNegation(c: Tree, x: real)
    requires Meaning(c) == Ok(x)
    ensures Meaning(Neg(c)) == Ok(-x)
  {
  }

  lemma MeaningOfQuotient(l: Tree, r: Tree, x: real, y: real)
    requires Meaning(l) == Ok(x) && Meaning(r) == Ok(y)
    ensures Meaning(Bin(Div, l, r)) == if y == 0.0 then Err(DivisionByZero) else Ok(x / y)
  {
  }

  /** A sum or a difference between an expression and a term. */
  lemma SumsCompute(l: Tree, r: Tree, x: real, y: real)
    requires IsExpr(l) && IsTerm(r) && Meaning(l) == Ok(x) && Meaning(r) == Ok(y)
    ensures Evaluated(Yield(l) + [Sign(Add)] + Yield(r)) == Ok(x + y)
    ensures Evaluated(Yield(l) + [Sign(Sub)] + Yield(r)) == Ok(x - y)
  {
    MeaningOfSum(l, r, x, y);
    TreeValue(Bin(Add, l, r));
    TreeValue(Bin(Sub, l, r));
  }

  /** A product or a quotient between a term and a unary. */
  lemma ProductsCompute(l: Tree, r: Tree, x: real, y: real)
    requires IsTerm(l) && IsUnary(r) && Meaning(l) == Ok(x) && Meaning(r) == Ok(y)
    ensures Evaluated(Yield(l) + [Sign(Mul)] + Yield(r)) == Ok(x * y)
    ensures Evaluated(Yield(l) + [Sign(Div)] + Yield(r)) == if y == 0.0 then Err(DivisionByZero) else Ok(x / y)
  {
    MeaningOfProduct(l, r, x, y, x * y);
    MeaningOfQuotient(l, r, x, y);
    TreeValue(Bin(Mul, l, r));
    TreeValue(Bin(Div, l, r));
  }

  lemma SignsCompute(c: Tree, x: real)
    requires Meaning(c) == Ok(x)
    ensures IsUnary(c) ==> Evaluated([Sign(Sub)] + Yield(c)) == Ok(-x)
    ensures IsExpr(c) ==> Evaluated([Open] + Yield(c) + [Close]) == Ok(x)
  {
    if IsUnary(c) {
      TreeValue(Neg(c));
    }
    if IsExpr(c) {
      TreeValue(Paren(c));
    }
  }

  // Numbers.

  predicate Digits(s: string) { s != "" && forall i | 0 <= i < |s| :: '0' <= s[i] <= '9' }

  /** The first of several digits stands for its tenfold, hundredfold and so on. */
  lemma {:induction false} LeadingDigit(c: char, s: string)
    requires '0' <= c <= '9' && (s == "" || Digits(s))
    ensures forall d | d in [c] + s :: IsDigit(d)
    ensures DigitsValue([c] + s) == (c as int - 48) * PowerOfTen(|s|) + DigitsValue(s)
  {
    if s == "" {
      assert [c][..0] == "" && DigitsValue("") == 0;
    } else {
      var n := |s| - 1;
      assert s[..n] == "" || Digits(s[..n]);
      LeadingDigit(c, s[..n]);
      assert ([c] + s)[..|s|] == [c] + s[..n];
      assert PowerOfTen(|s|) == 10 * PowerOfTen(n);
      Tenfold(c as int - 48, PowerOfTen(n), DigitsValue(s[..n]));
    }
  }

  lemma Tenfold(d: int, p: int, v: int)
    ensures 10 * (d * p + v) == d * (10 * p) + 10 * v
  {
  }

  lemma Hundred()
    ensures PowerOfTen(0) == 1 && PowerOfTen(1) == 10 && PowerOfTen(2) == 100
  {
  }

  lemma DigitsEndAt(s: string, n: nat, i: nat)
    requires i <= n <= |s| && (forall k | i <= k < n :: IsDigit(s[k])) && (n < |s| ==> !IsDigit(s[n]))
    ensures DigitsEnd(s, i) == n
    decreases n - i
  {
    if i < n {
      DigitsEndAt(s, n, i + 1);
    }
  }

  lemma DigitsAllAt(s: string)
    requires Digits(s)
    ensures forall k | 0 <= k < |s| :: IsDigit(s[k])
    ensures forall d | d in s :: IsDigit(d)
  {
  }

  /** A whole number. */
  lemma WholeNumber(s: string)
    requires Digits(s)
    ensures IsNumber(s) && (forall d | d in s :: IsDigit(d)) && Decimal(s) == DigitsValue(s) as real
  {
    DigitsAllAt(s);
    DigitsEndAt(s, |s|, 0);
    assert s[..|s|] == s;
  }

  /** Where a number with a point has its parts. */
  lemma PointAt(s: string, i: nat)
    requires IsNumber(s) && i < |s| && s[i] == '.'
    ensures DigitsEnd(s, 0) == i && i + 1 < |s| && DigitsEnd(s, i + 1) == |s|
    ensures Digits(s[..i]) && Digits(s[i + 1..])
  {
    var n := DigitsEnd(s, 0);
    assert n <= i && n < |s|;
    assert n + 1 < |s| && s[n] == '.';
    assert i == n;
  }

  /** A number with a point: its parts, and both read as one. */
  lemma Parts(s: string, i: nat) returns (w: nat, f: nat, p: nat, n: nat)
    requires IsNumber(s) && i < |s| && s[i] == '.'
    ensures forall d | d in s[..i] + s[i + 1..] :: IsDigit(d)
    ensures p == PowerOfTen(|s| - i - 1) && n == DigitsValue(s[..i] + s[i + 1..])
    ensures Decimal(s) == w as real + f as real / p as real && n == w * p + f
  {
    PointAt(s, i);
    DecimalSplit(s, i);
    DigitsJoin(s[..i], s[i + 1..]);
    w, f, p, n := DigitsValue(s[..i]), DigitsValue(s[i + 1..]), PowerOfTen(|s[i + 1..]|), DigitsValue(s[..i] + s[i + 1..]);
  }

  /** A number with a point, read without it, is its value times ten for every digit behind the point. */
  lemma DecimalFraction(s: string, i: nat) returns (v: real, p: nat, n: nat)
    requires IsNumber(s) && i < |s| && s[i] == '.'
    ensures forall d | d in s[..i] + s[i + 1..] :: IsDigit(d)
    ensures v == Decimal(s) && p == PowerOfTen(|s| - i - 1) && n == DigitsValue(s[..i] + s[i + 1..])
    ensures v * p as real == n as real
  {
    var w, f;
    w, f, p, n := Parts(s, i);
    v := Decimal(s);
    Combine(v, w, f, p, n);
  }

  lemma Combine(v: real, w: nat, f: nat, p: nat, n: nat)
    requires p > 0 && v == w as real + f as real / p as real && n == w * p + f
    ensures v * p as real == n as real
  {
    ScaledSum(v, w, f, p);
  }

  lemma DecimalSplit(s: string, i: nat)
    requires i + 1 < |s| && DigitsEnd(s, 0) == i && DigitsEnd(s, i + 1) == |s|
    ensures (forall d | d in s[..i] :: IsDigit(d)) && (forall d | d in s[i + 1..] :: IsDigit(d))
    ensures Decimal(s) == DigitsValue(s[..i]) as real + DigitsValue(s[i + 1..]) as real / PowerOfTen(|s| - i - 1) as real
  {
    assert s[i + 1..|s|] == s[i + 1..];
  }

  lemma ScaledSum(v: real, w: nat, f: nat, p: nat)
    requires p > 0 && v == w as real + f as real / p as real
    ensures v * p as real == (w * p + f) as real
  {
    Rescaled(w as real, f as real, p as real);
    assert (w * p) as real == w as real * p as real;
  }

  lemma Rescaled(w: real, f: real, p: real)
    requires p > 0.0
    ensures (w + f / p) * p == w * p + f
  {
    assert (f / p) * p == f;
  }

  lemma {:induction false} DigitsJoin(a: string, b: string)
    requires Digits(a) && (b == "" || Digits(b))
    ensures forall d | d in a + b :: IsDigit(d)
    ensures DigitsValue(a + b) == DigitsValue(a) * PowerOfTen(|b|) + DigitsValue(b)
  {
    DigitsAllAt(a);
    if b == "" {
      assert a + b == a;
    } else {
      var n := |b| - 1;
      assert b[..n] == "" || Digits(b[..n]);
      DigitsJoin(a, b[..n]);
      assert (a + b)[..|a + b| - 1] == a + b[..n];
      Tenfold(DigitsValue(a), PowerOfTen(n), DigitsValue(b[..n]));
    }
  }

  /** Digits, with or without a point and more digits: there are no other numbers. */
  lemma NumbersAre(s: string)
    ensures IsNumber(s) <==>
      Digits(s) || exists i :: 0 <= i < |s| && s[i] == '.' && Digits(s[..i]) && Digits(s[i + 1..])
  {
    if IsNumber(s) {
      var i := DigitsEnd(s, 0);
      if i < |s| {
        assert s[i] == '.';
        PointAt(s, i);
      }
    }
    if Digits(s) {
      WholeNumber(s);
    }
    if i :| 0 <= i < |s| && s[i] == '.' && Digits(s[..i]) && Digits(s[i + 1..]) {
      forall k | 0 <= k < i ensures IsDigit(s[k]) {
        assert s[k] == s[..i][k];
      }
      forall k | i + 1 <= k < |s| ensures IsDigit(s[k]) {
        assert s[k] == s[i + 1..][k - i - 1];
      }
      DigitsEndAt(s, i, 0);
      DigitsEndAt(s, |s|, i + 1);
    }
  }

  // Texts.

  lemma {:induction false} LayoutJoin(g: seq<string>, ts: seq<Token>, h: seq<string>, us: seq<Token>)
    requires |g| == |ts| && |h| == |us|
    ensures Layout(g + h, ts + us) == Layout(g, ts) + Layout(h, us)
  {
    if ts == [] {
      assert g + h == h && ts + us == us;
    } else {
      assert (g + h)[1..] == g[1..] + h && (ts + us)[1..] == ts[1..] + us;
      LayoutJoin(g[1..], ts[1..], h, us);
    }
  }

  lemma LayoutOne(gap: string, t: Token)
    ensures Layout([gap], [t]) == gap + TokenText(t)
  {
    assert [gap][1..] == [] && [t][1..] == [];
  }

  lemma ProperJoin(g: seq<string>, ts: seq<Token>, h: seq<string>, us: seq<Token>)
    requires Proper(g, ts) && Proper(h, us)
    requires ts != [] && us != [] ==> !ts[|ts| - 1].Num? || !us[0].Num?
    ensures Proper(g + h, ts + us)
  {
    var gaps, tokens := g + h, ts + us;
    forall i | 0 <= i < |tokens| - 1 ensures tokens[i].Num? && tokens[i + 1].Num? ==> gaps[i + 1] != "" {
      if i + 1 < |ts| {
        assert tokens[i] == ts[i] && tokens[i + 1] == ts[i + 1] && gaps[i + 1] == g[i + 1];
      } else if i >= |ts| {
        assert tokens[i] == us[i - |ts|] && tokens[i + 1] == us[i + 1 - |ts|] && gaps[i + 1] == h[i + 1 - |ts|];
      }
    }
  }

  /** The tokens with these gaps, and blanks behind them. */
  predicate WrittenAs(text: string, gaps: seq<string>, ts: seq<Token>, trail: string) {
    Proper(gaps, ts) && Blank(trail) && text == Layout(gaps, ts) + trail
  }

  lemma Introduce(text: string, gaps: seq<string>, c: Tree, trail: string)
    requires WrittenAs(text, gaps, Yield(c), trail)
    ensures Writes(text, c)
  {
  }

  lemma Joined(text: string, g: seq<string>, ts: seq<Token>, other: string, h: seq<string>, us: seq<Token>, trail: string)
    requires WrittenAs(text, g, ts, "") && WrittenAs(other, h, us, trail)
    requires ts != [] && us != [] ==> !ts[|ts| - 1].Num? || !us[0].Num?
    ensures WrittenAs(text + other, g + h, ts + us, trail)
  {
    ProperJoin(g, ts, h, us);
    LayoutJoin(g, ts, h, us);
    Regrouped(Layout(g, ts), Layout(h, us), trail);
    assert text == Layout(g, ts);
  }

  lemma Regrouped(x: string, y: string, z: string)
    ensures x + (y + z) == (x + y) + z
  {
  }

  lemma OneToken(trail: string, t: Token)
    requires Blank(trail) && !t.Num?
    ensures WrittenAs(trail + TokenText(t), [trail], [t], "")
  {
    LayoutOne(trail, t);
  }

  lemma InFront(t: Token, text: string, gaps: seq<string>, ts: seq<Token>, trail: string)
    requires !t.Num? && WrittenAs(text, gaps, ts, trail)
    ensures WrittenAs(TokenText(t) + text, [""] + gaps, [t] + ts, trail)
  {
    OneToken("", t);
    assert "" + TokenText(t) == TokenText(t);
    Joined(TokenText(t), [""], [t], text, gaps, ts, trail);
  }

  lemma Behind(text: string, gaps: seq<string>, ts: seq<Token>, trail: string, t: Token)
    requires !t.Num? && WrittenAs(text, gaps, ts, trail)
    ensures WrittenAs(text + TokenText(t), gaps + [trail], ts + [t], "")
  {
    OneToken(trail, t);
    var bare := Layout(gaps, ts);
    assert bare + "" == bare;
    Joined(bare, gaps, ts, trail + TokenText(t), [trail], [t], "");
    assert bare + (trail + TokenText(t)) == text + TokenText(t);
  }

  /** A text in parentheses writes out the tree in parentheses. */
  lemma WritesParen(text: string, c: Tree)
    requires Writes(text, c)
    ensures Writes("(" + text + ")", Paren(c))
  {
    var g, trail :| Proper(g, Yield(c)) && Blank(trail) && text == Layout(g, Yield(c)) + trail;
    InFront(Open, text, g, Yield(c), trail);
    Behind("(" + text, [""] + g, [Open] + Yield(c), trail, Close);
    Introduce("(" + text + ")", [""] + g + [trail], Paren(c), "");
  }

  /** The sign of an operator. */
  function Symbol(op: Op): string {
    match op
    case Add => "+"
    case Sub => "-"
    case Mul => "*"
    case Div => "/"
  }

  lemma WritesNegation(text: string, c: Tree)
    requires Writes(text, c)
    ensures Writes("-" + text, Neg(c))
  {
    var g, trail :| Proper(g, Yield(c)) && Blank(trail) && text == Layout(g, Yield(c)) + trail;
    InFront(Sign(Sub), text, g, Yield(c), trail);
    Introduce("-" + text, [""] + g, Neg(c), trail);
  }

  /** Two texts with the sign of an operator between them. */
  lemma WritesOperation(text: string, c: Tree, op: Op, other: string, d: Tree)
    requires Writes(text, c) && Writes(other, d)
    ensures Writes(text + Symbol(op) + other, Bin(op, c, d))
  {
    var g, trail :| Proper(g, Yield(c)) && Blank(trail) && text == Layout(g, Yield(c)) + trail;
    var h, last :| Proper(h, Yield(d)) && Blank(last) && other == Layout(h, Yield(d)) + last;
    Behind(text, g, Yield(c), trail, Sign(op));
    assert TokenText(Sign(op)) == Symbol(op);
    Joined(text + Symbol(op), g + [trail], Yield(c) + [Sign(op)], other, h, Yield(d), last);
    Introduce(text + Symbol(op) + other, g + [trail] + h, Bin(op, c, d), last);
  }

  lemma WritesNumber(s: string)
    requires IsNumber(s)
    ensures Writes(s, Lit(s))
  {
    LayoutOne("", Num(s));
    assert "" + s == s && s + "" == s;
    Introduce(s, [""], Lit(s), "");
  }

  function InParens(text: string): string { "(" + text + ")" }

  lemma WritesValue(text: string, x: real) returns (c: Tree)
    requires TextValue(text) == Ok(x)
    ensures IsExpr(c) && Writes(text, c) && Meaning(c) == Ok(x)
  {
    TextDecides(text);
    c :| IsExpr(c) && Writes(text, c);
  }

  lemma Operand(u: string, x: real) returns (c: Tree)
    requires TextValue(u) == Ok(x)
    ensures IsUnary(c) && IsTerm(c) && IsExpr(c) && Writes(InParens(u), c) && Meaning(c) == Ok(x)
  {
    var d := WritesValue(u, x);
    WritesParen(u, d);
    c := Paren(d);
  }

  lemma ValueOf(text: string, c: Tree)
    requires Writes(text, c) && IsExpr(c)
    ensures TextValue(text) == Meaning(c)
  {
    TextDecides(text);
  }

  lemma ValueOfOperation(u: string, c: Tree, op: Op, v: string, d: Tree)
    requires Writes(u, c) && Writes(v, d) && IsExpr(Bin(op, c, d))
    ensures TextValue(u + Symbol(op) + v) == Meaning(Bin(op, c, d))
  {
    WritesOperation(u, c, op, v, d);
    ValueOf(u + Symbol(op) + v, Bin(op, c, d));
  }

  // The arithmetic of texts: whatever two texts evaluate to, putting them in parentheses and an
  // operator between them evaluates to the sum, the difference, the product or the quotient.

  lemma TextSum(u: string, v: string, x: real, y: real)
    requires TextValue(u) == Ok(x) && TextValue(v) == Ok(y)
    ensures TextValue(InParens(u) + "+" + InParens(v)) == Ok(x + y)
  {
    var c := Operand(u, x);
    var d := Operand(v, y);
    MeaningOfSum(c, d, x, y);
    ValueOfOperation(InParens(u), c, Add, InParens(v), d);
  }

  lemma TextDifference(u: string, v: string, x: real, y: real)
    requires TextValue(u) == Ok(x) && TextValue(v) == Ok(y)
    ensures TextValue(InParens(u) + "-" + InParens(v)) == Ok(x - y)
  {
    var c := Operand(u, x);
    var d := Operand(v, y);
    MeaningOfSum(c, d, x, y);
    ValueOfOperation(InParens(u), c, Sub, InParens(v), d);
  }

  lemma TextProduct(u: string, v: string, x: real, y: real)
    requires TextValue(u) == Ok(x) && TextValue(v) == Ok(y)
    ensures TextValue(InParens(u) + "*" + InParens(v)) == Ok(x * y)
  {
    var c := Operand(u, x);
    var d := Operand(v, y);
    MeaningOfProduct(c, d, x, y, x * y);
    ValueOfOperation(InParens(u), c, Mul, InParens(v), d);
  }

  lemma TextQuotient(u: string, v: string, x: real, y: real)
    requires TextValue(u) == Ok(x) && TextValue(v) == Ok(y)
    ensures TextValue(InParens(u) + "/" + InParens(v)) == if y == 0.0 then Err(DivisionByZero) else Ok(x / y)
  {
    var c := Operand(u, x);
    var d := Operand(v, y);
    MeaningOfQuotient(c, d, x, y);
    ValueOfOperation(InParens(u), c, Div, InParens(v), d);
  }

  lemma TextParen(u: string, x: real)
    requires TextValue(u) == Ok(x)
    ensures TextValue(InParens(u)) == Ok(x)
  {
    var c := Operand(u, x);
    ValueOf(InParens(u), c);
  }

  lemma TextNegation(u: string, x: real)
    requires TextValue(u) == Ok(x)
    ensures TextValue("-" + InParens(u)) == Ok(-x)
  {
    var c := Operand(u, x);
    WritesNegation(InParens(u), c);
    ValueOf("-" + InParens(u), Neg(c));
    assert Meaning(Neg(c)) == Ok(-x);
  }

  /** A number alone. */
  lemma TextNumber(s: string)
    requires IsNumber(s)
    ensures TextValue(s) == Ok(Decimal(s))
  {
    WritesNumber(s);
    ValueOf(s, Lit(s));
  }

  // How operators bind.

  lemma WritesTwo(r: string, p: Op, s: string)
    requires IsNumber(r) && IsNumber(s)
    ensures Writes(r + Symbol(p) + s, Bin(p, Lit(r), Lit(s)))
  {
    WritesNumber(r);
    WritesNumber(s);
    WritesOperation(r, Lit(r), p, s, Lit(s));
  }

  /** Two operators, the first of which binds first. */
  lemma LeftFirst(r: string, p: Op, s: string, q: Op, t: string)
    requires IsNumber(r) && IsNumber(s) && IsNumber(t) && IsExpr(Bin(q, Bin(p, Lit(r), Lit(s)), Lit(t)))
    ensures TextValue(r + Symbol(p) + s + Symbol(q) + t) == Meaning(Bin(q, Bin(p, Lit(r), Lit(s)), Lit(t)))
  {
    WritesTwo(r, p, s);
    WritesNumber(t);
    ValueOfOperation(r + Symbol(p) + s, Bin(p, Lit(r), Lit(s)), q, t, Lit(t));
  }

  /** Two operators, the second of which binds first. */
  lemma RightFirst(r: string, p: Op, s: string, q: Op, t: string)
    requires IsNumber(r) && IsNumber(s) && IsNumber(t) && IsExpr(Bin(p, Lit(r), Bin(q, Lit(s), Lit(t))))
    ensures TextValue(r + Symbol(p) + (s + Symbol(q) + t)) == Meaning(Bin(p, Lit(r), Bin(q, Lit(s), Lit(t))))
  {
    WritesNumber(r);
    WritesTwo(s, q, t);
    ValueOfOperation(r, Lit(r), p, s + Symbol(q) + t, Bin(q, Lit(s), Lit(t)));
  }

  /** Which of two operators binds first: products before sums, and otherwise the left one. */
  lemma Binding(r: string, s: string, t: string)
    ensures IsExpr(Bin(Sub, Bin(Sub, Lit(r), Lit(s)), Lit(t))) && IsExpr(Bin(Mul, Bin(Div, Lit(r), Lit(s)), Lit(t)))
    ensures IsExpr(Bin(Sub, Bin(Mul, Lit(r), Lit(s)), Lit(t))) && IsExpr(Bin(Add, Lit(r), Bin(Mul, Lit(s), Lit(t))))
  {
    assert IsUnary(Lit(r)) && IsUnary(Lit(s)) && IsUnary(Lit(t));
    assert IsTerm(Lit(r)) && IsTerm(Lit(s)) && IsTerm(Lit(t)) && IsExpr(Lit(r));
    assert IsTerm(Bin(Mul, Lit(r), Lit(s))) && IsTerm(Bin(Mul, Lit(s), Lit(t))) && IsTerm(Bin(Div, Lit(r), Lit(s)));
    assert IsTerm(Bin(Mul, Bin(Div, Lit(r), Lit(s)), Lit(t)));
    assert IsExpr(Bin(Sub, Lit(r), Lit(s))) && IsExpr(Bin(Mul, Lit(r), Lit(s)));
  }

  lemma MeaningOfDifferences(r: string, s: string, t: string)
    ensures Meaning(Bin(Sub, Bin(Sub, Lit(r), Lit(s)), Lit(t))) == Ok(Decimal(r) - Decimal(s) - Decimal(t))
  {
    MeaningOfSum(Lit(r), Lit(s), Decimal(r), Decimal(s));
    MeaningOfSum(Bin(Sub, Lit(r), Lit(s)), Lit(t), Decimal(r) - Decimal(s), Decimal(t));
  }

  lemma MeaningOfQuotientTimes(r: string, s: string, t: string, q: real, v: real)
    requires Decimal(s) != 0.0 && q == Decimal(r) / Decimal(s) && v == q * Decimal(t)
    ensures Meaning(Bin(Mul, Bin(Div, Lit(r), Lit(s)), Lit(t))) == Ok(v)
  {
    MeaningOfQuotient(Lit(r), Lit(s), Decimal(r), Decimal(s));
    MeaningOfProduct(Bin(Div, Lit(r), Lit(s)), Lit(t), q, Decimal(t), v);
  }

  lemma MeaningOfProductAndSum(r: string, s: string, t: string, q: real)
    requires q == Decimal(r) * Decimal(s)
    ensures Meaning(Bin(Sub, Bin(Mul, Lit(r), Lit(s)), Lit(t))) == Ok(q - Decimal(t))
    ensures Meaning(Bin(Add, Lit(t), Bin(Mul, Lit(r), Lit(s)))) == Ok(Decimal(t) + q)
  {
    MeaningOfProduct(Lit(r), Lit(s), Decimal(r), Decimal(s), q);
    MeaningOfSum(Bin(Mul, Lit(r), Lit(s)), Lit(t), q, Decimal(t));
    MeaningOfSum(Lit(t), Bin(Mul, Lit(r), Lit(s)), Decimal(t), q);
  }

  /** Sums group to the left. */
  lemma SumsFromTheLeft(r: string, s: string, t: string)
    requires IsNumber(r) && IsNumber(s) && IsNumber(t)
    ensures TextValue(r + "-" + s + "-" + t) == Ok(Decimal(r) - Decimal(s) - Decimal(t))
  {
    Binding(r, s, t);
    LeftFirst(r, Sub, s, Sub, t);
    MeaningOfDifferences(r, s, t);
  }

  /** So do products. */
  lemma ProductsFromTheLeft(r: string, s: string, t: string, q: real, v: real)
    requires IsNumber(r) && IsNumber(s) && IsNumber(t)
    requires Decimal(s) != 0.0 && q == Decimal(r) / Decimal(s) && v == q * Decimal(t)
    ensures TextValue(r + "/" + s + "*" + t) == Ok(v)
  {
    Binding(r, s, t);
    LeftFirst(r, Div, s, Mul, t);
    MeaningOfQuotientTimes(r, s, t, q, v);
  }

  /** Products bind more strongly than the sum behind them, and than the one before them. */
  lemma ProductBeforeSum(r: string, s: string, t: string, q: real)
    requires IsNumber(r) && IsNumber(s) && IsNumber(t) && q == Decimal(r) * Decimal(s)
    ensures TextValue(r + "*" + s + "-" + t) == Ok(q - Decimal(t))
  {
    Binding(r, s, t);
    LeftFirst(r, Mul, s, Sub, t);
    MeaningOfProductAndSum(r, s, t, q);
  }

  lemma SumAroundProduct(r: string, s: string, t: string, q: real)
    requires IsNumber(r) && IsNumber(s) && IsNumber(t) && q == Decimal(s) * Decimal(t)
    ensures TextValue(r + "+" + (s + "*" + t)) == Ok(Decimal(r) + q)
  {
    Binding(r, s, t);
    RightFirst(r, Add, s, Mul, t);
    MeaningOfProductAndSum(s, t, r, q);
  }

  /** A sign may stand before any operand: `n` is what it makes of the second number. */
  lemma SignInProduct(r: string, s: string, n: real, v: real)
    requires IsNumber(r) && IsNumber(s) && n == -Decimal(s) && v == Decimal(r) * n
    ensures TextValue(r + "*" + ("-" + s)) == Ok(v)
  {
    WritesNumber(r);
    WritesNumber(s);
    WritesNegation(s, Lit(s));
    SignedIsExpr(r, s);
    SignedFactor(r, s, n, v);
    ValueOfOperation(r, Lit(r), Mul, "-" + s, Neg(Lit(s)));
  }

  lemma SignedIsExpr(r: string, s: string)
    ensures IsExpr(Bin(Mul, Lit(r), Neg(Lit(s))))
  {
    assert IsUnary(Neg(Lit(s))) && IsTerm(Lit(r)) && IsTerm(Bin(Mul, Lit(r), Neg(Lit(s))));
  }

  lemma SignedFactor(r: string, s: string, n: real, v: real)
    requires n == -Decimal(s) && v == Decimal(r) * n
    ensures Meaning(Bin(Mul, Lit(r), Neg(Lit(s)))) == Ok(v)
  {
    MeaningOfNegation(Lit(s), Decimal(s));
    MeaningOfProduct(Lit(r), Neg(Lit(s)), Decimal(r), n, v);
  }
}

/**
 The calculator's tokenizer (scripts/bench/make_tasks.py, fixture t8) and the whole program.

 A text is a layout of its tokens: each token behind a gap of blanks, and blanks at the end. Two
 numbers need a gap between them; anything else may stand together. The tokenizer is proved to
 accept exactly such layouts, and the program to give what the laid-out tree stands for.
*/
module CalculatorText {
  import opened Calculator
  import opened Text
  import opened Wrappers

  predicate IsSymbol(c: char) {
    c == '+' || c == '-' || c == '*' || c == '/' || c == '(' || c == ')'
  }

  function SymbolToken(c: char): Token
    requires IsSymbol(c)
  {
    match c
    case '+' => Sign(Add)
    case '-' => Sign(Sub)
    case '*' => Sign(Mul)
    case '/' => Sign(Div)
    case '(' => Open
    case _ => Close
  }

  function TokenText(t: Token): string {
    match t
    case Num(lexeme) => lexeme
    case Sign(Add) => "+"
    case Sign(Sub) => "-"
    case Sign(Mul) => "*"
    case Sign(Div) => "/"
    case Open => "("
    case Close => ")"
  }

  /** The token at the start of `s` after any whitespace, and where it ends. */
  function Match(s: string): (m: Option<(Token, nat)>)
    ensures m.Some? ==> 0 < m.value.1 <= |s|
  {
    var t := TrimLeft(s);
    var start := |s| - |t|;
    if t == "" then None
    else if IsDigit(t[0]) then
      assert 0 < NumberEnd(t);
      Some((Num(t[..NumberEnd(t)]), start + NumberEnd(t)))
    else if IsSymbol(t[0]) then Some((SymbolToken(t[0]), start + 1))
    else None
  }

  function Scan(s: string): Result<seq<Token>, Error>
    decreases |s|
  {
    if s == "" then Ok([])
    else match Match(s)
      case None => Err(BadInput)
      case Some((t, n)) => Prefixed([t], Scan(s[n..]))
  }

  function Prefixed(tokens: seq<Token>, r: Result<seq<Token>, Error>): Result<seq<Token>, Error> {
    match r
    case Ok(ts) => Ok(tokens + ts)
    case Err(e) => Err(e)
  }

  /** One token at a time. */
  lemma ScanAt(s: string, pos: nat, t: Token, n: nat)
    requires pos < |s| && Match(s[pos..]) == Some((t, n))
    ensures pos + n <= |s| && Scan(s[pos..]) == Prefixed([t], Scan(s[pos + n..]))
  {
    assert s[pos..][n..] == s[pos + n..];
  }

  /** What is left to scan, behind the tokens found so far. */
  ghost predicate ScannedTo(whole: Result<seq<Token>, Error>, tokens: seq<Token>, rest: string) {
    whole == Prefixed(tokens, Scan(rest))
  }

  lemma ScanOn(whole: Result<seq<Token>, Error>, tokens: seq<Token>, s: string, pos: nat, t: Token, n: nat)
    requires pos < |s| && Match(s[pos..]) == Some((t, n)) && ScannedTo(whole, tokens, s[pos..])
    ensures pos + n <= |s| && ScannedTo(whole, tokens + [t], s[pos + n..])
  {
    ScanAt(s, pos, t, n);
    PrefixedTwice(tokens, t, Scan(s[pos + n..]));
  }

  lemma ScanStops(whole: Result<seq<Token>, Error>, tokens: seq<Token>, rest: string)
    requires rest != "" && Match(rest).None? && ScannedTo(whole, tokens, rest)
    ensures whole == Err(BadInput)
  {
  }

  lemma ScanEnds(whole: Result<seq<Token>, Error>, tokens: seq<Token>, rest: string)
    requires rest == "" && ScannedTo(whole, tokens, rest)
    ensures whole == Ok(tokens)
  {
    assert tokens + [] == tokens;
  }

  lemma ScanBegins(s: string)
    ensures ScannedTo(Scan(s), [], s[0..])
  {
    assert s[0..] == s;
    PrefixedNone(Scan(s));
  }

  method Tokenize(text: string) returns (r: Result<seq<Token>, Error>)
    ensures r == Scan(TrimRight(text))
  {
    var stripped := TrimRight(text);
    var pos, tokens := 0, [];
    ghost var whole := Scan(stripped);
    ScanBegins(stripped);
    while pos < |stripped|
      invariant 0 <= pos <= |stripped|
      invariant ScannedTo(whole, tokens, stripped[pos..])
    {
      var m := Match(stripped[pos..]);
      if m.None? {
        ScanStops(whole, tokens, stripped[pos..]);
        return Err(BadInput);
      }
      var (token, end) := m.value;
      ScanOn(whole, tokens, stripped, pos, token, end);
      tokens := tokens + [token];
      pos := pos + end;
    }
    ScanEnds(whole, tokens, stripped[pos..]);
    return Ok(tokens);
  }

  lemma PrefixedNone(r: Result<seq<Token>, Error>)
    ensures Prefixed([], r) == r
  {
    if r.Ok? {
      assert [] + r.value == r.value;
    }
  }

  lemma PrefixedTwice(tokens: seq<Token>, t: Token, r: Result<seq<Token>, Error>)
    ensures Prefixed(tokens, Prefixed([t], r)) == Prefixed(tokens + [t], r)
  {
    if r.Ok? {
      assert tokens + ([t] + r.value) == tokens + [t] + r.value;
    }
  }

  lemma {:induction false} TrimLeftDrops(s: string)
    ensures TrimLeft(s) == s[|s| - |TrimLeft(s)|..]
    ensures Blank(s[..|s| - |TrimLeft(s)|])
  {
    if s != "" && IsSpace(s[0]) {
      TrimLeftDrops(s[1..]);
      var n := |s| - |TrimLeft(s)|;
      assert s[..n] == [s[0]] + s[1..][..n - 1];
    }
  }

  predicate Blank(s: string) { forall c | c in s :: IsSpace(c) }

  /** The text of `ts` with a gap of whitespace before each token. */
  function Layout(gaps: seq<string>, ts: seq<Token>): string
    requires |gaps| == |ts|
  {
    if ts == [] then "" else gaps[0] + TokenText(ts[0]) + Layout(gaps[1..], ts[1..])
  }

  /** Gaps are blank, and two adjacent numbers are kept apart. */
  predicate Proper(gaps: seq<string>, ts: seq<Token>) {
    && |gaps| == |ts|
    && (forall i | 0 <= i < |ts| :: Blank(gaps[i]) && (ts[i].Num? ==> IsNumber(ts[i].lexeme)))
    && (forall i | 0 <= i < |ts| - 1 :: ts[i].Num? && ts[i + 1].Num? ==> gaps[i + 1] != "")
  }

  lemma {:induction false} TrimLeftGap(gap: string, s: string)
    requires Blank(gap) && s != "" && !IsSpace(s[0])
    ensures TrimLeft(gap + s) == s
  {
    if gap == "" {
      assert gap + s == s;
    } else {
      assert gap[0] in gap;
      assert (gap + s)[1..] == gap[1..] + s;
      TrimLeftGap(gap[1..], s);
    }
  }

  /** A number is recognised whole unless the text after it would extend it. */
  lemma NumberEndBefore(lexeme: string, rest: string)
    requires IsNumber(lexeme) && (rest == "" || !(IsDigit(rest[0]) || rest[0] == '.'))
    ensures NumberEnd(lexeme + rest) == |lexeme|
  {
    DigitsEndBefore(lexeme, rest, 0);
    var i := DigitsEnd(lexeme, 0);
    if i + 1 < |lexeme| {
      DigitsEndBefore(lexeme, rest, i + 1);
    }
  }

  lemma {:induction false} DigitsEndBefore(s: string, rest: string, i: nat)
    requires i <= |s| && (rest == "" || !IsDigit(rest[0]))
    ensures DigitsEnd(s + rest, i) == DigitsEnd(s, i)
    decreases |s| - i
  {
    if i < |s| && IsDigit(s[i]) {
      DigitsEndBefore(s, rest, i + 1);
    }
  }

  lemma ProperTail(gaps: seq<string>, ts: seq<Token>)
    requires Proper(gaps, ts) && ts != []
    ensures Proper(gaps[1..], ts[1..])
  {
    assert forall i | 0 <= i < |ts| - 1 :: gaps[1..][i] == gaps[i + 1] && ts[1..][i] == ts[i + 1];
  }

  lemma SymbolText(t: Token)
    requires !t.Num?
    ensures |TokenText(t)| == 1 && IsSymbol(TokenText(t)[0]) && !IsDigit(TokenText(t)[0])
    ensures SymbolToken(TokenText(t)[0]) == t
  {
  }

  lemma MatchToken(gap: string, t: Token, rest: string)
    requires Blank(gap)
    requires t.Num? ==> IsNumber(t.lexeme) && (rest == "" || !(IsDigit(rest[0]) || rest[0] == '.'))
    ensures Match(gap + TokenText(t) + rest) == Some((t, |gap + TokenText(t)|))
  {
    var word := TokenText(t);
    TrimLeftGap(gap, word + rest);
    assert gap + word + rest == gap + (word + rest);
    if t.Num? {
      NumberEndBefore(word, rest);
      assert (word + rest)[..|word|] == word;
    } else {
      SymbolText(t);
      assert (word + rest)[0] == word[0];
    }
  }

  /** One round of the tokenizer, given a text that starts with a whole token. */
  lemma ScanToken(gap: string, t: Token, rest: string)
    requires Blank(gap)
    requires t.Num? ==> IsNumber(t.lexeme) && (rest == "" || !(IsDigit(rest[0]) || rest[0] == '.'))
    ensures Scan(gap + TokenText(t) + rest) == Prefixed([t], Scan(rest))
  {
    MatchToken(gap, t, rest);
    assert (gap + TokenText(t) + rest)[|gap + TokenText(t)|..] == rest;
  }

  lemma {:induction false} ScanLayout(gaps: seq<string>, ts: seq<Token>)
    requires Proper(gaps, ts)
    ensures Scan(Layout(gaps, ts)) == Ok(ts)
  {
    if ts != [] {
      ProperTail(gaps, ts);
      LayoutHead(gaps[1..], ts[1..]);
      ScanToken(gaps[0], ts[0], Layout(gaps[1..], ts[1..]));
      ScanLayout(gaps[1..], ts[1..]);
      assert [ts[0]] + ts[1..] == ts;
    }
  }

  lemma LayoutHead(gaps: seq<string>, ts: seq<Token>)
    requires Proper(gaps, ts)
    ensures var s := Layout(gaps, ts);
      s != "" ==> s[0] != '.' && (IsDigit(s[0]) ==> ts[0].Num? && gaps[0] == "")
  {
    if ts != [] && gaps[0] != "" {
      assert gaps[0][0] in gaps[0];
    }
  }

  lemma MatchAfterGap(s: string, gap: string, u: string)
    requires s == gap + u && TrimLeft(s) == u && Match(s).Some?
    ensures u != "" && Match(s) == Some(if IsDigit(u[0]) then (Num(u[..NumberEnd(u)]), |gap| + NumberEnd(u))
                                        else (SymbolToken(u[0]), |gap| + 1))
    ensures !IsDigit(u[0]) ==> IsSymbol(u[0])
  {
  }

  lemma TextOfSymbol(c: char)
    requires IsSymbol(c)
    ensures TokenText(SymbolToken(c)) == [c]
  {
  }

  /** What one successful round consumed; a number is never cut short. */
  lemma MatchSound(s: string) returns (gap: string)
    requires Match(s).Some?
    ensures Blank(gap) && s[..Match(s).value.1] == gap + TokenText(Match(s).value.0)
    ensures var (t, n) := Match(s).value;
      t.Num? ==> IsNumber(t.lexeme) && (n < |s| ==> !IsDigit(s[n]))
  {
    var u := TrimLeft(s);
    TrimLeftDrops(s);
    gap := s[..|s| - |u|];
    MatchAfterGap(s, gap, u);
    if IsDigit(u[0]) {
      NumberEndStops(u);
      CutBehind(s, gap, u, NumberEnd(u));
    } else {
      TextOfSymbol(u[0]);
      CutBehind(s, gap, u, 1);
    }
  }

  lemma CutBehind(s: string, gap: string, u: string, k: nat)
    requires s == gap + u && k <= |u|
    ensures s[..|gap| + k] == gap + u[..k] && (k < |u| ==> s[|gap| + k] == u[k])
  {
  }

  lemma {:induction false} ScanSound(s: string) returns (gaps: seq<string>)
    requires Scan(s).Ok?
    ensures Proper(gaps, Scan(s).value) && Layout(gaps, Scan(s).value) == s
    decreases |s|
  {
    gaps := [];
    if s != "" {
      var (t, n) := Match(s).value;
      var rest := s[n..];
      var gap := MatchSound(s);
      assert s == s[..n] + rest;
      var gaps' := ScanSound(rest);
      ProperCons(gap, t, gaps', Scan(rest).value);
      gaps := [gap] + gaps';
      assert gaps[1..] == gaps' && Scan(s).value[1..] == Scan(rest).value;
    }
  }

  lemma ProperCons(gap: string, t: Token, gaps: seq<string>, ts: seq<Token>)
    requires Proper(gaps, ts) && Blank(gap) && (t.Num? ==> IsNumber(t.lexeme))
    requires t.Num? && Layout(gaps, ts) != "" ==> !IsDigit(Layout(gaps, ts)[0])
    ensures Proper([gap] + gaps, [t] + ts)
  {
    var gaps', ts' := [gap] + gaps, [t] + ts;
    forall i | 0 <= i < |ts| ensures ts'[i].Num? && ts'[i + 1].Num? ==> gaps'[i + 1] != "" {
      if i > 0 {
        assert ts'[i] == ts[i - 1] && ts'[i + 1] == ts[i] && gaps'[i + 1] == gaps[i];
      } else if ts[0].Num? && gaps[0] == "" {
        assert Layout(gaps, ts)[0] == ts[0].lexeme[0];
      }
    }
  }

  /** A recognised number is one, and no digit follows it. */
  lemma NumberEndStops(t: string)
    requires t != "" && IsDigit(t[0])
    ensures IsNumber(t[..NumberEnd(t)])
    ensures NumberEnd(t) < |t| ==> !IsDigit(t[NumberEnd(t)])
  {
    var i, n := DigitsEnd(t, 0), NumberEnd(t);
    DigitsEndPrefix(t, n, 0);
    if i + 1 < |t| && t[i] == '.' && IsDigit(t[i + 1]) {
      assert i + 1 < n;
      DigitsEndPrefix(t, n, i + 1);
    }
  }

  lemma {:induction false} DigitsEndPrefix(s: string, n: nat, i: nat)
    requires i <= n <= |s|
    ensures DigitsEnd(s[..n], i) == if DigitsEnd(s, i) <= n then DigitsEnd(s, i) else n
    decreases n - i
  {
    if i < n && IsDigit(s[i]) {
      DigitsEndPrefix(s, n, i + 1);
    }
  }

  /** Exactly the texts that lay out a token list, with blanks after it, are tokenized to it. */
  lemma TokenizeDecidesLayout(text: string, ts: seq<Token>)
    ensures Scan(TrimRight(text)) == Ok(ts) <==>
      exists gaps, trail :: Proper(gaps, ts) && Blank(trail) && text == Layout(gaps, ts) + trail
  {
    if Scan(TrimRight(text)) == Ok(ts) {
      var gaps := ScanSound(TrimRight(text));
      var trail := TrimRightDrops(text);
      assert text == Layout(gaps, ts) + trail;
    }
    forall gaps, trail | Proper(gaps, ts) && Blank(trail) && text == Layout(gaps, ts) + trail
      ensures Scan(TrimRight(text)) == Ok(ts)
    {
      LayoutLast(gaps, ts);
      TrimRightTrail(Layout(gaps, ts), trail);
      ScanLayout(gaps, ts);
    }
  }

  lemma {:induction false} TrimRightDrops(s: string) returns (trail: string)
    ensures Blank(trail) && s == TrimRight(s) + trail
  {
    trail := "";
    if s != "" && IsSpace(s[|s| - 1]) {
      var t := TrimRightDrops(s[..|s| - 1]);
      trail := t + [s[|s| - 1]];
      assert s == s[..|s| - 1] + [s[|s| - 1]];
    }
  }

  lemma {:induction false} TrimRightTrail(s: string, trail: string)
    requires Blank(trail) && (s == "" || !IsSpace(s[|s| - 1]))
    ensures TrimRight(s + trail) == s
  {
    if trail == "" {
      assert s + trail == s;
    } else {
      assert trail[|trail| - 1] in trail;
      assert (s + trail)[..|s + trail| - 1] == s + trail[..|trail| - 1];
      TrimRightTrail(s, trail[..|trail| - 1]);
    }
  }

  lemma {:induction false} LayoutLast(gaps: seq<string>, ts: seq<Token>)
    requires Proper(gaps, ts)
    ensures var s := Layout(gaps, ts); (s == "" <==> ts == []) && (s != "" ==> !IsSpace(s[|s| - 1]))
  {
    if ts != [] {
      assert Proper(gaps[1..], ts[1..]) by {
        assert forall i | 0 <= i < |ts| - 1 :: gaps[1..][i] == gaps[i + 1] && ts[1..][i] == ts[i + 1];
      }
      LayoutLast(gaps[1..], ts[1..]);
      TokenLast(ts[0]);
      LastOfBoth(gaps[0], TokenText(ts[0]), Layout(gaps[1..], ts[1..]));
    }
  }

  lemma LastOfBoth(gap: string, text: string, more: string)
    requires text != ""
    ensures var s := gap + text + more;
      s[|s| - 1] == if more == "" then text[|text| - 1] else more[|more| - 1]
  {
  }

  lemma TokenLast(t: Token)
    requires t.Num? ==> IsNumber(t.lexeme)
    ensures TokenText(t) != "" && !IsSpace(TokenText(t)[|TokenText(t)| - 1])
  {
    if t.Num? {
      NumberLast(t.lexeme);
    }
  }

  lemma NumberLast(s: string)
    requires IsNumber(s)
    ensures IsDigit(s[|s| - 1])
  {
    var i := DigitsEnd(s, 0);
    if i + 1 < |s| && s[i] == '.' && IsDigit(s[i + 1]) {
      assert DigitsEnd(s, i + 1) == |s|;
    }
  }

  /** The text writes out the tree, spaced in some way. */
  ghost predicate Writes(text: string, c: Tree) {
    exists gaps, trail :: Proper(gaps, Yield(c)) && Blank(trail) && text == Layout(gaps, Yield(c)) + trail
  }

  /**
   `evaluate`: every text that writes out a grammatical tree gives the tree's value, or division by
   zero if it has none, and no other text gives a value.
  */
  method EvaluateText(text: string) returns (r: Result<real, Error>)
    ensures forall c | IsExpr(c) && Writes(text, c) :: r == Meaning(c)
    ensures r.Ok? ==> exists c :: IsExpr(c) && Writes(text, c)
    ensures r == TextValue(text)
  {
    TextDecides(text);
    var tokens := Tokenize(text);
    if tokens.Err? {
      return Err(tokens.error);
    }
    r := Evaluate(tokens.value);
  }

  function TextValue(text: string): Result<real, Error> {
    match Scan(TrimRight(text))
    case Err(e) => Err(e)
    case Ok(ts) => Evaluated(ts)
  }

  lemma TextDecides(text: string)
    ensures forall c | IsExpr(c) && Writes(text, c) :: TextValue(text) == Meaning(c)
    ensures TextValue(text).Ok? ==> exists c :: IsExpr(c) && Writes(text, c)
  {
    forall c | IsExpr(c) && Writes(text, c) ensures TextValue(text) == Meaning(c) {
      TokenizeDecidesLayout(text, Yield(c));
      TreesDecide(Yield(c));
    }
    if TextValue(text).Ok? {
      var ts := Scan(TrimRight(text)).value;
      TreesDecide(ts);
      var c :| IsExpr(c) && Yield(c) == ts;
      TokenizeDecidesLayout(text, ts);
      assert Writes(text, c);
    }
  }

  /** Any way of spacing out a printed tree evaluates to the value of the tree. */
  lemma PrintedTextEvaluates(a: Ast, gaps: seq<string>, trail: string)
    requires Proper(gaps, Yield(Bare(a))) && Blank(trail)
    ensures TextValue(Layout(gaps, Yield(Bare(a))) + trail) == AstValue(a)
  {
    TokenizeDecidesLayout(Layout(gaps, Yield(Bare(a))) + trail, Yield(Bare(a)));
    PrintThenEvaluate(a);
  }
}

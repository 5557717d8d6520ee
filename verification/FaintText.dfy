/** Keeping faint text visible (scripts/ui/capture_tui.py, `keep_faint`). */
module FaintText {
  // Select-graphic-rendition sequences (section 8.3.117 of ECMA-48) are rewritten to use blink in the
  // place of faint. Both the original and the rewritten ones are read by the rules of the standard.

  import opened Sequences
  import opened Text
  import opened Wrappers

  // Parameters.

  predicate AllDigits(s: string) { forall i | 0 <= i < |s| :: IsDigit(s[i]) }

  function Number(s: string): nat
    requires AllDigits(s)
  {
    if s == "" then 0
    else 10 * Number(s[..|s| - 1]) + (s[|s| - 1] as int - '0' as int)
  }

  /** What a parameter stands for, however it is spelled; one with sub-parameters has no number. */
  function Value(p: string): Option<nat> {
    if AllDigits(p) then Some(Number(p)) else None
  }

  function Split(body: string): (params: seq<string>)
    ensures params != [] && forall p | p in params :: ';' !in p
  {
    if body == "" then [""]
    else
      var rest := Split(body[1..]);
      if body[0] == ';' then [""] + rest else [[body[0]] + rest[0]] + rest[1..]
  }

  function Join(params: seq<string>): string
    requires params != []
  {
    if |params| == 1 then params[0] else params[0] + ";" + Join(params[1..])
  }

  lemma {:induction false} SplitWord(p: string)
    requires ';' !in p
    ensures Split(p) == [p]
  {
    if p != "" {
      assert p[0] in p;
      SplitWord(p[1..]);
      assert p == [p[0]] + p[1..];
    }
  }

  lemma {:induction false} SplitAfterWord(p: string, body: string)
    requires ';' !in p
    ensures Split(p + ";" + body) == [p] + Split(body)
  {
    if p == "" {
      assert (p + ";" + body)[1..] == body;
    } else {
      SplitAfterWord(p[1..], body);
      assert p[0] in p;
      assert p == [p[0]] + p[1..];
      assert (p + ";" + body)[1..] == p[1..] + ";" + body;
    }
  }

  lemma {:induction false} SplitJoin(params: seq<string>)
    requires params != [] && forall p | p in params :: ';' !in p
    ensures Split(Join(params)) == params
  {
    if |params| == 1 {
      SplitWord(params[0]);
    } else {
      SplitJoin(params[1..]);
      SplitAfterWord(params[0], Join(params[1..]));
    }
  }

  lemma SmallNumbers()
    ensures Value("5") == Some(5) && Value("22") == Some(22) && Value("25") == Some(25)
    ensures Value("2") == Some(2) && Value("38") == Some(38) && Value("48") == Some(48) && Value("58") == Some(58)
  {
    assert Number("") == 0;
    assert "5"[..0] == "" && "2"[..0] == "" && "3"[..0] == "" && "4"[..0] == "";
    assert Number("5") == 5 && Number("2") == 2 && Number("3") == 3 && Number("4") == 4;
    assert "22"[..1] == "2" && "25"[..1] == "2" && "38"[..1] == "3" && "48"[..1] == "4" && "58"[..1] == "5";
  }

  // Reading by the standard. A sequence's body is a list of parameters set apart by ';'.

  datatype Effect = Code(value: nat) | Raw(text: string) | Colour(kind: Option<nat>) | Operand(operand: Option<nat>)

  /** `rest` is everything in force but faint and blink: all effects since the last reset. */
  datatype Attrs = Attrs(faint: bool, blink: bool, rest: seq<Effect>)

  function Extended(v: Option<nat>): bool { v == Some(38) || v == Some(48) || v == Some(58) }

  /** The parameters after the first of an extended colour: its selector and that one's operands. */
  function Follow(selector: Option<nat>): nat {
    if selector == Some(2) then 4 else if selector == Some(5) then 2 else 1
  }

  function Applied(a: Attrs, p: string): Attrs {
    match Value(p)
    case None => a.(rest := a.rest + [Raw(p)])
    case Some(v) =>
      if v == 0 then Attrs(false, false, [])
      else if v == 2 then a.(faint := true)
      else if v == 5 then a.(blink := true)
      else if v == 22 then a.(faint := false, rest := a.rest + [Code(22)])
      else if v == 25 then a.(blink := false)
      else a.(rest := a.rest + [Code(v)])
  }

  predicate Opens(params: seq<string>) { |params| > 1 && Extended(Value(params[0])) }

  /** How many of the next parameters belong to an extended colour after reading one. */
  function Left(params: seq<string>, skip: nat): nat
    requires params != []
  {
    if skip > 0 then skip - 1 else if Opens(params) then Follow(Value(params[1])) else 0
  }

  /** The first parameter is an attribute of its own. */
  predicate IsAttribute(params: seq<string>, skip: nat)
    requires params != []
  {
    skip == 0 && !Opens(params)
  }

  function Read(params: seq<string>, skip: nat, a: Attrs): Attrs {
    if params == [] then a
    else
      var v := Value(params[0]);
      var a' := if skip > 0 then a.(rest := a.rest + [Operand(v)])
                else if Opens(params) then a.(rest := a.rest + [Colour(v)])
                else Applied(a, params[0]);
      Read(params[1..], Left(params, skip), a')
  }

  /** Which parameters are attributes of their own, and not part of an extended colour. */
  function Attributes(params: seq<string>, skip: nat): (r: seq<bool>)
    ensures |r| == |params|
  {
    if params == [] then [] else [IsAttribute(params, skip)] + Attributes(params[1..], Left(params, skip))
  }

  // Moving faint.

  predicate IsFaint(p: string) { Value(p) == Some(2) || Value(p) == Some(22) }

  function Piece(p: string, move: bool): seq<string> {
    if !move then [p] else if Value(p) == Some(2) then ["5"] else ["22", "25"]
  }

  /** Moves faint to blink at every attribute that sets or clears it. */
  function Ideal(params: seq<string>, skip: nat): seq<string> {
    if params == [] then []
    else Piece(params[0], IsAttribute(params, skip) && IsFaint(params[0])) + Ideal(params[1..], Left(params, skip))
  }

  predicate IsBlink(p: string) { Value(p) in {Some(5), Some(6), Some(25)} }

  /** A sequence without blink codes. */
  predicate BlinkFree(params: seq<string>, skip: nat) {
    params == [] || (!(IsAttribute(params, skip) && IsBlink(params[0])) && BlinkFree(params[1..], Left(params, skip)))
  }

  /** The second shows what the first does, with blink in the place of faint. */
  predicate Shows(a: Attrs, b: Attrs) { b.rest == a.rest && b.blink == a.faint && !b.faint && !a.blink }

  lemma ReadAttribute(p: string, more: seq<string>, a: Attrs)
    requires !Extended(Value(p)) || more == []
    ensures Read([p] + more, 0, a) == Read(more, 0, Applied(a, p))
  {
    assert ([p] + more)[1..] == more;
  }

  lemma PieceShows(p: string, more: seq<string>, a: Attrs, b: Attrs) returns (b': Attrs)
    requires Shows(a, b) && !IsBlink(p) && (!Extended(Value(p)) || more == [])
    ensures Shows(Applied(a, p), b') && Read(Piece(p, IsFaint(p)) + more, 0, b) == Read(more, 0, b')
  {
    SmallNumbers();
    if !IsFaint(p) {
      ReadAttribute(p, more, b);
      b' := Applied(b, p);
    } else if Value(p) == Some(2) {
      ReadAttribute("5", more, b);
      b' := Applied(b, "5");
    } else {
      assert ["22", "25"] + more == ["22"] + (["25"] + more);
      ReadAttribute("22", ["25"] + more, b);
      ReadAttribute("25", more, Applied(b, "22"));
      b' := Applied(Applied(b, "22"), "25");
    }
  }

  /** A rewritten extended colour begins as the original does. */
  lemma IdealBegins(params: seq<string>, skip: nat)
    requires params != [] && skip > 0
    ensures Ideal(params, skip) != [] && Ideal(params, skip)[0] == params[0]
  {
  }

  lemma CopiedShows(params: seq<string>, skip: nat, more: seq<string>)
    requires params != [] && !IsAttribute(params, skip) && more == Ideal(params[1..], Left(params, skip))
    ensures Left([params[0]] + more, skip) == Left(params, skip)
    ensures !IsAttribute([params[0]] + more, skip) && ([params[0]] + more)[1..] == more
  {
    if skip == 0 {
      IdealBegins(params[1..], Left(params, skip));
    }
  }

  /** Moving faint at every attribute shows any blink-free sequence right, however it is spelled. */
  lemma {:induction false} IdealShows(params: seq<string>, skip: nat, a: Attrs, b: Attrs)
    requires BlinkFree(params, skip) && Shows(a, b)
    ensures Shows(Read(params, skip, a), Read(Ideal(params, skip), skip, b))
    decreases |params|
  {
    if params != [] {
      var left := Left(params, skip);
      var more := Ideal(params[1..], left);
      if IsAttribute(params, skip) {
        var b' := PieceShows(params[0], more, a, b);
        IdealShows(params[1..], left, Applied(a, params[0]), b');
      } else {
        CopiedShows(params, skip, more);
        var v := Value(params[0]);
        var effect := if skip > 0 then Operand(v) else Colour(v);
        IdealShows(params[1..], left, a.(rest := a.rest + [effect]), b.(rest := b.rest + [effect]));
      }
    }
  }

  // What the code does.

  predicate StartsColour(params: seq<string>) { |params| > 1 && params[0] in {"38", "48", "58"} }

  /** How many of the next parameters the code copies unseen after the first. */
  function Unseen(params: seq<string>, skip: nat): nat
    requires params != []
  {
    if skip > 0 then skip - 1 else if StartsColour(params) then (if params[1] == "2" then 4 else 2) else 0
  }

  predicate IsSeen(params: seq<string>, skip: nat)
    requires params != []
  {
    skip == 0 && !StartsColour(params)
  }

  /** Which parameters the code looks at by themselves. */
  function Seen(params: seq<string>, skip: nat): (r: seq<bool>)
    ensures |r| == |params|
  {
    if params == [] then [] else [IsSeen(params, skip)] + Seen(params[1..], Unseen(params, skip))
  }

  predicate Spelled(p: string) { p == "2" || p == "22" }

  function Kept(params: seq<string>, skip: nat): seq<string> {
    if params == [] then []
    else Piece(params[0], IsSeen(params, skip) && Spelled(params[0])) + Kept(params[1..], Unseen(params, skip))
  }

  function Params(body: string): (params: seq<string>)
    ensures params != [] && forall p | p in params :: ';' !in p
  {
    if body == "" then ["0"] else Split(body)
  }

  function Least(a: nat, b: nat): nat { if a < b then a else b }

  lemma Slices<T>(s: seq<T>, i: nat, end: nat)
    requires i <= end <= |s|
    ensures s[i..][..end - i] == s[i..end] && s[i..][end - i..] == s[end..] && s[0..] == s
  {
  }

  lemma HeadAndTail<T>(s: seq<T>, i: nat)
    requires i < |s|
    ensures s[i..][1..] == s[i + 1..] && s[i..][0] == s[i] && s[0..] == s
  {
  }

  lemma Peel<T>(s: seq<T>, n: nat, more: seq<T>)
    requires n < |s|
    ensures [s[0]] + (s[1..][..n] + more) == s[..n + 1] + more && s[1..][n..] == s[n + 1..]
  {
  }

  lemma {:induction false} KeptCopies(params: seq<string>, skip: nat, n: nat)
    requires n == skip <= |params| || n == |params| <= skip
    ensures Kept(params, skip) == params[..n] + Kept(params[n..], 0)
  {
    if params == [] {
    } else if skip == 0 {
      Slices(params, 0, 0);
      NothingCopied(params);
    } else {
      var p, tail := params[0], params[1..];
      assert Kept(params, skip) == [p] + Kept(tail, skip - 1);
      KeptCopies(tail, skip - 1, n - 1);
      Peel(params, n - 1, Kept(tail[n - 1..], 0));
    }
  }

  lemma NothingCopied(params: seq<string>)
    ensures Kept(params, 0) == params[..0] + Kept(params[0..], 0)
  {
    assert params[0..] == params;
    assert params[..0] + Kept(params, 0) == Kept(params, 0);
  }

  lemma KeptGroup(rest: seq<string>)
    requires StartsColour(rest)
    ensures var n := Least(1 + Unseen(rest, 0), |rest|);
      Kept(rest, 0) == rest[..n] + Kept(rest[n..], 0)
  {
    var k := Least(Unseen(rest, 0), |rest| - 1);
    KeptCopies(rest[1..], Unseen(rest, 0), k);
    Slices(rest, 1, k + 1);
    Associates([rest[0]], rest[1..k + 1], Kept(rest[k + 1..], 0));
    assert [rest[0]] + rest[1..k + 1] == rest[..k + 1];
  }

  lemma KeptGroupAt(out: seq<string>, params: seq<string>, i: nat, end: nat)
    requires i + 1 < |params| && params[i] in {"38", "48", "58"}
    requires end == Least(if params[i + 1] == "2" then i + 5 else i + 3, |params|)
    ensures out + Kept(params[i..], 0) == (out + params[i..end]) + Kept(params[end..], 0)
  {
    HeadAndTail(params, i);
    KeptGroup(params[i..]);
    Slices(params, i, end);
    Associates(out, params[i..end], Kept(params[end..], 0));
  }

  lemma KeptOneAt(out: seq<string>, params: seq<string>, i: nat)
    requires i < |params| && !(params[i] in {"38", "48", "58"} && i + 1 < |params|)
    ensures out + Kept(params[i..], 0) == (out + KeptPiece(params[i])) + Kept(params[i + 1..], 0)
  {
    SmallNumbers();
    HeadAndTail(params, i);
    Associates(out, KeptPiece(params[i]), Kept(params[i + 1..], 0));
  }

  function KeptPiece(p: string): seq<string> {
    if p == "2" then ["5"] else if p == "22" then ["22", "25"] else [p]
  }

  lemma KeptNonempty(params: seq<string>)
    requires params != []
    ensures Kept(params, 0) != []
  {
  }

  function Refaced(body: string): string {
    KeptNonempty(Params(body));
    Join(Kept(Params(body), 0))
  }

  /** `keep_faint` on the body of one sequence. */
  method KeepFaint(body: string) returns (r: string)
    ensures r == Refaced(body)
  {
    var params := Params(body);
    var out: seq<string> := [];
    var i := 0;
    HeadAndTail(params, 0);
    while i < |params|
      invariant 0 <= i <= |params|
      invariant out + Kept(params[i..], 0) == Kept(params, 0)
    {
      var p := params[i];
      if p in {"38", "48", "58"} && i + 1 < |params| {
        var n := if params[i + 1] == "2" then 5 else 3;
        var end := Least(i + n, |params|);
        KeptGroupAt(out, params, i, end);
        out := out + params[i..end];
        i := end;
      } else {
        KeptOneAt(out, params, i);
        if p == "2" {
          out := out + ["5"];
        } else if p == "22" {
          out := out + ["22", "25"];
        } else {
          out := out + [p];
        }
        i := i + 1;
      }
    }
    assert Kept(params[i..], 0) == [];
    assert out == Kept(params, 0);
    return Join(out);
  }

  /** A colour is copied with what follows: four parameters behind a "2", two behind anything else, or what there is. */
  lemma KeptColour(params: seq<string>, n: nat)
    requires |params| > 1 && params[0] in {"38", "48", "58"}
    requires n == if |params| < (if params[1] == "2" then 5 else 3) then |params| else if params[1] == "2" then 5 else 3
    ensures Kept(params, 0) == params[..n] + Kept(params[n..], 0)
  {
    KeptGroup(params);
  }

  /** Anywhere else "2" becomes "5", "22" is followed by "25", and the rest is copied. */
  lemma KeptOther(params: seq<string>)
    requires params != [] && (params[0] !in {"38", "48", "58"} || |params| == 1)
    ensures Kept(params, 0) ==
      (if params[0] == "2" then ["5"] else if params[0] == "22" then ["22", "25"] else [params[0]]) + Kept(params[1..], 0)
  {
    SmallNumbers();
  }

  /** The body of a sequence is its parameters set apart by ';', and an empty one stands for a reset. */
  lemma RefacedJoin(params: seq<string>)
    requires params != [] && forall p | p in params :: ';' !in p
    ensures Kept(params, 0) != []
    ensures Refaced(Join(params)) == if Join(params) == "" then "0" else Join(Kept(params, 0))
  {
    KeptNonempty(params);
    SplitJoin(params);
    if Join(params) == "" {
      KeptOther(["0"]);
    }
  }

  // When that is right.

  /**
   The code looks at a "2" or a "22" by itself exactly where an attribute has that value. This
   fails for other spellings such as "02", and after an extended colour that is spelled otherwise
   or whose selector is neither 2 nor 5.
  */
  predicate Agrees(params: seq<string>, skip: nat, unseen: nat) {
    forall i | 0 <= i < |params| ::
      (Seen(params, unseen)[i] && Spelled(params[i])) <==> (Attributes(params, skip)[i] && IsFaint(params[i]))
  }

  predicate Understood(params: seq<string>) { Agrees(params, 0, 0) }

  lemma AgreesOn(params: seq<string>, skip: nat, unseen: nat)
    requires params != []
    ensures Agrees(params, skip, unseen) <==>
      && ((IsSeen(params, unseen) && Spelled(params[0])) <==> (IsAttribute(params, skip) && IsFaint(params[0])))
      && Agrees(params[1..], Left(params, skip), Unseen(params, unseen))
  {
    var s, t := Seen(params, unseen), Attributes(params, skip);
    assert s == [IsSeen(params, unseen)] + Seen(params[1..], Unseen(params, unseen));
    assert t == [IsAttribute(params, skip)] + Attributes(params[1..], Left(params, skip));
    if Agrees(params, skip, unseen) {
      forall i | 0 <= i < |params| - 1
        ensures (s[1..][i] && Spelled(params[1..][i])) <==> (t[1..][i] && IsFaint(params[1..][i]))
      {
        assert s[i + 1] == s[1..][i] && t[i + 1] == t[1..][i] && params[i + 1] == params[1..][i];
      }
    }
    if Agrees(params[1..], Left(params, skip), Unseen(params, unseen)) {
      forall i | 0 < i < |params|
        ensures (s[i] && Spelled(params[i])) <==> (t[i] && IsFaint(params[i]))
      {
        assert s[i] == s[1..][i - 1] && t[i] == t[1..][i - 1] && params[i] == params[1..][i - 1];
      }
    }
  }

  /** One "25" too many in front is never made up for. */
  lemma {:induction false} NoShift(params: seq<string>, skip: nat, unseen: nat)
    ensures ["25"] + Kept(params, unseen) != Ideal(params, skip)
    ensures ["25"] + Ideal(params, skip) != Kept(params, unseen)
  {
    SmallNumbers();
    if params != [] {
      var x, y := Kept(params[1..], Unseen(params, unseen)), Ideal(params[1..], Left(params, skip));
      NoShift(params[1..], Left(params, skip), Unseen(params, unseen));
      assert Kept(params, unseen) == ["25"] + x || Kept(params, unseen)[0] != "25";
      assert Ideal(params, skip) == ["25"] + y || Ideal(params, skip)[0] != "25";
      assert (["25"] + Kept(params, unseen))[1..] == Kept(params, unseen);
      assert (["25"] + Ideal(params, skip))[1..] == Ideal(params, skip);
      assert (["25"] + x)[1..] == x && (["25"] + y)[1..] == y;
    }
  }

  lemma SamePiece(a: seq<string>, x: seq<string>, y: seq<string>)
    ensures a + x == a + y <==> x == y
  {
    assert (a + x)[|a|..] == x && (a + y)[|a|..] == y;
  }

  /** Moving faint is never the same as leaving it. */
  lemma MovedDiffers(p: string, x: seq<string>, y: seq<string>)
    requires IsFaint(p) && x != ["25"] + y
    ensures [p] + x != Piece(p, true) + y
  {
    SmallNumbers();
    var b := Piece(p, true);
    assert ([p] + x)[0] == p && ([p] + x)[1..] == x;
    assert (b + y)[0] == b[0] && (b + y)[1..] == b[1..] + y;
  }

  lemma PiecesDecide(p: string, k: bool, m: bool, x: seq<string>, y: seq<string>)
    requires k || m ==> IsFaint(p)
    requires ["25"] + x != y && ["25"] + y != x
    ensures Piece(p, k) + x == Piece(p, m) + y <==> k == m && x == y
  {
    if k == m {
      SamePiece(Piece(p, k), x, y);
    } else if m {
      MovedDiffers(p, x, y);
    } else {
      MovedDiffers(p, y, x);
    }
  }

  /** The code moves faint at every attribute, and nothing else, exactly if it understands the parameters. */
  lemma {:induction false} KeptIsIdealIff(params: seq<string>, skip: nat, unseen: nat)
    ensures Kept(params, unseen) == Ideal(params, skip) <==> Agrees(params, skip, unseen)
  {
    if params != [] {
      SmallNumbers();
      AgreesOn(params, skip, unseen);
      var x, y := Kept(params[1..], Unseen(params, unseen)), Ideal(params[1..], Left(params, skip));
      var k, m := IsSeen(params, unseen) && Spelled(params[0]), IsAttribute(params, skip) && IsFaint(params[0]);
      KeptIsIdealIff(params[1..], Left(params, skip), Unseen(params, unseen));
      NoShift(params[1..], Left(params, skip), Unseen(params, unseen));
      PiecesDecide(params[0], k, m, x, y);
    }
  }

  lemma {:induction false} KeptWords(params: seq<string>, unseen: nat)
    requires forall p | p in params :: ';' !in p
    ensures forall p | p in Kept(params, unseen) :: ';' !in p
  {
    if params != [] {
      assert params[0] in params;
      KeptWords(params[1..], Unseen(params, unseen));
    }
  }

  // What is shown: the exact condition.

  /** The code moves nothing but attributes; it may leave some that it should have moved. */
  predicate Aligned(params: seq<string>, skip: nat, unseen: nat) {
    params == [] ||
    (&& (IsSeen(params, unseen) && Spelled(params[0]) ==> IsAttribute(params, skip))
     && Aligned(params[1..], Left(params, skip), Unseen(params, unseen)))
  }

  /** Colours are direct or indexed, and written the way the code expects them. */
  predicate PlainColours(params: seq<string>, skip: nat) {
    params == [] ||
    (&& (skip == 0 && Opens(params) ==> StartsColour(params) && (params[1] == "2" || Value(params[1]) == Some(5)))
     && PlainColours(params[1..], Left(params, skip)))
  }

  lemma {:induction false} PlainIsAligned(params: seq<string>, skip: nat)
    requires PlainColours(params, skip)
    ensures Aligned(params, skip, skip)
  {
    if params != [] {
      SmallNumbers();
      assert Left(params, skip) == Unseen(params, skip) && IsSeen(params, skip) == IsAttribute(params, skip);
      PlainIsAligned(params[1..], Left(params, skip));
    }
  }

  /**
   What the attributes so far have done: to faint in the original, to blink in the rewritten
   sequence, and whether the rewritten one has set faint itself. None is "nothing yet".
  */
  datatype Marks = Marks(faint: Option<bool>, blink: Option<bool>, stray: bool)

  const NONE := Marks(None, None, false)

  /** `seen`: the code looks at the attribute by itself. */
  function Marked(m: Marks, p: string, seen: bool): Marks {
    if Value(p) == Some(0) then Marks(Some(false), Some(false), false)
    else if Value(p) == Some(2) then
      if seen && Spelled(p) then m.(faint := Some(true), blink := Some(true)) else m.(faint := Some(true), stray := true)
    else if Value(p) == Some(22) then
      if seen && Spelled(p) then Marks(Some(false), Some(false), false) else m.(faint := Some(false), stray := false)
    else m
  }

  function MarksOf(params: seq<string>, skip: nat, unseen: nat, m: Marks): Marks {
    if params == [] then m
    else
      MarksOf(params[1..], Left(params, skip), Unseen(params, unseen),
              if IsAttribute(params, skip) then Marked(m, params[0], IsSeen(params, unseen)) else m)
  }

  /** Blink has followed faint, and every faint that was left is undone. */
  predicate Settled(m: Marks) { m.faint == m.blink && !m.stray }

  predicate Settles(params: seq<string>) { Settled(MarksOf(params, 0, 0, NONE)) }

  /** The marks describe two readings that began with faint, or blink for it, being `before`. */
  predicate Describes(m: Marks, before: bool, a: Attrs, b: Attrs) {
    && b.rest == a.rest && !a.blink && b.faint == m.stray
    && a.faint == (if m.faint.Some? then m.faint.value else before)
    && b.blink == (if m.blink.Some? then m.blink.value else before)
  }

  /** An attribute that the code leaves as it is. */
  lemma OtherDescribed(p: string, seen: bool, a: Attrs, b: Attrs, m: Marks, before: bool)
    requires Describes(m, before, a, b) && !IsBlink(p) && !(seen && Spelled(p))
    ensures Describes(Marked(m, p, seen), before, Applied(a, p), Applied(b, p))
  {
    if Value(p).Some? {
      assert Applied(b, p).rest == Applied(a, p).rest;
    }
  }

  /** Blink is set or cleared as faint is. */
  lemma SpelledDescribed(a: Attrs, b: Attrs, m: Marks, before: bool)
    requires Describes(m, before, a, b)
    ensures Describes(Marked(m, "2", true), before, Applied(a, "2"), Applied(b, "5"))
    ensures Describes(Marked(m, "22", true), before, Applied(a, "22"), Applied(Applied(b, "22"), "25"))
  {
    SmallNumbers();
  }

  lemma PieceDescribed(p: string, seen: bool, more: seq<string>, a: Attrs, b: Attrs, m: Marks, before: bool)
    returns (b': Attrs)
    requires Describes(m, before, a, b) && !IsBlink(p) && (!Extended(Value(p)) || more == [])
    ensures Describes(Marked(m, p, seen), before, Applied(a, p), b')
    ensures Read(Piece(p, seen && Spelled(p)) + more, 0, b) == Read(more, 0, b')
  {
    SmallNumbers();
    if seen && Spelled(p) {
      SpelledDescribed(a, b, m, before);
      if p == "2" {
        ReadAttribute("5", more, b);
        b' := Applied(b, "5");
      } else {
        assert ["22", "25"] + more == ["22"] + (["25"] + more);
        ReadAttribute("22", ["25"] + more, b);
        ReadAttribute("25", more, Applied(b, "22"));
        b' := Applied(Applied(b, "22"), "25");
      }
    } else {
      OtherDescribed(p, seen, a, b, m, before);
      ReadAttribute(p, more, b);
      b' := Applied(b, p);
    }
  }

  /** A parameter that is no attribute is left as it is. */
  lemma KeptBegins(params: seq<string>, skip: nat, unseen: nat)
    requires params != [] && Aligned(params, skip, unseen) && !IsAttribute(params, skip)
    ensures Kept(params, unseen) == [params[0]] + Kept(params[1..], Unseen(params, unseen))
  {
  }

  lemma KeptCopied(params: seq<string>, skip: nat, unseen: nat, more: seq<string>)
    requires params != [] && Aligned(params, skip, unseen) && !IsAttribute(params, skip)
    requires more == Kept(params[1..], Unseen(params, unseen))
    ensures Left([params[0]] + more, skip) == Left(params, skip)
    ensures !IsAttribute([params[0]] + more, skip) && ([params[0]] + more)[1..] == more
  {
    if skip == 0 {
      KeptBegins(params[1..], Left(params, skip), Unseen(params, unseen));
    }
  }

  lemma {:induction false} KeptDescribed(params: seq<string>, skip: nat, unseen: nat, a: Attrs, b: Attrs, m: Marks, before: bool)
    requires Aligned(params, skip, unseen) && BlinkFree(params, skip) && Describes(m, before, a, b)
    ensures Describes(MarksOf(params, skip, unseen, m), before, Read(params, skip, a), Read(Kept(params, unseen), skip, b))
    decreases |params|
  {
    if params != [] {
      var left, next, seen := Left(params, skip), Unseen(params, unseen), IsSeen(params, unseen);
      var more := Kept(params[1..], next);
      if IsAttribute(params, skip) {
        var b' := PieceDescribed(params[0], seen, more, a, b, m, before);
        KeptDescribed(params[1..], left, next, Applied(a, params[0]), b', Marked(m, params[0], seen), before);
      } else {
        KeptBegins(params, skip, unseen);
        KeptCopied(params, skip, unseen, more);
        var v := Value(params[0]);
        var effect := if skip > 0 then Operand(v) else Colour(v);
        KeptDescribed(params[1..], left, next, a.(rest := a.rest + [effect]), b.(rest := b.rest + [effect]), m, before);
      }
    }
  }

  ghost predicate ShownRight(params: seq<string>, a: Attrs, b: Attrs) {
    Shows(Read(params, 0, a), Read(Kept(params, 0), 0, b))
  }

  /** The two readings, before and after, that between them decide. */
  function Before(faint: bool): (Attrs, Attrs) { (Attrs(faint, false, []), Attrs(false, faint, [])) }

  /** A sequence in which nothing but attributes moves is shown right, whatever came before it, exactly if it settles. */
  lemma ShownRightIff(params: seq<string>)
    requires Aligned(params, 0, 0) && BlinkFree(params, 0)
    ensures (forall a, b | Shows(a, b) :: ShownRight(params, a, b)) <==> Settles(params)
  {
    forall a, b | Shows(a, b)
      ensures Settles(params) ==> ShownRight(params, a, b)
    {
      KeptDescribed(params, 0, 0, a, b, NONE, a.faint);
    }
    var (a1, b1) := Before(true);
    var (a0, b0) := Before(false);
    KeptDescribed(params, 0, 0, a1, b1, NONE, true);
    KeptDescribed(params, 0, 0, a0, b0, NONE, false);
    assert Shows(a1, b1) && Shows(a0, b0);
    assert ShownRight(params, a1, b1) && ShownRight(params, a0, b0) ==> Settles(params);
  }

  lemma {:induction false} UnderstoodIsAligned(params: seq<string>, skip: nat, unseen: nat, m: Marks)
    requires Agrees(params, skip, unseen) && Settled(m)
    ensures Aligned(params, skip, unseen) && Settled(MarksOf(params, skip, unseen, m))
  {
    if params != [] {
      SmallNumbers();
      AgreesOn(params, skip, unseen);
      UnderstoodIsAligned(params[1..], Left(params, skip), Unseen(params, unseen),
                          if IsAttribute(params, skip) then Marked(m, params[0], IsSeen(params, unseen)) else m);
    }
  }

  /** What a reader of the standard makes of a sequence. */
  function Interpreted(body: string, a: Attrs): Attrs { Read(Split(body), 0, a) }

  lemma EmptyIsZero(body: string, a: Attrs)
    ensures Interpreted(body, a) == Read(Params(body), 0, a)
  {
    if body == "" {
      assert "0"[..0] == "" && Number("") == 0 && Value("0") == Some(0) && Value("") == Some(0);
      assert [""] + [] == [""] && ["0"] + [] == ["0"];
      ReadAttribute("", [], a);
      ReadAttribute("0", [], a);
    }
  }

  /** A rewritten sequence is read as the kept parameters. */
  lemma RefacedIsKept(body: string, a: Attrs, b: Attrs)
    ensures Interpreted(body, a) == Read(Params(body), 0, a)
    ensures Interpreted(Refaced(body), b) == Read(Kept(Params(body), 0), 0, b)
  {
    var params := Params(body);
    EmptyIsZero(body, a);
    KeptWords(params, 0);
    KeptNonempty(params);
    SplitJoin(Kept(params, 0));
  }

  /** A sequence whose effect the marks describe. */
  predicate Traced(params: seq<string>) { Aligned(params, 0, 0) && BlinkFree(params, 0) }

  /** A sequence that the code gets right, by understanding all of it or by how it ends. */
  predicate Fits(params: seq<string>) {
    BlinkFree(params, 0) && (Understood(params) || (Aligned(params, 0, 0) && Settles(params)))
  }

  lemma FitsIsTraced(params: seq<string>)
    requires Fits(params)
    ensures Traced(params) && Settles(params)
  {
    if Understood(params) {
      UnderstoodIsAligned(params, 0, 0, NONE);
    }
  }

  /** Such a sequence shows the same, with blink exactly where faint was. */
  lemma RewrittenShows(body: string, a: Attrs, b: Attrs)
    requires Fits(Params(body)) && Shows(a, b)
    ensures Shows(Interpreted(body, a), Interpreted(Refaced(body), b))
  {
    RefacedIsKept(body, a, b);
    FitsIsTraced(Params(body));
    ShownRightIff(Params(body));
    assert ShownRight(Params(body), a, b);
  }

  // Whole streams.

  datatype Item = Shown(text: string) | Sgr(body: string)

  datatype Run = Run(text: string, attrs: Attrs)

  function Rendered(stream: seq<Item>, a: Attrs): seq<Run> {
    if stream == [] then []
    else match stream[0]
      case Shown(t) => [Run(t, a)] + Rendered(stream[1..], a)
      case Sgr(body) => Rendered(stream[1..], Interpreted(body, a))
  }

  function Fed(stream: seq<Item>): seq<Item> {
    if stream == [] then []
    else [if stream[0].Sgr? then Sgr(Refaced(stream[0].body)) else stream[0]] + Fed(stream[1..])
  }

  lemma FedBegins(stream: seq<Item>)
    requires stream != []
    ensures Fed(stream) != [] && Fed(stream)[1..] == Fed(stream[1..])
    ensures Fed(stream)[0] == if stream[0].Sgr? then Sgr(Refaced(stream[0].body)) else stream[0]
  {
  }

  /** The same texts with the same attributes, and blinking exactly where they were faint. */
  ghost predicate Alike(runs: seq<Run>, runs': seq<Run>) {
    |runs'| == |runs| && forall i | 0 <= i < |runs| :: RunAlike(runs[i], runs'[i])
  }

  predicate RunAlike(r: Run, r': Run) { r'.text == r.text && Shows(r.attrs, r'.attrs) }

  lemma AlikeOn(r: Run, runs: seq<Run>, r': Run, runs': seq<Run>)
    ensures Alike([r] + runs, [r'] + runs') <==> RunAlike(r, r') && Alike(runs, runs')
  {
    var x, y := [r] + runs, [r'] + runs';
    if Alike(x, y) {
      assert RunAlike(x[0], y[0]);
      forall i | 0 <= i < |runs| ensures RunAlike(runs[i], runs'[i]) {
        assert RunAlike(x[i + 1], y[i + 1]);
      }
    }
  }

  predicate AllTraced(stream: seq<Item>) {
    stream == [] || ((stream[0].Sgr? ==> Traced(Params(stream[0].body))) && AllTraced(stream[1..]))
  }

  function MarksAfter(item: Item, m: Marks): Marks {
    if item.Sgr? then MarksOf(Params(item.body), 0, 0, m) else m
  }

  /** The marks are settled wherever there is a text. */
  predicate SettledAtTexts(stream: seq<Item>, m: Marks) {
    stream == [] ||
    ((stream[0].Shown? ==> Settled(m)) && SettledAtTexts(stream[1..], MarksAfter(stream[0], m)))
  }

  lemma SequenceDescribed(body: string, a: Attrs, b: Attrs, m: Marks, before: bool)
    requires Traced(Params(body)) && Describes(m, before, a, b)
    ensures Describes(MarksAfter(Sgr(body), m), before, Interpreted(body, a), Interpreted(Refaced(body), b))
  {
    RefacedIsKept(body, a, b);
    KeptDescribed(Params(body), 0, 0, a, b, m, before);
  }

  lemma {:induction false} SettledShows(stream: seq<Item>, a: Attrs, b: Attrs, m: Marks, before: bool)
    requires AllTraced(stream) && SettledAtTexts(stream, m) && Describes(m, before, a, b)
    ensures Alike(Rendered(stream, a), Rendered(Fed(stream), b))
    decreases |stream|
  {
    if stream != [] {
      FedBegins(stream);
      match stream[0]
      case Shown(t) =>
        SettledShows(stream[1..], a, b, m, before);
        AlikeOn(Run(t, a), Rendered(stream[1..], a), Run(t, b), Rendered(Fed(stream[1..]), b));
      case Sgr(body) =>
        SequenceDescribed(body, a, b, m, before);
        SettledShows(stream[1..], Interpreted(body, a), Interpreted(Refaced(body), b), MarksAfter(stream[0], m), before);
    }
  }

  /** Two readings that began differently tell whether the marks are settled. */
  lemma {:induction false} ShowsSettled(stream: seq<Item>, a1: Attrs, b1: Attrs, a0: Attrs, b0: Attrs, m: Marks)
    requires AllTraced(stream) && Describes(m, true, a1, b1) && Describes(m, false, a0, b0)
    requires Alike(Rendered(stream, a1), Rendered(Fed(stream), b1))
    requires Alike(Rendered(stream, a0), Rendered(Fed(stream), b0))
    ensures SettledAtTexts(stream, m)
    decreases |stream|
  {
    if stream != [] {
      FedBegins(stream);
      match stream[0]
      case Shown(t) =>
        AlikeOn(Run(t, a1), Rendered(stream[1..], a1), Run(t, b1), Rendered(Fed(stream[1..]), b1));
        AlikeOn(Run(t, a0), Rendered(stream[1..], a0), Run(t, b0), Rendered(Fed(stream[1..]), b0));
        ShowsSettled(stream[1..], a1, b1, a0, b0, m);
      case Sgr(body) =>
        SequenceDescribed(body, a1, b1, m, true);
        SequenceDescribed(body, a0, b0, m, false);
        ShowsSettled(stream[1..], Interpreted(body, a1), Interpreted(Refaced(body), b1),
                     Interpreted(body, a0), Interpreted(Refaced(body), b0), MarksAfter(stream[0], m));
    }
  }

  ghost predicate StreamShownRight(stream: seq<Item>, a: Attrs, b: Attrs) {
    Alike(Rendered(stream, a), Rendered(Fed(stream), b))
  }

  /**
   A stream whose sequences move nothing but attributes is shown right, whatever came before it,
   exactly if the marks are settled wherever there is a text. What is not settled in between, or
   at the end, does not matter.
  */
  lemma StreamShownIff(stream: seq<Item>)
    requires AllTraced(stream)
    ensures (forall a, b | Shows(a, b) :: StreamShownRight(stream, a, b)) <==> SettledAtTexts(stream, NONE)
  {
    if SettledAtTexts(stream, NONE) {
      forall a, b | Shows(a, b) ensures StreamShownRight(stream, a, b) {
        SettledShows(stream, a, b, NONE, a.faint);
      }
    }
    if forall a, b | Shows(a, b) :: StreamShownRight(stream, a, b) {
      var (a1, b1) := Before(true);
      var (a0, b0) := Before(false);
      assert StreamShownRight(stream, a1, b1) && StreamShownRight(stream, a0, b0);
      ShowsSettled(stream, a1, b1, a0, b0, NONE);
    }
  }

  predicate Plays(stream: seq<Item>) {
    stream == [] || ((stream[0].Sgr? ==> Fits(Params(stream[0].body))) && Plays(stream[1..]))
  }

  /** The second marks on top of the first. */
  function Over(m: Marks, d: Marks): Marks {
    Marks(if d.faint.Some? then d.faint else m.faint, if d.blink.Some? then d.blink else m.blink, d.stray)
  }

  lemma {:induction false} MarksOver(params: seq<string>, skip: nat, unseen: nat, m: Marks, d: Marks)
    ensures MarksOf(params, skip, unseen, Over(m, d)) == Over(m, MarksOf(params, skip, unseen, d))
  {
    if params != [] {
      MarksOver(params[1..], Left(params, skip), Unseen(params, unseen), m,
                if IsAttribute(params, skip) then Marked(d, params[0], IsSeen(params, unseen)) else d);
    }
  }

  lemma {:induction false} PlaysIsSettled(stream: seq<Item>, m: Marks)
    requires Plays(stream) && Settled(m)
    ensures AllTraced(stream) && SettledAtTexts(stream, m)
  {
    if stream != [] {
      if stream[0].Sgr? {
        FitsIsTraced(Params(stream[0].body));
        MarksOver(Params(stream[0].body), 0, 0, m, NONE);
        assert Over(m, NONE) == m;
      }
      PlaysIsSettled(stream[1..], MarksAfter(stream[0], m));
    }
  }

  /** A stream of sequences that fit is shown right at every text. */
  lemma StreamShows(stream: seq<Item>, a: Attrs, b: Attrs, i: nat)
    requires Plays(stream) && Shows(a, b) && i < |Rendered(stream, a)|
    ensures |Rendered(Fed(stream), b)| == |Rendered(stream, a)|
    ensures Rendered(Fed(stream), b)[i].text == Rendered(stream, a)[i].text
    ensures Shows(Rendered(stream, a)[i].attrs, Rendered(Fed(stream), b)[i].attrs)
  {
    PlaysIsSettled(stream, NONE);
    StreamShownIff(stream);
    assert StreamShownRight(stream, a, b);
    assert RunAlike(Rendered(stream, a)[i], Rendered(Fed(stream), b)[i]);
  }

  // Spelling.

  /** As programs write them: the codes that matter without leading zeros, colours direct or indexed. */
  predicate Plain(params: seq<string>, skip: nat) {
    params == [] ||
    (&& (skip == 0 ==> !Opens(params) || (StartsColour(params) && (params[1] == "2" || Value(params[1]) == Some(5))))
     && (IsAttribute(params, skip) && IsFaint(params[0]) ==> Spelled(params[0]))
     && Plain(params[1..], Left(params, skip)))
  }

  lemma {:induction false} PlainIsUnderstood(params: seq<string>, skip: nat)
    requires Plain(params, skip)
    ensures Agrees(params, skip, skip)
  {
    if params != [] {
      SmallNumbers();
      assert Left(params, skip) == Unseen(params, skip);
      PlainIsUnderstood(params[1..], Left(params, skip));
      AgreesOn(params, skip, skip);
    }
  }

  /** A parameter that stands alone is shown right exactly if faint is spelled without leading zeros. */
  lemma OneParameter(p: string)
    requires !IsBlink(p)
    ensures (forall a, b | Shows(a, b) :: Shows(Read([p], 0, a), Read(Kept([p], 0), 0, b))) <==> (IsFaint(p) ==> Spelled(p))
  {
    SmallNumbers();
    if IsFaint(p) && !Spelled(p) {
      assert Kept([p], 0) == [p];
      var a, b := Attrs(true, false, []), Attrs(false, true, []);
      assert Shows(a, b);
      ReadAttribute(p, [], a);
      ReadAttribute(p, [], b);
      var c, d := Attrs(false, false, []), Attrs(false, false, []);
      assert Shows(c, d);
      ReadAttribute(p, [], c);
      ReadAttribute(p, [], d);
    } else {
      KeptAlone(p);
      forall a, b | Shows(a, b) ensures Shows(Read([p], 0, a), Read(Kept([p], 0), 0, b)) {
        var b' := PieceShows(p, [], a, b);
        ReadAttribute(p, [], a);
        assert Piece(p, IsFaint(p)) + [] == Kept([p], 0);
      }
    }
  }

  lemma KeptAlone(p: string)
    ensures Kept([p], 0) == Piece(p, Spelled(p))
    ensures Spelled(p) ==> IsFaint(p)
  {
    SmallNumbers();
    assert [p][1..] == [];
  }

  /** Faint right after a colour whose selector is neither 2 nor 5 is lost. */
  lemma SelectorWithoutOperands(selector: string, a: Attrs)
    requires Value(selector) !in {Some(2), Some(5)}
    ensures Kept(["38", selector, "2"], 0) == ["38", selector, "2"]
    ensures !Understood(["38", selector, "2"])
    ensures Read(["38", selector, "2"], 0, a).faint
  {
    SmallNumbers();
    var params := ["38", selector, "2"];
    assert params[1..] == [selector, "2"] && params[1..][1..] == ["2"];
    assert Kept(["2"], 1) == ["2"] && Kept([selector, "2"], 2) == [selector, "2"];
    assert Attributes(["2"], 0)[0] && !Seen(["2"], 1)[0];
    assert Attributes(params[1..], 1)[1] && !Seen(params[1..], 2)[1];
    assert Attributes(params, 0)[2] && !Seen(params, 0)[2];
    var v, b := Colour(Some(38)), Operand(Value(selector));
    assert Read(params, 0, a) == Read(params[1..], 1, a.(rest := a.rest + [v]));
    var a' := a.(rest := a.rest + [v]);
    assert Read([selector, "2"], 1, a') == Read(["2"], 0, a'.(rest := a'.rest + [b]));
    ReadAttribute("2", [], a'.(rest := a'.rest + [b]));
    assert ["2"] + [] == ["2"];
  }
}

/** ASCII digits, and whitespace as Python's strip() and rstrip() treat it (ASCII only). */
module Text {

  predicate IsSpace(c: char) { c == ' ' || '\t' <= c <= '\r' || '\U{1C}' <= c <= '\U{1F}' }

  predicate IsDigit(c: char) { '0' <= c <= '9' }

  function TrimLeft(s: string): (t: string)
    ensures |t| <= |s| && (t != "" ==> !IsSpace(t[0]))
  {
    if s != "" && IsSpace(s[0]) then TrimLeft(s[1..]) else s
  }

  function TrimRight(s: string): string {
    if s != "" && IsSpace(s[|s| - 1]) then TrimRight(s[..|s| - 1]) else s
  }

  function Strip(s: string): string { TrimRight(TrimLeft(s)) }

  lemma {:induction false} TrimRightKeepsHead(s: string)
    requires s != "" && !IsSpace(s[0])
    ensures TrimRight(s) != "" && TrimRight(s)[0] == s[0]
  {
    if IsSpace(s[|s| - 1]) {
      TrimRightKeepsHead(s[..|s| - 1]);
    }
  }

  /** The codes of the characters: tab to carriage return, the four separators and the blank. */
  lemma SpaceCodes(c: char)
    ensures IsSpace(c) <==> 9 <= c as int <= 13 || 28 <= c as int <= 32
    ensures IsDigit(c) <==> 48 <= c as int <= 57
  {
  }

  predicate OnlySpace(s: string) { forall i | 0 <= i < |s| :: 9 <= s[i] as int <= 13 || 28 <= s[i] as int <= 32 }

  lemma {:induction false} StripsToNothing(s: string)
    ensures Strip(s) == "" <==> OnlySpace(s)
  {
    if s != "" {
      SpaceCodes(s[0]);
      if IsSpace(s[0]) {
        StripsToNothing(s[1..]);
        assert forall i | 0 <= i < |s[1..]| :: s[1..][i] == s[i + 1];
        assert forall i | 0 < i < |s| :: s[i] == s[1..][i - 1];
      } else {
        TrimRightKeepsHead(s);
      }
    }
  }
}

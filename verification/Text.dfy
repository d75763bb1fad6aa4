/** Go's strings.TrimSpace and friends, over code points. Only the ASCII white space
    characters count as space. */
module Text {

  predicate IsSpace(c: char) {
    c == ' ' || c == '\t' || c == '\n' || c == '\r' || c == '\U{000B}' || c == '\U{000C}'
  }

  function TrimLeft(s: string): (r: string)
    ensures |r| <= |s| && (r == [] || !IsSpace(r[0]))
  {
    if |s| > 0 && IsSpace(s[0]) then TrimLeft(s[1..]) else s
  }

  function TrimRight(s: string): (r: string)
    ensures |r| <= |s| && (r == [] || (!IsSpace(r[|r| - 1]) && r[0] == s[0]))
  {
    if |s| > 0 && IsSpace(s[|s| - 1]) then TrimRight(s[..|s| - 1]) else s
  }

  function Trim(s: string): (r: string)
    ensures Trimmed(r)
    ensures |r| <= |s|
  {
    TrimRight(TrimLeft(s))
  }

  predicate Trimmed(s: string) {
    |s| == 0 || (!IsSpace(s[0]) && !IsSpace(s[|s| - 1]))
  }

  /** Trimming changes nothing exactly when there is no space at either end. */
  lemma TrimFixpoint(s: string)
    ensures Trim(s) == s <==> Trimmed(s)
  {}

  /** White space alone, character by character. */
  predicate Blank(s: string) {
    forall i :: 0 <= i < |s| ==> s[i] in " \t\n\r\U{000B}\U{000C}"
  }

  lemma {:induction false} TrimLeftCuts(s: string) returns (blanks: string)
    ensures Blank(blanks) && s == blanks + TrimLeft(s)
    decreases |s|
  {
    blanks := "";
    if |s| > 0 && IsSpace(s[0]) {
      var rest := TrimLeftCuts(s[1..]);
      blanks := [s[0]] + rest;
      assert s == [s[0]] + s[1..];
    } else {
      assert s == "" + s;
    }
  }

  lemma {:induction false} TrimRightCuts(s: string) returns (blanks: string)
    ensures Blank(blanks) && s == TrimRight(s) + blanks
    decreases |s|
  {
    blanks := "";
    if |s| > 0 && IsSpace(s[|s| - 1]) {
      var rest := TrimRightCuts(s[..|s| - 1]);
      blanks := rest + [s[|s| - 1]];
      assert s == s[..|s| - 1] + [s[|s| - 1]];
    } else {
      assert s == s + "";
    }
  }

  /** Trimming cuts white space off both ends, all of it. */
  lemma TrimIsMiddle(s: string) returns (before: string, after: string)
    ensures Blank(before) && Blank(after) && s == before + Trim(s) + after && Trimmed(Trim(s))
  {
    before := TrimLeftCuts(s);
    after := TrimRightCuts(TrimLeft(s));
  }
}

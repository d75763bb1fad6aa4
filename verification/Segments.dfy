/** Go's strings.Split and strings.Join for a one-character separator. */
module Segments {

  predicate Free(s: string, sep: char) {
    forall i :: 0 <= i < |s| ==> s[i] != sep
  }

  /** One more character in front: a separator starts a new first segment. */
  function Prepended(c: char, parts: seq<string>, sep: char): (r: seq<string>)
    requires |parts| > 0
    ensures |r| > 0
  {
    if c == sep then [""] + parts else parts[0 := [c] + parts[0]]
  }

  function Split(s: string, sep: char): (parts: seq<string>)
    ensures |parts| > 0
  {
    if |s| == 0 then [""] else Prepended(s[0], Split(s[1..], sep), sep)
  }

  function Join(parts: seq<string>, sep: char): string {
    if |parts| == 0 then "" else if |parts| == 1 then parts[0] else parts[0] + [sep] + Join(parts[1..], sep)
  }

  lemma JoinPrepended(c: char, parts: seq<string>, sep: char)
    requires |parts| > 0
    ensures Join(Prepended(c, parts, sep), sep) == [c] + Join(parts, sep)
  {
    var r := Prepended(c, parts, sep);
    if c == sep {
      assert r[1..] == parts;
    } else {
      assert r[1..] == parts[1..];
    }
  }

  /** Joining what was split gives the text back. */
  lemma {:induction false} JoinSplit(s: string, sep: char)
    ensures Join(Split(s, sep), sep) == s
    decreases |s|
  {
    if |s| > 0 {
      JoinSplit(s[1..], sep);
      JoinPrepended(s[0], Split(s[1..], sep), sep);
      assert s == [s[0]] + s[1..];
    }
  }

  lemma {:induction false} SplitOfFree(s: string, sep: char)
    requires Free(s, sep)
    ensures Split(s, sep) == [s]
    decreases |s|
  {
    if |s| > 0 {
      SplitOfFree(s[1..], sep);
      assert s == [s[0]] + s[1..];
    }
  }

  lemma PrependedConcat(c: char, a: seq<string>, b: seq<string>, sep: char)
    requires |a| > 0
    ensures Prepended(c, a + b, sep) == Prepended(c, a, sep) + b
  {
    if c == sep {
      assert [""] + (a + b) == [""] + a + b;
    } else {
      assert (a + b)[0 := [c] + a[0]] == a[0 := [c] + a[0]] + b;
    }
  }

  /** Splitting goes segment by segment. */
  lemma {:induction false} SplitConcat(a: string, b: string, sep: char)
    ensures Split(a + [sep] + b, sep) == Split(a, sep) + Split(b, sep)
    decreases |a|
  {
    var s := a + [sep] + b;
    if |a| == 0 {
      assert s[1..] == b;
    } else {
      var tail := a[1..] + [sep] + b;
      assert s[1..] == tail && s[0] == a[0];
      SplitConcat(a[1..], b, sep);
      PrependedConcat(a[0], Split(a[1..], sep), Split(b, sep), sep);
    }
  }

  /** Splitting what was joined gives the segments back, if they are free of the separator. */
  lemma {:induction false} SplitJoin(parts: seq<string>, sep: char)
    requires |parts| > 0 && forall i :: 0 <= i < |parts| ==> Free(parts[i], sep)
    ensures Split(Join(parts, sep), sep) == parts
    decreases |parts|
  {
    SplitOfFree(parts[0], sep);
    if |parts| > 1 {
      SplitJoin(parts[1..], sep);
      SplitConcat(parts[0], Join(parts[1..], sep), sep);
      assert parts == [parts[0]] + parts[1..];
    }
  }
}

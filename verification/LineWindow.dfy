/** Greedy selection of the newest lines under a byte budget, once over items some of which have no
    line (the message trimmer) and once over the lines themselves (the renderer). The text of an
    item is given by a function `line`. */
module LineWindow {
  import opened Options
  import opened Utf8

  const MAX_ITEMS: nat := 80
  const MAX_BYTES: nat := 12000
  const NEWLINE: byte := 0x0A

  function LinesOf<M>(ms: seq<M>, line: M -> Bytes): (lines: seq<Bytes>)
    ensures |lines| == |ms| && forall i :: 0 <= i < |ms| ==> lines[i] == line(ms[i])
  {
    seq(|ms|, i requires 0 <= i < |ms| => line(ms[i]))
  }

  ghost predicate IsSuffix<M>(s: seq<M>, t: seq<M>) {
    |s| <= |t| && forall i :: 0 <= i < |s| ==> s[i] == t[|t| - |s| + i]
  }

  lemma SuffixOfSuffix<M>(s: seq<M>, t: seq<M>, u: seq<M>)
    requires IsSuffix(s, t) && IsSuffix(t, u)
    ensures IsSuffix(s, u)
  {}

  lemma SuffixLast<M>(s: seq<M>, t: seq<M>)
    requires IsSuffix(s, t) && |s| > 0
    ensures |t| > 0 && s[|s| - 1] == t[|t| - 1]
  {}

  // ---------------------------------------------------------------- weight

  function NonEmpty(lines: seq<Bytes>): seq<Bytes> {
    if lines == [] then []
    else
      var rest := NonEmpty(lines[1..]);
      if lines[0] == [] then rest else [lines[0]] + rest
  }

  /** strings.Join with newlines. */
  function Joined(lines: seq<Bytes>): Bytes {
    if lines == [] then [] else if |lines| == 1 then lines[0] else lines[0] + [NEWLINE] + Joined(lines[1..])
  }

  /** What the non-empty lines weigh when joined, as both loops add it up. */
  function Weight(lines: seq<Bytes>): nat {
    if lines == [] then 0 else Heavier(Weight(lines[1..]), |lines[0]|)
  }

  function Heavier(total: nat, lineLength: nat): nat {
    if lineLength == 0 then total else total + lineLength + if total > 0 then 1 else 0
  }

  lemma {:induction false} WeightIsJoinedLength(lines: seq<Bytes>)
    ensures Weight(lines) == |Joined(NonEmpty(lines))|
    ensures Weight(lines) == 0 <==> NonEmpty(lines) == []
    decreases |lines|
  {
    if lines != [] {
      WeightIsJoinedLength(lines[1..]);
      var rest := NonEmpty(lines[1..]);
      assert lines[0] != [] ==> ([lines[0]] + rest)[1..] == rest;
    }
  }

  ghost predicate AllFull(lines: seq<Bytes>) {
    forall i :: 0 <= i < |lines| ==> lines[i] != []
  }

  lemma {:induction false} NonEmptyIsFull(lines: seq<Bytes>)
    ensures AllFull(NonEmpty(lines)) && forall l :: l in NonEmpty(lines) ==> l in lines
    ensures AllFull(lines) ==> NonEmpty(lines) == lines
    decreases |lines|
  {
    if lines != [] {
      NonEmptyIsFull(lines[1..]);
      assert lines == [lines[0]] + lines[1..];
    }
  }

  lemma WeightOfFull(lines: seq<Bytes>)
    requires AllFull(lines)
    ensures Weight(lines) == |Joined(lines)|
  {
    NonEmptyIsFull(lines);
    WeightIsJoinedLength(lines);
  }

  predicate Fits(lines: seq<Bytes>) {
    Weight(lines) <= MAX_BYTES
  }

  lemma {:induction false} ShorterIsLighter(lines: seq<Bytes>, k: nat)
    requires k <= |lines|
    ensures Weight(lines[k..]) <= Weight(lines)
    decreases k
  {
    if k > 0 {
      ShorterIsLighter(lines[1..], k - 1);
      assert lines[1..][k - 1..] == lines[k..];
    }
  }

  lemma FitsFurther(lines: seq<Bytes>, k: nat, further: nat)
    requires k <= further <= |lines| && Fits(lines[k..])
    ensures Fits(lines[further..])
  {
    ShorterIsLighter(lines[k..], further - k);
    assert lines[k..][further - k..] == lines[further..];
  }

  /** Where the longest suffix that fits starts. */
  function LongestFit(lines: seq<Bytes>): (start: nat)
    ensures start <= |lines|
  {
    if Fits(lines) then 0 else 1 + LongestFit(lines[1..])
  }

  lemma {:induction false} LongestFitMeaning(lines: seq<Bytes>)
    ensures var start := LongestFit(lines);
      Fits(lines[start..]) && (start > 0 ==> !Fits(lines[start - 1..]))
    decreases |lines|
  {
    if Fits(lines) {
      assert lines[0..] == lines;
    } else {
      LongestFitMeaning(lines[1..]);
      var rest := LongestFit(lines[1..]);
      assert lines[1..][rest..] == lines[rest + 1..];
      if rest > 0 {
        assert lines[1..][rest - 1..] == lines[rest..];
      } else {
        assert lines[0..] == lines;
      }
    }
  }

  /** A start where the suffix fits, and the one from a position earlier does not, is the longest. */
  lemma FitIsUnique(lines: seq<Bytes>, start: nat)
    requires start <= |lines| && Fits(lines[start..]) && (start > 0 ==> !Fits(lines[start - 1..]))
    ensures LongestFit(lines) == start
  {
    var longest := LongestFit(lines);
    LongestFitMeaning(lines);
    if longest < start {
      FitsFurther(lines, longest, start - 1);
    }
    if start < longest {
      FitsFurther(lines, start, longest - 1);
    }
  }

  lemma {:induction false} FilteredMembers<M>(ms: seq<M>, keep: M -> bool)
    ensures forall m :: m in Filtered(ms, keep) <==> m in ms && keep(m)
    ensures |Filtered(ms, keep)| <= |ms|
    decreases |ms|
  {
    if ms != [] {
      FilteredMembers(ms[1..], keep);
      assert ms == [ms[0]] + ms[1..];
    }
  }

  lemma {:induction false} FilteredIsLighter<M>(ms: seq<M>, keep: M -> bool, line: M -> Bytes)
    ensures Weight(LinesOf(Filtered(ms, keep), line)) <= Weight(LinesOf(ms, line))
    decreases |ms|
  {
    if ms != [] {
      FilteredIsLighter(ms[1..], keep, line);
      assert LinesOf(ms, line)[1..] == LinesOf(ms[1..], line);
      var rest := Filtered(ms[1..], keep);
      assert LinesOf([ms[0]] + rest, line)[1..] == LinesOf(rest, line);
    }
  }

  // ---------------------------------------------------------------- the two selections

  /** trimPublicBatchByChars: the longest suffix that fits, or the last item alone when its line
      does not fit by itself. */
  function TrimmedItems<M>(ms: seq<M>, line: M -> Bytes): seq<M> {
    var start := LongestFit(LinesOf(ms, line));
    if 0 < |ms| == start then ms[|ms| - 1..] else ms[start..]
  }

  lemma LinesOfRest<M>(ms: seq<M>, line: M -> Bytes, k: nat)
    requires k <= |ms|
    ensures LinesOf(ms[k..], line) == LinesOf(ms, line)[k..]
  {}

  /** What is kept is never nothing of something, and it fits or is a single item too long. */
  lemma TrimmedItemsFit<M>(ms: seq<M>, line: M -> Bytes)
    ensures var kept := TrimmedItems(ms, line);
      && IsSuffix(kept, ms) && (|kept| == 0 <==> |ms| == 0)
      && (Fits(LinesOf(kept, line)) || (|kept| == 1 && |line(kept[0])| > MAX_BYTES))
      && (Fits(LinesOf(kept, line)) && |kept| < |ms| ==> !Fits(LinesOf(ms[|ms| - |kept| - 1..], line)))
  {
    var kept, lines := TrimmedItems(ms, line), LinesOf(ms, line);
    var start := LongestFit(lines);
    LongestFitMeaning(lines);
    if start == |ms| > 0 {
      WeightOfOne(lines[start - 1]);
      assert lines[start - 1..] == [lines[start - 1]];
      assert LinesOf(kept, line) == [lines[start - 1]];
    } else {
      LinesOfRest(ms, line, start);
      if start > 0 {
        LinesOfRest(ms, line, start - 1);
      }
    }
  }

  lemma WeightOfOne(l: Bytes)
    ensures Weight([l]) == |l|
  {
    var lines: seq<Bytes> := [l];
    assert lines[1..] == [];
  }

  /** The trimmed suffix of the newest items: what one batch may hold. */
  function Window<M>(ms: seq<M>, line: M -> Bytes): seq<M> {
    TrimmedItems(LastN(ms, MAX_ITEMS), line)
  }

  lemma WindowFits<M>(ms: seq<M>, line: M -> Bytes)
    ensures var kept := Window(ms, line);
      && IsSuffix(kept, ms) && |kept| <= MAX_ITEMS && (|kept| == 0 <==> |ms| == 0)
      && (Fits(LinesOf(kept, line)) || (|kept| == 1 && |line(kept[0])| > MAX_BYTES))
  {
    var recent := LastN(ms, MAX_ITEMS);
    TrimmedItemsFit(recent, line);
    SuffixOfLast(TrimmedItems(recent, line), ms, MAX_ITEMS);
  }

  /** From position `k` on there are as many of the newest 80 items as weigh at most 12000 together, or
      only the newest, which weighs more. */
  ghost predicate StartsWindow<M>(ms: seq<M>, k: nat, line: M -> Bytes)
    requires k <= |ms|
  {
    && |ms| - k <= 80 && (k == |ms| ==> k == 0)
    && (Weight(LinesOf(ms[k..], line)) <= 12000 || k + 1 == |ms|)
    && (k > 0 ==> |ms| - k == 80 || Weight(LinesOf(ms[k - 1..], line)) > 12000)
  }

  lemma WindowIs<M>(ms: seq<M>, line: M -> Bytes) returns (k: nat)
    ensures k <= |ms| && Window(ms, line) == ms[k..] && StartsWindow(ms, k, line)
  {
    var kept := Window(ms, line);
    WindowFits(ms, line);
    SuffixIsRest(kept, ms);
    k := |ms| - |kept|;
    if k > 0 {
      WindowIsLongest(ms, k, line);
    }
  }

  lemma WindowIsLongest<M>(ms: seq<M>, k: nat, line: M -> Bytes)
    requires 0 < k < |ms| && Window(ms, line) == ms[k..]
    ensures |ms| - k == 80 || !Fits(LinesOf(ms[k - 1..], line))
  {
    var recent := LastN(ms, MAX_ITEMS);
    TrimmedItemsFit(recent, line);
    if |ms| - k < |recent| {
      RecentRest(ms, recent, |ms| - k + 1);
      if !Fits(LinesOf(ms[k..], line)) {
        HeavierStill(ms, k, line);
      }
    }
  }

  lemma SuffixIsRest<M>(s: seq<M>, t: seq<M>)
    requires IsSuffix(s, t)
    ensures s == t[|t| - |s|..]
  {}

  lemma RecentRest<M>(ms: seq<M>, recent: seq<M>, n: nat)
    requires recent == LastN(ms, MAX_ITEMS) && n <= |recent|
    ensures recent[|recent| - n..] == ms[|ms| - n..]
  {}

  lemma HeavierStill<M>(ms: seq<M>, k: nat, line: M -> Bytes)
    requires 0 < k < |ms| && !Fits(LinesOf(ms[k..], line))
    ensures !Fits(LinesOf(ms[k - 1..], line))
  {
    var lines := LinesOf(ms[k - 1..], line);
    ShorterIsLighter(lines, 1);
    assert lines[1..] == LinesOf(ms[k..], line);
  }

  lemma WindowOfFitting<M>(ms: seq<M>, line: M -> Bytes)
    requires |ms| <= MAX_ITEMS && Fits(LinesOf(ms, line))
    ensures Window(ms, line) == ms
  {}

  lemma SuffixOfLast<M>(s: seq<M>, ms: seq<M>, n: nat)
    requires IsSuffix(s, LastN(ms, n))
    ensures IsSuffix(s, ms)
  {}

  /** The newest lines that fit, or what `cut` leaves of the newest one when it does not fit by
      itself. */
  function Newest(lines: seq<Bytes>, cut: Bytes -> Bytes): seq<Bytes> {
    var start := LongestFit(lines);
    if 0 < |lines| == start then
      var left := cut(lines[start - 1]);
      if |left| == 0 then [] else [left]
    else lines[start..]
  }

  lemma NewestFits(lines: seq<Bytes>, cut: Bytes -> Bytes)
    requires AllFull(lines) && (|lines| > 0 ==> |cut(lines[|lines| - 1])| <= MAX_BYTES)
    ensures |Joined(Newest(lines, cut))| <= MAX_BYTES
  {
    var start := LongestFit(lines);
    LongestFitMeaning(lines);
    if start < |lines| {
      WeightOfFull(lines[start..]);
    }
  }

  lemma NewestIsLongest(lines: seq<Bytes>, cut: Bytes -> Bytes, start: nat)
    requires AllFull(lines) && start <= |lines| && |Joined(lines[start..])| <= MAX_BYTES
    requires start > 0 ==> |Joined(lines[start - 1..])| > MAX_BYTES
    requires |lines| > 0 ==> |cut(lines[|lines| - 1])| > 0
    ensures Newest(lines, cut) == if start == |lines| > 0 then [cut(lines[|lines| - 1])] else lines[start..]
  {
    WeightOfFull(lines[start..]);
    if start > 0 {
      WeightOfFull(lines[start - 1..]);
    }
    FitIsUnique(lines, start);
  }

  lemma NewestOfTooLong(l: Bytes, cut: Bytes -> Bytes)
    requires |l| > MAX_BYTES && |cut(l)| > 0
    ensures Newest([l], cut) == [cut(l)]
  {
    WeightOfOne(l);
    FitIsUnique([l], 1);
  }

  // ---------------------------------------------------------------- rendering

  function RecentLines<M>(history: seq<M>, line: M -> Bytes): seq<Bytes> {
    NonEmpty(LinesOf(LastN(history, MAX_ITEMS), line))
  }

  /** buildHistoryLines. */
  function HistoryLines<M>(history: seq<M>, line: M -> Bytes, cut: Bytes -> Bytes): seq<Bytes> {
    Newest(RecentLines(history, line), cut)
  }

  lemma FittingIsWhole<M>(shown: seq<M>, line: M -> Bytes, cut: Bytes -> Bytes)
    requires |shown| <= MAX_ITEMS && Fits(LinesOf(shown, line)) && AllFull(LinesOf(shown, line))
    ensures HistoryLines(shown, line, cut) == LinesOf(shown, line)
  {
    NonEmptyIsFull(LinesOf(shown, line));
  }

  lemma TooLongIsCut<M>(m: M, line: M -> Bytes, cut: Bytes -> Bytes)
    requires |line(m)| > MAX_BYTES && |cut(line(m))| > 0
    ensures HistoryLines([m], line, cut) == [cut(line(m))]
  {
    var lines: seq<Bytes> := [line(m)];
    assert LinesOf([m], line) == lines;
    assert lines[1..] == [];
    NonEmptyIsFull(lines);
    NewestOfTooLong(line(m), cut);
  }

  /** What is rendered never weighs more than the budget. */
  lemma HistoryWithinBudget<M>(history: seq<M>, line: M -> Bytes, cut: Bytes -> Bytes)
    requires forall l :: |cut(l)| <= MAX_BYTES
    ensures |Joined(HistoryLines(history, line, cut))| <= MAX_BYTES
  {
    NonEmptyIsFull(LinesOf(LastN(history, MAX_ITEMS), line));
    NewestFits(RecentLines(history, line), cut);
  }

  // ---------------------------------------------------------------- whole runes

  ghost predicate AllValid(lines: seq<Bytes>) {
    forall i :: 0 <= i < |lines| ==> Valid(lines[i])
  }

  lemma {:induction false} JoinedValid(lines: seq<Bytes>)
    requires AllValid(lines)
    ensures Valid(Joined(lines))
    decreases |lines|
  {
    if |lines| > 1 {
      JoinedValid(lines[1..]);
      AsciiValid([NEWLINE]);
      ValidConcat(lines[0], [NEWLINE]);
      ValidConcat(lines[0] + [NEWLINE], Joined(lines[1..]));
    }
  }

  lemma NewestValid(lines: seq<Bytes>, cut: Bytes -> Bytes)
    requires AllValid(lines) && (|lines| > 0 ==> Valid(cut(lines[|lines| - 1])))
    ensures AllValid(Newest(lines, cut))
  {}

  /** What is rendered of valid lines is valid, if cutting keeps text valid. */
  lemma HistoryLinesValid<M>(history: seq<M>, line: M -> Bytes, cut: Bytes -> Bytes)
    requires forall i :: 0 <= i < |history| ==> Valid(line(history[i]))
    requires forall l :: Valid(l) ==> Valid(cut(l))
    ensures Valid(Joined(HistoryLines(history, line, cut)))
  {
    var all, recent := LinesOf(LastN(history, MAX_ITEMS), line), RecentLines(history, line);
    NonEmptyIsFull(all);
    forall i | 0 <= i < |recent| ensures Valid(recent[i]) {
      assert recent[i] in all;
    }
    NewestValid(recent, cut);
    JoinedValid(HistoryLines(history, line, cut));
  }

  // ---------------------------------------------------------------- the loops

  /** The limits of a batch: first on the number of items, then on their bytes. */
  method LimitItems<M>(ms: seq<M>, line: M -> Bytes) returns (kept: seq<M>)
    ensures kept == Window(ms, line)
  {
    var recent := ms;
    if |ms| > MAX_ITEMS {
      recent := ms[|ms| - MAX_ITEMS..];
    }
    kept := TrimItems(recent, line);
  }

  method TrimItems<M>(ms: seq<M>, line: M -> Bytes) returns (kept: seq<M>)
    ensures kept == TrimmedItems(ms, line)
  {
    if |ms| == 0 {
      return [];
    }
    ghost var lines := LinesOf(ms, line);
    assert lines[|ms|..] == [];
    var total, start := 0, |ms|;
    var index := |ms| - 1;
    while index >= 0
      invariant -1 <= index < |ms| && start == index + 1
      invariant total == Weight(lines[start..]) <= MAX_BYTES
    {
      assert lines[index..][1..] == lines[start..];
      var next := Heavier(total, |line(ms[index])|);
      assert next == Weight(lines[index..]);
      if next > MAX_BYTES {
        FitIsUnique(lines, start);
        if start == |ms| {
          start := index;
        }
        return ms[start..];
      }
      start, total := index, next;
      index := index - 1;
    }
    FitIsUnique(lines, 0);
    kept := ms[start..];
  }

  function Reversed<T>(s: seq<T>): (r: seq<T>)
    ensures |r| == |s| && forall i :: 0 <= i < |s| ==> r[i] == s[|s| - 1 - i]
  {
    seq(|s|, i requires 0 <= i < |s| => s[|s| - 1 - i])
  }

  /** The swaps from both ends that turn the collected lines around. */
  method ReverseLines(a: array<Bytes>)
    modifies a
    ensures a[..] == Reversed(old(a[..]))
  {
    ghost var before := a[..];
    var left, right := 0, a.Length - 1;
    while left < right
      invariant 0 <= left <= right + 1 && right == a.Length - 1 - left
      invariant forall k :: 0 <= k < left || right < k < a.Length ==> a[k] == before[a.Length - 1 - k]
      invariant forall k :: left <= k <= right ==> a[k] == before[k]
    {
      a[left], a[right] := a[right], a[left];
      left, right := left + 1, right - 1;
    }
    assert forall k :: 0 <= k < a.Length ==> a[k] == Reversed(before)[k];
  }

  method FormatLines<M>(history: seq<M>, line: M -> Bytes) returns (formatted: seq<Bytes>)
    ensures formatted == NonEmpty(LinesOf(history, line))
  {
    ghost var lines := LinesOf(history, line);
    formatted := [];
    var i := 0;
    while i < |history|
      invariant i <= |history|
      invariant formatted + NonEmpty(lines[i..]) == NonEmpty(lines)
    {
      var l := line(history[i]);
      ghost var rest := NonEmpty(lines[i + 1..]);
      assert lines[i..][1..] == lines[i + 1..];
      assert formatted + ([l] + rest) == formatted + [l] + rest;
      if l != [] {
        formatted := formatted + [l];
      }
      i := i + 1;
    }
  }

  /** Collects the newest lines backwards while they fit. */
  method CollectLines(formatted: seq<Bytes>, cut: Bytes -> Bytes) returns (lines: seq<Bytes>)
    requires AllFull(formatted)
    ensures lines == Reversed(Newest(formatted, cut))
  {
    lines := [];
    assert formatted[|formatted|..] == [];
    var total, index := 0, |formatted| - 1;
    while index >= 0
      invariant -1 <= index < |formatted|
      invariant total == Weight(formatted[index + 1..]) <= MAX_BYTES
      invariant lines == Reversed(formatted[index + 1..])
    {
      var l := formatted[index];
      assert formatted[index..][1..] == formatted[index + 1..];
      var next := total + |l| + if total > 0 then 1 else 0;
      assert next == Weight(formatted[index..]);
      if next > MAX_BYTES {
        FitIsUnique(formatted, index + 1);
        if |lines| == 0 {
          var truncated := cut(l);
          if truncated != [] {
            lines := [truncated];
          }
        }
        return;
      }
      lines := lines + [l];
      total, index := next, index - 1;
    }
    FitIsUnique(formatted, 0);
    assert formatted[0..] == formatted;
  }

  method BuildHistoryLines<M>(history: seq<M>, line: M -> Bytes, cut: Bytes -> Bytes) returns (lines: seq<Bytes>)
    ensures lines == HistoryLines(history, line, cut)
  {
    var recent := LastN(history, MAX_ITEMS);
    var formatted := FormatLines(recent, line);
    NonEmptyIsFull(LinesOf(recent, line));
    var collected := CollectLines(formatted, cut);
    var a := new Bytes[|collected|](i requires 0 <= i < |collected| => collected[i]);
    assert a[..] == collected;
    ReverseLines(a);
    lines := a[..];
    assert lines == Reversed(Reversed(Newest(formatted, cut)));
  }

  method FilterItems<M>(ms: seq<M>, keep: M -> bool) returns (kept: seq<M>)
    ensures kept == Filtered(ms, keep)
  {
    kept := [];
    var i := 0;
    while i < |ms|
      invariant i <= |ms|
      invariant kept + Filtered(ms[i..], keep) == Filtered(ms, keep)
    {
      ghost var rest := Filtered(ms[i + 1..], keep);
      assert ms[i..][1..] == ms[i + 1..];
      assert kept + ([ms[i]] + rest) == kept + [ms[i]] + rest;
      if keep(ms[i]) {
        kept := kept + [ms[i]];
      }
      i := i + 1;
    }
  }
}

/** Byte strings and their UTF-8 decoding as Go's `range` does it, and the truncation of a text to
    a number of bytes. Trimming removes ASCII white space. */
module Utf8 {

  type byte = b: int | 0 <= b < 256
  type Bytes = seq<byte>

  // ---------------------------------------------------------------- decoding

  /** How many bytes the rune announced by a first byte takes, or 0 for no rune. */
  function Announced(b: byte): nat {
    if b < 0x80 then 1
    else if 0xC2 <= b < 0xE0 then 2
    else if 0xE0 <= b < 0xF0 then 3
    else if 0xF0 <= b < 0xF5 then 4
    else 0
  }

  /** The range of the second byte; it is narrower after some first bytes. */
  predicate SecondFits(first: byte, second: byte) {
    var low := if first == 0xE0 then 0xA0 else if first == 0xF0 then 0x90 else 0x80;
    var high := if first == 0xED then 0xA0 else if first == 0xF4 then 0x90 else 0xC0;
    low <= second < high
  }

  predicate Continues(b: byte) {
    0x80 <= b < 0xC0
  }

  /** A whole rune stands at the start (section 3 of RFC 3629). */
  predicate StartsWithRune(s: Bytes) {
    && |s| > 0
    && 0 < Announced(s[0]) <= |s|
    && (Announced(s[0]) >= 2 ==> SecondFits(s[0], s[1]))
    && (Announced(s[0]) >= 3 ==> Continues(s[2]))
    && (Announced(s[0]) == 4 ==> Continues(s[3]))
  }

  /** How far `range` advances: over the rune, or over one byte that starts none. */
  function Advance(s: Bytes): (n: nat)
    requires |s| > 0
    ensures 0 < n <= |s| && n <= 4
  {
    if StartsWithRune(s) then Announced(s[0]) else 1
  }

  /** utf8.RuneLen of the rune `range` gives: a byte that starts none gives U+FFFD, which is three
      bytes long. */
  function RuneLength(s: Bytes): (n: nat)
    requires |s| > 0
    ensures 0 < n <= 4
  {
    if StartsWithRune(s) then Announced(s[0]) else 3
  }

  ghost predicate Valid(s: Bytes) {
    s == [] || (StartsWithRune(s) && Valid(s[Announced(s[0])..]))
  }

  lemma RuneOfPrefix(s: Bytes, k: nat)
    requires StartsWithRune(s) && 0 < k <= |s|
    ensures StartsWithRune(s[..k]) <==> Announced(s[0]) <= k
  {}

  lemma RuneMore(a: Bytes, b: Bytes)
    requires StartsWithRune(a)
    ensures StartsWithRune(a + b)
  {}

  // ---------------------------------------------------------------- trimming

  predicate IsSpace(b: byte) {
    b == 0x20 || 0x09 <= b <= 0x0D
  }

  function TrimLeft(s: Bytes): (r: Bytes)
    ensures |r| <= |s| && (r == [] || !IsSpace(r[0]))
  {
    if s != [] && IsSpace(s[0]) then TrimLeft(s[1..]) else s
  }

  function TrimRight(s: Bytes): (r: Bytes)
    ensures |r| <= |s| && (r == [] || (!IsSpace(r[|r| - 1]) && r[0] == s[0]))
  {
    if s != [] && IsSpace(s[|s| - 1]) then TrimRight(s[..|s| - 1]) else s
  }

  function Trim(s: Bytes): (r: Bytes)
    ensures |r| <= |s|
    ensures Trimmed(r)
  {
    TrimRight(TrimLeft(s))
  }

  predicate Trimmed(s: Bytes) {
    s == [] || (!IsSpace(s[0]) && !IsSpace(s[|s| - 1]))
  }

  lemma TrimOfTrimmed(s: Bytes)
    requires Trimmed(s)
    ensures Trim(s) == s
  {}

  lemma {:induction false} TrimLeftIsRest(s: Bytes) returns (i: nat)
    ensures i <= |s| && TrimLeft(s) == s[i..] && forall k :: 0 <= k < i ==> IsSpace(s[k])
    decreases |s|
  {
    i := 0;
    if s != [] && IsSpace(s[0]) {
      var rest := TrimLeftIsRest(s[1..]);
      i := rest + 1;
      assert s[1..][rest..] == s[i..];
    }
  }

  lemma {:induction false} TrimRightIsFront(s: Bytes) returns (j: nat)
    ensures j <= |s| && TrimRight(s) == s[..j] && forall k :: j <= k < |s| ==> IsSpace(s[k])
    decreases |s|
  {
    j := |s|;
    if s != [] && IsSpace(s[|s| - 1]) {
      j := TrimRightIsFront(s[..|s| - 1]);
      assert s[..|s| - 1][..j] == s[..j];
    }
  }

  /** Trimming takes away exactly the white space (spaces, tabs, line ends, form feeds) at the ends. */
  lemma TrimIsMiddle(s: Bytes) returns (i: nat, j: nat)
    ensures i <= j <= |s| && Trim(s) == s[i..j]
    ensures forall k :: 0 <= k < i || j <= k < |s| ==> s[k] in {0x20, 0x09, 0x0A, 0x0B, 0x0C, 0x0D}
    ensures i < j ==> s[i] !in {0x20, 0x09, 0x0A, 0x0B, 0x0C, 0x0D} && s[j - 1] !in {0x20, 0x09, 0x0A, 0x0B, 0x0C, 0x0D}
  {
    i := TrimLeftIsRest(s);
    var n := TrimRightIsFront(s[i..]);
    j := i + n;
    assert s[i..][..n] == s[i..j];
    forall k | j <= k < |s| ensures IsSpace(s[k]) {
      assert s[i..][k - i] == s[k];
    }
  }

  lemma {:induction false} TrimLeftValid(s: Bytes)
    requires Valid(s)
    ensures Valid(TrimLeft(s))
    decreases |s|
  {
    if s != [] && IsSpace(s[0]) {
      TrimLeftValid(s[1..]);
    }
  }

  /** Without its last byte a valid text stays valid if that byte is ASCII. */
  lemma {:induction false} DropLastAscii(s: Bytes)
    requires Valid(s) && s != [] && s[|s| - 1] < 0x80
    ensures Valid(s[..|s| - 1])
    decreases |s|
  {
    var n := Announced(s[0]);
    if n < |s| {
      DropLastAscii(s[n..]);
      PartOfRest(s, n, |s| - 1);
      RuneOfPrefix(s, |s| - 1);
    } else {
      assert n == 1;
      assert s[..|s| - 1] == [];
    }
  }

  lemma {:induction false} TrimRightValid(s: Bytes)
    requires Valid(s)
    ensures Valid(TrimRight(s))
    decreases |s|
  {
    if s != [] && IsSpace(s[|s| - 1]) {
      DropLastAscii(s);
      TrimRightValid(s[..|s| - 1]);
    }
  }

  lemma TrimValid(s: Bytes)
    requires Valid(s)
    ensures Valid(Trim(s))
  {
    TrimLeftValid(s);
    TrimRightValid(TrimLeft(s));
  }

  // ---------------------------------------------------------------- the cut

  /** Where trimStringByBytes cuts: the loop from `index`, with the last end accepted. */
  function CutFrom(s: Bytes, index: nat, max: nat, end: nat): (cut: nat)
    requires index <= |s| && end <= max
    ensures cut <= max
    decreases |s| - index
  {
    if index == |s| || index + RuneLength(s[index..]) > max then end
    else CutFrom(s, index + Advance(s[index..]), max, index + RuneLength(s[index..]))
  }

  /** The longest prefix made of whole runes of a valid text that fits. */
  ghost function Fit(s: Bytes, max: nat): (n: nat)
    requires Valid(s)
    ensures n <= |s| && n <= max
    decreases |s|
  {
    if s == [] || Announced(s[0]) > max then 0
    else Announced(s[0]) + Fit(s[Announced(s[0])..], max - Announced(s[0]))
  }

  lemma {:induction false} FitIsLongest(s: Bytes, max: nat, k: nat)
    requires Valid(s) && k <= |s| && k <= max
    ensures Valid(s[..Fit(s, max)])
    ensures Valid(s[..k]) ==> k <= Fit(s, max)
    decreases |s|
  {
    if |s| > 0 {
      var n := Announced(s[0]);
      if k > 0 {
        RuneOfPrefix(s, k);
      }
      if n <= max {
        FitIsLongest(s[n..], max - n, if k >= n then k - n else 0);
        ConsRune(s, n + Fit(s[n..], max - n));
        if k >= n {
          ConsRune(s, k);
        }
      }
    }
  }

  lemma PartOfRest(s: Bytes, n: nat, k: nat)
    requires n <= k <= |s|
    ensures s[..k][n..] == s[n..][..k - n]
  {}

  lemma ConsRune(s: Bytes, k: nat)
    requires StartsWithRune(s) && Announced(s[0]) <= k <= |s|
    ensures Valid(s[..k]) <==> Valid(s[Announced(s[0])..][..k - Announced(s[0])])
  {
    var n := Announced(s[0]);
    RuneOfPrefix(s, k);
    PartOfRest(s, n, k);
  }

  lemma FitStep(s: Bytes, max: nat)
    requires Valid(s) && |s| > 0
    ensures StartsWithRune(s)
    ensures var n := Announced(s[0]);
      && Valid(s[n..])
      && Fit(s, max) == if n > max then 0 else n + Fit(s[n..], max - n)
  {}

  lemma CutStep(s: Bytes, index: nat, max: nat, rest: Bytes)
    requires index < |s| && index <= max && rest == s[index..] && StartsWithRune(rest)
    ensures var next := index + Announced(rest[0]);
      && next <= |s| && rest[Announced(rest[0])..] == s[next..]
      && CutFrom(s, index, max, index) == if next <= max then CutFrom(s, next, max, next) else index
  {
    assert RuneLength(rest) == Announced(rest[0]) && Advance(rest) == Announced(rest[0]);
  }

  /** At `index` of `s`, with `rest` still to come, the loop cuts `cut` and the runes end at `fit`. */
  ghost predicate Cutting(s: Bytes, index: nat, max: nat, rest: Bytes, cut: nat, fit: nat) {
    && index <= |s| && index <= max && rest == s[index..] && Valid(rest)
    && cut == CutFrom(s, index, max, index) && fit == index + Fit(rest, max - index)
  }

  lemma CuttingStep(s: Bytes, index: nat, max: nat, rest: Bytes, cut: nat, fit: nat)
    requires Cutting(s, index, max, rest, cut, fit) && |rest| > 0
    ensures var n := Announced(rest[0]);
      && 0 < n <= |rest|
      && if index + n > max then cut == fit == index else Cutting(s, index + n, max, rest[n..], cut, fit)
  {
    FitStep(rest, max - index);
    CutStep(s, index, max, rest);
  }

  lemma {:induction false} CutEndsAtFit(s: Bytes, index: nat, max: nat, rest: Bytes, cut: nat, fit: nat)
    requires Cutting(s, index, max, rest, cut, fit)
    ensures cut == fit
    decreases |rest|
  {
    if |rest| > 0 {
      var n := Announced(rest[0]);
      CuttingStep(s, index, max, rest, cut, fit);
      if index + n <= max {
        CutEndsAtFit(s, index + n, max, rest[n..], cut, fit);
      }
    }
  }

  /** On valid text the loop cuts where the whole runes that fit end. */
  lemma CutOfValid(s: Bytes, index: nat, max: nat)
    requires index <= |s| && index <= max && Valid(s[index..])
    ensures CutFrom(s, index, max, index) == index + Fit(s[index..], max - index)
  {
    CutEndsAtFit(s, index, max, s[index..], CutFrom(s, index, max, index), index + Fit(s[index..], max - index));
  }

  /** No rune starts anywhere from `index` on. */
  ghost predicate RunelessFrom(s: Bytes, index: nat) {
    forall j :: index <= j < |s| ==> !StartsWithRune(s[j..])
  }

  lemma {:induction false} CutRuneless(s: Bytes, index: nat, max: nat)
    requires 0 < index <= |s| && index + 2 <= max < |s| && RunelessFrom(s, index)
    ensures CutFrom(s, index, max, index + 2) == max
    decreases |s| - index
  {
    if index + 3 <= max {
      CutRuneless(s, index + 1, max);
    }
  }

  /** On bytes none of which starts a rune, each counts as the three bytes of the rune that stands for it:
      the loop keeps as many as fit, and nothing where there is no room for three. */
  lemma CutOfRuneless(s: Bytes, max: nat)
    requires max < |s| && RunelessFrom(s, 0)
    ensures CutFrom(s, 0, max, 0) == if max < 3 then 0 else max
  {
    if max >= 3 {
      assert CutFrom(s, 0, max, 0) == CutFrom(s, 1, max, 3);
      CutRuneless(s, 1, max);
    }
  }

  function TrimToBytes(s: Bytes, max: int): (r: Bytes)
    ensures |r| <= if max > 0 then max else 0
    ensures Trimmed(r)
  {
    if max <= 0 then []
    else if |s| <= max then Trim(s)
    else Trim(s[..CutFrom(s, 0, max, 0)])
  }

  method TrimStringByBytes(s: Bytes, max: int) returns (r: Bytes)
    ensures r == TrimToBytes(s, max)
  {
    if max <= 0 {
      return [];
    }
    if |s| <= max {
      return Trim(s);
    }
    var end: nat, index: nat := 0, 0;
    while index < |s|
      invariant index <= |s| && end <= max
      invariant CutFrom(s, index, max, end) == CutFrom(s, 0, max, 0)
      decreases |s| - index
    {
      var width := RuneLength(s[index..]);
      if index + width > max {
        break;
      }
      end := index + width;
      index := index + Advance(s[index..]);
    }
    r := Trim(s[..end]);
  }

  // ---------------------------------------------------------------- truncated texts

  /** truncateHistoryText, with the suffix that marks a cut. */
  function Truncated(s: Bytes, max: int, suffix: Bytes): Bytes {
    var t := Trim(s);
    if max <= 0 || |t| <= max then t
    else if max <= |suffix| then TrimToBytes(t, max)
    else
      var body := TrimToBytes(t, max - |suffix|);
      if body == [] then TrimToBytes(t, max) else Trim(body) + suffix
  }

  lemma TruncatedFits(s: Bytes, max: int, suffix: Bytes)
    ensures max > 0 ==> |Truncated(s, max, suffix)| <= max
    ensures max <= 0 || |Trim(s)| <= max ==> Truncated(s, max, suffix) == Trim(s)
  {
    var t := Trim(s);
    if 0 < max < |t| {
      assert |Truncated(s, max, suffix)| <= max;
    }
  }

  lemma CutIsFit(s: Bytes, max: nat)
    requires Valid(s)
    ensures CutFrom(s, 0, max, 0) == Fit(s, max) && Valid(s[..Fit(s, max)])
  {
    assert s[0..] == s;
    CutOfValid(s, 0, max);
    FitIsLongest(s, max, 0);
  }

  lemma TrimToBytesIsFit(s: Bytes, max: nat)
    requires Valid(s) && 0 < max < |s|
    ensures TrimToBytes(s, max) == Trim(s[..Fit(s, max)])
  {
    CutIsFit(s, max);
  }

  lemma TrimToBytesValid(s: Bytes, max: int)
    requires Valid(s)
    ensures Valid(TrimToBytes(s, max))
  {
    if 0 < max < |s| {
      TrimToBytesIsFit(s, max);
      var p := s[..Fit(s, max)];
      CutIsFit(s, max);
      TrimValid(p);
    } else {
      TrimValid(s);
    }
  }

  /** Truncation keeps valid text valid, so that it ends at a rune boundary. */
  lemma TruncatedValid(s: Bytes, max: int, suffix: Bytes)
    requires Valid(s) && Valid(suffix)
    ensures Valid(Truncated(s, max, suffix))
  {
    var t := Trim(s);
    TrimValid(s);
    if 0 < max < |t| {
      TrimToBytesValid(t, max);
      var room := max - |suffix|;
      var body := TrimToBytes(t, room);
      if room > 0 && body != [] {
        assert Valid(body) by { TrimToBytesValid(t, room); }
        TrimOfTrimmed(body);
        ValidConcat(body, suffix);
      }
    }
  }

  lemma {:induction false} CutKeepsFirst(s: Bytes, index: nat, max: nat, end: nat)
    requires index <= |s| && 0 < end <= max
    ensures CutFrom(s, index, max, end) > 0
    decreases |s| - index
  {
    if index < |s| && index + RuneLength(s[index..]) <= max {
      CutKeepsFirst(s, index + Advance(s[index..]), max, index + RuneLength(s[index..]));
    }
  }

  lemma TrimNotEmpty(s: Bytes)
    requires |s| > 0 && !IsSpace(s[0])
    ensures Trim(s) != []
  {
    assert TrimLeft(s) == s;
    TrimRightNotEmpty(s);
  }

  lemma {:induction false} TrimRightNotEmpty(s: Bytes)
    requires |s| > 0 && !IsSpace(s[0])
    ensures TrimRight(s) != []
    decreases |s|
  {
    if IsSpace(s[|s| - 1]) {
      TrimRightNotEmpty(s[..|s| - 1]);
    }
  }

  lemma TrimToBytesNotEmpty(s: Bytes, max: int)
    requires |s| > 0 && s[0] < 0x80 && !IsSpace(s[0]) && max > 0
    ensures TrimToBytes(s, max) != []
  {
    if |s| <= max {
      TrimNotEmpty(s);
    } else {
      assert s[0..] == s;
      CutKeepsFirst(s, 1, max, 1);
      assert CutFrom(s, 0, max, 0) == CutFrom(s, 1, max, 1);
      TrimNotEmpty(s[..CutFrom(s, 0, max, 0)]);
    }
  }

  /** A text that starts with a letter is never cut to nothing. */
  lemma CutNotEmpty(s: Bytes, max: int, suffix: Bytes)
    requires |s| > 0 && s[0] < 0x80 && !IsSpace(s[0]) && Trimmed(s) && max > 0
    ensures Truncated(s, max, suffix) != []
  {
    TrimOfTrimmed(s);
    TrimToBytesNotEmpty(s, max);
    if |suffix| < max < |s| {
      TrimToBytesNotEmpty(s, max - |suffix|);
      TruncatedShape(s, max, suffix);
    }
  }

  lemma LongestIsFit(s: Bytes, max: nat, cut: nat)
    requires Valid(s) && cut <= max < |s| && Valid(s[..cut])
    requires forall k :: cut < k <= max ==> !Valid(s[..k])
    ensures cut == Fit(s, max)
  {
    FitIsLongest(s, max, cut);
  }

  lemma TruncatedShape(s: Bytes, max: int, suffix: Bytes)
    requires Trimmed(s) && |suffix| < max < |s|
    ensures var body := TrimToBytes(s, max - |suffix|);
      body != [] ==> Truncated(s, max, suffix) == body + suffix
  {
    TrimOfTrimmed(s);
    TrimOfTrimmed(TrimToBytes(s, max - |suffix|));
  }

  /** What is kept of a valid text too long: its longest prefix of whole runes that leaves room for
      the suffix, without the space at its end. */
  lemma TruncatedKeepsLongestPrefix(s: Bytes, max: int, suffix: Bytes, cut: nat)
    requires Valid(s) && Trimmed(s) && |suffix| < max < |s|
    requires cut <= max - |suffix| && Valid(s[..cut]) && Trim(s[..cut]) != []
    requires forall k :: cut < k <= max - |suffix| ==> !Valid(s[..k])
    ensures Truncated(s, max, suffix) == Trim(s[..cut]) + suffix
  {
    LongestIsFit(s, max - |suffix|, cut);
    TrimToBytesIsFit(s, max - |suffix|);
    TruncatedShape(s, max, suffix);
  }

  /** Where there is no room for the suffix, or none beside it for a rune, the suffix is left out. */
  lemma TruncatedWithoutSuffix(s: Bytes, max: int, suffix: Bytes, cut: nat)
    requires Valid(s) && Trimmed(s) && 0 < max < |s|
    requires forall k :: 0 < k <= max - |suffix| ==> !Valid(s[..k])
    requires cut <= max && Valid(s[..cut]) && forall k :: cut < k <= max ==> !Valid(s[..k])
    ensures Truncated(s, max, suffix) == Trim(s[..cut])
  {
    TrimOfTrimmed(s);
    LongestIsFit(s, max, cut);
    TrimToBytesIsFit(s, max);
    var room := max - |suffix|;
    if room > 0 {
      assert s[..0] == [];
      LongestIsFit(s, room, 0);
      TrimToBytesIsFit(s, room);
    }
  }

  lemma RestOfConcat(a: Bytes, b: Bytes, n: nat)
    requires 0 < n <= |a|
    ensures (a + b)[n..] == a[n..] + b && (a + b)[0] == a[0]
  {}

  lemma {:induction false} ValidConcat(a: Bytes, b: Bytes)
    requires Valid(a) && Valid(b)
    ensures Valid(a + b)
    decreases |a|
  {
    if a == [] {
      assert a + b == b;
    } else {
      var n := Announced(a[0]);
      ValidConcat(a[n..], b);
      RuneMore(a, b);
      RestOfConcat(a, b, n);
    }
  }

  /** A literal of ASCII characters. */
  function Ascii(literal: string): (s: Bytes)
    ensures |s| == |literal|
    ensures forall i :: 0 <= i < |s| ==> s[i] < 0x80
  {
    seq(|literal|, i requires 0 <= i < |literal| => literal[i] as int % 0x80)
  }

  lemma {:induction false} AsciiValid(s: Bytes)
    requires forall i :: 0 <= i < |s| ==> s[i] < 0x80
    ensures Valid(s)
    decreases |s|
  {
    if s != [] {
      AsciiValid(s[1..]);
    }
  }
}

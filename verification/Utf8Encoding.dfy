/** Valid byte strings are exactly the encodings of sequences of Unicode scalar values (section 3 of
    RFC 3629). */
module Utf8Encoding {
  import opened Utf8

  predicate IsScalar(c: int) {
    0 <= c < 0xD800 || 0xE000 <= c < 0x110000
  }

  function Continuation(c: nat): byte {
    0x80 + c % 0x40
  }

  function Encode(c: int): (s: Bytes)
    requires IsScalar(c)
    ensures |s| > 0
  {
    if c < 0x80 then [c]
    else if c < 0x800 then [0xC0 + c / 0x40, Continuation(c)]
    else if c < 0x10000 then [0xE0 + c / 0x1000, Continuation(c / 0x40), Continuation(c)]
    else [0xF0 + c / 0x40000, Continuation(c / 0x1000), Continuation(c / 0x40), Continuation(c)]
  }

  predicate AllScalars(cs: seq<int>) {
    forall i :: 0 <= i < |cs| ==> IsScalar(cs[i])
  }

  function EncodeAll(cs: seq<int>): Bytes
    requires AllScalars(cs)
  {
    if cs == [] then [] else Encode(cs[0]) + EncodeAll(cs[1..])
  }

  lemma EncodedStarts(c: int)
    requires IsScalar(c)
    ensures StartsWithRune(Encode(c)) && Announced(Encode(c)[0]) == |Encode(c)|
  {
    if 0x80 <= c < 0x800 {
      assert 2 <= c / 0x40 < 0x20;
    } else if 0x800 <= c < 0x10000 {
      ThreeStart(c);
    } else if 0x10000 <= c {
      FourStart(c);
    }
  }

  lemma ThreeStart(c: int)
    requires IsScalar(c) && 0x800 <= c < 0x10000
    ensures var first, second := 0xE0 + c / 0x1000, Continuation(c / 0x40);
      0xE0 <= first < 0xF0 && SecondFits(first, second)
  {
    var x, y := c / 0x1000, c / 0x40;
    assert y == x * 0x40 + y % 0x40;
  }

  lemma FourStart(c: int)
    requires IsScalar(c) && 0x10000 <= c
    ensures var first, second := 0xF0 + c / 0x40000, Continuation(c / 0x1000);
      0xF0 <= first < 0xF5 && SecondFits(first, second)
  {
    var x, y := c / 0x40000, c / 0x1000;
    assert y == x * 0x40 + y % 0x40;
  }

  lemma StartsMore(a: Bytes, b: Bytes)
    requires StartsWithRune(a) && Announced(a[0]) == |a|
    ensures StartsWithRune(a + b) && Announced((a + b)[0]) == |a| && (a + b)[|a|..] == b
  {}

  /** The value a whole rune stands for: the free bits of its bytes, six of each after the first. */
  function Decode(s: Bytes): int
    requires StartsWithRune(s)
  {
    var n := Announced(s[0]);
    if n == 1 then s[0]
    else if n == 2 then Shifted(s[0] as int - 0xC0, s[1])
    else if n == 3 then Shifted(Shifted(s[0] as int - 0xE0, s[1]), s[2])
    else Shifted(Shifted(Shifted(s[0] as int - 0xF0, s[1]), s[2]), s[3])
  }

  function Shifted(high: int, next: byte): int {
    high * 0x40 + (next as int - 0x80)
  }

  lemma ShiftedBack(high: nat, next: byte)
    requires 0x80 <= next < 0xC0
    ensures var c := Shifted(high, next); c >= 0 && c / 0x40 == high && Continuation(c) == next
  {}

  lemma DecodedEncodes(s: Bytes)
    requires StartsWithRune(s)
    ensures IsScalar(Decode(s)) && Encode(Decode(s)) == s[..Announced(s[0])]
  {
    var n := Announced(s[0]);
    if n == 1 {
      assert Encode(s[0]) == s[..1];
    } else if n == 2 {
      ShiftedBack(s[0] as int - 0xC0, s[1]);
      assert Encode(Decode(s)) == s[..2];
    } else if n == 3 {
      ThreeDecoded(s);
    } else {
      FourDecoded(s);
    }
  }

  lemma ThreeDecoded(s: Bytes)
    requires StartsWithRune(s) && Announced(s[0]) == 3
    ensures IsScalar(Decode(s)) && Encode(Decode(s)) == s[..3]
  {
    var one := Shifted(s[0] as int - 0xE0, s[1]);
    ShiftedBack(s[0] as int - 0xE0, s[1]);
    ShiftedBack(one, s[2]);
    var c := Shifted(one, s[2]);
    assert 0x800 <= c < 0x10000 && c / 0x1000 == one / 0x40;
    assert Encode(c) == [s[0], s[1], s[2]];
  }

  lemma ShiftsAdd(c: nat)
    ensures c / 0x40 / 0x40 == c / 0x1000 && c / 0x1000 / 0x40 == c / 0x40000
  {}

  lemma FourRange(first: byte, second: byte)
    requires 0xF0 <= first < 0xF5 && SecondFits(first, second)
    ensures 0x10 <= Shifted(first as int - 0xF0, second) < 0x110
  {}

  lemma FourParts(one: nat, third: byte, fourth: byte)
    requires 0x10 <= one < 0x110 && Continues(third) && Continues(fourth)
    ensures var c := Shifted(Shifted(one, third), fourth);
      && 0x10000 <= c < 0x110000 && c / 0x1000 == one
      && Continuation(c / 0x40) == third && Continuation(c) == fourth
  {
    var two := Shifted(one, third);
    ShiftedBack(one, third);
    ShiftedBack(two, fourth);
    ShiftsAdd(Shifted(two, fourth));
  }

  lemma FourEncoded(c: nat, first: byte, second: byte, third: byte, fourth: byte)
    requires 0x10000 <= c < 0x110000 && c / 0x40000 == first as int - 0xF0
    requires Continuation(c / 0x1000) == second && Continuation(c / 0x40) == third && Continuation(c) == fourth
    ensures IsScalar(c) && Encode(c) == [first, second, third, fourth]
  {}

  lemma FourBytes(first: byte, second: byte, third: byte, fourth: byte)
    requires 0xF0 <= first < 0xF5 && SecondFits(first, second) && Continues(third) && Continues(fourth)
    ensures var c := Shifted(Shifted(Shifted(first as int - 0xF0, second), third), fourth);
      IsScalar(c) && Encode(c) == [first, second, third, fourth]
  {
    var high := first as int - 0xF0;
    var one := Shifted(high, second);
    FourRange(first, second);
    ShiftedBack(high, second);
    FourParts(one, third, fourth);
    var c := Shifted(Shifted(one, third), fourth);
    ShiftsAdd(c);
    FourEncoded(c, first, second, third, fourth);
  }

  lemma FourDecoded(s: Bytes)
    requires StartsWithRune(s) && Announced(s[0]) == 4
    ensures IsScalar(Decode(s)) && Encode(Decode(s)) == s[..4]
  {
    FourBytes(s[0], s[1], s[2], s[3]);
    assert s[..4] == [s[0], s[1], s[2], s[3]];
  }

  lemma {:induction false} EncodedIsValid(cs: seq<int>)
    requires AllScalars(cs)
    ensures Valid(EncodeAll(cs))
    decreases |cs|
  {
    if cs != [] {
      EncodedIsValid(cs[1..]);
      EncodedStarts(cs[0]);
      StartsMore(Encode(cs[0]), EncodeAll(cs[1..]));
    }
  }

  lemma EncodeCons(c: int, rest: seq<int>)
    requires IsScalar(c) && AllScalars(rest)
    ensures AllScalars([c] + rest) && EncodeAll([c] + rest) == Encode(c) + EncodeAll(rest)
  {
    assert ([c] + rest)[1..] == rest;
  }

  lemma RuneAndRest(s: Bytes, n: nat)
    requires n <= |s|
    ensures s[..n] + s[n..] == s
  {}

  lemma {:induction false} ValidIsEncoded(s: Bytes) returns (cs: seq<int>)
    requires Valid(s)
    ensures AllScalars(cs) && EncodeAll(cs) == s
    decreases |s|
  {
    cs := [];
    if |s| > 0 {
      var n := Announced(s[0]);
      var rest := ValidIsEncoded(s[n..]);
      DecodedEncodes(s);
      EncodeCons(Decode(s), rest);
      RuneAndRest(s, n);
      cs := [Decode(s)] + rest;
    }
  }

  /** Valid bytes are the encodings of sequences of Unicode scalar values. */
  lemma ValidMeansEncoded(s: Bytes)
    ensures Valid(s) <==> exists cs :: AllScalars(cs) && EncodeAll(cs) == s
  {
    if Valid(s) {
      var cs := ValidIsEncoded(s);
      assert EncodeAll(cs) == s;
    }
    forall cs | AllScalars(cs) && EncodeAll(cs) == s ensures Valid(s) {
      EncodedIsValid(cs);
    }
  }
}

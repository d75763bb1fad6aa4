/** Strings in Go's order, and the strictly ascending listing of a set of keys.
    Every "collect the keys of a map, then sort.Strings" of the registries and of the
    runtime manager produces this listing. */
module SortedKeys {

  /** Lexicographic order. On valid text, comparing code points one by one is the same
      order as comparing the UTF-8 bytes. */
  predicate Less(a: string, b: string) {
    if |b| == 0 then false
    else if |a| == 0 then true
    else if a[0] != b[0] then a[0] < b[0]
    else Less(a[1..], b[1..])
  }

  lemma {:induction false} LessIsTotal(a: string, b: string)
    ensures Less(a, b) || Less(b, a) || a == b
    ensures !(Less(a, b) && Less(b, a))
    ensures !Less(a, a)
  {
    if |a| > 0 {
      LessIsTotal(a[1..], a[1..]);
      if |b| > 0 && a[0] == b[0] {
        LessIsTotal(a[1..], b[1..]);
        assert a[1..] == b[1..] ==> a == [a[0]] + a[1..] == b;
      }
    }
  }

  lemma {:induction false} LessIsTransitive(a: string, b: string, c: string)
    requires Less(a, b) && Less(b, c)
    ensures Less(a, c)
  {
    if |a| > 0 && a[0] == b[0] == c[0] {
      LessIsTransitive(a[1..], b[1..], c[1..]);
    }
  }

  ghost predicate Ascending(s: seq<string>) {
    forall i, j :: 0 <= i < j < |s| ==> Less(s[i], s[j])
  }

  ghost predicate IsSortedListOf(s: seq<string>, keys: set<string>) {
    Ascending(s) && forall k :: k in s <==> k in keys
  }

  lemma {:induction false} SortedListIsUnique(s: seq<string>, t: seq<string>, keys: set<string>)
    requires IsSortedListOf(s, keys) && IsSortedListOf(t, keys)
    ensures s == t
    decreases |s|
  {
    assert |t| > 0 ==> t[0] in keys;
    if |s| == 0 {
      return;
    }
    assert s[0] in keys;
    var i :| 0 <= i < |t| && t[i] == s[0];
    var j :| 0 <= j < |s| && s[j] == t[0] by { assert t[0] in keys; }
    LessIsTotal(s[0], t[0]);
    assert s[0] == t[0];
    Rest(s, keys);
    Rest(t, keys);
    SortedListIsUnique(s[1..], t[1..], keys - {s[0]});
    assert s == [s[0]] + s[1..] && t == [t[0]] + t[1..];
  }

  lemma Rest(s: seq<string>, keys: set<string>)
    requires IsSortedListOf(s, keys) && |s| > 0
    ensures IsSortedListOf(s[1..], keys - {s[0]})
  {
    LessIsTotal(s[0], s[0]);
    forall k ensures k in s[1..] <==> k in keys - {s[0]} {
      if k in s && k != s[0] {
        var i :| 0 <= i < |s| && s[i] == k;
        assert s[1..][i - 1] == k;
      }
      if k in s[1..] {
        var i :| 0 <= i < |s| - 1 && s[1..][i] == k;
        assert s[i + 1] == k;
      }
    }
  }

  lemma InsertKeepsOrder(s: seq<string>, i: nat, k: string, keys: set<string>)
    requires IsSortedListOf(s, keys) && i <= |s|
    requires forall j :: 0 <= j < i ==> Less(s[j], k)
    requires forall j :: i <= j < |s| ==> Less(k, s[j])
    ensures IsSortedListOf(s[..i] + [k] + s[i..], keys + {k})
  {
    var t := s[..i] + [k] + s[i..];
    forall x ensures x in t <==> x in keys + {k} {
      assert s == s[..i] + s[i..];
    }
  }

  /** Insertion into the ascending list; the set is consumed in an arbitrary order, as a Go
      map is iterated in one. */
  method SortKeys(keys: set<string>) returns (r: seq<string>)
    ensures IsSortedListOf(r, keys)
  {
    r := [];
    var rest := keys;
    while rest != {}
      invariant rest <= keys
      invariant IsSortedListOf(r, keys - rest)
      decreases |rest|
    {
      var k :| k in rest;
      var i := 0;
      while i < |r| && Less(r[i], k)
        invariant i <= |r|
        invariant forall j :: 0 <= j < i ==> Less(r[j], k)
      {
        i := i + 1;
      }
      if i < |r| {
        LessIsTotal(r[i], k);
        assert r[i] in keys - rest;
        forall j | i <= j < |r| ensures Less(k, r[j]) {
          if j > i { LessIsTransitive(k, r[i], r[j]); }
        }
      }
      InsertKeepsOrder(r, i, k, keys - rest);
      assert keys - rest + {k} == keys - (rest - {k});
      r := r[..i] + [k] + r[i..];
      rest := rest - {k};
    }
    assert keys - rest == keys;
  }

  lemma SortedListExists(keys: set<string>)
    ensures exists r :: IsSortedListOf(r, keys)
    decreases |keys|
  {
    if keys == {} {
      assert IsSortedListOf([], keys);
    } else {
      var k :| k in keys;
      SortedListExists(keys - {k});
      var s :| IsSortedListOf(s, keys - {k});
      var i := Position(s, k, keys - {k});
      InsertKeepsOrder(s, i, k, keys - {k});
      assert keys - {k} + {k} == keys;
    }
  }

  lemma Position(s: seq<string>, k: string, keys: set<string>) returns (i: nat)
    requires IsSortedListOf(s, keys) && k !in keys
    ensures i <= |s|
    ensures forall j :: 0 <= j < i ==> Less(s[j], k)
    ensures forall j :: i <= j < |s| ==> Less(k, s[j])
  {
    i := 0;
    while i < |s| && Less(s[i], k)
      invariant i <= |s|
      invariant forall j :: 0 <= j < i ==> Less(s[j], k)
    {
      i := i + 1;
    }
    if i < |s| {
      LessIsTotal(s[i], k);
      forall j | i <= j < |s| ensures Less(k, s[j]) {
        if j > i { LessIsTransitive(k, s[i], s[j]); }
      }
    }
  }

  /** The sorted listing of a set of keys. */
  ghost function Sorted(keys: set<string>): (r: seq<string>)
    ensures IsSortedListOf(r, keys)
  {
    SortedListExists(keys);
    var r :| IsSortedListOf(r, keys);
    r
  }
}

/** What upserting blocks by key makes of a content, when doing it again changes nothing, and the
    move of the thinking block to the front of a finished message. */
module BlockUpserts {
  import opened Options
  import opened AssistantContent

  predicate Keyed(blocks: seq<Block>) {
    forall i :: 0 <= i < |blocks| ==> KeyOf(blocks[i]).Some?
  }

  predicate HasKey(blocks: seq<Block>, key: Option<Key>) {
    FirstWith(blocks, key) < |blocks|
  }

  function LastWith(blocks: seq<Block>, key: Option<Key>): (b: Block)
    requires HasKey(blocks, key)
    ensures KeyOf(b) == key
  {
    if HasKey(blocks[1..], key) then LastWith(blocks[1..], key) else blocks[0]
  }

  /** The first block with the key is `b`. */
  predicate Holds(content: seq<Block>, key: Option<Key>, b: Block) {
    HasKey(content, key) && content[FirstWith(content, key)] == b
  }

  lemma FirstIs(content: seq<Block>, key: Option<Key>, i: nat)
    requires i < |content| && KeyOf(content[i]) == key
    requires forall j :: 0 <= j < i ==> KeyOf(content[j]) != key
    ensures FirstWith(content, key) == i
  {
    assert FirstWith(content, key) <= i;
  }

  lemma UpsertHolds(content: seq<Block>, b: Block)
    requires KeyOf(b).Some?
    ensures Holds(Upsert(content, b), KeyOf(b), b)
  {
    FirstIs(Upsert(content, b), KeyOf(b), FirstWith(content, KeyOf(b)));
  }

  lemma UpsertKeepsOther(content: seq<Block>, b: Block, key: Option<Key>, held: Block)
    requires Holds(content, key, held) && KeyOf(b) != key
    ensures Holds(Upsert(content, b), key, held)
  {
    FirstIs(Upsert(content, b), key, FirstWith(content, key));
  }

  lemma {:induction false} UpsertAllKeepsOther(content: seq<Block>, blocks: seq<Block>, key: Option<Key>, held: Block)
    requires Holds(content, key, held) && !HasKey(blocks, key)
    ensures Holds(UpsertAll(content, blocks), key, held)
    decreases |blocks|
  {
    if blocks != [] {
      UpsertKeepsOther(content, blocks[0], key, held);
      UpsertAllKeepsOther(Upsert(content, blocks[0]), blocks[1..], key, held);
    }
  }

  /** After an upsert of keyed blocks the first block with each of their keys is the last one
      that came with it. */
  lemma {:induction false} UpsertAllHolds(content: seq<Block>, blocks: seq<Block>, key: Option<Key>)
    requires Keyed(blocks) && HasKey(blocks, key)
    ensures Holds(UpsertAll(content, blocks), key, LastWith(blocks, key))
    decreases |blocks|
  {
    var after := Upsert(content, blocks[0]);
    if HasKey(blocks[1..], key) {
      UpsertAllHolds(after, blocks[1..], key);
    } else {
      UpsertHolds(content, blocks[0]);
      UpsertAllKeepsOther(after, blocks[1..], key, blocks[0]);
    }
  }

  /** `c` differs from `d` only where the blocks still to come will make them equal. */
  ghost predicate Pending(c: seq<Block>, d: seq<Block>, blocks: seq<Block>) {
    && |c| == |d|
    && (forall i :: 0 <= i < |c| ==> KeyOf(c[i]) == KeyOf(d[i]))
    && (forall i :: 0 <= i < |c| && c[i] != d[i] ==> FirstWith(d, KeyOf(d[i])) == i && HasKey(blocks, KeyOf(d[i])))
    && (forall key :: HasKey(blocks, key) ==> Holds(d, key, LastWith(blocks, key)))
  }

  lemma SameKeysSameFirst(c: seq<Block>, d: seq<Block>, key: Option<Key>)
    requires |c| == |d| && forall i :: 0 <= i < |c| ==> KeyOf(c[i]) == KeyOf(d[i])
    ensures FirstWith(c, key) == FirstWith(d, key)
  {
    var i := FirstWith(c, key);
    if i < |c| {
      FirstIs(d, key, i);
    } else {
      forall j | 0 <= j < |d| ensures KeyOf(d[j]) != key {
        assert KeyOf(c[j]) != key;
      }
    }
  }

  lemma PendingStep(c: seq<Block>, d: seq<Block>, blocks: seq<Block>)
    requires blocks != [] && Keyed(blocks) && Pending(c, d, blocks)
    ensures Pending(Upsert(c, blocks[0]), d, blocks[1..])
  {
    var b, rest := blocks[0], blocks[1..];
    var key := KeyOf(b);
    assert HasKey(blocks, key);
    SameKeysSameFirst(c, d, key);
    var i := FirstWith(d, key);
    assert Upsert(c, b) == c[i := b];
    forall k | HasKey(rest, k) ensures Holds(d, k, LastWith(rest, k)) {
      assert HasKey(blocks, k) && LastWith(blocks, k) == LastWith(rest, k);
    }
    assert !HasKey(rest, key) ==> LastWith(blocks, key) == b;
    forall j | 0 <= j < |d| && c[i := b][j] != d[j]
      ensures FirstWith(d, KeyOf(d[j])) == j && HasKey(rest, KeyOf(d[j])) {
      assert j != i ==> c[j] != d[j] && KeyOf(d[j]) != key;
    }
  }

  lemma {:induction false} PendingSettles(c: seq<Block>, d: seq<Block>, blocks: seq<Block>)
    requires Keyed(blocks) && Pending(c, d, blocks)
    ensures UpsertAll(c, blocks) == d
    decreases |blocks|
  {
    if blocks != [] {
      PendingStep(c, d, blocks);
      PendingSettles(Upsert(c, blocks[0]), d, blocks[1..]);
    } else {
      assert forall i :: 0 <= i < |c| ==> c[i] == d[i];
    }
  }

  /** A content keeps still under blocks exactly when each of them has a key, and the first block
      with each key already is the last one that comes with it. */
  lemma KeepsStill(content: seq<Block>, blocks: seq<Block>)
    ensures UpsertAll(content, blocks) == content
      <==> Keyed(blocks) && forall key :: HasKey(blocks, key) ==> Holds(content, key, LastWith(blocks, key))
  {
    if Keyed(blocks) {
      if forall key :: HasKey(blocks, key) ==> Holds(content, key, LastWith(blocks, key)) {
        PendingSettles(content, content, blocks);
      }
      forall key | HasKey(blocks, key) ensures Holds(UpsertAll(content, blocks), key, LastWith(blocks, key)) {
        UpsertAllHolds(content, blocks, key);
      }
    } else {
      var i :| 0 <= i < |blocks| && KeyOf(blocks[i]).None?;
      UnkeyedGrows(content, blocks, i);
    }
  }

  lemma {:induction false} UnkeyedGrows(content: seq<Block>, blocks: seq<Block>, i: nat)
    requires i < |blocks| && KeyOf(blocks[i]).None?
    ensures |UpsertAll(content, blocks)| > |content|
    decreases |blocks|
  {
    var after := Upsert(content, blocks[0]);
    if i == 0 {
      UpsertAllKeepsLength(after, blocks[1..]);
    } else {
      UnkeyedGrows(after, blocks[1..], i - 1);
    }
  }

  /** Upserting the same blocks again changes nothing exactly when all of them have keys. */
  lemma UpsertAgain(content: seq<Block>, blocks: seq<Block>)
    ensures var once := UpsertAll(content, blocks); UpsertAll(once, blocks) == once <==> Keyed(blocks)
  {
    var once := UpsertAll(content, blocks);
    KeepsStill(once, blocks);
    if Keyed(blocks) {
      forall key | HasKey(blocks, key) ensures Holds(once, key, LastWith(blocks, key)) {
        UpsertAllHolds(content, blocks, key);
      }
    }
  }

  /** No two different blocks of a snapshot start and end the series with one key. */
  ghost predicate Repeatable(blocks: seq<Block>) {
    Keyed(blocks) && forall key :: HasKey(blocks, key) ==> blocks[FirstWith(blocks, key)] == LastWith(blocks, key)
  }

  /** A snapshot applied again changes nothing exactly when its blocks have keys and, if the
      content was empty so that the snapshot was copied as it is, the first and the last block
      with each key are equal. */
  lemma SnapshotAgain(content: seq<Block>, blocks: seq<Block>)
    ensures var once := Snapshot(content, blocks);
      Snapshot(once, blocks) == once <==> if content == [] then Repeatable(blocks) else Keyed(blocks)
  {
    if content == [] {
      KeepsStill(blocks, blocks);
      forall key | HasKey(blocks, key)
        ensures Holds(blocks, key, LastWith(blocks, key))
            <==> blocks[FirstWith(blocks, key)] == LastWith(blocks, key) {}
    } else {
      UpsertAllKeepsLength(content, blocks);
      UpsertAgain(content, blocks);
    }
  }

  /** Two thinking blocks in one snapshot: applied again it changes the first of them. */
  lemma SnapshotNotRepeatable()
    ensures var a, b := EMPTY_TEXT.(kind := "thinking", text := "", thinking := "one"),
        EMPTY_TEXT.(kind := "thinking", text := "", thinking := "two");
      var once := Snapshot([], [a, b]);
      once == [a, b] && Snapshot(once, [a, b]) == [b, b] && [b, b] != once
  {
    var a, b := EMPTY_TEXT.(kind := "thinking", text := "", thinking := "one"),
        EMPTY_TEXT.(kind := "thinking", text := "", thinking := "two");
    assert a.thinking[0] != b.thinking[0];
    assert KeyOf(a) == KeyOf(b) == THINKING_KEY;
    FirstIs([a, b], THINKING_KEY, 0);
    FirstIs([b, b], THINKING_KEY, 0);
    assert Upsert([a, b], a) == [a, b] && Upsert([a, b], b) == [b, b];
    assert [a, b][1..] == [b] && [b][1..] == [];
    assert UpsertAll([a, b], [a, b]) == UpsertAll([a, b], [b]) == UpsertAll([b, b], []);
  }

  /** In particular a snapshot of keyed blocks with pairwise different keys can be applied again. */
  lemma DistinctKeysRepeatable(blocks: seq<Block>)
    requires Keyed(blocks) && forall i, j :: 0 <= i < j < |blocks| ==> KeyOf(blocks[i]) != KeyOf(blocks[j])
    ensures Repeatable(blocks)
  {
    forall key | HasKey(blocks, key) ensures blocks[FirstWith(blocks, key)] == LastWith(blocks, key) {
      LastIsSome(blocks, key);
    }
  }

  lemma {:induction false} LastIsSome(blocks: seq<Block>, key: Option<Key>)
    requires HasKey(blocks, key)
    ensures exists i :: 0 <= i < |blocks| && blocks[i] == LastWith(blocks, key) && KeyOf(blocks[i]) == key
  {
    if HasKey(blocks[1..], key) {
      LastIsSome(blocks[1..], key);
      var i :| 0 <= i < |blocks[1..]| && blocks[1..][i] == LastWith(blocks[1..], key);
      assert blocks[i + 1] == LastWith(blocks, key);
    }
  }

  // ---------------------------------------------------------------- thinking first

  const THINKING_KEY := Some(Key("thinking", ""))

  /** normalizedContent: the first thinking block before everything else. */
  function ThinkingFirst(content: seq<Block>): (moved: seq<Block>)
    ensures |moved| == |content|
  {
    var i := FirstWith(content, THINKING_KEY);
    if i < |content| then [content[i]] + content[..i] + content[i + 1..] else content
  }

  predicate IsThinking(b: Block) {
    b.kind == "thinking"
  }

  /** The first thinking block moves to the front and the others keep their order. */
  lemma {:induction false} ThinkingMoves(content: seq<Block>, i: nat)
    requires i < |content| && IsThinking(content[i]) && forall j :: 0 <= j < i ==> !IsThinking(content[j])
    ensures ThinkingFirst(content)[0] == content[i]
    ensures ThinkingFirst(content)[1..] == content[..i] + content[i + 1..]
  {
    forall j | 0 <= j < i ensures KeyOf(content[j]) != THINKING_KEY {
      assert !IsThinking(content[j]);
    }
    FirstIs(content, THINKING_KEY, i);
    assert ThinkingFirst(content) == [content[i]] + (content[..i] + content[i + 1..]);
  }

  /** A content without a thinking block stays as it is. */
  lemma NothingToMove(content: seq<Block>)
    requires forall j :: 0 <= j < |content| ==> !IsThinking(content[j])
    ensures ThinkingFirst(content) == content
  {
    forall j | 0 <= j < |content| ensures KeyOf(content[j]) != THINKING_KEY {
      assert !IsThinking(content[j]);
    }
  }

  /** No block is lost or added, and moving again changes nothing. */
  lemma ThinkingFirstPermutes(content: seq<Block>)
    ensures multiset(ThinkingFirst(content)) == multiset(content)
    ensures ThinkingFirst(ThinkingFirst(content)) == ThinkingFirst(content)
  {
    var moved, i := ThinkingFirst(content), FirstWith(content, THINKING_KEY);
    if i < |content| {
      assert content == content[..i] + [content[i]] + content[i + 1..];
      FirstIs(moved, THINKING_KEY, 0);
      assert moved == [moved[0]] + moved[..0] + moved[1..];
    }
  }

  /** The in-place shift of normalizedContent. */
  method MoveToFront<T>(a: array<T>, index: nat)
    requires index < a.Length
    modifies a
    ensures a[..] == [old(a[index])] + old(a[..index]) + old(a[index + 1..])
  {
    ghost var before := a[..];
    var front := a[index];
    var i := index;
    while i > 0
      invariant 0 <= i <= index
      invariant forall k :: i < k <= index ==> a[k] == before[k - 1]
      invariant forall k :: 0 <= k < a.Length && (k <= i || index < k) ==> a[k] == before[k]
    {
      a[i] := a[i - 1];
      i := i - 1;
    }
    a[0] := front;
    ghost var moved := [before[index]] + before[..index] + before[index + 1..];
    assert |moved| == a.Length;
    forall k | 0 <= k < a.Length ensures a[k] == moved[k] {
      assert 0 < k <= index ==> moved[k] == before[k - 1];
      assert index < k ==> moved[k] == before[k];
    }
    assert a[..] == moved;
    assert old(a[..index]) == before[..index] && old(a[index + 1..]) == before[index + 1..];
  }
}

/** What a merge does to the blocks of each kind, told from their fields: which field tells two blocks
    of a kind apart, which block is replaced, and what is left alone. And what deltas make of a block of
    each kind. */
module BlockMerges {
  import opened Options
  import opened AssistantContent

  // ---------------------------------------------------------------- things by kind

  function ResultOf(toolUse: string): Block -> bool {
    (b: Block) => b.kind == "tool_result" && b.toolUseId == toolUse
  }

  function UseOf(id: string): Block -> bool {
    (b: Block) => b.kind == "tool_use" && b.id == id
  }

  function ProgressOf(task: string): Block -> bool {
    (b: Block) => b.kind == "task_progress" && b.taskId == task
  }

  function TextOf(text: string): Block -> bool {
    (b: Block) => b.kind == "text" && b.text == text
  }

  function Thinking(): Block -> bool {
    (b: Block) => b.kind == "thinking"
  }

  /** An artifact goes by its id; without one, by its source and path if it has both. */
  function ArtifactOf(name: string): Block -> bool {
    (b: Block) =>
      && b.kind == "workspace_file_artifact"
      && (b.id == name
          || (b.id == "" && b.sourceToolUseId != "" && b.path != "" && b.sourceToolUseId + ":" + b.path == name))
  }

  function NamelessArtifact(): Block -> bool {
    (b: Block) => b.kind == "workspace_file_artifact" && b.id == "" && (b.sourceToolUseId == "" || b.path == "")
  }

  function OtherKind(): Block -> bool {
    (b: Block) =>
      b.kind !in {"thinking", "tool_use", "tool_result", "task_progress", "workspace_file_artifact", "text"}
  }

  // ---------------------------------------------------------------- what a merge does to one thing

  /** The blocks of a thing among `after`, when `came` is merged into `before`: if some came, the last
      of them stands for the first one there was, or is new; else they are those of before. Each block
      of before still has its place. */
  ghost predicate Replaced(before: seq<Block>, came: seq<Block>, after: seq<Block>, thing: Block -> bool) {
    var had, brought := Filtered(before, thing), Filtered(came, thing);
    && Filtered(after, thing)
       == (if |brought| == 0 then had
           else [brought[|brought| - 1]] + (if |had| == 0 then [] else had[1..]))
    && |before| <= |after|
    && forall i :: 0 <= i < |before| ==>
         (thing(after[i]) <==> thing(before[i])) && (|brought| == 0 && thing(before[i]) ==> after[i] == before[i])
  }

  /** Those of `came` are added, and the others are left as they are where they are. */
  ghost predicate Added(before: seq<Block>, came: seq<Block>, after: seq<Block>, thing: Block -> bool) {
    && Filtered(after, thing) == Filtered(before, thing) + Filtered(came, thing)
    && |before| <= |after|
    && forall i :: 0 <= i < |before| ==>
         (thing(after[i]) <==> thing(before[i])) && (thing(before[i]) ==> after[i] == before[i])
  }

  lemma {:induction false} FilteredConcat(a: seq<Block>, b: seq<Block>, thing: Block -> bool)
    ensures Filtered(a + b, thing) == Filtered(a, thing) + Filtered(b, thing)
    decreases |a|
  {
    if |a| == 0 {
      assert a + b == b;
    } else {
      FilteredConcat(a[1..], b, thing);
      assert (a + b)[1..] == a[1..] + b;
    }
  }

  lemma {:induction false} NothingFiltered(a: seq<Block>, thing: Block -> bool)
    requires forall i :: 0 <= i < |a| ==> !thing(a[i])
    ensures Filtered(a, thing) == []
    decreases |a|
  {
    if |a| > 0 {
      NothingFiltered(a[1..], thing);
    }
  }

  lemma FilteredOne(b: Block, thing: Block -> bool)
    ensures Filtered([b], thing) == if thing(b) then [b] else []
  {
    assert [b][1..] == [];
  }

  lemma FilteredAt(a: seq<Block>, i: nat, b: Block, thing: Block -> bool)
    requires i < |a|
    ensures Filtered(a[i := b], thing)
         == Filtered(a[..i], thing) + (if thing(b) then [b] else []) + Filtered(a[i + 1..], thing)
  {
    var c := a[i := b];
    assert c == a[..i] + ([b] + a[i + 1..]);
    FilteredConcat(a[..i], [b] + a[i + 1..], thing);
    FilteredConcat([b], a[i + 1..], thing);
    FilteredOne(b, thing);
  }

  /** One block that is no such thing changes nothing of it. */
  lemma OtherUpsert(content: seq<Block>, b: Block, key: Option<Key>, thing: Block -> bool)
    requires !thing(b) && key != KeyOf(b) && forall c :: thing(c) <==> KeyOf(c) == key
    ensures Replaced(content, [], Upsert(content, b), thing)
  {
    var i, after := FirstWith(content, KeyOf(b)), Upsert(content, b);
    if KeyOf(b).Some? && i < |content| {
      FilteredAt(content, i, b, thing);
      FilteredAt(content, i, content[i], thing);
      assert content[i := content[i]] == content;
      assert !thing(content[i]);
    } else {
      FilteredConcat(content, [b], thing);
      FilteredOne(b, thing);
    }
  }

  /** A block that is such a thing stands for the first one there was. */
  lemma SameUpsert(content: seq<Block>, b: Block, thing: Block -> bool)
    requires thing(b) && KeyOf(b).Some? && forall c :: thing(c) <==> KeyOf(c) == KeyOf(b)
    ensures Replaced(content, [b], Upsert(content, b), thing)
  {
    var i := FirstWith(content, KeyOf(b));
    FilteredOne(b, thing);
    if i < |content| {
      NothingFiltered(content[..i], thing);
      FilteredAt(content, i, b, thing);
      FilteredAt(content, i, content[i], thing);
      assert content[i := content[i]] == content;
    } else {
      NothingFiltered(content, thing);
      FilteredConcat(content, [b], thing);
    }
  }

  lemma ReplacedThen(before: seq<Block>, b: Block, middle: seq<Block>, rest: seq<Block>, after: seq<Block>,
        thing: Block -> bool)
    requires Replaced(before, if thing(b) then [b] else [], middle, thing) && Replaced(middle, rest, after, thing)
    ensures Replaced(before, [b] + rest, after, thing)
  {
    FilteredConcat([b], rest, thing);
    FilteredOne(b, thing);
    assert Filtered([], thing) == [];
  }

  /** A merge of blocks that a key tells apart. */
  lemma {:induction false} MergeReplaces(content: seq<Block>, blocks: seq<Block>, key: Key, thing: Block -> bool)
    requires forall c :: thing(c) <==> KeyOf(c) == Some(key)
    ensures Replaced(content, blocks, UpsertAll(content, blocks), thing)
    decreases |blocks|
  {
    if |blocks| > 0 {
      var middle := Upsert(content, blocks[0]);
      if thing(blocks[0]) {
        SameUpsert(content, blocks[0], thing);
      } else {
        OtherUpsert(content, blocks[0], Some(key), thing);
      }
      MergeReplaces(middle, blocks[1..], key, thing);
      ReplacedThen(content, blocks[0], middle, blocks[1..], UpsertAll(middle, blocks[1..]), thing);
      assert blocks == [blocks[0]] + blocks[1..];
    }
  }

  lemma UnkeyedUpsert(content: seq<Block>, b: Block, thing: Block -> bool)
    requires forall c :: thing(c) <==> KeyOf(c) == None
    ensures Added(content, [b], Upsert(content, b), thing)
  {
    var i := FirstWith(content, KeyOf(b));
    FilteredOne(b, thing);
    if KeyOf(b).Some? && i < |content| {
      FilteredAt(content, i, b, thing);
      FilteredAt(content, i, content[i], thing);
      assert content[i := content[i]] == content;
    } else {
      FilteredConcat(content, [b], thing);
    }
  }

  lemma {:induction false} MergeAdds(content: seq<Block>, blocks: seq<Block>, thing: Block -> bool)
    requires forall c :: thing(c) <==> KeyOf(c) == None
    ensures Added(content, blocks, UpsertAll(content, blocks), thing)
    decreases |blocks|
  {
    if |blocks| > 0 {
      var middle := Upsert(content, blocks[0]);
      UnkeyedUpsert(content, blocks[0], thing);
      MergeAdds(middle, blocks[1..], thing);
      FilteredConcat([blocks[0]], blocks[1..], thing);
      assert blocks == [blocks[0]] + blocks[1..];
    }
  }

  // ---------------------------------------------------------------- by kind

  /** Of each tool use the merge leaves one place for the last result that came, and touches no result
      of another. */
  lemma MergeOfResults(content: seq<Block>, blocks: seq<Block>, toolUse: string)
    ensures Replaced(content, blocks, UpsertAll(content, blocks), ResultOf(toolUse))
  {
    MergeReplaces(content, blocks, Key("tool_result", toolUse), ResultOf(toolUse));
  }

  lemma MergeOfUses(content: seq<Block>, blocks: seq<Block>, id: string)
    ensures Replaced(content, blocks, UpsertAll(content, blocks), UseOf(id))
  {
    MergeReplaces(content, blocks, Key("tool_use", id), UseOf(id));
  }

  lemma MergeOfProgress(content: seq<Block>, blocks: seq<Block>, task: string)
    ensures Replaced(content, blocks, UpsertAll(content, blocks), ProgressOf(task))
  {
    MergeReplaces(content, blocks, Key("task_progress", task), ProgressOf(task));
  }

  lemma MergeOfTexts(content: seq<Block>, blocks: seq<Block>, text: string)
    ensures Replaced(content, blocks, UpsertAll(content, blocks), TextOf(text))
  {
    MergeReplaces(content, blocks, Key("text", text), TextOf(text));
  }

  lemma MergeOfThinking(content: seq<Block>, blocks: seq<Block>)
    ensures Replaced(content, blocks, UpsertAll(content, blocks), Thinking())
  {
    MergeReplaces(content, blocks, Key("thinking", ""), Thinking());
  }

  lemma MergeOfArtifacts(content: seq<Block>, blocks: seq<Block>, name: string)
    requires name != ""
    ensures Replaced(content, blocks, UpsertAll(content, blocks), ArtifactOf(name))
  {
    MergeReplaces(content, blocks, Key("workspace_file_artifact", name), ArtifactOf(name));
  }

  /** All artifacts without a name are taken for one. */
  lemma MergeOfNamelessArtifacts(content: seq<Block>, blocks: seq<Block>)
    ensures Replaced(content, blocks, UpsertAll(content, blocks), NamelessArtifact())
  {
    MergeReplaces(content, blocks, Key("workspace_file_artifact", ""), NamelessArtifact());
  }

  /** Blocks of any other kind are never replaced. */
  lemma MergeOfOthers(content: seq<Block>, blocks: seq<Block>)
    ensures Added(content, blocks, UpsertAll(content, blocks), OtherKind())
  {
    MergeAdds(content, blocks, OtherKind());
  }

  // ---------------------------------------------------------------- deltas by kind

  function Appends(raw: int, deltas: seq<Delta>): seq<Op> {
    seq(|deltas|, i requires 0 <= i < |deltas| => Append(raw, deltas[i]))
  }

  /** A block after all the deltas of its stream: text grows by text deltas, thinking by thinking and
      signature deltas, and a block of another kind by none. */
  function Grown(b: Block, deltas: seq<Delta>): Block {
    if b.kind == "text" then b.(text := b.text + Texts(deltas))
    else if b.kind == "thinking" then
      b.(thinking := b.thinking + Thinkings(deltas), signature := b.signature + Signatures(deltas))
    else b
  }

  lemma GrownMore(b: Block, deltas: seq<Delta>, delta: Delta)
    ensures Grown(b, deltas + [delta]) ==
      if Fits(Grown(b, deltas), delta) then Extended(Grown(b, deltas), delta) else Grown(b, deltas)
  {
    var all, g := deltas + [delta], Grown(b, deltas);
    assert all[..|deltas|] == deltas;
    assert Texts(all) == Texts(deltas) + if delta.TextDelta? then delta.text else "";
    assert Thinkings(all) == Thinkings(deltas) + if delta.ThinkingDelta? then delta.text else "";
    assert Signatures(all) == Signatures(deltas) + if delta.SignatureDelta? then delta.text else "";
    assert b.kind == "text" ==> b.text + Texts(all) == g.text + (if delta.TextDelta? then delta.text else "");
    assert b.kind == "thinking" ==>
        && b.thinking + Thinkings(all) == g.thinking + (if delta.ThinkingDelta? then delta.text else "")
        && b.signature + Signatures(all) == g.signature + (if delta.SignatureDelta? then delta.text else "");
  }

  function AppendAll(a: Assembly, raw: int, deltas: seq<Delta>): Assembly {
    if deltas == [] then a else ApplyDelta(AppendAll(a, raw, deltas[..|deltas| - 1]), raw, deltas[|deltas| - 1])
  }

  lemma {:induction false} RunAppends(ops: seq<Op>, raw: int, deltas: seq<Delta>)
    ensures Run(ops + Appends(raw, deltas)) == AppendAll(Run(ops), raw, deltas)
    decreases |deltas|
  {
    if |deltas| == 0 {
      assert ops + Appends(raw, deltas) == ops;
    } else {
      var front, delta := deltas[..|deltas| - 1], deltas[|deltas| - 1];
      RunAppends(ops, raw, front);
      AppendsMore(ops, raw, deltas);
      RunThen(ops + Appends(raw, front), Append(raw, delta));
    }
  }

  lemma AppendsMore(ops: seq<Op>, raw: int, deltas: seq<Delta>)
    requires |deltas| > 0
    ensures ops + Appends(raw, deltas)
         == ops + Appends(raw, deltas[..|deltas| - 1]) + [Append(raw, deltas[|deltas| - 1])]
  {}

  lemma {:induction false} AppendAllGrows(a: Assembly, raw: int, deltas: seq<Delta>)
    requires raw in a.slot && a.slot[raw] < |a.content|
    ensures var i := a.slot[raw];
      AppendAll(a, raw, deltas) == a.(content := a.content[i := Grown(a.content[i], deltas)])
    decreases |deltas|
  {
    var i := a.slot[raw];
    if |deltas| == 0 {
      GrownByNothing(a.content[i]);
      assert a.content[i := a.content[i]] == a.content;
    } else {
      var front, delta := deltas[..|deltas| - 1], deltas[|deltas| - 1];
      AppendAllGrows(a, raw, front);
      assert deltas == front + [delta];
      GrownMore(a.content[i], front, delta);
      DeltaAt(AppendAll(a, raw, front), raw, delta);
    }
  }

  /** A block started on a raw index and then streamed there, after anything else: at its position
      stands the block grown by the deltas, and every other block is as it was at the start. */
  lemma StreamedBlock(ops: seq<Op>, raw: int, block: Block, deltas: seq<Delta>)
    ensures var a := Run(ops + [Start(raw, block)]);
      var b := Run(ops + [Start(raw, block)] + Appends(raw, deltas));
      && raw in a.slot && a.slot[raw] < |a.content| && a.content[a.slot[raw]] == block && b.slot == a.slot
      && b.content == a.content[a.slot[raw] := Grown(block, deltas)]
  {
    RunThen(ops, Start(raw, block));
    RunAppends(ops + [Start(raw, block)], raw, deltas);
    AppendAllGrows(Run(ops + [Start(raw, block)]), raw, deltas);
  }

  lemma GrownByNothing(b: Block)
    ensures Grown(b, []) == b
  {}

  lemma RunThen(ops: seq<Op>, op: Op)
    ensures Run(ops + [op]) == Step(Run(ops), op)
  {
    assert (ops + [op])[..|ops|] == ops;
  }

  lemma DeltaAt(a: Assembly, raw: int, delta: Delta)
    requires raw in a.slot && a.slot[raw] < |a.content|
    ensures var i := a.slot[raw];
      ApplyDelta(a, raw, delta) == a.(content := a.content[i :=
        if Fits(a.content[i], delta) then Extended(a.content[i], delta) else a.content[i]])
  {
    assert a.slot[raw := a.slot[raw]] == a.slot;
    assert a.content[a.slot[raw] := a.content[a.slot[raw]]] == a.content;
  }
}

/** The assistant segment as an object. A block is a mutable cell: deltas write into the cell at
    their position, every other edit puts a fresh cell there, and a finished message gets fresh
    cells of its own. Each method is proved to take the step of ProcessorRun. */
module SegmentObject {
  import opened Options
  import opened AssistantContent
  import opened BlockUpserts
  import PR = ProcessorRun

  class BlockCell {
    var block: Block

    constructor (block: Block)
      ensures this.block == block
    {
      this.block := block;
    }
  }

  function Values(cells: seq<BlockCell>): (blocks: seq<Block>)
    reads cells
    ensures |blocks| == |cells| && forall i :: 0 <= i < |cells| ==> blocks[i] == cells[i].block
  {
    seq(|cells|, i requires 0 <= i < |cells| reads cells => cells[i].block)
  }

  ghost predicate Distinct(cells: seq<BlockCell>) {
    forall i, j :: 0 <= i < j < |cells| ==> cells[i] != cells[j]
  }

  /** The switch of upsertBlock. */
  predicate SameBlock(current: Block, incoming: Block) {
    current.kind == incoming.kind &&
    (if incoming.kind == "thinking" then true
     else if incoming.kind == "tool_use" then current.id == incoming.id
     else if incoming.kind == "tool_result" then current.toolUseId == incoming.toolUseId
     else if incoming.kind == "task_progress" then current.taskId == incoming.taskId
     else if incoming.kind == ARTIFACT_KIND then ArtifactKey(current) == ArtifactKey(incoming)
     else if incoming.kind == "text" then current.text == incoming.text
     else false)
  }

  lemma SameBlockIsSameKey(current: Block, incoming: Block)
    ensures SameBlock(current, incoming) <==> KeyOf(incoming).Some? && KeyOf(current) == KeyOf(incoming)
  {}

  class AssistantSegment {
    var messageId: string
    var content: seq<BlockCell>
    var model: string
    var stopReason: string
    var usage: string
    var timestamp: string
    var streamSlot: map<int, nat>

    ghost predicate Valid()
      reads this
    {
      Distinct(content)
    }

    ghost function Body(): Assembly
      reads this, content
    {
      Assembly(Values(content), streamSlot)
    }

    ghost function View(): PR.Segment
      reads this, content
    {
      PR.Segment(messageId, Body(), model, usage, stopReason, timestamp)
    }

    constructor ()
      ensures Valid() && View() == PR.NO_SEGMENT && content == []
    {
      messageId, content, model, stopReason, usage, timestamp, streamSlot := "", [], "", "", "", "", map[];
    }

    method Start(id: string, model: string, usage: string, now: string)
      modifies this
      ensures Valid() && content == []
      ensures View() == PR.Started(id, model, usage, now)
    {
      messageId := if id != "" then id else PR.GeneratedId(now);
      content, streamSlot, stopReason := [], map[], "";
      this.model, this.usage, timestamp := model, usage, now;
    }

    method EnsureStarted(now: string)
      requires Valid()
      modifies this
      ensures Valid() && (content == old(content) || content == [])
      ensures View() == PR.EnsureStarted(old(View()), now)
    {
      if messageId != "" {
        return;
      }
      Start("", "", "", now);
    }

    /** The cells are those of before or new ones, each at one place. */
    twostate predicate OwnCells()
      reads this
    {
      Distinct(content) && forall i :: 0 <= i < |content| ==> fresh(content[i]) || content[i] in old(content)
    }

    method PutCell(index: nat, block: Block)
      requires Valid() && index < |content|
      modifies `content
      ensures OwnCells()
      ensures Values(content) == old(Values(content))[index := block]
    {
      var cell := new BlockCell(block);
      content := content[index := cell];
    }

    method AddCell(block: Block)
      requires Valid()
      modifies `content
      ensures OwnCells()
      ensures Values(content) == old(Values(content)) + [block]
    {
      var cell := new BlockCell(block);
      content := content + [cell];
    }

    /** Appends empty text blocks until the position exists. */
    method GrowTo(index: nat)
      requires Valid()
      modifies `content
      ensures OwnCells()
      ensures Values(content) == Padded(old(Values(content)), index)
    {
      while |content| <= index
        invariant OwnCells()
        invariant |old(content)| <= |content| && (|content| <= index + 1 || |content| == |old(content)|)
        invariant Values(content) == old(Values(content)) + seq(|content| - |old(content)|, _ => EMPTY_TEXT)
      {
        AddCell(EMPTY_TEXT);
      }
    }

    method ApplyBlock(raw: int, block: Block, now: string) returns (index: nat)
      requires Valid()
      modifies this
      ensures OwnCells()
      ensures View() == PR.Edited(old(View()), Op.Start(raw, block), now)
      ensures index == LogicalIndex(PR.EnsureStarted(old(View()), now).body, raw, block.kind)
    {
      EnsureStarted(now);
      index := SetBlock(raw, block);
    }

    method SetBlock(raw: int, block: Block) returns (index: nat)
      requires Valid()
      modifies `content, `streamSlot
      ensures OwnCells()
      ensures Body() == AssistantContent.ApplyBlock(old(Body()), raw, block)
      ensures index == LogicalIndex(old(Body()), raw, block.kind)
    {
      index := ResolveLogicalIndex(raw, block.kind);
      GrowTo(index);
      PutCell(index, block);
    }

    method ResolveLogicalIndex(raw: int, kind: string) returns (index: nat)
      modifies `streamSlot
      ensures index == old(LogicalIndex(Body(), raw, kind))
      ensures streamSlot == old(streamSlot)[raw := index]
    {
      if raw in streamSlot {
        index := streamSlot[raw];
        if index < |content| {
          var currentKind := content[index].block.kind;
          if currentKind == "" || currentKind == kind {
            return;
          }
        }
      }
      index := |content|;
      streamSlot := streamSlot[raw := index];
    }

    method ApplyDelta(raw: int, delta: Delta, now: string) returns (index: nat, applied: bool)
      requires Valid()
      modifies this, content
      ensures OwnCells()
      ensures View() == PR.Edited(old(View()), Append(raw, delta), now)
      ensures index == DeltaIndex(PR.EnsureStarted(old(View()), now).body, raw, delta)
      ensures applied <==> DeltaApplies(PR.EnsureStarted(old(View()), now).body, raw, delta)
    {
      EnsureStarted(now);
      index, applied := AppendDelta(raw, delta);
    }

    method OpenDelta(raw: int, delta: Delta) returns (index: nat)
      requires Valid()
      modifies `content, `streamSlot
      ensures OwnCells()
      ensures Body() == Opened(old(Body()), raw, delta)
      ensures index == DeltaIndex(old(Body()), raw, delta) < |content|
    {
      if raw in streamSlot {
        index := streamSlot[raw];
        assert streamSlot == streamSlot[raw := index];
      } else {
        index := ResolveLogicalIndex(raw, KindOf(delta));
      }
      GrowTo(index);
    }

    method AppendDelta(raw: int, delta: Delta) returns (index: nat, applied: bool)
      requires Valid()
      modifies `content, `streamSlot, content
      ensures OwnCells()
      ensures Body() == AssistantContent.ApplyDelta(old(Body()), raw, delta)
      ensures index == DeltaIndex(old(Body()), raw, delta)
      ensures applied <==> DeltaApplies(old(Body()), raw, delta)
    {
      index := OpenDelta(raw, delta);
      var cell := content[index];
      assert fresh(cell) || cell in old(content);
      applied := Fits(cell.block, delta);
      ghost var o := Values(content);
      if applied {
        cell.block := Extended(cell.block, delta);
        assert forall i :: 0 <= i < |content| && i != index ==> content[i] != cell && content[i].block == o[i];
        assert Values(content) == o[index := Extended(o[index], delta)];
      }
    }

    /** The first block that the incoming one replaces, or the length. */
    method FindSameBlock(incoming: Block) returns (index: nat)
      ensures KeyOf(incoming).Some? ==> index == FirstWith(Values(content), KeyOf(incoming))
      ensures KeyOf(incoming).None? ==> index == |content|
    {
      index := 0;
      while index < |content|
        invariant index <= |content|
        invariant forall j :: 0 <= j < index ==> KeyOf(incoming).None? || KeyOf(Values(content)[j]) != KeyOf(incoming)
      {
        SameBlockIsSameKey(content[index].block, incoming);
        if SameBlock(content[index].block, incoming) {
          FirstIs(Values(content), KeyOf(incoming), index);
          return;
        }
        index := index + 1;
      }
    }

    method UpsertBlock(incoming: Block)
      requires Valid()
      modifies `content
      ensures OwnCells()
      ensures Values(content) == Upsert(old(Values(content)), incoming)
    {
      var index := FindSameBlock(incoming);
      if index < |content| {
        PutCell(index, incoming);
      } else {
        AddCell(incoming);
      }
    }

    method UpsertBlocks(blocks: seq<Block>)
      requires Valid()
      modifies `content
      ensures OwnCells()
      ensures Values(content) == UpsertAll(old(Values(content)), blocks)
    {
      var i := 0;
      while i < |blocks|
        invariant i <= |blocks| && OwnCells()
        invariant UpsertAll(Values(content), blocks[i..]) == UpsertAll(old(Values(content)), blocks)
      {
        assert blocks[i..][1..] == blocks[i + 1..];
        UpsertBlock(blocks[i]);
        i := i + 1;
      }
    }

    method AppendBlocks(blocks: seq<Block>, now: string)
      requires Valid()
      modifies this
      ensures OwnCells()
      ensures View() == PR.Edited(old(View()), Merge(blocks), now)
    {
      EnsureStarted(now);
      UpsertBlocks(blocks);
    }

    method UpdateMeta(model: string, usage: string, stopReason: string)
      modifies `model, `usage, `stopReason
      ensures View() == PR.WithMeta(old(View()), model, usage, stopReason)
    {
      if model != "" {
        this.model := model;
      }
      if usage != "" {
        this.usage := usage;
      }
      if stopReason != "" {
        this.stopReason := stopReason;
      }
    }

    method ReplaceFromSnapshot(blocks: seq<Block>, model: string, usage: string, stopReason: string, now: string)
      requires Valid()
      modifies this
      ensures OwnCells()
      ensures View() == PR.WithMeta(PR.Edited(old(View()), Replace(blocks), now), model, usage, stopReason)
    {
      EnsureStarted(now);
      TakeBlocks(blocks);
      UpdateMeta(model, usage, stopReason);
    }

    method TakeBlocks(blocks: seq<Block>)
      requires Valid()
      modifies `content
      ensures OwnCells()
      ensures Body() == Step(old(Body()), Replace(blocks))
    {
      if |content| == 0 {
        content := CloneBlocks(blocks);
        assert forall i :: 0 <= i < |content| ==> content[i] in content;
      } else {
        UpsertBlocks(blocks);
      }
    }

    method HasToolUse(id: string) returns (found: bool)
      ensures found <==> PR.HasToolUse(Values(content), id)
    {
      if id == "" {
        return false;
      }
      var i := 0;
      while i < |content|
        invariant i <= |content|
        invariant forall j :: 0 <= j < i ==> !(Values(content)[j].kind == "tool_use" && Values(content)[j].id == id)
      {
        if content[i].block.kind == "tool_use" && content[i].block.id == id {
          assert Values(content)[i].id == id;
          return true;
        }
        i := i + 1;
      }
      found := false;
    }

    method CurrentBlock(index: nat) returns (block: Option<Block>)
      ensures block == AssistantContent.CurrentBlock(Body(), index)
    {
      var i := if index in streamSlot then streamSlot[index] else index;
      block := if i < |content| then Some(content[i].block) else None;
    }

    /** The content for a finished message: fresh cells, thinking first. */
    method NormalizedContent() returns (cells: seq<BlockCell>)
      ensures Values(cells) == ThinkingFirst(Values(content))
      ensures Distinct(cells) && forall c :: c in cells ==> fresh(c)
    {
      ghost var blocks := Values(content);
      cells := CloneBlocks(Values(content));
      cells := MoveThinkingFirst(cells);
      assert Values(content) == blocks;
    }
  }

  method MoveThinkingFirst(cells: seq<BlockCell>) returns (moved: seq<BlockCell>)
    ensures Values(moved) == ThinkingFirst(Values(cells))
    ensures Distinct(cells) ==> Distinct(moved)
    ensures forall c :: c in moved ==> c in cells
  {
    var thinkingIndex := FirstThinking(cells);
    ThinkingFirstAt(Values(cells), thinkingIndex);
    if |cells| <= 1 || thinkingIndex == 0 || thinkingIndex == |cells| {
      return cells;
    }
    moved := MoveCellToFront(cells, thinkingIndex);
    FrontMovedCells(cells, thinkingIndex);
  }

  lemma ThinkingFirstAt(blocks: seq<Block>, index: nat)
    requires index <= |blocks| && forall j :: 0 <= j < index ==> !IsThinking(blocks[j])
    requires index < |blocks| ==> IsThinking(blocks[index])
    ensures index == 0 || index == |blocks| || |blocks| <= 1 ==> ThinkingFirst(blocks) == blocks
    ensures index < |blocks| ==> ThinkingFirst(blocks) == [blocks[index]] + blocks[..index] + blocks[index + 1..]
  {
    if index == |blocks| {
      NothingToMove(blocks);
    } else {
      ThinkingMoves(blocks, index);
      var moved := ThinkingFirst(blocks);
      assert moved == [moved[0]] + moved[1..];
      assert index == 0 ==> blocks == [blocks[0]] + (blocks[..0] + blocks[1..]);
    }
  }

  method FirstThinking(cells: seq<BlockCell>) returns (index: nat)
    ensures index <= |cells|
    ensures forall j :: 0 <= j < index ==> !IsThinking(Values(cells)[j])
    ensures index < |cells| ==> IsThinking(Values(cells)[index])
  {
    index := 0;
    while index < |cells| && cells[index].block.kind != "thinking"
      invariant index <= |cells|
      invariant forall j :: 0 <= j < index ==> !IsThinking(Values(cells)[j])
    {
      index := index + 1;
    }
  }

  function FrontMoved<T>(s: seq<T>, index: nat): (moved: seq<T>)
    requires index < |s|
  {
    [s[index]] + s[..index] + s[index + 1..]
  }

  lemma FrontMovedCells(cells: seq<BlockCell>, index: nat)
    requires index < |cells|
    ensures var moved := FrontMoved(cells, index);
      && (forall c :: c in moved ==> c in cells)
      && (Distinct(cells) ==> Distinct(moved))
      && Values(moved) == FrontMoved(Values(cells), index)
  {
    var moved := FrontMoved(cells, index);
    assert forall k :: 0 <= k < |moved| ==>
      moved[k] == cells[if k == 0 then index else if k <= index then k - 1 else k];
  }

  method MoveCellToFront(cells: seq<BlockCell>, index: nat) returns (moved: seq<BlockCell>)
    requires index < |cells|
    ensures moved == FrontMoved(cells, index)
  {
    var a := new BlockCell[|cells|](i requires 0 <= i < |cells| => cells[i]);
    assert a[..] == cells;
    MoveToFront(a, index);
    moved := a[..];
  }

  method CloneBlocks(blocks: seq<Block>) returns (cells: seq<BlockCell>)
    ensures Values(cells) == blocks
    ensures Distinct(cells) && forall c :: c in cells ==> fresh(c)
  {
    cells := [];
    var i := 0;
    while i < |blocks|
      invariant i <= |blocks| && |cells| == i
      invariant forall j :: 0 <= j < i ==> fresh(cells[j]) && cells[j].block == blocks[j]
      invariant Distinct(cells)
    {
      var cell := new BlockCell(blocks[i]);
      cells := cells + [cell];
      i := i + 1;
    }
  }
}

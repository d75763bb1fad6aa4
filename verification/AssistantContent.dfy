/** The content of one assistant message while it is assembled: the list of blocks, the table
    from raw stream indices to positions in it, and the four ways blocks get in (a block start, a
    delta, a snapshot, an upsert by key). */
module AssistantContent {
  import opened Options

  /** A content block. `kind` is its trimmed type; the id fields are trimmed; `other` stands for
      all the fields the assembler only copies. */
  datatype Block = Block(
    kind: string, text: string, thinking: string, signature: string,
    id: string, toolUseId: string, taskId: string, sourceToolUseId: string, path: string,
    isError: bool, other: string)

  const EMPTY_TEXT := Block("text", "", "", "", "", "", "", "", "", false, "")

  datatype Delta = TextDelta(text: string) | ThinkingDelta(text: string) | SignatureDelta(text: string) | OtherDelta

  datatype Assembly = Assembly(content: seq<Block>, slot: map<int, nat>)

  const EMPTY := Assembly([], map[])

  /** The position a block of the given kind gets when it arrives on a raw index: the one the raw
      index has, if the block there is of this kind or of none, and a new one otherwise. */
  function LogicalIndex(a: Assembly, raw: int, kind: string): nat {
    if raw in a.slot && a.slot[raw] < |a.content| && a.content[a.slot[raw]].kind in {"", kind} then a.slot[raw]
    else |a.content|
  }

  /** The content grown by empty text blocks until it has the position. */
  function Padded(content: seq<Block>, index: nat): (padded: seq<Block>)
    ensures |padded| == if |content| <= index then index + 1 else |content|
    ensures content <= padded && forall i :: |content| <= i < |padded| ==> padded[i] == EMPTY_TEXT
  {
    if |content| <= index then content + seq(index + 1 - |content|, _ => EMPTY_TEXT) else content
  }

  function ApplyBlock(a: Assembly, raw: int, block: Block): Assembly {
    var index := LogicalIndex(a, raw, block.kind);
    Assembly(Padded(a.content, index)[index := block], a.slot[raw := index])
  }

  function KindOf(delta: Delta): string {
    match delta
    case TextDelta(_) => "text"
    case ThinkingDelta(_) | SignatureDelta(_) => "thinking"
    case OtherDelta => ""
  }

  predicate Fits(block: Block, delta: Delta) {
    !delta.OtherDelta? && block.kind == KindOf(delta)
  }

  function Extended(block: Block, delta: Delta): Block {
    match delta
    case TextDelta(t) => block.(text := block.text + t)
    case ThinkingDelta(t) => block.(thinking := block.thinking + t)
    case SignatureDelta(t) => block.(signature := block.signature + t)
    case OtherDelta => block
  }

  function DeltaIndex(a: Assembly, raw: int, delta: Delta): nat {
    if raw in a.slot then a.slot[raw] else LogicalIndex(a, raw, KindOf(delta))
  }

  /** The assembly with a place for the delta, before its text is appended. */
  function Opened(a: Assembly, raw: int, delta: Delta): Assembly {
    var index := DeltaIndex(a, raw, delta);
    Assembly(Padded(a.content, index), a.slot[raw := index])
  }

  predicate DeltaApplies(a: Assembly, raw: int, delta: Delta) {
    Fits(Opened(a, raw, delta).content[DeltaIndex(a, raw, delta)], delta)
  }

  function ApplyDelta(a: Assembly, raw: int, delta: Delta): Assembly {
    var index, o := DeltaIndex(a, raw, delta), Opened(a, raw, delta);
    if DeltaApplies(a, raw, delta) then o.(content := o.content[index := Extended(o.content[index], delta)])
    else o
  }

  // ---------------------------------------------------------------- upserts

  datatype Key = Key(kind: string, value: string)

  const ARTIFACT_KIND := "workspace_file_artifact"

  function ArtifactKey(b: Block): string {
    if b.id != "" then b.id
    else if b.sourceToolUseId == "" || b.path == "" then ""
    else b.sourceToolUseId + ":" + b.path
  }

  /** What identifies a block for an upsert; blocks of an unknown kind are never identified. */
  function KeyOf(b: Block): Option<Key> {
    if b.kind == "thinking" then Some(Key(b.kind, ""))
    else if b.kind == "tool_use" then Some(Key(b.kind, b.id))
    else if b.kind == "tool_result" then Some(Key(b.kind, b.toolUseId))
    else if b.kind == "task_progress" then Some(Key(b.kind, b.taskId))
    else if b.kind == ARTIFACT_KIND then Some(Key(b.kind, ArtifactKey(b)))
    else if b.kind == "text" then Some(Key(b.kind, b.text))
    else None
  }

  /** The first position holding a block with the key, or the length. */
  function FirstWith(content: seq<Block>, key: Option<Key>): (i: nat)
    ensures i <= |content|
    ensures i < |content| ==> KeyOf(content[i]) == key
    ensures forall j :: 0 <= j < i ==> KeyOf(content[j]) != key
  {
    if content == [] || KeyOf(content[0]) == key then 0 else 1 + FirstWith(content[1..], key)
  }

  function Upsert(content: seq<Block>, b: Block): seq<Block> {
    var i := FirstWith(content, KeyOf(b));
    if KeyOf(b).Some? && i < |content| then content[i := b] else content + [b]
  }

  function UpsertAll(content: seq<Block>, blocks: seq<Block>): seq<Block>
    decreases |blocks|
  {
    if blocks == [] then content else UpsertAll(Upsert(content, blocks[0]), blocks[1..])
  }

  /** ReplaceFromSnapshot: a snapshot fills an empty content as it is. */
  function Snapshot(content: seq<Block>, blocks: seq<Block>): seq<Block> {
    if content == [] then blocks else UpsertAll(content, blocks)
  }

  // ---------------------------------------------------------------- runs

  datatype Op =
    | Start(raw: int, block: Block)
    | Append(raw: int, delta: Delta)
    | Merge(blocks: seq<Block>)       // tool results, task progress
    | Replace(blocks: seq<Block>)     // a snapshot

  function Step(a: Assembly, op: Op): Assembly {
    match op
    case Start(raw, block) => ApplyBlock(a, raw, block)
    case Append(raw, delta) => ApplyDelta(a, raw, delta)
    case Merge(blocks) => a.(content := UpsertAll(a.content, blocks))
    case Replace(blocks) => a.(content := Snapshot(a.content, blocks))
  }

  function Run(ops: seq<Op>): Assembly {
    if ops == [] then EMPTY else Step(Run(ops[..|ops| - 1]), ops[|ops| - 1])
  }

  /** Slots are positions of the content, and no two raw indices share one. */
  ghost predicate Sound(a: Assembly) {
    && (forall r :: r in a.slot ==> a.slot[r] < |a.content|)
    && (forall r, q :: r in a.slot && q in a.slot && r != q ==> a.slot[r] != a.slot[q])
  }

  lemma {:induction false} UpsertAllKeepsLength(content: seq<Block>, blocks: seq<Block>)
    ensures |content| <= |UpsertAll(content, blocks)|
    decreases |blocks|
  {
    if blocks != [] {
      UpsertAllKeepsLength(Upsert(content, blocks[0]), blocks[1..]);
    }
  }

  lemma StepKeepsSound(a: Assembly, op: Op)
    requires Sound(a)
    ensures Sound(Step(a, op)) && |a.content| <= |Step(a, op).content|
  {
    match op
    case Start(raw, block) =>
    case Append(raw, delta) =>
    case Merge(blocks) => UpsertAllKeepsLength(a.content, blocks);
    case Replace(blocks) => UpsertAllKeepsLength(a.content, blocks);
  }

  lemma {:induction false} SlotsAlwaysSound(ops: seq<Op>)
    ensures Sound(Run(ops))
    decreases |ops|
  {
    if ops != [] {
      SlotsAlwaysSound(ops[..|ops| - 1]);
      StepKeepsSound(Run(ops[..|ops| - 1]), ops[|ops| - 1]);
    }
  }

  /** Opening a block on a raw index whose block is of another kind leaves every earlier block as
      it was and adds the new one at the end. */
  lemma ReusedRawIndexKeepsBlocks(ops: seq<Op>, raw: int, block: Block)
    requires raw in Run(ops).slot
    ensures var a, b := Run(ops), Step(Run(ops), Start(raw, block));
      && a.slot[raw] < |a.content|
      && (a.content[a.slot[raw]].kind !in {"", block.kind} ==>
            && b.content == a.content + [block] && b.slot[raw] == |a.content|
            && forall r :: r in a.slot && r != raw ==> r in b.slot && b.slot[r] == a.slot[r])
  {
    SlotsAlwaysSound(ops);
  }

  /** A block started on a raw index replaces the block that index has, if that is of its kind or of
      none; otherwise it is added at the end, and every block stays. */
  lemma StartIsPlaced(ops: seq<Op>, raw: int, block: Block)
    ensures var a, b := Run(ops), Step(Run(ops), Start(raw, block));
      && (raw in a.slot ==> a.slot[raw] < |a.content|)
      && var inPlace := raw in a.slot && a.content[a.slot[raw]].kind in [block.kind, ""];
         var index := if inPlace then a.slot[raw] else |a.content|;
         && b.slot == a.slot[raw := index]
         && b.content == if inPlace then a.content[index := block] else a.content + [block]
  {
    SlotsAlwaysSound(ops);
  }

  // ---------------------------------------------------------------- what a block is made of

  /** One start or delta of a run, with the position it went to. A delta on a raw index never
      opened counts as the start of an empty text block there. */
  datatype Entry = Started(raw: int, index: nat, block: Block) | Appended(raw: int, index: nat, delta: Delta)

  predicate Streaming(ops: seq<Op>) {
    forall i :: 0 <= i < |ops| ==> ops[i].Start? || ops[i].Append?
  }

  function EntriesOf(a: Assembly, op: Op): seq<Entry> {
    match op
    case Start(raw, block) => [Started(raw, LogicalIndex(a, raw, block.kind), block)]
    case Append(raw, delta) =>
      var index := DeltaIndex(a, raw, delta);
      (if raw in a.slot then [] else [Started(raw, index, EMPTY_TEXT)])
      + (if DeltaApplies(a, raw, delta) then [Appended(raw, index, delta)] else [])
    case _ => []
  }

  function Trace(ops: seq<Op>): seq<Entry> {
    if ops == [] then []
    else Trace(ops[..|ops| - 1]) + EntriesOf(Run(ops[..|ops| - 1]), ops[|ops| - 1])
  }

  /** The block last started at a position. */
  function StartAt(trace: seq<Entry>, index: nat): Option<Block> {
    if trace == [] then None
    else
      var e := trace[|trace| - 1];
      if e.Started? && e.index == index then Some(e.block) else StartAt(trace[..|trace| - 1], index)
  }

  /** The deltas appended at a position since its last start, in order. */
  function DeltasAt(trace: seq<Entry>, index: nat): seq<Delta> {
    if trace == [] then []
    else
      var e := trace[|trace| - 1];
      if e.index != index then DeltasAt(trace[..|trace| - 1], index)
      else if e.Started? then []
      else DeltasAt(trace[..|trace| - 1], index) + [e.delta]
  }

  /** The position of the last entry of a raw index. */
  function LastOf(trace: seq<Entry>, raw: int): Option<nat> {
    if trace == [] then None
    else
      var e := trace[|trace| - 1];
      if e.raw == raw then Some(e.index) else LastOf(trace[..|trace| - 1], raw)
  }

  function Texts(deltas: seq<Delta>): string {
    if deltas == [] then "" else
      var d := deltas[|deltas| - 1];
      Texts(deltas[..|deltas| - 1]) + if d.TextDelta? then d.text else ""
  }

  function Thinkings(deltas: seq<Delta>): string {
    if deltas == [] then "" else
      var d := deltas[|deltas| - 1];
      Thinkings(deltas[..|deltas| - 1]) + if d.ThinkingDelta? then d.text else ""
  }

  function Signatures(deltas: seq<Delta>): string {
    if deltas == [] then "" else
      var d := deltas[|deltas| - 1];
      Signatures(deltas[..|deltas| - 1]) + if d.SignatureDelta? then d.text else ""
  }

  /** A start block followed by deltas. */
  function Assembled(start: Block, deltas: seq<Delta>): Block {
    start.(text := start.text + Texts(deltas), thinking := start.thinking + Thinkings(deltas),
           signature := start.signature + Signatures(deltas))
  }

  /** A raw index leads to the position of its last entry. */
  ghost predicate Routes(trace: seq<Entry>, slot: map<int, nat>) {
    forall r :: LastOf(trace, r) == if r in slot then Some(slot[r]) else None
  }

  ghost predicate Explains(trace: seq<Entry>, content: seq<Block>) {
    && (forall i: nat :: i < |content| ==>
          StartAt(trace, i).Some? && content[i] == Assembled(StartAt(trace, i).value, DeltasAt(trace, i)))
    && (forall i: nat :: i >= |content| ==> DeltasAt(trace, i) == [])
  }

  lemma StartedStep(trace: seq<Entry>, content: seq<Block>, e: Entry)
    requires Explains(trace, content) && e.Started? && e.index <= |content|
    ensures Explains(trace + [e], Padded(content, e.index)[e.index := e.block])
  {
    var after := Padded(content, e.index)[e.index := e.block];
    assert (trace + [e])[..|trace|] == trace;
    assert Assembled(e.block, []) == e.block;
    forall i: nat | i < |after|
      ensures StartAt(trace + [e], i).Some?
          && after[i] == Assembled(StartAt(trace + [e], i).value, DeltasAt(trace + [e], i)) {
      assert i != e.index ==> i < |content| && after[i] == content[i];
    }
    forall i: nat | i >= |after| ensures DeltasAt(trace + [e], i) == [] {
      assert DeltasAt(trace, i) == [];
    }
  }

  lemma AppendedStep(trace: seq<Entry>, content: seq<Block>, e: Entry)
    requires Explains(trace, content) && e.Appended? && e.index < |content|
    ensures Explains(trace + [e], content[e.index := Extended(content[e.index], e.delta)])
  {
    var after := content[e.index := Extended(content[e.index], e.delta)];
    assert (trace + [e])[..|trace|] == trace;
    var start, deltas := StartAt(trace, e.index).value, DeltasAt(trace, e.index);
    AssembledMore(start, deltas, e.delta);
    forall i: nat | i < |after|
      ensures StartAt(trace + [e], i).Some?
          && after[i] == Assembled(StartAt(trace + [e], i).value, DeltasAt(trace + [e], i)) {
      assert i != e.index ==> after[i] == content[i];
    }
    forall i: nat | i >= |after| ensures DeltasAt(trace + [e], i) == [] {
      assert DeltasAt(trace, i) == [];
    }
  }

  lemma AssembledMore(start: Block, deltas: seq<Delta>, delta: Delta)
    ensures Assembled(start, deltas + [delta]) == Extended(Assembled(start, deltas), delta)
  {
    assert (deltas + [delta])[..|deltas|] == deltas;
    var more := Assembled(start, deltas + [delta]);
    assert more.text == start.text + Texts(deltas) + if delta.TextDelta? then delta.text else "";
    assert more.thinking == start.thinking + Thinkings(deltas) + if delta.ThinkingDelta? then delta.text else "";
    assert more.signature == start.signature + Signatures(deltas) + if delta.SignatureDelta? then delta.text else "";
  }

  lemma RoutesStep(trace: seq<Entry>, slot: map<int, nat>, e: Entry)
    requires Routes(trace, slot)
    ensures Routes(trace + [e], slot[e.raw := e.index])
  {
    assert (trace + [e])[..|trace|] == trace;
  }

  lemma StreamingStep(trace: seq<Entry>, a: Assembly, op: Op)
    requires Explains(trace, a.content) && Routes(trace, a.slot) && Sound(a) && (op.Start? || op.Append?)
    ensures Explains(trace + EntriesOf(a, op), Step(a, op).content)
        && Routes(trace + EntriesOf(a, op), Step(a, op).slot)
  {
    match op
    case Start(raw, block) =>
      var e := Started(raw, LogicalIndex(a, raw, block.kind), block);
      StartedStep(trace, a.content, e);
      RoutesStep(trace, a.slot, e);
    case Append(raw, delta) =>
      var index, o := DeltaIndex(a, raw, delta), Opened(a, raw, delta);
      var e := Appended(raw, index, delta);
      var trace' := OpenedTrace(trace, a, raw, delta);
      if DeltaApplies(a, raw, delta) {
        AppendedStep(trace', o.content, e);
        RoutesStep(trace', o.slot, e);
        assert trace' + [e] == trace + EntriesOf(a, op);
      } else {
        assert trace' == trace + EntriesOf(a, op);
      }
  }

  /** A delta on an unopened index starts a block there first. */
  lemma OpenedTrace(trace: seq<Entry>, a: Assembly, raw: int, delta: Delta) returns (trace': seq<Entry>)
    requires Explains(trace, a.content) && Routes(trace, a.slot) && Sound(a)
    ensures trace' == if raw in a.slot then trace else trace + [Started(raw, DeltaIndex(a, raw, delta), EMPTY_TEXT)]
    ensures Explains(trace', Opened(a, raw, delta).content) && Routes(trace', Opened(a, raw, delta).slot)
  {
    trace' := trace;
    if raw !in a.slot {
      var s := Started(raw, DeltaIndex(a, raw, delta), EMPTY_TEXT);
      StartedStep(trace, a.content, s);
      RoutesStep(trace, a.slot, s);
      trace' := trace + [s];
    }
  }

  /** In a run of block starts and deltas every block is its last start followed by the deltas
      applied there since, in order, and a raw index leads to the position of its last start or
      delta. */
  lemma {:induction false} BlocksAreAssembled(ops: seq<Op>)
    requires Streaming(ops)
    ensures Explains(Trace(ops), Run(ops).content) && Routes(Trace(ops), Run(ops).slot)
    decreases |ops|
  {
    if ops != [] {
      var before := ops[..|ops| - 1];
      BlocksAreAssembled(before);
      SlotsAlwaysSound(before);
      StreamingStep(Trace(before), Run(before), ops[|ops| - 1]);
    }
  }

  /** A thinking or signature delta on a raw index never opened is dropped, and leaves an empty
      text block behind. */
  lemma ThinkingDeltaWithoutStart(ops: seq<Op>, raw: int, delta: Delta)
    requires raw !in Run(ops).slot
    ensures var a, b := Run(ops), Step(Run(ops), Append(raw, delta));
      b.content == a.content + [if delta.TextDelta? then EMPTY_TEXT.(text := delta.text) else EMPTY_TEXT]
  {
    var a := Run(ops);
    assert Opened(a, raw, delta).content == a.content + [EMPTY_TEXT];
    assert delta.TextDelta? ==> Extended(EMPTY_TEXT, delta) == EMPTY_TEXT.(text := delta.text);
  }

  // ---------------------------------------------------------------- what the stream publishes

  /** CurrentBlock reads its argument as a raw index first. */
  function CurrentIndex(a: Assembly, index: nat): nat {
    if index in a.slot then a.slot[index] else index
  }

  function CurrentBlock(a: Assembly, index: nat): Option<Block> {
    var i := CurrentIndex(a, index);
    if i < |a.content| then Some(a.content[i]) else None
  }

  /** The payload of an applied delta carries its position i, but the block is looked up through
      CurrentBlock(i), which maps i once more. It is the block at i exactly when i, taken as a raw
      index, was never opened or is the very raw index the delta came on. */
  lemma PayloadReadsItsPosition(ops: seq<Op>, raw: int, delta: Delta)
    ensures var a, b := Run(ops), Step(Run(ops), Append(raw, delta));
      var i := DeltaIndex(a, raw, delta);
      && b.slot[raw] == i < |b.content|
      && CurrentBlock(b, i).Some?
      && (CurrentIndex(b, i) == i <==> i !in b.slot || raw == i)
  {
    SlotsAlwaysSound(ops);
    StepKeepsSound(Run(ops), Append(raw, delta));
  }

  /** Two blocks opened on raw indices 1 and 0, then a delta for the first: the position published
      is 0 and the block published is the one at 1. */
  lemma PayloadOfAnotherBlock(thinking: Block, text: Block, t: string)
    requires thinking.kind == "thinking" && text.kind == "text"
    ensures var ops := [Start(1, thinking), Start(0, text)];
      var b := Run(ops + [Append(1, ThinkingDelta(t))]);
      && DeltaIndex(Run(ops), 1, ThinkingDelta(t)) == 0 && DeltaApplies(Run(ops), 1, ThinkingDelta(t))
      && CurrentBlock(b, 0) == Some(text) && b.content[0] == thinking.(thinking := thinking.thinking + t)
  {
    var one, two := [Start(1, thinking)], [Start(1, thinking), Start(0, text)];
    var three := two + [Append(1, ThinkingDelta(t))];
    assert one[..0] == [] && two[..1] == one && three[..2] == two;
    assert Run(one) == ApplyBlock(EMPTY, 1, thinking);
    assert Run(one).content == [thinking] && Run(one).slot == map[1 := 0];
    assert Run(two) == ApplyBlock(Run(one), 0, text);
    assert Run(two).content == [thinking, text] && Run(two).slot == map[1 := 0, 0 := 1];
  }

  /** The last raw index opened by a run, or -1. */
  function Newest(ops: seq<Op>): int {
    if ops == [] then -1
    else
      var op := ops[|ops| - 1];
      if op.Start? then op.raw else Newest(ops[..|ops| - 1])
  }

  /** Raw indices are opened 0, 1, 2, ..., each again at will until the next, and deltas come only
      on the newest. Merges and snapshots may come at any time. */
  ghost predicate Disciplined(ops: seq<Op>) {
    ops == [] ||
    var before, op := ops[..|ops| - 1], ops[|ops| - 1];
    && Disciplined(before)
    && (op.Start? ==> op.raw == Newest(before) + 1 || op.raw == Newest(before) >= 0)
    && (op.Append? ==> op.raw == Newest(before) >= 0)
  }

  lemma {:induction false} DisciplinedSlots(ops: seq<Op>)
    requires Disciplined(ops)
    ensures var a, n := Run(ops), Newest(ops);
      && n >= -1
      && (forall r :: r in a.slot <==> 0 <= r <= n)
      && (n >= 0 ==> n <= a.slot[n] < |a.content|)
    decreases |ops|
  {
    if ops != [] {
      var before, op := ops[..|ops| - 1], ops[|ops| - 1];
      DisciplinedSlots(before);
      StepKeepsLength(Run(before), op);
      assert Run(ops).slot.Keys == Run(before).slot.Keys + if op.Start? then {op.raw} else {};
    }
  }

  lemma StepKeepsLength(a: Assembly, op: Op)
    ensures |a.content| <= |Step(a, op).content|
  {
    match op
    case Start(raw, block) =>
    case Append(raw, delta) =>
    case Merge(blocks) => UpsertAllKeepsLength(a.content, blocks);
    case Replace(blocks) => UpsertAllKeepsLength(a.content, blocks);
  }

  /** In such a run the block published for a delta is the block at the position published. */
  lemma DisciplinedPayloads(ops: seq<Op>, raw: int, delta: Delta)
    requires Disciplined(ops + [Append(raw, delta)])
    ensures var i := DeltaIndex(Run(ops), raw, delta);
      var b := Run(ops + [Append(raw, delta)]);
      i < |b.content| && CurrentBlock(b, i) == Some(b.content[i])
  {
    var all := ops + [Append(raw, delta)];
    assert all[..|all| - 1] == ops;
    DisciplinedSlots(ops);
    DisciplinedSlots(all);
    PayloadReadsItsPosition(ops, raw, delta);
  }
}

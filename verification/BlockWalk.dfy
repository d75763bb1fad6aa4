/** The walk over converted document blocks: filterDescendants on an arbitrary, possibly cyclic
    graph of blocks, and the chunking of the first-level ids it is called with. */
module BlockWalk {
  import opened Options

  datatype Block = Block(id: string, children: seq<string>, payload: string)

  type Graph = map<string, Block>

  /** The index by id: blocks without an id are left out, and the last block with an id wins. */
  function IndexById(blocks: seq<Block>): (g: Graph)
    ensures forall id :: id in g ==> g[id].id == id && id != ""
  {
    if blocks == [] then map[]
    else
      var g, b := IndexById(blocks[..|blocks| - 1]), blocks[|blocks| - 1];
      if b.id != "" then g[b.id := b] else g
  }

  /** Under each id stands the last block with it. */
  lemma {:induction false} IndexIsLast(blocks: seq<Block>, i: nat)
    requires i < |blocks| && blocks[i].id != "" && forall j :: i < j < |blocks| ==> blocks[j].id != blocks[i].id
    ensures blocks[i].id in IndexById(blocks) && IndexById(blocks)[blocks[i].id] == blocks[i]
    decreases |blocks|
  {
    if i < |blocks| - 1 {
      IndexIsLast(blocks[..|blocks| - 1], i);
    }
  }

  lemma {:induction false} IndexedAreGiven(blocks: seq<Block>, id: string)
    requires id in IndexById(blocks)
    ensures id != "" && IndexById(blocks)[id] in blocks
    decreases |blocks|
  {
    var front, b := blocks[..|blocks| - 1], blocks[|blocks| - 1];
    assert blocks == front + [b];
    if b.id != id {
      IndexedAreGiven(front, id);
    }
  }

  // ---------------------------------------------------------------- reachability

  ghost predicate IsPath(g: Graph, p: seq<string>) {
    && |p| > 0
    && (forall i :: 0 <= i < |p| ==> p[i] in g)
    && (forall i :: 0 <= i < |p| - 1 ==> p[i + 1] in g[p[i]].children)
  }

  /** There is a path of existing blocks from one of the given ids to `x`. */
  ghost predicate Reachable(g: Graph, from: seq<string>, x: string) {
    exists p :: IsPath(g, p) && p[0] in from && p[|p| - 1] == x
  }

  // ---------------------------------------------------------------- the walk

  function Elements(s: seq<string>): set<string> {
    set x | x in s
  }

  ghost predicate Distinct(s: seq<string>) {
    forall i, j :: 0 <= i < j < |s| ==> s[i] != s[j]
  }

  /** The ids the walk visits from one id while `left` are the existing blocks not yet seen: the
      id, then what its children lead to. */
  function Visit(g: Graph, id: string, left: set<string>): (order: seq<string>)
    requires left <= g.Keys
    ensures Elements(order) <= left
    decreases left, 0
  {
    if id !in left then [] else [id] + Visits(g, g[id].children, left - {id})
  }

  function Visits(g: Graph, ids: seq<string>, left: set<string>): (order: seq<string>)
    requires left <= g.Keys
    ensures Elements(order) <= left
    decreases left, |ids|
  {
    if ids == [] then []
    else
      var first := Visit(g, ids[0], left);
      first + Visits(g, ids[1..], left - Elements(first))
  }

  lemma DistinctConcat(a: seq<string>, b: seq<string>)
    requires Distinct(a) && Distinct(b) && Elements(a) !! Elements(b)
    ensures Distinct(a + b)
  {
    forall i, j | 0 <= i < |a| && 0 <= j < |b| ensures a[i] != b[j] {
      assert a[i] in Elements(a) && b[j] in Elements(b);
    }
  }

  lemma {:induction false} VisitOnce(g: Graph, id: string, left: set<string>)
    requires left <= g.Keys
    ensures Distinct(Visit(g, id, left))
    decreases left, 0
  {
    if id in left {
      VisitsOnce(g, g[id].children, left - {id});
      DistinctConcat([id], Visits(g, g[id].children, left - {id}));
    }
  }

  lemma {:induction false} VisitsOnce(g: Graph, ids: seq<string>, left: set<string>)
    requires left <= g.Keys
    ensures Distinct(Visits(g, ids, left))
    decreases left, |ids|
  {
    if ids != [] {
      var first := Visit(g, ids[0], left);
      VisitOnce(g, ids[0], left);
      VisitsOnce(g, ids[1..], left - Elements(first));
      DistinctConcat(first, Visits(g, ids[1..], left - Elements(first)));
    }
  }

  /** Everything visited is reachable from the ids. */
  lemma {:induction false} VisitReachable(g: Graph, id: string, left: set<string>, x: string)
    requires left <= g.Keys && x in Visit(g, id, left)
    ensures Reachable(g, [id], x)
    decreases left, 0
  {
    if x == id {
      assert IsPath(g, [x]);
    } else {
      VisitsReachable(g, g[id].children, left - {id}, x);
      var p :| IsPath(g, p) && p[0] in g[id].children && p[|p| - 1] == x;
      assert IsPath(g, [id] + p);
    }
  }

  lemma {:induction false} VisitsReachable(g: Graph, ids: seq<string>, left: set<string>, x: string)
    requires left <= g.Keys && x in Visits(g, ids, left)
    ensures Reachable(g, ids, x)
    decreases left, |ids|
  {
    var first := Visit(g, ids[0], left);
    if x in first {
      VisitReachable(g, ids[0], left, x);
      ReachableFromMore(g, [ids[0]], ids, x);
    } else {
      VisitsReachable(g, ids[1..], left - Elements(first), x);
      ReachableFromMore(g, ids[1..], ids, x);
    }
  }

  lemma ReachableFromMore(g: Graph, ids: seq<string>, more: seq<string>, x: string)
    requires Reachable(g, ids, x) && forall i :: i in ids ==> i in more
    ensures Reachable(g, more, x)
  {
    var p :| IsPath(g, p) && p[0] in ids && p[|p| - 1] == x;
    assert p[0] in more;
  }

  /** Of the children of what has been visited, none is left. */
  ghost predicate ChildrenGone(g: Graph, visited: seq<string>, left: set<string>) {
    forall x, c :: x in visited && x in g && c in g[x].children ==> c !in left
  }

  lemma {:induction false} VisitComplete(g: Graph, id: string, left: set<string>)
    requires left <= g.Keys
    ensures id !in left - Elements(Visit(g, id, left))
    ensures ChildrenGone(g, Visit(g, id, left), left - Elements(Visit(g, id, left)))
    decreases left, 0
  {
    if id in left {
      VisitsComplete(g, g[id].children, left - {id});
      var below := Visits(g, g[id].children, left - {id});
      assert left - Elements([id] + below) == left - {id} - Elements(below);
    }
  }

  lemma {:induction false} VisitsComplete(g: Graph, ids: seq<string>, left: set<string>)
    requires left <= g.Keys
    ensures var order := Visits(g, ids, left);
      && (forall x :: x in ids ==> x !in left - Elements(order))
      && ChildrenGone(g, order, left - Elements(order))
    decreases left, |ids|
  {
    if ids != [] {
      var first := Visit(g, ids[0], left);
      var rest := Visits(g, ids[1..], left - Elements(first));
      VisitComplete(g, ids[0], left);
      VisitsComplete(g, ids[1..], left - Elements(first));
      assert left - Elements(first + rest) == left - Elements(first) - Elements(rest);
    }
  }

  lemma {:induction false} PathStaysVisited(g: Graph, p: seq<string>, order: seq<string>)
    requires IsPath(g, p) && p[0] in order && ChildrenGone(g, order, g.Keys - Elements(order))
    ensures p[|p| - 1] in order
    decreases |p|
  {
    if |p| > 1 {
      assert p[0 + 1] in g[p[0]].children;
      assert p[0] in g && p[1] in g.Keys;
      assert p[1] !in g.Keys - Elements(order);
      assert IsPath(g, p[1..]) by {
        forall i | 0 <= i < |p[1..]| - 1 ensures p[1..][i + 1] in g[p[1..][i]].children {
          assert p[(i + 1) + 1] in g[p[i + 1]].children;
        }
      }
      PathStaysVisited(g, p[1..], order);
    }
  }

  /** The walk visits exactly the existing blocks reachable from the given ids, each once, on any
      graph. */
  lemma WalkIsReachability(g: Graph, ids: seq<string>)
    ensures var order := Visits(g, ids, g.Keys);
      && (forall x :: x in order <==> Reachable(g, ids, x))
      && Distinct(order)
  {
    var order := Visits(g, ids, g.Keys);
    VisitsOnce(g, ids, g.Keys);
    VisitsComplete(g, ids, g.Keys);
    forall x | x in order ensures Reachable(g, ids, x) {
      VisitsReachable(g, ids, g.Keys, x);
    }
    forall x | Reachable(g, ids, x) ensures x in order {
      var p :| IsPath(g, p) && p[0] in ids && p[|p| - 1] == x;
      PathStaysVisited(g, p, order);
    }
  }

  /** The block at position `i` is the child of a block before it. */
  ghost predicate HasParentBefore(g: Graph, order: seq<string>, i: nat)
    requires i < |order|
  {
    exists j :: 0 <= j < i && order[j] in g && order[i] in g[order[j]].children
  }

  /** Every block is one of the given ones or comes after one it is a child of. */
  ghost predicate ParentsFirst(g: Graph, ids: seq<string>, order: seq<string>) {
    forall i :: 0 <= i < |order| ==> order[i] in ids || HasParentBefore(g, order, i)
  }

  lemma ParentsUnder(g: Graph, id: string, rest: seq<string>)
    requires id in g && ParentsFirst(g, g[id].children, rest)
    ensures ParentsFirst(g, [id], [id] + rest)
  {
    var order := [id] + rest;
    forall i | 1 <= i < |order| ensures HasParentBefore(g, order, i) {
      if rest[i - 1] in g[id].children {
        assert order[0] == id;
      } else {
        var j :| 0 <= j < i - 1 && rest[j] in g && rest[i - 1] in g[rest[j]].children;
        assert order[j + 1] == rest[j];
      }
    }
  }

  lemma ParentsBeside(g: Graph, ids: seq<string>, first: seq<string>, rest: seq<string>)
    requires |ids| > 0 && ParentsFirst(g, [ids[0]], first) && ParentsFirst(g, ids[1..], rest)
    ensures ParentsFirst(g, ids, first + rest)
  {
    var order := first + rest;
    forall i | 0 <= i < |order| ensures order[i] in ids || HasParentBefore(g, order, i) {
      if i < |first| {
        if first[i] != ids[0] {
          var j :| 0 <= j < i && first[j] in g && first[i] in g[first[j]].children;
          assert order[j] == first[j];
        }
      } else if rest[i - |first|] !in ids[1..] {
        var j :| 0 <= j < i - |first| && rest[j] in g && rest[i - |first|] in g[rest[j]].children;
        assert order[|first| + j] == rest[j];
      }
    }
  }

  lemma {:induction false} VisitParentsFirst(g: Graph, id: string, left: set<string>)
    requires left <= g.Keys
    ensures ParentsFirst(g, [id], Visit(g, id, left))
    decreases left, 0
  {
    if id in left {
      VisitsParentsFirst(g, g[id].children, left - {id});
      ParentsUnder(g, id, Visits(g, g[id].children, left - {id}));
    }
  }

  lemma {:induction false} VisitsParentsFirst(g: Graph, ids: seq<string>, left: set<string>)
    requires left <= g.Keys
    ensures ParentsFirst(g, ids, Visits(g, ids, left))
    decreases left, |ids|
  {
    if ids != [] {
      var first := Visit(g, ids[0], left);
      VisitParentsFirst(g, ids[0], left);
      VisitsParentsFirst(g, ids[1..], left - Elements(first));
      ParentsBeside(g, ids, first, Visits(g, ids[1..], left - Elements(first)));
    }
  }

  /** The walk begins with the first id, if there is such a block, and visits every other block that was
      not asked for after one it is a child of. */
  lemma WalkIsPreorder(g: Graph, ids: seq<string>)
    ensures var order := Visits(g, ids, g.Keys);
      ParentsFirst(g, ids, order) && (|ids| > 0 && ids[0] in g ==> |order| > 0 && order[0] == ids[0])
  {
    VisitsParentsFirst(g, ids, g.Keys);
  }

  function BlocksOf(g: Graph, order: seq<string>): (blocks: seq<Block>)
    requires Elements(order) <= g.Keys
    ensures |blocks| == |order| && forall i :: 0 <= i < |order| ==> order[i] in g && blocks[i] == g[order[i]]
  {
    assert forall i :: 0 <= i < |order| ==> order[i] in Elements(order);
    seq(|order|, i requires 0 <= i < |order| => g[order[i]])
  }

  lemma ElementsOfConcat(a: seq<string>, b: seq<string>)
    ensures Elements(a + b) == Elements(a) + Elements(b)
  {
    forall x ensures x in Elements(a + b) <==> x in Elements(a) + Elements(b) {
      if x in a + b {
        assert x in a || x in b;
      }
    }
  }

  lemma BlocksOfConcat(g: Graph, a: seq<string>, b: seq<string>)
    requires Elements(a) <= g.Keys && Elements(b) <= g.Keys
    ensures Elements(a + b) <= g.Keys && BlocksOf(g, a + b) == BlocksOf(g, a) + BlocksOf(g, b)
  {
    ElementsOfConcat(a, b);
  }

  /** The recursive closure of filterDescendants, with the map and the list it captures. */
  class Walker {
    const byId: Graph
    var seen: set<string>
    var result: seq<Block>

    ghost function Left(): set<string> reads this { byId.Keys - seen }

    constructor (byId: Graph)
      ensures this.byId == byId && seen == {} && result == []
    {
      this.byId := byId;
      seen, result := {}, [];
    }

    method Walk(id: string)
      modifies this
      ensures Left() == old(Left()) - Elements(Visit(byId, id, old(Left())))
      ensures result == old(result) + BlocksOf(byId, Visit(byId, id, old(Left())))
      decreases Left(), 0
    {
      if id in seen || id !in byId {
        return;
      }
      var block := byId[id];
      seen := seen + {id};
      result := result + [block];
      assert Left() == old(Left()) - {id};
      WalkAll(block.children);
      ghost var below := Visits(byId, block.children, old(Left()) - {id});
      BlocksOfConcat(byId, [id], below);
      ElementsOfConcat([id], below);
      assert Elements([id]) == {id};
      assert BlocksOf(byId, [id]) == [block];
    }

    method WalkAll(ids: seq<string>)
      modifies this
      ensures Left() == old(Left()) - Elements(Visits(byId, ids, old(Left())))
      ensures result == old(result) + BlocksOf(byId, Visits(byId, ids, old(Left())))
      decreases Left(), 1
    {
      var i := 0;
      ghost var before, done := Left(), [];
      assert ids[0..] == ids;
      while i < |ids|
        invariant Walked(byId, ids, i, before, Left(), done)
        invariant result == old(result) + BlocksOf(byId, done)
      {
        WalkStep(byId, ids, i, before, Left(), done);
        ThenBlocks(old(result), BlocksOf(byId, done), BlocksOf(byId, Visit(byId, ids[i], Left())));
        done := done + Visit(byId, ids[i], Left());
        Walk(ids[i]);
        i := i + 1;
      }
      WalkEnds(byId, ids, i, before, Left(), done);
    }
  }

  lemma ThenBlocks(before: seq<Block>, a: seq<Block>, b: seq<Block>)
    ensures before + a + b == before + (a + b)
  {}

  /** The first `i` ids are walked: `done` is visited, and `left` is what is left of `before`. */
  ghost predicate Walked(g: Graph, ids: seq<string>, i: nat, before: set<string>, left: set<string>,
        done: seq<string>) {
    && i <= |ids| && before <= g.Keys && Elements(done) <= before && left == before - Elements(done)
    && Visits(g, ids, before) == done + Visits(g, ids[i..], left)
  }

  lemma WalkStep(g: Graph, ids: seq<string>, i: nat, before: set<string>, left: set<string>, done: seq<string>)
    requires Walked(g, ids, i, before, left, done) && i < |ids|
    ensures var first := Visit(g, ids[i], left);
      && Walked(g, ids, i + 1, before, left - Elements(first), done + first)
      && BlocksOf(g, done + first) == BlocksOf(g, done) + BlocksOf(g, first)
  {
    var first := Visit(g, ids[i], left);
    ElementsOfConcat(done, first);
    BlocksOfConcat(g, done, first);
    assert ids[i..][1..] == ids[i + 1..];
    var rest := Visits(g, ids[i + 1..], left - Elements(first));
    assert done + (first + rest) == done + first + rest;
  }

  lemma WalkEnds(g: Graph, ids: seq<string>, i: nat, before: set<string>, left: set<string>, done: seq<string>)
    requires Walked(g, ids, i, before, left, done) && i == |ids|
    ensures done == Visits(g, ids, before)
  {
    assert done + [] == done;
  }

  /** filterDescendants: the blocks reachable from the first-level ids, each once, parents before
      the children found through them. */
  method FilterDescendants(blocks: seq<Block>, firstLevelIds: seq<string>) returns (result: seq<Block>)
    ensures var g := IndexById(blocks); result == BlocksOf(g, Visits(g, firstLevelIds, g.Keys))
    ensures forall b :: b in result <==> exists x :: IsReachableBlock(IndexById(blocks), firstLevelIds, x, b)
    ensures forall i, j :: 0 <= i < j < |result| ==> result[i].id != result[j].id
  {
    var byId := map[];
    var i := 0;
    while i < |blocks|
      invariant i <= |blocks|
      invariant byId == IndexById(blocks[..i])
    {
      assert blocks[..i + 1][..i] == blocks[..i];
      if blocks[i].id != "" {
        byId := byId[blocks[i].id := blocks[i]];
      }
      i := i + 1;
    }
    assert blocks[..i] == blocks;
    var walker := new Walker(byId);
    assert walker.Left() == byId.Keys;
    walker.WalkAll(firstLevelIds);
    result := walker.result;
    WalkedBlocks(byId, firstLevelIds);
    WalkedOnce(byId, firstLevelIds);
  }

  lemma WalkedOnce(g: Graph, ids: seq<string>)
    requires forall id :: id in g ==> g[id].id == id
    ensures var blocks := BlocksOf(g, Visits(g, ids, g.Keys));
      forall i, j :: 0 <= i < j < |blocks| ==> blocks[i].id != blocks[j].id
  {
    WalkIsReachability(g, ids);
    var order := Visits(g, ids, g.Keys);
    assert forall i :: 0 <= i < |order| ==> order[i] in g && BlocksOf(g, order)[i].id == order[i];
  }

  /** The block list of a walk holds a block exactly when the block is reachable under its id. */
  lemma WalkedBlocks(g: Graph, ids: seq<string>)
    ensures forall b :: b in BlocksOf(g, Visits(g, ids, g.Keys)) <==> exists x :: IsReachableBlock(g, ids, x, b)
  {
    WalkIsReachability(g, ids);
    var order := Visits(g, ids, g.Keys);
    var blocks := BlocksOf(g, order);
    forall b ensures b in blocks <==> exists x :: IsReachableBlock(g, ids, x, b) {
      if b in blocks {
        var n :| 0 <= n < |blocks| && blocks[n] == b;
        assert IsReachableBlock(g, ids, order[n], b);
      }
      if x :| IsReachableBlock(g, ids, x, b) {
        var n :| 0 <= n < |order| && order[n] == x;
        assert blocks[n] == b;
      }
    }
  }

  ghost predicate IsReachableBlock(g: Graph, ids: seq<string>, x: string, b: Block) {
    Reachable(g, ids, x) && x in g && g[x] == b
  }

  // ---------------------------------------------------------------- chunks

  function Concat(chunks: seq<seq<string>>): seq<string> {
    if chunks == [] then [] else Concat(chunks[..|chunks| - 1]) + chunks[|chunks| - 1]
  }

  function ChunksOf(values: seq<string>, size: nat): seq<seq<string>>
    requires size > 0
  {
    if |values| == 0 then []
    else if |values| <= size then [values]
    else [values[..size]] + ChunksOf(values[size..], size)
  }

  /** What is still to be cut from `start` on. */
  function ChunksFrom(values: seq<string>, start: nat, size: nat): seq<seq<string>>
    requires size > 0
  {
    if start < |values| then ChunksOf(values[start..], size) else []
  }

  lemma NextChunk(values: seq<string>, start: nat, size: nat, end: nat)
    requires size > 0 && start < |values| && end == if start + size > |values| then |values| else start + size
    ensures ChunksFrom(values, start, size) == [values[start..end]] + ChunksFrom(values, start + size, size)
  {
    var rest := values[start..];
    if |rest| <= size {
      assert rest == values[start..end];
    } else {
      assert rest[..size] == values[start..end] && rest[size..] == values[start + size..];
    }
  }

  /** The chunks cut so far, with `start` the next place to cut. */
  ghost predicate CutSoFar(chunks: seq<seq<string>>, values: seq<string>, start: nat, size: nat)
    requires size > 0
  {
    chunks + ChunksFrom(values, start, size) == ChunksOf(values, size)
  }

  lemma CutNext(chunks: seq<seq<string>>, values: seq<string>, start: nat, size: nat, end: nat)
    requires size > 0 && start < |values| && end == if start + size > |values| then |values| else start + size
    requires CutSoFar(chunks, values, start, size)
    ensures CutSoFar(chunks + [values[start..end]], values, start + size, size)
  {
    NextChunk(values, start, size, end);
    var rest := ChunksFrom(values, start + size, size);
    assert chunks + ([values[start..end]] + rest) == chunks + [values[start..end]] + rest;
  }

  lemma CutEnds(chunks: seq<seq<string>>, values: seq<string>, start: nat, size: nat)
    requires size > 0 && CutSoFar(chunks, values, start, size)
    ensures start >= |values| ==> chunks == ChunksOf(values, size)
  {
    if start >= |values| {
      assert chunks + [] == chunks;
    }
  }

  lemma {:induction false} ConcatCons(chunk: seq<string>, chunks: seq<seq<string>>)
    ensures Concat([chunk] + chunks) == chunk + Concat(chunks)
    decreases |chunks|
  {
    var all := [chunk] + chunks;
    if chunks == [] {
      assert all[..0] == [];
    } else {
      ConcatCons(chunk, chunks[..|chunks| - 1]);
      assert all[..|all| - 1] == [chunk] + chunks[..|chunks| - 1];
    }
  }

  /** The chunks concatenate to the values, and all are of the given size except a shorter last. */
  lemma {:induction false} ChunksOfMeaning(values: seq<string>, size: nat)
    requires size > 0
    ensures var chunks := ChunksOf(values, size);
      && Concat(chunks) == values
      && forall i :: 0 <= i < |chunks| ==> 0 < |chunks[i]| <= size && (i < |chunks| - 1 ==> |chunks[i]| == size)
    decreases |values|
  {
    if 0 < |values| <= size {
      assert [values][..0] == [];
    } else if |values| > 0 {
      ChunksOfMeaning(values[size..], size);
      ConcatCons(values[..size], ChunksOf(values[size..], size));
      assert values[..size] + values[size..] == values;
    }
  }

  /** chunkStrings. */
  method ChunkStrings(values: seq<string>, size: int) returns (chunks: seq<seq<string>>)
    ensures chunks == if size <= 0 then [] else ChunksOf(values, size)
    ensures size > 0 ==> Concat(chunks) == values
    ensures forall i :: 0 <= i < |chunks| ==> 0 < |chunks[i]| <= size && (i < |chunks| - 1 ==> |chunks[i]| == size)
  {
    chunks := [];
    if size <= 0 || |values| == 0 {
      return;
    }
    assert CutSoFar([], values, 0, size) by {
      assert values[0..] == values;
    }
    var start: nat := 0;
    while start < |values|
      invariant CutSoFar(chunks, values, start, size)
    {
      var end := start + size;
      if end > |values| {
        end := |values|;
      }
      CutNext(chunks, values, start, size, end);
      chunks := chunks + [values[start..end]];
      start := start + size;
    }
    CutEnds(chunks, values, start, size);
    ChunksOfMeaning(values, size);
  }

  /** Walking chunk by chunk reaches, all chunks together, what one walk from all ids reaches. */
  lemma {:induction false} ChunksReachTheSame(g: Graph, chunks: seq<seq<string>>, x: string)
    ensures Reachable(g, Concat(chunks), x) <==> exists i :: 0 <= i < |chunks| && x in Visits(g, chunks[i], g.Keys)
  {
    if Reachable(g, Concat(chunks), x) {
      var p :| IsPath(g, p) && p[0] in Concat(chunks) && p[|p| - 1] == x;
      var i := ChunkOf(chunks, p[0]);
      WalkIsReachability(g, chunks[i]);
      assert Reachable(g, chunks[i], x);
    }
    if i :| 0 <= i < |chunks| && x in Visits(g, chunks[i], g.Keys) {
      WalkIsReachability(g, chunks[i]);
      assert Reachable(g, chunks[i], x);
      var p :| IsPath(g, p) && p[0] in chunks[i] && p[|p| - 1] == x;
      InConcat(chunks, i, p[0]);
    }
  }

  lemma {:induction false} ChunkOf(chunks: seq<seq<string>>, id: string) returns (i: nat)
    requires id in Concat(chunks)
    ensures i < |chunks| && id in chunks[i]
  {
    if id in chunks[|chunks| - 1] {
      i := |chunks| - 1;
    } else {
      i := ChunkOf(chunks[..|chunks| - 1], id);
    }
  }

  lemma {:induction false} InConcat(chunks: seq<seq<string>>, i: nat, id: string)
    requires i < |chunks| && id in chunks[i]
    ensures id in Concat(chunks)
  {
    if i < |chunks| - 1 {
      InConcat(chunks[..|chunks| - 1], i, id);
    }
  }

  // ---------------------------------------------------------------- the blocks requested

  /** How many blocks the walks of the chunks list together, each with all its descendants. */
  function Created(g: Graph, chunks: seq<seq<string>>): nat {
    if chunks == [] then 0
    else Created(g, chunks[..|chunks| - 1]) + |Visits(g, chunks[|chunks| - 1], g.Keys)|
  }

  ghost function ReachedBy(g: Graph, chunk: seq<string>): set<string> {
    Elements(Visits(g, chunk, g.Keys))
  }

  ghost function Reached(g: Graph, chunks: seq<seq<string>>): set<string> {
    if chunks == [] then {} else Reached(g, chunks[..|chunks| - 1]) + ReachedBy(g, chunks[|chunks| - 1])
  }

  /** No block is reachable from two chunks. */
  ghost predicate Apart(g: Graph, chunks: seq<seq<string>>) {
    forall i, j :: 0 <= i < j < |chunks| ==> ReachedBy(g, chunks[i]) !! ReachedBy(g, chunks[j])
  }

  lemma {:induction false} DistinctCount(s: seq<string>)
    requires Distinct(s)
    ensures |Elements(s)| == |s|
    decreases |s|
  {
    if |s| > 0 {
      var front, last := s[..|s| - 1], s[|s| - 1];
      DistinctCount(front);
      assert last !in Elements(front);
      assert Elements(s) == Elements(front) + {last};
    } else {
      assert Elements(s) == {};
    }
  }

  lemma UnionCount(a: set<string>, b: set<string>)
    ensures |a + b| <= |a| + |b| && (|a + b| == |a| + |b| <==> a !! b)
  {
    assert a + b == a + (b - a) && b == (b - a) + (b * a);
    assert |b| == |b - a| + |b * a|;
    assert |b * a| == 0 <==> b * a == {};
  }

  lemma {:induction false} ReachedMembers(g: Graph, chunks: seq<seq<string>>, x: string)
    ensures x in Reached(g, chunks) <==> exists i :: 0 <= i < |chunks| && x in ReachedBy(g, chunks[i])
    decreases |chunks|
  {
    if chunks != [] {
      ReachedMembers(g, chunks[..|chunks| - 1], x);
      if i :| 0 <= i < |chunks| && x in ReachedBy(g, chunks[i]) {
        assert i < |chunks| - 1 ==> x in ReachedBy(g, chunks[..|chunks| - 1][i]);
      }
    }
  }

  /** Every chunk is walked on its own: what is created is every reachable block at least once, and
      each exactly once if and only if no block is reachable from two chunks. */
  lemma {:induction false} CreatedCount(g: Graph, chunks: seq<seq<string>>)
    ensures |Reached(g, chunks)| <= Created(g, chunks)
    ensures |Reached(g, chunks)| == Created(g, chunks) <==> Apart(g, chunks)
    decreases |chunks|
  {
    if chunks != [] {
      var front, last := chunks[..|chunks| - 1], chunks[|chunks| - 1];
      CreatedCount(g, front);
      WalkIsReachability(g, last);
      DistinctCount(Visits(g, last, g.Keys));
      UnionCount(Reached(g, front), ReachedBy(g, last));
      ApartStep(g, chunks);
    }
  }

  lemma ApartStep(g: Graph, chunks: seq<seq<string>>)
    requires chunks != []
    ensures var front, last := chunks[..|chunks| - 1], chunks[|chunks| - 1];
      Apart(g, chunks) <==> Apart(g, front) && Reached(g, front) !! ReachedBy(g, last)
  {
    var front, last := chunks[..|chunks| - 1], chunks[|chunks| - 1];
    if Apart(g, chunks) {
      forall x | x in Reached(g, front) ensures x !in ReachedBy(g, last) {
        ReachedMembers(g, front, x);
      }
    }
    if Apart(g, front) && Reached(g, front) !! ReachedBy(g, last) {
      forall i, j | 0 <= i < j < |chunks| ensures ReachedBy(g, chunks[i]) !! ReachedBy(g, chunks[j]) {
        if j < |front| {
          assert ReachedBy(g, front[i]) !! ReachedBy(g, front[j]);
        } else {
          forall x | x in ReachedBy(g, chunks[i]) ensures x !in ReachedBy(g, last) {
            ReachedMembers(g, front, x);
            assert x in ReachedBy(g, front[i]);
          }
        }
      }
    }
  }

  // ---------------------------------------------------------------- the requests

  /** How a request is answered: with data, without, or with an error. */
  datatype Answer = Accepted | NoData | Refused
  datatype Request = Request(ids: seq<string>, blocks: seq<Block>)

  /** One request for each chunk that leads to some block, with all it leads to. */
  function Requests(g: Graph, chunks: seq<seq<string>>): seq<Request> {
    if chunks == [] then []
    else
      var before, chunk := Requests(g, chunks[..|chunks| - 1]), chunks[|chunks| - 1];
      var order := Visits(g, chunk, g.Keys);
      if |order| == 0 then before else before + [Request(chunk, BlocksOf(g, order))]
  }

  /** The blocks of the accepted requests. */
  function CountAccepted(rs: seq<Request>, answers: nat -> Answer): nat {
    if rs == [] then 0
    else
      var n := |rs| - 1;
      CountAccepted(rs[..n], answers) + if answers(n).Accepted? then |rs[n].blocks| else 0
  }

  /** The blocks counted: those of the requests answered with data. */
  ghost function Answered(rs: seq<Request>, answers: nat -> Answer): set<(nat, nat)> {
    set k: nat, i: nat | k < |rs| && i < |rs[k].blocks| && answers(k) == Accepted :: (k, i)
  }

  lemma {:induction false} CountIsAnswered(rs: seq<Request>, answers: nat -> Answer)
    ensures CountAccepted(rs, answers) == |Answered(rs, answers)|
    decreases |rs|
  {
    if rs == [] {
      assert Answered(rs, answers) == {};
    } else {
      var n := |rs| - 1;
      CountIsAnswered(rs[..n], answers);
      var last := if answers(n) == Accepted then Places(n, |rs[n].blocks|) else {};
      PlacesCount(n, |rs[n].blocks|);
      assert Answered(rs, answers) == Answered(rs[..n], answers) + last;
    }
  }

  ghost function Places(k: nat, n: nat): set<(nat, nat)> {
    set i: nat | i < n :: (k, i)
  }

  lemma {:induction false} PlacesCount(k: nat, n: nat)
    ensures |Places(k, n)| == n
    decreases n
  {
    if n == 0 {
      assert Places(k, n) == {};
    } else {
      PlacesCount(k, n - 1);
      assert Places(k, n) == Places(k, n - 1) + {(k, (n - 1) as nat)};
    }
  }

  ghost predicate NoneRefused(answers: nat -> Answer, n: nat) {
    forall k :: 0 <= k < n ==> !answers(k).Refused?
  }

  function IdsOf(blocks: seq<Block>): seq<string> {
    seq(|blocks|, i requires 0 <= i < |blocks| => blocks[i].id)
  }

  /** The ids of all blocks requested, in order. */
  function RequestedIds(rs: seq<Request>): seq<string> {
    if rs == [] then [] else RequestedIds(rs[..|rs| - 1]) + IdsOf(rs[|rs| - 1].blocks)
  }

  ghost function ChunksReaching(g: Graph, chunks: seq<seq<string>>, x: string): set<nat> {
    set i: nat | i < |chunks| && Reachable(g, chunks[i], x)
  }

  lemma {:induction false} DistinctMultiplicity(s: seq<string>, x: string)
    requires Distinct(s)
    ensures multiset(s)[x] == if x in s then 1 else 0
    decreases |s|
  {
    if |s| > 0 {
      var front, last := s[..|s| - 1], s[|s| - 1];
      DistinctMultiplicity(front, x);
      assert s == front + [last];
      assert last !in front;
    }
  }

  lemma ChunksReachingMore(g: Graph, chunks: seq<seq<string>>, x: string)
    requires chunks != []
    ensures var n := |chunks| - 1;
      |ChunksReaching(g, chunks, x)|
          == |ChunksReaching(g, chunks[..n], x)| + if Reachable(g, chunks[n], x) then 1 else 0
  {
    var n := |chunks| - 1;
    var before := ChunksReaching(g, chunks[..n], x);
    assert ChunksReaching(g, chunks, x) == before + if Reachable(g, chunks[n], x) then {n as nat} else {};
  }

  lemma IdsOfWalk(g: Graph, order: seq<string>)
    requires Elements(order) <= g.Keys && forall id :: id in g ==> g[id].id == id
    ensures IdsOf(BlocksOf(g, order)) == order
  {
    var blocks := BlocksOf(g, order);
    forall i | 0 <= i < |order| ensures blocks[i].id == order[i] {
      assert order[i] in g;
    }
  }

  lemma WalkIds(g: Graph, chunk: seq<string>, x: string)
    requires forall id :: id in g ==> g[id].id == id
    ensures var ids := IdsOf(BlocksOf(g, Visits(g, chunk, g.Keys)));
      multiset(ids)[x] == if Reachable(g, chunk, x) then 1 else 0
  {
    var order := Visits(g, chunk, g.Keys);
    WalkIsReachability(g, chunk);
    DistinctMultiplicity(order, x);
    IdsOfWalk(g, order);
  }

  /** A block is requested once for each chunk from which it is reachable. */
  lemma {:induction false} RequestedOncePerChunk(g: Graph, chunks: seq<seq<string>>, x: string)
    requires forall id :: id in g ==> g[id].id == id
    ensures multiset(RequestedIds(Requests(g, chunks)))[x] == |ChunksReaching(g, chunks, x)|
    decreases |chunks|
  {
    if chunks == [] {
      assert ChunksReaching(g, chunks, x) == {};
    } else {
      var n := |chunks| - 1;
      var before := Requests(g, chunks[..n]);
      var blocks := BlocksOf(g, Visits(g, chunks[n], g.Keys));
      RequestedOncePerChunk(g, chunks[..n], x);
      ChunksReachingMore(g, chunks, x);
      WalkIds(g, chunks[n], x);
      if |blocks| > 0 {
        assert (before + [Request(chunks[n], blocks)])[..|before|] == before;
      } else {
        assert IdsOf(blocks) == [];
      }
    }
  }

  predicate Leads(g: Graph, chunk: seq<string>) {
    exists i :: 0 <= i < |chunk| && chunk[i] in g
  }

  /** The chunks some id of which is that of a block, in order. */
  function Leading(g: Graph, chunks: seq<seq<string>>): seq<seq<string>> {
    if chunks == [] then []
    else
      var before, chunk := Leading(g, chunks[..|chunks| - 1]), chunks[|chunks| - 1];
      if Leads(g, chunk) then before + [chunk] else before
  }

  lemma ExistingIsReachable(g: Graph, chunk: seq<string>, i: nat)
    requires i < |chunk| && chunk[i] in g
    ensures Reachable(g, chunk, chunk[i])
  {
    assert IsPath(g, [chunk[i]]);
  }

  lemma ReachableLeads(g: Graph, chunk: seq<string>, x: string)
    requires Reachable(g, chunk, x)
    ensures Leads(g, chunk)
  {
    var p :| IsPath(g, p) && p[0] in chunk && p[|p| - 1] == x;
  }

  lemma LeadsSomewhere(g: Graph, chunk: seq<string>)
    ensures Leads(g, chunk) <==> |Visits(g, chunk, g.Keys)| > 0
  {
    var order := Visits(g, chunk, g.Keys);
    WalkIsReachability(g, chunk);
    if Leads(g, chunk) {
      var i :| 0 <= i < |chunk| && chunk[i] in g;
      ExistingIsReachable(g, chunk, i);
    } else if |order| > 0 {
      assert order[0] in order;
      ReachableLeads(g, chunk, order[0]);
      assert false;
    }
  }

  /** Each request is made for one of those chunks, with all blocks reachable from it. */
  ghost predicate RequestsFit(g: Graph, chunks: seq<seq<string>>, rs: seq<Request>) {
    && |rs| == |Leading(g, chunks)|
    && forall k :: 0 <= k < |rs| ==>
         rs[k].ids == Leading(g, chunks)[k]
         && forall b :: b in rs[k].blocks <==> exists x :: IsReachableBlock(g, rs[k].ids, x, b)
  }

  lemma BlocksOfWalk(g: Graph, chunk: seq<string>, b: Block)
    ensures b in BlocksOf(g, Visits(g, chunk, g.Keys)) <==> exists x :: IsReachableBlock(g, chunk, x, b)
  {
    var order := Visits(g, chunk, g.Keys);
    var blocks := BlocksOf(g, order);
    WalkIsReachability(g, chunk);
    if b in blocks {
      var i :| 0 <= i < |blocks| && blocks[i] == b;
      assert order[i] in order && IsReachableBlock(g, chunk, order[i], b);
    }
    if x :| IsReachableBlock(g, chunk, x, b) {
      var i :| 0 <= i < |order| && order[i] == x;
      assert blocks[i] == b;
    }
  }

  /** The requests, in order. */
  lemma {:induction false} RequestsAre(g: Graph, chunks: seq<seq<string>>)
    ensures RequestsFit(g, chunks, Requests(g, chunks))
    decreases |chunks|
  {
    if chunks != [] {
      var n := |chunks| - 1;
      RequestsAre(g, chunks[..n]);
      LeadsSomewhere(g, chunks[n]);
      forall b ensures b in BlocksOf(g, Visits(g, chunks[n], g.Keys)) <==>
          exists x :: IsReachableBlock(g, chunks[n], x, b) {
        BlocksOfWalk(g, chunks[n], b);
      }
    }
  }

  /** When every request is accepted, what is created is the blocks of all walks. */
  lemma {:induction false} AllAccepted(g: Graph, chunks: seq<seq<string>>, answers: nat -> Answer)
    requires forall k :: answers(k) == Accepted
    ensures CountAccepted(Requests(g, chunks), answers) == Created(g, chunks)
    decreases |chunks|
  {
    if chunks != [] {
      var n := |chunks| - 1;
      var before := Requests(g, chunks[..n]);
      AllAccepted(g, chunks[..n], answers);
      var blocks := BlocksOf(g, Visits(g, chunks[n], g.Keys));
      assert (before + [Request(chunks[n], blocks)])[..|before|] == before;
    }
  }

  /** Fifty first-level ids that lead to a block, and one more that leads to it too. */
  const SHARED_BLOCKS := [Block("a", ["c"], ""), Block("b", ["c"], ""), Block("c", [], "")]
  const SHARED_IDS: seq<string> := ["a"] + seq(49, _ => "gap") + ["b"]

  lemma SharedGraph()
    ensures var g := IndexById(SHARED_BLOCKS);
      && g.Keys == {"a", "b", "c"} && g["a"].children == ["c"] && g["b"].children == ["c"]
  {
    var one, two := SHARED_BLOCKS[..1], SHARED_BLOCKS[..2];
    assert two[..1] == one && one[..0] == [];
    assert IndexById(one) == map["a" := SHARED_BLOCKS[0]];
    assert IndexById(two) == map["a" := SHARED_BLOCKS[0], "b" := SHARED_BLOCKS[1]];
    assert SHARED_BLOCKS[..2] == two && SHARED_BLOCKS[2].id == "c";
  }

  lemma ReachesChild(g: Graph, ids: seq<string>, id: string, child: string)
    requires id in ids && id in g && child in g && child in g[id].children
    ensures Reachable(g, ids, child)
  {
    assert IsPath(g, [id, child]);
  }

  lemma SharedChunks()
    ensures var first, second := SHARED_IDS[..50], SHARED_IDS[50..];
      ChunksOf(SHARED_IDS, 50) == [first, second] && "a" in first && "b" in second
  {
    var first, second := SHARED_IDS[..50], SHARED_IDS[50..];
    assert first[0] == "a" && second == ["b"];
    assert ChunksOf(second, 50) == [second];
  }

  /** There the block is requested twice. */
  lemma SharedBlockIsRequestedTwice()
    ensures multiset(RequestedIds(Requests(IndexById(SHARED_BLOCKS), ChunksOf(SHARED_IDS, 50))))["c"] == 2
  {
    SharedGraph();
    SharedChunks();
    TwiceReached(IndexById(SHARED_BLOCKS), SHARED_IDS[..50], SHARED_IDS[50..], "a", "b", "c");
  }

  lemma TwiceReached(g: Graph, first: seq<string>, second: seq<string>, a: string, b: string, child: string)
    requires forall id :: id in g ==> g[id].id == id
    requires a in first && b in second && a in g && b in g && child in g && child in g[a].children
        && child in g[b].children
    ensures multiset(RequestedIds(Requests(g, [first, second])))[child] == 2
  {
    ReachesChild(g, first, a, child);
    ReachesChild(g, second, b, child);
    assert ChunksReaching(g, [first, second], child) == {0, 1};
    RequestedOncePerChunk(g, [first, second], child);
  }

  lemma SomeElement(s: seq<string>)
    ensures |s| > 0 ==> Elements(s) != {}
  {
    if |s| > 0 {
      assert s[0] in Elements(s);
    }
  }

  lemma NothingVisited(ids: seq<string>)
    ensures |Visits(map[], ids, {})| == 0
  {
    SomeElement(Visits(map[], ids, {}));
  }

  lemma {:induction false} NothingToRequest(chunks: seq<seq<string>>)
    ensures Requests(map[], chunks) == []
    decreases |chunks|
  {
    if chunks != [] {
      NothingToRequest(chunks[..|chunks| - 1]);
      var g: Graph := map[];
      assert g.Keys == {};
      NothingVisited(chunks[|chunks| - 1]);
    }
  }

  lemma RequestsMore(g: Graph, chunks: seq<seq<string>>, i: nat)
    requires i < |chunks|
    ensures var before, order := Requests(g, chunks[..i]), Visits(g, chunks[i], g.Keys);
      && Requests(g, chunks[..i + 1])
          == (if |order| == 0 then before else before + [Request(chunks[i], BlocksOf(g, order))])
      && Requests(g, chunks[..i + 1]) <= Requests(g, chunks)
  {
    assert chunks[..i + 1][..i] == chunks[..i];
    RequestsPrefix(g, chunks, i + 1);
  }

  lemma CountMore(rs: seq<Request>, r: Request, answers: nat -> Answer)
    ensures CountAccepted(rs + [r], answers)
        == CountAccepted(rs, answers) + if answers(|rs|).Accepted? then |r.blocks| else 0
  {
    assert (rs + [r])[..|rs|] == rs;
  }

  /** The first `i` chunks are done, and no answer was a refusal. */
  ghost predicate SentSoFar(g: Graph, chunks: seq<seq<string>>, i: nat, sent: seq<Request>, total: nat,
        answers: nat -> Answer) {
    i <= |chunks| && sent == Requests(g, chunks[..i]) && total == CountAccepted(sent, answers)
        && NoneRefused(answers, |sent|)
  }

  lemma SkipChunk(g: Graph, chunks: seq<seq<string>>, i: nat, sent: seq<Request>, total: nat, answers: nat -> Answer)
    requires SentSoFar(g, chunks, i, sent, total, answers) && i < |chunks| && |Visits(g, chunks[i], g.Keys)| == 0
    ensures SentSoFar(g, chunks, i + 1, sent, total, answers)
  {
    RequestsMore(g, chunks, i);
  }

  /** What a caller gets: all requests and the count of the accepted ones, or the requests up to
      the first refused one and no count. */
  ghost predicate Appended(rs: seq<Request>, answers: nat -> Answer, created: Option<nat>, sent: seq<Request>) {
    match created
    case None => sent <= rs && |sent| > 0 && NoneRefused(answers, |sent| - 1) && answers(|sent| - 1).Refused?
    case Some(n) => sent == rs && NoneRefused(answers, |rs|) && n == CountAccepted(rs, answers)
  }

  lemma ChunkRequested(g: Graph, chunks: seq<seq<string>>, i: nat, sent: seq<Request>, r: Request)
    requires i < |chunks| && sent == Requests(g, chunks[..i]) && |r.blocks| > 0
    requires r == Request(chunks[i], BlocksOf(g, Visits(g, chunks[i], g.Keys)))
    ensures sent + [r] == Requests(g, chunks[..i + 1]) && sent + [r] <= Requests(g, chunks)
  {
    RequestsMore(g, chunks, i);
  }

  lemma SendChunk(g: Graph, chunks: seq<seq<string>>, i: nat, sent: seq<Request>, total: nat, answers: nat -> Answer,
        r: Request)
    requires SentSoFar(g, chunks, i, sent, total, answers) && i < |chunks| && |r.blocks| > 0
    requires r == Request(chunks[i], BlocksOf(g, Visits(g, chunks[i], g.Keys)))
    ensures answers(|sent|).Refused? ==> Appended(Requests(g, chunks), answers, None, sent + [r])
    ensures answers(|sent|).Accepted? ==> SentSoFar(g, chunks, i + 1, sent + [r], total + |r.blocks|, answers)
    ensures answers(|sent|).NoData? ==> SentSoFar(g, chunks, i + 1, sent + [r], total, answers)
  {
    ChunkRequested(g, chunks, i, sent, r);
    CountMore(sent, r, answers);
    AnsweredOne(sent, r, answers);
  }

  lemma AnsweredOne(sent: seq<Request>, r: Request, answers: nat -> Answer)
    requires NoneRefused(answers, |sent|)
    ensures |sent + [r]| == |sent| + 1
    ensures !answers(|sent|).Refused? ==> NoneRefused(answers, |sent| + 1)
  {}

  lemma SentAll(g: Graph, chunks: seq<seq<string>>, sent: seq<Request>, total: nat, answers: nat -> Answer)
    requires SentSoFar(g, chunks, |chunks|, sent, total, answers)
    ensures Appended(Requests(g, chunks), answers, Some(total), sent)
  {
    assert chunks[..|chunks|] == chunks;
  }

  method RequestFor(blocks: seq<Block>, ids: seq<string>) returns (r: Request)
    ensures var g := IndexById(blocks); r == Request(ids, BlocksOf(g, Visits(g, ids, g.Keys)))
  {
    var descendants := FilterDescendants(blocks, ids);
    r := Request(ids, descendants);
  }

  /** The loop of AppendConvertedBlocks over the chunks. */
  method SendChunks(blocks: seq<Block>, chunks: seq<seq<string>>, answers: nat -> Answer)
    returns (created: Option<nat>, sent: seq<Request>)
    ensures Appended(Requests(IndexById(blocks), chunks), answers, created, sent)
  {
    ghost var g := IndexById(blocks);
    var total: nat, i: nat := 0, 0;
    sent := [];
    while i < |chunks|
      invariant SentSoFar(g, chunks, i, sent, total, answers)
    {
      var request := RequestFor(blocks, chunks[i]);
      if |request.blocks| == 0 {
        SkipChunk(g, chunks, i, sent, total, answers);
        i := i + 1;
        continue;
      }
      SendChunk(g, chunks, i, sent, total, answers, request);
      var answer := answers(|sent|);
      sent := sent + [request];
      if answer.Refused? {
        return None, sent;
      }
      if answer.Accepted? {
        total := total + |request.blocks|;
      }
      i := i + 1;
    }
    SentAll(g, chunks, sent, total, answers);
    created := Some(total);
  }

  /** AppendConvertedBlocks: the requests are sent in order until one is refused, which loses the
      result; a request without data in its answer does not count. */
  method AppendConvertedBlocks(blocks: seq<Block>, firstLevelIds: seq<string>, answers: nat -> Answer)
    returns (created: Option<nat>, sent: seq<Request>)
    ensures Appended(Requests(IndexById(blocks), ChunksOf(firstLevelIds, 50)), answers, created, sent)
  {
    if |firstLevelIds| == 0 || |blocks| == 0 {
      NothingToRequest(ChunksOf(firstLevelIds, 50));
      return Some(0), [];
    }
    var chunks := ChunkStrings(firstLevelIds, 50);
    created, sent := SendChunks(blocks, chunks, answers);
  }

  lemma {:induction false} RequestsPrefix(g: Graph, chunks: seq<seq<string>>, i: nat)
    requires i <= |chunks|
    ensures Requests(g, chunks[..i]) <= Requests(g, chunks)
    decreases |chunks|
  {
    if i == |chunks| {
      assert chunks[..i] == chunks;
    } else {
      var front := chunks[..|chunks| - 1];
      RequestsPrefix(g, front, i);
      assert front[..i] == chunks[..i];
    }
  }
}

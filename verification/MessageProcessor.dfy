/** The processor as an object over a segment object. Messages it has emitted keep their cells in
    `published`; no method writes to those. */
module MessageProcessor {
  import opened Options
  import opened AssistantContent
  import opened SegmentObject
  import PR = ProcessorRun

  /** An emitted assistant message: its fields other than the content, and its content cells. */
  datatype Emission = Emission(header: PR.Durable, cells: seq<BlockCell>)

  predicate IsEmission(e: Emission) {
    e.header.Assistant?
  }

  function Shown(e: Emission): PR.Durable
    requires IsEmission(e)
    reads e.cells
  {
    e.header.(content := Values(e.cells))
  }

  function ShownAll(e: Option<Emission>): seq<PR.Durable>
    requires e.Some? ==> IsEmission(e.value)
    reads if e.Some? then e.value.cells else []
  {
    if e.Some? then [Shown(e.value)] else []
  }

  class Processor {
    const ctx: PR.Context
    const segment: AssistantSegment
    var sessionId: string
    var streamStarted: bool
    var terminalObserved: bool
    var last: Option<Emission>
    ghost var published: set<BlockCell>

    ghost predicate Valid()
      reads this, segment
    {
      && segment.Valid()
      && (forall c :: c in segment.content ==> c !in published)
      && (last.Some? ==> IsEmission(last.value) && forall c :: c in last.value.cells ==> c in published)
    }

    ghost function View(): PR.State
      requires Valid()
      reads this, segment, segment.content, published
    {
      PR.State(sessionId, segment.View(), streamStarted, terminalObserved,
               if last.Some? then Some(Shown(last.value)) else None)
    }

    constructor (ctx: PR.Context, sessionId: string)
      ensures Valid() && View() == PR.Init(sessionId) && published == {}
      ensures this.ctx == ctx && fresh(segment)
    {
      this.ctx, this.sessionId := ctx, sessionId;
      segment := new AssistantSegment();
      streamStarted, terminalObserved, last, published := false, false, None, {};
    }

    /** registerSessionID. */
    method RegisterSessionId(candidates: seq<string>) returns (updated: string, ok: bool)
      modifies `sessionId
      ensures var r := PR.Registered(old(sessionId), candidates);
        && (ok <==> !r.Conflict?)
        && updated == (if r.Register? then r.id else "")
        && sessionId == (if r.Register? then r.id else old(sessionId))
    {
      updated, ok := "", true;
      var i := 0;
      while i < |candidates|
        invariant i <= |candidates| && sessionId == old(sessionId)
        invariant PR.Registered(sessionId, candidates[i..]) == PR.Registered(sessionId, candidates)
      {
        assert candidates[i..][1..] == candidates[i + 1..];
        var candidate := candidates[i];
        i := i + 1;
        if candidate == "" {
          continue;
        }
        if sessionId == "" {
          sessionId := candidate;
          return candidate, true;
        }
        if sessionId != candidate {
          return "", false;
        }
      }
    }

    method BuildEmission(isComplete: bool, withStopReason: bool, parentId: string) returns (e: Emission)
      requires Valid()
      ensures IsEmission(e) && Shown(e) == PR.Built(ctx, View(), isComplete, withStopReason, parentId)
      ensures forall c :: c in e.cells ==> fresh(c)
    {
      var cells := segment.NormalizedContent();
      var header := PR.Assistant(
        segment.messageId, sessionId, ctx.roundId, if parentId != "" then parentId else ctx.parentId, [],
        segment.model, segment.usage, if withStopReason then segment.stopReason else "",
        isComplete && withStopReason, segment.timestamp);
      e := Emission(header, cells);
    }

    /** The end of buildAssistantDurableMessage: a message that says what the last one said is
        dropped. */
    method Offer(e: Emission) returns (emitted: Option<Emission>)
      requires Valid() && IsEmission(e) && forall c :: c in e.cells ==> c !in segment.content
      modifies `last, `published
      ensures Valid() && published == old(published) + if emitted.Some? then (set c | c in e.cells) else {}
      ensures emitted == if PR.Suppressed(old(View()).last, Shown(e)) then None else Some(e)
      ensures View() == PR.Remembered(old(View()), ShownAll(emitted))
    {
      if last.Some? && PR.SameAssistant(Shown(last.value), Shown(e)) {
        return None;
      }
      last, emitted := Some(e), Some(e);
      published := published + set c | c in e.cells;
    }

    /** buildAssistantDurableMessage, when it is called for. */
    method Answer(ask: PR.Request) returns (emitted: Option<Emission>)
      requires Valid()
      modifies `last, `published
      ensures Valid() && old(published) <= published && fresh(published - old(published))
      ensures emitted.Some? ==> IsEmission(emitted.value) && forall c :: c in emitted.value.cells ==> c in published
      ensures ShownAll(emitted) == PR.Answered(ctx, old(View()), ask)
      ensures View() == PR.Remembered(old(View()), ShownAll(emitted))
    {
      if ask.NoRequest? {
        return None;
      }
      var e := BuildEmission(ask.isComplete, ask.withStopReason, ask.parentId);
      emitted := Offer(e);
    }

    /** The segment has taken the message in; nothing has been emitted yet. */
    twostate predicate Absorbed(body: PR.Body, now: string)
      reads this, segment, segment.content, published
    {
      && old(Valid()) && Valid() && published == old(published)
      && View() == PR.Absorb(old(View()), body, now)
    }

    method TakeMessageStart(body: PR.Body, now: string) returns (events: seq<PR.StreamEvent>)
      requires Valid() && body.MessageStart?
      modifies this, segment
      ensures Absorbed(body, now)
      ensures events == PR.Events(old(View()), View(), body)
    {
      segment.Start(body.id, body.model, body.usage, now);
      streamStarted, terminalObserved, last := true, false, None;
      events := [PR.Meta("message_start", segment.messageId)];
    }

    method TakeBlockStart(body: PR.Body, now: string) returns (events: seq<PR.StreamEvent>)
      requires Valid() && body.BlockStart?
      modifies segment
      ensures Absorbed(body, now)
      ensures events == PR.Events(old(View()), View(), body)
    {
      var index := segment.ApplyBlock(body.raw, body.block, now);
      if body.block.kind == "tool_use" {
        return [];
      }
      events := [PR.BlockEvent("content_block_start", segment.messageId, index, Some(body.block))];
    }

    /** The only method that writes to cells: to those of the segment, never to published ones. */
    method TakeBlockDelta(body: PR.Body, now: string) returns (events: seq<PR.StreamEvent>)
      requires Valid() && body.BlockDelta?
      modifies segment, segment.content
      ensures Absorbed(body, now)
      ensures events == PR.Events(old(View()), View(), body)
    {
      var index, applied := segment.ApplyDelta(body.raw, body.delta, now);
      if last.Some? {
        assert forall i :: 0 <= i < |last.value.cells| ==> last.value.cells[i] in published;
        assert Values(last.value.cells) == old(Values(last.value.cells));
      }
      assert Absorbed(body, now);
      if !applied {
        return [];
      }
      var block := segment.CurrentBlock(index);
      if block.Some? && block.value.kind == "tool_use" {
        return [];
      }
      events := [PR.BlockEvent("content_block_delta", segment.messageId, index, block)];
    }

    method TakeMeta(usage: string, stopReason: string, now: string)
      requires Valid()
      modifies segment
      ensures Valid()
      ensures View()
          == old(View()).(segment := PR.EnsureStarted(PR.WithMeta(old(View()).segment, "", usage, stopReason), now))
    {
      segment.UpdateMeta("", usage, stopReason);
      segment.EnsureStarted(now);
    }

    method Merge(blocks: seq<Block>, now: string)
      requires Valid()
      modifies segment
      ensures Valid()
      ensures View() == old(View()).(segment := PR.Edited(old(View()).segment, AssistantContent.Merge(blocks), now))
    {
      segment.AppendBlocks(blocks, now);
    }

    method TakeMessageDelta(body: PR.Body, now: string) returns (events: seq<PR.StreamEvent>, ask: PR.Request)
      requires Valid() && body.MessageDelta?
      modifies `terminalObserved, segment
      ensures Absorbed(body, now)
      ensures events == PR.Events(old(View()), View(), body) && ask == PR.Asked(old(View()), View(), body)
    {
      TakeMeta(body.usage, body.stopReason, now);
      events, ask := [PR.Meta("message_delta", segment.messageId)], PR.NoRequest;
      if |segment.content| > 0 && segment.stopReason != "" {
        terminalObserved := true;
        ask := PR.Request(true, true, "");
      }
    }

    method TakeSnapshot(body: PR.Body, now: string) returns (ask: PR.Request)
      requires Valid() && body.AssistantSnapshot?
      modifies this, segment
      ensures Absorbed(body, now) && ask == PR.Asked(old(View()), View(), body)
    {
      if segment.messageId == "" {
        segment.Start(body.id, body.model, body.usage, now);
        streamStarted, terminalObserved, last := false, false, None;
      }
      segment.ReplaceFromSnapshot(body.content, body.model, body.usage, body.stopReason, now);
      var includeStopReason := !streamStarted || terminalObserved;
      ask := PR.Request(includeStopReason && segment.stopReason != "", includeStopReason, body.parentId);
    }

    method TakeTaskProgress(body: PR.Body, now: string) returns (ask: PR.Request)
      requires Valid() && body.TaskProgress?
      modifies segment
      ensures Absorbed(body, now) && ask == PR.Asked(old(View()), View(), body)
    {
      if body.block.taskId == "" {
        return PR.NoRequest;
      }
      Merge([body.block], now);
      ask := PR.Request(false, false, "");
    }

    method AreToolResults(results: seq<PR.ToolResult>) returns (all: bool)
      ensures all <==> PR.AllToolResults(results)
    {
      var i := 0;
      while i < |results|
        invariant i <= |results| && PR.AllToolResults(results[..i])
      {
        if results[i].block.kind != "tool_result" {
          return false;
        }
        i := i + 1;
      }
      assert results[..i] == results;
      all := true;
    }

    method KeepToolResult(r: PR.ToolResult) returns (kept: seq<Block>)
      ensures kept == PR.KeptResult(Values(segment.content), r)
    {
      var found := segment.HasToolUse(r.block.toolUseId);
      if !found && !r.block.isError {
        return [];
      }
      kept := [r.block];
      if !r.block.isError {
        kept := kept + r.artifacts;
      }
    }

    method KeepToolResults(results: seq<PR.ToolResult>) returns (added: seq<Block>)
      ensures added == PR.KeptResults(Values(segment.content), results)
    {
      ghost var content := Values(segment.content);
      added := [];
      var i := 0;
      while i < |results|
        invariant i <= |results|
        invariant added == PR.KeptResults(content, results[..i])
      {
        var kept := KeepToolResult(results[i]);
        assert results[..i + 1][..i] == results[..i];
        added := added + kept;
        i := i + 1;
      }
      assert results[..i] == results;
    }

    method AddedResults(results: seq<PR.ToolResult>) returns (added: seq<Block>)
      ensures added == PR.AddedResults(Values(segment.content), results)
    {
      var all := AreToolResults(results);
      if !all {
        return [];
      }
      added := KeepToolResults(results);
    }

    method TakeToolResults(body: PR.Body, now: string) returns (ask: PR.Request)
      requires Valid() && body.User?
      modifies segment
      ensures Absorbed(body, now) && ask == PR.Asked(old(View()), View(), body)
    {
      var added := AddedResults(body.results);
      if |added| == 0 {
        return PR.NoRequest;
      }
      Merge(added, now);
      ask := PR.Request(true, true, "");
    }

    method Take(body: PR.Body, now: string) returns (events: seq<PR.StreamEvent>, ask: PR.Request)
      requires Valid()
      modifies this, segment, segment.content
      ensures Absorbed(body, now)
      ensures events == PR.Events(old(View()), View(), body) && ask == PR.Asked(old(View()), View(), body)
    {
      events, ask := [], PR.NoRequest;
      match body
      case MessageStart(_, _, _) => events := TakeMessageStart(body, now);
      case BlockStart(_, _) => events := TakeBlockStart(body, now);
      case BlockDelta(_, _) => events := TakeBlockDelta(body, now);
      case MessageDelta(_, _) => events, ask := TakeMessageDelta(body, now);
      case MessageStop =>
        segment.EnsureStarted(now);
        events := [PR.Meta("message_stop", segment.messageId)];
      case AssistantSnapshot(_, _, _, _, _, _) => ask := TakeSnapshot(body, now);
      case TaskProgress(_) => ask := TakeTaskProgress(body, now);
      case User(_) => ask := TakeToolResults(body, now);
      case Result(_, _) =>
      case Other =>
    }

    method Handle(body: PR.Body, now: string) returns (events: seq<PR.StreamEvent>, emitted: Option<Emission>)
      requires Valid()
      modifies this, segment, segment.content
      ensures Valid() && old(published) <= published && sessionId == old(sessionId)
      ensures emitted.Some? ==> IsEmission(emitted.value) && forall c :: c in emitted.value.cells ==> c in published
      ensures var after := PR.Absorb(old(View()), body, now);
        && events == PR.Events(old(View()), after, body)
        && ShownAll(emitted) == PR.Emitted(ctx, old(View()), after, body)
        && View() == PR.Remembered(after, ShownAll(emitted))
    {
      var ask;
      events, ask := Take(body, now);
      PR.AbsorbSession(old(View()), body, now);
      emitted := Answer(ask);
    }

    method Admit(m: PR.Message) returns (updated: string, ok: bool)
      requires Valid()
      modifies `sessionId
      ensures Valid()
      ensures var s := PR.Admitted(old(View()), m);
        && (ok <==> s.Some?)
        && View() == (if ok then s.value else old(View()))
        && (ok ==> updated == if sessionId != old(sessionId) then sessionId else "")
    {
      updated, ok := RegisterSessionId(m.sessionIds);
      PR.RegisteredMeaning(old(sessionId), m.sessionIds);
    }

    /** Process. What was published before is left exactly as it was: `modifies` reaches only cells
        of the segment, and `Valid` keeps those apart. */
    method Process(m: PR.Message) returns (out: PR.Output, emitted: Option<Emission>)
      requires Valid()
      modifies this, segment, segment.content
      ensures Valid() && old(published) <= published
      ensures forall c :: c in old(published) ==> c.block == old(c.block)
      ensures emitted.Some? ==> IsEmission(emitted.value) && forall c :: c in emitted.value.cells ==> c in published
      ensures View() == PR.Next(ctx, old(View()), m)
      ensures out == PR.OutputOf(ctx, old(View()), m)
      ensures emitted.Some? && !out.failed && !m.body.Result? ==> out.durables == [Shown(emitted.value)]
    {
      var updated, ok := Admit(m);
      if !ok {
        return PR.QUIET.(failed := true), None;
      }
      ghost var s := View();
      var events;
      events, emitted := Handle(m.body, m.now);
      out := PR.Reported(m.body, updated, events, ShownAll(emitted));
    }
  }
}

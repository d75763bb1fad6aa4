/** The message processor as a state machine over the messages of the SDK: which session id it
    registers, what it publishes to the stream, and which durable assistant messages it emits.
    String fields of messages are taken as trimmed, and the clock reading of each message is a
    parameter. */
module ProcessorRun {
  import opened Options
  import opened AssistantContent
  import opened BlockUpserts

  // ---------------------------------------------------------------- the segment

  datatype Segment = Segment(messageId: string, body: Assembly, model: string, usage: string, stopReason: string,
        timestamp: string)

  const NO_SEGMENT := Segment("", EMPTY, "", "", "", "")

  function GeneratedId(now: string): string { "assistant_" + now }

  function Started(id: string, model: string, usage: string, now: string): Segment {
    Segment(if id != "" then id else GeneratedId(now), EMPTY, model, usage, "", now)
  }

  predicate IsStarted(s: Segment) { s.messageId != "" }

  function EnsureStarted(s: Segment, now: string): Segment {
    if IsStarted(s) then s else Started("", "", "", now)
  }

  function Edited(s: Segment, op: Op, now: string): Segment {
    var e := EnsureStarted(s, now);
    e.(body := Step(e.body, op))
  }

  function WithMeta(s: Segment, model: string, usage: string, stopReason: string): Segment {
    s.(model := if model != "" then model else s.model,
       usage := if usage != "" then usage else s.usage,
       stopReason := if stopReason != "" then stopReason else s.stopReason)
  }

  predicate HasToolUse(content: seq<Block>, id: string) {
    id != "" && exists i :: 0 <= i < |content| && content[i].kind == "tool_use" && content[i].id == id
  }

  // ---------------------------------------------------------------- messages and outputs

  /** A tool result with the artifact blocks its tool would contribute. */
  datatype ToolResult = ToolResult(block: Block, artifacts: seq<Block>)

  datatype Body =
    | MessageStart(id: string, model: string, usage: string)
    | BlockStart(raw: int, block: Block)
    | BlockDelta(raw: int, delta: Delta)
    | MessageDelta(usage: string, stopReason: string)
    | MessageStop
    | AssistantSnapshot(id: string, model: string, usage: string, stopReason: string, parentId: string,
          content: seq<Block>)
    | TaskProgress(block: Block)
    | User(results: seq<ToolResult>)
    | Result(subtype: string, isError: bool)
    | Other

  /** `sessionIds` are the candidates in order: the message's own, then for a system message the
      one in its data. */
  datatype Message = Message(sessionIds: seq<string>, body: Body, now: string)

  datatype Durable =
    | Assistant(messageId: string, sessionId: string, roundId: string, parentId: string, content: seq<Block>,
                model: string, usage: string, stopReason: string, isComplete: bool, timestamp: string)
    | ResultMessage(subtype: string, isError: bool)

  datatype StreamEvent =
    | Meta(kind: string, messageId: string)
    | BlockEvent(kind: string, messageId: string, index: nat, block: Option<Block>)

  datatype Output = Output(
    events: seq<StreamEvent>, durables: seq<Durable>, registered: string, terminalStatus: string,
    subtype: string, streamStarted: bool, assistantCompleted: bool, failed: bool)

  const QUIET := Output([], [], "", "", "", false, false, false)

  datatype Context = Context(roundId: string, parentId: string)

  datatype State = State(
    sessionId: string, segment: Segment, streamStarted: bool, terminalObserved: bool, last: Option<Durable>)

  function Init(sessionId: string): State {
    State(sessionId, NO_SEGMENT, false, false, None)
  }

  // ---------------------------------------------------------------- session id

  datatype Registration = Keep | Register(id: string) | Conflict

  function Registered(current: string, candidates: seq<string>): Registration
    decreases |candidates|
  {
    if candidates == [] then Keep
    else if candidates[0] == "" then Registered(current, candidates[1..])
    else if current == "" then Register(candidates[0])
    else if current != candidates[0] then Conflict
    else Registered(current, candidates[1..])
  }

  // ---------------------------------------------------------------- durable assistant messages

  /** assistantMessagesEqual: usage and timestamps are not compared. */
  predicate SameAssistant(a: Durable, b: Durable)
    requires a.Assistant? && b.Assistant?
  {
    && a.messageId == b.messageId && a.parentId == b.parentId && a.model == b.model
    && a.stopReason == b.stopReason && a.sessionId == b.sessionId && a.roundId == b.roundId
    && a.isComplete == b.isComplete && a.content == b.content
  }

  function Built(ctx: Context, st: State, isComplete: bool, withStopReason: bool, parentId: string): (d: Durable)
    ensures d.Assistant?
  {
    var s := st.segment;
    Assistant(
      s.messageId, st.sessionId, ctx.roundId, if parentId != "" then parentId else ctx.parentId,
      ThinkingFirst(s.body.content), s.model, s.usage, if withStopReason then s.stopReason else "",
      isComplete && withStopReason, s.timestamp)
  }

  predicate Suppressed(last: Option<Durable>, d: Durable)
    requires d.Assistant?
  {
    last.Some? && last.value.Assistant? && SameAssistant(last.value, d)
  }

  /** The durable message a message asks for, with the state it is built from. */
  datatype Request = NoRequest | Request(isComplete: bool, withStopReason: bool, parentId: string)

  // ---------------------------------------------------------------- one message

  /** A successful result without its tool use is dropped; artifacts come with success only. */
  function KeptResult(content: seq<Block>, r: ToolResult): seq<Block> {
    if r.block.isError then [r.block]
    else if HasToolUse(content, r.block.toolUseId) then [r.block] + r.artifacts
    else []
  }

  function KeptResults(content: seq<Block>, results: seq<ToolResult>): seq<Block> {
    if results == [] then []
    else KeptResults(content, results[..|results| - 1]) + KeptResult(content, results[|results| - 1])
  }

  predicate AllToolResults(results: seq<ToolResult>) {
    forall i :: 0 <= i < |results| ==> results[i].block.kind == "tool_result"
  }

  /** The blocks a user message adds: none unless all its blocks are tool results. */
  function AddedResults(content: seq<Block>, results: seq<ToolResult>): seq<Block> {
    if AllToolResults(results) then KeptResults(content, results) else []
  }

  predicate Resets(st: State, body: Body) {
    body.MessageStart? || (body.AssistantSnapshot? && !IsStarted(st.segment))
  }

  /** The state after the segment has taken the message in, before anything is emitted. */
  function Absorb(st: State, body: Body, now: string): State {
    match body
    case MessageStart(id, model, usage) =>
      st.(segment := Started(id, model, usage, now), streamStarted := true, terminalObserved := false, last := None)
    case BlockStart(raw, block) => st.(segment := Edited(st.segment, Start(raw, block), now))
    case BlockDelta(raw, delta) => st.(segment := Edited(st.segment, Append(raw, delta), now))
    case MessageDelta(usage, stopReason) =>
      var s := EnsureStarted(WithMeta(st.segment, "", usage, stopReason), now);
      st.(segment := s, terminalObserved := st.terminalObserved || (s.body.content != [] && s.stopReason != ""))
    case MessageStop => st.(segment := EnsureStarted(st.segment, now))
    case AssistantSnapshot(id, model, usage, stopReason, _, content) =>
      var s := if IsStarted(st.segment) then st
          else State(st.sessionId, Started(id, model, usage, now), false, false, None);
      s.(segment := WithMeta(Edited(s.segment, Replace(content), now), model, usage, stopReason))
    case TaskProgress(block) =>
      if block.taskId == "" then st else st.(segment := Edited(st.segment, Merge([block]), now))
    case User(results) =>
      var added := AddedResults(st.segment.body.content, results);
      if added == [] then st else st.(segment := Edited(st.segment, Merge(added), now))
    case Result(_, _) => st
    case Other => st
  }

  /** What is asked for, given the states before and after the message was taken in. */
  function Asked(st: State, after: State, body: Body): Request {
    match body
    case MessageDelta(_, _) =>
      if after.segment.body.content != [] && after.segment.stopReason != "" then Request(true, true, "") else NoRequest
    case AssistantSnapshot(_, _, _, _, parentId, _) =>
      var withStopReason := !after.streamStarted || after.terminalObserved;
      Request(withStopReason && after.segment.stopReason != "", withStopReason, parentId)
    case TaskProgress(block) => if block.taskId == "" then NoRequest else Request(false, false, "")
    case User(results) =>
      if AddedResults(st.segment.body.content, results) == [] then NoRequest else Request(true, true, "")
    case _ => NoRequest
  }

  function Answered(ctx: Context, st: State, ask: Request): seq<Durable> {
    if ask.NoRequest? then []
    else
      var d := Built(ctx, st, ask.isComplete, ask.withStopReason, ask.parentId);
      if Suppressed(st.last, d) then [] else [d]
  }

  function Emitted(ctx: Context, st: State, after: State, body: Body): seq<Durable> {
    Answered(ctx, after, Asked(st, after, body))
  }

  /** The assembly a block or delta meets. */
  function BodyBefore(st: State): Assembly {
    if IsStarted(st.segment) then st.segment.body else EMPTY
  }

  function Events(st: State, after: State, body: Body): seq<StreamEvent> {
    var id, before := after.segment.messageId, BodyBefore(st);
    match body
    case MessageStart(_, _, _) => [Meta("message_start", id)]
    case BlockStart(raw, block) =>
      if block.kind == "tool_use" then []
      else [BlockEvent("content_block_start", id, LogicalIndex(before, raw, block.kind), Some(block))]
    case BlockDelta(raw, delta) =>
      var index := DeltaIndex(before, raw, delta);
      var block := CurrentBlock(after.segment.body, index);
      if !DeltaApplies(before, raw, delta) || (block.Some? && block.value.kind == "tool_use") then []
      else [BlockEvent("content_block_delta", id, index, block)]
    case MessageDelta(_, _) => [Meta("message_delta", id)]
    case MessageStop => [Meta("message_stop", id)]
    case _ => []
  }

  function NormalizedSubtype(subtype: string, isError: bool): string {
    if subtype in {"success", "error", "interrupted"} then subtype else if isError then "error" else "success"
  }

  function StatusOf(subtype: string): string {
    if subtype == "interrupted" then "interrupted" else if subtype == "error" then "error" else "finished"
  }

  function Remembered(st: State, durables: seq<Durable>): State {
    if durables == [] then st else st.(last := Some(durables[|durables| - 1]))
  }

  /** The state in which the segment takes the message in, or the error of a changed session id. */
  function Admitted(st: State, m: Message): Option<State> {
    match Registered(st.sessionId, m.sessionIds)
    case Keep => Some(st)
    case Register(id) => Some(st.(sessionId := id))
    case Conflict => None
  }

  function Next(ctx: Context, st: State, m: Message): State {
    match Admitted(st, m)
    case None => st
    case Some(s) => var after := Absorb(s, m.body, m.now); Remembered(after, Emitted(ctx, s, after, m.body))
  }

  function Reported(body: Body, registered: string, events: seq<StreamEvent>, emitted: seq<Durable>): Output
    requires |emitted| <= 1 && forall i :: 0 <= i < |emitted| ==> emitted[i].Assistant?
  {
    if body.Result? then
      var subtype := NormalizedSubtype(body.subtype, body.isError);
      var result := ResultMessage(subtype, subtype == "error");
      Output(events, [result], registered, StatusOf(subtype), subtype, false, false, false)
    else
      var completed := emitted != [] && (body.AssistantSnapshot? ==> emitted[0].isComplete) && !body.TaskProgress?;
      Output(events, emitted, registered, "", "", body.MessageStart?, completed, false)
  }

  function OutputOf(ctx: Context, st: State, m: Message): Output {
    match Admitted(st, m)
    case None => QUIET.(failed := true)
    case Some(s) =>
      var after := Absorb(s, m.body, m.now);
      Reported(m.body, if s.sessionId != st.sessionId then s.sessionId else "",
               Events(s, after, m.body), Emitted(ctx, s, after, m.body))
  }

  function Run(ctx: Context, sessionId: string, ms: seq<Message>): State {
    if ms == [] then Init(sessionId) else Next(ctx, Run(ctx, sessionId, ms[..|ms| - 1]), ms[|ms| - 1])
  }

  // ---------------------------------------------------------------- the session id

  lemma {:induction false} RegisteredMeaning(current: string, candidates: seq<string>)
    ensures Registered(current, candidates).Conflict? <==>
      current != "" && exists i :: 0 <= i < |candidates| && candidates[i] != "" && candidates[i] != current
    ensures Registered(current, candidates).Register? <==>
      current == "" && exists i :: 0 <= i < |candidates| && candidates[i] != ""
    ensures forall id :: Registered(current, candidates) == Register(id) ==> id != "" && id in candidates
    decreases |candidates|
  {
    if candidates != [] {
      RegisteredMeaning(current, candidates[1..]);
      assert candidates == [candidates[0]] + candidates[1..];
    }
  }

  predicate Disagrees(m: Message, id: string) {
    exists i :: 0 <= i < |m.sessionIds| && m.sessionIds[i] != "" && m.sessionIds[i] != id
  }

  lemma AbsorbSession(st: State, body: Body, now: string)
    ensures Absorb(st, body, now).sessionId == st.sessionId
  {}

  predicate KeepsQuiet(out: Output, m: Message, id: string) {
    && out.registered == ""
    && (out.failed <==> Disagrees(m, id))
    && (out.failed ==> out.events == [] && out.durables == [])
  }

  lemma SessionStep(ctx: Context, st: State, m: Message)
    requires st.sessionId != ""
    ensures Next(ctx, st, m).sessionId == st.sessionId
    ensures Disagrees(m, st.sessionId) ==> Next(ctx, st, m) == st
    ensures KeepsQuiet(OutputOf(ctx, st, m), m, st.sessionId)
  {
    RegisteredMeaning(st.sessionId, m.sessionIds);
    AbsorbSession(st, m.body, m.now);
  }

  lemma RunMore(ctx: Context, sessionId: string, ms: seq<Message>, m: Message)
    ensures Run(ctx, sessionId, ms + [m]) == Next(ctx, Run(ctx, sessionId, ms), m)
  {
    assert (ms + [m])[..|ms|] == ms;
  }

  lemma RunToLast(ctx: Context, sessionId: string, ms: seq<Message>, more: seq<Message>)
    requires |more| > 0
    ensures Run(ctx, sessionId, ms + more) == Next(ctx, Run(ctx, sessionId, ms + more[..|more| - 1]), more[|more| - 1])
  {
    var before, m := more[..|more| - 1], more[|more| - 1];
    assert ms + more == ms + before + [m];
    RunMore(ctx, sessionId, ms + before, m);
  }

  lemma {:induction false} SameSession(ctx: Context, sessionId: string, ms: seq<Message>, more: seq<Message>)
    requires Run(ctx, sessionId, ms).sessionId != ""
    ensures Run(ctx, sessionId, ms + more).sessionId == Run(ctx, sessionId, ms).sessionId
    decreases |more|
  {
    if more == [] {
      assert ms + more == ms;
    } else {
      var before, m := more[..|more| - 1], more[|more| - 1];
      SameSession(ctx, sessionId, ms, before);
      SessionStep(ctx, Run(ctx, sessionId, ms + before), m);
      RunToLast(ctx, sessionId, ms, more);
    }
  }

  /** Once there is a session id it stays for the rest of the run: whatever came since, a further
      message registers no other, and fails exactly when it names a different one, in which case
      it publishes nothing and changes nothing. */
  lemma SessionIdStays(ctx: Context, sessionId: string, ms: seq<Message>, more: seq<Message>, m: Message)
    requires Run(ctx, sessionId, ms).sessionId != ""
    ensures var id, st := Run(ctx, sessionId, ms).sessionId, Run(ctx, sessionId, ms + more);
      && st.sessionId == id
      && KeepsQuiet(OutputOf(ctx, st, m), m, id)
      && (Disagrees(m, id) ==> Next(ctx, st, m) == st)
  {
    SameSession(ctx, sessionId, ms, more);
    SessionStep(ctx, Run(ctx, sessionId, ms + more), m);
  }

  // ---------------------------------------------------------------- durable dedupe

  /** The durable assistant messages emitted since the segment was last started. */
  function SinceReset(ctx: Context, sessionId: string, ms: seq<Message>): seq<Durable> {
    if ms == [] then []
    else
      var before, m := ms[..|ms| - 1], ms[|ms| - 1];
      var st := Run(ctx, sessionId, before);
      match Admitted(st, m)
      case None => SinceReset(ctx, sessionId, before)
      case Some(s) =>
        (if Resets(s, m.body) then [] else SinceReset(ctx, sessionId, before))
        + Emitted(ctx, s, Absorb(s, m.body, m.now), m.body)
  }

  ghost predicate LastIs(last: Option<Durable>, emitted: seq<Durable>) {
    && (forall i :: 0 <= i < |emitted| ==> emitted[i].Assistant?)
    && last == if emitted == [] then None else Some(emitted[|emitted| - 1])
  }

  ghost predicate NoneRepeats(emitted: seq<Durable>) {
    forall i :: 0 <= i < |emitted| - 1 && emitted[i].Assistant? && emitted[i + 1].Assistant?
        ==> !SameAssistant(emitted[i], emitted[i + 1])
  }

  lemma AbsorbLast(st: State, body: Body, now: string)
    ensures Absorb(st, body, now).last == if Resets(st, body) then None else st.last
  {}

  lemma OneMore(last: Durable, d: Durable, emitted: seq<Durable>)
    requires LastIs(Some(last), emitted) && NoneRepeats(emitted) && last.Assistant? && d.Assistant?
        && !SameAssistant(last, d)
    ensures LastIs(Some(d), emitted + [d]) && NoneRepeats(emitted + [d])
  {
    var more := emitted + [d];
    assert emitted[|emitted| - 1] == last;
    forall i | 0 <= i < |more| - 1 ensures !SameAssistant(more[i], more[i + 1]) {
      if i < |emitted| - 1 {
        assert more[i] == emitted[i] && more[i + 1] == emitted[i + 1];
      }
    }
  }

  lemma AnsweredExtends(ctx: Context, st: State, ask: Request, emitted: seq<Durable>)
    requires LastIs(st.last, emitted) && NoneRepeats(emitted)
    ensures var e := Answered(ctx, st, ask);
      |e| <= 1 && LastIs(Remembered(st, e).last, emitted + e) && NoneRepeats(emitted + e)
  {
    var e := Answered(ctx, st, ask);
    if |e| == 0 {
      assert emitted + e == emitted;
    } else if |emitted| > 0 {
      OneMore(emitted[|emitted| - 1], e[0], emitted);
    }
  }

  lemma EmittedExtends(ctx: Context, s: State, after: State, body: Body, emitted: seq<Durable>)
    requires LastIs(after.last, emitted) && NoneRepeats(emitted)
    ensures var e := Emitted(ctx, s, after, body);
      |e| <= 1 && LastIs(Remembered(after, e).last, emitted + e) && NoneRepeats(emitted + e)
  {
    AnsweredExtends(ctx, after, Asked(s, after, body), emitted);
  }

  /** Between two starts of the segment no durable assistant message repeats the one emitted
      before it, and the one kept for comparison is the last one emitted. */
  lemma {:induction false} NoDurableRepeats(ctx: Context, sessionId: string, ms: seq<Message>)
    ensures var emitted := SinceReset(ctx, sessionId, ms);
      LastIs(Run(ctx, sessionId, ms).last, emitted) && NoneRepeats(emitted)
    decreases |ms|
  {
    if ms != [] {
      var before, m := ms[..|ms| - 1], ms[|ms| - 1];
      NoDurableRepeats(ctx, sessionId, before);
      var admitted := Admitted(Run(ctx, sessionId, before), m);
      if admitted.Some? {
        var s := admitted.value;
        var emitted := if Resets(s, m.body) then [] else SinceReset(ctx, sessionId, before);
        AbsorbLast(s, m.body, m.now);
        EmittedExtends(ctx, s, Absorb(s, m.body, m.now), m.body, emitted);
      }
    }
  }

  /** Suppression loses nothing: whenever a durable message was asked for, the last one emitted
      since the segment was started says the same as the one built from the segment now. */
  lemma LastEmittedIsCurrent(ctx: Context, sessionId: string, ms: seq<Message>, m: Message)
    ensures var s := Admitted(Run(ctx, sessionId, ms), m);
      s.Some? ==>
        var after := Absorb(s.value, m.body, m.now);
        var ask := Asked(s.value, after, m.body);
        var emitted := SinceReset(ctx, sessionId, ms + [m]);
        ask.Request? ==>
          (&& emitted != [] && emitted[|emitted| - 1].Assistant?
           && SameAssistant(emitted[|emitted| - 1],
               Built(ctx, after, ask.isComplete, ask.withStopReason, ask.parentId)))
  {
    var all := ms + [m];
    assert all[..|all| - 1] == ms;
    NoDurableRepeats(ctx, sessionId, all);
  }

  /** A durable snapshot is complete exactly when it shows a stop reason, and never while its
      message is being streamed and no end of it has been seen. */
  lemma CompleteMeansStopped(ctx: Context, st: State, m: Message)
    requires m.body.AssistantSnapshot?
    ensures var out := OutputOf(ctx, st, m);
      forall i :: 0 <= i < |out.durables| ==>
        && out.durables[i].Assistant?
        && (out.durables[i].isComplete <==> out.durables[i].stopReason != "")
        && (out.durables[i].isComplete ==> out.assistantCompleted)
        && (InStream(st) ==> !out.durables[i].isComplete)
  {}

  predicate InStream(st: State) {
    IsStarted(st.segment) && st.streamStarted && !st.terminalObserved
  }

  lemma EnsuredIsStarted(s: Segment, now: string)
    ensures IsStarted(EnsureStarted(s, now))
  {}

  lemma AbsorbKeepsStream(s: State, body: Body, now: string)
    requires InStream(s) && !body.MessageDelta?
    ensures InStream(Absorb(s, body, now))
  {
    EnsuredIsStarted(s.segment, now);
  }

  lemma StreamGoesOn(ctx: Context, st: State, m: Message)
    requires InStream(st) && !m.body.MessageDelta?
    ensures InStream(Next(ctx, st, m))
  {
    var admitted := Admitted(st, m);
    if admitted.Some? {
      AbsorbKeepsStream(admitted.value, m.body, m.now);
    }
  }

  lemma StreamBegins(ctx: Context, st: State, m: Message)
    requires m.body.MessageStart? && Admitted(st, m).Some?
    ensures InStream(Next(ctx, st, m))
  {}

  lemma {:induction false} StaysInStream(ctx: Context, sessionId: string, ms: seq<Message>, more: seq<Message>)
    requires InStream(Run(ctx, sessionId, ms)) && forall i :: 0 <= i < |more| ==> !more[i].body.MessageDelta?
    ensures InStream(Run(ctx, sessionId, ms + more))
    decreases |more|
  {
    if |more| == 0 {
      assert ms + more == ms;
    } else {
      var before, last := more[..|more| - 1], more[|more| - 1];
      StaysInStream(ctx, sessionId, ms, before);
      StreamGoesOn(ctx, Run(ctx, sessionId, ms + before), last);
      RunToLast(ctx, sessionId, ms, more);
    }
  }

  /** From a message start until its first message delta the processor is in the stream, whatever
      else arrives: the snapshots among it are emitted as incomplete. */
  lemma SnapshotsInStream(ctx: Context, sessionId: string, ms: seq<Message>, start: Message, more: seq<Message>)
    requires start.body.MessageStart? && Admitted(Run(ctx, sessionId, ms), start).Some?
    requires forall i :: 0 <= i < |more| ==> !more[i].body.MessageDelta?
    ensures InStream(Run(ctx, sessionId, ms + [start] + more))
    ensures forall m: Message :: m.body.AssistantSnapshot? ==>
      NoneComplete(OutputOf(ctx, Run(ctx, sessionId, ms + [start] + more), m).durables)
  {
    RunMore(ctx, sessionId, ms, start);
    StreamBegins(ctx, Run(ctx, sessionId, ms), start);
    StaysInStream(ctx, sessionId, ms + [start], more);
    var st := Run(ctx, sessionId, ms + [start] + more);
    forall m: Message | m.body.AssistantSnapshot? ensures NoneComplete(OutputOf(ctx, st, m).durables) {
      CompleteMeansStopped(ctx, st, m);
    }
  }

  predicate NoneComplete(durables: seq<Durable>) {
    forall i :: 0 <= i < |durables| ==> durables[i].Assistant? && !durables[i].isComplete
  }

  // ---------------------------------------------------------------- the segment behind the stream

  /** What a message does to the assembly, in the terms of AssistantContent. */
  function OpsOf(st: State, body: Body): seq<Op> {
    match body
    case BlockStart(raw, block) => [Start(raw, block)]
    case BlockDelta(raw, delta) => [Append(raw, delta)]
    case AssistantSnapshot(_, _, _, _, _, content) => [Replace(content)]
    case TaskProgress(block) => if block.taskId == "" then [] else [Merge([block])]
    case User(results) =>
      var added := AddedResults(st.segment.body.content, results);
      if added == [] then [] else [Merge(added)]
    case _ => []
  }

  function OpsSinceReset(ctx: Context, sessionId: string, ms: seq<Message>): seq<Op> {
    if ms == [] then []
    else
      var before, m := ms[..|ms| - 1], ms[|ms| - 1];
      var st := Run(ctx, sessionId, before);
      match Admitted(st, m)
      case None => OpsSinceReset(ctx, sessionId, before)
      case Some(s) => (if Resets(s, m.body) then [] else OpsSinceReset(ctx, sessionId, before)) + OpsOf(s, m.body)
  }

  ghost predicate Unstarted(s: Segment) {
    !IsStarted(s) ==> s.body == EMPTY
  }

  lemma EditedIsStep(s: Segment, op: Op, now: string, ops: seq<Op>)
    requires Unstarted(s) && s.body == AssistantContent.Run(ops)
    ensures IsStarted(Edited(s, op, now)) && Edited(s, op, now).body == AssistantContent.Run(ops + [op])
  {
    assert (ops + [op])[..|ops|] == ops;
  }

  lemma AbsorbIsStep(s: State, body: Body, now: string, ops: seq<Op>)
    requires Unstarted(s.segment) && (!Resets(s, body) ==> s.segment.body == AssistantContent.Run(ops))
    ensures var ops' := (if Resets(s, body) then [] else ops) + OpsOf(s, body);
      var after := Absorb(s, body, now).segment;
      Unstarted(after) && after.body == AssistantContent.Run(ops')
  {
    var base, more := if Resets(s, body) then [] else ops, OpsOf(s, body);
    var start :=
      if body.AssistantSnapshot? && !IsStarted(s.segment) then Started(body.id, body.model, body.usage, now)
      else s.segment;
    if more == [] {
      assert base + more == base;
    } else {
      assert more == [more[0]];
      EditedIsStep(start, more[0], now, base);
    }
  }

  /** The assembly of the processor is always that of the starts, deltas, snapshots and merges
      received since its segment was last started; everything proved of those runs holds of it. */
  lemma {:induction false} SegmentIsRun(ctx: Context, sessionId: string, ms: seq<Message>)
    ensures Unstarted(Run(ctx, sessionId, ms).segment)
    ensures Run(ctx, sessionId, ms).segment.body == AssistantContent.Run(OpsSinceReset(ctx, sessionId, ms))
    decreases |ms|
  {
    if ms != [] {
      var before, m := ms[..|ms| - 1], ms[|ms| - 1];
      SegmentIsRun(ctx, sessionId, before);
      var admitted := Admitted(Run(ctx, sessionId, before), m);
      if admitted.Some? {
        AbsorbIsStep(admitted.value, m.body, m.now, OpsSinceReset(ctx, sessionId, before));
      }
    }
  }

  ghost predicate CarryTheirBlock(events: seq<StreamEvent>, content: seq<Block>) {
    forall i :: 0 <= i < |events| && events[i].BlockEvent? ==>
      events[i].index < |content| && events[i].block == Some(content[events[i].index])
  }

  lemma EventsStep(s: State, body: Body, now: string, ops: seq<Op>)
    requires Unstarted(s.segment) && s.segment.body == AssistantContent.Run(ops)
    requires Disciplined(ops + OpsOf(s, body))
    ensures var after := Absorb(s, body, now);
      CarryTheirBlock(Events(s, after, body), after.segment.body.content)
  {
    if body.BlockDelta? {
      AbsorbIsStep(s, body, now, ops);
      DisciplinedPayloads(ops, body.raw, body.delta);
    }
  }

  /** In a disciplined stream every block event carries the block at the position it names. */
  lemma EventsCarryTheirBlock(ctx: Context, sessionId: string, ms: seq<Message>, m: Message)
    requires Disciplined(OpsSinceReset(ctx, sessionId, ms + [m]))
    ensures CarryTheirBlock(
      OutputOf(ctx, Run(ctx, sessionId, ms), m).events, Run(ctx, sessionId, ms + [m]).segment.body.content)
  {
    var all, st := ms + [m], Run(ctx, sessionId, ms);
    assert all[..|all| - 1] == ms;
    SegmentIsRun(ctx, sessionId, ms);
    var admitted := Admitted(st, m);
    if admitted.Some? {
      var s := admitted.value;
      if Resets(s, m.body) {
        assert CarryTheirBlock(Events(s, Absorb(s, m.body, m.now), m.body), []);
      } else {
        EventsStep(s, m.body, m.now, OpsSinceReset(ctx, sessionId, ms));
      }
    }
  }

  ghost predicate Show(durables: seq<Durable>, content: seq<Block>) {
    forall i :: 0 <= i < |durables| && durables[i].Assistant? ==> durables[i].content == content
  }

  lemma OutputShows(ctx: Context, st: State, m: Message)
    ensures Show(OutputOf(ctx, st, m).durables, ThinkingFirst(Next(ctx, st, m).segment.body.content))
  {
    var s := Admitted(st, m);
    if s.Some? {
      var after := Absorb(s.value, m.body, m.now);
      assert Show(Emitted(ctx, s.value, after, m.body), ThinkingFirst(after.segment.body.content));
    }
  }

  /** What a durable assistant message shows is the content of the segment, thinking first. */
  lemma EmittedShowsSegment(ctx: Context, sessionId: string, ms: seq<Message>, m: Message)
    ensures Show(OutputOf(ctx, Run(ctx, sessionId, ms), m).durables,
                 ThinkingFirst(AssistantContent.Run(OpsSinceReset(ctx, sessionId, ms + [m])).content))
  {
    RunMore(ctx, sessionId, ms, m);
    SegmentIsRun(ctx, sessionId, ms + [m]);
    OutputShows(ctx, Run(ctx, sessionId, ms), m);
  }
}

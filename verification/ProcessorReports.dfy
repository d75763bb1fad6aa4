/** What the message processor says, field by field: which messages make up the current segment and its
    metadata, what a durable message shows and when one is emitted, which tool results are kept, which
    stream events are published, and how a result ends a round. */
module ProcessorReports {
  import opened Options
  import opened AssistantContent
  import opened BlockUpserts
  import opened ProcessorRun

  // ---------------------------------------------------------------- the messages of a segment

  /** Does the message start a segment where there is none? */
  predicate Begins(body: Body) {
    match body
    case TaskProgress(block) => block.taskId != ""
    case User(results) =>
      && (forall i :: 0 <= i < |results| ==> results[i].block.kind == "tool_result")
      && (exists i :: 0 <= i < |results| && results[i].block.isError)
    case Result(_, _) => false
    case Other => false
    case _ => true
  }

  /** The messages taken since the segment was last started, the one that started it first. */
  function Episode(ctx: Context, sessionId: string, ms: seq<Message>): seq<Message> {
    if ms == [] then []
    else
      var before, m := ms[..|ms| - 1], ms[|ms| - 1];
      match Admitted(ProcessorRun.Run(ctx, sessionId, before), m)
      case None => Episode(ctx, sessionId, before)
      case Some(s) =>
        if m.body.MessageStart? || (m.body.AssistantSnapshot? && s.segment.messageId == "") then [m]
        else if s.segment.messageId != "" then Episode(ctx, sessionId, before) + [m]
        else if Begins(m.body) then [m]
        else []
  }

  datatype Metadata = Metadata(model: string, usage: string, stopReason: string)

  function Latest(before: string, now: string): string {
    if now != "" then now else before
  }

  /** A start or a first snapshot brings its own metadata; any other first message brings none, not even
      a delta of the message, whose metadata is lost with the start it causes. */
  function FirstMeta(body: Body): Metadata {
    match body
    case MessageStart(_, model, usage) => Metadata(model, usage, "")
    case AssistantSnapshot(_, model, usage, stopReason, _, _) => Metadata(model, usage, stopReason)
    case _ => Metadata("", "", "")
  }

  /** Later on, what a delta of the message or a snapshot says replaces what was there. */
  function MetaThen(before: Metadata, body: Body): Metadata {
    match body
    case AssistantSnapshot(_, model, usage, stopReason, _, _) =>
      Metadata(Latest(before.model, model), Latest(before.usage, usage), Latest(before.stopReason, stopReason))
    case MessageDelta(usage, stopReason) =>
      before.(usage := Latest(before.usage, usage), stopReason := Latest(before.stopReason, stopReason))
    case _ => before
  }

  function MetaOf(episode: seq<Message>): Metadata
    requires episode != []
  {
    var body := episode[|episode| - 1].body;
    if |episode| == 1 then FirstMeta(body) else MetaThen(MetaOf(episode[..|episode| - 1]), body)
  }

  /** The id the first message gives, or one made from its time. */
  function IdFrom(first: Message): string {
    var given := match first.body
      case MessageStart(id, _, _) => id
      case AssistantSnapshot(id, _, _, _, _, _) => id
      case _ => "";
    if given != "" then given else "assistant_" + first.now
  }

  ghost predicate IsOf(st: State, episode: seq<Message>) {
    && (st.segment.messageId == "" <==> episode == [])
    && (episode == [] ==> st.segment == NO_SEGMENT && !st.streamStarted)
    && (episode != [] ==>
          && st.segment.messageId == IdFrom(episode[0]) && st.segment.timestamp == episode[0].now
          && MetaIn(st.segment) == MetaOf(episode)
          && (st.streamStarted <==> episode[0].body.MessageStart?))
  }

  lemma GeneratedIsNamed(now: string)
    ensures GeneratedId(now) != ""
  {
    assert |GeneratedId(now)| > 0;
  }

  lemma FirstIsOf(s: State, m: Message)
    requires m.body.MessageStart? || s.segment == NO_SEGMENT
    requires !m.body.MessageStart? ==> !s.streamStarted
    ensures IsOf(Absorb(s, m.body, m.now), if Begins(m.body) then [m] else [])
  {
    GeneratedIsNamed(m.now);
    assert [m][..0] == [];
    if m.body.User? {
      MergedAtFirst(s.segment.body.content, m.body.results);
    }
  }

  /** Into an empty content only failed results are merged. */
  lemma {:induction false} ContributionsAtFirst(results: seq<ToolResult>)
    ensures Contributions([], results) != [] <==> exists i :: 0 <= i < |results| && results[i].block.isError
    decreases |results|
  {
    if results != [] {
      ContributionsAtFirst(results[1..]);
      assert results == [results[0]] + results[1..];
    }
  }

  lemma MergedAtFirst(content: seq<Block>, results: seq<ToolResult>)
    requires content == []
    ensures AddedResults(content, results) != [] <==> Begins(User(results))
  {
    MergedResults(content, results);
    ContributionsAtFirst(results);
  }

  function MetaIn(s: Segment): Metadata {
    Metadata(s.model, s.usage, s.stopReason)
  }

  /** A segment that is started keeps its id, its time and whether it is streamed. */
  lemma AbsorbMeta(s: State, body: Body, now: string)
    requires s.segment.messageId != "" && !body.MessageStart?
    ensures var after := Absorb(s, body, now);
      && after.segment.messageId == s.segment.messageId && after.segment.timestamp == s.segment.timestamp
      && after.streamStarted == s.streamStarted
      && MetaIn(after.segment) == MetaThen(MetaIn(s.segment), body)
  {}

  lemma MetaOfMore(episode: seq<Message>, m: Message)
    requires episode != []
    ensures MetaOf(episode + [m]) == MetaThen(MetaOf(episode), m.body) && (episode + [m])[0] == episode[0]
  {
    assert (episode + [m])[..|episode|] == episode;
  }

  lemma LaterIsOf(s: State, m: Message, episode: seq<Message>)
    requires IsOf(s, episode) && episode != [] && !m.body.MessageStart?
    ensures IsOf(Absorb(s, m.body, m.now), episode + [m])
  {
    AbsorbMeta(s, m.body, m.now);
    MetaOfMore(episode, m);
  }

  /** In every reachable state the id, the time and the metadata of the segment are those its messages
      give, and it is streamed exactly if a message start began it. */
  lemma {:induction false} SegmentIsOfEpisode(ctx: Context, sessionId: string, ms: seq<Message>)
    ensures IsOf(ProcessorRun.Run(ctx, sessionId, ms), Episode(ctx, sessionId, ms))
    decreases |ms|
  {
    if ms != [] {
      var before, m := ms[..|ms| - 1], ms[|ms| - 1];
      SegmentIsOfEpisode(ctx, sessionId, before);
      var admitted := Admitted(ProcessorRun.Run(ctx, sessionId, before), m);
      if admitted.Some? {
        var s, episode := admitted.value, Episode(ctx, sessionId, before);
        assert IsOf(s, episode);
        if m.body.MessageStart? || episode == [] {
          FirstIsOf(s, m);
        } else {
          LaterIsOf(s, m, episode);
        }
      }
    }
  }

  /** Some delta of the message left the segment with content and a stop reason since it was begun by a
      message start or a snapshot. */
  function SeenEnd(ctx: Context, sessionId: string, ms: seq<Message>): bool {
    if ms == [] then false
    else
      var before, m := ms[..|ms| - 1], ms[|ms| - 1];
      match Admitted(ProcessorRun.Run(ctx, sessionId, before), m)
      case None => SeenEnd(ctx, sessionId, before)
      case Some(s) =>
        if m.body.MessageStart? || (m.body.AssistantSnapshot? && s.segment.messageId == "") then false
        else
          var segment := Absorb(s, m.body, m.now).segment;
          SeenEnd(ctx, sessionId, before)
          || (m.body.MessageDelta? && segment.body.content != [] && segment.stopReason != "")
  }

  lemma {:induction false} EndIsObserved(ctx: Context, sessionId: string, ms: seq<Message>)
    ensures ProcessorRun.Run(ctx, sessionId, ms).terminalObserved <==> SeenEnd(ctx, sessionId, ms)
    decreases |ms|
  {
    if ms != [] {
      var before, m := ms[..|ms| - 1], ms[|ms| - 1];
      EndIsObserved(ctx, sessionId, before);
      var admitted := Admitted(ProcessorRun.Run(ctx, sessionId, before), m);
      if admitted.Some? {
        ObservedStep(admitted.value, m);
      }
    }
  }

  lemma ObservedStep(s: State, m: Message)
    ensures var after := Absorb(s, m.body, m.now);
      after.terminalObserved <==>
        !(m.body.MessageStart? || (m.body.AssistantSnapshot? && s.segment.messageId == ""))
        && (s.terminalObserved
            || (m.body.MessageDelta? && after.segment.body.content != [] && after.segment.stopReason != ""))
  {}

  // ---------------------------------------------------------------- durable messages

  /** Is a durable message asked for? */
  predicate IsAsked(before: State, after: State, body: Body) {
    match body
    case MessageDelta(_, _) => after.segment.body.content != [] && after.segment.stopReason != ""
    case AssistantSnapshot(_, _, _, _, _, _) => true
    case TaskProgress(block) => block.taskId != ""
    case User(results) => AddedResults(before.segment.body.content, results) != []
    case _ => false
  }

  /** Does it show the stop reason? A snapshot of a message being streamed shows it only once the end of
      the stream has been seen; task progress never does. */
  predicate ShowsStop(after: State, body: Body) {
    body.MessageDelta? || body.User? || (body.AssistantSnapshot? && !(after.streamStarted && !after.terminalObserved))
  }

  predicate SaysComplete(after: State, body: Body) {
    body.MessageDelta? || body.User?
    || (body.AssistantSnapshot? && ShowsStop(after, body) && after.segment.stopReason != "")
  }

  predicate IsOfSegment(ctx: Context, after: State, body: Body, d: Durable) {
    && d.Assistant?
    && d.messageId == after.segment.messageId && d.sessionId == after.sessionId && d.roundId == ctx.roundId
    && d.parentId == (if body.AssistantSnapshot? && body.parentId != "" then body.parentId else ctx.parentId)
    && d.model == after.segment.model && d.usage == after.segment.usage && d.timestamp == after.segment.timestamp
    && d.stopReason == (if ShowsStop(after, body) then after.segment.stopReason else "")
    && d.isComplete == SaysComplete(after, body)
  }

  /** The two messages say the same: they may differ in usage and time only. */
  predicate SayTheSame(a: Durable, b: Durable) {
    && a.Assistant? && b.Assistant?
    && a == b.(usage := a.usage, timestamp := a.timestamp)
  }

  lemma SameAssistantMeaning(a: Durable, b: Durable)
    requires a.Assistant? && b.Assistant?
    ensures SameAssistant(a, b) <==> SayTheSame(a, b)
  {}

  /** A message makes the processor emit at most one durable assistant message, of its segment and
      thinking first; it emits one exactly if one is asked for and the last one kept for comparison does
      not say the same. */
  lemma EmittedIsOfSegment(ctx: Context, st: State, m: Message, d: Durable)
    requires !m.body.Result? && Admitted(st, m).Some?
    requires var after := Absorb(Admitted(st, m).value, m.body, m.now);
      IsOfSegment(ctx, after, m.body, d) && d.content == ThinkingFirst(after.segment.body.content)
    ensures var s := Admitted(st, m).value;
      var after := Absorb(s, m.body, m.now);
      OutputOf(ctx, st, m).durables ==
        if IsAsked(s, after, m.body) && !(after.last.Some? && SayTheSame(after.last.value, d)) then [d] else []
  {
    var s := Admitted(st, m).value;
    var after := Absorb(s, m.body, m.now);
    var ask := Asked(s, after, m.body);
    if ask.Request? {
      BuiltIsOfSegment(ctx, s, after, m.body, d);
      if after.last.Some? && after.last.value.Assistant? {
        SameAssistantMeaning(after.last.value, d);
      }
    }
  }

  lemma BuiltIsOfSegment(ctx: Context, s: State, after: State, body: Body, d: Durable)
    requires IsOfSegment(ctx, after, body, d) && d.content == ThinkingFirst(after.segment.body.content)
    ensures var ask := Asked(s, after, body);
      && (ask.Request? <==> IsAsked(s, after, body))
      && (ask.Request? ==> Built(ctx, after, ask.isComplete, ask.withStopReason, ask.parentId) == d)
  {}

  /** What else is reported of the message: whether it starts a stream, and whether an assistant message
      was completed by it. */
  lemma ReportedFlags(ctx: Context, st: State, m: Message)
    requires Admitted(st, m).Some?
    ensures var out, s := OutputOf(ctx, st, m), Admitted(st, m).value;
      var after := Absorb(s, m.body, m.now);
      && !out.failed && (out.streamStarted <==> m.body.MessageStart?)
      && (out.assistantCompleted <==> !m.body.Result? && |out.durables| == 1 && SaysComplete(after, m.body))
  {
    var s := Admitted(st, m).value;
    var after := Absorb(s, m.body, m.now);
    var ask := Asked(s, after, m.body);
  }

  function FirstGiven(ids: seq<string>): string {
    if ids == [] then "" else if ids[0] != "" then ids[0] else FirstGiven(ids[1..])
  }

  /** A processor without a session id takes the first one a message gives, and reports it. */
  lemma TakesFirstId(ctx: Context, st: State, m: Message)
    ensures st.sessionId == "" ==>
      && Admitted(st, m).Some? && OutputOf(ctx, st, m).registered == FirstGiven(m.sessionIds)
      && Next(ctx, st, m).sessionId == FirstGiven(m.sessionIds)
    ensures st.sessionId != "" ==> OutputOf(ctx, st, m).registered == ""
  {
    FirstIsRegistered(st.sessionId, m.sessionIds);
    if Admitted(st, m).Some? {
      AbsorbSession(Admitted(st, m).value, m.body, m.now);
    }
  }

  lemma {:induction false} FirstIsRegistered(current: string, ids: seq<string>)
    ensures current == "" ==>
      Registered(current, ids) == if FirstGiven(ids) == "" then Keep else Register(FirstGiven(ids))
    ensures current != "" ==> !Registered(current, ids).Register?
    decreases |ids|
  {
    if ids != [] {
      FirstIsRegistered(current, ids[1..]);
    }
  }

  /** A result ends the round: interrupted or in error if it says so, in error too if it says something
      unknown and is an error, and finished otherwise. */
  lemma ResultEndsRound(ctx: Context, st: State, m: Message)
    requires m.body.Result? && Admitted(st, m).Some?
    ensures var out, said := OutputOf(ctx, st, m), m.body.subtype;
      var inError := said == "error" || (said != "success" && said != "interrupted" && m.body.isError);
      && out.terminalStatus
          == (if said == "interrupted" then "interrupted" else if inError then "error" else "finished")
      && out.subtype == (if said == "interrupted" then "interrupted" else if inError then "error" else "success")
      && out.durables == [ResultMessage(out.subtype, inError)]
  {}

  /** Every other message leaves the round running. */
  lemma OnlyResultsEnd(ctx: Context, st: State, m: Message)
    requires !m.body.Result?
    ensures OutputOf(ctx, st, m).terminalStatus == "" && OutputOf(ctx, st, m).subtype == ""
  {}

  // ---------------------------------------------------------------- tool results

  predicate KnownTool(content: seq<Block>, r: ToolResult) {
    r.block.toolUseId != ""
    && exists i :: 0 <= i < |content| && content[i].kind == "tool_use" && content[i].id == r.block.toolUseId
  }

  /** A failed result counts on its own, a successful one with the artifacts of its tool, if the tool is
      known; in the order of the results. */
  function Contribution(content: seq<Block>, r: ToolResult): seq<Block> {
    if r.block.isError then [r.block]
    else if KnownTool(content, r) then [r.block] + r.artifacts
    else []
  }

  function Contributions(content: seq<Block>, results: seq<ToolResult>): seq<Block> {
    if results == [] then [] else Contribution(content, results[0]) + Contributions(content, results[1..])
  }

  lemma {:induction false} ContributionsMore(content: seq<Block>, results: seq<ToolResult>, r: ToolResult)
    ensures Contributions(content, results + [r]) == Contributions(content, results) + Contribution(content, r)
    decreases |results|
  {
    var all := results + [r];
    if |results| == 0 {
      assert all == [r];
      ContributionsOfOne(content, r);
    } else {
      ContributionsMore(content, results[1..], r);
      assert all[1..] == results[1..] + [r] && all[0] == results[0];
      var first, rest := Contribution(content, results[0]), Contributions(content, results[1..]);
      assert first + (rest + Contribution(content, r)) == (first + rest) + Contribution(content, r);
    }
  }

  lemma ContributionsOfOne(content: seq<Block>, r: ToolResult)
    ensures Contributions(content, [r]) == Contribution(content, r)
  {
    assert [r][1..] == [];
    assert Contribution(content, r) + [] == Contribution(content, r);
  }

  lemma {:induction false} KeptAreContributions(content: seq<Block>, results: seq<ToolResult>)
    ensures KeptResults(content, results) == Contributions(content, results)
    decreases |results|
  {
    if results != [] {
      var front, last := results[..|results| - 1], results[|results| - 1];
      KeptAreContributions(content, front);
      ContributionsMore(content, front, last);
      assert results == front + [last];
    }
  }

  /** What a user message merges into the segment: nothing unless all its blocks are tool results, and
      then the contributions of all of them. */
  lemma MergedResults(content: seq<Block>, results: seq<ToolResult>)
    ensures AddedResults(content, results) ==
      if exists i :: 0 <= i < |results| && results[i].block.kind != "tool_result" then []
      else Contributions(content, results)
  {
    KeptAreContributions(content, results);
  }

  // ---------------------------------------------------------------- stream events

  /** Which events a message publishes: its own kind for the marks of a message, under the id of the
      segment; the block and its position for a block start, and for a delta that is taken, unless the
      block is a tool use; none for any other message. */
  ghost predicate EventsFit(body: Body, segment: Segment, events: seq<StreamEvent>) {
    match body
    case MessageStart(_, _, _) => events == [Meta("message_start", segment.messageId)]
    case MessageDelta(_, _) => events == [Meta("message_delta", segment.messageId)]
    case MessageStop => events == [Meta("message_stop", segment.messageId)]
    case BlockStart(raw, block) => StartEventsFit(raw, block, segment, events)
    case BlockDelta(raw, delta) => DeltaEventsFit(raw, delta, segment, events)
    case _ => events == []
  }

  ghost predicate StartEventsFit(raw: int, block: Block, segment: Segment, events: seq<StreamEvent>) {
    var content, slot := segment.body.content, segment.body.slot;
    if block.kind == "tool_use" then events == []
    else
      && |events| == 1 && events[0].BlockEvent? && events[0].kind == "content_block_start"
      && events[0].messageId == segment.messageId && events[0].block == Some(block)
      && events[0].index < |content| && content[events[0].index] == block
      && raw in slot && slot[raw] == events[0].index
  }

  ghost predicate DeltaEventsFit(raw: int, delta: Delta, segment: Segment, events: seq<StreamEvent>) {
    var content, slot := segment.body.content, segment.body.slot;
    && raw in slot && slot[raw] < |content|
    && var kind, shown := content[slot[raw]].kind, CurrentBlock(segment.body, slot[raw]);
       var taken := (kind == "text" && delta.TextDelta?)
         || (kind == "thinking" && (delta.ThinkingDelta? || delta.SignatureDelta?));
       events == if taken && !(shown.Some? && shown.value.kind == "tool_use")
         then [BlockEvent("content_block_delta", segment.messageId, slot[raw], shown)] else []
  }

  lemma EventsAre(ctx: Context, sessionId: string, ms: seq<Message>, m: Message)
    requires Admitted(ProcessorRun.Run(ctx, sessionId, ms), m).Some?
    ensures var st := ProcessorRun.Run(ctx, sessionId, ms);
      var after := Absorb(Admitted(st, m).value, m.body, m.now);
      EventsFit(m.body, after.segment, OutputOf(ctx, st, m).events)
  {
    var st := ProcessorRun.Run(ctx, sessionId, ms);
    var s := Admitted(st, m).value;
    SegmentIsRun(ctx, sessionId, ms);
    SlotsAlwaysSound(OpsSinceReset(ctx, sessionId, ms));
    OwnEvents(ctx, st, m);
    EventsOf(s, m.body, m.now);
  }

  lemma OwnEvents(ctx: Context, st: State, m: Message)
    requires Admitted(st, m).Some?
    ensures var s := Admitted(st, m).value;
      OutputOf(ctx, st, m).events == Events(s, Absorb(s, m.body, m.now), m.body)
      && BodyBefore(s) == BodyBefore(st)
  {}

  lemma EventsOf(s: State, body: Body, now: string)
    requires Sound(BodyBefore(s))
    ensures var after := Absorb(s, body, now);
      EventsFit(body, after.segment, Events(s, after, body))
  {
    match body
    case BlockStart(raw, block) => StartEvents(s, raw, block, now);
    case BlockDelta(raw, delta) => DeltaEvents(s, raw, delta, now);
    case _ =>
  }

  lemma StartEvents(s: State, raw: int, block: Block, now: string)
    requires Sound(BodyBefore(s))
    ensures var after := Absorb(s, BlockStart(raw, block), now);
      StartEventsFit(raw, block, after.segment, Events(s, after, BlockStart(raw, block)))
  {}

  lemma DeltaEvents(s: State, raw: int, delta: Delta, now: string)
    requires Sound(BodyBefore(s))
    ensures var after := Absorb(s, BlockDelta(raw, delta), now);
      DeltaEventsFit(raw, delta, after.segment, Events(s, after, BlockDelta(raw, delta)))
  {
    DeltaTakes(BodyBefore(s), raw, delta);
  }

  lemma DeltaTakes(a: Assembly, raw: int, delta: Delta)
    requires Sound(a)
    ensures var after, index := ApplyDelta(a, raw, delta), DeltaIndex(a, raw, delta);
      && raw in after.slot && after.slot[raw] == index < |after.content|
      && var kind := after.content[index].kind;
         var taken := (kind == "text" && delta.TextDelta?)
           || (kind == "thinking" && (delta.ThinkingDelta? || delta.SignatureDelta?));
         DeltaApplies(a, raw, delta) <==> taken
  {}
}

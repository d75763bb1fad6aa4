/** Session keys: the printers, the parser and the validation, over segments split at colons with
    `topic` as a reserved boundary; and the automation keys built from them. */
module SessionKey {
  import opened Options
  import opened Segments
  import opened Text

  // ---------------------------------------------------------------- normalizers

  /** strings.ToLower where it can give an ASCII letter: besides A-Z, only the dotted capital I and
      the Kelvin sign. */
  function Lower(c: char): char {
    if 'A' <= c <= 'Z' then c - 'A' + 'a'
    else if c == '\U{0130}' then 'i'
    else if c == '\U{212A}' then 'k'
    else c
  }

  function ToLower(s: string): (r: string)
    ensures |r| == |s|
  {
    seq(|s|, i requires 0 <= i < |s| => Lower(s[i]))
  }

  function KnownChannel(lower: string): Option<string> {
    if lower == "ws" || lower == "websocket" then Some("ws")
    else if lower == "dg" || lower == "discord" then Some("dg")
    else if lower == "tg" || lower == "telegram" then Some("tg")
    else if lower == "dt" || lower == "dingtalk" then Some("dt")
    else if lower == "wx" || lower == "wechat" then Some("wx")
    else if lower == "fs" || lower == "feishu" then Some("fs")
    else if lower == "internal" then Some("internal")
    else None
  }

  /** The name a channel is stored under. */
  function KnownStored(lower: string): Option<string> {
    if lower == "ws" || lower == "websocket" then Some("websocket")
    else if lower == "dg" || lower == "discord" then Some("discord")
    else if lower == "tg" || lower == "telegram" then Some("telegram")
    else if lower == "dt" || lower == "dingtalk" then Some("dingtalk")
    else if lower == "wx" || lower == "wechat" then Some("wechat")
    else if lower == "fs" || lower == "feishu" then Some("feishu")
    else if lower == "internal" then Some("internal")
    else None
  }

  lemma KnownChannelIsSegment(lower: string)
    ensures var known := KnownChannel(lower);
      known.Some? ==> lower != "" && known.value != "" && Free(known.value, ':') && Trimmed(known.value)
  {}

  function ChannelSegment(channel: string): string {
    var known := KnownChannel(ToLower(Trim(channel)));
    if known.Some? then known.value else Trim(channel)
  }

  /** NormalizeStoredChannelType. */
  function StoredChannel(channel: string): string {
    var known := KnownStored(ToLower(Trim(channel)));
    if known.Some? then known.value else Trim(channel)
  }

  /** A known segment is its own normal form. */
  lemma KnownChannelIsFixed(lower: string)
    ensures var known := KnownChannel(lower);
      known.Some? ==> ToLower(known.value) == known.value && KnownChannel(known.value) == known
  {
    var known := KnownChannel(lower);
    if known.Some? {
      var v := known.value;
      assert forall i :: 0 <= i < |v| ==> Lower(v[i]) == v[i];
      assert ToLower(v) == v;
    }
  }

  function KnownChatType(lower: string): Option<string> {
    if lower == "" || lower == "dm" then Some("dm") else if lower == "group" then Some("group") else None
  }

  lemma KnownChatTypeIsSegment(lower: string)
    ensures var known := KnownChatType(lower);
      && (known.Some? ==> known.value != "" && Free(known.value, ':') && Trimmed(known.value))
      && (|lower| == 0 ==> known.Some?)
  {}

  function ChatType(chatType: string): string {
    var known := KnownChatType(ToLower(Trim(chatType)));
    if known.Some? then known.value else Trim(chatType)
  }

  /** A normalized segment is trimmed and colon-free when what it is made from is, and it is empty
      only where nothing was given. */
  lemma ChannelStaysSegment(channel: string)
    requires Free(channel, ':') && Trimmed(channel)
    ensures Free(ChannelSegment(channel), ':') && Trimmed(ChannelSegment(channel))
    ensures |ChannelSegment(channel)| == 0 <==> |channel| == 0
  {
    TrimFixpoint(channel);
    var lower := ToLower(channel);
    KnownChannelIsSegment(lower);
    var known := KnownChannel(lower);
    assert ChannelSegment(channel) == if known.Some? then known.value else channel;
    assert known.Some? ==> |lower| > 0;
  }

  lemma ChannelSegmentIsFixed(channel: string)
    requires Free(channel, ':') && Trimmed(channel)
    ensures ChannelSegment(ChannelSegment(channel)) == ChannelSegment(channel)
  {
    TrimFixpoint(channel);
    var known := KnownChannel(ToLower(channel));
    KnownChannelIsFixed(ToLower(channel));
    KnownChannelIsSegment(ToLower(channel));
    if known.Some? {
      var v := known.value;
      assert ChannelSegment(channel) == v;
      TrimFixpoint(v);
    }
  }

  lemma ChatTypeIsFixed(chatType: string)
    requires Free(chatType, ':') && Trimmed(chatType)
    ensures ChatType(ChatType(chatType)) == ChatType(chatType)
  {
    TrimFixpoint(chatType);
    var known := KnownChatType(ToLower(chatType));
    KnownChatTypeIsSegment(ToLower(chatType));
    KnownChatTypeIsFixed(ToLower(chatType));
    if known.Some? {
      var v := known.value;
      assert ChatType(chatType) == v;
      TrimFixpoint(v);
    }
  }

  lemma KnownChatTypeIsFixed(lower: string)
    ensures var known := KnownChatType(lower);
      known.Some? ==> ToLower(known.value) == known.value && KnownChatType(known.value) == known
  {
    var known := KnownChatType(lower);
    if known.Some? {
      var v := known.value;
      assert forall i :: 0 <= i < |v| ==> Lower(v[i]) == v[i];
      assert ToLower(v) == v;
    }
  }

  lemma ChatTypeStaysSegment(chatType: string)
    requires Free(chatType, ':') && Trimmed(chatType)
    ensures Free(ChatType(chatType), ':') && Trimmed(ChatType(chatType)) && |ChatType(chatType)| > 0
  {
    TrimFixpoint(chatType);
    var lower := ToLower(chatType);
    KnownChatTypeIsSegment(lower);
    var known := KnownChatType(lower);
    assert ChatType(chatType) == if known.Some? then known.value else chatType;
  }

  // ---------------------------------------------------------------- keys

  datatype Kind = Agent | Room | Unknown
  datatype Fields = Fields(agentId: string, channel: string, chatType: string, ref: string, threadId: string)
  datatype Key = Key(raw: string, kind: Kind, isStructured: bool, isShared: bool, fields: Fields,
        conversationId: string)

  const NOTHING := Fields("", "", "", "", "")

  datatype Validity = Valid | Required | NotAnAgentKey | NotARoomKey | NotStructured

  /** findTopicIndex: the first `topic` segment from position `i` on, or the number of segments. */
  function TopicFrom(parts: seq<string>, i: nat): (t: nat)
    ensures t <= |parts| && (t < |parts| ==> i <= t && parts[t] == "topic")
    ensures forall j :: i <= j < t ==> parts[j] != "topic"
    decreases |parts| - i
  {
    if i >= |parts| then |parts| else if parts[i] == "topic" then i else TopicFrom(parts, i + 1)
  }

  function Segment(parts: seq<string>, i: nat): string {
    if i < |parts| then Trim(parts[i]) else ""
  }

  function Rest(parts: seq<string>, i: nat): string {
    if i < |parts| then Trim(Join(parts[i..], ':')) else ""
  }

  function RefOf(parts: seq<string>): string {
    var topic := TopicFrom(parts, 4);
    if topic < |parts| then Trim(Join(parts[4..topic], ':')) else Rest(parts, 4)
  }

  function ThreadOf(parts: seq<string>): string {
    var topic := TopicFrom(parts, 4);
    if topic < |parts| then Trim(Join(parts[topic + 1..], ':')) else ""
  }

  function AgentFields(parts: seq<string>): Fields {
    var chatType := Segment(parts, 3);
    Fields(Segment(parts, 1), Segment(parts, 2),
           if |chatType| > 0 then chatType else "dm", RefOf(parts), ThreadOf(parts))
  }

  predicate ValidAgentParts(parts: seq<string>) {
    && |parts| >= 5 && |Segment(parts, 1)| > 0 && |Segment(parts, 2)| > 0 && |Segment(parts, 3)| > 0
    && |RefOf(parts)| > 0
    && (TopicFrom(parts, 4) < |parts| ==> |ThreadOf(parts)| > 0)
  }

  predicate ValidRoomParts(parts: seq<string>) {
    |parts| >= 3 && parts[1] == "group" && |Trim(Join(parts[2..], ':'))| > 0
  }

  const AGENT_PREFIX := "agent:"
  const ROOM_PREFIX := "room:"

  /** GetSessionKeyValidationError. */
  function Validate(raw: string): Validity {
    var normalized := Trim(raw);
    var parts := Split(normalized, ':');
    if |normalized| == 0 then Required
    else if AGENT_PREFIX <= normalized then if ValidAgentParts(parts) then Valid else NotAnAgentKey
    else if ROOM_PREFIX <= normalized then if ValidRoomParts(parts) then Valid else NotARoomKey
    else NotStructured
  }

  /** ParseSessionKey. */
  function Parse(raw: string): Key {
    var normalized := Trim(raw);
    var parts, valid := Split(normalized, ':'), Validate(normalized).Valid?;
    if AGENT_PREFIX <= normalized then Key(normalized, Agent, valid, false, AgentFields(parts), "")
    else if ROOM_PREFIX <= normalized then
      var conversation, chatType := Rest(parts, 2), Segment(parts, 1);
      Key(normalized, Room, valid, valid,
          NOTHING.(chatType := if |chatType| > 0 then chatType else "group", ref := conversation), conversation)
    else Key(normalized, Unknown, valid, false, NOTHING, "")
  }

  function Tail(f: Fields): string {
    if |f.threadId| == 0 then f.ref else f.ref + ":" + ("topic" + ":" + f.threadId)
  }

  /** BuildAgentSessionKey, the channel and chat type being normalized first. */
  function Printed(f: Fields): string {
    "agent" + ":" + (f.agentId + ":" + (f.channel + ":" + (f.chatType + ":" + Tail(f))))
  }

  function Normalized(agent: string, channel: string, chatType: string, ref: string, thread: string): Fields {
    Fields(agent, ChannelSegment(channel), ChatType(chatType), ref, thread)
  }

  function BuildAgentKey(agent: string, channel: string, chatType: string, ref: string, thread: string): string {
    Printed(Normalized(agent, channel, chatType, ref, thread))
  }

  // ---------------------------------------------------------------- the round trip

  predicate NoTopic(ref: string) {
    TopicFrom(Split(ref, ':'), 0) == |Split(ref, ':')|
  }

  /** Fields whose first three segments can stand between colons. */
  predicate Separable(f: Fields) {
    Free(f.agentId, ':') && Free(f.channel, ':') && Free(f.chatType, ':')
  }

  predicate Printable(f: Fields) {
    && Separable(f)
    && Trimmed(f.agentId) && Trimmed(f.channel) && Trimmed(f.chatType) && |f.chatType| > 0
    && Trimmed(f.ref) && |f.ref| > 0 && Trimmed(f.threadId)
  }

  function TailParts(f: Fields): seq<string> {
    Split(f.ref, ':') + if |f.threadId| == 0 then [] else ["topic"] + Split(f.threadId, ':')
  }

  function PartsOf(f: Fields): seq<string> {
    ["agent", f.agentId, f.channel, f.chatType] + TailParts(f)
  }

  lemma SplitCons(segment: string, rest: string)
    requires Free(segment, ':')
    ensures Split(segment + ":" + rest, ':') == [segment] + Split(rest, ':')
  {
    SplitConcat(segment, rest, ':');
    SplitOfFree(segment, ':');
  }

  lemma SplitTail(f: Fields)
    ensures Split(Tail(f), ':') == TailParts(f)
  {
    if |f.threadId| > 0 {
      SplitConcat(f.ref, "topic" + ":" + f.threadId, ':');
      SplitCons("topic", f.threadId);
    }
  }

  lemma SplitPrinted(f: Fields)
    requires Separable(f)
    ensures Split(Printed(f), ':') == PartsOf(f)
  {
    var d := f.chatType + ":" + Tail(f);
    var c := f.channel + ":" + d;
    var b := f.agentId + ":" + c;
    SplitCons("agent", b);
    SplitCons(f.agentId, c);
    SplitCons(f.channel, d);
    SplitCons(f.chatType, Tail(f));
    SplitTail(f);
  }

  lemma PrintedTrimmed(f: Fields)
    requires Printable(f)
    ensures Trim(Printed(f)) == Printed(f) && AGENT_PREFIX <= Printed(f)
  {
    var key := Printed(f);
    assert key[0] == 'a';
    assert key[|key| - 1] == if |f.threadId| == 0 then f.ref[|f.ref| - 1] else f.threadId[|f.threadId| - 1];
    TrimFixpoint(key);
  }

  /** Where the fifth and later segments of a printed key are cut. */
  lemma TopicOfParts(f: Fields)
    ensures var parts, j := PartsOf(f), TopicFrom(Split(f.ref, ':'), 0);
      && TopicFrom(parts, 4) == 4 + j
      && parts[4..4 + j] == Split(f.ref, ':')[..j]
      && (j == |Split(f.ref, ':')| && |f.threadId| > 0
          ==> parts[4 + j] == "topic" && parts[4 + j + 1..] == Split(f.threadId, ':'))
      && (j == |Split(f.ref, ':')| && |f.threadId| == 0 ==> 4 + j == |parts|)
      && (j < |Split(f.ref, ':')| ==> 4 + j < |parts|)
  {
    var parts, refs := PartsOf(f), Split(f.ref, ':');
    var head := ["agent", f.agentId, f.channel, f.chatType];
    var tail := if |f.threadId| > 0 then ["topic"] + Split(f.threadId, ':') else [];
    assert parts == head + refs + tail;
    TopicAfterHead(head, refs, tail);
  }

  lemma TopicIsFirst(parts: seq<string>, i: nat, t: nat)
    requires i <= t <= |parts| && (forall j :: i <= j < t ==> parts[j] != "topic")
        && (t < |parts| ==> parts[t] == "topic")
    ensures TopicFrom(parts, i) == t
  {}

  lemma TopicAfterHead(head: seq<string>, refs: seq<string>, tail: seq<string>)
    requires |head| == 4 && (|tail| > 0 ==> tail[0] == "topic")
    ensures var parts, j := head + refs + tail, TopicFrom(refs, 0);
      && TopicFrom(parts, 4) == 4 + j
      && parts[4..4 + j] == refs[..j]
      && (j == |refs| && |tail| > 0 ==> parts[4 + j] == "topic" && parts[4 + j + 1..] == tail[1..])
  {
    var j := TopicFrom(refs, 0);
    MiddleSlice(head, refs, tail, j);
    if j == |refs| && |tail| > 0 {
      TailSlice(head, refs, tail);
    }
    NoTopicBefore(head, refs, tail, j);
    TopicIsFirst(head + refs + tail, 4, 4 + j);
  }

  lemma NoTopicBefore(head: seq<string>, refs: seq<string>, tail: seq<string>, j: nat)
    requires |head| == 4 && j <= |refs| && forall i :: 0 <= i < j ==> refs[i] != "topic"
    ensures var parts := head + refs + tail;
      (forall i :: 4 <= i < 4 + j ==> parts[i] != "topic") && (j < |refs| ==> parts[4 + j] == refs[j])
  {
    var parts := head + refs + tail;
    forall i | 4 <= i < 4 + j ensures parts[i] != "topic" {
      assert parts[i] == refs[i - 4];
    }
  }

  lemma MiddleSlice(a: seq<string>, b: seq<string>, c: seq<string>, j: nat)
    requires j <= |b|
    ensures (a + b + c)[|a|..|a| + j] == b[..j]
  {}

  lemma TailSlice(a: seq<string>, b: seq<string>, c: seq<string>)
    requires |c| > 0
    ensures (a + b + c)[|a| + |b|] == c[0] && (a + b + c)[|a| + |b| + 1..] == c[1..]
  {}

  lemma {:induction false} JoinPrefixShorter(parts: seq<string>, j: nat)
    requires j < |parts| && |parts[j]| > 0
    ensures |Join(parts[..j], ':')| < |Join(parts, ':')|
    decreases |parts|
  {
    if j > 0 {
      JoinPrefixShorter(parts[1..], j - 1);
      assert parts[..j][1..] == parts[1..][..j - 1];
    }
  }

  lemma HeadParses(f: Fields)
    requires Printable(f)
    ensures var parts := PartsOf(f);
      && Segment(parts, 1) == f.agentId && Segment(parts, 2) == f.channel && Segment(parts, 3) == f.chatType
      && |parts| >= 5
  {
    TrimFixpoint(f.agentId);
    TrimFixpoint(f.channel);
    TrimFixpoint(f.chatType);
    var parts := PartsOf(f);
    assert parts[1] == f.agentId && parts[2] == f.channel && parts[3] == f.chatType;
  }

  lemma TailParses(f: Fields)
    requires Printable(f) && NoTopic(f.ref)
    ensures RefOf(PartsOf(f)) == f.ref && ThreadOf(PartsOf(f)) == f.threadId
    ensures TopicFrom(PartsOf(f), 4) < |PartsOf(f)| <==> |f.threadId| > 0
  {
    var parts, refs := PartsOf(f), Split(f.ref, ':');
    TopicOfParts(f);
    JoinSplit(f.ref, ':');
    TrimFixpoint(f.ref);
    assert refs[..|refs|] == refs;
    if |f.threadId| > 0 {
      JoinSplit(f.threadId, ':');
      TrimFixpoint(f.threadId);
    } else {
      assert parts[4..] == refs;
    }
  }

  lemma TopicCutsRef(f: Fields)
    requires !NoTopic(f.ref)
    ensures |RefOf(PartsOf(f))| < |f.ref|
  {
    var refs := Split(f.ref, ':');
    TopicOfParts(f);
    JoinSplit(f.ref, ':');
    JoinPrefixShorter(refs, TopicFrom(refs, 0));
  }

  /** Parsing a printed key gives the fields back exactly when the ref has no `topic` segment; the
      key is then structured exactly when it names an agent and a channel. */
  lemma PrintedParses(f: Fields)
    requires Printable(f)
    ensures AgentFields(PartsOf(f)) == f <==> NoTopic(f.ref)
    ensures NoTopic(f.ref) ==> (ValidAgentParts(PartsOf(f)) <==> |f.agentId| > 0 && |f.channel| > 0)
  {
    HeadParses(f);
    if NoTopic(f.ref) {
      TailParses(f);
    } else {
      TopicCutsRef(f);
    }
  }

  lemma ParseOfPrinted(f: Fields)
    requires Printable(f)
    ensures var k := Parse(Printed(f));
      && k.raw == Printed(f) && k.kind == Agent && !k.isShared && k.fields == AgentFields(PartsOf(f))
      && (k.isStructured <==> ValidAgentParts(PartsOf(f)))
  {
    PrintedTrimmed(f);
    SplitPrinted(f);
  }

  /** For trimmed, colon-free agent, channel and chat type, a trimmed non-empty ref and a trimmed
      thread, both of which may contain colons: parsing the built key gives exactly the normalized
      components if and only if no segment of the ref is `topic`, and it is then structured if and
      only if there are an agent and a channel. */
  lemma AgentKeyRoundTrip(agent: string, channel: string, chatType: string, ref: string, thread: string)
    requires Free(agent, ':') && Free(channel, ':') && Free(chatType, ':')
    requires Trimmed(agent) && Trimmed(channel) && Trimmed(chatType) && Trimmed(ref) && |ref| > 0 && Trimmed(thread)
    ensures var k := Parse(BuildAgentKey(agent, channel, chatType, ref, thread));
      && k.kind == Agent
      && (k.fields == Normalized(agent, channel, chatType, ref, thread) <==> NoTopic(ref))
      && (NoTopic(ref) ==> (k.isStructured <==> |agent| > 0 && |channel| > 0))
  {
    ChannelStaysSegment(channel);
    ChatTypeStaysSegment(chatType);
    var f := Normalized(agent, channel, chatType, ref, thread);
    PrintedParses(f);
    ParseOfPrinted(f);
  }

  /** Building a key again from what it parses to gives the key itself. */
  lemma RebuiltFromParse(agent: string, channel: string, chatType: string, ref: string, thread: string)
    requires Free(agent, ':') && Free(channel, ':') && Free(chatType, ':') && NoTopic(ref)
    requires Trimmed(agent) && Trimmed(channel) && Trimmed(chatType) && Trimmed(ref) && |ref| > 0 && Trimmed(thread)
    ensures var key := BuildAgentKey(agent, channel, chatType, ref, thread);
      var f := Parse(key).fields;
      BuildAgentKey(f.agentId, f.channel, f.chatType, f.ref, f.threadId) == key
  {
    AgentKeyRoundTrip(agent, channel, chatType, ref, thread);
    ChannelSegmentIsFixed(channel);
    ChatTypeIsFixed(chatType);
  }

  /** Different fields give different keys. */
  lemma PrintedIsInjective(f: Fields, g: Fields)
    requires Printable(f) && Printable(g) && NoTopic(f.ref) && NoTopic(g.ref)
    ensures Printed(f) == Printed(g) ==> f == g
  {
    PrintedParses(f);
    PrintedParses(g);
    SplitPrinted(f);
    SplitPrinted(g);
  }

  // ---------------------------------------------------------------- automation keys

  predicate IsMain(name: string) {
    && |name| == 4
    && name[0] in {'m', 'M'} && name[1] in {'a', 'A'} && name[2] in {'i', 'I'} && name[3] in {'n', 'N'}
  }

  /** SessionTarget.Validate for a named target: `main`, in any case, is reserved. */
  predicate ValidName(name: string) {
    |Trim(name)| > 0 && !IsMain(Trim(name))
  }

  datatype Target = Main | Bound(key: string) | Named(name: string) | Isolated

  function MainKey(agent: string): string {
    BuildAgentKey(Trim(agent), "automation", "dm", "main", "")
  }

  function NamedKey(agent: string, name: string): string {
    BuildAgentKey(agent, "automation", "dm", Trim(name), "")
  }

  /** ResolveSessionKey. */
  function Resolve(agent: string, job: string, target: Target, run: Option<string>): Option<string> {
    match target
    case Main => Some(MainKey(agent))
    case Bound(key) => Some(Trim(key))
    case Named(name) => Some(NamedKey(agent, name))
    case Isolated =>
      if run.None? || |Trim(run.value)| == 0 then None
      else Some(BuildAgentKey(agent, "automation", "dm", "cron:" + job + ":" + Trim(run.value), ""))
  }

  lemma AutomationChannel()
    ensures ChannelSegment("automation") == "automation"
  {
    TrimFixpoint("automation");
    assert ToLower("automation") == "automation";
  }

  lemma DirectChatType()
    ensures ChatType("dm") == "dm"
  {
    TrimFixpoint("dm");
    assert ToLower("dm") == "dm";
  }

  lemma AutomationFields(agent: string, ref: string)
    ensures Normalized(agent, "automation", "dm", ref, "") == Fields(agent, "automation", "dm", ref, "")
  {
    AutomationChannel();
    DirectChatType();
  }

  lemma {:induction false} TrimFree(s: string)
    requires Free(s, ':')
    ensures Free(Trim(s), ':')
  {
    TrimLeftFree(s);
    TrimRightFree(TrimLeft(s));
  }

  lemma {:induction false} TrimLeftFree(s: string)
    requires Free(s, ':')
    ensures Free(TrimLeft(s), ':')
    decreases |s|
  {
    if s != [] && IsSpace(s[0]) {
      TrimLeftFree(s[1..]);
    }
  }

  lemma {:induction false} TrimRightFree(s: string)
    requires Free(s, ':')
    ensures Free(TrimRight(s), ':')
    decreases |s|
  {
    if s != [] && IsSpace(s[|s| - 1]) {
      TrimRightFree(s[..|s| - 1]);
    }
  }

  lemma PartsDiffer(agent: string, other: string, ref: string)
    requires ref != "main"
    ensures PartsOf(Fields(agent, "automation", "dm", ref, ""))
        != PartsOf(Fields(other, "automation", "dm", "main", ""))
  {
    var p, q := PartsOf(Fields(agent, "automation", "dm", ref, "")),
        PartsOf(Fields(other, "automation", "dm", "main", ""));
    assert p[4..] == Split(ref, ':') && q[4..] == Split("main", ':');
    JoinSplit(ref, ':');
    JoinSplit("main", ':');
  }

  function AutomationKey(agent: string, ref: string): Fields {
    Fields(agent, "automation", "dm", ref, "")
  }

  lemma NamedKeyPrinted(agent: string, name: string)
    requires Free(agent, ':') && Trimmed(agent) && |Trim(name)| > 0
    ensures var f := AutomationKey(agent, Trim(name)); Printable(f) && NamedKey(agent, name) == Printed(f)
  {
    AutomationFields(agent, Trim(name));
  }

  lemma MainKeyPrinted(agent: string)
    requires Free(agent, ':')
    ensures var f := AutomationKey(Trim(agent), "main"); Printable(f) && MainKey(agent) == Printed(f)
  {
    AutomationFields(Trim(agent), "main");
    TrimFree(agent);
  }

  /** Only the ref `main` makes a main key. */
  lemma OnlyMainIsMain(agent: string, other: string, ref: string)
    requires Free(agent, ':') && Trimmed(agent) && Free(other, ':') && Trimmed(ref) && |ref| > 0 && ref != "main"
    ensures BuildAgentKey(agent, "automation", "dm", ref, "") != MainKey(other)
  {
    AutomationFields(agent, ref);
    MainKeyPrinted(other);
    PartsDiffer(agent, Trim(other), ref);
    SplitPrinted(AutomationKey(agent, ref));
    SplitPrinted(AutomationKey(Trim(other), "main"));
  }

  lemma IsolatedRef(job: string, run: string)
    requires |Trim(run)| > 0
    ensures var ref := "cron:" + job + ":" + Trim(run); |ref| > 0 && Trimmed(ref) && ref != "main"
  {
    var ref := "cron:" + job + ":" + Trim(run);
    assert ref[0] == 'c' && ref[|ref| - 1] == Trim(run)[|Trim(run)| - 1];
    assert "main"[0] == 'm';
  }

  lemma MainKeysApart(agent: string, other: string)
    requires Free(agent, ':') && Free(other, ':')
    ensures MainKey(agent) == MainKey(other) <==> Trim(agent) == Trim(other)
  {
    MainKeyPrinted(agent);
    MainKeyPrinted(other);
    var f, g := AutomationKey(Trim(agent), "main"), AutomationKey(Trim(other), "main");
    SplitPrinted(f);
    SplitPrinted(g);
    assert PartsOf(f)[1] == Trim(agent) && PartsOf(g)[1] == Trim(other);
  }

  /** What a job resolves to is the main key of an agent exactly if its target is the main session of
      that agent, or is bound to that very key: a validated named target and an isolated run never
      resolve to the main key of any agent. */
  lemma ResolvesToMainExactly(agent: string, job: string, target: Target, run: Option<string>, other: string)
    requires Free(agent, ':') && Trimmed(agent) && Free(other, ':')
    requires target.Named? ==> ValidName(target.name)
    ensures Resolve(agent, job, target, run) == Some(MainKey(other)) <==>
      (target.Main? && agent == Trim(other)) || (target.Bound? && Trim(target.key) == MainKey(other))
  {
    match target
    case Main =>
      MainKeysApart(agent, other);
      TrimFixpoint(agent);
    case Bound(_) =>
    case Named(name) =>
      NameIsNotMain(name);
      OnlyMainIsMain(agent, other, Trim(name));
    case Isolated =>
      if run.Some? && |Trim(run.value)| > 0 {
        IsolatedRef(job, run.value);
        OnlyMainIsMain(agent, other, "cron:" + job + ":" + Trim(run.value));
      }
  }

  /** The names whose keys read as the main session: a `topic` segment cuts them into `main` and
      nothing, up to white space. */
  predicate ReadsAsMain(name: string) {
    var refs := Split(Trim(name), ':');
    var j := TopicFrom(refs, 0);
    j < |refs| && Trim(Join(refs[..j], ':')) == "main" && |Trim(Join(refs[j + 1..], ':'))| == 0
  }

  lemma TopicCutsParts(f: Fields)
    requires Printable(f) && |f.threadId| == 0 && !NoTopic(f.ref)
    ensures var refs := Split(f.ref, ':');
      var j := TopicFrom(refs, 0);
      RefOf(PartsOf(f)) == Trim(Join(refs[..j], ':')) && ThreadOf(PartsOf(f)) == Trim(Join(refs[j + 1..], ':'))
  {
    var parts, refs := PartsOf(f), Split(f.ref, ':');
    var j := TopicFrom(refs, 0);
    TopicOfParts(f);
    assert parts == ["agent", f.agentId, f.channel, f.chatType] + refs;
    assert parts[4 + j + 1..] == refs[j + 1..];
  }

  /** A validated name gives a key that parses to the ref and thread of the main session exactly if
      it reads so. */
  lemma NamedParsesAsMain(agent: string, name: string)
    requires Free(agent, ':') && Trimmed(agent) && ValidName(name)
    ensures var fields := Parse(NamedKey(agent, name)).fields;
      fields.ref == "main" && |fields.threadId| == 0 <==> ReadsAsMain(name)
  {
    var f := AutomationKey(agent, Trim(name));
    NamedKeyPrinted(agent, name);
    ParseOfPrinted(f);
    NameIsNotMain(name);
    if NoTopic(f.ref) {
      TailParses(f);
    } else {
      TopicCutsParts(f);
    }
  }

  /** The parts of a key without a thread read as valid only with their own ref, or with a thread cut
      off at a `topic` segment. */
  lemma ValidPartsKeepRef(f: Fields)
    requires Printable(f) && |f.threadId| == 0
    ensures ValidAgentParts(PartsOf(f)) ==> RefOf(PartsOf(f)) == f.ref || |ThreadOf(PartsOf(f))| > 0
  {
    if NoTopic(f.ref) {
      TailParses(f);
    } else {
      TopicOfParts(f);
    }
  }

  /** Nor is its key parsed as the main session, if it is structured. */
  lemma StructuredNamedIsNotMain(agent: string, name: string)
    requires Free(agent, ':') && Trimmed(agent) && ValidName(name)
    ensures var k := Parse(NamedKey(agent, name)); k.isStructured ==> k.fields.ref != "main" || |k.fields.threadId| > 0
  {
    var f := AutomationKey(agent, Trim(name));
    NamedKeyPrinted(agent, name);
    ParseOfPrinted(f);
    NameIsNotMain(name);
    ValidPartsKeepRef(f);
  }

  lemma NameIsNotMain(name: string)
    requires ValidName(name)
    ensures Trim(name) != "main"
  {
    assert IsMain("main");
  }

  lemma MainTopicSplit()
    ensures Split("main:topic", ':') == ["main", "topic"]
  {
    assert "main:topic" == "main" + ":" + "topic";
    SplitCons("main", "topic");
    SplitOfFree("topic", ':');
  }

  lemma MainTopicTrims()
    ensures Trim("main:topic") == "main:topic" && Trim("main") == "main" && |Trim("")| == 0
  {
    TrimFixpoint("main:topic");
    TrimFixpoint("main");
  }

  lemma CutAtTopic(refs: seq<string>)
    requires refs == ["main", "topic"]
    ensures TopicFrom(refs, 0) == 1 && Join(refs[..1], ':') == "main" && Join(refs[2..], ':') == ""
  {
    assert refs[..1] == ["main"] && |refs[2..]| == 0;
  }

  lemma MainTopicReadsAsMain()
    ensures ReadsAsMain("main:topic")
  {
    MainTopicSplit();
    MainTopicTrims();
    CutAtTopic(["main", "topic"]);
  }

  /** The name "main:topic" is valid; its key is not structured, and it parses to the ref and the
      thread of the main session. */
  lemma NamedMainTopic(agent: string)
    requires Free(agent, ':') && Trimmed(agent)
    ensures var k := Parse(NamedKey(agent, "main:topic"));
      ValidName("main:topic") && !k.isStructured && k.fields.ref == "main" && |k.fields.threadId| == 0
  {
    TrimFixpoint("main:topic");
    MainTopicReadsAsMain();
    NamedParsesAsMain(agent, "main:topic");
    StructuredNamedIsNotMain(agent, "main:topic");
  }

  // ---------------------------------------------------------------- room keys

  function BuildRoomKey(conversation: string): string {
    "room" + ":" + ("group" + ":" + Trim(conversation))
  }

  lemma RoomKeySplit(c: string)
    ensures var parts := Split("room" + ":" + ("group" + ":" + c), ':');
      |parts| >= 3 && parts[0] == "room" && parts[1] == "group" && parts[2..] == Split(c, ':')
  {
    SplitCons("room", "group" + ":" + c);
    SplitCons("group", c);
    assert (["room"] + (["group"] + Split(c, ':')))[2..] == Split(c, ':');
  }

  lemma RoomKeyTrimmed(c: string)
    requires Trimmed(c)
    ensures var key := "room" + ":" + ("group" + ":" + c);
      Trim(key) == key && ROOM_PREFIX <= key && !(AGENT_PREFIX <= key)
  {
    var key := "room" + ":" + ("group" + ":" + c);
    assert key[0] == 'r' && key[|key| - 1] == if |c| > 0 then c[|c| - 1] else ':';
    TrimFixpoint(key);
    assert AGENT_PREFIX[0] == 'a';
  }

  /** Parsing a room key gives the conversation id back; it is structured and shared exactly when
      there is one. */
  lemma RoomKeyRoundTrip(conversation: string)
    ensures var k := Parse(BuildRoomKey(conversation));
      && k.kind == Room && k.conversationId == Trim(conversation)
      && (k.isStructured <==> |Trim(conversation)| > 0) && (k.isShared <==> k.isStructured)
      && BuildRoomKey(k.conversationId) == BuildRoomKey(conversation)
  {
    var c := Trim(conversation);
    RoomKeySplit(c);
    RoomKeyTrimmed(c);
    JoinSplit(c, ':');
    TrimFixpoint(c);
  }
}

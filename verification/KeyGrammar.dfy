/** Which texts are valid session keys, what parsing makes of them, how channel names are spelled in keys
    and in storage, and what the keys of automation jobs read as. */
module KeyGrammar {
  import opened Options
  import opened Segments
  import opened SessionKey
  import opened Text

  // ---------------------------------------------------------------- agent keys

  /** The text of an agent key, whose segments may have white space around them. */
  function KeyText(f: Fields): string {
    "agent:" + f.agentId + ":" + f.channel + ":" + f.chatType + ":" + f.ref
    + if f.threadId == "" then "" else ":topic:" + f.threadId
  }

  /** An agent, a channel and a chat type without colons, a ref without a `topic` segment, and either no
      thread or one that is not blank. */
  ghost predicate Complete(f: Fields) {
    && Free(f.agentId, ':') && Free(f.channel, ':') && Free(f.chatType, ':')
    && Trim(f.agentId) != "" && Trim(f.channel) != "" && Trim(f.chatType) != "" && Trim(f.ref) != ""
    && "topic" !in Split(f.ref, ':') && (f.threadId == "" || Trim(f.threadId) != "")
  }

  function TrimmedFields(f: Fields): Fields {
    Fields(Trim(f.agentId), Trim(f.channel), Trim(f.chatType), Trim(f.ref), Trim(f.threadId))
  }

  lemma TextIsPrinted(f: Fields)
    ensures KeyText(f) == Printed(f)
  {
    HeadConcat(f, f.ref + if f.threadId == "" then "" else ":topic:" + f.threadId);
    assert Tail(f) == f.ref + if f.threadId == "" then "" else ":topic:" + f.threadId;
    assert KeyText(f) == "agent:" + f.agentId + ":" + f.channel + ":" + f.chatType + ":" + Tail(f);
  }

  lemma HeadConcat(f: Fields, tail: string)
    ensures "agent:" + f.agentId + ":" + f.channel + ":" + f.chatType + ":" + tail
      == "agent" + ":" + (f.agentId + ":" + (f.channel + ":" + (f.chatType + ":" + tail)))
  {}

  lemma NoTopicMeaning(ref: string)
    ensures NoTopic(ref) <==> "topic" !in Split(ref, ':')
  {}

  lemma WrittenTail(f: Fields)
    requires "topic" !in Split(f.ref, ':')
    ensures RefOf(PartsOf(f)) == Trim(f.ref) && ThreadOf(PartsOf(f)) == Trim(f.threadId)
    ensures TopicFrom(PartsOf(f), 4) < |PartsOf(f)| <==> |f.threadId| > 0
  {
    var parts, refs := PartsOf(f), Split(f.ref, ':');
    NoTopicMeaning(f.ref);
    TopicOfParts(f);
    JoinSplit(f.ref, ':');
    assert refs[..|refs|] == refs;
    if |f.threadId| > 0 {
      JoinSplit(f.threadId, ':');
    } else {
      assert parts[4..] == refs;
      NarrowTrims("");
    }
  }

  /** Where a written key is cut, and what its segments are. */
  lemma WrittenParts(f: Fields)
    requires Complete(f)
    ensures ValidAgentParts(PartsOf(f)) && AgentFields(PartsOf(f)) == TrimmedFields(f)
  {
    var parts := PartsOf(f);
    assert parts[1] == f.agentId && parts[2] == f.channel && parts[3] == f.chatType && |parts| >= 5;
    WrittenTail(f);
  }

  lemma WrittenTrims(f: Fields, raw: string)
    requires Trim(raw) == KeyText(f)
    ensures AGENT_PREFIX <= Trim(raw) && Trim(Trim(raw)) == Trim(raw)
  {
    TrimFixpoint(Trim(raw));
  }

  /** A text of this form is a valid agent key, and parsing it gives its segments, trimmed. */
  lemma WrittenKeyParses(f: Fields, raw: string)
    requires Complete(f) && Trim(raw) == KeyText(f)
    ensures Validate(raw).Valid? && Parse(raw) == Key(Trim(raw), Agent, true, false, TrimmedFields(f), "")
  {
    TextIsPrinted(f);
    SplitPrinted(f);
    WrittenParts(f);
    WrittenTrims(f, raw);
  }

  ghost predicate AllFree(parts: seq<string>) {
    forall i :: 0 <= i < |parts| ==> Free(parts[i], ':')
  }

  lemma {:induction false} SegmentsAreFree(s: string)
    ensures AllFree(Split(s, ':'))
    decreases |s|
  {
    if |s| > 0 {
      SegmentsAreFree(s[1..]);
    }
  }

  /** The joined segments from `lo` to `hi`, if they are not blank, split into themselves. */
  lemma SplitNonBlank(parts: seq<string>, lo: nat, hi: nat)
    requires lo <= hi <= |parts| && |Trim(Join(parts[lo..hi], ':'))| > 0 && AllFree(parts)
    ensures lo < hi && |Join(parts[lo..hi], ':')| > 0
    ensures Split(Join(parts[lo..hi], ':'), ':') == parts[lo..hi]
  {
    var middle := parts[lo..hi];
    assert |middle| == 0 ==> Join(middle, ':') == "";
    SplitJoin(middle, ':');
  }

  lemma WholeTail(parts: seq<string>, lo: nat)
    requires lo <= |parts|
    ensures parts[lo..|parts|] == parts[lo..] && parts[lo..] + [] == parts[lo..]
  {}

  lemma RefIsThere(parts: seq<string>, topic: nat)
    requires ValidAgentParts(parts) && topic == TopicFrom(parts, 4)
    ensures 4 <= topic && |Trim(Join(parts[4..topic], ':'))| > 0
    ensures topic < |parts| ==> |Trim(Join(parts[topic + 1..|parts|], ':'))| > 0
  {
    WholeTail(parts, 4);
    if topic < |parts| {
      WholeTail(parts, topic + 1);
    }
  }

  lemma CutAgain(parts: seq<string>, topic: nat)
    requires 4 <= topic < |parts| && parts[topic] == "topic"
    ensures parts[4..] == parts[4..topic] + (["topic"] + parts[topic + 1..|parts|])
  {}

  /** The fields a list of segments was written with. */
  function WrittenFields(parts: seq<string>): Fields
    requires |parts| >= 5
  {
    var topic := TopicFrom(parts, 4);
    Fields(parts[1], parts[2], parts[3], Join(parts[4..topic], ':'),
           if topic < |parts| then Join(parts[topic + 1..|parts|], ':') else "")
  }

  /** The segments from the fifth on, cut at `topic` and put together again. */
  lemma TailsAgain(parts: seq<string>, f: Fields)
    requires ValidAgentParts(parts) && f == WrittenFields(parts) && AllFree(parts)
    ensures TailParts(f) == parts[4..] && Split(f.ref, ':') == parts[4..TopicFrom(parts, 4)]
  {
    var topic := TopicFrom(parts, 4);
    RefIsThere(parts, topic);
    SplitNonBlank(parts, 4, topic);
    if topic < |parts| {
      SplitNonBlank(parts, topic + 1, |parts|);
      CutAgain(parts, topic);
    } else {
      WholeTail(parts, 4);
    }
  }

  lemma HeadAgain(parts: seq<string>)
    requires |parts| >= 4
    ensures parts == [parts[0], parts[1], parts[2], parts[3]] + parts[4..]
  {}

  lemma NoTopicBefore(parts: seq<string>, lo: nat, hi: nat)
    requires lo <= hi <= |parts| && forall j :: lo <= j < hi ==> parts[j] != "topic"
    ensures "topic" !in parts[lo..hi]
  {}

  lemma WrittenIsComplete(parts: seq<string>, f: Fields)
    requires ValidAgentParts(parts) && f == WrittenFields(parts) && AllFree(parts)
    requires Split(f.ref, ':') == parts[4..TopicFrom(parts, 4)]
    ensures Complete(f)
  {
    var topic := TopicFrom(parts, 4);
    RefIsThere(parts, topic);
    NoTopicBefore(parts, 4, topic);
  }

  lemma PartsAgain(parts: seq<string>, f: Fields)
    requires ValidAgentParts(parts) && parts[0] == "agent" && f == WrittenFields(parts) && AllFree(parts)
    ensures PartsOf(f) == parts && Complete(f)
  {
    TailsAgain(parts, f);
    HeadAgain(parts);
    WrittenIsComplete(parts, f);
  }

  lemma FirstSegment(s: string)
    requires AGENT_PREFIX <= s
    ensures Split(s, ':')[0] == "agent"
  {
    assert s == "agent" + ":" + s[6..];
    SplitCons("agent", s[6..]);
  }

  /** Every valid agent key is of this form. */
  lemma ValidKeyIsWritten(raw: string) returns (f: Fields)
    requires AGENT_PREFIX <= Trim(raw) && Validate(raw).Valid?
    ensures Complete(f) && Trim(raw) == KeyText(f)
  {
    var parts := Split(Trim(raw), ':');
    f := WrittenFields(parts);
    SegmentsAreFree(Trim(raw));
    FirstSegment(Trim(raw));
    PartsAgain(parts, f);
    JoinSplit(Trim(raw), ':');
    SplitPrinted(f);
    JoinSplit(Printed(f), ':');
    TextIsPrinted(f);
  }

  // ---------------------------------------------------------------- all keys

  ghost predicate IsAgentText(text: string) {
    exists f: Fields :: Complete(f) && text == KeyText(f)
  }

  ghost predicate IsRoomText(text: string) {
    exists conversation: string :: Trim(conversation) != "" && text == "room:group:" + conversation
  }

  /** A key is valid exactly if, white space around it aside, it is the text of an agent key or of the
      key of a room; otherwise the error says what it looks like. */
  lemma ValidKeysAre(raw: string)
    ensures Validate(raw) ==
      if Trim(raw) == "" then Required
      else if IsAgentText(Trim(raw)) || IsRoomText(Trim(raw)) then Valid
      else if "agent:" <= Trim(raw) then NotAnAgentKey
      else if "room:" <= Trim(raw) then NotARoomKey
      else NotStructured
  {
    var text := Trim(raw);
    if f: Fields :| Complete(f) && text == KeyText(f) {
      WrittenKeyParses(f, raw);
    }
    if conversation: string :| Trim(conversation) != "" && text == "room:group:" + conversation {
      RoomTextParses(conversation, raw);
    }
    if "agent:" <= text && Validate(raw).Valid? {
      var f := ValidKeyIsWritten(raw);
    }
    if "room:" <= text && Validate(raw).Valid? {
      var conversation := ValidRoomIsWritten(raw);
    }
  }

  /** What parsing gives for any text: its kind goes by its prefix, only valid keys are structured and only
      those of rooms shared; an agent key without a chat type is direct. */
  lemma ParsedKinds(raw: string)
    ensures var k, text := Parse(raw), Trim(raw);
      && k.raw == text && (k.isStructured <==> Validate(raw).Valid?)
      && k.kind == (if "agent:" <= text then Agent else if "room:" <= text then Room else Unknown)
      && (k.isShared <==> k.kind == Room && k.isStructured)
      && (k.kind == Unknown ==> k.fields == Fields("", "", "", "", ""))
      && (k.kind != Room ==> k.conversationId == "")
      && (k.kind == Agent ==>
            var parts := Split(text, ':');
            k.fields.chatType == if |parts| < 4 || Trim(parts[3]) == "" then "dm" else Trim(parts[3]))
  {
    TrimFixpoint(Trim(raw));
  }

  lemma RoomParts(conversation: string)
    ensures var text, parts := "room:group:" + conversation, Split("room:group:" + conversation, ':');
      && |parts| >= 3 && parts[1] == "group" && Join(parts[2..], ':') == conversation
      && ROOM_PREFIX <= text && !(AGENT_PREFIX <= text)
  {
    var text := "room:group:" + conversation;
    assert text == "room" + ":" + ("group" + ":" + conversation);
    RoomKeySplit(conversation);
    JoinSplit(conversation, ':');
    assert text[0] == 'r' && AGENT_PREFIX[0] == 'a';
  }

  /** Parsing the key of a room gives its conversation as ref and conversation id; without one it is not
      structured, and not shared. */
  lemma RoomTextParses(conversation: string, raw: string)
    requires Trim(raw) == "room:group:" + conversation
    ensures var k, valid := Parse(raw), Trim(conversation) != "";
      && (Validate(raw).Valid? <==> valid)
      && k == Key(Trim(raw), Room, valid, valid, Fields("", "", "group", Trim(conversation), ""), Trim(conversation))
  {
    RoomParts(conversation);
    TrimFixpoint(Trim(raw));
    TrimFixpoint("group");
  }

  lemma ValidRoomIsWritten(raw: string) returns (conversation: string)
    requires ROOM_PREFIX <= Trim(raw) && Validate(raw).Valid?
    ensures Trim(conversation) != "" && Trim(raw) == "room:group:" + conversation
  {
    var text := Trim(raw);
    var parts := Split(text, ':');
    assert ROOM_PREFIX[0] == 'r' && AGENT_PREFIX[0] == 'a';
    assert text == "room" + ":" + text[5..];
    SplitCons("room", text[5..]);
    var rest := Split(text[5..], ':');
    assert parts == ["room"] + rest && rest[0] == "group" && rest[1..] == parts[2..];
    JoinSplit(text[5..], ':');
    conversation := Join(rest[1..], ':');
    assert text[5..] == "group" + ":" + conversation;
  }

  // ---------------------------------------------------------------- parsing what was printed from a parse

  /** Printing the fields of a structured agent key and parsing that again gives the fields back exactly
      if the ref has no `topic` segment once it is trimmed. */
  lemma ReprintedKey(raw: string)
    requires AGENT_PREFIX <= Trim(raw) && Validate(raw).Valid?
    ensures var f := Parse(raw).fields;
      Parse(KeyText(f)).fields == f <==> "topic" !in Split(f.ref, ':')
  {
    var w := ValidKeyIsWritten(raw);
    WrittenKeyParses(w, raw);
    var f := TrimmedFields(w);
    TrimFree(w.agentId);
    TrimFree(w.channel);
    TrimFree(w.chatType);
    TextIsPrinted(f);
    PrintedParses(f);
    ParseOfPrinted(f);
    NoTopicMeaning(f.ref);
  }

  lemma TopicSplit()
    ensures Split(" topic:x", ':') == [" topic", "x"] && Split("topic:x", ':') == ["topic", "x"]
  {
    assert " topic:x" == " topic" + ":" + "x" && "topic:x" == "topic" + ":" + "x";
    SplitCons(" topic", "x");
    SplitCons("topic", "x");
    SplitOfFree("x", ':');
  }

  lemma TopicTrims()
    ensures Trim(" topic:x") == "topic:x"
  {
    TrimFixpoint("topic:x");
    assert " topic:x"[1..] == "topic:x";
  }

  lemma NarrowTrims(s: string)
    requires Trimmed(s)
    ensures Trim(s) == s
  {
    TrimFixpoint(s);
  }

  lemma TopicFirst(parts: seq<string>)
    requires |parts| >= 5 && parts[4] == "topic"
    ensures !ValidAgentParts(parts)
  {
    assert TopicFrom(parts, 4) == 4 && parts[4..4] == [];
  }

  predicate Segmented(agent: string, channel: string, chatType: string) {
    && Free(agent, ':') && Free(channel, ':') && Free(chatType, ':')
    && Trimmed(agent) && Trimmed(channel) && Trimmed(chatType)
    && agent != "" && channel != "" && chatType != ""
  }

  lemma TextTrims(f: Fields)
    requires Trimmed(f.ref) || (|f.ref| > 0 && !IsSpace(f.ref[|f.ref| - 1]))
    requires |f.ref| > 0 && f.threadId == ""
    ensures Trim(KeyText(f)) == KeyText(f)
  {
    var key := KeyText(f);
    assert key[0] == 'a' && key[|key| - 1] == f.ref[|f.ref| - 1];
    NarrowTrims(key);
  }

  lemma PaddedIsValid(agent: string, channel: string, chatType: string)
    requires Segmented(agent, channel, chatType)
    ensures var raw := KeyText(Fields(agent, channel, chatType, " topic:x", ""));
      Validate(raw).Valid? && Parse(raw).fields == Fields(agent, channel, chatType, "topic:x", "")
  {
    var w := Fields(agent, channel, chatType, " topic:x", "");
    TopicSplit();
    TopicTrims();
    NarrowTrims(agent);
    NarrowTrims(channel);
    NarrowTrims(chatType);
    NarrowTrims("");
    TextTrims(w);
    WrittenKeyParses(w, KeyText(w));
  }

  lemma UnpaddedIsNot(agent: string, channel: string, chatType: string)
    requires Segmented(agent, channel, chatType)
    ensures Validate(KeyText(Fields(agent, channel, chatType, "topic:x", ""))) == NotAnAgentKey
  {
    var f := Fields(agent, channel, chatType, "topic:x", "");
    TopicSplit();
    SplitPrinted(f);
    TextIsPrinted(f);
    assert PartsOf(f)[4] == "topic";
    TopicFirst(PartsOf(f));
    TextTrims(f);
    WrittenPrefix(f);
  }

  lemma WrittenPrefix(f: Fields)
    ensures AGENT_PREFIX <= KeyText(f)
  {}

  /** White space in front of the ref can hide a `topic` segment: with any agent, channel and chat type,
      the key with ref " topic:x" is valid, and the one printed from what it parses to is not. */
  lemma PaddedTopic(agent: string, channel: string, chatType: string)
    requires Segmented(agent, channel, chatType)
    ensures var raw := KeyText(Fields(agent, channel, chatType, " topic:x", ""));
      Validate(raw).Valid? && Validate(KeyText(Parse(raw).fields)) == NotAnAgentKey
  {
    PaddedIsValid(agent, channel, chatType);
    UnpaddedIsNot(agent, channel, chatType);
  }

  // ---------------------------------------------------------------- channels and chat types

  /** The character `c` is the letter `d`, small or capital. */
  predicate SameLetter(c: char, d: char) {
    || c == d || ('a' <= d <= 'z' && c == d - 'a' + 'A')
    || (d == 'i' && c == '\U{0130}') || (d == 'k' && c == '\U{212A}')
  }

  predicate Spells(written: string, name: string) {
    |written| == |name| && forall i :: 0 <= i < |name| ==> SameLetter(written[i], name[i])
  }

  predicate IsLower(name: string) {
    forall i :: 0 <= i < |name| ==> 'a' <= name[i] <= 'z'
  }

  lemma LowerSpells(written: string, name: string)
    requires IsLower(name)
    ensures ToLower(written) == name <==> Spells(written, name)
  {
    if Spells(written, name) {
      assert forall i :: 0 <= i < |name| ==> Lower(written[i]) == name[i];
    }
    if ToLower(written) == name {
      assert forall i :: 0 <= i < |name| ==> ToLower(written)[i] == Lower(written[i]);
    }
  }

  /** The channels: the segment of a key, and the name in storage. */
  const CHANNELS: seq<(string, string)> := [
    ("ws", "websocket"), ("dg", "discord"), ("tg", "telegram"), ("dt", "dingtalk"), ("wx", "wechat"),
    ("fs", "feishu"), ("internal", "internal")]

  predicate IsChannel(written: string, i: nat)
    requires i < |CHANNELS|
  {
    Spells(written, CHANNELS[i].0) || Spells(written, CHANNELS[i].1)
  }

  lemma LowerIsChannel(written: string, i: nat)
    requires i < |CHANNELS|
    ensures IsChannel(written, i) <==> ToLower(written) == CHANNELS[i].0 || ToLower(written) == CHANNELS[i].1
  {
    LowerSpells(written, CHANNELS[i].0);
    LowerSpells(written, CHANNELS[i].1);
  }

  lemma KnownAre(lower: string)
    ensures forall i :: 0 <= i < |CHANNELS| && (lower == CHANNELS[i].0 || lower == CHANNELS[i].1) ==>
      KnownChannel(lower) == Some(CHANNELS[i].0) && KnownStored(lower) == Some(CHANNELS[i].1)
    ensures (forall i :: 0 <= i < |CHANNELS| ==> lower != CHANNELS[i].0 && lower != CHANNELS[i].1) ==>
      KnownChannel(lower) == None && KnownStored(lower) == None
  {
    assert CHANNELS[0] == ("ws", "websocket") && CHANNELS[1] == ("dg", "discord") && CHANNELS[2] == ("tg", "telegram");
    assert CHANNELS[3] == ("dt", "dingtalk") && CHANNELS[4] == ("wx", "wechat") && CHANNELS[5] == ("fs", "feishu");
    assert CHANNELS[6] == ("internal", "internal");
  }

  /** A channel written as either of its names, in any case, is normalized to the one or the other; any
      other name is only trimmed. */
  lemma ChannelNames(channel: string)
    ensures forall i :: 0 <= i < |CHANNELS| && IsChannel(Trim(channel), i) ==>
      ChannelSegment(channel) == CHANNELS[i].0 && StoredChannel(channel) == CHANNELS[i].1
    ensures (forall i :: 0 <= i < |CHANNELS| ==> !IsChannel(Trim(channel), i)) ==>
      ChannelSegment(channel) == Trim(channel) && StoredChannel(channel) == Trim(channel)
  {
    forall i | 0 <= i < |CHANNELS|
      ensures IsChannel(Trim(channel), i)
        <==> ToLower(Trim(channel)) == CHANNELS[i].0 || ToLower(Trim(channel)) == CHANNELS[i].1
    {
      LowerIsChannel(Trim(channel), i);
    }
    KnownAre(ToLower(Trim(channel)));
  }

  lemma SegmentsAreKnown(lower: string)
    ensures var segment, stored := KnownChannel(lower), KnownStored(lower);
      && (segment.Some? <==> stored.Some?)
      && (segment.Some? ==> KnownStored(segment.value) == stored && IsLower(segment.value))
  {}

  lemma StoredAreKnown(lower: string)
    ensures KnownStored(lower).Some? ==> KnownChannel(KnownStored(lower).value) == KnownChannel(lower)
  {}

  lemma StoredAreLower(lower: string)
    ensures KnownStored(lower).Some? ==> IsLower(KnownStored(lower).value)
  {}

  lemma LowerStays(name: string)
    requires IsLower(name)
    ensures ToLower(Trim(name)) == name
  {
    assert Trimmed(name);
    NarrowTrims(name);
    assert forall i :: 0 <= i < |name| ==> Lower(name[i]) == name[i];
  }

  /** Segment and stored name of a channel determine each other. */
  lemma StoredAndSegment(channel: string)
    ensures ChannelSegment(StoredChannel(channel)) == ChannelSegment(channel)
    ensures StoredChannel(ChannelSegment(channel)) == StoredChannel(channel)
  {
    var lower := ToLower(Trim(channel));
    SegmentsAreKnown(lower);
    StoredAreKnown(lower);
    StoredAreLower(lower);
    NarrowTrims(Trim(channel));
    if KnownChannel(lower).Some? {
      LowerStays(KnownChannel(lower).value);
      LowerStays(KnownStored(lower).value);
    }
  }

  /** A chat type is `dm` unless one is given, `dm` or `group` in any case, or as it is written. */
  lemma ChatTypes(chatType: string)
    ensures var written := Trim(chatType);
      ChatType(chatType) ==
        if written == "" || Spells(written, "dm") then "dm" else if Spells(written, "group") then "group" else written
  {
    var written := Trim(chatType);
    LowerSpells(written, "");
    LowerSpells(written, "dm");
    LowerSpells(written, "group");
  }

  // ---------------------------------------------------------------- the keys of automation jobs

  /** The names a target may have: any that is not blank, but for `main` in small or capital letters. */
  lemma NamesAllowed(name: string)
    ensures var written := Trim(name);
      ValidName(name) <==>
        written != "" && !(|written| == 4 && forall i :: 0 <= i < 4 ==> written[i] in ["main"[i], "MAIN"[i]])
  {
    var written := Trim(name);
    if |written| == 4 {
      assert IsMain(written) <==> forall i :: 0 <= i < 4 ==> written[i] in ["main"[i], "MAIN"[i]];
    }
  }

  lemma AutomationText(agent: string, ref: string)
    requires Trimmed(ref) && ref != ""
    ensures var f := Fields(agent, "automation", "dm", ref, "");
      && BuildAgentKey(agent, "automation", "dm", ref, "") == KeyText(f) && Trim(KeyText(f)) == KeyText(f)
  {
    var f := Fields(agent, "automation", "dm", ref, "");
    AutomationFields(agent, ref);
    TextIsPrinted(f);
    TextTrims(f);
  }

  ghost predicate IsAutomation(f: Fields) {
    && Free(f.agentId, ':') && Trim(f.agentId) != "" && f.channel == "automation" && f.chatType == "dm"
    && Trimmed(f.ref) && f.ref != "" && f.threadId == ""
  }

  lemma AutomationLoses(f: Fields)
    requires IsAutomation(f) && "topic" in Split(f.ref, ':')
    ensures Parse(KeyText(f)).kind == Agent && Parse(KeyText(f)).fields.ref != f.ref
  {
    NoTopicMeaning(f.ref);
    TextTrims(f);
    TextIsPrinted(f);
    SplitPrinted(f);
    TopicCutsRef(f);
    WrittenPrefix(f);
  }

  lemma AutomationIsComplete(f: Fields)
    requires IsAutomation(f) && "topic" !in Split(f.ref, ':')
    ensures Complete(f) && TrimmedFields(f) == f.(agentId := Trim(f.agentId))
  {
    NarrowTrims("automation");
    NarrowTrims("dm");
    NarrowTrims(f.ref);
    NarrowTrims("");
  }

  lemma AutomationKeeps(f: Fields)
    requires IsAutomation(f) && "topic" !in Split(f.ref, ':')
    ensures Parse(KeyText(f)) == Key(KeyText(f), Agent, true, false, f.(agentId := Trim(f.agentId)), "")
  {
    AutomationIsComplete(f);
    TextTrims(f);
    WrittenKeyParses(f, KeyText(f));
  }

  /** An automation key reads back as it was built exactly if its ref has no `topic` segment, and is then
      structured. */
  lemma AutomationReads(agent: string, ref: string)
    requires Free(agent, ':') && Trim(agent) != "" && Trimmed(ref) && ref != ""
    ensures var k := Parse(BuildAgentKey(agent, "automation", "dm", ref, ""));
      && k.kind == Agent
      && (k.fields == Fields(Trim(agent), "automation", "dm", ref, "") <==> "topic" !in Split(ref, ':'))
      && ("topic" !in Split(ref, ':') ==> k.isStructured)
  {
    AutomationText(agent, ref);
    if "topic" in Split(ref, ':') {
      AutomationLoses(Fields(agent, "automation", "dm", ref, ""));
    } else {
      AutomationKeeps(Fields(agent, "automation", "dm", ref, ""));
    }
  }

  /** The key of the automation session `ref` of the agent: it is structured and reads back as that
      session, but for a ref with a `topic` segment, which it loses. */
  ghost predicate IsSession(key: string, agent: string, ref: string) {
    var k, fields := Parse(key), Fields(Trim(agent), "automation", "dm", ref, "");
    if "topic" in Split(ref, ':') then k.fields != fields else k.isStructured && k.fields == fields
  }

  lemma SessionReads(agent: string, ref: string)
    requires Free(agent, ':') && Trim(agent) != "" && Trimmed(ref) && ref != ""
    ensures IsSession(BuildAgentKey(agent, "automation", "dm", ref, ""), agent, ref)
  {
    AutomationReads(agent, ref);
  }

  lemma MainReads(agent: string)
    requires Free(agent, ':') && Trim(agent) != ""
    ensures Parse(MainKey(agent)).isStructured
    ensures Parse(MainKey(agent)).fields == Fields(Trim(agent), "automation", "dm", "main", "")
  {
    TrimFree(agent);
    NarrowTrims(Trim(agent));
    SplitOfFree("main", ':');
    AutomationReads(Trim(agent), "main");
  }

  lemma RunResolves(agent: string, job: string, run: string, ref: string)
    requires Trim(run) != "" && ref == "cron:" + job + ":" + Trim(run)
    ensures Resolve(agent, job, Isolated, Some(run)) == Some(BuildAgentKey(agent, "automation", "dm", ref, ""))
  {}

  lemma RunReads(agent: string, job: string, run: string, ref: string)
    requires Free(agent, ':') && Trim(agent) != "" && Trim(run) != "" && ref == "cron:" + job + ":" + Trim(run)
    ensures var key := Resolve(agent, job, Isolated, Some(run)); key.Some? && IsSession(key.value, agent, ref)
  {
    IsolatedRef(job, run);
    RunResolves(agent, job, run, ref);
    SessionReads(agent, ref);
  }

  /** What a job resolves to: the agent's automation session `main`, the bound key, the named session, or
      a session of its own for the run, which must be there. */
  lemma ResolvedReads(agent: string, job: string, target: Target, run: Option<string>)
    requires Free(agent, ':') && Trim(agent) != "" && (target.Named? ==> Trim(target.name) != "")
    ensures var key := Resolve(agent, job, target, run);
      && (key.None? <==> target.Isolated? && (run.None? || Trim(run.value) == ""))
      && match target
         case Main =>
           && Parse(key.value).isStructured
           && Parse(key.value).fields == Fields(Trim(agent), "automation", "dm", "main", "")
         case Bound(bound) => key.value == Trim(bound)
         case Named(name) => IsSession(key.value, agent, Trim(name))
         case Isolated => key.Some? ==> IsSession(key.value, agent, "cron:" + job + ":" + Trim(run.value))
  {
    match target
    case Main => MainReads(agent);
    case Bound(_) =>
    case Named(name) => SessionReads(agent, Trim(name));
    case Isolated =>
      if run.Some? && Trim(run.value) != "" {
        RunReads(agent, job, run.value, "cron:" + job + ":" + Trim(run.value));
      }
  }
}

/** The bounded window on a room's public history: which messages a member gets in its next batch,
    how they are rendered under the byte budget, and how the member's cursor moves. */
module VisibleContext {
  import opened Options
  import opened Utf8
  import opened LineWindow

  const TRUNCATED: Bytes := Ascii("\n...(truncated)")

  /** A message as stored, with its strings trimmed. `text` is the text of its content, and
      `summary` the result text of its result summary, if it has one. */
  datatype Message = Message(
    id: string, timestamp: int, role: string, agentId: Bytes, complete: Option<bool>,
    text: Bytes, summary: Option<Bytes>)

  type Names = map<Bytes, Bytes>

  // ---------------------------------------------------------------- one line

  function Content(m: Message): Bytes {
    if m.role == "user" then Trim(m.text)
    else if m.role != "assistant" || m.complete == Some(false) then []
    else if m.summary.Some? then if Trim(m.text) != [] then Trim(m.text) else Trim(m.summary.value)
    else if m.complete == Some(true) then Trim(m.text)
    else []
  }

  function FirstNonEmpty(a: Bytes, b: Bytes, c: Bytes): Bytes {
    if Trim(a) != [] then Trim(a) else if Trim(b) != [] then Trim(b) else Trim(c)
  }

  function Prefix(m: Message, names: Names): (p: Bytes)
    ensures p != [] && !IsSpace(p[0])
  {
    if m.role == "user" then Ascii("User: ")
    else
      Ascii("Assistant(") + FirstNonEmpty(Lookup(names, m.agentId, []), m.agentId, Ascii("Assistant")) + Ascii("): ")
  }

  /** formatHistoryLine. */
  function Line(m: Message, names: Names): Bytes {
    if Content(m) == [] then [] else Prefix(m, names) + Content(m)
  }

  /** Whether a message has a line does not depend on the names, and a line has no space at its
      ends. */
  lemma LineShape(m: Message, names: Names)
    ensures Line(m, names) == [] <==> Content(m) == []
    ensures Trimmed(Line(m, names))
  {
    if Content(m) != [] {
      var line := Line(m, names);
      assert line[|line| - 1] == Content(m)[|Content(m)| - 1];
      assert line[0] == Prefix(m, names)[0];
    }
  }

  function LineIn(names: Names): Message -> Bytes {
    (m: Message) => Line(m, names)
  }

  // ---------------------------------------------------------------- the batch

  datatype Cursor = Cursor(id: string, timestamp: int)
  datatype Batch = Batch(messages: seq<Message>, lastId: string, lastTimestamp: int)

  function IndexOf(history: seq<Message>, id: string): (i: nat)
    ensures i <= |history| && (i < |history| ==> history[i].id == id)
    ensures forall j :: 0 <= j < i ==> history[j].id != id
  {
    if history == [] || history[0].id == id then 0 else 1 + IndexOf(history[1..], id)
  }

  function FirstAfter(history: seq<Message>, timestamp: int): (i: nat)
    ensures i <= |history| && (i < |history| ==> history[i].timestamp > timestamp)
    ensures forall j :: 0 <= j < i ==> history[j].timestamp <= timestamp
  {
    if history == [] || history[0].timestamp > timestamp then 0 else 1 + FirstAfter(history[1..], timestamp)
  }

  /** The messages after the one the cursor names; without such a message, those later than its
      time; without a time, all. */
  function AfterCursor(history: seq<Message>, cursor: Cursor): seq<Message> {
    var i := IndexOf(history, cursor.id);
    if cursor.id != "" && i < |history| then history[i + 1..]
    else if cursor.timestamp > 0 then history[FirstAfter(history, cursor.timestamp)..]
    else history
  }

  predicate IsVisible(m: Message, target: Bytes) {
    if m.role == "user" then Trim(m.text) != []
    else m.role == "assistant" && m.agentId != target && Line(m, map[]) != []
  }

  function VisibleTo(target: Bytes): Message -> bool {
    (m: Message) => IsVisible(m, target)
  }

  function OtherThan(trigger: string): Message -> bool {
    (m: Message) => m.id != trigger
  }

  /** The candidates of a batch within its limits, with the text of a message given by `line`. */
  function Candidates(history: seq<Message>, cursor: Cursor, line: Message -> Bytes): seq<Message> {
    Window(AfterCursor(history, cursor), line)
  }

  function PublicInputBatch(history: seq<Message>, cursor: Cursor, line: Message -> Bytes,
        visible: Message -> bool): Batch {
    var kept := Candidates(history, cursor, line);
    var messages := Filtered(kept, visible);
    if |kept| == 0 then Batch(messages, "", 0)
    else Batch(messages, kept[|kept| - 1].id, kept[|kept| - 1].timestamp)
  }

  /** publicMessagesAfterCursor. */
  method MessagesAfterCursor(history: seq<Message>, cursor: Cursor) returns (after: seq<Message>)
    ensures after == AfterCursor(history, cursor)
  {
    if cursor.id != "" {
      var i := 0;
      while i < |history|
        invariant i <= |history| && forall j :: 0 <= j < i ==> history[j].id != cursor.id
      {
        if history[i].id == cursor.id {
          return history[i + 1..];
        }
        i := i + 1;
      }
    }
    if cursor.timestamp > 0 {
      var i := 0;
      while i < |history|
        invariant i <= |history| && forall j :: 0 <= j < i ==> history[j].timestamp <= cursor.timestamp
      {
        if history[i].timestamp > cursor.timestamp {
          return history[i..];
        }
        i := i + 1;
      }
      return [];
    }
    after := history;
  }

  method BuildPublicInputBatch(history: seq<Message>, cursor: Cursor, line: Message -> Bytes, visible: Message -> bool)
    returns (batch: Batch)
    ensures batch == PublicInputBatch(history, cursor, line, visible)
  {
    var after := MessagesAfterCursor(history, cursor);
    var candidates := LimitItems(after, line);
    var messages := FilterItems(candidates, visible);
    if |candidates| == 0 {
      return Batch(messages, "", 0);
    }
    var boundary := candidates[|candidates| - 1];
    batch := Batch(messages, boundary.id, boundary.timestamp);
  }

  // ---------------------------------------------------------------- rendering

  function WithoutTrigger(ms: seq<Message>, trigger: string): seq<Message> {
    if trigger == "" then ms else Filtered(ms, OtherThan(trigger))
  }

  /** The trigger, if there is one, is left out, and nothing else. */
  lemma TriggerIsLeftOut(ms: seq<Message>, trigger: string, m: Message)
    ensures m in WithoutTrigger(ms, trigger) <==> m in ms && (trigger == "" || m.id != trigger)
  {
    FilteredMembers(ms, OtherThan(trigger));
  }

  /** A line cut to the budget. */
  function CutToBudget(): Bytes -> Bytes {
    (line: Bytes) => Truncated(line, MAX_BYTES, TRUNCATED)
  }

  /** The public feed of a member: the lines of the messages it is given, without the trigger. */
  function Feed(messages: seq<Message>, trigger: string, names: Names): seq<Bytes> {
    HistoryLines(WithoutTrigger(messages, trigger), LineIn(names), CutToBudget())
  }

  /** The feed never weighs more than the budget. */
  lemma FeedWithinBudget(messages: seq<Message>, trigger: string, names: Names)
    ensures |Joined(Feed(messages, trigger, names))| <= 12000
  {
    forall l ensures |CutToBudget()(l)| <= MAX_BYTES {
      TruncatedFits(l, MAX_BYTES, TRUNCATED);
    }
    HistoryWithinBudget(WithoutTrigger(messages, trigger), LineIn(names), CutToBudget());
  }

  ghost predicate MessageValid(m: Message) {
    Valid(m.agentId) && Valid(m.text) && (m.summary.Some? ==> Valid(m.summary.value))
  }

  lemma ContentValid(m: Message)
    requires MessageValid(m)
    ensures Valid(Content(m))
  {
    TrimValid(m.text);
    if m.summary.Some? {
      TrimValid(m.summary.value);
    }
  }

  lemma PrefixValid(m: Message, names: Names)
    requires MessageValid(m) && forall id :: id in names ==> Valid(names[id])
    ensures Valid(Prefix(m, names))
  {
    var name, unnamed := Lookup(names, m.agentId, []), Ascii("Assistant");
    AsciiValid(Ascii("User: "));
    AsciiValid(Ascii("Assistant("));
    AsciiValid(Ascii("): "));
    AsciiValid(unnamed);
    TrimValid(name);
    TrimValid(m.agentId);
    TrimValid(unnamed);
    var shown := FirstNonEmpty(name, m.agentId, unnamed);
    ValidConcat(Ascii("Assistant("), shown);
    ValidConcat(Ascii("Assistant(") + shown, Ascii("): "));
  }

  lemma LineValid(m: Message, names: Names)
    requires MessageValid(m) && forall id :: id in names ==> Valid(names[id])
    ensures Valid(Line(m, names))
  {
    ContentValid(m);
    PrefixValid(m, names);
    ValidConcat(Prefix(m, names), Content(m));
  }

  lemma ShownAreGiven(messages: seq<Message>, trigger: string, m: Message)
    requires m in WithoutTrigger(messages, trigger)
    ensures m in messages
  {
    FilteredMembers(messages, OtherThan(trigger));
  }

  /** The feed of messages and names in valid UTF-8 is valid UTF-8: where a line is cut, it is cut
      between two runes. */
  lemma FeedIsValid(messages: seq<Message>, trigger: string, names: Names)
    requires forall i :: 0 <= i < |messages| ==> MessageValid(messages[i])
    requires forall id :: id in names ==> Valid(names[id])
    ensures Valid(Joined(Feed(messages, trigger, names)))
  {
    var history := WithoutTrigger(messages, trigger);
    forall i | 0 <= i < |history| ensures Valid(LineIn(names)(history[i])) {
      ShownAreGiven(messages, trigger, history[i]);
      LineValid(history[i], names);
    }
    forall l | Valid(l) ensures Valid(CutToBudget()(l)) {
      AsciiValid(TRUNCATED);
      TruncatedValid(l, MAX_BYTES, TRUNCATED);
    }
    HistoryLinesValid(history, LineIn(names), CutToBudget());
  }

  /** A line cut short keeps at least its first letter. */
  lemma CutLineStays(m: Message, names: Names)
    requires Line(m, names) != []
    ensures Truncated(Line(m, names), MAX_BYTES, TRUNCATED) != []
  {
    var line := Line(m, names);
    LineShape(m, names);
    assert line[0] == Prefix(m, names)[0];
    CutNotEmpty(line, MAX_BYTES, TRUNCATED);
  }

  lemma RecentLineStays(history: seq<Message>, names: Names)
    ensures var lines := RecentLines(history, LineIn(names)); |lines| > 0 ==> |CutToBudget()(lines[|lines| - 1])| > 0
  {
    var ms := LastN(history, MAX_ITEMS);
    var all, lines := LinesOf(ms, LineIn(names)), RecentLines(history, LineIn(names));
    NonEmptyIsFull(all);
    if |lines| > 0 {
      var l := lines[|lines| - 1];
      assert l in all;
      var i :| 0 <= i < |all| && all[i] == l;
      assert l == Line(ms[i], names);
      CutLineStays(ms[i], names);
    }
  }

  /** The feed is the longest suffix of the last lines that fits; when not even the newest line
      fits, it is that line cut short. */
  lemma FeedIsLongestSuffix(messages: seq<Message>, trigger: string, names: Names, start: nat)
    requires var lines := NonEmpty(LinesOf(LastN(WithoutTrigger(messages, trigger), 80), LineIn(names)));
      && start <= |lines| && |Joined(lines[start..])| <= 12000
      && (start > 0 ==> |Joined(lines[start - 1..])| > 12000)
    ensures var lines := NonEmpty(LinesOf(LastN(WithoutTrigger(messages, trigger), 80), LineIn(names)));
      Feed(messages, trigger, names) ==
        if start == |lines| > 0 then [Truncated(lines[|lines| - 1], 12000, Ascii("\n...(truncated)"))]
        else lines[start..]
  {
    var history := WithoutTrigger(messages, trigger);
    NonEmptyIsFull(LinesOf(LastN(history, MAX_ITEMS), LineIn(names)));
    RecentLineStays(history, names);
    NewestIsLongest(RecentLines(history, LineIn(names)), CutToBudget(), start);
  }

  // ---------------------------------------------------------------- selection and rendering

  /** Only messages with a line are visible, and having one does not depend on the names. */
  lemma VisibleHasLine(m: Message, target: Bytes, names: Names)
    requires IsVisible(m, target)
    ensures Line(m, names) != []
  {
    LineShape(m, names);
    LineShape(m, map[]);
  }

  lemma ShownOfKept(kept: seq<Message>, visible: Message -> bool, trigger: string, line: Message -> Bytes)
    requires forall m :: visible(m) ==> line(m) != []
    ensures var shown := WithoutTrigger(Filtered(kept, visible), trigger);
      && |shown| <= |kept| && Weight(LinesOf(shown, line)) <= Weight(LinesOf(kept, line))
      && AllFull(LinesOf(shown, line))
  {
    var seen := Filtered(kept, visible);
    FilteredMembers(kept, visible);
    FilteredMembers(seen, OtherThan(trigger));
    FilteredIsLighter(kept, visible, line);
    FilteredIsLighter(seen, OtherThan(trigger), line);
    var shown := WithoutTrigger(seen, trigger);
    forall i | 0 <= i < |shown| ensures line(shown[i]) != [] {
      assert shown[i] in seen;
    }
  }

  /** The cursor cuts the history behind the first message with its id; where there is none, before the
      first message later than its time; and without a time it does not cut. */
  lemma CursorCuts(history: seq<Message>, cursor: Cursor) returns (from: nat)
    ensures from <= |history| && AfterCursor(history, cursor) == history[from..]
    ensures var named := cursor.id != "" && exists i :: 0 <= i < |history| && history[i].id == cursor.id;
      if named then
        from > 0 && history[from - 1].id == cursor.id && forall j :: 0 <= j < from - 1 ==> history[j].id != cursor.id
      else if cursor.timestamp > 0 then
        && (forall j :: 0 <= j < from ==> history[j].timestamp <= cursor.timestamp)
        && (from < |history| ==> history[from].timestamp > cursor.timestamp)
      else from == 0
  {
    var i := IndexOf(history, cursor.id);
    from :=
      if cursor.id != "" && i < |history| then i + 1
      else if cursor.timestamp > 0 then FirstAfter(history, cursor.timestamp)
      else 0;
  }

  /** Which of the messages behind the cursor are kept: as many of the newest 80 as weigh at most 12000
      bytes together, or the newest alone, when it weighs more. */
  lemma CandidatesAre(history: seq<Message>, cursor: Cursor, line: Message -> Bytes) returns (k: nat)
    ensures var after := AfterCursor(history, cursor);
      k <= |after| && Candidates(history, cursor, line) == after[k..] && StartsWindow(after, k, line)
  {
    k := WindowIs(AfterCursor(history, cursor), line);
  }

  /** The candidates kept are a suffix of the history; they fit the budget, or are only the newest
      message, whose line alone does not fit. */
  lemma KeptSuffix(history: seq<Message>, cursor: Cursor, line: Message -> Bytes)
    ensures var after, kept := AfterCursor(history, cursor), Candidates(history, cursor, line);
      && IsSuffix(kept, after) && IsSuffix(kept, history)
      && |kept| <= MAX_ITEMS && (|kept| == 0 <==> |after| == 0)
      && (Fits(LinesOf(kept, line)) || (|kept| == 1 && |line(kept[0])| > MAX_BYTES))
  {
    var after := AfterCursor(history, cursor);
    assert IsSuffix(after, history);
    WindowFits(after, line);
    SuffixOfSuffix(Window(after, line), after, history);
  }

  lemma KeptIsWhole(kept: seq<Message>, line: Message -> Bytes, visible: Message -> bool, trigger: string,
        cut: Bytes -> Bytes)
    requires forall m :: visible(m) ==> line(m) != []
    requires |kept| <= MAX_ITEMS && Fits(LinesOf(kept, line))
    ensures var shown := WithoutTrigger(Filtered(kept, visible), trigger);
      HistoryLines(shown, line, cut) == LinesOf(shown, line)
  {
    ShownOfKept(kept, visible, trigger, line);
    FittingIsWhole(WithoutTrigger(Filtered(kept, visible), trigger), line, cut);
  }

  /** The selection of a batch and its rendering agree: if the candidates kept fit the budget, every
      message shown is rendered, whole and in order. */
  lemma BatchIsRenderedWhole(history: seq<Message>, cursor: Cursor, names: Names, target: Bytes, trigger: string)
    requires Fits(LinesOf(Candidates(history, cursor, LineIn(names)), LineIn(names)))
    ensures var messages := PublicInputBatch(history, cursor, LineIn(names), VisibleTo(target)).messages;
      Feed(messages, trigger, names) == LinesOf(WithoutTrigger(messages, trigger), LineIn(names))
  {
    var line, visible := LineIn(names), VisibleTo(target);
    VisibleHaveLines(target, names);
    KeptSuffix(history, cursor, line);
    KeptIsWhole(Candidates(history, cursor, line), line, visible, trigger, CutToBudget());
  }

  /** If they do not fit, only the newest message was kept; it is rendered cut short, unless it is
      not shown at all. */
  lemma LoneMessageIsCut(history: seq<Message>, cursor: Cursor, names: Names, target: Bytes, trigger: string)
    ensures var kept := Candidates(history, cursor, LineIn(names));
      !Fits(LinesOf(kept, LineIn(names))) ==>
        (&& |history| > 0 && kept == [history[|history| - 1]]
         && var m := history[|history| - 1];
            var messages := PublicInputBatch(history, cursor, LineIn(names), VisibleTo(target)).messages;
            Feed(messages, trigger, names) ==
              if IsVisible(m, target) && (trigger == "" || m.id != trigger)
              then [Truncated(Line(m, names), MAX_BYTES, TRUNCATED)] else [])
  {
    var line, visible := LineIn(names), VisibleTo(target);
    var kept := Candidates(history, cursor, line);
    if !Fits(LinesOf(kept, line)) {
      KeptSuffix(history, cursor, line);
      var m := history[|history| - 1];
      assert kept == [m];
      CutLineStays(m, names);
      LoneShown(m, visible, trigger, line, CutToBudget());
    }
  }

  lemma VisibleHaveLines(target: Bytes, names: Names)
    ensures forall m :: VisibleTo(target)(m) ==> LineIn(names)(m) != []
  {
    forall m | VisibleTo(target)(m) ensures LineIn(names)(m) != [] {
      VisibleHasLine(m, target, names);
    }
  }

  lemma LoneShown(m: Message, visible: Message -> bool, trigger: string, line: Message -> Bytes, cut: Bytes -> Bytes)
    requires |line(m)| > MAX_BYTES && |cut(line(m))| > 0
    ensures HistoryLines(WithoutTrigger(Filtered([m], visible), trigger), line, cut)
      == if visible(m) && (trigger == "" || m.id != trigger) then [cut(line(m))] else []
  {
    var ms := [m];
    assert ms[1..] == [];
    assert Filtered(ms, visible) == if visible(m) then ms else [];
    assert Filtered(ms, OtherThan(trigger)) == if m.id != trigger then ms else [];
    TooLongIsCut(m, line, cut);
    assert HistoryLines([], line, cut) == [];
  }

  /** The boundary of a batch is the newest message of the history whenever there are candidates. */
  lemma BatchBoundary(history: seq<Message>, cursor: Cursor, line: Message -> Bytes, visible: Message -> bool)
    ensures var batch := PublicInputBatch(history, cursor, line, visible);
      if |AfterCursor(history, cursor)| == 0 then batch.lastId == "" && batch.lastTimestamp == 0
      else
        && |history| > 0 && batch.lastId == history[|history| - 1].id
        && batch.lastTimestamp == history[|history| - 1].timestamp
  {
    KeptSuffix(history, cursor, line);
    var kept := Candidates(history, cursor, line);
    if |kept| > 0 {
      SuffixLast(kept, history);
    }
  }

  /** What a delivery does to the cursor: it moves to the newest message, if there is one behind the old
      cursor and it has an id or a time. */
  lemma CursorMoves(history: seq<Message>, cursor: Cursor, line: Message -> Bytes, visible: Message -> bool)
    ensures var moved := Moved(cursor, PublicInputBatch(history, cursor, line, visible));
      if |AfterCursor(history, cursor)| > 0
          && (history[|history| - 1].id != "" || history[|history| - 1].timestamp > 0)
      then moved == Cursor(history[|history| - 1].id, history[|history| - 1].timestamp)
      else moved == cursor
  {
    BatchBoundary(history, cursor, line, visible);
  }

  lemma BatchMembers(history: seq<Message>, cursor: Cursor, line: Message -> Bytes, visible: Message -> bool,
        m: Message)
    requires m in PublicInputBatch(history, cursor, line, visible).messages
    ensures m in AfterCursor(history, cursor)
  {
    KeptSuffix(history, cursor, line);
    FilteredMembers(Candidates(history, cursor, line), visible);
  }

  predicate IsBlank(text: Bytes) {
    Trim(text) == []
  }

  /** A user message with something in it. */
  predicate IsPublicInput(m: Message) {
    m.role == "user" && !IsBlank(m.text)
  }

  /** An assistant message that is not marked incomplete, and either has a summary and says something
      in its text or its summary, or is marked complete and says something in its text. */
  predicate IsPublicAnswer(m: Message) {
    && m.role == "assistant" && m.complete != Some(false)
    && ((m.summary.Some? && (!IsBlank(m.text) || !IsBlank(m.summary.value)))
        || (m.complete == Some(true) && !IsBlank(m.text)))
  }

  /** Only such messages have a line. That of a user ends with its text; that of an assistant is headed
      by its name, else its id, else a general name, and ends with its text if it has any, and with
      its summary otherwise. */
  lemma LineOf(m: Message, names: Names)
    ensures Line(m, names) != [] <==> IsPublicInput(m) || IsPublicAnswer(m)
    ensures IsPublicInput(m) ==> Line(m, names) == Ascii("User: ") + Trim(m.text)
    ensures IsPublicAnswer(m) ==>
      var named := m.agentId in names && !IsBlank(names[m.agentId]);
      var shown :=
        if named then Trim(names[m.agentId])
        else if !IsBlank(m.agentId) then Trim(m.agentId)
        else Trim(Ascii("Assistant"));
      var said := if !IsBlank(m.text) then Trim(m.text) else Trim(m.summary.value);
      Line(m, names) == Ascii("Assistant(") + shown + Ascii("): ") + said
  {
    assert !IsBlank([]) ==> Trim([]) != [];
  }

  lemma VisibleMeaning(m: Message, target: Bytes)
    ensures IsVisible(m, target) <==> IsPublicInput(m) || (IsPublicAnswer(m) && m.agentId != target)
  {
    LineOf(m, map[]);
  }

  /** A batch holds exactly the kept messages that are public and not the member's own answers. */
  lemma SeesAllButItsOwn(history: seq<Message>, cursor: Cursor, names: Names, target: Bytes, m: Message)
    ensures m in PublicInputBatch(history, cursor, LineIn(names), VisibleTo(target)).messages
       <==> m in Candidates(history, cursor, LineIn(names))
            && (IsPublicInput(m) || (IsPublicAnswer(m) && m.agentId != target))
  {
    FilteredMembers(Candidates(history, cursor, LineIn(names)), VisibleTo(target));
    VisibleMeaning(m, target);
  }

  // ---------------------------------------------------------------- the cursor

  /** One delivery to a member, from the history and the names as they are then. */
  datatype Delivery = Delivery(history: seq<Message>, line: Message -> Bytes)

  function Moved(cursor: Cursor, batch: Batch): Cursor {
    if batch.lastId != "" || batch.lastTimestamp > 0 then Cursor(batch.lastId, batch.lastTimestamp) else cursor
  }

  function CursorAfter(ds: seq<Delivery>, visible: Message -> bool): Cursor {
    if ds == [] then Cursor("", 0)
    else
      var d, cursor := ds[|ds| - 1], CursorAfter(ds[..|ds| - 1], visible);
      Moved(cursor, PublicInputBatch(d.history, cursor, d.line, visible))
  }

  function BatchOf(ds: seq<Delivery>, i: nat, visible: Message -> bool): Batch
    requires i < |ds|
  {
    PublicInputBatch(ds[i].history, CursorAfter(ds[..i], visible), ds[i].line, visible)
  }

  ghost predicate DistinctIds(history: seq<Message>) {
    && (forall i :: 0 <= i < |history| ==> history[i].id != "")
    && (forall i, j :: 0 <= i < j < |history| ==> history[i].id != history[j].id)
  }

  /** The history only ever grows at its end. */
  ghost predicate AppendOnly(ds: seq<Delivery>) {
    && (forall i, j :: 0 <= i <= j < |ds| ==> ds[i].history <= ds[j].history)
    && (forall i :: 0 <= i < |ds| ==> DistinctIds(ds[i].history))
  }

  /** How much of the history the deliveries before number `i` have seen. */
  function Seen(ds: seq<Delivery>, i: nat): nat
    requires i <= |ds|
  {
    if i == 0 then 0 else |ds[i - 1].history|
  }

  ghost predicate PointsBehind(cursor: Cursor, history: seq<Message>, seen: nat) {
    if seen == 0 then cursor == Cursor("", 0) else seen <= |history| && cursor.id == history[seen - 1].id
  }

  lemma AfterPoint(cursor: Cursor, history: seq<Message>, seen: nat)
    requires DistinctIds(history) && PointsBehind(cursor, history, seen)
    ensures seen <= |history| && AfterCursor(history, cursor) == history[seen..]
  {
    if seen > 0 {
      assert history[seen - 1].id == cursor.id;
      var i := IndexOf(history, cursor.id);
      assert i < |history| && history[i].id == history[seen - 1].id;
    }
  }

  lemma MovesToEnd(cursor: Cursor, d: Delivery, seen: nat, visible: Message -> bool)
    requires DistinctIds(d.history) && PointsBehind(cursor, d.history, seen)
    ensures PointsBehind(Moved(cursor, PublicInputBatch(d.history, cursor, d.line, visible)), d.history, |d.history|)
  {
    AfterPoint(cursor, d.history, seen);
    BatchBoundary(d.history, cursor, d.line, visible);
  }

  lemma {:induction false} CursorIsBehind(ds: seq<Delivery>, i: nat, visible: Message -> bool)
    requires AppendOnly(ds) && i < |ds|
    ensures PointsBehind(CursorAfter(ds[..i], visible), ds[i].history, Seen(ds, i))
    decreases i
  {
    if i > 0 {
      CursorIsBehind(ds, i - 1, visible);
      assert ds[..i][..i - 1] == ds[..i - 1];
      MovesToEnd(CursorAfter(ds[..i - 1], visible), ds[i - 1], Seen(ds, i - 1), visible);
      assert ds[i - 1].history <= ds[i].history;
    }
  }

  /** The candidates of a delivery before its limits are exactly the messages appended since the
      delivery before it. */
  lemma CandidatesAreTheNew(ds: seq<Delivery>, i: nat, visible: Message -> bool)
    requires AppendOnly(ds) && i < |ds|
    ensures Seen(ds, i) <= |ds[i].history|
    ensures AfterCursor(ds[i].history, CursorAfter(ds[..i], visible)) == ds[i].history[Seen(ds, i)..]
  {
    CursorIsBehind(ds, i, visible);
    AfterPoint(CursorAfter(ds[..i], visible), ds[i].history, Seen(ds, i));
  }

  lemma BatchIsNew(ds: seq<Delivery>, i: nat, visible: Message -> bool, m: Message) returns (n: nat)
    requires AppendOnly(ds) && i < |ds| && m in BatchOf(ds, i, visible).messages
    ensures Seen(ds, i) <= n < |ds[i].history| && ds[i].history[n] == m
  {
    CandidatesAreTheNew(ds, i, visible);
    BatchMembers(ds[i].history, CursorAfter(ds[..i], visible), ds[i].line, visible, m);
    n := PlaceInRest(ds[i].history, Seen(ds, i), m);
  }

  lemma PlaceInRest(history: seq<Message>, from: nat, m: Message) returns (n: nat)
    requires from <= |history| && m in history[from..]
    ensures from <= n < |history| && history[n] == m
  {
    var k :| 0 <= k < |history[from..]| && history[from..][k] == m;
    n := from + k;
  }

  /** The batches of two deliveries have no message in common. */
  lemma BatchesAreApart(ds: seq<Delivery>, i: nat, j: nat, visible: Message -> bool, a: Message, b: Message)
    requires AppendOnly(ds) && i < j < |ds|
    requires a in BatchOf(ds, i, visible).messages && b in BatchOf(ds, j, visible).messages
    ensures a.id != b.id
  {
    var k := BatchIsNew(ds, i, visible, a);
    var l := BatchIsNew(ds, j, visible, b);
    IdsApart(ds, i, j, k, l);
  }

  lemma IdsApart(ds: seq<Delivery>, i: nat, j: nat, k: nat, l: nat)
    requires AppendOnly(ds) && i < j < |ds| && k < |ds[i].history| && Seen(ds, j) <= l < |ds[j].history|
    ensures ds[i].history[k].id != ds[j].history[l].id
  {
    assert ds[i].history <= ds[j - 1].history && ds[i].history <= ds[j].history;
    assert ds[i].history[k] == ds[j].history[k];
    assert k < l;
  }

  /** When what was appended since the last delivery is within the limits, the batch holds exactly
      those of the new messages that are public and not the member's own answers. */
  lemma NewsOfOthersArrives(ds: seq<Delivery>, i: nat, names: Names, target: Bytes, m: Message)
    requires AppendOnly(ds) && i < |ds| && ds[i].line == LineIn(names) && Seen(ds, i) <= |ds[i].history|
    requires var news := ds[i].history[Seen(ds, i)..]; |news| <= 80 && Weight(LinesOf(news, LineIn(names))) <= 12000
    ensures m in BatchOf(ds, i, VisibleTo(target)).messages
       <==> m in ds[i].history[Seen(ds, i)..] && (IsPublicInput(m) || (IsPublicAnswer(m) && m.agentId != target))
  {
    var cursor := CursorAfter(ds[..i], VisibleTo(target));
    CandidatesAreTheNew(ds, i, VisibleTo(target));
    WindowOfFitting(AfterCursor(ds[i].history, cursor), LineIn(names));
    SeesAllButItsOwn(ds[i].history, cursor, names, target, m);
  }
}

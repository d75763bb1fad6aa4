/** The parser of the `tasks:` section of a heartbeat file: the loop over lines, some of which are
    read twice, as a fold that takes every line once; and the round trip of the canonical layout. */
module Heartbeat {
  import opened Options
  import opened Segments
  import opened Text

  datatype Task = Task(name: string, interval: string, prompt: string)

  // ---------------------------------------------------------------- pieces of a line

  function Indent(line: string): (n: nat)
    ensures n <= |line| && forall i :: 0 <= i < n ==> line[i] == ' '
    ensures n < |line| ==> line[n] != ' '
  {
    if |line| > 0 && line[0] == ' ' then 1 + Indent(line[1..]) else 0
  }

  function DropReturns(s: string): (r: string)
    ensures |r| <= |s|
  {
    if |s| > 0 && s[|s| - 1] == '\r' then DropReturns(s[..|s| - 1]) else s
  }

  predicate IsBlank(c: char) {
    c == ' ' || c == '\t' || c == '\r'
  }

  /** strings.TrimRight with blanks, and with line feeds if asked for. */
  function DropBlanks(s: string, lineFeeds: bool): (r: string)
    ensures |r| <= |s|
  {
    if |s| > 0 && (IsBlank(s[|s| - 1]) || (lineFeeds && s[|s| - 1] == '\n'))
    then DropBlanks(s[..|s| - 1], lineFeeds)
    else s
  }

  function IndexOf(s: string, c: char): (i: nat)
    ensures i <= |s| && (i < |s| ==> s[i] == c)
    ensures forall j :: 0 <= j < i ==> s[j] != c
  {
    if |s| == 0 || s[0] == c then 0 else 1 + IndexOf(s[1..], c)
  }

  /** cleanHeartbeatValue: one pair of equal quotes is taken off. */
  function Unquoted(value: string): string {
    if |value| >= 2 && value[0] in {'"', '\''} && value[0] == value[|value| - 1] then value[1..|value| - 1] else value
  }

  /** parseHeartbeatKeyValue; without a key there is none. */
  function KeyValue(line: string): (string, string) {
    var i := IndexOf(line, ':');
    if i == 0 || i == |line| then ("", "") else (Trim(line[..i]), Unquoted(Trim(line[i + 1..])))
  }

  function BuildTask(fields: map<string, string>): Option<Task> {
    var t := Task(Trim(Lookup(fields, "name", "")), Trim(Lookup(fields, "interval", "")),
        Trim(Lookup(fields, "prompt", "")));
    if |t.name| == 0 && |t.interval| == 0 && |t.prompt| == 0 then None else Some(t)
  }

  // ---------------------------------------------------------------- the fold

  /** What the loop carries from line to line. `blockKey` is empty outside a block. */
  datatype State = State(
    tasks: seq<Task>, current: map<string, string>, inTasks: bool, tasksIndent: nat,
    blockKey: string, blockOuter: nat, block: seq<string>, blockIndent: nat, over: bool)

  const BEGIN := State([], map[], false, 0, "", 0, [], 0, false)

  function Flushed(s: State): State {
    if |s.current| == 0 then s
    else
      var task := BuildTask(s.current);
      s.(tasks := if task.Some? then s.tasks + [task.value] else s.tasks, current := map[])
  }

  function BlockText(block: seq<string>): string {
    DropBlanks(Join(block, '\n'), true)
  }

  function Closed(s: State): State {
    if |s.blockKey| == 0 then s
    else s.(current := s.current[s.blockKey := BlockText(s.block)],
            blockKey := "", blockOuter := 0, block := [], blockIndent := 0)
  }

  function WithField(s: State, text: string, indent: nat): State {
    var kv := KeyValue(text);
    if |kv.0| == 0 then s
    else if kv.1 == "|" then s.(blockKey := kv.0, blockOuter := indent)
    else s.(current := s.current[kv.0 := kv.1])
  }

  /** A line of the section outside a block. */
  function PlainLine(s: State, stripped: string, indent: nat): State {
    if |stripped| == 0 then s
    else if stripped[0] == '-' then
      var item := Trim(stripped[1..]);
      if |item| == 0 then Flushed(s) else WithField(Flushed(s), item, indent)
    else if indent <= s.tasksIndent then s.(over := true)
    else WithField(s, stripped, indent)
  }

  predicate ClosesBlock(s: State, stripped: string, indent: nat) {
    |stripped| > 0 && (indent <= s.blockOuter || indent < s.blockIndent)
  }

  function BlockLine(s: State, line: string, stripped: string, indent: nat): State
    requires indent <= |line| && !ClosesBlock(s, stripped, indent)
  {
    if |stripped| == 0 then s.(block := s.block + [""])
    else
      var cut := if s.blockIndent == 0 then indent else s.blockIndent;
      s.(block := s.block + [DropBlanks(line[cut..], false)], blockIndent := cut)
  }

  /** One line: if it closes a block it is then taken as a line outside one. */
  function OneLine(s: State, raw: string): State {
    var line := DropReturns(raw);
    var stripped, indent := Trim(line), Indent(line);
    if s.over then s
    else if !s.inTasks then if stripped == "tasks:" then s.(inTasks := true, tasksIndent := indent) else s
    else if |s.blockKey| == 0 then PlainLine(s, stripped, indent)
    else if ClosesBlock(s, stripped, indent) then PlainLine(Closed(s), stripped, indent)
    else BlockLine(s, line, stripped, indent)
  }

  function Fold(s: State, lines: seq<string>): State
    decreases |lines|
  {
    if |lines| == 0 then s else Fold(OneLine(s, lines[0]), lines[1..])
  }

  function Parsed(text: string): seq<Task> {
    Flushed(Closed(Fold(BEGIN, Split(text, '\n')))).tasks
  }

  // ---------------------------------------------------------------- the loop

  lemma {:induction false} OverStaysOver(s: State, lines: seq<string>)
    requires s.over
    ensures Fold(s, lines) == s
    decreases |lines|
  {
    if |lines| > 0 {
      OverStaysOver(s, lines[1..]);
    }
  }

  /** ParseHeartbeatTasks. A line that closes a block does not advance the index; the block it
      closes is then no longer there. */
  method ParseHeartbeatTasks(text: string) returns (tasks: seq<Task>)
    ensures tasks == Parsed(text)
  {
    var lines := Split(text, '\n');
    var s, i := BEGIN, 0;
    while i < |lines|
      invariant i <= |lines|
      invariant Fold(s, lines[i..]) == Fold(BEGIN, lines)
      decreases |lines| - i, |s.blockKey|
    {
      var line := DropReturns(lines[i]);
      var stripped, indent := Trim(line), Indent(line);
      assert lines[i..][1..] == lines[i + 1..];
      if s.over {
        OverStaysOver(s, lines[i..]);
        break;
      }
      if !s.inTasks {
        if stripped == "tasks:" {
          s := s.(inTasks := true, tasksIndent := indent);
        }
        i := i + 1;
        continue;
      }
      if |s.blockKey| > 0 {
        if ClosesBlock(s, stripped, indent) {
          s := Closed(s);
          continue;
        }
        s := BlockLine(s, line, stripped, indent);
        i := i + 1;
        continue;
      }
      s := PlainLine(s, stripped, indent);
      i := i + 1;
    }
    s := Flushed(Closed(s));
    tasks := s.tasks;
  }

  // ---------------------------------------------------------------- the canonical layout

  /** A value on a line, as it is or between two marks. */
  datatype Value = Plain(text: string) | Quoted(mark: char, text: string)
  datatype Prompt = Inline(value: Value) | Block(header: Value, lines: seq<string>)

  /** The dash of an entry stands before its name or, `apart`, on a line of its own. */
  datatype Entry = Entry(apart: bool, name: Value, interval: Value, prompt: Prompt)

  function Written(v: Value): string {
    match v
    case Plain(text) => text
    case Quoted(mark, text) => [mark] + text + [mark]
  }

  function PromptText(p: Prompt): string {
    match p
    case Inline(value) => value.text
    case Block(_, lines) => Join(lines, '\n')
  }

  function TaskOf(e: Entry): Task {
    Task(Trim(e.name.text), Trim(e.interval.text), Trim(PromptText(e.prompt)))
  }

  const BLANK := Task("", "", "")

  /** An entry that says nothing has no task. */
  function Shown(e: Entry): seq<Task> {
    if TaskOf(e) == BLANK then [] else [TaskOf(e)]
  }

  function TasksOf(es: seq<Entry>): seq<Task> {
    if |es| == 0 then [] else Shown(es[0]) + TasksOf(es[1..])
  }

  function FieldLine(pad: string, key: string, value: string): string {
    pad + key + ": " + value
  }

  function Indented(lines: seq<string>): seq<string> {
    seq(|lines|, i requires 0 <= i < |lines| => "    " + lines[i])
  }

  function PromptLines(p: Prompt): seq<string> {
    match p
    case Inline(value) => [FieldLine("  ", "prompt", Written(value))]
    case Block(header, lines) => [FieldLine("  ", "prompt", Written(header))] + Indented(lines)
  }

  function NameLines(apart: bool, key: string, name: Value): seq<string> {
    if apart then ["-", FieldLine("  ", key, Written(name))] else [FieldLine("- ", key, Written(name))]
  }

  function EntryLines(e: Entry): seq<string> {
    NameLines(e.apart, "name", e.name) + [FieldLine("  ", "interval", Written(e.interval))] + PromptLines(e.prompt)
  }

  function LayoutFrom(es: seq<Entry>): seq<string> {
    if |es| == 0 then [] else EntryLines(es[0]) + LayoutFrom(es[1..])
  }

  predicate IsQuote(c: char) {
    c == '"' || c == '\''
  }

  /** What can stand on a line: a trimmed text that is not between two equal quotes, or any text between
      two equal quotes. */
  predicate OnLine(v: Value) {
    && Free(v.text, '\n')
    && match v
       case Plain(text) =>
         && (|text| > 0 ==> !IsSpace(text[0]) && !IsSpace(text[|text| - 1]))
         && (|text| > 1 && text[0] == text[|text| - 1] ==> !IsQuote(text[0]))
       case Quoted(mark, _) => IsQuote(mark)
  }

  /** A value that does not open a block. */
  predicate Scalar(v: Value) {
    OnLine(v) && v.text != "|"
  }

  lemma WrittenRead(v: Value)
    requires OnLine(v)
    ensures Trimmed(Written(v)) && Free(Written(v), '\n') && Unquoted(Written(v)) == v.text
  {
    var written := Written(v);
    if v.Quoted? {
      assert written[1..|written| - 1] == v.text;
    }
  }

  predicate EndsFull(line: string) {
    |line| == 0 || !IsSpace(line[|line| - 1])
  }

  /** The lines of a block: none ends in blanks, the first starts without and is not empty, nor is
      the last. */
  predicate BlockLines(lines: seq<string>) {
    && |lines| > 0
    && (forall i :: 0 <= i < |lines| ==> Free(lines[i], '\n') && EndsFull(lines[i]))
    && |lines[0]| > 0 && !IsSpace(lines[0][0]) && |lines[|lines| - 1]| > 0
  }

  predicate PromptStands(p: Prompt) {
    match p
    case Inline(value) => Scalar(value)
    case Block(header, lines) => OnLine(header) && header.text == "|" && BlockLines(lines)
  }

  predicate CanStand(e: Entry) {
    Scalar(e.name) && Scalar(e.interval) && PromptStands(e.prompt)
  }

  // ---------------------------------------------------------------- how its lines are read

  predicate AllSpaces(s: string) {
    forall i :: 0 <= i < |s| ==> s[i] == ' '
  }

  lemma {:induction false} TrimLeftPadded(left: string, core: string)
    requires AllSpaces(left) && (|core| == 0 || !IsSpace(core[0]))
    ensures TrimLeft(left + core) == core
    decreases |left|
  {
    if |left| == 0 {
      assert left + core == core;
    } else {
      TrimLeftPadded(left[1..], core);
      assert (left + core)[1..] == left[1..] + core;
    }
  }

  lemma {:induction false} TrimRightPadded(core: string, right: string)
    requires AllSpaces(right) && (|core| == 0 || !IsSpace(core[|core| - 1]))
    ensures TrimRight(core + right) == core
    decreases |right|
  {
    if |right| == 0 {
      assert core + right == core;
    } else {
      var r := right[..|right| - 1];
      TrimRightPadded(core, r);
      assert (core + right)[..|core + right| - 1] == core + r;
    }
  }

  lemma TrimPadded(left: string, core: string, right: string)
    requires AllSpaces(left) && AllSpaces(right) && |core| > 0 && Trimmed(core)
    ensures Trim(left + core + right) == core
  {
    TrimLeftPadded(left, core + right);
    TrimRightPadded(core, right);
    assert left + core + right == left + (core + right);
  }

  lemma {:induction false} IndentPadded(left: string, core: string)
    requires AllSpaces(left) && (|core| > 0 ==> core[0] != ' ')
    ensures Indent(left + core) == |left|
    decreases |left|
  {
    if |left| == 0 {
      assert left + core == core;
    } else {
      IndentPadded(left[1..], core);
      assert (left + core)[1..] == left[1..] + core;
    }
  }

  /** A key and its value as they stand in a line, without the space after an empty value. */
  function Core(key: string, value: string): string {
    if |value| == 0 then key + ":" else key + ": " + value
  }

  predicate IsKey(key: string) {
    |key| > 0 && Free(key, ':') && Trimmed(key) && key[0] != '-'
  }

  lemma CoreIsPair(key: string, value: string)
    requires IsKey(key) && Trimmed(value)
    ensures Trimmed(Core(key, value)) && |Core(key, value)| > 0 && Core(key, value)[0] == key[0]
    ensures key + ": " + value == Core(key, value) + if |value| == 0 then " " else ""
    ensures KeyValue(Core(key, value)) == (key, Unquoted(value))
  {
    var core := Core(key, value);
    assert core[|key|] == ':';
    assert IndexOf(core, ':') == |key|;
    assert core[..|key|] == key;
    TrimFixpoint(key);
    if |value| > 0 {
      assert core[|key| + 1..] == " " + value + "";
      TrimPadded(" ", value, "");
    } else {
      assert core[|key| + 1..] == "";
    }
  }

  lemma DropNoReturn(s: string)
    requires |s| > 0 ==> s[|s| - 1] != '\r'
    ensures DropReturns(s) == s
  {}

  lemma LineRead(left: string, core: string, right: string)
    requires AllSpaces(left) && AllSpaces(right) && |core| > 0 && Trimmed(core)
    ensures var line := left + core + right;
      DropReturns(line) == line && Trim(line) == core && Indent(line) == |left|
  {
    var line := left + core + right;
    TrimPadded(left, core, right);
    IndentPadded(left, core + right);
    assert line == left + (core + right);
    assert line[|line| - 1] == if |right| > 0 then right[|right| - 1] else core[|core| - 1];
    DropNoReturn(line);
  }

  function After(value: string): string {
    if |value| == 0 then " " else ""
  }

  /** What the loop sees of an indented field line and of the first line of an item. */
  lemma FieldLineRead(key: string, value: string)
    requires IsKey(key) && Trimmed(value)
    ensures var line := FieldLine("  ", key, value);
      DropReturns(line) == line && Trim(line) == Core(key, value) && Indent(line) == 2
  {
    CoreIsPair(key, value);
    LineRead("  ", Core(key, value), After(value));
    FieldLineCore("  ", key, value);
  }

  lemma ItemLineRead(key: string, value: string)
    requires IsKey(key) && Trimmed(value)
    ensures var line := FieldLine("- ", key, value);
      DropReturns(line) == line && Trim(line) == "- " + Core(key, value) && Indent(line) == 0
  {
    CoreIsPair(key, value);
    var core := Core(key, value);
    DashStaysTrimmed(core);
    LineRead("", "- " + core, After(value));
    FieldLineCore("- ", key, value);
    assert "" + ("- " + core) + After(value) == "- " + core + After(value);
  }

  lemma FieldLineCore(pad: string, key: string, value: string)
    requires IsKey(key) && Trimmed(value)
    ensures FieldLine(pad, key, value) == pad + Core(key, value) + After(value)
  {
    CoreIsPair(key, value);
    var colon, core, after := ": ", Core(key, value), After(value);
    var pair := key + colon + value;
    assert pad + key + colon + value == pad + pair;
    assert pair == core + after;
    assert pad + (core + after) == pad + core + after;
  }

  lemma DashStaysTrimmed(core: string)
    requires |core| > 0 && Trimmed(core)
    ensures Trimmed("- " + core)
  {
    var item := "- " + core;
    assert item[|item| - 1] == core[|core| - 1];
  }

  lemma ItemRest(core: string)
    requires |core| > 0 && Trimmed(core)
    ensures ("- " + core)[0] == '-' && Trim(("- " + core)[1..]) == core
  {
    assert ("- " + core)[1..] == " " + core + "";
    TrimPadded(" ", core, "");
  }

  // ---------------------------------------------------------------- the round trip

  /** The state inside the section, outside a block. */
  function InEntry(tasks: seq<Task>, current: map<string, string>): State {
    State(tasks, current, true, 0, "", 0, [], 0, false)
  }

  /** The state in a block of an entry indented by two. */
  function InBlock(tasks: seq<Task>, current: map<string, string>, key: string, block: seq<string>): State {
    State(tasks, current, true, 0, key, 2, block, if |block| == 0 then 0 else 4, false)
  }

  /** An entry may start: what came before makes `tasks` once closed and flushed. */
  ghost predicate Ready(s: State, tasks: seq<Task>) {
    Flushed(Closed(s)) == InEntry(tasks, map[])
  }

  lemma FieldStep(tasks: seq<Task>, current: map<string, string>, key: string, v: Value)
    requires IsKey(key) && OnLine(v)
    ensures OneLine(InEntry(tasks, current), FieldLine("  ", key, Written(v))) ==
      if v.text == "|" then InBlock(tasks, current, key, []) else InEntry(tasks, current[key := v.text])
  {
    WrittenRead(v);
    FieldLineRead(key, Written(v));
    CoreIsPair(key, Written(v));
  }

  lemma ItemStep(s: State, tasks: seq<Task>, key: string, v: Value)
    requires Ready(s, tasks) && IsKey(key) && Scalar(v)
    ensures OneLine(s, FieldLine("- ", key, Written(v))) == InEntry(tasks, map[key := v.text])
  {
    WrittenRead(v);
    ItemLineRead(key, Written(v));
    CoreIsPair(key, Written(v));
    ItemRest(Core(key, Written(v)));
  }

  lemma BlockStep(tasks: seq<Task>, current: map<string, string>, key: string, block: seq<string>, line: string)
    requires |key| > 0 && EndsFull(line) && (|block| == 0 ==> |line| > 0 && !IsSpace(line[0]))
    ensures OneLine(InBlock(tasks, current, key, block), "    " + line) == InBlock(tasks, current, key, block + [line])
  {
    BlockLineRead(line);
  }

  lemma BlockLineRead(line: string)
    requires EndsFull(line)
    ensures var padded := "    " + line;
      && DropReturns(padded) == padded && (|Trim(padded)| == 0 <==> |line| == 0)
      && 4 <= Indent(padded) <= |padded| && (|line| > 0 && !IsSpace(line[0]) ==> Indent(padded) == 4)
      && DropBlanks(padded[4..], false) == line
  {
    var padded := "    " + line;
    DropNoReturn(padded);
    IndentAtLeast("    ", line);
    assert padded[4..] == line;
    if |line| > 0 {
      TrimKeepsLast(padded);
      if !IsSpace(line[0]) {
        IndentPadded("    ", line);
      }
    } else {
      TrimLeftPadded("    ", "");
      assert padded == "    " + "";
    }
  }

  lemma {:induction false} IndentAtLeast(left: string, rest: string)
    requires AllSpaces(left)
    ensures Indent(left + rest) >= |left|
    decreases |left|
  {
    if |left| > 0 {
      IndentAtLeast(left[1..], rest);
      assert (left + rest)[1..] == left[1..] + rest;
    }
  }

  lemma {:induction false} TrimKeepsLast(s: string)
    requires |s| > 0 && !IsSpace(s[|s| - 1])
    ensures |Trim(s)| > 0
    decreases |s|
  {
    if IsSpace(s[0]) {
      TrimKeepsLast(s[1..]);
    }
  }

  lemma {:induction false} FoldConcat(s: State, a: seq<string>, b: seq<string>)
    ensures Fold(s, a + b) == Fold(Fold(s, a), b)
    decreases |a|
  {
    if |a| == 0 {
      assert a + b == b;
    } else {
      FoldConcat(OneLine(s, a[0]), a[1..], b);
      assert (a + b)[1..] == a[1..] + b;
    }
  }

  lemma FoldOne(s: State, line: string)
    ensures Fold(s, [line]) == OneLine(s, line)
  {
    assert [line][1..] == [];
    assert Fold(OneLine(s, line), []) == OneLine(s, line);
  }

  lemma FoldIndented(s: State, lines: seq<string>)
    requires |lines| > 0
    ensures Fold(s, Indented(lines)) == Fold(OneLine(s, "    " + lines[0]), Indented(lines[1..]))
  {
    assert Indented(lines)[1..] == Indented(lines[1..]);
  }

  lemma BlockMore(block: seq<string>, lines: seq<string>)
    requires |lines| > 0
    ensures block + [lines[0]] + lines[1..] == block + lines
  {}

  lemma {:induction false} BlockFold(tasks: seq<Task>, current: map<string, string>, key: string, block: seq<string>,
        lines: seq<string>)
    requires |key| > 0 && forall i :: 0 <= i < |lines| ==> EndsFull(lines[i])
    requires |block| == 0 && |lines| > 0 ==> |lines[0]| > 0 && !IsSpace(lines[0][0])
    ensures Fold(InBlock(tasks, current, key, block), Indented(lines)) == InBlock(tasks, current, key, block + lines)
    decreases |lines|
  {
    if |lines| == 0 {
      assert block + lines == block;
    } else {
      var line, rest := lines[0], lines[1..];
      FoldIndented(InBlock(tasks, current, key, block), lines);
      BlockStep(tasks, current, key, block, line);
      BlockFold(tasks, current, key, block + [line], rest);
      BlockMore(block, lines);
    }
  }

  lemma {:induction false} JoinEnds(lines: seq<string>, sep: char)
    requires |lines| > 0 && |lines[0]| > 0 && |lines[|lines| - 1]| > 0
    ensures var text := Join(lines, sep);
      && |text| > 0 && text[0] == lines[0][0]
      && text[|text| - 1] == lines[|lines| - 1][|lines[|lines| - 1]| - 1]
    decreases |lines|
  {
    if |lines| > 1 {
      JoinLast(lines, sep);
    }
  }

  lemma {:induction false} JoinLast(lines: seq<string>, sep: char)
    requires |lines| > 0 && |lines[|lines| - 1]| > 0
    ensures var text, last := Join(lines, sep), lines[|lines| - 1];
      |text| > 0 && text[|text| - 1] == last[|last| - 1]
    decreases |lines|
  {
    if |lines| > 1 {
      JoinLast(lines[1..], sep);
    }
  }

  lemma BlockTextIs(lines: seq<string>)
    requires BlockLines(lines)
    ensures BlockText(lines) == Join(lines, '\n')
  {
    JoinEnds(lines, '\n');
  }

  lemma BuildsTask(fields: map<string, string>, name: string, interval: string, prompt: string)
    requires Lookup(fields, "name", "") == name && Lookup(fields, "interval", "") == interval
        && Lookup(fields, "prompt", "") == prompt
    ensures var t := Task(Trim(name), Trim(interval), Trim(prompt));
      BuildTask(fields) == if t == BLANK then None else Some(t)
  {}

  lemma PromptFold(tasks: seq<Task>, current: map<string, string>, p: Prompt)
    requires PromptStands(p)
    ensures Closed(Fold(InEntry(tasks, current), PromptLines(p))) == InEntry(tasks, current["prompt" := PromptText(p)])
  {
    match p
    case Inline(value) =>
      FieldStep(tasks, current, "prompt", value);
      FoldOne(InEntry(tasks, current), FieldLine("  ", "prompt", Written(value)));
    case Block(header, lines) =>
      var head := [FieldLine("  ", "prompt", Written(header))];
      FieldStep(tasks, current, "prompt", header);
      FoldOne(InEntry(tasks, current), head[0]);
      FoldConcat(InEntry(tasks, current), head, Indented(lines));
      BlockFold(tasks, current, "prompt", [], lines);
      assert [] + lines == lines;
      BlockTextIs(lines);
  }

  lemma DashStep(s: State, tasks: seq<Task>)
    requires Ready(s, tasks)
    ensures OneLine(s, "-") == InEntry(tasks, map[])
  {
    TrimFixpoint("-");
  }

  lemma NameFold(s: State, tasks: seq<Task>, apart: bool, key: string, name: Value)
    requires Ready(s, tasks) && IsKey(key) && Scalar(name)
    ensures Fold(s, NameLines(apart, key, name)) == InEntry(tasks, map[key := name.text])
  {
    if apart {
      DashStep(s, tasks);
      FieldStep(tasks, map[], key, name);
      FoldTwo(s, "-", FieldLine("  ", key, Written(name)));
    } else {
      ItemStep(s, tasks, key, name);
      FoldOne(s, FieldLine("- ", key, Written(name)));
    }
  }

  lemma HeadFold(s: State, tasks: seq<Task>, apart: bool, nameKey: string, name: Value, intervalKey: string,
        interval: Value)
    requires Ready(s, tasks) && IsKey(nameKey) && IsKey(intervalKey) && Scalar(name) && Scalar(interval)
    ensures Fold(s, NameLines(apart, nameKey, name) + [FieldLine("  ", intervalKey, Written(interval))])
      == InEntry(tasks, map[nameKey := name.text][intervalKey := interval.text])
  {
    var second := FieldLine("  ", intervalKey, Written(interval));
    NameFold(s, tasks, apart, nameKey, name);
    FieldStep(tasks, map[nameKey := name.text], intervalKey, interval);
    FoldConcat(s, NameLines(apart, nameKey, name), [second]);
    FoldOne(InEntry(tasks, map[nameKey := name.text]), second);
  }

  lemma KeysAreKeys()
    ensures IsKey("name") && IsKey("interval") && IsKey("prompt")
  {}

  lemma FoldTwo(s: State, first: string, second: string)
    ensures Fold(s, [first, second]) == OneLine(OneLine(s, first), second)
  {
    FoldOne(OneLine(s, first), second);
    assert [first, second][1..] == [second];
  }

  function FieldsOf(e: Entry): map<string, string> {
    map["name" := e.name.text]["interval" := e.interval.text]["prompt" := PromptText(e.prompt)]
  }

  lemma EntryFlushed(tasks: seq<Task>, e: Entry)
    ensures Flushed(InEntry(tasks, FieldsOf(e))) == InEntry(tasks + Shown(e), map[])
  {
    var fields := FieldsOf(e);
    var name, interval, prompt := e.name.text, e.interval.text, PromptText(e.prompt);
    assert fields["name"] == name && fields["interval"] == interval && fields["prompt"] == prompt;
    BuildsTask(fields, name, interval, prompt);
    assert |fields| > 0 by { assert "prompt" in fields; }
    assert tasks + [] == tasks;
  }

  /** One laid-out entry adds its task. */
  lemma EntryFold(s: State, tasks: seq<Task>, e: Entry)
    requires Ready(s, tasks) && CanStand(e)
    ensures Ready(Fold(s, EntryLines(e)), tasks + Shown(e))
  {
    var head := NameLines(e.apart, "name", e.name) + [FieldLine("  ", "interval", Written(e.interval))];
    KeysAreKeys();
    HeadFold(s, tasks, e.apart, "name", e.name, "interval", e.interval);
    FoldConcat(s, head, PromptLines(e.prompt));
    PromptFold(tasks, map["name" := e.name.text]["interval" := e.interval.text], e.prompt);
    EntryFlushed(tasks, e);
  }

  lemma TasksThen(tasks: seq<Task>, first: seq<Task>, rest: seq<Task>)
    ensures tasks + (first + rest) == tasks + first + rest
  {}

  lemma {:induction false} LayoutFold(s: State, tasks: seq<Task>, es: seq<Entry>)
    requires Ready(s, tasks) && forall i :: 0 <= i < |es| ==> CanStand(es[i])
    ensures Ready(Fold(s, LayoutFrom(es)), tasks + TasksOf(es))
    decreases |es|
  {
    if |es| == 0 {
      assert tasks + TasksOf(es) == tasks;
    } else {
      var lines := EntryLines(es[0]);
      EntryFold(s, tasks, es[0]);
      LayoutFold(Fold(s, lines), tasks + Shown(es[0]), es[1..]);
      FoldConcat(s, lines, LayoutFrom(es[1..]));
      TasksThen(tasks, Shown(es[0]), TasksOf(es[1..]));
    }
  }

  lemma FieldLineFree(margin: string, name: string, value: string)
    requires Free(margin, '\n') && Free(name, '\n') && Free(value, '\n')
    ensures Free(FieldLine(margin, name, value), '\n')
  {}

  lemma IndentedFree(lines: seq<string>)
    requires forall i :: 0 <= i < |lines| ==> Free(lines[i], '\n')
    ensures forall i :: 0 <= i < |lines| ==> Free(Indented(lines)[i], '\n')
  {
    forall i | 0 <= i < |lines| ensures Free(Indented(lines)[i], '\n') {
      assert Indented(lines)[i] == "    " + lines[i];
    }
  }

  lemma PromptLinesFree(p: Prompt)
    requires PromptStands(p)
    ensures forall i :: 0 <= i < |PromptLines(p)| ==> Free(PromptLines(p)[i], '\n')
  {
    match p
    case Inline(value) =>
      WrittenRead(value);
      FieldLineFree("  ", "prompt", Written(value));
    case Block(header, lines) =>
      WrittenRead(header);
      FieldLineFree("  ", "prompt", Written(header));
      IndentedFree(lines);
  }

  lemma EntryLinesFree(e: Entry)
    requires CanStand(e)
    ensures forall i :: 0 <= i < |EntryLines(e)| ==> Free(EntryLines(e)[i], '\n')
  {
    WrittenRead(e.name);
    WrittenRead(e.interval);
    FieldLineFree("- ", "name", Written(e.name));
    FieldLineFree("  ", "name", Written(e.name));
    FieldLineFree("  ", "interval", Written(e.interval));
    PromptLinesFree(e.prompt);
  }

  lemma {:induction false} LayoutLinesFree(es: seq<Entry>)
    requires forall i :: 0 <= i < |es| ==> CanStand(es[i])
    ensures forall i :: 0 <= i < |LayoutFrom(es)| ==> Free(LayoutFrom(es)[i], '\n')
    decreases |es|
  {
    if |es| > 0 {
      EntryLinesFree(es[0]);
      LayoutLinesFree(es[1..]);
    }
  }

  lemma HeaderRead()
    ensures OneLine(BEGIN, "tasks:") == InEntry([], map[])
  {
    LineRead("", "tasks:", "");
    assert "" + "tasks:" + "" == "tasks:";
  }

  predicate IsHeader(line: string) {
    Trim(DropReturns(line)) == "tasks:"
  }

  /** A line at the margin that is neither blank nor an item: it ends the section. */
  predicate EndsSection(line: string) {
    var l := DropReturns(line);
    |Trim(l)| > 0 && Trim(l)[0] != '-' && Indent(l) == 0
  }

  lemma {:induction false} PreambleFold(lines: seq<string>)
    requires forall i :: 0 <= i < |lines| ==> !IsHeader(lines[i])
    ensures Fold(BEGIN, lines) == BEGIN
    decreases |lines|
  {
    if |lines| > 0 {
      assert OneLine(BEGIN, lines[0]) == BEGIN;
      PreambleFold(lines[1..]);
    }
  }

  lemma AfterSection(s: State, tasks: seq<Task>, lines: seq<string>)
    requires Ready(s, tasks) && (|lines| > 0 ==> EndsSection(lines[0]))
    ensures Flushed(Closed(Fold(s, lines))).tasks == tasks
  {
    if |lines| > 0 {
      assert OneLine(s, lines[0]) == Closed(s).(over := true);
      OverStaysOver(OneLine(s, lines[0]), lines[1..]);
    }
  }

  /** The lines of a file with the canonical layout of the entries in it. */
  function FileLines(before: seq<string>, es: seq<Entry>, after: seq<string>): seq<string> {
    before + (["tasks:"] + (LayoutFrom(es) + after))
  }

  lemma FileFold(before: seq<string>, es: seq<Entry>, after: seq<string>)
    requires forall i :: 0 <= i < |before| ==> !IsHeader(before[i])
    requires forall i :: 0 <= i < |es| ==> CanStand(es[i])
    requires |after| > 0 ==> EndsSection(after[0])
    ensures Flushed(Closed(Fold(BEGIN, FileLines(before, es, after)))).tasks == TasksOf(es)
  {
    var header := ["tasks:"];
    FoldConcat(BEGIN, before, header + (LayoutFrom(es) + after));
    PreambleFold(before);
    FoldConcat(BEGIN, header, LayoutFrom(es) + after);
    FoldOne(BEGIN, "tasks:");
    HeaderRead();
    var start := InEntry([], map[]);
    FoldConcat(start, LayoutFrom(es), after);
    LayoutFold(start, [], es);
    assert [] + TasksOf(es) == TasksOf(es);
    AfterSection(Fold(start, LayoutFrom(es)), TasksOf(es), after);
  }

  /** A file that holds the canonical layout of any entries, after any lines without a header, and
      before the end or a line that ends the section, parses to exactly their tasks. */
  lemma LayoutParses(before: seq<string>, es: seq<Entry>, after: seq<string>)
    requires forall i :: 0 <= i < |before| ==> !IsHeader(before[i]) && Free(before[i], '\n')
    requires forall i :: 0 <= i < |es| ==> CanStand(es[i])
    requires (|after| > 0 ==> EndsSection(after[0])) && forall i :: 0 <= i < |after| ==> Free(after[i], '\n')
    ensures Parsed(Join(FileLines(before, es, after), '\n')) == TasksOf(es)
  {
    FileLinesFree(before, es, after);
    FileFold(before, es, after);
    SplitJoin(FileLines(before, es, after), '\n');
  }

  lemma FileLinesFree(before: seq<string>, es: seq<Entry>, after: seq<string>)
    requires forall i :: 0 <= i < |before| ==> Free(before[i], '\n')
    requires forall i :: 0 <= i < |es| ==> CanStand(es[i])
    requires forall i :: 0 <= i < |after| ==> Free(after[i], '\n')
    ensures forall i :: 0 <= i < |FileLines(before, es, after)| ==> Free(FileLines(before, es, after)[i], '\n')
  {
    LayoutLinesFree(es);
    FreeConcat(LayoutFrom(es), after);
    FreeConcat(["tasks:"], LayoutFrom(es) + after);
    FreeConcat(before, ["tasks:"] + (LayoutFrom(es) + after));
  }

  lemma FreeConcat(a: seq<string>, b: seq<string>)
    requires forall i :: 0 <= i < |a| ==> Free(a[i], '\n')
    requires forall i :: 0 <= i < |b| ==> Free(b[i], '\n')
    ensures forall i :: 0 <= i < |a + b| ==> Free((a + b)[i], '\n')
  {}
}

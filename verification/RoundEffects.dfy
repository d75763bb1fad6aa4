/** What a round does and how it ends, read off its messages: which calls each of them makes and in which
    order, and which message fields make a round finish, fail, or count as completed by the assistant. */
module RoundEffects {
  import opened Options
  import opened RoundExecutor

  // ---------------------------------------------------------------- the calls of a message

  /** What is picked out of the elements of `s`, in order. */
  function Collected<S, T>(s: seq<S>, pick: S -> Option<T>): seq<T> {
    if s == [] then []
    else
      var before, last := Collected(s[..|s| - 1], pick), pick(s[|s| - 1]);
      if last.Some? then before + [last.value] else before
  }

  function SyncOf(e: Effect): Option<string> {
    if e.Sync? then Some(e.sessionId) else None
  }

  function MessageOf(e: Effect): Option<Durable> {
    if e.Persist? then Some(e.message) else None
  }

  function EventOf(e: Effect): Option<string> {
    if e.Emit? then Some(e.event) else None
  }

  function Synced(effects: seq<Effect>): seq<string> {
    Collected(effects, SyncOf)
  }

  function Persisted(effects: seq<Effect>): seq<Durable> {
    Collected(effects, MessageOf)
  }

  function Emitted(effects: seq<Effect>): seq<string> {
    Collected(effects, EventOf)
  }

  function Present(durables: seq<Option<Durable>>): seq<Durable> {
    Collected(durables, (d: Option<Durable>) => d)
  }

  /** The session id is synced first, then messages are persisted, then events are emitted. */
  ghost predicate InOrder(calls: seq<Effect>) {
    forall i, j :: 0 <= i < j < |calls| ==>
      (calls[j].Sync? ==> calls[i].Sync?) && (calls[j].Persist? ==> !calls[i].Emit?)
  }

  /** The same messages, one without a session id under the one given. */
  ghost predicate UnderSession(written: seq<Durable>, given: seq<Durable>, sessionId: string) {
    && |written| == |given|
    && forall i :: 0 <= i < |given| ==>
         written[i] == if given[i].sessionId == "" then given[i].(sessionId := sessionId) else given[i]
  }

  /** All the calls one message makes, with the callbacks that are set. */
  ghost predicate AreCallsOf(cfg: Config, m: Mapped, sessionId: string, calls: seq<Effect>) {
    && InOrder(calls)
    && Synced(calls) == (if cfg.syncs && sessionId != "" then [sessionId] else [])
    && Emitted(calls) == (if cfg.emits then m.events else [])
    && UnderSession(Persisted(calls), if cfg.persists then Present(m.durables) else [], sessionId)
  }

  lemma {:induction false} CollectedAdded<S, T>(a: seq<S>, b: seq<S>, pick: S -> Option<T>)
    ensures Collected(a + b, pick) == Collected(a, pick) + Collected(b, pick)
    decreases |b|
  {
    if |b| == 0 {
      assert a + b == a;
    } else {
      var front := b[..|b| - 1];
      CollectedAdded(a, front, pick);
      assert (a + b)[..|a + b| - 1] == a + front && (a + b)[|a + b| - 1] == b[|b| - 1];
    }
  }

  lemma {:induction false} NoneCollected<S, T>(s: seq<S>, pick: S -> Option<T>)
    requires forall i :: 0 <= i < |s| ==> pick(s[i]).None?
    ensures Collected(s, pick) == []
    decreases |s|
  {
    if |s| > 0 {
      NoneCollected(s[..|s| - 1], pick);
    }
  }

  lemma {:induction false} AllCollected<S, T>(s: seq<S>, pick: S -> Option<T>)
    requires forall i :: 0 <= i < |s| ==> pick(s[i]).Some?
    ensures |Collected(s, pick)| == |s|
    ensures forall i :: 0 <= i < |s| ==> Collected(s, pick)[i] == pick(s[i]).value
    decreases |s|
  {
    if |s| > 0 {
      AllCollected(s[..|s| - 1], pick);
    }
  }

  ghost predicate OnlyPersists(calls: seq<Effect>) {
    forall i :: 0 <= i < |calls| ==> calls[i].Persist?
  }

  ghost predicate OnlyEmits(calls: seq<Effect>) {
    forall i :: 0 <= i < |calls| ==> calls[i].Emit?
  }

  /** Persists are calls of the messages present, in order, under the session id. */
  lemma {:induction false} PersistsPresent(durables: seq<Option<Durable>>, sessionId: string)
    ensures var calls, given := Persists(durables, sessionId), Present(durables);
      && |calls| == |given| && OnlyPersists(calls)
      && forall i :: 0 <= i < |given| ==> calls[i].message == WithSession(given[i], sessionId)
    decreases |durables|
  {
    if |durables| > 0 {
      PersistsPresent(durables[..|durables| - 1], sessionId);
    }
  }

  lemma PersistsAre(durables: seq<Option<Durable>>, sessionId: string)
    ensures var calls := Persists(durables, sessionId);
      && OnlyPersists(calls) && Synced(calls) == [] && Emitted(calls) == []
      && UnderSession(Persisted(calls), Present(durables), sessionId)
  {
    var calls := Persists(durables, sessionId);
    PersistsPresent(durables, sessionId);
    NoneCollected(calls, SyncOf);
    NoneCollected(calls, EventOf);
    AllCollected(calls, MessageOf);
  }

  lemma EmitsAre(events: seq<string>)
    ensures var calls := Emits(events);
      OnlyEmits(calls) && Synced(calls) == [] && Persisted(calls) == [] && Emitted(calls) == events
  {
    var calls := Emits(events);
    NoneCollected(calls, SyncOf);
    NoneCollected(calls, MessageOf);
    AllCollected(calls, EventOf);
  }

  lemma SyncsAre(calls: seq<Effect>, sessionId: string)
    requires calls == [] || calls == [Sync(sessionId)]
    ensures Synced(calls) == (if calls == [] then [] else [sessionId])
    ensures Persisted(calls) == [] && Emitted(calls) == []
  {
    AllCollected(calls, SyncOf);
    NoneCollected(calls, MessageOf);
    NoneCollected(calls, EventOf);
  }

  lemma CollectedThree<T>(a: seq<Effect>, b: seq<Effect>, c: seq<Effect>, pick: Effect -> Option<T>)
    ensures Collected(a + b + c, pick) == Collected(a, pick) + Collected(b, pick) + Collected(c, pick)
  {
    CollectedAdded(a, b, pick);
    CollectedAdded(a + b, c, pick);
  }

  lemma Added(a: seq<Effect>, b: seq<Effect>, c: seq<Effect>)
    ensures Synced(a + b + c) == Synced(a) + Synced(b) + Synced(c)
    ensures Persisted(a + b + c) == Persisted(a) + Persisted(b) + Persisted(c)
    ensures Emitted(a + b + c) == Emitted(a) + Emitted(b) + Emitted(c)
  {
    CollectedThree(a, b, c, SyncOf);
    CollectedThree(a, b, c, MessageOf);
    CollectedThree(a, b, c, EventOf);
  }

  lemma Ordered(syncs: seq<Effect>, persists: seq<Effect>, emits: seq<Effect>)
    requires forall i :: 0 <= i < |syncs| ==> syncs[i].Sync?
    requires OnlyPersists(persists) && OnlyEmits(emits)
    ensures InOrder(syncs + persists + emits)
  {}

  lemma CallsAre(cfg: Config, m: Mapped, sessionId: string)
    ensures AreCallsOf(cfg, m, sessionId, Calls(cfg, m, sessionId))
  {
    var syncs := if cfg.syncs && sessionId != "" then [Sync(sessionId)] else [];
    SyncsAre(syncs, sessionId);
    PersistsAre(m.durables, sessionId);
    EmitsAre(m.events);
    PutTogether(cfg, m, sessionId, syncs, if cfg.persists then Persists(m.durables, sessionId) else [],
                if cfg.emits then Emits(m.events) else []);
  }

  lemma PutTogether(cfg: Config, m: Mapped, sessionId: string, syncs: seq<Effect>, persists: seq<Effect>,
        emits: seq<Effect>)
    requires forall i :: 0 <= i < |syncs| ==> syncs[i].Sync?
    requires OnlyPersists(persists) && OnlyEmits(emits)
    requires Synced(syncs) == (if cfg.syncs && sessionId != "" then [sessionId] else [])
    requires Persisted(syncs) == [] && Emitted(syncs) == []
    requires Synced(persists) == [] && Emitted(persists) == []
    requires UnderSession(Persisted(persists), if cfg.persists then Present(m.durables) else [], sessionId)
    requires Synced(emits) == [] && Persisted(emits) == [] && Emitted(emits) == (if cfg.emits then m.events else [])
    ensures AreCallsOf(cfg, m, sessionId, syncs + persists + emits)
  {
    Ordered(syncs, persists, emits);
    Added(syncs, persists, emits);
    Empties(Synced(syncs), Persisted(persists), Emitted(emits));
  }

  lemma Empties(a: seq<string>, b: seq<Durable>, c: seq<string>)
    ensures a + [] + [] == a && [] + b + [] == b && [] + [] + c == c
  {}

  /** From `s` to `t` all the calls are made, or those up to the call that fails, and then the round
      fails. */
  ghost predicate MakesCalls(s: Loop, t: Loop, calls: seq<Effect>, failing: Option<nat>) {
    var fails := failing.Some? && failing.value < |calls|;
    && t.effects == s.effects + (if fails then calls[..failing.value + 1] else calls)
    && (t.outcome == Failed(CallbackError) <==> fails)
  }

  lemma TakenCalls(cfg: Config, s: Loop, input: Input)
    requires s.outcome.Running? && input.Received? && input.mapped.Some?
    ensures MakesCalls(s, Step(cfg, s, input), CallsOf(cfg, input), input.failing)
  {}

  /** What a running round does with a message that is mapped. */
  lemma MessageCalls(cfg: Config, before: seq<Input>, input: Input) returns (calls: seq<Effect>)
    requires Run(cfg, before).outcome.Running? && input.Received? && input.mapped.Some?
    ensures AreCallsOf(cfg, input.mapped.value, input.sessionId, calls)
    ensures MakesCalls(Run(cfg, before), Run(cfg, before + [input]), calls, input.failing)
  {
    calls := CallsOf(cfg, input);
    CallsAre(cfg, input.mapped.value, input.sessionId);
    ScriptMore(cfg, before, input);
    TakenCalls(cfg, Run(cfg, before), input);
  }

  /** Nothing else makes calls. */
  lemma OnlyMessagesCall(cfg: Config, before: seq<Input>, input: Input)
    requires !input.Received? || input.mapped.None?
    ensures Run(cfg, before + [input]).effects == Run(cfg, before).effects
  {
    ScriptMore(cfg, before, input);
  }

  // ---------------------------------------------------------------- how a round ends

  ghost predicate FinishesTurn(d: Durable) {
    && d.role == "assistant" && d.isComplete
    && (d.stopReason == "end_turn" || d.stopReason == "stop_sequence" || d.stopReason == "max_tokens")
  }

  ghost predicate IsResult(d: Durable) {
    d.role == "result" && d.subtype != "error" && !d.isError
  }

  ghost predicate Holds(input: Input, d: Durable) {
    input.Received? && input.mapped.Some? && Some(d) in input.mapped.value.durables
  }

  ghost predicate TurnFinished(script: seq<Input>) {
    exists i, d :: 0 <= i < |script| && Holds(script[i], d) && FinishesTurn(d)
  }

  ghost predicate GoodResultAt(input: Input) {
    exists d :: Holds(input, d) && IsResult(d)
  }

  lemma TurnEndsAt(input: Input)
    ensures EndsTurnAt(input) <==> exists d :: Holds(input, d) && FinishesTurn(d)
  {
    if EndsTurnAt(input) {
      var durables := input.mapped.value.durables;
      var i :| 0 <= i < |durables| && EndsTurn(durables[i]);
      assert Holds(input, durables[i].value) && FinishesTurn(durables[i].value);
    }
    if d :| Holds(input, d) && FinishesTurn(d) {
      var durables := input.mapped.value.durables;
      var i :| 0 <= i < |durables| && durables[i] == Some(d);
      assert EndsTurn(durables[i]);
    }
  }

  lemma TurnEnded(script: seq<Input>)
    ensures HasEndedTurn(script) <==> TurnFinished(script)
  {
    forall i | 0 <= i < |script|
      ensures EndsTurnAt(script[i]) <==> exists d :: Holds(script[i], d) && FinishesTurn(d)
    {
      TurnEndsAt(script[i]);
    }
  }

  lemma GoodResult(input: Input)
    requires input.Received? && input.mapped.Some?
    ensures HasGoodResult(input.mapped.value) <==> GoodResultAt(input)
  {
    var durables := input.mapped.value.durables;
    if HasGoodResult(input.mapped.value) {
      var i :| 0 <= i < |durables| && IsGoodResult(durables[i]);
      assert Holds(input, durables[i].value) && IsResult(durables[i].value);
    }
    if d :| Holds(input, d) && IsResult(d) {
      var i :| 0 <= i < |durables| && durables[i] == Some(d);
      assert IsGoodResult(durables[i]);
    }
  }

  function Messages(script: seq<Input>): nat {
    if script == [] then 0
    else Messages(script[..|script| - 1]) + if script[|script| - 1].Received? then 1 else 0
  }

  lemma {:induction false} SeenAreMessages(cfg: Config, script: seq<Input>)
    ensures Run(cfg, script).outcome.Running? ==> Run(cfg, script).seen == Messages(script)
    decreases |script|
  {
    if |script| > 0 {
      SeenAreMessages(cfg, script[..|script| - 1]);
    }
  }

  /** How a running round takes anything but a message that is mapped. */
  lemma EndsWithout(cfg: Config, before: seq<Input>, input: Input)
    requires Run(cfg, before).outcome.Running? && !(input.Received? && input.mapped.Some?)
    ensures var outcome, finished := Run(cfg, before + [input]).outcome, TurnFinished(before);
      var done := Finished(Result("finished", "success", true));
      match input
      case Received(_, _, _) => outcome == Failed(MapError)
      case Cancelled => outcome == Failed(Interrupted)
      case GraceFired => outcome == if finished then done else Running
      case StreamEnded(interrupted) =>
        outcome == if interrupted then Failed(Interrupted) else if finished then done
          else Failed(ClosedEarly(Messages(before)))
      case IdleFired(interrupted) =>
        outcome == if !cfg.hasIdleTimer then Running else if interrupted then Failed(Interrupted)
          else Failed(IdleTimeout(Messages(before)))
  {
    RunningIsOnCourse(cfg, before);
    TurnEnded(before);
    SeenAreMessages(cfg, before);
    ScriptMore(cfg, before, input);
  }

  /** How a running round takes a mapped message none of whose calls fails: it goes on unless the message
      is terminal; then it has the status and subtype of the message, and counts as completed by the
      assistant exactly if it is a success and this or an earlier message finished the turn, or this one
      holds a result that is not an error. */
  lemma EndsWithMessage(cfg: Config, before: seq<Input>, input: Input)
    requires Run(cfg, before).outcome.Running? && input.Received? && input.mapped.Some?
    requires Run(cfg, before + [input]).outcome != Failed(CallbackError)
    ensures var outcome, m := Run(cfg, before + [input]).outcome, input.mapped.value;
      var success := m.terminalStatus == "finished" && (m.subtype == "" || m.subtype == "success");
      outcome == if m.terminalStatus == "" then Running
        else Finished(Result(m.terminalStatus, m.subtype,
                             success && (TurnFinished(before + [input]) || GoodResultAt(input))))
  {
    RunningIsOnCourse(cfg, before);
    ScriptMore(cfg, before, input);
    TurnEnded(before + [input]);
    GoodResult(input);
    assert IsTerminal(input) <==> input.mapped.value.terminalStatus != "";
    MessageOutcome(cfg, Run(cfg, before), input);
  }

  lemma MessageOutcome(cfg: Config, s: Loop, input: Input)
    requires s.outcome.Running? && s.pending in {None, Some(BY_ASSISTANT)} && input.Received? && input.mapped.Some?
    requires Step(cfg, s, input).outcome != Failed(CallbackError)
    ensures var m := input.mapped.value;
      Step(cfg, s, input).outcome ==
        if m.terminalStatus == "" then Running
        else Finished(Result(m.terminalStatus, m.subtype,
          m.terminalStatus == "finished" && (m.subtype == "" || m.subtype == "success")
          && (s.pending.Some? || EndsTurnAt(input) || HasGoodResult(m))))
  {}
}

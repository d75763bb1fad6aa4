/** ExecuteRound: the loop that takes what the select gives it (a message, the end of the stream,
    the idle timer, the grace timer, a cancel), persists and emits what the mapper makes of each
    message, and decides how the round ended. The order in which things happen, what the mapper
    returns and which callback fails are the script of the run. */
module RoundExecutor {
  import opened Options

  datatype Durable = Durable(role: string, sessionId: string, isComplete: bool, stopReason: string, subtype: string,
        isError: bool, body: string)

  /** What the mapper returns; nil durable messages are None. */
  datatype Mapped = Mapped(durables: seq<Option<Durable>>, events: seq<string>, terminalStatus: string, subtype: string)

  /** One thing the select of the loop may give it. For a message: what the mapper makes of it, the
      session id resolved, and which of its callback calls fails first, if any. For the end of the
      stream and the idle timer: whether the round counts as interrupted at that moment. */
  datatype Input =
    | Received(mapped: Option<Mapped>, sessionId: string, failing: Option<nat>)
    | StreamEnded(interrupted: bool)
    | IdleFired(interrupted: bool)
    | GraceFired
    | Cancelled

  datatype Effect = Sync(sessionId: string) | Persist(message: Durable) | Emit(event: string)

  datatype Result = Result(status: string, subtype: string, byAssistant: bool)

  datatype Error = Interrupted | MapError | CallbackError | IdleTimeout(seen: nat) | ClosedEarly(seen: nat) | QueryError

  datatype Outcome = Finished(result: Result) | Failed(error: Error) | Running

  /** Which callbacks are set, and whether there is an idle timer. */
  datatype Config = Config(syncs: bool, persists: bool, emits: bool, hasIdleTimer: bool)

  // ---------------------------------------------------------------- what a message asks for

  predicate IsTerminalStop(stopReason: string) {
    stopReason in {"end_turn", "stop_sequence", "max_tokens"}
  }

  predicate EndsTurn(d: Option<Durable>) {
    d.Some? && d.value.role == "assistant" && d.value.isComplete && IsTerminalStop(d.value.stopReason)
  }

  predicate IsGoodResult(d: Option<Durable>) {
    d.Some? && d.value.role == "result" && d.value.subtype != "error" && !d.value.isError
  }

  predicate HasTerminalAssistant(m: Mapped) {
    exists i :: 0 <= i < |m.durables| && EndsTurn(m.durables[i])
  }

  predicate HasGoodResult(m: Mapped) {
    exists i :: 0 <= i < |m.durables| && IsGoodResult(m.durables[i])
  }

  const BY_ASSISTANT := Result("finished", "success", true)

  predicate IsSuccess(r: Result) {
    r.status == "finished" && (r.subtype == "" || r.subtype == "success")
  }

  /** terminalRoundResult. */
  function TerminalResult(m: Mapped, pending: Option<Result>): Result {
    var r := Result(m.terminalStatus, m.subtype, false);
    if IsSuccess(r) && (HasTerminalAssistant(m) || HasGoodResult(m) || (pending.Some? && pending.value.byAssistant))
    then r.(byAssistant := true)
    else r
  }

  function WithSession(d: Durable, sessionId: string): Durable {
    if sessionId != "" && d.sessionId == "" then d.(sessionId := sessionId) else d
  }

  function Persists(durables: seq<Option<Durable>>, sessionId: string): seq<Effect> {
    if durables == [] then []
    else
      var d, before := durables[|durables| - 1], Persists(durables[..|durables| - 1], sessionId);
      if d.Some? then before + [Persist(WithSession(d.value, sessionId))] else before
  }

  function Emits(events: seq<string>): seq<Effect> {
    seq(|events|, i requires 0 <= i < |events| => Emit(events[i]))
  }

  /** The callback calls of a message, in order, when none fails. */
  function Calls(cfg: Config, m: Mapped, sessionId: string): seq<Effect> {
    (if cfg.syncs && sessionId != "" then [Sync(sessionId)] else [])
    + (if cfg.persists then Persists(m.durables, sessionId) else [])
    + (if cfg.emits then Emits(m.events) else [])
  }

  function CallsOf(cfg: Config, input: Input): seq<Effect> {
    if input.Received? && input.mapped.Some? then Calls(cfg, input.mapped.value, input.sessionId) else []
  }

  /** The calls made: up to and with the first that fails. */
  function Made(calls: seq<Effect>, failing: Option<nat>): seq<Effect> {
    if failing.Some? && failing.value < |calls| then calls[..failing.value + 1] else calls
  }

  // ---------------------------------------------------------------- the loop as a fold

  /** The state of the loop: the calls made, the messages seen, and the result kept since a message
      ended the turn; the outcome is Running while it goes on. */
  datatype Loop = Loop(effects: seq<Effect>, seen: nat, pending: Option<Result>, outcome: Outcome)

  const BEGIN := Loop([], 0, None, Running)

  function TakeMessage(cfg: Config, s: Loop, m: Mapped, calls: seq<Effect>, failing: Option<nat>): Loop {
    var t := s.(seen := s.seen + 1, effects := s.effects + Made(calls, failing));
    if failing.Some? && failing.value < |calls| then t.(outcome := Failed(CallbackError))
    else if m.terminalStatus != "" then t.(outcome := Finished(TerminalResult(m, s.pending)))
    else if HasTerminalAssistant(m) then t.(pending := Some(BY_ASSISTANT))
    else t
  }

  function Step(cfg: Config, s: Loop, input: Input): Loop {
    if !s.outcome.Running? then s
    else
      match input
      case Cancelled => s.(outcome := Failed(Interrupted))
      case GraceFired => if s.pending.Some? then s.(outcome := Finished(s.pending.value)) else s
      case IdleFired(interrupted) =>
        if !cfg.hasIdleTimer then s
        else s.(outcome := Failed(if interrupted then Interrupted else IdleTimeout(s.seen)))
      case StreamEnded(interrupted) =>
        if interrupted then s.(outcome := Failed(Interrupted))
        else if s.pending.Some? then s.(outcome := Finished(s.pending.value))
        else s.(outcome := Failed(ClosedEarly(s.seen)))
      case Received(mapped, sessionId, failing) =>
        if mapped.None? then s.(seen := s.seen + 1, outcome := Failed(MapError))
        else TakeMessage(cfg, s, mapped.value, CallsOf(cfg, input), failing)
  }

  function Run(cfg: Config, script: seq<Input>): Loop {
    if script == [] then BEGIN else Step(cfg, Run(cfg, script[..|script| - 1]), script[|script| - 1])
  }

  // ---------------------------------------------------------------- theorems

  function AllCalls(cfg: Config, script: seq<Input>): seq<Effect> {
    if script == [] then [] else AllCalls(cfg, script[..|script| - 1]) + CallsOf(cfg, script[|script| - 1])
  }

  predicate EndsTurnAt(input: Input) {
    input.Received? && input.mapped.Some? && HasTerminalAssistant(input.mapped.value)
  }

  predicate IsTerminal(input: Input) {
    input.Received? && input.mapped.Some? && input.mapped.value.terminalStatus != ""
  }

  predicate HasEndedTurn(script: seq<Input>) {
    exists i :: 0 <= i < |script| && EndsTurnAt(script[i])
  }

  predicate HasTerminal(script: seq<Input>) {
    exists i :: 0 <= i < |script| && IsTerminal(script[i])
  }

  lemma ScriptMore(cfg: Config, script: seq<Input>, input: Input)
    ensures Run(cfg, script + [input]) == Step(cfg, Run(cfg, script), input)
    ensures AllCalls(cfg, script + [input]) == AllCalls(cfg, script) + CallsOf(cfg, input)
    ensures HasEndedTurn(script + [input]) <==> HasEndedTurn(script) || EndsTurnAt(input)
    ensures HasTerminal(script + [input]) <==> HasTerminal(script) || IsTerminal(input)
  {
    var all := script + [input];
    assert all[..|script|] == script && all[|script|] == input;
    assert forall i :: 0 <= i < |script| ==> all[i] == script[i];
  }

  /** While a round runs, its callback calls are those of all messages so far, in order and
      complete; no message so far was terminal; and a result is kept exactly when some message
      held a complete assistant message with a terminal stop reason. */
  ghost predicate OnCourse(cfg: Config, script: seq<Input>, s: Loop) {
    && s.effects == AllCalls(cfg, script)
    && !HasTerminal(script)
    && s.pending == if HasEndedTurn(script) then Some(BY_ASSISTANT) else None
  }

  lemma QuietStep(cfg: Config, s: Loop, input: Input)
    requires s.outcome.Running? && Step(cfg, s, input).outcome.Running? && !input.Received?
    ensures Step(cfg, s, input) == s && CallsOf(cfg, input) == [] && !EndsTurnAt(input) && !IsTerminal(input)
  {}

  lemma StepOnCourse(cfg: Config, script: seq<Input>, s: Loop, input: Input)
    requires s.outcome.Running? && OnCourse(cfg, script, s) && Step(cfg, s, input).outcome.Running?
    ensures OnCourse(cfg, script + [input], Step(cfg, s, input))
  {
    ScriptMore(cfg, script, input);
    if !input.Received? {
      QuietStep(cfg, s, input);
      assert AllCalls(cfg, script) + [] == AllCalls(cfg, script);
    }
  }

  lemma {:induction false} RunningIsOnCourse(cfg: Config, script: seq<Input>)
    requires Run(cfg, script).outcome.Running?
    ensures OnCourse(cfg, script, Run(cfg, script))
    decreases |script|
  {
    if script != [] {
      var before, input := script[..|script| - 1], script[|script| - 1];
      RunningIsOnCourse(cfg, before);
      StepOnCourse(cfg, before, Run(cfg, before), input);
      assert script == before + [input];
    }
  }

  /** The round ends with the input after `before`. */
  ghost predicate EndsWith(cfg: Config, before: seq<Input>, input: Input) {
    Run(cfg, before).outcome.Running? && !Run(cfg, before + [input]).outcome.Running?
  }

  /** Every round that is over ended with one of its inputs, and those after it change nothing. */
  lemma {:induction false} EndsSomewhere(cfg: Config, script: seq<Input>) returns (n: nat)
    requires !Run(cfg, script).outcome.Running?
    ensures n < |script| && EndsWith(cfg, script[..n], script[n])
    ensures Run(cfg, script) == Run(cfg, script[..n] + [script[n]])
    decreases |script|
  {
    var before, input := script[..|script| - 1], script[|script| - 1];
    assert script == before + [input];
    ScriptMore(cfg, before, input);
    if Run(cfg, before).outcome.Running? {
      n := |script| - 1;
    } else {
      n := EndsSomewhere(cfg, before);
      assert before[..n] == script[..n];
    }
  }

  /** The callback calls of a round are those of the messages it took, in order: complete, unless a
      call failed; then they end with that call, in the last message taken. */
  lemma CallsInOrder(cfg: Config, before: seq<Input>, input: Input)
    requires EndsWith(cfg, before, input)
    ensures var s := Run(cfg, before + [input]);
      if s.outcome == Failed(CallbackError) then
        && input.Received? && input.failing.Some? && input.failing.value < |CallsOf(cfg, input)|
        && s.effects == AllCalls(cfg, before) + CallsOf(cfg, input)[..input.failing.value + 1]
      else s.effects == AllCalls(cfg, before + [input])
  {
    RunningIsOnCourse(cfg, before);
    ScriptMore(cfg, before, input);
    EndingCalls(cfg, Run(cfg, before), input);
  }

  lemma EndingCalls(cfg: Config, s: Loop, input: Input)
    requires s.outcome.Running? && !Step(cfg, s, input).outcome.Running?
    ensures var t := Step(cfg, s, input);
      if t.outcome == Failed(CallbackError) then
        && input.Received? && input.failing.Some? && input.failing.value < |CallsOf(cfg, input)|
        && t.effects == s.effects + CallsOf(cfg, input)[..input.failing.value + 1]
      else t.effects == s.effects + CallsOf(cfg, input)
  {
    assert s.effects + [] == s.effects;
  }

  /** A round stops at the first terminal message it takes: no message before the one that ended it
      was terminal; a terminal message always ends it, and unless one of its calls fails, with its
      status. */
  lemma {:induction false} StopsAtFirstTerminal(cfg: Config, before: seq<Input>, input: Input)
    requires Run(cfg, before).outcome.Running?
    ensures !HasTerminal(before)
    ensures var outcome := Run(cfg, before + [input]).outcome;
      IsTerminal(input) ==>
        (outcome == Failed(CallbackError)
         || (outcome.Finished? && outcome.result.status == input.mapped.value.terminalStatus
             && outcome.result.subtype == input.mapped.value.subtype))
  {
    RunningIsOnCourse(cfg, before);
    ScriptMore(cfg, before, input);
  }

  lemma StepWithoutTerminal(cfg: Config, s: Loop, input: Input)
    requires s.outcome.Running? && !IsTerminal(input)
    ensures var outcome := Step(cfg, s, input).outcome;
      && (outcome.Finished? <==> s.pending.Some? && (input.GraceFired? || input == StreamEnded(false)))
      && (outcome.Finished? ==> outcome.result == s.pending.value)
  {}

  /** A round finishes without a terminal message exactly when the grace time runs out, or the
      stream ends uninterrupted, after some message held a complete assistant message with a
      terminal stop reason. */
  lemma FinishedWithoutTerminal(cfg: Config, before: seq<Input>, input: Input)
    requires Run(cfg, before).outcome.Running? && !IsTerminal(input)
    ensures var outcome := Run(cfg, before + [input]).outcome;
      && (outcome.Finished? <==> HasEndedTurn(before) && (input.GraceFired? || input == StreamEnded(false)))
      && (outcome.Finished? ==> outcome.result == BY_ASSISTANT)
  {
    RunningIsOnCourse(cfg, before);
    ScriptMore(cfg, before, input);
    StepWithoutTerminal(cfg, Run(cfg, before), input);
  }

  /** "Completed by the assistant" means success, and exactly that the terminal message or an
      earlier one shows a finished turn, or that the terminal message holds a good result. */
  lemma CompletedByAssistant(cfg: Config, before: seq<Input>, input: Input)
    requires EndsWith(cfg, before, input) && Run(cfg, before + [input]).outcome.Finished?
    ensures var r := Run(cfg, before + [input]).outcome.result;
      r.byAssistant <==>
        && IsSuccess(r)
        && (HasEndedTurn(before + [input]) || (IsTerminal(input) && HasGoodResult(input.mapped.value)))
  {
    RunningIsOnCourse(cfg, before);
    ScriptMore(cfg, before, input);
    FinishedByAssistant(cfg, Run(cfg, before), input);
  }

  lemma FinishedByAssistant(cfg: Config, s: Loop, input: Input)
    requires s.outcome.Running? && Step(cfg, s, input).outcome.Finished? && s.pending in {None, Some(BY_ASSISTANT)}
    ensures var r := Step(cfg, s, input).outcome.result;
      r.byAssistant <==>
        IsSuccess(r) && (s.pending.Some? || EndsTurnAt(input)
            || (IsTerminal(input) && HasGoodResult(input.mapped.value)))
  {
    if input.Received? {
      TerminalByAssistant(input.mapped.value, s.pending);
    }
  }

  lemma TerminalByAssistant(m: Mapped, pending: Option<Result>)
    requires pending in {None, Some(BY_ASSISTANT)}
    ensures var r := TerminalResult(m, pending);
      r.byAssistant <==> IsSuccess(r) && (pending.Some? || HasTerminalAssistant(m) || HasGoodResult(m))
  {}

  // ---------------------------------------------------------------- the loops

  lemma {:induction false} PersistsPrefix(durables: seq<Option<Durable>>, sessionId: string, i: nat)
    requires i <= |durables|
    ensures Persists(durables[..i], sessionId) <= Persists(durables, sessionId)
    decreases |durables| - i
  {
    if i == |durables| {
      assert durables[..i] == durables;
    } else {
      PersistsPrefix(durables, sessionId, i + 1);
      assert durables[..i + 1][..i] == durables[..i];
    }
  }

  /** A callback call: recorded, and failing if it is the one the script says. */
  method Call(made: seq<Effect>, call: Effect, failing: Option<nat>) returns (effects: seq<Effect>, ok: bool)
    ensures effects == made + [call]
    ensures ok <==> failing != Some(|made|)
  {
    effects, ok := made + [call], failing != Some(|made|);
  }

  method PersistAll(made: seq<Effect>, durables: seq<Option<Durable>>, sessionId: string, failing: Option<nat>)
    returns (effects: seq<Effect>, ok: bool)
    requires failing.Some? ==> |made| <= failing.value
    ensures var all := made + Persists(durables, sessionId);
      && effects == Made(all, failing) && (ok <==> !(failing.Some? && failing.value < |all|))
  {
    effects, ok := made, true;
    ghost var all := made + Persists(durables, sessionId);
    var i := 0;
    while i < |durables|
      invariant i <= |durables| && ok
      invariant effects == made + Persists(durables[..i], sessionId)
      invariant failing.Some? ==> |effects| <= failing.value
    {
      assert durables[..i + 1][..i] == durables[..i];
      PersistsPrefix(durables, sessionId, i + 1);
      if durables[i].Some? {
        effects, ok := Call(effects, Persist(WithSession(durables[i].value, sessionId)), failing);
        assert effects <= all;
        if !ok {
          return;
        }
      }
      i := i + 1;
    }
    assert durables[..i] == durables;
  }

  method EmitAll(made: seq<Effect>, events: seq<string>, failing: Option<nat>) returns (effects: seq<Effect>, ok: bool)
    requires failing.Some? ==> |made| <= failing.value
    ensures var all := made + Emits(events);
      && effects == Made(all, failing) && (ok <==> !(failing.Some? && failing.value < |all|))
  {
    effects, ok := made, true;
    ghost var all := made + Emits(events);
    var i := 0;
    while i < |events|
      invariant i <= |events| && ok
      invariant effects == all[..|made| + i]
      invariant failing.Some? ==> |effects| <= failing.value
    {
      effects, ok := Call(effects, Emit(events[i]), failing);
      assert effects == all[..|made| + i + 1];
      if !ok {
        return;
      }
      i := i + 1;
    }
    assert effects == all;
  }

  /** What the loop does with the callbacks of one message. */
  method HandleMessage(cfg: Config, m: Mapped, sessionId: string, failing: Option<nat>)
    returns (effects: seq<Effect>, ok: bool)
    ensures var calls := Calls(cfg, m, sessionId);
      && effects == Made(calls, failing) && (ok <==> !(failing.Some? && failing.value < |calls|))
  {
    effects, ok := [], true;
    ghost var first := if cfg.syncs && sessionId != "" then [Sync(sessionId)] else [];
    ghost var second := first + if cfg.persists then Persists(m.durables, sessionId) else [];
    ghost var calls := second + if cfg.emits then Emits(m.events) else [];
    assert calls == Calls(cfg, m, sessionId);
    if cfg.syncs && sessionId != "" {
      effects, ok := Call(effects, Sync(sessionId), failing);
      if !ok {
        return;
      }
    }
    if cfg.persists {
      effects, ok := PersistAll(effects, m.durables, sessionId, failing);
      if !ok {
        assert effects == second[..failing.value + 1] == calls[..failing.value + 1];
        return;
      }
    }
    assert effects == second;
    if cfg.emits {
      effects, ok := EmitAll(effects, m.events, failing);
    }
  }

  method FindTerminalAssistant(m: Mapped) returns (found: bool)
    ensures found <==> HasTerminalAssistant(m)
  {
    var i := 0;
    while i < |m.durables|
      invariant i <= |m.durables| && forall j :: 0 <= j < i ==> !EndsTurn(m.durables[j])
    {
      if EndsTurn(m.durables[i]) {
        return true;
      }
      i := i + 1;
    }
    found := false;
  }

  method FindGoodResult(m: Mapped) returns (found: bool)
    ensures found <==> HasGoodResult(m)
  {
    var i := 0;
    while i < |m.durables|
      invariant i <= |m.durables| && forall j :: 0 <= j < i ==> !IsGoodResult(m.durables[j])
    {
      if IsGoodResult(m.durables[i]) {
        return true;
      }
      i := i + 1;
    }
    found := false;
  }

  method FinalResult(m: Mapped, pending: Option<Result>) returns (r: Result)
    ensures r == TerminalResult(m, pending)
  {
    r := Result(m.terminalStatus, m.subtype, false);
    if !IsSuccess(r) {
      return;
    }
    var found := FindTerminalAssistant(m);
    if found {
      return r.(byAssistant := true);
    }
    found := FindGoodResult(m);
    if found {
      return r.(byAssistant := true);
    }
    if pending.Some? && pending.value.byAssistant {
      r := r.(byAssistant := true);
    }
  }

  /** ExecuteRound. `queryError` is the failure of the query or of the callback after it, if any;
      a grace timer that was never armed and an idle timer that is not set cannot fire. */
  method ExecuteRound(cfg: Config, queryError: Option<Error>, script: seq<Input>)
    returns (effects: seq<Effect>, outcome: Outcome)
    ensures queryError.Some? ==> effects == [] && outcome == Failed(queryError.value)
    ensures queryError.None? ==> effects == Run(cfg, script).effects && outcome == Run(cfg, script).outcome
  {
    effects := [];
    if queryError.Some? {
      return [], Failed(queryError.value);
    }
    var seen := 0;
    var pending: Option<Result> := None;
    var i := 0;
    while i < |script|
      invariant i <= |script|
      invariant Run(cfg, script[..i]) == Loop(effects, seen, pending, Running)
    {
      ghost var s := Loop(effects, seen, pending, Running);
      var input := script[i];
      assert script[..i] + [input] == script[..i + 1];
      ScriptMore(cfg, script[..i], input);
      RestOfScript(cfg, script, i + 1);
      i := i + 1;
      match input
      case Cancelled => return effects, Failed(Interrupted);
      case GraceFired =>
        if pending.Some? {
          return effects, Finished(pending.value);
        }
      case IdleFired(interrupted) =>
        if cfg.hasIdleTimer {
          return effects, Failed(if interrupted then Interrupted else IdleTimeout(seen));
        }
      case StreamEnded(interrupted) =>
        if interrupted {
          return effects, Failed(Interrupted);
        }
        if pending.Some? {
          return effects, Finished(pending.value);
        }
        return effects, Failed(ClosedEarly(seen));
      case Received(mapped, sessionId, failing) =>
        seen := seen + 1;
        if mapped.None? {
          return effects, Failed(MapError);
        }
        var made, ok := HandleMessage(cfg, mapped.value, sessionId, failing);
        effects := effects + made;
        if !ok {
          return effects, Failed(CallbackError);
        }
        if mapped.value.terminalStatus != "" {
          var r := FinalResult(mapped.value, pending);
          return effects, Finished(r);
        }
        var ended := FindTerminalAssistant(mapped.value);
        if ended {
          pending := Some(BY_ASSISTANT);
        }
    }
    assert script[..i] == script;
    outcome := Running;
  }

  lemma {:induction false} RestOfScript(cfg: Config, script: seq<Input>, i: nat)
    requires i <= |script|
    ensures !Run(cfg, script[..i]).outcome.Running? ==> Run(cfg, script) == Run(cfg, script[..i])
    decreases |script| - i
  {
    if i < |script| {
      assert script[..i + 1][..i] == script[..i];
      RestOfScript(cfg, script, i + 1);
    } else {
      assert script[..i] == script;
    }
  }
}

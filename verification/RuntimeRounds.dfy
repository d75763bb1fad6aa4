/** Running rounds, their done signals, interruption and queued guidance, as a state machine.
    One step is one region the runtime manager executes under its lock, one choice of a select,
    or one answer of the client; calls of InterruptSession advance independently of each other
    and of everything else. */
module RuntimeRounds {
  import opened Options

  datatype Guidance = Guidance(roundId: string, content: string)

  /** sessionState. A done channel is the number it was made under; a cancel function is the
      number its caller knows it by. */
  datatype Session = Session(
    hasClient: bool,
    running: set<string>,
    cancels: map<string, nat>,
    done: map<string, nat>,
    interruptions: map<string, string>,
    guided: seq<Guidance>)

  const NO_SESSION := Session(false, {}, map[], map[], map[], [])

  /** How far one call of InterruptSession has come. */
  datatype Call =
    | Snapshotted(session: string, reason: string, ids: seq<string>, signals: seq<nat>, cancels: seq<nat>)
    | Marked(session: string, ids: seq<string>, signals: seq<nat>, cancels: seq<nat>, hasClient: bool)
    | Waiting(session: string, ids: seq<string>, signals: seq<nat>, next: nat, forced: bool, firings: nat)
    | Returned(session: string, ids: seq<string>, signals: seq<nat>, ok: bool, firings: nat)

  datatype Choice = SignalClosed | ContextDone | TimerFired

  datatype State = State(
    sessions: map<string, Session>,
    signals: seq<(string, string)>,  // every done channel made, with its session and round
    closings: seq<nat>,              // every close(done), in order
    calls: map<nat, Call>)

  const INIT := State(map[], [], [], map[])

  datatype Op =
    | StartRound(session: string, round: string, cancel: Option<nat>)
    | FinishRound(session: string, round: string)
    | CloseSession(session: string)
    | AttachClient(session: string)
    | Queue(session: string, round: string, content: string)
    | Drain(session: string)
    | Interrupt(call: nat, session: string, reason: string, order: seq<string>)
    | MarkInterrupted(call: nat)
    | AskClient(call: nat, accepted: bool)
    | Select(call: nat, choice: Choice)

  // ---------------------------------------------------------------- single sessions

  function Started(st: Session, round: string, cancel: Option<nat>, made: nat): Session {
    st.(running := st.running + {round},
        interruptions := st.interruptions - {round},
        cancels := if cancel.Some? then st.cancels[round := cancel.value] else st.cancels,
        done := if round in st.done then st.done else st.done[round := made])
  }

  function Finished(st: Session, round: string): Session {
    st.(running := st.running - {round},
        cancels := st.cancels - {round},
        interruptions := st.interruptions - {round},
        guided := if st.running - {round} == {} then [] else st.guided,
        done := st.done - {round})
  }

  /** Texts in operations are trimmed already; the manager trims them on entry. */
  predicate Accepts(s: State, session: string, content: string) {
    content != "" && session in s.sessions && s.sessions[session].running != {}
  }

  function WithReason(interruptions: map<string, string>, ids: seq<string>, reason: string): map<string, string>
    decreases |ids|
  {
    if ids == [] then interruptions else WithReason(interruptions[ids[0] := reason], ids[1..], reason)
  }

  // ---------------------------------------------------------------- interruption

  /** The values a map has for the listed keys, keys it does not have being skipped. */
  function Collect(order: seq<string>, m: map<string, nat>): seq<nat> {
    if order == [] then []
    else if order[0] in m then [m[order[0]]] + Collect(order[1..], m)
    else Collect(order[1..], m)
  }

  /** An iteration order of a Go map with these keys. */
  predicate IsIterationOf(order: seq<string>, keys: set<string>) {
    && (forall i, j :: 0 <= i < j < |order| ==> order[i] != order[j])
    && (forall k :: k in order ==> k in keys)
    && (forall k :: k in keys ==> k in order)
  }

  function Snapshot(s: State, op: Op): Call
    requires op.Interrupt?
  {
    var st := Lookup(s.sessions, op.session, NO_SESSION);
    if op.session !in s.sessions || st.running == {} then Returned(op.session, [], [], true, 0)
    else Snapshotted(op.session, op.reason, op.order, Collect(op.order, st.done), Collect(op.order, st.cancels))
  }

  /** Entering waitRoundDoneSignals. */
  function Wait(session: string, ids: seq<string>, signals: seq<nat>, forced: bool, firings: nat): Call {
    if signals == [] then Returned(session, ids, signals, true, firings)
    else Waiting(session, ids, signals, 0, forced, firings)
  }

  /** Is this case of the select ready? */
  predicate Ready(s: State, c: Call, choice: Choice)
    requires c.Waiting?
  {
    match choice
    case SignalClosed => c.next < |c.signals| && c.signals[c.next] in s.closings
    case TimerFired => !c.forced
    case ContextDone => true
  }

  function Chosen(c: Call, choice: Choice): Call
    requires c.Waiting?
  {
    match choice
    case SignalClosed =>
      if c.next + 1 < |c.signals| then c.(next := c.next + 1)
      else Returned(c.session, c.ids, c.signals, true, c.firings)
    case TimerFired => c.(forced := true, firings := c.firings + 1)
    case ContextDone => Returned(c.session, c.ids, c.signals, false, c.firings)
  }

  /** The waiting loop under a list of select outcomes. A timer that fires when the cancels are
      already fired is not listened to. */
  function Waited(c: Call, choices: seq<Choice>): Call
    decreases |choices|
  {
    if !c.Waiting? || choices == [] then c
    else if c.forced && choices[0].TimerFired? then Waited(c, choices[1..])
    else Waited(Chosen(c, choices[0]), choices[1..])
  }

  // ---------------------------------------------------------------- steps and runs

  function Put(s: State, session: string, st: Session): State {
    s.(sessions := s.sessions[session := st])
  }

  function Starting(s: State, session: string, round: string, cancel: Option<nat>): State {
    if session == "" || round == "" then s
    else
      var st := Lookup(s.sessions, session, NO_SESSION);
      Put(s, session, Started(st, round, cancel, |s.signals|))
      .(signals := if round in st.done then s.signals else s.signals + [(session, round)])
  }

  function Finishing(s: State, session: string, round: string): State {
    if session == "" || round == "" || session !in s.sessions then s
    else
      var st := s.sessions[session];
      Put(s, session, Finished(st, round))
      .(closings := if round in st.done then s.closings + [st.done[round]] else s.closings)
  }

  function Attaching(s: State, session: string): State {
    Put(s, session, Lookup(s.sessions, session, NO_SESSION).(hasClient := true))
  }

  function Queueing(s: State, session: string, round: string, content: string): State {
    if !Accepts(s, session, content) then s
    else
      var st := s.sessions[session];
      Put(s, session, st.(guided := st.guided + [Guidance(round, content)]))
  }

  function Draining(s: State, session: string): State {
    if session in s.sessions then Put(s, session, s.sessions[session].(guided := [])) else s
  }

  function Interrupting(s: State, op: Op): State
    requires op.Interrupt?
  {
    if op.call in s.calls || !IsIterationOf(op.order, Lookup(s.sessions, op.session, NO_SESSION).running) then s
    else s.(calls := s.calls[op.call := Snapshot(s, op)])
  }

  function Marking(s: State, call: nat): State {
    if call !in s.calls || !s.calls[call].Snapshotted? then s
    else
      var c := s.calls[call];
      var st := Lookup(s.sessions, c.session, NO_SESSION);
      Put(s, c.session, st.(interruptions := WithReason(st.interruptions, c.ids, c.reason)))
      .(calls := s.calls[call := Marked(c.session, c.ids, c.signals, c.cancels, st.hasClient)])
  }

  /** Without a client the cancels fire at once; with one, only the timer may fire them. */
  function Asking(s: State, call: nat, accepted: bool): State {
    if call !in s.calls || !s.calls[call].Marked? then s
    else
      var c := s.calls[call];
      var after :=
        if !c.hasClient then Wait(c.session, c.ids, c.signals, true, 1)
        else if !accepted then Returned(c.session, c.ids, c.signals, false, 0)
        else Wait(c.session, c.ids, c.signals, false, 0);
      s.(calls := s.calls[call := after])
  }

  function Selecting(s: State, call: nat, choice: Choice): State {
    if call !in s.calls || !s.calls[call].Waiting? || !Ready(s, s.calls[call], choice) then s
    else s.(calls := s.calls[call := Chosen(s.calls[call], choice)])
  }

  /** A step that is not enabled changes nothing. */
  function Next(s: State, op: Op): State {
    match op
    case StartRound(session, round, cancel) => Starting(s, session, round, cancel)
    case FinishRound(session, round) => Finishing(s, session, round)
    case CloseSession(session) => s.(sessions := s.sessions - {session})
    case AttachClient(session) => Attaching(s, session)
    case Queue(session, round, content) => Queueing(s, session, round, content)
    case Drain(session) => Draining(s, session)
    case Interrupt(_, _, _, _) => Interrupting(s, op)
    case MarkInterrupted(call) => Marking(s, call)
    case AskClient(call, accepted) => Asking(s, call, accepted)
    case Select(call, choice) => Selecting(s, call, choice)
  }

  function StateAfter(ops: seq<Op>): State {
    if ops == [] then INIT else Next(StateAfter(ops[..|ops| - 1]), ops[|ops| - 1])
  }

  // ---------------------------------------------------------------- invariants

  /** The maps of one session agree: a round has a done signal exactly while it runs, only
      running rounds have cancels, and guidance waits only while some round runs. */
  ghost predicate SessionInvariant(st: Session) {
    && st.done.Keys == st.running
    && st.cancels.Keys <= st.running
    && (st.running == {} ==> st.guided == [])
  }

  ghost predicate Live(s: State, session: string, round: string, signal: nat) {
    session in s.sessions && round in s.sessions[session].done && s.sessions[session].done[round] == signal
  }

  /** A live signal was made for its own round and is still open; no signal is closed twice. */
  ghost predicate SignalInvariant(s: State) {
    && (forall session :: session in s.sessions ==> SessionInvariant(s.sessions[session]))
    && (forall session, round, d: nat :: Live(s, session, round, d) ==>
          d < |s.signals| && s.signals[d] == (session, round) && d !in s.closings)
    && (forall d :: d in s.closings ==> d < |s.signals|)
    && (forall i, j :: 0 <= i < j < |s.closings| ==> s.closings[i] != s.closings[j])
  }

  /** A call watches one signal per round it reports, each made for that round; what it has
      passed is closed; it fires the captured cancels at most once. */
  ghost predicate CallInvariant(s: State, c: Call) {
    && |c.signals| == |c.ids|
    && (forall k :: 0 <= k < |c.ids| ==> c.signals[k] < |s.signals| && s.signals[c.signals[k]] == (c.session, c.ids[k]))
    && (c.Waiting? ==> c.next < |c.signals| && (forall k :: 0 <= k < c.next ==> c.signals[k] in s.closings)
                       && c.firings == (if c.forced then 1 else 0))
    && (c.Returned? ==> c.firings <= 1 && (c.ok ==> forall k :: 0 <= k < |c.signals| ==> c.signals[k] in s.closings))
  }

  ghost predicate Invariant(s: State) {
    SignalInvariant(s) && forall call :: call in s.calls ==> CallInvariant(s, s.calls[call])
  }

  lemma {:induction false} CollectAll(order: seq<string>, m: map<string, nat>)
    requires forall k :: k in order ==> k in m
    ensures |Collect(order, m)| == |order|
    ensures forall k :: 0 <= k < |order| ==> Collect(order, m)[k] == m[order[k]]
  {
    if order != [] {
      CollectAll(order[1..], m);
    }
  }

  /** A signal that a step finds made is live afterwards only if it was live before. */
  ghost predicate NoRevival(s: State, t: State) {
    forall session, round, d: nat :: Live(t, session, round, d) && d < |s.signals| ==> Live(s, session, round, d)
  }

  lemma StartKeepsSignals(s: State, session: string, round: string, cancel: Option<nat>)
    requires SignalInvariant(s)
    ensures SignalInvariant(Starting(s, session, round, cancel))
    ensures NoRevival(s, Starting(s, session, round, cancel))
  {
    var t := Starting(s, session, round, cancel);
    if t != s {
      var st := Lookup(s.sessions, session, NO_SESSION);
      assert SessionInvariant(Started(st, round, cancel, |s.signals|));
      forall q, r, d: nat | Live(t, q, r, d)
        ensures Live(s, q, r, d) || (q == session && r == round && d == |s.signals| && round !in st.done)
      {}
    }
  }

  lemma FinishKeepsSignals(s: State, session: string, round: string)
    requires SignalInvariant(s)
    ensures SignalInvariant(Finishing(s, session, round))
    ensures NoRevival(s, Finishing(s, session, round))
  {
    var t := Finishing(s, session, round);
    if t != s {
      var st := s.sessions[session];
      if round in st.done { assert Live(s, session, round, st.done[round]); }
      forall s', r, d: nat | Live(t, s', r, d)
        ensures d < |t.signals| && t.signals[d] == (s', r) && d !in t.closings
      {
        assert Live(s, s', r, d);
      }
    }
  }

  lemma RestKeepsSignals(s: State, op: Op)
    requires SignalInvariant(s) && !op.StartRound? && !op.FinishRound?
    ensures SignalInvariant(Next(s, op))
    ensures Next(s, op).signals == s.signals && Next(s, op).closings == s.closings
    ensures NoRevival(s, Next(s, op))
  {
    var t := Next(s, op);
    forall q | q in t.sessions ensures SessionInvariant(t.sessions[q])
    {
      RestKeepsSession(s, op, q);
    }
    forall q, r, d: nat | Live(t, q, r, d) ensures Live(s, q, r, d) {
      RestKeepsSession(s, op, q);
    }
  }

  /** Every step other than the start and the end of a round leaves a session's signals as
      they are, or makes a session without rounds. */
  lemma RestKeepsSession(s: State, op: Op, q: string)
    requires !op.StartRound? && !op.FinishRound? && q in Next(s, op).sessions
    ensures SameRounds(Lookup(s.sessions, q, NO_SESSION), Next(s, op).sessions[q])
  {
    match op
    case CloseSession(_) =>
    case AttachClient(session) => PutKeepsRounds(s, session, Attaching(s, session).sessions[session], q);
    case Queue(session, round, content) =>
      if Accepts(s, session, content) {
        PutKeepsRounds(s, session, Queueing(s, session, round, content).sessions[session], q);
      }
    case Drain(session) =>
      if session in s.sessions { PutKeepsRounds(s, session, Draining(s, session).sessions[session], q); }
    case Interrupt(_, _, _, _) =>
    case MarkInterrupted(call) =>
      if call in s.calls && s.calls[call].Snapshotted? {
        var session := s.calls[call].session;
        PutKeepsRounds(s, session, Marking(s, call).sessions[session], q);
      }
    case AskClient(_, _) =>
    case Select(_, _) =>
  }

  lemma PutKeepsRounds(s: State, session: string, st: Session, q: string)
    requires SameRounds(Lookup(s.sessions, session, NO_SESSION), st)
    ensures q in Put(s, session, st).sessions
        ==> SameRounds(Lookup(s.sessions, q, NO_SESSION), Put(s, session, st).sessions[q])
  {}

  predicate SameRounds(st: Session, after: Session) {
    && after.done == st.done && after.running == st.running && after.cancels == st.cancels
    && (after.guided == st.guided || after.guided == [] || st.running != {})
  }

  lemma SignalStep(s: State, op: Op)
    requires SignalInvariant(s)
    ensures SignalInvariant(Next(s, op)) && NoRevival(s, Next(s, op))
    ensures s.signals <= Next(s, op).signals && s.closings <= Next(s, op).closings
  {
    match op
    case StartRound(session, round, cancel) => StartKeepsSignals(s, session, round, cancel);
    case FinishRound(session, round) => FinishKeepsSignals(s, session, round);
    case _ => RestKeepsSignals(s, op);
  }

  lemma CallMonotone(s: State, t: State, c: Call)
    requires CallInvariant(s, c) && s.signals <= t.signals && s.closings <= t.closings
    ensures CallInvariant(t, c)
  {}

  lemma SnapshotStep(s: State, op: Op)
    requires SignalInvariant(s) && op.Interrupt?
    requires IsIterationOf(op.order, Lookup(s.sessions, op.session, NO_SESSION).running)
    ensures CallInvariant(s, Snapshot(s, op))
  {
    if op.session in s.sessions {
      var st, order := s.sessions[op.session], op.order;
      CollectAll(order, st.done);
      forall k | 0 <= k < |order|
        ensures st.done[order[k]] < |s.signals| && s.signals[st.done[order[k]]] == (op.session, order[k])
      {
        assert order[k] in order;
        assert Live(s, op.session, order[k], st.done[order[k]]);
      }
    }
  }

  lemma ChoiceStep(s: State, c: Call, choice: Choice)
    requires c.Waiting? && CallInvariant(s, c) && Ready(s, c, choice)
    ensures CallInvariant(s, Chosen(c, choice))
  {}

  /** A call moves on only by its own step. */
  lemma CallMoves(s: State, op: Op, call: nat)
    requires call in Next(s, op).calls && !(call in s.calls && Next(s, op).calls[call] == s.calls[call])
    ensures Next(s, op).signals == s.signals && Next(s, op).closings == s.closings
    ensures match op
      case Interrupt(n, session, _, order) =>
        n == call && IsIterationOf(order, Lookup(s.sessions, session, NO_SESSION).running)
            && Next(s, op).calls[call] == Snapshot(s, op)
      case Select(n, choice) =>
        n == call && call in s.calls && s.calls[call].Waiting? && Ready(s, s.calls[call], choice)
        && Next(s, op).calls[call] == Chosen(s.calls[call], choice)
      case MarkInterrupted(n) => n == call && call in s.calls && s.calls[call].Snapshotted?
      case AskClient(n, _) => n == call && call in s.calls && s.calls[call].Marked?
      case _ => false
  {}

  lemma MarkingStep(s: State, call: nat)
    requires call in s.calls && s.calls[call].Snapshotted? && CallInvariant(s, s.calls[call])
    ensures CallInvariant(s, Marking(s, call).calls[call])
  {}

  lemma AskingStep(s: State, call: nat, accepted: bool)
    requires call in s.calls && s.calls[call].Marked? && CallInvariant(s, s.calls[call])
    ensures CallInvariant(s, Asking(s, call, accepted).calls[call])
  {}

  lemma CallStep(s: State, op: Op, call: nat)
    requires Invariant(s) && call in Next(s, op).calls
    ensures CallInvariant(Next(s, op), Next(s, op).calls[call])
  {
    var t := Next(s, op);
    if call in s.calls && t.calls[call] == s.calls[call] {
      SignalStep(s, op);
      CallMonotone(s, t, s.calls[call]);
    } else {
      CallMoves(s, op, call);
      match op {
        case Interrupt(_, _, _, _) => SnapshotStep(s, op);
        case Select(_, choice) => ChoiceStep(s, s.calls[call], choice);
        case MarkInterrupted(_) => MarkingStep(s, call);
        case AskClient(_, accepted) => AskingStep(s, call, accepted);
      }
      CallMonotone(s, t, t.calls[call]);
    }
  }

  lemma {:induction false} InvariantAlways(ops: seq<Op>)
    ensures Invariant(StateAfter(ops))
  {
    if ops != [] {
      var s, op := StateAfter(ops[..|ops| - 1]), ops[|ops| - 1];
      InvariantAlways(ops[..|ops| - 1]);
      SignalStep(s, op);
      forall call | call in Next(s, op).calls ensures CallInvariant(Next(s, op), Next(s, op).calls[call]) {
        CallStep(s, op, call);
      }
    }
  }

  // ---------------------------------------------------------------- interrupting really waits

  lemma {:induction false} CallKeepsItsRounds(ops: seq<Op>, from: nat, call: nat)
    requires from <= |ops| && call in StateAfter(ops[..from]).calls
    ensures call in StateAfter(ops).calls
    ensures var c0, c := StateAfter(ops[..from]).calls[call], StateAfter(ops).calls[call];
      c.session == c0.session && c.ids == c0.ids && c.signals == c0.signals
  {
    if |ops| == from {
      assert ops[..from] == ops;
    } else {
      var front := ops[..|ops| - 1];
      assert front[..from] == ops[..from];
      CallKeepsItsRounds(front, from, call);
      CallKept(StateAfter(front), ops[|ops| - 1], call);
    }
  }

  lemma CallKept(s: State, op: Op, call: nat)
    requires call in s.calls
    ensures call in Next(s, op).calls
    ensures var c0, c := s.calls[call], Next(s, op).calls[call];
      c.session == c0.session && c.ids == c0.ids && c.signals == c0.signals
  {}

  /** Step `j` marks the round finished while it runs under the signal `d`, and closes the signal. */
  ghost predicate EndsRound(ops: seq<Op>, j: nat, session: string, round: string, d: nat) {
    && j < |ops| && ops[j] == FinishRound(session, round)
    && Live(StateAfter(ops[..j]), session, round, d) && d !in StateAfter(ops[..j]).closings
    && d in StateAfter(ops[..j + 1]).closings
  }

  lemma EndsRoundStill(ops: seq<Op>, more: Op, j: nat, session: string, round: string, d: nat)
    requires EndsRound(ops, j, session, round, d)
    ensures EndsRound(ops + [more], j, session, round, d)
  {
    assert (ops + [more])[..j] == ops[..j] && (ops + [more])[..j + 1] == ops[..j + 1];
  }

  /** A signal that is closed now and was not closed then has been closed in between, by the
      end of the round it was made for. */
  lemma {:induction false} ClosedInBetween(ops: seq<Op>, from: nat, d: nat) returns (j: nat)
    requires from <= |ops|
    requires d !in StateAfter(ops[..from]).closings && d in StateAfter(ops).closings
    ensures d < |StateAfter(ops).signals| && from <= j
    ensures EndsRound(ops, j, StateAfter(ops).signals[d].0, StateAfter(ops).signals[d].1, d)
  {
    InvariantAlways(ops);
    assert ops[..|ops|] == ops;
    if from < |ops| {
      var front, op := ops[..|ops| - 1], ops[|ops| - 1];
      var s := StateAfter(front);
      assert front[..from] == ops[..from];
      InvariantAlways(front);
      SignalStep(s, op);
      assert ops == front + [op];
      if d in s.closings {
        j := ClosedInBetween(front, from, d);
        EndsRoundStill(front, op, j, s.signals[d].0, s.signals[d].1, d);
      } else {
        j := |front|;
        ClosedByLast(front, op, d);
      }
    }
  }

  lemma ClosedByLast(front: seq<Op>, op: Op, d: nat)
    requires SignalInvariant(StateAfter(front))
    requires d !in StateAfter(front).closings && d in StateAfter(front + [op]).closings
    ensures var s := StateAfter(front);
      d < |s.signals| && EndsRound(front + [op], |front|, s.signals[d].0, s.signals[d].1, d)
  {
    var ops := front + [op];
    assert ops[..|front|] == front && ops[..|front| + 1] == ops;
    ClosingStep(StateAfter(front), op, d);
  }

  lemma ClosingStep(s: State, op: Op, d: nat)
    requires SignalInvariant(s) && d !in s.closings && d in Next(s, op).closings
    ensures d < |s.signals| && op == FinishRound(s.signals[d].0, s.signals[d].1)
    ensures Live(s, s.signals[d].0, s.signals[d].1, d)
  {
    if !op.StartRound? && !op.FinishRound? { RestKeepsSignals(s, op); }
    var st := s.sessions[op.session];
    assert op.FinishRound? && op.round in st.done && d == st.done[op.round];
    assert Live(s, op.session, op.round, d);
  }

  /** The round that ran under some signal at step `at` has been ended since, under that signal. */
  ghost predicate EndedSince(ops: seq<Op>, at: nat, session: string, round: string) {
    exists j, d :: at < j < |ops| && Live(StateAfter(ops[..at]), session, round, d)
        && EndsRound(ops, j, session, round, d)
  }

  /** Step `at` is a first locked part of InterruptSession, with an iteration order of the
      running rounds; nothing is said of the other steps. */
  predicate InterruptsAt(ops: seq<Op>, at: nat, call: nat, session: string, reason: string, order: seq<string>) {
    && at < |ops| && ops[at] == Interrupt(call, session, reason, order)
    && call !in StateAfter(ops[..at]).calls
    && IsIterationOf(order, Lookup(StateAfter(ops[..at]).sessions, session, NO_SESSION).running)
  }

  lemma SnapshotIsKept(ops: seq<Op>, at: nat, call: nat, session: string, reason: string, order: seq<string>)
    requires InterruptsAt(ops, at, call, session, reason, order)
    ensures call in StateAfter(ops).calls
    ensures var c, c0 := StateAfter(ops).calls[call], Snapshot(StateAfter(ops[..at]), ops[at]);
      c.session == c0.session && c.ids == c0.ids && c.signals == c0.signals
  {
    assert ops[..at + 1][..at] == ops[..at];
    assert StateAfter(ops[..at + 1]).calls[call] == Snapshot(StateAfter(ops[..at]), ops[at]);
    CallKeepsItsRounds(ops, at + 1, call);
  }

  lemma RoundIsFinished(ops: seq<Op>, at: nat, call: nat, session: string, reason: string, order: seq<string>, k: nat)
    requires InterruptsAt(ops, at, call, session, reason, order)
    requires call in StateAfter(ops).calls && StateAfter(ops).calls[call].Returned? && StateAfter(ops).calls[call].ok
    requires session in StateAfter(ops[..at]).sessions && k < |order|
    ensures EndedSince(ops, at, session, order[k])
  {
    var s, c := StateAfter(ops[..at]), StateAfter(ops).calls[call];
    InvariantAlways(ops[..at]);
    InvariantAlways(ops);
    SnapshotIsKept(ops, at, call, session, reason, order);
    var st := s.sessions[session];
    CollectAll(order, st.done);
    assert order[k] in order;
    assert Live(s, session, order[k], st.done[order[k]]);
    var j := ClosedInBetween(ops, at, c.signals[k]);
    assert ops[at].Interrupt? && j != at;
  }

  /** The guarantee of InterruptSession, for every interleaving of every other step: when the
      call made at step `at` has returned without an error, it reports exactly the rounds that
      were running then, each of them has been marked finished since, by a step that found it still
      running under the signal it had then and closed that signal, and it has fired the captured
      cancels at most once. */
  lemma InterruptReallyWaits(ops: seq<Op>, at: nat, call: nat, session: string, reason: string, order: seq<string>)
    requires InterruptsAt(ops, at, call, session, reason, order)
    requires call in StateAfter(ops).calls && StateAfter(ops).calls[call].Returned? && StateAfter(ops).calls[call].ok
    ensures var c := StateAfter(ops).calls[call];
      var running := Lookup(StateAfter(ops[..at]).sessions, session, NO_SESSION).running;
      && IsIterationOf(c.ids, running)
      && (forall round :: round in running ==> EndedSince(ops, at, session, round))
      && c.firings <= 1
  {
    InvariantAlways(ops);
    SnapshotIsKept(ops, at, call, session, reason, order);
    var running := Lookup(StateAfter(ops[..at]).sessions, session, NO_SESSION).running;
    forall round | round in running ensures EndedSince(ops, at, session, round) {
      var k :| 0 <= k < |order| && order[k] == round by { assert round in order; }
      RoundIsFinished(ops, at, call, session, reason, order, k);
    }
  }

  // ---------------------------------------------------------------- overtaken by CloseSession

  ghost predicate Orphaned(s: State, d: nat) {
    && d < |s.signals| && d !in s.closings
    && forall session, round :: !Live(s, session, round, d)
  }

  lemma OrphanStep(s: State, op: Op, d: nat)
    requires SignalInvariant(s) && Orphaned(s, d)
    ensures Orphaned(Next(s, op), d)
  {
    var t := Next(s, op);
    SignalStep(s, op);
    if d in t.closings {
      ClosingStep(s, op, d);
    }
  }

  lemma {:induction false} OrphanForever(ops: seq<Op>, from: nat, d: nat)
    requires from <= |ops| && Orphaned(StateAfter(ops[..from]), d)
    ensures Orphaned(StateAfter(ops), d)
  {
    if |ops| == from {
      assert ops[..from] == ops;
    } else {
      var front := ops[..|ops| - 1];
      assert front[..from] == ops[..from];
      OrphanForever(front, from, d);
      InvariantAlways(front);
      OrphanStep(StateAfter(front), ops[|ops| - 1], d);
    }
  }

  /** Closing a session drops its done signals without closing them, so an interrupt that is
      still to wait for one of its rounds never returns without an error afterwards: only its
      own context can end it. */
  lemma OvertakenInterruptFails(ops: seq<Op>, at: nat, call: nat, k: nat)
    requires at < |ops| && call in StateAfter(ops[..at]).calls
    requires var c := StateAfter(ops[..at]).calls[call];
      ops[at] == CloseSession(c.session) && k < |c.ids| && k < |c.signals|
      && Live(StateAfter(ops[..at]), c.session, c.ids[k], c.signals[k])
    ensures call in StateAfter(ops).calls
    ensures var c := StateAfter(ops).calls[call]; !(c.Returned? && c.ok)
  {
    var s := StateAfter(ops[..at]);
    var c := s.calls[call];
    var d := c.signals[k];
    InvariantAlways(ops[..at]);
    InvariantAlways(ops);
    assert ops[..at + 1][..at] == ops[..at];
    var t := StateAfter(ops[..at + 1]);
    assert forall q, round :: Live(t, q, round, d) ==> Live(s, q, round, d);
    assert forall q, round :: Live(s, q, round, d) ==> s.signals[d] == (q, round);
    OrphanForever(ops, at + 1, d);
    CallKeepsItsRounds(ops, at, call);
  }

  // ---------------------------------------------------------------- when an interrupt can still succeed

  ghost predicate Named(s: State) {
    forall d :: 0 <= d < |s.signals| ==> s.signals[d].0 != "" && s.signals[d].1 != ""
  }

  lemma {:induction false} NamedAlways(ops: seq<Op>)
    ensures Named(StateAfter(ops))
  {
    if ops != [] {
      NamedAlways(ops[..|ops| - 1]);
      NamedStep(StateAfter(ops[..|ops| - 1]), ops[|ops| - 1]);
    }
  }

  lemma NamedStep(s: State, op: Op)
    requires Named(s)
    ensures Named(Next(s, op))
  {}

  /** The signal is closed, or its round still runs in a session that is still there. */
  predicate CanClose(s: State, d: nat) {
    d in s.closings
    || (d < |s.signals|
        && var session, round := s.signals[d].0, s.signals[d].1;
           session in s.sessions && round in s.sessions[session].done && s.sessions[session].done[round] == d)
  }

  /** The first signal a call has yet to wait for. */
  function FirstToWait(c: Call): nat {
    if c.Waiting? then c.next else 0
  }

  predicate AllCanClose(s: State, c: Call) {
    forall k :: FirstToWait(c) <= k < |c.signals| ==> CanClose(s, c.signals[k])
  }

  ghost predicate ReturnsOk(ops: seq<Op>, call: nat) {
    call in StateAfter(ops).calls && StateAfter(ops).calls[call].Returned? && StateAfter(ops).calls[call].ok
  }

  lemma RestKeepsCanClose(s: State, op: Op, d: nat)
    requires op.MarkInterrupted? || op.AskClient? || op.Select?
    requires CanClose(s, d)
    ensures CanClose(Next(s, op), d)
  {
    if d !in s.closings {
      RestKeepsSession(s, op, s.signals[d].0);
    }
  }

  lemma FinishKeepsCanClose(s: State, session: string, round: string, d: nat)
    requires SignalInvariant(s) && CanClose(s, d)
    ensures CanClose(Finishing(s, session, round), d)
  {
    if d !in s.closings {
      assert Live(s, s.signals[d].0, s.signals[d].1, d);
    }
  }

  lemma FinishCloses(s: State, d: nat)
    requires SignalInvariant(s) && Named(s) && CanClose(s, d)
    ensures d in s.closings || d in Finishing(s, s.signals[d].0, s.signals[d].1).closings
  {}

  lemma After(ops: seq<Op>, op: Op)
    ensures StateAfter(ops + [op]) == Next(StateAfter(ops), op)
  {
    assert (ops + [op])[..|ops|] == ops;
  }

  /** How many steps of its own a call still needs. */
  function StepsLeft(c: Call): nat {
    match c
    case Snapshotted(_, _, _, signals, _) => |signals| + 2
    case Marked(_, _, signals, _, _) => |signals| + 1
    case Waiting(_, _, signals, next, _, _) => if next <= |signals| then |signals| - next else 0
    case Returned(_, _, _, _, _) => 0
  }

  /** The next step of a call on its way to success, the client accepting the interruption. */
  function NextOf(c: Call, call: nat): Op {
    if c.Snapshotted? then MarkInterrupted(call)
    else if c.Marked? then AskClient(call, true)
    else Select(call, SignalClosed)
  }

  lemma OwnStep(s: State, call: nat)
    requires call in s.calls && !s.calls[call].Returned? && CallInvariant(s, s.calls[call])
        && AllCanClose(s, s.calls[call])
    requires s.calls[call].Waiting? ==> s.calls[call].signals[s.calls[call].next] in s.closings
    ensures var t := Next(s, NextOf(s.calls[call], call));
      && call in t.calls && StepsLeft(t.calls[call]) < StepsLeft(s.calls[call])
      && (t.calls[call].Returned? ==> t.calls[call].ok)
      && AllCanClose(t, t.calls[call])
  {
    var c, op := s.calls[call], NextOf(s.calls[call], call);
    var t := Next(s, op);
    assert t.calls[call].signals == c.signals;
    forall k | 0 <= k < |c.signals| ensures CanClose(t, c.signals[k]) {
      assert k < FirstToWait(c) ==> c.signals[k] in s.closings;
      RestKeepsCanClose(s, op, c.signals[k]);
    }
  }

  /** A continuation in which the call returns without an error: the rounds it waits for end one
      after the other. */
  lemma {:induction false} Complete(ops: seq<Op>, call: nat) returns (more: seq<Op>)
    requires call in StateAfter(ops).calls && !StateAfter(ops).calls[call].Returned?
    requires AllCanClose(StateAfter(ops), StateAfter(ops).calls[call])
    ensures ReturnsOk(ops + more, call)
    decreases StepsLeft(StateAfter(ops).calls[call])
  {
    more := Proceed(ops, call);
    if !StateAfter(ops + more).calls[call].Returned? {
      var rest := Complete(ops + more, call);
      assert ops + (more + rest) == ops + more + rest;
      more := more + rest;
    }
  }

  /** The call takes a step of its own, once it can. */
  lemma Proceed(ops: seq<Op>, call: nat) returns (more: seq<Op>)
    requires call in StateAfter(ops).calls && !StateAfter(ops).calls[call].Returned?
    requires AllCanClose(StateAfter(ops), StateAfter(ops).calls[call])
    ensures var c, t := StateAfter(ops).calls[call], StateAfter(ops + more);
      && call in t.calls && StepsLeft(t.calls[call]) < StepsLeft(c)
      && (t.calls[call].Returned? ==> t.calls[call].ok)
      && AllCanClose(t, t.calls[call])
  {
    var ready := MakeReady(ops, call);
    var all := ops + ready;
    var s := StateAfter(all);
    InvariantAlways(all);
    OwnStep(s, call);
    var op := NextOf(s.calls[call], call);
    After(all, op);
    more := ready + [op];
    assert ops + more == all + [op];
  }

  /** The round of the signal awaited ends, unless it has. */
  lemma MakeReady(ops: seq<Op>, call: nat) returns (ready: seq<Op>)
    requires call in StateAfter(ops).calls && !StateAfter(ops).calls[call].Returned?
    requires AllCanClose(StateAfter(ops), StateAfter(ops).calls[call])
    ensures var s, t := StateAfter(ops), StateAfter(ops + ready);
      && call in t.calls && t.calls[call] == s.calls[call] && AllCanClose(t, t.calls[call])
      && (t.calls[call].Waiting?
          ==> t.calls[call].next < |t.calls[call].signals| && t.calls[call].signals[t.calls[call].next] in t.closings)
  {
    var s := StateAfter(ops);
    var c := s.calls[call];
    InvariantAlways(ops);
    NamedAlways(ops);
    ready := [];
    assert ops + ready == ops;
    if c.Waiting? && c.signals[c.next] !in s.closings {
      var d := c.signals[c.next];
      var op := FinishRound(s.signals[d].0, s.signals[d].1);
      ready := [op];
      After(ops, op);
      FinishCloses(s, d);
      forall k | c.next <= k < |c.signals| ensures CanClose(Next(s, op), c.signals[k]) {
        FinishKeepsCanClose(s, op.session, op.round, c.signals[k]);
      }
    }
  }

  lemma NeverOk(ops: seq<Op>, call: nat, more: seq<Op>, k: nat)
    requires call in StateAfter(ops).calls
        && FirstToWait(StateAfter(ops).calls[call]) <= k < |StateAfter(ops).calls[call].signals|
    requires !CanClose(StateAfter(ops), StateAfter(ops).calls[call].signals[k])
    ensures !ReturnsOk(ops + more, call)
  {
    var s, all := StateAfter(ops), ops + more;
    var d := s.calls[call].signals[k];
    InvariantAlways(ops);
    InvariantAlways(all);
    assert all[..|ops|] == ops;
    assert Orphaned(s, d);
    OrphanForever(all, |ops|, d);
    CallKeepsItsRounds(all, |ops|, call);
  }

  /** The exact condition, for every reachable state: a call that has not returned can still return
      without an error, in some continuation of the run, if and only if each signal it has yet to
      wait for is closed or belongs to a round that still runs in its session. */
  lemma CanStillSucceed(ops: seq<Op>, call: nat)
    requires call in StateAfter(ops).calls && !StateAfter(ops).calls[call].Returned?
    ensures (exists more :: ReturnsOk(ops + more, call)) <==> AllCanClose(StateAfter(ops), StateAfter(ops).calls[call])
  {
    var s := StateAfter(ops);
    if AllCanClose(s, s.calls[call]) {
      var more := Complete(ops, call);
      assert ReturnsOk(ops + more, call);
    } else {
      var k :| FirstToWait(s.calls[call]) <= k < |s.calls[call].signals| && !CanClose(s, s.calls[call].signals[k]);
      forall more ensures !ReturnsOk(ops + more, call) {
        NeverOk(ops, call, more, k);
      }
    }
  }

  /** A round, a client, an interrupt, and the session closed before the client is asked. */
  function OvertakenRun(): seq<Op> {
    [StartRound("s", "r", None), AttachClient("s"), Interrupt(0, "s", "", ["r"]), CloseSession("s")]
  }

  /** The interrupt of that run is under way and can no longer succeed. */
  lemma OvertakenRunFails()
    ensures 0 in StateAfter(OvertakenRun()).calls && !StateAfter(OvertakenRun()).calls[0].Returned?
    ensures forall more :: !ReturnsOk(OvertakenRun() + more, 0)
  {
    var ops := OvertakenRun();
    var one, two, three := ops[..1], ops[..2], ops[..3];
    assert one == [] + [ops[0]] && two == one + [ops[1]] && three == two + [ops[2]] && ops == three + [ops[3]];
    After([], ops[0]);
    After(one, ops[1]);
    After(two, ops[2]);
    After(three, ops[3]);
    var st := StateAfter(two).sessions["s"];
    assert st.running == {"r"} && st.done == map["r" := 0];
    assert IsIterationOf(["r"], st.running);
    assert ["r"][1..] == [];
    assert Collect(["r"], st.done) == [0];
    assert StateAfter(ops).calls[0].signals == [0] && StateAfter(ops).signals == [("s", "r")];
    forall more ensures !ReturnsOk(ops + more, 0) {
      NeverOk(ops, 0, more, 0);
    }
  }

  // ---------------------------------------------------------------- guidance is conserved

  datatype GuidanceEvent = Accepted(input: Guidance) | Drained(inputs: seq<Guidance>) | Discarded(inputs: seq<Guidance>)

  function Pending(s: State, session: string): seq<Guidance> {
    Lookup(s.sessions, session, NO_SESSION).guided
  }

  /** What one step does with the guidance of a session: inputs it accepts, hands to the hook,
      or throws away because the last running round ended or the session closed. */
  function GuidanceOf(s: State, op: Op, session: string): seq<GuidanceEvent> {
    if session !in s.sessions then []
    else
      var st := s.sessions[session];
      match op
      case Queue(q, round, content) =>
        if q == session && Accepts(s, session, content) then [Accepted(Guidance(round, content))] else []
      case Drain(q) => if q == session then [Drained(st.guided)] else []
      case FinishRound(q, round) =>
        if q == session && q != "" && round != "" && st.running - {round} == {} then [Discarded(st.guided)] else []
      case CloseSession(q) => if q == session then [Discarded(st.guided)] else []
      case _ => []
  }

  function GuidanceTrace(ops: seq<Op>, session: string): seq<GuidanceEvent> {
    if ops == [] then []
    else GuidanceTrace(ops[..|ops| - 1], session) + GuidanceOf(StateAfter(ops[..|ops| - 1]), ops[|ops| - 1], session)
  }

  function Entered(trace: seq<GuidanceEvent>): seq<Guidance> {
    if trace == [] then []
    else
      var e := trace[|trace| - 1];
      Entered(trace[..|trace| - 1]) + if e.Accepted? then [e.input] else []
  }

  function Left(trace: seq<GuidanceEvent>): seq<Guidance> {
    if trace == [] then []
    else
      var e := trace[|trace| - 1];
      Left(trace[..|trace| - 1]) + if e.Accepted? then [] else e.inputs
  }

  /** Over every run, the inputs accepted for a session are, in order of acceptance, exactly
      those drained or discarded so far followed by those still pending: each is handed out
      once or thrown away once, first in first out. Nothing is pending unless a round runs. */
  lemma {:induction false} GuidanceIsConserved(ops: seq<Op>, session: string)
    ensures var trace, s := GuidanceTrace(ops, session), StateAfter(ops);
      && Entered(trace) == Left(trace) + Pending(s, session)
      && (Pending(s, session) != [] ==> s.sessions[session].running != {})
  {
    InvariantAlways(ops);
    AcceptedLeavesInOrder(ops, session);
  }

  lemma {:induction false} AcceptedLeavesInOrder(ops: seq<Op>, session: string)
    ensures var trace := GuidanceTrace(ops, session); Entered(trace) == Left(trace) + Pending(StateAfter(ops), session)
  {
    if ops != [] {
      var front, op := ops[..|ops| - 1], ops[|ops| - 1];
      AcceptedLeavesInOrder(front, session);
      PendingStep(StateAfter(front), op, session);
      TraceStep(GuidanceTrace(front, session), GuidanceOf(StateAfter(front), op, session),
                Pending(StateAfter(front), session), Pending(StateAfter(ops), session));
    }
  }

  lemma TraceStep(trace: seq<GuidanceEvent>, e: seq<GuidanceEvent>, pending: seq<Guidance>, after: seq<Guidance>)
    requires Entered(trace) == Left(trace) + pending && |e| <= 1
    requires after == (if e == [] then pending else if e[0].Accepted? then pending + [e[0].input] else [])
    requires e != [] && !e[0].Accepted? ==> e[0].inputs == pending
    ensures Entered(trace + e) == Left(trace + e) + after
  {
    if e == [] {
      assert trace + e == trace;
    } else {
      assert (trace + e)[..|trace|] == trace;
    }
  }

  lemma PendingStep(s: State, op: Op, session: string)
    ensures var e, t := GuidanceOf(s, op, session), Next(s, op);
      && |e| <= 1
      && Pending(t, session)
         == (if e == [] then Pending(s, session) else if e[0].Accepted? then Pending(s, session) + [e[0].input] else [])
      && (e != [] && !e[0].Accepted? ==> e[0].inputs == Pending(s, session))
  {
    match op
    case StartRound(q, round, cancel) =>
      if q != "" && round != "" { PutPending(s, q, Starting(s, q, round, cancel).sessions[q], session); }
    case FinishRound(q, round) =>
      if q != "" && round != "" && q in s.sessions { PutPending(s, q, Finished(s.sessions[q], round), session); }
    case CloseSession(_) =>
    case AttachClient(q) => PutPending(s, q, Attaching(s, q).sessions[q], session);
    case Queue(q, round, content) => QueueStep(s, q, round, content, session);
    case Drain(q) =>
      if q in s.sessions { PutPending(s, q, Draining(s, q).sessions[q], session); }
    case Interrupt(_, _, _, _) => OnlyCallsChange(s, op);
    case MarkInterrupted(call) =>
      if call in s.calls && s.calls[call].Snapshotted? {
        var q := s.calls[call].session;
        PutPending(s, q, Marking(s, call).sessions[q], session);
      }
    case AskClient(_, _) => OnlyCallsChange(s, op);
    case Select(_, _) => OnlyCallsChange(s, op);
  }

  lemma QueueStep(s: State, q: string, round: string, content: string, session: string)
    ensures Pending(Queueing(s, q, round, content), session)
         == Pending(s, session) + if q == session && Accepts(s, q, content) then [Guidance(round, content)] else []
  {}

  lemma OnlyCallsChange(s: State, op: Op)
    requires op.Interrupt? || op.AskClient? || op.Select?
    ensures Next(s, op).sessions == s.sessions
  {}

  lemma PutPending(s: State, q: string, st: Session, session: string)
    ensures Pending(Put(s, q, st), session) == if q == session then st.guided else Pending(s, session)
  {}
}

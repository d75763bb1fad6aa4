/** What the runtime manager holds, told from the operations alone: which rounds run, under which
    signal and cancel, which reason an interrupted round has, and what an interrupt captures and
    fires. */
module RuntimeHistory {
  import opened Histories
  import opened Options
  import opened RuntimeRounds

  // ---------------------------------------------------------------- rounds and cancels

  function StartsOf(session: string, round: string): Op -> bool {
    (op: Op) => op.StartRound? && op.session == session && op.round == round
  }

  function EndsOf(session: string, round: string): Op -> bool {
    (op: Op) => op == FinishRound(session, round) || op == CloseSession(session)
  }

  /** The round was started and since then neither finished nor its session closed. */
  ghost predicate Runs(ops: seq<Op>, session: string, round: string) {
    Stands(ops, StartsOf(session, round), EndsOf(session, round))
  }

  function Brings(session: string, round: string, cancel: nat): Op -> bool {
    (op: Op) => op == StartRound(session, round, Some(cancel))
  }

  function Replaces(session: string, round: string): Op -> bool {
    (op: Op) =>
      op == FinishRound(session, round) || op == CloseSession(session)
      || (op.StartRound? && op.session == session && op.round == round && op.cancel.Some?)
  }

  /** The cancel is the last one a start of the round brought since the round last began running. */
  ghost predicate LastBrought(ops: seq<Op>, session: string, round: string, cancel: nat) {
    Stands(ops, Brings(session, round, cancel), Replaces(session, round))
  }

  predicate RunsIn(s: State, session: string, round: string) {
    session in s.sessions && round in s.sessions[session].running
  }

  predicate HasCancel(s: State, session: string, round: string, cancel: nat) {
    session in s.sessions && round in s.sessions[session].cancels && s.sessions[session].cancels[round] == cancel
  }

  lemma RoundStep(s: State, op: Op, session: string, round: string, cancel: nat)
    requires session != "" && round != ""
    ensures RunsIn(Next(s, op), session, round) <==>
      StartsOf(session, round)(op) || (RunsIn(s, session, round) && !EndsOf(session, round)(op))
    ensures HasCancel(Next(s, op), session, round, cancel) <==>
      Brings(session, round, cancel)(op) || (HasCancel(s, session, round, cancel) && !Replaces(session, round)(op))
  {
    match op
    case StartRound(q, r, c) => StartedStep(s, q, r, c, session, round, cancel);
    case FinishRound(q, r) => FinishedStep(s, q, r, session, round, cancel);
    case _ => RestStep(s, op, session, round, cancel);
  }

  lemma StartedStep(s: State, q: string, r: string, c: Option<nat>, session: string, round: string, cancel: nat)
    requires session != "" && round != ""
    ensures var t := RuntimeRounds.Starting(s, q, r, c);
      && (RunsIn(t, session, round) <==> (q == session && r == round) || RunsIn(s, session, round))
      && (HasCancel(t, session, round, cancel) <==>
            if q == session && r == round && c.Some? then c.value == cancel else HasCancel(s, session, round, cancel))
  {}

  lemma FinishedStep(s: State, q: string, r: string, session: string, round: string, cancel: nat)
    requires session != "" && round != ""
    ensures var t := Finishing(s, q, r);
      && (RunsIn(t, session, round) <==> RunsIn(s, session, round) && !(q == session && r == round))
      && (HasCancel(t, session, round, cancel) <==>
            HasCancel(s, session, round, cancel) && !(q == session && r == round))
  {}

  lemma RestStep(s: State, op: Op, session: string, round: string, cancel: nat)
    requires !op.StartRound? && !op.FinishRound?
    ensures RunsIn(Next(s, op), session, round) <==> RunsIn(s, session, round) && op != CloseSession(session)
    ensures HasCancel(Next(s, op), session, round, cancel) <==>
      HasCancel(s, session, round, cancel) && op != CloseSession(session)
  {
    if session in Next(s, op).sessions {
      RestKeepsSession(s, op, session);
    }
  }

  /** Over every run: a round runs exactly if it was started and has not ended since, and its cancel
      is exactly the last one brought by a start since it last began running. */
  lemma {:induction false} RoundsAre(ops: seq<Op>, session: string, round: string, cancel: nat)
    requires session != "" && round != ""
    ensures RunsIn(StateAfter(ops), session, round) <==> Runs(ops, session, round)
    ensures HasCancel(StateAfter(ops), session, round, cancel) <==> LastBrought(ops, session, round, cancel)
    decreases |ops|
  {
    if ops != [] {
      var front, op := ops[..|ops| - 1], ops[|ops| - 1];
      assert ops == front + [op];
      RoundsAre(front, session, round, cancel);
      StandsMore(front, op, StartsOf(session, round), EndsOf(session, round));
      StandsMore(front, op, Brings(session, round, cancel), Replaces(session, round));
      RoundStep(StateAfter(front), op, session, round, cancel);
    }
  }

  /** A round started again while it runs keeps its signal. */
  lemma SignalStep(s: State, op: Op, session: string, round: string, d: nat)
    requires session != "" && round != "" && Live(s, session, round, d) && !EndsOf(session, round)(op)
    ensures Live(Next(s, op), session, round, d)
  {
    if !op.StartRound? && !op.FinishRound? {
      StaysThere(s, op, session);
      RestKeepsSession(s, op, session);
    }
  }

  lemma StaysThere(s: State, op: Op, session: string)
    requires session in s.sessions && op != CloseSession(session)
    ensures session in Next(s, op).sessions
  {}

  /** A round keeps its done signal, open, for as long as it runs. */
  lemma {:induction false} SignalStaysLive(ops: seq<Op>, from: nat, session: string, round: string, d: nat)
    requires from <= |ops| && session != "" && round != "" && Live(StateAfter(ops[..from]), session, round, d)
    requires forall j :: from <= j < |ops| ==> !EndsOf(session, round)(ops[j])
    ensures Live(StateAfter(ops), session, round, d) && d !in StateAfter(ops).closings
    decreases |ops|
  {
    InvariantAlways(ops);
    if from == |ops| {
      assert ops[..from] == ops;
    } else {
      var front, op := ops[..|ops| - 1], ops[|ops| - 1];
      assert front[..from] == ops[..from];
      SignalStaysLive(front, from, session, round, d);
      SignalStep(StateAfter(front), op, session, round, d);
    }
  }

  // ---------------------------------------------------------------- clients

  function AttachingTo(session: string): Op -> bool {
    (op: Op) => op == AttachClient(session)
  }

  function Closing(session: string): Op -> bool {
    (op: Op) => op == CloseSession(session)
  }

  ghost predicate Attached(ops: seq<Op>, session: string) {
    Stands(ops, AttachingTo(session), Closing(session))
  }

  predicate HasClient(s: State, session: string) {
    session in s.sessions && s.sessions[session].hasClient
  }

  lemma ClientStep(s: State, op: Op, session: string)
    ensures HasClient(Next(s, op), session) <==>
      op == AttachClient(session) || (HasClient(s, session) && op != CloseSession(session))
  {}

  lemma {:induction false} ClientsAre(ops: seq<Op>, session: string)
    ensures HasClient(StateAfter(ops), session) <==> Attached(ops, session)
    decreases |ops|
  {
    if ops != [] {
      var front, op := ops[..|ops| - 1], ops[|ops| - 1];
      assert ops == front + [op];
      ClientsAre(front, session);
      StandsMore(front, op, AttachingTo(session), Closing(session));
      ClientStep(StateAfter(front), op, session);
    }
  }

  // ---------------------------------------------------------------- what an interrupt captures

  /** The rounds of a list that have a cancel. */
  function WithCancel(order: seq<string>, m: map<string, nat>): set<nat> {
    set k: nat | k < |order| && order[k] in m
  }

  lemma {:induction false} CollectMembers(order: seq<string>, m: map<string, nat>, cancel: nat)
    ensures cancel in Collect(order, m) <==> exists round :: round in order && round in m && m[round] == cancel
  {
    if order != [] {
      CollectMembers(order[1..], m, cancel);
      assert order == [order[0]] + order[1..];
    }
  }

  lemma {:induction false} CollectCount(order: seq<string>, m: map<string, nat>)
    ensures |Collect(order, m)| == |WithCancel(order, m)|
    decreases |order|
  {
    if order == [] {
      assert WithCancel(order, m) == {};
    } else {
      var n := |order| - 1;
      CollectCount(order[..n], m);
      CollectLast(order[..n], order[n], m);
      assert order == order[..n] + [order[n]];
      assert WithCancel(order, m) == WithCancel(order[..n], m) + if order[n] in m then {n as nat} else {};
    }
  }

  lemma {:induction false} CollectLast(order: seq<string>, last: string, m: map<string, nat>)
    ensures Collect(order + [last], m) == Collect(order, m) + if last in m then [m[last]] else []
  {
    if order != [] {
      CollectLast(order[1..], last, m);
      assert (order + [last])[1..] == order[1..] + [last];
    }
  }

  ghost predicate Brought(ops: seq<Op>, session: string, round: string) {
    exists cancel :: LastBrought(ops, session, round, cancel)
  }

  lemma CancelOf(ops: seq<Op>, session: string, round: string)
    requires session != "" && round != ""
    ensures Brought(ops, session, round) <==>
      session in StateAfter(ops).sessions && round in StateAfter(ops).sessions[session].cancels
  {
    var s := StateAfter(ops);
    if session in s.sessions && round in s.sessions[session].cancels {
      RoundsAre(ops, session, round, s.sessions[session].cancels[round]);
    }
    if cancel :| LastBrought(ops, session, round, cancel) {
      RoundsAre(ops, session, round, cancel);
    }
  }

  lemma RunningAreNamed(ops: seq<Op>, session: string, round: string)
    requires RunsIn(StateAfter(ops), session, round)
    ensures session != "" && round != ""
  {
    var s := StateAfter(ops);
    InvariantAlways(ops);
    NamedAlways(ops);
    assert Live(s, session, round, s.sessions[session].done[round]);
  }

  /** Which cancels the first locked part of an interrupt captures: one for each round it reports that
      has a cancel, and it is that round's. */
  lemma CapturedAre(ops: seq<Op>, at: nat, call: nat, session: string, reason: string, order: seq<string>)
    requires InterruptsAt(ops, at, call, session, reason, order) && order != []
    ensures forall round :: round in order <==> Runs(ops[..at], session, round) && round != ""
    ensures call in StateAfter(ops[..at + 1]).calls
    ensures var c := StateAfter(ops[..at + 1]).calls[call];
      && c.Snapshotted? && c.session == session && c.reason == reason && c.ids == order
      && (forall cancel :: cancel in c.cancels <==>
            exists round :: round in order && LastBrought(ops[..at], session, round, cancel))
      && |c.cancels| == |(set k: nat | k < |order| && Brought(ops[..at], session, order[k]))|
  {
    var front := ops[..at];
    var s := StateAfter(front);
    assert ops[..at + 1][..at] == front;
    assert order[0] in order;
    RunningAreNamed(front, session, order[0]);
    CapturedRounds(front, session, order);
    CapturedCancels(front, session, order);
  }

  lemma CapturedRounds(ops: seq<Op>, session: string, order: seq<string>)
    requires session != "" && IsIterationOf(order, Lookup(StateAfter(ops).sessions, session, NO_SESSION).running)
    ensures forall round :: round in order <==> Runs(ops, session, round) && round != ""
  {
    forall round ensures round in order <==> Runs(ops, session, round) && round != "" {
      if round in order {
        RunningAreNamed(ops, session, round);
      }
      if round != "" {
        RoundsAre(ops, session, round, 0);
      }
    }
  }

  lemma CapturedCancels(ops: seq<Op>, session: string, order: seq<string>)
    requires session in StateAfter(ops).sessions && session != ""
    requires IsIterationOf(order, StateAfter(ops).sessions[session].running)
    ensures var captured := Collect(order, StateAfter(ops).sessions[session].cancels);
      && (forall cancel :: cancel in captured <==>
            exists round :: round in order && LastBrought(ops, session, round, cancel))
      && |captured| == |(set k: nat | k < |order| && Brought(ops, session, order[k]))|
  {
    var cancels := StateAfter(ops).sessions[session].cancels;
    forall round | round in order ensures round != "" && (Brought(ops, session, round) <==> round in cancels) {
      RunningAreNamed(ops, session, round);
      CancelOf(ops, session, round);
    }
    CollectCount(order, cancels);
    assert WithCancel(order, cancels) == (set k: nat | k < |order| && Brought(ops, session, order[k]));
    forall cancel
      ensures cancel in Collect(order, cancels)
          <==> exists round :: round in order && LastBrought(ops, session, round, cancel)
    {
      CollectMembers(order, cancels, cancel);
      forall round | round in order
        ensures LastBrought(ops, session, round, cancel) <==> round in cancels && cancels[round] == cancel
      {
        RoundsAre(ops, session, round, cancel);
      }
    }
  }

  /** Until the client is asked the call keeps what it captured. */
  lemma {:induction false} CapturedStay(ops: seq<Op>, from: nat, call: nat)
    requires from <= |ops| && call in StateAfter(ops[..from]).calls && StateAfter(ops[..from]).calls[call].Snapshotted?
    ensures call in StateAfter(ops).calls
    ensures var c0, c := StateAfter(ops[..from]).calls[call], StateAfter(ops).calls[call];
      && (c.Snapshotted? ==> c == c0)
      && (c.Marked?
          ==> c.session == c0.session && c.ids == c0.ids && c.signals == c0.signals && c.cancels == c0.cancels)
    decreases |ops|
  {
    if from == |ops| {
      assert ops[..from] == ops;
    } else {
      var front, op := ops[..|ops| - 1], ops[|ops| - 1];
      assert front[..from] == ops[..from];
      CapturedStay(front, from, call);
      CallKeptStep(StateAfter(front), op, call);
    }
  }

  lemma CallKeptStep(s: State, op: Op, call: nat)
    requires call in s.calls
    ensures call in Next(s, op).calls
    ensures var c0, c := s.calls[call], Next(s, op).calls[call];
      && (c.Snapshotted? ==> c == c0)
      && (c.Marked? ==> (c0.Snapshotted? || c0 == c) && c.session == c0.session && c.ids == c0.ids
                        && c.signals == c0.signals && c.cancels == c0.cancels)
  {}

  // ---------------------------------------------------------------- when they are fired

  predicate IsMarked(s: State, op: Op, call: nat) {
    op == MarkInterrupted(call) && call in s.calls && s.calls[call].Snapshotted?
  }

  predicate IsTimedOut(s: State, op: Op, call: nat) {
    op == Select(call, TimerFired) && call in s.calls && s.calls[call].Waiting?
  }

  predicate IsRefused(s: State, op: Op, call: nat) {
    op == AskClient(call, false) && call in s.calls && s.calls[call].Marked? && s.calls[call].hasClient
  }

  predicate IsGivenUp(s: State, op: Op, call: nat) {
    op == Select(call, ContextDone) && call in s.calls && s.calls[call].Waiting?
  }

  predicate FailsBy(s: State, op: Op, call: nat) {
    IsRefused(s, op, call) || IsGivenUp(s, op, call)
  }

  predicate IsMarkedAlone(s: State, op: Op, call: nat) {
    IsMarked(s, op, call) && !HasClient(s, s.calls[call].session)
  }

  ghost predicate HappensAt(ops: seq<Op>, j: nat, what: (State, Op) -> bool) {
    j < |ops| && what(StateAfter(ops[..j]), ops[j])
  }

  ghost predicate Happened(ops: seq<Op>, what: (State, Op) -> bool) {
    exists j :: HappensAt(ops, j, what)
  }

  lemma HappenedMore(ops: seq<Op>, op: Op, what: (State, Op) -> bool)
    ensures Happened(ops + [op], what) <==> Happened(ops, what) || what(StateAfter(ops), op)
  {
    var all := ops + [op];
    assert all[..|ops|] == ops;
    forall j: nat | j < |ops| ensures HappensAt(all, j, what) <==> HappensAt(ops, j, what) {
      assert all[..j] == ops[..j];
    }
    assert HappensAt(all, |ops|, what) <==> what(StateAfter(ops), op);
    if j: nat :| HappensAt(all, j, what) {
      assert j < |ops| ==> HappensAt(ops, j, what);
    }
    if j: nat :| HappensAt(ops, j, what) {
      assert HappensAt(all, j, what);
    }
  }

  /** When the call was marked the session had no client. */
  ghost predicate FoundNoClient(ops: seq<Op>, call: nat) {
    Happened(ops, (s, op) => IsMarkedAlone(s, op, call))
  }

  /** The timer went off while the call was waiting. */
  ghost predicate TimedOut(ops: seq<Op>, call: nat) {
    Happened(ops, (s, op) => IsTimedOut(s, op, call))
  }

  /** The client refused, or the caller's context ended while the call was waiting. */
  ghost predicate Failed(ops: seq<Op>, call: nat) {
    Happened(ops, (s, op) => FailsBy(s, op, call))
  }

  lemma PastMore(ops: seq<Op>, op: Op, call: nat)
    ensures var s, all := StateAfter(ops), ops + [op];
      && (FoundNoClient(all, call) <==> FoundNoClient(ops, call) || IsMarkedAlone(s, op, call))
      && (TimedOut(all, call) <==> TimedOut(ops, call) || IsTimedOut(s, op, call))
      && (Failed(all, call) <==> Failed(ops, call) || FailsBy(s, op, call))
  {
    HappenedMore(ops, op, (s, op) => IsMarkedAlone(s, op, call));
    HappenedMore(ops, op, (s, op) => IsTimedOut(s, op, call));
    HappenedMore(ops, op, (s, op) => FailsBy(s, op, call));
  }

  ghost predicate FiringFits(c: Call, alone: bool, timedOut: bool, failed: bool) {
    match c
    case Snapshotted(_, _, _, _, _) => !alone && !timedOut && !failed
    case Marked(_, _, _, _, hasClient) => (alone <==> !hasClient) && !timedOut && !failed
    case Waiting(_, _, _, _, forced, firings) =>
      (forced <==> alone || timedOut) && firings == (if forced then 1 else 0) && !failed
    case Returned(_, _, _, ok, firings) => firings == (if alone || timedOut then 1 else 0) && (ok <==> !failed)
  }

  lemma FiringStep(s: State, op: Op, call: nat, alone: bool, timedOut: bool, failed: bool)
    requires call in s.calls && FiringFits(s.calls[call], alone, timedOut, failed)
    ensures call in Next(s, op).calls
    ensures FiringFits(Next(s, op).calls[call],
                       alone || IsMarkedAlone(s, op, call),
                       timedOut || IsTimedOut(s, op, call),
                       failed || FailsBy(s, op, call))
  {}

  lemma NothingYet(s: State, op: Op, call: nat)
    requires call !in s.calls
    ensures !IsMarked(s, op, call) && !IsTimedOut(s, op, call) && !FailsBy(s, op, call)
    ensures call in Next(s, op).calls ==> FiringFits(Next(s, op).calls[call], false, false, false)
  {}

  lemma {:induction false} FiringAlwaysFits(ops: seq<Op>, call: nat)
    ensures if call in StateAfter(ops).calls
            then FiringFits(StateAfter(ops).calls[call], FoundNoClient(ops, call), TimedOut(ops, call),
                Failed(ops, call))
            else !FoundNoClient(ops, call) && !TimedOut(ops, call) && !Failed(ops, call)
    decreases |ops|
  {
    if ops != [] {
      var front, op := ops[..|ops| - 1], ops[|ops| - 1];
      assert ops == front + [op];
      FiringAlwaysFits(front, call);
      PastMore(front, op, call);
      if call in StateAfter(front).calls {
        FiringStep(StateAfter(front), op, call, FoundNoClient(front, call), TimedOut(front, call), Failed(front, call));
      } else {
        NothingYet(StateAfter(front), op, call);
      }
    }
  }

  /** How a call of InterruptSession comes out, in every run: it fires the captured cancels, once,
      exactly if the session had no client when the call was marked or the timer went off while it was
      waiting; and it returns an error exactly if the client refused or its context ended first. */
  lemma InterruptComesOut(ops: seq<Op>, call: nat)
    requires call in StateAfter(ops).calls && StateAfter(ops).calls[call].Returned?
    ensures var c := StateAfter(ops).calls[call];
      && c.firings == (if FoundNoClient(ops, call) || TimedOut(ops, call) then 1 else 0)
      && (c.ok <==> !Failed(ops, call))
  {
    FiringAlwaysFits(ops, call);
  }

  /** CloseSession fires a cancel for a round exactly if the session has a client and the cancel is the
      last one brought for the round. */
  lemma ClosingFires(ops: seq<Op>, session: string, round: string, cancel: nat)
    requires session != "" && round != ""
    ensures HasClient(StateAfter(ops), session) && HasCancel(StateAfter(ops), session, round, cancel) <==>
      Attached(ops, session) && LastBrought(ops, session, round, cancel)
  {
    ClientsAre(ops, session);
    RoundsAre(ops, session, round, cancel);
  }

  // ---------------------------------------------------------------- interrupt reasons

  datatype ReasonEvent = Untouched | Cleared | Recorded(reason: string)

  /** What a step does to the reason recorded for a round: the second locked part of an interrupt that
      reports the round records its own. */
  function ReasonEventOf(s: State, op: Op, session: string, round: string): ReasonEvent {
    if StartsOf(session, round)(op) || EndsOf(session, round)(op) then Cleared
    else if op.MarkInterrupted? && op.call in s.calls && s.calls[op.call].Snapshotted?
            && s.calls[op.call].session == session && round in s.calls[op.call].ids
    then Recorded(s.calls[op.call].reason)
    else Untouched
  }

  function ReasonEvents(ops: seq<Op>, session: string, round: string): seq<ReasonEvent> {
    if ops == [] then []
    else
      var front, op := ops[..|ops| - 1], ops[|ops| - 1];
      ReasonEvents(front, session, round) + [ReasonEventOf(StateAfter(front), op, session, round)]
  }

  function Recording(reason: string): ReasonEvent -> bool {
    (e: ReasonEvent) => e == Recorded(reason)
  }

  function Touching(): ReasonEvent -> bool {
    (e: ReasonEvent) => e != Untouched
  }

  predicate HasReason(s: State, session: string, round: string, reason: string) {
    && session in s.sessions && round in s.sessions[session].interruptions
    && s.sessions[session].interruptions[round] == reason
  }

  lemma {:induction false} WithReasonAt(m: map<string, string>, ids: seq<string>, reason: string, round: string)
    ensures var r := WithReason(m, ids, reason);
      && (round in r <==> round in m || round in ids)
      && (round in r ==> r[round] == if round in ids then reason else m[round])
    decreases |ids|
  {
    if ids != [] {
      WithReasonAt(m[ids[0] := reason], ids[1..], reason, round);
      assert ids == [ids[0]] + ids[1..];
    }
  }

  lemma ReasonStep(s: State, op: Op, session: string, round: string, reason: string)
    requires session != "" && round != ""
    ensures var e := ReasonEventOf(s, op, session, round);
      HasReason(Next(s, op), session, round, reason) <==>
        e == Recorded(reason) || (HasReason(s, session, round, reason) && e == Untouched)
  {
    if op.MarkInterrupted? && op.call in s.calls && s.calls[op.call].Snapshotted? {
      var c := s.calls[op.call];
      WithReasonAt(Lookup(s.sessions, c.session, NO_SESSION).interruptions, c.ids, c.reason, round);
    }
  }

  /** The reason recorded for a round is that of the last interrupt that reported the round and was
      marked since the round was last started or ended. */
  lemma {:induction false} ReasonsAre(ops: seq<Op>, session: string, round: string, reason: string)
    requires session != "" && round != ""
    ensures HasReason(StateAfter(ops), session, round, reason) <==>
      Stands(ReasonEvents(ops, session, round), Recording(reason), Touching())
    decreases |ops|
  {
    if ops != [] {
      var front, op := ops[..|ops| - 1], ops[|ops| - 1];
      ReasonsAre(front, session, round, reason);
      ReasonStep(StateAfter(front), op, session, round, reason);
      StandsMore(ReasonEvents(front, session, round), ReasonEventOf(StateAfter(front), op, session, round),
                 Recording(reason), Touching());
    }
  }

  // ---------------------------------------------------------------- guidance

  /** Some round of the session runs. */
  ghost predicate Busy(ops: seq<Op>, session: string) {
    session != "" && exists round :: round != "" && Runs(ops, session, round)
  }

  /** An input queued for a session is taken, at the end of those pending, exactly if it says something
      and some round of the session runs. */
  lemma QueuedWhileBusy(ops: seq<Op>, session: string, round: string, content: string)
    ensures var s, input := StateAfter(ops), Guidance(round, content);
      var taken := content != "" && Busy(ops, session);
      && GuidanceOf(s, Queue(session, round, content), session) == (if taken then [Accepted(input)] else [])
      && Pending(Next(s, Queue(session, round, content)), session)
         == Pending(s, session) + if taken then [input] else []
  {
    var s := StateAfter(ops);
    if session in s.sessions && s.sessions[session].running != {} {
      var r :| r in s.sessions[session].running;
      RunningAreNamed(ops, session, r);
      RoundsAre(ops, session, r, 0);
    }
    if Busy(ops, session) {
      var r :| r != "" && Runs(ops, session, r);
      RoundsAre(ops, session, r, 0);
    }
    assert Accepts(s, session, content) <==> content != "" && Busy(ops, session);
  }
}

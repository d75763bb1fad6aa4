/** What whole calls on the workspace registry leave behind: the reference count of an entry in
    terms of the calls completed, and nothing of a sender once its removal is over. */
module WorkspaceCalls {
  import opened Options
  import opened WorkspaceTokens

  // ---------------------------------------------------------------- reference and watch counts

  predicate BeginsCall(op: Op, before: Task) {
    before.Idle? && (op.Subscribe? || op.Unsubscribe? || op.Unregister?)
  }

  /** The call of the sender in progress, or the last one. */
  function LastCall(hasWorkspace: bool, ops: seq<Op>, key: string): Option<Op> {
    if ops == [] then None
    else
      var front, op := ops[..|ops| - 1], ops[|ops| - 1];
      if op.key == key && BeginsCall(op, TaskOf(StateAfter(hasWorkspace, front), key)) then Some(op)
      else LastCall(hasWorkspace, front, key)
  }

  /** The step of a call completes its subscription to the agent: at once, by the answer that brings
      no token, by the hand-over of the token, or by storing the entry of an open sender. */
  predicate Completes(call: Option<Op>, op: Op, before: Task, after: Task, closed: bool, agent: string) {
    && call.Some? && call.value.Subscribe? && call.value.agent == agent
    && match op
       case Subscribe(_, _, _) => before.Idle? && after.Idle?
       case LiveAnswer(_, answer) => before.Upgrading? && answer.NoToken?
       case Attach(_) => before.Upgraded?
       case Store(_) => before.Storing? && !closed
       case _ => false
  }

  predicate Undoes(op: Op, before: Task, agent: string) {
    op.Unsubscribe? && before.Idle? && op.agent == agent
  }

  predicate Removes(op: Op, before: Task, agent: string) {
    op.RemoveNext? && before.Unregistering? && op.agent == agent && agent in before.agents
  }

  function Counted(count: nat, call: Option<Op>, op: Op, before: Task, after: Task, closed: bool, agent: string): nat {
    if Completes(call, op, before, after, closed, agent) then count + 1
    else if Undoes(op, before, agent) && count > 0 then count - 1
    else if Removes(op, before, agent) then 0
    else count
  }

  /** The subscriptions of a sender to an agent completed so far and not undone since, where its
      removal undoes all of them. It is read off the calls and their progress alone. */
  function Completed(hasWorkspace: bool, ops: seq<Op>, key: string, agent: string): nat {
    if ops == [] then 0
    else
      var front, op := ops[..|ops| - 1], ops[|ops| - 1];
      var count, s := Completed(hasWorkspace, front, key, agent), StateAfter(hasWorkspace, front);
      if op.Close? || op.key != key then count
      else Counted(count, LastCall(hasWorkspace, ops, key), op, TaskOf(s, key), TaskOf(Next(s, op), key),
                   key in s.closed, agent)
  }

  function RefsOf(row: Row, agent: string): nat {
    if agent in row then row[agent].refs else 0
  }

  /** The entry is referenced once for each completed subscription, and once more by an upgrade in
      flight, which finds it referenced. */
  predicate CountFits(row: Row, task: Task, agent: string, count: nat) {
    RefsOf(row, agent) == count + (if InUpgrade(task, agent) then 1 else 0) && (InUpgrade(task, agent) ==> count > 0)
  }

  /** `count` is that of the subscriptions after the step: without any, the entry has ended. */
  function WatchCounted(watches: nat, count: nat, call: Option<Op>, op: Op, before: Task, after: Task, closed: bool,
        agent: string): nat {
    if count == 0 then 0
    else if Completes(call, op, before, after, closed, agent) && call.value.watch then watches + 1
    else if Undoes(op, before, agent) && op.watch && watches > 0 then watches - 1
    else watches
  }

  /** The watching subscriptions of a sender to an agent completed so far and not undone since, by
      unsubscriptions that watch, the end of the entry or the removal of the sender. */
  function CompletedWatching(hasWorkspace: bool, ops: seq<Op>, key: string, agent: string): nat {
    if ops == [] then 0
    else
      var front, op := ops[..|ops| - 1], ops[|ops| - 1];
      var watches, s := CompletedWatching(hasWorkspace, front, key, agent), StateAfter(hasWorkspace, front);
      if op.Close? || op.key != key then watches
      else WatchCounted(watches, Completed(hasWorkspace, ops, key, agent), LastCall(hasWorkspace, ops, key), op,
                        TaskOf(s, key), TaskOf(Next(s, op), key), key in s.closed, agent)
  }

  function WatchesOf(row: Row, agent: string): nat {
    if agent in row then row[agent].watches else 0
  }

  /** Both counts fit; an upgrade in flight watches once more. */
  predicate BothFit(row: Row, task: Task, agent: string, count: nat, watches: nat) {
    && CountFits(row, task, agent, count)
    && WatchesOf(row, agent) == watches + (if InUpgrade(task, agent) then 1 else 0)
  }

  predicate BothStayFit(call: Option<Op>, op: Op, task: Task, closed: bool, o: Outcome, agent: string,
        count: nat, watches: nat) {
    var after := Counted(count, call, op, task, o.task, closed, agent);
    BothFit(o.row, o.task, agent, after, WatchCounted(watches, after, call, op, task, o.task, closed, agent))
  }

  /** What is still to be done is part of the call in progress. */
  predicate TaskFits(call: Option<Op>, task: Task) {
    match task
    case Upgrading(agent) => IsSubscribe(call, agent, true)
    case Upgraded(agent, _) => IsSubscribe(call, agent, true)
    case UpgradeFailed(agent) => IsSubscribe(call, agent, true)
    case Acquiring(agent) => IsSubscribe(call, agent, true)
    case Storing(agent, watch, _) => IsSubscribe(call, agent, watch)
    case Unregistering(_) => call.Some? && call.value.Unregister?
    case UnregisterReleasing(_, _) => call.Some? && call.value.Unregister?
    case _ => true
  }

  predicate IsSubscribe(call: Option<Op>, agent: string, watch: bool) {
    call.Some? && call.value.Subscribe? && call.value.agent == agent && call.value.watch == watch
  }

  lemma TaskStep(hasWorkspace: bool, closed: bool, next: nat, row: Row, task: Task, op: Op, call: Option<Op>)
    requires TaskFits(call, task)
    ensures TaskFits(if BeginsCall(op, task) then Some(op) else call,
                     OwnStep(hasWorkspace, closed, next, row, task, op).task)
  {}

  lemma {:induction false} TaskAlwaysFits(hasWorkspace: bool, ops: seq<Op>, key: string)
    ensures TaskFits(LastCall(hasWorkspace, ops, key), TaskOf(StateAfter(hasWorkspace, ops), key))
    decreases |ops|
  {
    if ops != [] {
      var front, op := ops[..|ops| - 1], ops[|ops| - 1];
      var s := StateAfter(hasWorkspace, front);
      TaskAlwaysFits(hasWorkspace, front, key);
      OthersUntouched(s, op, key);
      if !op.Close? && op.key == key {
        TaskStep(s.hasWorkspace, key in s.closed, s.issued, RowOf(s, key), TaskOf(s, key), op,
                 LastCall(hasWorkspace, front, key));
      }
    }
  }

  lemma SubscribingCounts(hasWorkspace: bool, closed: bool, row: Row, op: Op, agent: string, count: nat, watches: nat)
    requires Serial(row, Idle) && BothFit(row, Idle, agent, count, watches) && op.Subscribe?
    ensures BothStayFit(Some(op), op, Idle, closed, Subscribing(hasWorkspace, row, op.agent, op.watch), agent, count,
        watches)
  {}

  lemma AnsweringCounts(call: Option<Op>, closed: bool, next: nat, row: Row, task: Task, op: Op, agent: string,
        count: nat, watches: nat)
    requires Serial(row, task) && BothFit(row, task, agent, count, watches) && op.LiveAnswer?
    requires TaskFits(call, task)
    ensures BothStayFit(call, op, task, closed, Answering(row, task, op.answer, next), agent, count, watches)
  {}

  lemma AttachingCounts(call: Option<Op>, closed: bool, row: Row, task: Task, op: Op, agent: string, count: nat,
        watches: nat)
    requires Serial(row, task) && BothFit(row, task, agent, count, watches) && op.Attach? && task.Upgraded?
    requires TaskFits(call, task)
    ensures BothStayFit(call, op, task, closed, Attaching(row, task.agent, task.token), agent, count, watches)
  {}

  lemma RollingBackCounts(call: Option<Op>, closed: bool, row: Row, task: Task, op: Op, agent: string, count: nat,
        watches: nat)
    requires Serial(row, task) && BothFit(row, task, agent, count, watches) && op.RollBack? && task.UpgradeFailed?
    requires TaskFits(call, task)
    requires RefsOf(row, task.agent) >= 2
    ensures BothStayFit(call, op, task, closed, Unsubscribing(row, task.agent, true), agent, count, watches)
  {}

  lemma StoringCounts(call: Option<Op>, closed: bool, row: Row, task: Task, op: Op, agent: string, count: nat,
        watches: nat)
    requires Serial(row, task) && BothFit(row, task, agent, count, watches) && op.Store? && task.Storing?
    requires TaskFits(call, task)
    ensures BothStayFit(call, op, task, closed, StoringEntry(closed, row, task.agent, task.watch, task.acquired),
                        agent, count, watches)
  {}

  lemma UnsubscribingCounts(closed: bool, row: Row, op: Op, agent: string, count: nat, watches: nat)
    requires Serial(row, Idle) && BothFit(row, Idle, agent, count, watches) && op.Unsubscribe?
    ensures BothStayFit(Some(op), op, Idle, closed, Unsubscribing(row, op.agent, op.watch), agent, count, watches)
  {}

  lemma RemovingCounts(call: Option<Op>, closed: bool, row: Row, task: Task, op: Op, agent: string, count: nat,
        watches: nat)
    requires Serial(row, task) && BothFit(row, task, agent, count, watches) && op.RemoveNext? && task.Unregistering?
    requires TaskFits(call, task)
    ensures BothStayFit(call, op, task, closed, RemovingNext(row, task.agents, op.agent), agent, count, watches)
  {}

  lemma SubscribeStepCounts(call: Option<Op>, hasWorkspace: bool, closed: bool, next: nat, row: Row, task: Task, op: Op,
        agent: string, count: nat, watches: nat)
    requires Serial(row, task) && BothFit(row, task, agent, count, watches)
    requires if BeginsCall(op, task) then call == Some(op) else TaskFits(call, task)
    requires task.UpgradeFailed? ==> RefsOf(row, task.agent) >= 2
    requires op.Subscribe? || op.LiveAnswer? || op.Attach? || op.RollBack? || op.Store?
    ensures BothStayFit(call, op, task, closed, OwnStep(hasWorkspace, closed, next, row, task, op), agent, count,
        watches)
  {
    match op
    case Subscribe(_, _, _) =>
      if task.Idle? { SubscribingCounts(hasWorkspace, closed, row, op, agent, count, watches); }
    case LiveAnswer(_, _) => AnsweringCounts(call, closed, next, row, task, op, agent, count, watches);
    case Attach(_) => if task.Upgraded? { AttachingCounts(call, closed, row, task, op, agent, count, watches); }
    case RollBack(_) =>
      if task.UpgradeFailed? { RollingBackCounts(call, closed, row, task, op, agent, count, watches); }
    case Store(_) => if task.Storing? { StoringCounts(call, closed, row, task, op, agent, count, watches); }
  }

  lemma LeaveStepCounts(call: Option<Op>, hasWorkspace: bool, closed: bool, next: nat, row: Row, task: Task, op: Op,
        agent: string, count: nat, watches: nat)
    requires Serial(row, task) && BothFit(row, task, agent, count, watches)
    requires if BeginsCall(op, task) then call == Some(op) else TaskFits(call, task)
    requires op.Unsubscribe? || op.RemoveNext?
    ensures BothStayFit(call, op, task, closed, OwnStep(hasWorkspace, closed, next, row, task, op), agent, count,
        watches)
  {
    match op
    case Unsubscribe(_, _, _) => if task.Idle? { UnsubscribingCounts(closed, row, op, agent, count, watches); }
    case RemoveNext(_, _) =>
      if task.Unregistering? { RemovingCounts(call, closed, row, task, op, agent, count, watches); }
  }

  lemma QuietStepCounts(call: Option<Op>, hasWorkspace: bool, closed: bool, next: nat, row: Row, task: Task, op: Op,
        agent: string, count: nat, watches: nat)
    requires Serial(row, task) && BothFit(row, task, agent, count, watches)
    requires if BeginsCall(op, task) then call == Some(op) else TaskFits(call, task)
    requires op.Release? || op.Unregister? || op.Close?
    ensures BothStayFit(call, op, task, closed, OwnStep(hasWorkspace, closed, next, row, task, op), agent, count,
        watches)
  {}

  lemma CountStep(call: Option<Op>, hasWorkspace: bool, closed: bool, next: nat, row: Row, task: Task, op: Op,
        agent: string, count: nat, watches: nat)
    requires Serial(row, task) && BothFit(row, task, agent, count, watches)
    requires if BeginsCall(op, task) then call == Some(op) else TaskFits(call, task)
    requires task.UpgradeFailed? ==> RefsOf(row, task.agent) >= 2
    ensures BothStayFit(call, op, task, closed, OwnStep(hasWorkspace, closed, next, row, task, op), agent, count,
        watches)
  {
    if op.Subscribe? || op.LiveAnswer? || op.Attach? || op.RollBack? || op.Store? {
      SubscribeStepCounts(call, hasWorkspace, closed, next, row, task, op, agent, count, watches);
    } else if op.Release? || op.Unregister? || op.Close? {
      QuietStepCounts(call, hasWorkspace, closed, next, row, task, op, agent, count, watches);
    } else {
      LeaveStepCounts(call, hasWorkspace, closed, next, row, task, op, agent, count, watches);
    }
  }

  lemma {:induction false} CountsAlwaysFit(hasWorkspace: bool, ops: seq<Op>, key: string, agent: string)
    ensures var s := StateAfter(hasWorkspace, ops);
      BothFit(RowOf(s, key), TaskOf(s, key), agent,
              Completed(hasWorkspace, ops, key, agent), CompletedWatching(hasWorkspace, ops, key, agent))
    decreases |ops|
  {
    if ops != [] {
      var front, op := ops[..|ops| - 1], ops[|ops| - 1];
      var s := StateAfter(hasWorkspace, front);
      var task := TaskOf(s, key);
      CountsAlwaysFit(hasWorkspace, front, key, agent);
      InvariantsAlways(hasWorkspace, front);
      TaskAlwaysFits(hasWorkspace, front, key);
      assert Serial(RowOf(s, key), task);
      OthersUntouched(s, op, key);
      if !op.Close? && op.key == key {
        if task.UpgradeFailed? {
          CountsAlwaysFit(hasWorkspace, front, key, task.agent);
        }
        CountStep(LastCall(hasWorkspace, ops, key), s.hasWorkspace, key in s.closed, s.issued, RowOf(s, key), task, op,
                  agent, Completed(hasWorkspace, front, key, agent),
                  CompletedWatching(hasWorkspace, front, key, agent));
      }
    }
  }

  /** When no call of the sender is in progress it has an entry for exactly the agents it has
      completed subscriptions to, referenced once for each of them not undone. */
  lemma RefsAreCompleted(hasWorkspace: bool, ops: seq<Op>, key: string, agent: string)
    requires TaskOf(StateAfter(hasWorkspace, ops), key).Idle?
    ensures var row, count := RowOf(StateAfter(hasWorkspace, ops), key), Completed(hasWorkspace, ops, key, agent);
      (agent in row <==> count > 0) && (agent in row ==> row[agent].refs == count)
  {
    var s := StateAfter(hasWorkspace, ops);
    CountsAlwaysFit(hasWorkspace, ops, key, agent);
    InvariantsAlways(hasWorkspace, ops);
    assert Serial(RowOf(s, key), TaskOf(s, key));
  }

  /** When no call of the sender is in progress an entry is watched once for each completed watching
      subscription not undone. */
  lemma WatchesAreCompleted(hasWorkspace: bool, ops: seq<Op>, key: string, agent: string)
    requires TaskOf(StateAfter(hasWorkspace, ops), key).Idle?
    ensures WatchesOf(RowOf(StateAfter(hasWorkspace, ops), key), agent)
        == CompletedWatching(hasWorkspace, ops, key, agent)
  {
    CountsAlwaysFit(hasWorkspace, ops, key, agent);
  }

  /** And it holds a live token for an agent exactly while a watching subscription is outstanding,
      unless the workspace answers without a token for the agent. */
  lemma TokenWhileWatching(ops: seq<Op>, key: string, agent: string, blank: string -> bool)
    requires AnswersFit(ops, blank) && TaskOf(StateAfter(true, ops), key).Idle?
    ensures var row := RowOf(StateAfter(true, ops), key);
      agent in row && row[agent].token.Some? <==> CompletedWatching(true, ops, key, agent) > 0 && !blank(agent)
  {
    WatchesAreCompleted(true, ops, key, agent);
    HeldIffWatchedAlways(ops, key, blank);
  }

  /** A sender that holds no token and waits for none. */
  predicate Tokenless(row: Row, task: Task) {
    && (forall a :: a in row ==> row[a].token.None?)
    && (task.Idle? || task.Unregistering? || (task.Storing? && task.acquired.None?))
  }

  lemma TokenlessStep(closed: bool, next: nat, row: Row, task: Task, op: Op)
    requires Tokenless(row, task)
    ensures var o := OwnStep(false, closed, next, row, task, op); Tokenless(o.row, o.task) && !o.issues && o.gives.None?
  {}

  /** Without a workspace no token is ever asked for, held or given back. */
  lemma {:induction false} NoWorkspaceNoTokens(ops: seq<Op>, key: string)
    ensures var s := StateAfter(false, ops);
      Tokenless(RowOf(s, key), TaskOf(s, key)) && s.issued == 0 && s.released == []
    decreases |ops|
  {
    if ops != [] {
      var front, op := ops[..|ops| - 1], ops[|ops| - 1];
      var s := StateAfter(false, front);
      NoWorkspaceNoTokens(front, key);
      NoWorkspaceNoTokens(front, op.key);
      StaysWithout(front);
      OthersUntouched(s, op, key);
      TokenlessStep(op.key in s.closed, s.issued, RowOf(s, op.key), TaskOf(s, op.key), op);
    }
  }

  lemma {:induction false} StaysWithout(ops: seq<Op>)
    ensures !StateAfter(false, ops).hasWorkspace
    decreases |ops|
  {
    if ops != [] {
      StaysWithout(ops[..|ops| - 1]);
    }
  }

  // ---------------------------------------------------------------- teardown

  /** While a sender is being removed, only agents still to be removed have entries. */
  predicate Removing(row: Row, task: Task) {
    task.Unregistering? || task.UnregisterReleasing? ==> row.Keys <= task.agents
  }

  lemma RemovingStep(hasWorkspace: bool, closed: bool, next: nat, row: Row, task: Task, op: Op)
    requires Removing(row, task)
    ensures var o := OwnStep(hasWorkspace, closed, next, row, task, op); Removing(o.row, o.task)
  {}

  lemma {:induction false} RemovingAlways(hasWorkspace: bool, ops: seq<Op>, key: string)
    ensures var s := StateAfter(hasWorkspace, ops); Removing(RowOf(s, key), TaskOf(s, key))
    decreases |ops|
  {
    if ops != [] {
      var front, op := ops[..|ops| - 1], ops[|ops| - 1];
      var s := StateAfter(hasWorkspace, front);
      RemovingAlways(hasWorkspace, front, key);
      OthersUntouched(s, op, key);
      RemovingStep(s.hasWorkspace, key in s.closed, s.issued, RowOf(s, key), TaskOf(s, key), op);
    }
  }

  lemma HeldStays(s: State, op: Op, key: string, token: nat)
    requires AllSerial(s) && TokenInvariant(s) && HoldsAt(s, key, token)
    ensures HoldsAt(Next(s, op), key, token) || token in Next(s, op).released
  {
    OthersUntouched(s, op, key);
    if !op.Close? && op.key == key {
      assert Serial(RowOf(s, key), TaskOf(s, key)) && !HoldsAt(s, key, s.issued);
      OwnTokens(s.hasWorkspace, key in s.closed, s.issued, RowOf(s, key), TaskOf(s, key), op);
    }
  }

  lemma ReleasedStays(s: State, op: Op)
    ensures s.released <= Next(s, op).released
  {}

  lemma {:induction false} HeldOrReleased(hasWorkspace: bool, ops: seq<Op>, i: nat, key: string, token: nat)
    requires i <= |ops| && HoldsAt(StateAfter(hasWorkspace, ops[..i]), key, token)
    ensures var s := StateAfter(hasWorkspace, ops); HoldsAt(s, key, token) || token in s.released
    decreases |ops|
  {
    if i == |ops| {
      assert ops[..i] == ops;
    } else {
      var front, op := ops[..|ops| - 1], ops[|ops| - 1];
      assert front[..i] == ops[..i];
      var s := StateAfter(hasWorkspace, front);
      HeldOrReleased(hasWorkspace, front, i, key, token);
      ReleasedStays(s, op);
      if token !in s.released {
        InvariantsAlways(hasWorkspace, front);
        HeldStays(s, op, key, token);
      }
    }
  }

  /** The last step of a call of UnregisterSender. */
  predicate UnregisterEnds(hasWorkspace: bool, ops: seq<Op>, op: Op) {
    && TaskOf(StateAfter(hasWorkspace, ops), op.key).Unregistering?
    && TaskOf(StateAfter(hasWorkspace, ops + [op]), op.key).Idle?
  }

  /** When it returns the sender has no entry, no agent lists it, it holds no token, and every token
      it held at any time before has been released. */
  lemma UnregisterLeavesNothing(hasWorkspace: bool, ops: seq<Op>, op: Op)
    requires UnregisterEnds(hasWorkspace, ops, op)
    ensures var t := StateAfter(hasWorkspace, ops + [op]);
      && RowOf(t, op.key) == map[] && op.key !in t.entries
      && (forall a :: a in t.agentSenders ==> op.key !in t.agentSenders[a])
      && (forall token: nat :: !HoldsAt(t, op.key, token))
    ensures forall i, token: nat :: 0 <= i <= |ops| && HoldsAt(StateAfter(hasWorkspace, ops[..i]), op.key, token) ==>
      token in StateAfter(hasWorkspace, ops + [op]).released
  {
    var all, key := ops + [op], op.key;
    var s, t := StateAfter(hasWorkspace, ops), StateAfter(hasWorkspace, all);
    assert all[..|ops|] == ops;
    RemovingAlways(hasWorkspace, ops, key);
    OthersUntouched(s, op, key);
    NothingLeft(s, op);
    InvariantsAlways(hasWorkspace, all);
    forall a | a in t.agentSenders ensures key !in t.agentSenders[a] {
      assert !Subscribed(t, key, a);
    }
    forall i, token: nat | 0 <= i <= |ops| && HoldsAt(StateAfter(hasWorkspace, ops[..i]), key, token)
      ensures token in t.released
    {
      assert all[..i] == ops[..i];
      HeldOrReleased(hasWorkspace, all, i, key, token);
    }
  }

  lemma NothingLeft(s: State, op: Op)
    requires Removing(RowOf(s, op.key), TaskOf(s, op.key)) && TaskOf(s, op.key).Unregistering?
    requires TaskOf(Next(s, op), op.key).Idle?
    ensures RowOf(Next(s, op), op.key) == map[] && op.key !in Next(s, op).entries
    ensures forall token: nat :: !HoldsAt(Next(s, op), op.key, token)
  {
    OthersUntouched(s, op, op.key);
    assert !op.Close?;
    assert RowOf(s, op.key).Keys == {};
  }
}

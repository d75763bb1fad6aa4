/** Workspace subscriptions: reference-counted entries per sender and agent, the live token an
    entry holds while someone watches files, the reverse index and the poller. One step is one
    region run under the mutex, or one call into the workspace service made between two of them.
    The calls of one sender follow each other; calls of different senders interleave freely. */
module WorkspaceTokens {
  import opened Options

  datatype Entry = Entry(refs: nat, token: Option<nat>, watches: nat)

  type Row = map<string, Entry>  // the entries of one sender, by agent

  /** What the call in progress of a sender still has to do. */
  datatype Task =
    | Idle
    | Upgrading(agent: string)
    | Upgraded(agent: string, token: nat)
    | UpgradeFailed(agent: string)
    | Acquiring(agent: string)
    | Storing(agent: string, watch: bool, acquired: Option<nat>)
    | Releasing(token: nat)
    | Unregistering(agents: set<string>)
    | UnregisterReleasing(token: nat, agents: set<string>)

  /** SubscribeLive may also answer without a token and without an error. */
  datatype Answer = Token | NoToken | Failed

  /** Subscribe and Store stand for their locked regions. A call asks whether its sender is closed
      before it takes the lock the first time, so a Subscribe may follow the Close. */
  datatype Op =
    | Subscribe(key: string, agent: string, watch: bool)
    | LiveAnswer(key: string, answer: Answer)
    | Attach(key: string)
    | RollBack(key: string)
    | Store(key: string)
    | Release(key: string)
    | Unsubscribe(key: string, agent: string, watch: bool)
    | Unregister(key: string)
    | RemoveNext(key: string, agent: string)
    | Close(key: string)

  /** What a step does to agentSenders and the poller. */
  datatype Effect = NoEffect | Adds(agent: string) | Drops(agent: string)

  /** What a step does: the sender's entries and call afterwards, the effect on the reverse
      index, whether a token is handed out, and the token given back, if any. */
  datatype Outcome = Outcome(row: Row, task: Task, index: Effect, issues: bool, gives: Option<nat>)

  function Continue(row: Row, task: Task): Outcome {
    Outcome(row, task, NoEffect, false, None)
  }

  /** Go on with the release of a token, or be done. */
  function Then(token: Option<nat>): Task {
    if token.Some? then Releasing(token.value) else Idle
  }

  // ---------------------------------------------------------------- the steps of one sender

  /** The first locked region of Subscribe. */
  function Subscribing(hasWorkspace: bool, row: Row, agent: string, watch: bool): Outcome {
    if agent in row then
      var e := row[agent];
      Continue(row[agent := Entry(e.refs + 1, e.token, if watch then e.watches + 1 else e.watches)],
               if watch && e.token.None? && hasWorkspace then Upgrading(agent) else Idle)
    else Continue(row, if watch && hasWorkspace then Acquiring(agent) else Storing(agent, watch, None))
  }

  function Answering(row: Row, task: Task, answer: Answer, next: nat): Outcome {
    match task
    case Upgrading(agent) =>
      (match answer
       case Token => Outcome(row, Upgraded(agent, next), NoEffect, true, None)
       case NoToken => Continue(row, Idle)
       case Failed => Continue(row, UpgradeFailed(agent)))
    case Acquiring(agent) =>
      (match answer
       case Token => Outcome(row, Storing(agent, true, Some(next)), NoEffect, true, None)
       case NoToken => Continue(row, Storing(agent, true, None))
       case Failed => Continue(row, Idle))
    case _ => Continue(row, task)
  }

  /** attachLiveToken: into the entry if it is still wanted there, else it is to be released. */
  function Attaching(row: Row, agent: string, token: nat): Outcome {
    if agent !in row || row[agent].token.Some? || row[agent].watches == 0
    then Continue(row, Releasing(token))
    else Continue(row[agent := row[agent].(token := Some(token))], Idle)
  }

  /** The locked region of unsubscribe. */
  function Unsubscribing(row: Row, agent: string, watch: bool): Outcome {
    if row == map[] then Continue(row, Idle)
    else
      var e := Lookup(row, agent, Entry(0, None, 0));
      var watches := if watch && e.watches > 0 then e.watches - 1 else e.watches;
      if e.refs > 1 then
        var releases := watch && e.watches > 0 && watches == 0;
        Continue(row[agent := Entry(e.refs - 1, if releases then None else e.token, watches)],
                 Then(if releases then e.token else None))
      else Outcome(row - {agent}, Then(e.token), Drops(agent), false, None)
  }

  /** The second locked region of Subscribe: the sender may have closed in the gap. */
  function StoringEntry(closed: bool, row: Row, agent: string, watch: bool, acquired: Option<nat>): Outcome {
    if closed then Continue(row, Then(acquired))
    else Outcome(row[agent := Entry(1, acquired, if watch then 1 else 0)], Idle, Adds(agent), false, None)
  }

  /** UnregisterSender collects the agents under one lock and removes them one by one under
      others. */
  function RemovingNext(row: Row, agents: set<string>, agent: string): Outcome {
    if agents == {} then Continue(row, Idle)
    else if agent !in agents then Continue(row, Unregistering(agents))
    else if agent !in row then Continue(row, Unregistering(agents - {agent}))
    else
      var token, left := row[agent].token, agents - {agent};
      Outcome(row - {agent}, if token.Some? then UnregisterReleasing(token.value, left) else Unregistering(left),
              Drops(agent), false, None)
  }

  /** A step that the call in progress does not allow changes nothing. */
  function OwnStep(hasWorkspace: bool, closed: bool, next: nat, row: Row, task: Task, op: Op): Outcome {
    match op
    case Subscribe(_, agent, watch) =>
      if task.Idle? then Subscribing(hasWorkspace, row, agent, watch) else Continue(row, task)
    case LiveAnswer(_, answer) => Answering(row, task, answer, next)
    case Attach(_) => if task.Upgraded? then Attaching(row, task.agent, task.token) else Continue(row, task)
    case RollBack(_) => if task.UpgradeFailed? then Unsubscribing(row, task.agent, true) else Continue(row, task)
    case Store(_) =>
      if task.Storing? then StoringEntry(closed, row, task.agent, task.watch, task.acquired) else Continue(row, task)
    case Release(_) =>
      if task.Releasing? then Outcome(row, Idle, NoEffect, false, Some(task.token))
      else if task.UnregisterReleasing? then Outcome(row, Unregistering(task.agents), NoEffect, false, Some(task.token))
      else Continue(row, task)
    case Unsubscribe(_, agent, watch) => if task.Idle? then Unsubscribing(row, agent, watch) else Continue(row, task)
    case Unregister(_) => if task.Idle? then Continue(row, Unregistering(row.Keys)) else Continue(row, task)
    case RemoveNext(_, agent) =>
      if task.Unregistering? then RemovingNext(row, task.agents, agent) else Continue(row, task)
    case Close(_) => Continue(row, task)
  }

  // ---------------------------------------------------------------- the registry and its runs

  datatype State = State(
    hasWorkspace: bool,
    entries: map<string, Row>,
    tasks: map<string, Task>,          // the senders with a call in progress
    agentSenders: map<string, set<string>>,
    poller: bool,
    closed: set<string>,
    issued: nat,                       // the tokens handed out so far are 0 .. issued - 1
    released: seq<nat>)                // every UnsubscribeLive, in order

  function Init(hasWorkspace: bool): State {
    State(hasWorkspace, map[], map[], map[], false, {}, 0, [])
  }

  function RowOf(s: State, key: string): Row { Lookup(s.entries, key, map[]) }

  function TaskOf(s: State, key: string): Task { Lookup(s.tasks, key, Idle) }

  function Reindexed(senders: map<string, set<string>>, key: string, index: Effect): map<string, set<string>> {
    match index
    case NoEffect => senders
    case Adds(agent) => senders[agent := Lookup(senders, agent, {}) + {key}]
    case Drops(agent) =>
      if agent !in senders then senders
      else if senders[agent] - {key} == {} then senders - {agent}
      else senders[agent := senders[agent] - {key}]
  }

  /** Entering a subscription starts the poller; leaving the last one stops it. */
  function Polling(poller: bool, senders: map<string, set<string>>, index: Effect): bool {
    match index
    case NoEffect => poller
    case Adds(_) => true
    case Drops(_) => poller && senders != map[]
  }

  /** A sender without entries is not listed. */
  function Enter(entries: map<string, Row>, key: string, row: Row): map<string, Row> {
    if row == map[] then entries - {key} else entries[key := row]
  }

  function Apply(s: State, key: string, o: Outcome): State {
    var senders := Reindexed(s.agentSenders, key, o.index);
    State(s.hasWorkspace,
          Enter(s.entries, key, o.row),
          if o.task.Idle? then s.tasks - {key} else s.tasks[key := o.task],
          senders,
          Polling(s.poller, senders, o.index),
          s.closed,
          if o.issues then s.issued + 1 else s.issued,
          if o.gives.Some? then s.released + [o.gives.value] else s.released)
  }

  function Own(s: State, op: Op): Outcome {
    OwnStep(s.hasWorkspace, op.key in s.closed, s.issued, RowOf(s, op.key), TaskOf(s, op.key), op)
  }

  function Next(s: State, op: Op): State {
    if op.Close? then s.(closed := s.closed + {op.key}) else Apply(s, op.key, Own(s, op))
  }

  function StateAfter(hasWorkspace: bool, ops: seq<Op>): State {
    if ops == [] then Init(hasWorkspace) else Next(StateAfter(hasWorkspace, ops[..|ops| - 1]), ops[|ops| - 1])
  }

  /** A step touches the entries and the call of its own sender only. */
  lemma OthersUntouched(s: State, op: Op, k: string)
    ensures !op.Close? && op.key == k
        ==> RowOf(Next(s, op), k) == Own(s, op).row && TaskOf(Next(s, op), k) == Own(s, op).task
    ensures op.Close? || op.key != k ==> RowOf(Next(s, op), k) == RowOf(s, k) && TaskOf(Next(s, op), k) == TaskOf(s, k)
  {
    if !op.Close? { ApplyMeaning(s, op.key, Own(s, op), k); }
  }

  lemma ApplyMeaning(s: State, key: string, o: Outcome, k: string)
    ensures RowOf(Apply(s, key, o), k) == if k == key then o.row else RowOf(s, k)
    ensures TaskOf(Apply(s, key, o), k) == if k == key then o.task else TaskOf(s, k)
  {}

  // ---------------------------------------------------------------- what serialized calls give

  /** Every entry is referenced; only a watched entry holds a token; a call about to store an
      entry finds none there. */
  ghost predicate Serial(row: Row, task: Task) {
    && (forall a :: a in row ==> row[a].refs >= 1 && (row[a].token.Some? ==> row[a].watches > 0))
    && (task.Acquiring? || task.Storing? ==> task.agent !in row)
    && (task.Storing? && task.acquired.Some? ==> task.watch)
  }

  ghost predicate EndsSerial(o: Outcome) {
    Serial(o.row, o.task)
  }

  lemma SubscribingIsSerial(hasWorkspace: bool, row: Row, agent: string, watch: bool)
    requires Serial(row, Idle)
    ensures EndsSerial(Subscribing(hasWorkspace, row, agent, watch))
  {}

  lemma AnsweringIsSerial(row: Row, task: Task, answer: Answer, next: nat)
    requires Serial(row, task)
    ensures EndsSerial(Answering(row, task, answer, next))
  {}

  lemma AttachingIsSerial(row: Row, agent: string, token: nat)
    requires Serial(row, Upgraded(agent, token))
    ensures EndsSerial(Attaching(row, agent, token))
  {}

  lemma UnsubscribingIsSerial(row: Row, task: Task, agent: string, watch: bool)
    requires Serial(row, task)
    ensures EndsSerial(Unsubscribing(row, agent, watch))
  {}

  lemma StoringIsSerial(closed: bool, row: Row, agent: string, watch: bool, acquired: Option<nat>)
    requires Serial(row, Storing(agent, watch, acquired))
    ensures EndsSerial(StoringEntry(closed, row, agent, watch, acquired))
  {}

  lemma RemovingIsSerial(row: Row, agents: set<string>, agent: string)
    requires Serial(row, Unregistering(agents))
    ensures EndsSerial(RemovingNext(row, agents, agent))
  {}

  lemma SerialStep(hasWorkspace: bool, closed: bool, next: nat, row: Row, task: Task, op: Op)
    requires Serial(row, task)
    ensures EndsSerial(OwnStep(hasWorkspace, closed, next, row, task, op))
  {
    match op
    case Subscribe(_, agent, watch) => if task.Idle? { SubscribingIsSerial(hasWorkspace, row, agent, watch); }
    case LiveAnswer(_, answer) => AnsweringIsSerial(row, task, answer, next);
    case Attach(_) => if task.Upgraded? { AttachingIsSerial(row, task.agent, task.token); }
    case RollBack(_) => if task.UpgradeFailed? { UnsubscribingIsSerial(row, task, task.agent, true); }
    case Store(_) => if task.Storing? { StoringIsSerial(closed, row, task.agent, task.watch, task.acquired); }
    case Release(_) =>
    case Unsubscribe(_, agent, watch) => UnsubscribingIsSerial(row, task, agent, watch);
    case Unregister(_) =>
    case RemoveNext(_, agent) => if task.Unregistering? { RemovingIsSerial(row, task.agents, agent); }
    case Close(_) =>
  }

  ghost predicate AllSerial(s: State) {
    forall k :: Serial(RowOf(s, k), TaskOf(s, k))
  }

  lemma AllSerialStep(s: State, op: Op)
    requires AllSerial(s)
    ensures AllSerial(Next(s, op))
  {
    forall k ensures Serial(RowOf(Next(s, op), k), TaskOf(Next(s, op), k)) {
      assert Serial(RowOf(s, k), TaskOf(s, k));
      OthersUntouched(s, op, k);
      SerialStep(s.hasWorkspace, k in s.closed, s.issued, RowOf(s, k), TaskOf(s, k), op);
    }
  }

  // ---------------------------------------------------------------- live tokens are conserved

  function Carried(task: Task): Option<nat> {
    match task
    case Upgraded(_, token) => Some(token)
    case Storing(_, _, acquired) => acquired
    case Releasing(token) => Some(token)
    case UnregisterReleasing(token, _) => Some(token)
    case _ => None
  }

  predicate InRow(row: Row, agent: string, token: nat) {
    agent in row && row[agent].token == Some(token)
  }

  /** The sender has the token in one of its entries, or its call carries it. */
  ghost predicate Holds(row: Row, task: Task, token: nat) {
    (exists a :: InRow(row, a, token)) || Carried(task) == Some(token)
  }

  /** No token is in two places of one sender. */
  ghost predicate InOnePlace(row: Row, task: Task) {
    && (forall a, b, x: nat :: InRow(row, a, x) && InRow(row, b, x) ==> a == b)
    && (forall a, x: nat :: InRow(row, a, x) ==> Carried(task) != Some(x))
  }

  /** The sender holds afterwards what it held before, plus the token it is handed, minus the one
      it gives back; and still nothing twice. */
  ghost predicate OwnAccount(row: Row, task: Task, next: nat, o: Outcome) {
    && InOnePlace(o.row, o.task)
    && (o.gives.Some? ==> Holds(row, task, o.gives.value) && !o.issues)
    && forall x: nat :: Holds(o.row, o.task, x)
        == ((Holds(row, task, x) || (o.issues && x == next)) && o.gives != Some(x))
  }

  ghost predicate SameTokens(row: Row, task: Task, o: Outcome) {
    && InOnePlace(o.row, o.task) && !o.issues && o.gives.None?
    && forall x: nat :: Holds(o.row, o.task, x) == Holds(row, task, x)
  }

  lemma SubscribingTokens(hasWorkspace: bool, row: Row, agent: string, watch: bool)
    requires InOnePlace(row, Idle)
    ensures SameTokens(row, Idle, Subscribing(hasWorkspace, row, agent, watch))
  {
    var o := Subscribing(hasWorkspace, row, agent, watch);
    assert forall a, x: nat :: InRow(o.row, a, x) == InRow(row, a, x);
  }

  lemma AnsweringTokens(row: Row, task: Task, answer: Answer, next: nat)
    requires InOnePlace(row, task) && !Holds(row, task, next)
    ensures OwnAccount(row, task, next, Answering(row, task, answer, next))
  {
    assert forall a :: !InRow(row, a, next);
  }

  lemma ReleasingTokens(row: Row, task: Task, next: nat, after: Task, token: nat)
    requires InOnePlace(row, task) && Carried(task) == Some(token) && Carried(after).None?
    ensures OwnAccount(row, task, next, Outcome(row, after, NoEffect, false, Some(token)))
  {}

  lemma OwnTokens(hasWorkspace: bool, closed: bool, next: nat, row: Row, task: Task, op: Op)
    requires Serial(row, task) && InOnePlace(row, task) && !Holds(row, task, next)
    ensures OwnAccount(row, task, next, OwnStep(hasWorkspace, closed, next, row, task, op))
  {
    match op
    case Subscribe(_, agent, watch) => if task.Idle? { SubscribingTokens(hasWorkspace, row, agent, watch); }
    case LiveAnswer(_, answer) => AnsweringTokens(row, task, answer, next);
    case Attach(_) => if task.Upgraded? { AttachingTokens(row, task.agent, task.token); }
    case RollBack(_) => if task.UpgradeFailed? { UnsubscribingTokens(row, task.agent, true); }
    case Store(_) => if task.Storing? { StoringTokens(closed, row, task.agent, task.watch, task.acquired); }
    case Release(_) =>
      if task.Releasing? {
        ReleasingTokens(row, task, next, Idle, task.token);
      } else if task.UnregisterReleasing? {
        ReleasingTokens(row, task, next, Unregistering(task.agents), task.token);
      }
    case Unsubscribe(_, agent, watch) => if task.Idle? { UnsubscribingTokens(row, agent, watch); }
    case Unregister(_) =>
    case RemoveNext(_, agent) => if task.Unregistering? { RemovingTokens(row, task.agents, agent); }
    case Close(_) =>
  }

  lemma AttachingTokens(row: Row, agent: string, token: nat)
    requires InOnePlace(row, Upgraded(agent, token))
    ensures SameTokens(row, Upgraded(agent, token), Attaching(row, agent, token))
  {
    var o := Attaching(row, agent, token);
    if o.task.Idle? {
      assert forall a, x: nat :: InRow(o.row, a, x) == (InRow(row, a, x) || (a == agent && x == token));
      assert InRow(o.row, agent, token);
    }
  }

  lemma StoringTokens(closed: bool, row: Row, agent: string, watch: bool, acquired: Option<nat>)
    requires var task := Storing(agent, watch, acquired); InOnePlace(row, task) && Serial(row, task)
    ensures SameTokens(row, Storing(agent, watch, acquired), StoringEntry(closed, row, agent, watch, acquired))
  {
    var o := StoringEntry(closed, row, agent, watch, acquired);
    if !closed {
      assert forall a, x: nat :: InRow(o.row, a, x) == (InRow(row, a, x) || (a == agent && acquired == Some(x)));
      assert acquired.Some? ==> InRow(o.row, agent, acquired.value);
    }
  }

  lemma UnsubscribingTokens(row: Row, agent: string, watch: bool)
    requires InOnePlace(row, Idle)
    ensures SameTokens(row, Idle, Unsubscribing(row, agent, watch))
  {
    var o := Unsubscribing(row, agent, watch);
    assert Carried(o.task).Some? ==> InRow(row, agent, Carried(o.task).value);
    forall a, x: nat ensures InRow(o.row, a, x) == (InRow(row, a, x) && Carried(o.task) != Some(x)) {
      assert InRow(row, a, x) && Carried(o.task) == Some(x) ==> a == agent;
    }
  }

  lemma RemovingTokens(row: Row, agents: set<string>, agent: string)
    requires InOnePlace(row, Unregistering(agents))
    ensures SameTokens(row, Unregistering(agents), RemovingNext(row, agents, agent))
  {
    var o := RemovingNext(row, agents, agent);
    assert Carried(o.task).Some? ==> InRow(row, agent, Carried(o.task).value);
    forall a, x: nat ensures InRow(o.row, a, x) == (InRow(row, a, x) && Carried(o.task) != Some(x)) {
      assert InRow(row, a, x) && Carried(o.task) == Some(x) ==> a == agent;
    }
  }

  ghost predicate HoldsAt(s: State, key: string, token: nat) {
    Holds(RowOf(s, key), TaskOf(s, key), token)
  }

  ghost predicate Accounted(s: State, token: nat) {
    token in s.released || exists k :: HoldsAt(s, k, token)
  }

  /** Every token handed out and not given back is with exactly one sender, in exactly one entry
      or call of it; nothing else is held; no token is given back twice. */
  ghost predicate TokenInvariant(s: State) {
    && (forall k :: InOnePlace(RowOf(s, k), TaskOf(s, k)))
    && (forall k, x: nat :: HoldsAt(s, k, x) ==> x < s.issued && x !in s.released)
    && (forall k, k', x: nat :: HoldsAt(s, k, x) && HoldsAt(s, k', x) ==> k == k')
    && (forall x: nat :: x < s.issued ==> Accounted(s, x))
    && (forall x: nat :: x in s.released ==> x < s.issued)
    && (forall i, j :: 0 <= i < j < |s.released| ==> s.released[i] != s.released[j])
  }

  lemma TokenStep(s: State, op: Op)
    requires AllSerial(s) && TokenInvariant(s)
    ensures TokenInvariant(Next(s, op))
  {
    if op.Close? {
      CloseKeepsTokens(s, op.key);
    } else {
      assert Serial(RowOf(s, op.key), TaskOf(s, op.key)) && !HoldsAt(s, op.key, s.issued);
      OwnTokens(s.hasWorkspace, op.key in s.closed, s.issued, RowOf(s, op.key), TaskOf(s, op.key), op);
      ApplyKeepsTokens(s, op.key, Own(s, op));
    }
  }

  lemma CloseKeepsTokens(s: State, key: string)
    requires TokenInvariant(s)
    ensures TokenInvariant(s.(closed := s.closed + {key}))
  {
    var t := s.(closed := s.closed + {key});
    assert forall k :: RowOf(t, k) == RowOf(s, k) && TaskOf(t, k) == TaskOf(s, k);
    assert forall k, x: nat :: HoldsAt(t, k, x) == HoldsAt(s, k, x);
    assert forall x: nat :: Accounted(s, x) ==> Accounted(t, x);
  }

  lemma ApplyKeepsTokens(s: State, key: string, o: Outcome)
    requires TokenInvariant(s) && OwnAccount(RowOf(s, key), TaskOf(s, key), s.issued, o)
    ensures TokenInvariant(Apply(s, key, o))
  {
    var t := Apply(s, key, o);
    forall k ensures InOnePlace(RowOf(t, k), TaskOf(t, k)) {
      ApplyMeaning(s, key, o, k);
    }
    forall k, x: nat
      ensures HoldsAt(t, k, x)
           == if k == key then (HoldsAt(s, k, x) || (o.issues && x == s.issued)) && o.gives != Some(x)
              else HoldsAt(s, k, x)
    {
      ApplyMeaning(s, key, o, k);
    }
    TokensChange(s, t, key, o.issues, o.gives);
  }

  lemma TokensChange(s: State, t: State, key: string, issues: bool, gives: Option<nat>)
    requires TokenInvariant(s)
    requires forall k :: InOnePlace(RowOf(t, k), TaskOf(t, k))
    requires gives.Some? ==> HoldsAt(s, key, gives.value) && !issues
    requires t.issued == (if issues then s.issued + 1 else s.issued)
    requires t.released == (if gives.Some? then s.released + [gives.value] else s.released)
    requires forall k, x: nat :: HoldsAt(t, k, x)
               == if k == key then (HoldsAt(s, k, x) || (issues && x == s.issued)) && gives != Some(x)
                  else HoldsAt(s, k, x)
    ensures TokenInvariant(t)
  {
    assert forall k, x: nat :: HoldsAt(t, k, x) ==> x < t.issued;
    forall k, x: nat | HoldsAt(t, k, x) ensures x !in t.released {
      if HoldsAt(s, k, x) { assert x !in s.released; }
    }
    forall x: nat | x < t.issued ensures Accounted(t, x) {
      if x < s.issued {
        assert Accounted(s, x);
        if x !in t.released {
          var k :| HoldsAt(s, k, x);
          assert HoldsAt(t, k, x);
        }
      } else {
        assert HoldsAt(t, key, x);
      }
    }
  }

  // ---------------------------------------------------------------- held iff watched

  /** The agents in `blank` are those whose live subscription is answered with neither a token nor
      an error. Outside an upgrade in flight, an entry holds a token exactly while its files are
      watched and its agent is not among them; an entry being upgraded has no token, and is watched
      by that upgrade alone unless its agent is blank. */
  ghost predicate HeldIffWatched(row: Row, task: Task, blank: string -> bool) {
    && (forall a :: a in row ==> EntryHeld(row[a], InUpgrade(task, a), blank(a)))
    && (task.Upgrading? || task.Upgraded? || task.UpgradeFailed? ==> task.agent in row)
    && (task.Upgraded? ==> !blank(task.agent))
    && (task.Storing? ==> (task.acquired.Some? <==> task.watch && !blank(task.agent)))
  }

  predicate EntryHeld(e: Entry, upgrading: bool, blank: bool) {
    if upgrading then e.token.None? && e.watches >= 1 && e.refs >= 2 && (!blank ==> e.watches == 1)
    else e.token.Some? <==> e.watches > 0 && !blank
  }

  predicate InUpgrade(task: Task, agent: string) {
    (task.Upgrading? || task.Upgraded? || task.UpgradeFailed?) && task.agent == agent
  }

  /** The answers a sender gets: no token for a blank agent, and a token or an error for another. */
  predicate AnswerFits(task: Task, op: Op, blank: string -> bool) {
    op.LiveAnswer? && (task.Upgrading? || task.Acquiring?) ==>
      (op.answer.Token? ==> !blank(task.agent)) && (op.answer.NoToken? ==> blank(task.agent))
  }

  ghost predicate EndsHeld(o: Outcome, blank: string -> bool) {
    HeldIffWatched(o.row, o.task, blank)
  }

  lemma SubscribingKeepsHeld(row: Row, agent: string, watch: bool, blank: string -> bool)
    requires Serial(row, Idle) && HeldIffWatched(row, Idle, blank)
    ensures EndsHeld(Subscribing(true, row, agent, watch), blank)
  {}

  lemma AnsweringKeepsHeld(row: Row, task: Task, op: Op, next: nat, blank: string -> bool)
    requires Serial(row, task) && HeldIffWatched(row, task, blank) && op.LiveAnswer? && AnswerFits(task, op, blank)
    ensures EndsHeld(Answering(row, task, op.answer, next), blank)
  {}

  lemma AttachingKeepsHeld(row: Row, agent: string, token: nat, blank: string -> bool)
    requires Serial(row, Upgraded(agent, token)) && HeldIffWatched(row, Upgraded(agent, token), blank)
    ensures EndsHeld(Attaching(row, agent, token), blank)
  {}

  lemma UnsubscribingKeepsHeld(row: Row, task: Task, agent: string, watch: bool, blank: string -> bool)
    requires Serial(row, task) && HeldIffWatched(row, task, blank)
    requires task.Idle? || (task == UpgradeFailed(agent) && watch)
    ensures EndsHeld(Unsubscribing(row, agent, watch), blank)
  {}

  lemma StoringKeepsHeld(closed: bool, row: Row, agent: string, watch: bool, acquired: Option<nat>,
        blank: string -> bool)
    requires HeldIffWatched(row, Storing(agent, watch, acquired), blank)
    ensures EndsHeld(StoringEntry(closed, row, agent, watch, acquired), blank)
  {}

  lemma RemovingKeepsHeld(row: Row, agents: set<string>, agent: string, blank: string -> bool)
    requires HeldIffWatched(row, Unregistering(agents), blank)
    ensures EndsHeld(RemovingNext(row, agents, agent), blank)
  {}

  lemma HeldStep(closed: bool, next: nat, row: Row, task: Task, op: Op, blank: string -> bool)
    requires Serial(row, task) && HeldIffWatched(row, task, blank) && AnswerFits(task, op, blank)
    ensures EndsHeld(OwnStep(true, closed, next, row, task, op), blank)
  {
    match op
    case Subscribe(_, agent, watch) => if task.Idle? { SubscribingKeepsHeld(row, agent, watch, blank); }
    case LiveAnswer(_, _) => AnsweringKeepsHeld(row, task, op, next, blank);
    case Attach(_) => if task.Upgraded? { AttachingKeepsHeld(row, task.agent, task.token, blank); }
    case RollBack(_) => if task.UpgradeFailed? { UnsubscribingKeepsHeld(row, task, task.agent, true, blank); }
    case Store(_) => if task.Storing? { StoringKeepsHeld(closed, row, task.agent, task.watch, task.acquired, blank); }
    case Release(_) =>
    case Unsubscribe(_, agent, watch) => if task.Idle? { UnsubscribingKeepsHeld(row, task, agent, watch, blank); }
    case Unregister(_) =>
    case RemoveNext(_, agent) => if task.Unregistering? { RemovingKeepsHeld(row, task.agents, agent, blank); }
    case Close(_) =>
  }

  // ---------------------------------------------------------------- the index and the poller

  predicate Subscribed(s: State, key: string, agent: string) {
    agent in RowOf(s, key)
  }

  /** agentSenders is the mirror of the entries, nothing is left empty, and the poller runs
      exactly while there is a subscription. */
  ghost predicate IndexInvariant(s: State) {
    && (forall k :: k in s.entries ==> s.entries[k] != map[])
    && (forall a :: a in s.agentSenders ==> s.agentSenders[a] != {})
    && (forall k, a :: Subscribed(s, k, a) <==> a in s.agentSenders && k in s.agentSenders[a])
    && (s.poller <==> s.agentSenders != map[])
  }

  ghost predicate KeysFollow(row: Row, o: Outcome) {
    o.row.Keys == match o.index
                  case NoEffect => row.Keys
                  case Adds(agent) => row.Keys + {agent}
                  case Drops(agent) => row.Keys - {agent}
  }

  /** The effect a step reports on the index is what it does to its own agents. */
  lemma OwnKeys(hasWorkspace: bool, closed: bool, next: nat, row: Row, task: Task, op: Op)
    ensures KeysFollow(row, OwnStep(hasWorkspace, closed, next, row, task, op))
  {}

  lemma ReindexedMeaning(senders: map<string, set<string>>, key: string, index: Effect, a: string, k: string)
    ensures var r := Reindexed(senders, key, index);
      (a in r && k in r[a]) <==>
        match index
        case NoEffect => a in senders && k in senders[a]
        case Adds(agent) => (a in senders && k in senders[a]) || (a == agent && k == key)
        case Drops(agent) => a in senders && k in senders[a] && !(a == agent && k == key)
  {
    if index.Drops? && a == index.agent && a in senders {
      assert k in senders[a] - {key} <==> k in senders[a] && k != key;
    }
  }

  lemma ApplyKeepsIndex(s: State, key: string, o: Outcome)
    requires IndexInvariant(s) && KeysFollow(RowOf(s, key), o)
    ensures IndexInvariant(Apply(s, key, o))
  {
    var t := Apply(s, key, o);
    forall k, a ensures Subscribed(t, k, a) <==> a in t.agentSenders && k in t.agentSenders[a] {
      ApplyMeaning(s, key, o, k);
      ReindexedMeaning(s.agentSenders, key, o.index, a, k);
      assert Subscribed(s, k, a) <==> a in s.agentSenders && k in s.agentSenders[a];
    }
    PollerStep(s.poller, s.agentSenders, key, o.index);
  }

  lemma IndexStep(s: State, op: Op)
    requires IndexInvariant(s)
    ensures IndexInvariant(Next(s, op))
  {
    if op.Close? {
      assert forall k, a :: Subscribed(Next(s, op), k, a) == Subscribed(s, k, a);
    } else {
      OwnKeys(s.hasWorkspace, op.key in s.closed, s.issued, RowOf(s, op.key), TaskOf(s, op.key), op);
      ApplyKeepsIndex(s, op.key, Own(s, op));
    }
  }

  lemma PollerStep(poller: bool, senders: map<string, set<string>>, key: string, index: Effect)
    requires poller <==> senders != map[]
    requires forall a :: a in senders ==> senders[a] != {}
    ensures var r := Reindexed(senders, key, index);
      && (Polling(poller, r, index) <==> r != map[])
      && (forall a :: a in r ==> r[a] != {})
  {
    var r := Reindexed(senders, key, index);
    match index
    case NoEffect =>
    case Adds(agent) => assert agent in r;
    case Drops(agent) => if senders == map[] { assert r == map[]; }
  }

  // ---------------------------------------------------------------- every run

  lemma {:induction false} InvariantsAlways(hasWorkspace: bool, ops: seq<Op>)
    ensures var s := StateAfter(hasWorkspace, ops);
      AllSerial(s) && TokenInvariant(s) && IndexInvariant(s) && s.hasWorkspace == hasWorkspace
  {
    if ops == [] {
      var s := Init(hasWorkspace);
      assert forall k, x: nat :: !HoldsAt(s, k, x);
    } else {
      var s, op := StateAfter(hasWorkspace, ops[..|ops| - 1]), ops[|ops| - 1];
      InvariantsAlways(hasWorkspace, ops[..|ops| - 1]);
      AllSerialStep(s, op);
      TokenStep(s, op);
      IndexStep(s, op);
    }
  }

  ghost predicate Stores(s: State, key: string, agent: string, token: nat) {
    InRow(RowOf(s, key), agent, token)
  }

  /** Conservation, read when no call is in progress: the tokens acquired and not yet released
      are exactly those stored, each in one entry. */
  lemma OutstandingIsStored(hasWorkspace: bool, ops: seq<Op>, token: nat)
    requires StateAfter(hasWorkspace, ops).tasks == map[]
    ensures var s := StateAfter(hasWorkspace, ops);
      && ((token < s.issued && token !in s.released) <==> exists k, a :: Stores(s, k, a, token))
      && (forall k, a, k', a' :: Stores(s, k, a, token) && Stores(s, k', a', token) ==> k == k' && a == a')
  {
    var s := StateAfter(hasWorkspace, ops);
    InvariantsAlways(hasWorkspace, ops);
    assert forall k, a :: Stores(s, k, a, token) ==> HoldsAt(s, k, token);
    if token < s.issued && token !in s.released {
      assert Accounted(s, token);
      var k :| HoldsAt(s, k, token);
      var a :| InRow(RowOf(s, k), a, token);
      assert Stores(s, k, a, token);
    }
    forall k, a, k', a' | Stores(s, k, a, token) && Stores(s, k', a', token) ensures k == k' && a == a' {
      assert HoldsAt(s, k, token) && HoldsAt(s, k', token);
      assert InRow(RowOf(s, k), a, token) && InRow(RowOf(s, k), a', token);
    }
  }

  /** Every live answer of the run fits its agent. */
  ghost predicate AnswersFit(ops: seq<Op>, blank: string -> bool) {
    ops == [] ||
    var front, op := ops[..|ops| - 1], ops[|ops| - 1];
    AnswersFit(front, blank) && AnswerFits(TaskOf(StateAfter(true, front), op.key), op, blank)
  }

  lemma {:induction false} HeldIffWatchedAlways(ops: seq<Op>, key: string, blank: string -> bool)
    requires AnswersFit(ops, blank)
    ensures var s := StateAfter(true, ops); HeldIffWatched(RowOf(s, key), TaskOf(s, key), blank)
  {
    if ops != [] {
      var front, op := ops[..|ops| - 1], ops[|ops| - 1];
      var s := StateAfter(true, front);
      HeldIffWatchedAlways(front, key, blank);
      InvariantsAlways(true, front);
      assert Serial(RowOf(s, key), TaskOf(s, key));
      OthersUntouched(s, op, key);
      if !op.Close? && op.key == key {
        HeldStep(key in s.closed, s.issued, RowOf(s, key), TaskOf(s, key), op, blank);
      }
    }
  }

  // ---------------------------------------------------------------- a failed upgrade

  function RunFrom(s: State, ops: seq<Op>): State
    decreases |ops|
  {
    if ops == [] then s else RunFrom(Next(s, ops[0]), ops[1..])
  }

  predicate OfOthers(ops: seq<Op>, key: string) {
    forall i :: 0 <= i < |ops| ==> ops[i].key != key || ops[i].Close?
  }

  lemma {:induction false} OthersRun(s: State, ops: seq<Op>, key: string)
    requires OfOthers(ops, key)
    ensures RowOf(RunFrom(s, ops), key) == RowOf(s, key) && TaskOf(RunFrom(s, ops), key) == TaskOf(s, key)
    decreases |ops|
  {
    if ops != [] {
      OthersUntouched(s, ops[0], key);
      OthersRun(Next(s, ops[0]), ops[1..], key);
    }
  }

  function Bumped(e: Entry): Entry {
    Entry(e.refs + 1, e.token, e.watches + 1)
  }

  lemma UpgradeStarts(s: State, key: string, agent: string)
    requires s.hasWorkspace && TaskOf(s, key).Idle?
    requires agent in RowOf(s, key) && RowOf(s, key)[agent].token.None?
    ensures var t := Next(s, Subscribe(key, agent, true));
      RowOf(t, key) == RowOf(s, key)[agent := Bumped(RowOf(s, key)[agent])] && TaskOf(t, key) == Upgrading(agent)
  {
    ApplyMeaning(s, key, Own(s, Subscribe(key, agent, true)), key);
  }

  lemma UpgradeRefused(s: State, key: string)
    requires TaskOf(s, key).Upgrading?
    ensures var t := Next(s, LiveAnswer(key, Failed));
      RowOf(t, key) == RowOf(s, key) && TaskOf(t, key) == UpgradeFailed(TaskOf(s, key).agent)
  {
    ApplyMeaning(s, key, Own(s, LiveAnswer(key, Failed)), key);
  }

  lemma UpgradeUndone(s: State, key: string, row: Row, agent: string)
    requires TaskOf(s, key) == UpgradeFailed(agent)
    requires agent in row && row[agent].refs >= 1 && row[agent].token.None?
    requires RowOf(s, key) == row[agent := Bumped(row[agent])]
    ensures RowOf(Next(s, RollBack(key)), key) == row && TaskOf(Next(s, RollBack(key)), key).Idle?
  {
    ApplyMeaning(s, key, Own(s, RollBack(key)), key);
    assert agent in RowOf(s, key);
    assert row[agent := Bumped(row[agent])][agent := row[agent]] == row;
  }

  /** A subscription whose live upgrade fails leaves the sender's entries as it found them,
      whatever the other senders do between its steps and even if it closes meanwhile. */
  lemma FailedUpgradeRestores(s: State, key: string, agent: string, others: seq<Op>, others': seq<Op>)
    requires s.hasWorkspace && TaskOf(s, key).Idle?
    requires Serial(RowOf(s, key), Idle) && agent in RowOf(s, key) && RowOf(s, key)[agent].token.None?
    requires OfOthers(others, key) && OfOthers(others', key)
    ensures var bumped := RunFrom(Next(s, Subscribe(key, agent, true)), others);
      var refused := RunFrom(Next(bumped, LiveAnswer(key, Failed)), others');
      var after := Next(refused, RollBack(key));
      RowOf(after, key) == RowOf(s, key) && TaskOf(after, key).Idle?
  {
    UpgradeStarts(s, key, agent);
    var s1 := Next(s, Subscribe(key, agent, true));
    OthersRun(s1, others, key);
    var s2 := RunFrom(s1, others);
    UpgradeRefused(s2, key);
    var s3 := Next(s2, LiveAnswer(key, Failed));
    OthersRun(s3, others', key);
    UpgradeUndone(RunFrom(s3, others'), key, RowOf(s, key), agent);
  }
}

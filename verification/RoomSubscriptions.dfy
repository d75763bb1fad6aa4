/** What the room registry holds and addresses, told from the operations alone: who wants which
    conversation, who is addressed a broadcast, and what is written on the event. */
module RoomSubscriptions {
  import opened Histories
  import opened Options
  import opened SortedKeys
  import opened RoomStream

  // ---------------------------------------------------------------- who wants what

  predicate Asks(op: Op, key: string, room: string, conversation: string) {
    op.Subscribe? && op.key == key && op.room == room && op.conversation == conversation
  }

  predicate Withdraws(op: Op, key: string, room: string, conversation: string) {
    op == Unsubscribe(key, room, conversation) || op == Unregister(key) || op == Remove(room)
  }

  /** The sender subscribed to the conversation, and since then has neither unsubscribed from it nor
      been unregistered, and the room has not been removed. */
  ghost predicate Wants(ops: seq<Op>, key: string, room: string, conversation: string) {
    Stands(ops, Asking(key, room, conversation), Withdrawing(key, room, conversation))
  }

  function Asking(key: string, room: string, conversation: string): Op -> bool {
    (op: Op) => Asks(op, key, room, conversation)
  }

  function Withdrawing(key: string, room: string, conversation: string): Op -> bool {
    (op: Op) => Withdraws(op, key, room, conversation)
  }

  predicate Stored(s: State, key: string, room: string, conversation: string) {
    room in s.roomSubs && key in s.roomSubs[room] && conversation in s.roomSubs[room][key]
  }

  lemma StoredStep(cap: nat, s: State, op: Op, key: string, room: string, conversation: string)
    requires IndexInvariant(s) && room != ""
    ensures Stored(Next(cap, s, op), key, room, conversation) <==>
      Asks(op, key, room, conversation)
      || (Stored(s, key, room, conversation) && !Withdraws(op, key, room, conversation)
          && !(op.Broadcast? && op.room == room && key in s.closed))
  {
    match op
    case Subscribe(_, _, _, _) => SubscribedStores(s, op, key, room, conversation);
    case Unsubscribe(k, r, c) => UnsubscribedStores(s, op, key, room, conversation);
    case Unregister(k) => UnregisteredStores(s, k, key, room, conversation);
    case Remove(r) => RemovedStores(s, r, key, room, conversation);
    case Broadcast(r, event) => PublishedStores(cap, s, r, event, key, room, conversation);
    case Close(_) =>
  }

  lemma SubscribedStores(s: State, op: Op, key: string, room: string, conversation: string)
    requires op.Subscribe? && room != ""
    ensures Stored(Subscribed(s, op), key, room, conversation) <==>
      Asks(op, key, room, conversation) || Stored(s, key, room, conversation)
  {}

  lemma RemovedStores(s: State, r: string, key: string, room: string, conversation: string)
    requires room != ""
    ensures Stored(Removed(s, r), key, room, conversation) <==> Stored(s, key, room, conversation) && r != room
  {}

  lemma PublishedStores(cap: nat, s: State, r: string, event: Event, key: string, room: string, conversation: string)
    ensures Stored(Published(cap, s, r, event), key, room, conversation) <==>
      Stored(s, key, room, conversation) && !(r == room && r != "" && key in s.closed)
  {
    if r == room && Stored(s, key, room, conversation) && key !in s.closed {
      assert key in s.roomSubs[room] - s.closed;
    }
  }

  lemma UnsubscribedStores(s: State, op: Op, key: string, room: string, conversation: string)
    requires op.Unsubscribe? && room != ""
    ensures Stored(Unsubscribed(s, op), key, room, conversation) <==>
      Stored(s, key, room, conversation) && op != Unsubscribe(key, room, conversation)
  {
    if op.room == room && Stored(s, key, room, conversation) {
      assert key != op.key ==> key in s.roomSubs[room] - {op.key};
      assert key == op.key && conversation != op.conversation
          ==> conversation in s.roomSubs[room][key] - {op.conversation};
    }
  }

  lemma UnregisteredStores(s: State, k: string, key: string, room: string, conversation: string)
    requires IndexInvariant(s)
    ensures Stored(Unregistered(s, k), key, room, conversation) <==> Stored(s, key, room, conversation) && k != key
  {
    if Stored(s, key, room, conversation) {
      assert Indexed(s, room, key);
      assert k != key ==> key in s.roomSubs[room] - {k};
    }
  }

  lemma {:induction false} ClosedAre(cap: nat, ops: seq<Op>, key: string)
    ensures key in StateAfter(cap, ops).closed <==> Close(key) in ops
    decreases |ops|
  {
    if ops != [] {
      var front, op := ops[..|ops| - 1], ops[|ops| - 1];
      ClosedAre(cap, front, key);
      assert ops == front + [op];
    }
  }

  /** In every reachable state the registry holds only conversations their senders want, and of a
      sender that is open all of them. */
  lemma {:induction false} HoldsWhatIsWanted(cap: nat, ops: seq<Op>, key: string, room: string, conversation: string)
    requires room != ""
    ensures Stored(StateAfter(cap, ops), key, room, conversation) ==> Wants(ops, key, room, conversation)
    ensures Close(key) !in ops && Wants(ops, key, room, conversation)
        ==> Stored(StateAfter(cap, ops), key, room, conversation)
    decreases |ops|
  {
    if ops != [] {
      var front, op := ops[..|ops| - 1], ops[|ops| - 1];
      var s := StateAfter(cap, front);
      assert ops == front + [op];
      HoldsWhatIsWanted(cap, front, key, room, conversation);
      StandsMore(front, op, Asking(key, room, conversation), Withdrawing(key, room, conversation));
      IndexInvariantAlways(cap, front);
      ClosedAre(cap, front, key);
      StoredStep(cap, s, op, key, room, conversation);
    }
  }

  // ---------------------------------------------------------------- the sender's side

  predicate Listed(s: State, key: string, room: string) {
    key in s.senderRooms && room in s.senderRooms[key]
  }

  predicate Present(s: State, key: string, room: string) {
    room in s.roomSubs && key in s.roomSubs[room]
  }

  lemma ListedStep(cap: nat, s: State, op: Op, key: string, room: string)
    requires IndexInvariant(s) && key !in s.closed
    requires Listed(s, key, room) ==> Present(s, key, room)
    ensures Listed(Next(cap, s, op), key, room) ==> Present(Next(cap, s, op), key, room)
  {
    match op
    case Subscribe(_, _, _, _) =>
    case Unsubscribe(_, _, _) => LeavingStep(s, op, key, room);
    case Unregister(k) =>
      if Listed(s, key, room) && k != key {
        assert key in s.roomSubs[room] - {k};
      }
    case Remove(r) =>
    case Broadcast(r, _) =>
      if Listed(s, key, room) && r == room {
        assert key in s.roomSubs[room] - s.closed;
      }
    case Close(_) =>
  }

  lemma LeavingStep(s: State, op: Op, key: string, room: string)
    requires op.Unsubscribe? && (Listed(s, key, room) ==> Present(s, key, room))
    ensures Listed(Unsubscribed(s, op), key, room) ==> Present(Unsubscribed(s, op), key, room)
  {
    if Listed(s, key, room) && op.room == room && op.key != key {
      assert key in s.roomSubs[room] - {op.key};
    }
  }

  lemma {:induction false} ListedIsPresent(cap: nat, ops: seq<Op>, key: string, room: string)
    requires Close(key) !in ops
    ensures Listed(StateAfter(cap, ops), key, room) ==> Present(StateAfter(cap, ops), key, room)
    decreases |ops|
  {
    if ops != [] {
      var front, op := ops[..|ops| - 1], ops[|ops| - 1];
      assert ops == front + [op];
      ListedIsPresent(cap, front, key, room);
      IndexInvariantAlways(cap, front);
      ClosedAre(cap, front, key);
      ListedStep(cap, StateAfter(cap, front), op, key, room);
    }
  }

  lemma {:induction false} NoEmptyRoom(cap: nat, ops: seq<Op>)
    ensures "" !in StateAfter(cap, ops).roomSubs
    decreases |ops|
  {
    if ops != [] {
      NoEmptyRoom(cap, ops[..|ops| - 1]);
    }
  }

  /** The rooms an open sender is listed with are those where it wants some conversation. */
  lemma ListedWhereWanted(cap: nat, ops: seq<Op>, key: string, room: string)
    requires Close(key) !in ops && room != ""
    ensures Listed(StateAfter(cap, ops), key, room) <==> exists c :: Wants(ops, key, room, c)
  {
    var s := StateAfter(cap, ops);
    IndexInvariantAlways(cap, ops);
    ListedIsPresent(cap, ops, key, room);
    if Present(s, key, room) {
      assert Indexed(s, room, key);
      var c :| c in s.roomSubs[room][key];
      HoldsWhatIsWanted(cap, ops, key, room, c);
    }
    if c :| Wants(ops, key, room, c) {
      HoldsWhatIsWanted(cap, ops, key, room, c);
      assert Indexed(s, room, key);
    }
  }

  /** A broadcast leaves no closed sender in its room. */
  lemma ClosedAreDropped(cap: nat, s: State, room: string, event: Event, key: string)
    requires room != "" && key in s.closed
    ensures !Present(Next(cap, s, Broadcast(room, event)), key, room)
  {}

  // ---------------------------------------------------------------- who is addressed what

  /** Some conversation the sender wants is that of the event; an empty one on either side stands
      for all. */
  ghost predicate WantsEvent(ops: seq<Op>, key: string, room: string, conversation: string) {
    exists c :: Wants(ops, key, room, c) && (c == conversation || c == "" || conversation == "")
  }

  /** How many events the registry has numbered for the room since it was last removed: those that
      are durable and came without a number. */
  function Numbered(ops: seq<Op>, room: string): nat {
    if ops == [] then 0
    else
      var before, op := Numbered(ops[..|ops| - 1], room), ops[|ops| - 1];
      if op == Remove(room) then 0
      else if op.Broadcast? && op.room == room && op.event.deliveryMode == "durable" && op.event.roomSeq == None
      then before + 1 else before
  }

  lemma {:induction false} NumberedIsHistory(ops: seq<Op>, room: string)
    requires room != ""
    ensures Numbered(ops, room) == |History(ops, room)|
    decreases |ops|
  {
    if ops != [] {
      NumberedIsHistory(ops[..|ops| - 1], room);
    }
  }

  /** The event as it was published, with the room filled in where it named none. */
  predicate Carries(sent: Event, published: Event, room: string) {
    && sent.payload == published.payload && sent.conversationId == published.conversationId
    && sent.deliveryMode == published.deliveryMode
    && sent.roomId == if published.roomId == "" then room else published.roomId
  }

  /** The one delivery of a broadcast: it carries the event, under the next number of the room if the
      event is durable and has none, under its own otherwise. */
  ghost predicate IsDelivery(d: Delivery, key: string, room: string, event: Event, next: int) {
    var numbered := event.deliveryMode == "durable" && event.roomSeq == None;
    && !d.ResyncRequired? && d.key == key && d.room == room && (d.Sequenced? <==> numbered)
    && Carries(d.event, event, room)
    && d.event.roomSeq == if numbered then Some(next) else event.roomSeq
  }

  /** What a broadcast addresses to a sender: one delivery if the sender is open and wants the event,
      else none. */
  lemma BroadcastReachesWhoWantsIt(cap: nat, ops: seq<Op>, room: string, event: Event, key: string)
    requires cap > 0 && room != ""
    ensures var sent := To(Emits(StateAfter(cap, ops), Broadcast(room, event)), key);
      if Close(key) !in ops && WantsEvent(ops, key, room, event.conversationId)
      then |sent| == 1 && IsDelivery(sent[0], key, room, event, Numbered(ops, room) + 1)
      else sent == []
  {
    var s := StateAfter(cap, ops);
    BroadcastReachesExactly(s, room, event, key);
    CounterIsNumbered(cap, ops, room);
    PreparedIsDelivery(room, event, Numbered(ops, room), key);
    ClosedAre(cap, ops, key);
    EntitledIffWanted(cap, ops, room, event.conversationId, key);
  }

  lemma PreparedIsDelivery(room: string, event: Event, counter: int, key: string)
    ensures var prepared := Prepare(room, event, counter);
      IsDelivery(if Sequences(event) then Sequenced(key, room, prepared) else Passthrough(key, room, prepared),
                 key, room, event, counter + 1)
  {}

  lemma CounterIsNumbered(cap: nat, ops: seq<Op>, room: string)
    requires cap > 0 && room != ""
    ensures Lookup(StateAfter(cap, ops).roomSequences, room, 0) == Numbered(ops, room)
  {
    BufferIsRecentHistory(cap, ops, room);
    NumberedIsHistory(ops, room);
  }

  lemma EntitledIffWanted(cap: nat, ops: seq<Op>, room: string, conversation: string, key: string)
    requires room != ""
    ensures Entitled(StateAfter(cap, ops), key, room, conversation) ==> WantsEvent(ops, key, room, conversation)
    ensures Close(key) !in ops && WantsEvent(ops, key, room, conversation)
      ==> Entitled(StateAfter(cap, ops), key, room, conversation)
  {
    var s := StateAfter(cap, ops);
    if Entitled(s, key, room, conversation) {
      var c :| c in s.roomSubs[room][key] && ConversationMatches(c, conversation);
      assert Stored(s, key, room, c);
      HoldsWhatIsWanted(cap, ops, key, room, c);
    }
    if Close(key) !in ops && WantsEvent(ops, key, room, conversation) {
      var c :| Wants(ops, key, room, c) && (c == conversation || c == "" || conversation == "");
      HoldsWhatIsWanted(cap, ops, key, room, c);
      assert ConversationMatches(c, conversation);
    }
  }

  /** By the end of step `i` its receiver wants the event. */
  ghost predicate WantedAt(ops: seq<Op>, i: nat, d: Delivery)
    requires !d.ResyncRequired?
  {
    i < |ops| && WantsEvent(ops[..i + 1], d.key, d.room, d.event.conversationId)
  }

  /** Isolation over every run, told from the operations: an event is addressed to a sender only by a
      step at which it wants it. */
  lemma NothingUnwanted(cap: nat, ops: seq<Op>, from: nat, d: Delivery)
    requires d in Addressed(cap, ops, from) && !d.ResyncRequired?
    ensures exists i :: from <= i < |ops| && WantedAt(ops, i, d)
  {
    NothingElseAddressed(cap, ops, from, d);
    var i :| from <= i < |ops| && DeservedAt(cap, ops, i, d);
    StateThen(cap, ops, i);
    DeservedIsEntitled(cap, StateAfter(cap, ops[..i]), ops[i], d);
    NoEmptyRoom(cap, ops[..i + 1]);
    EntitledIffWanted(cap, ops[..i + 1], d.room, d.event.conversationId, d.key);
    assert WantedAt(ops, i, d);
  }

  lemma StateThen(cap: nat, ops: seq<Op>, i: nat)
    requires i < |ops|
    ensures StateAfter(cap, ops[..i + 1]) == Next(cap, StateAfter(cap, ops[..i]), ops[i])
  {
    assert ops[..i + 1][..i] == ops[..i];
  }

  lemma DeservedIsEntitled(cap: nat, s: State, op: Op, d: Delivery)
    requires Deserved(cap, s, op, d) && !d.ResyncRequired?
    ensures Entitled(Next(cap, s, op), d.key, d.room, d.event.conversationId)
  {}

  /** No subscription to the conversation, or to all of the room, since step `at`. */
  ghost predicate NotAskedSince(ops: seq<Op>, at: nat, key: string, room: string, conversation: string) {
    forall j :: at < j < |ops| ==> !Asks(ops[j], key, room, conversation) && !Asks(ops[j], key, room, "")
  }

  /** After its unsubscription from a conversation, and without a subscription to all conversations
      of the room, a sender is addressed no event of it until it subscribes again. */
  lemma SilentAfterUnsubscribe(cap: nat, ops: seq<Op>, at: nat, key: string, room: string, conversation: string,
        d: Delivery)
    requires at < |ops| && ops[at] == Unsubscribe(key, room, conversation) && conversation != ""
    requires NotAskedSince(ops, at, key, room, conversation)
    requires !Wants(ops[..at], key, room, "")
    requires d in Addressed(cap, ops, at) && !d.ResyncRequired? && d.key == key && d.room == room
    ensures d.event.conversationId != conversation
  {
    var i := WantedStep(cap, ops, at, d);
    NeitherWanted(ops, at, i + 1, key, room, conversation);
  }

  lemma WantedStep(cap: nat, ops: seq<Op>, from: nat, d: Delivery) returns (i: nat)
    requires d in Addressed(cap, ops, from) && !d.ResyncRequired?
    ensures from <= i < |ops| && WantsEvent(ops[..i + 1], d.key, d.room, d.event.conversationId)
  {
    NothingUnwanted(cap, ops, from, d);
    i :| from <= i < |ops| && WantedAt(ops, i, d);
  }

  lemma NeitherWanted(ops: seq<Op>, at: nat, i: nat, key: string, room: string, conversation: string)
    requires at < i <= |ops| && ops[at] == Unsubscribe(key, room, conversation) && conversation != ""
    requires NotAskedSince(ops, at, key, room, conversation)
    requires !Wants(ops[..at], key, room, "")
    ensures !WantsEvent(ops[..i], key, room, conversation)
  {
    assert ops[..i][..at] == ops[..at];
    ClearedStays(ops[..i], at, Asking(key, room, conversation), Withdrawing(key, room, conversation));
    UnsetStays(ops[..i], at, Asking(key, room, ""), Withdrawing(key, room, ""));
  }

  // ---------------------------------------------------------------- replays

  /** A subscription without a positive last-seen number addresses nothing. */
  lemma NoReplayUnasked(s: State, key: string, room: string, conversation: string, lastSeen: Option<int>)
    requires room == "" || lastSeen.None? || lastSeen.value <= 0
    ensures Emits(s, Subscribe(key, room, conversation, lastSeen)) == []
  {}

  /** The broadcast at step `i` is the one that got number `n`. */
  ghost predicate GotNumber(ops: seq<Op>, i: nat, room: string, n: nat) {
    && i < |ops| && ops[i].Broadcast? && ops[i].room == room
    && ops[i].event.deliveryMode == "durable" && ops[i].event.roomSeq == None
    && Numbered(ops[..i], room) + 1 == n
    && forall j :: i < j < |ops| ==> ops[j] != Remove(room)
  }

  /** Each event of the history is a broadcast of the run, since the room was last removed, under the
      number it got. */
  lemma {:induction false} HistoryIsBroadcasts(ops: seq<Op>, room: string, n: nat) returns (i: nat)
    requires room != "" && n < |History(ops, room)|
    ensures GotNumber(ops, i, room, n + 1)
    ensures Carries(History(ops, room)[n], ops[i].event, room) && History(ops, room)[n].roomSeq == Some(n + 1)
    decreases |ops|
  {
    var front, op := ops[..|ops| - 1], ops[|ops| - 1];
    var h := History(front, room);
    if n < |h| {
      i := HistoryIsBroadcasts(front, room, n);
      assert front[..i] == ops[..i];
    } else {
      i := |front|;
      NumberedIsHistory(front, room);
    }
  }

  /** Which events a replay from a positive last-seen number addresses, when nothing needed has been
      evicted: those numbered above it whose conversation is the one asked for, an empty one on either
      side standing for all. */
  lemma ReplayedAre(cap: nat, ops: seq<Op>, key: string, room: string, conversation: string, lastSeen: int, n: nat)
    requires cap > 0 && lastSeen > 0 && room != ""
    requires lastSeen >= Evicted(cap, History(ops, room)) && n < |History(ops, room)|
    ensures var e := History(ops, room)[n];
      Sequenced(key, room, e) in Emits(StateAfter(cap, ops), Subscribe(key, room, conversation, Some(lastSeen))) <==>
        n + 1 > lastSeen && (e.conversationId == conversation || conversation == "" || e.conversationId == "")
  {
    var h := History(ops, room);
    var start := Min(lastSeen, |h|);
    ReplayOrResync(cap, ops, key, room, conversation, lastSeen);
    BufferIsRecentHistory(cap, ops, room);
    MatchingIsExactlyOnce(h, start, conversation);
    var m := Matching(h[start..], conversation);
    SequencedIn(key, room, m, h[n]);
    if n < start {
      assert h[n].roomSeq == Some(n + 1);
    }
  }

  lemma {:induction false} SequencedIn(key: string, room: string, events: seq<Event>, e: Event)
    ensures Sequenced(key, room, e) in SequencedAll(key, room, events) <==> e in events
  {
    if events != [] {
      SequencedIn(key, room, events[1..], e);
      assert events == [events[0]] + events[1..];
    }
  }
}

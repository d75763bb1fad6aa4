/** The room event stream: per-room sequence numbers, a bounded replay buffer, live fan-out
    and "replay or resync" on reconnect, as a state machine whose steps are the regions the
    registry runs under its mutex. */
module RoomStream {
  import opened Options
  import opened SortedKeys

  datatype Event = Event(roomId: string, conversationId: string, deliveryMode: string,
                         roomSeq: Option<int>, payload: string)

  /** What one locked region decides to send to one sender; the sending happens later. */
  datatype Delivery =
    | Sequenced(key: string, room: string, event: Event)    // stamped by this registry
    | Passthrough(key: string, room: string, event: Event)  // not durable, or stamped elsewhere
    | ResyncRequired(key: string, room: string, conversation: string,
                     lastSeen: int, latest: int, bufferStart: Option<int>)

  type Subscribers = map<string, set<string>>  // sender key -> conversation ids

  datatype State = State(
    roomSubs: map<string, Subscribers>,
    senderRooms: map<string, set<string>>,
    roomSequences: map<string, int>,
    roomReplay: map<string, seq<Event>>,
    closed: set<string>)  // the senders whose connection is closed

  const INIT := State(map[], map[], map[], map[], {})

  /** A step is a locked region. That of a subscription is reached only if the sender answered,
      before the lock was taken, that it is open; it may have closed since. */
  datatype Op =
    | Subscribe(key: string, room: string, conversation: string, lastSeen: Option<int>)
    | Unsubscribe(key: string, room: string, conversation: string)
    | Unregister(key: string)
    | Remove(room: string)
    | Broadcast(room: string, event: Event)
    | Close(key: string)

  // ---------------------------------------------------------------- matching and replay

  predicate ConversationMatches(subscribed: string, event: string) {
    subscribed == "" || event == "" || subscribed == event
  }

  predicate SubscriptionMatches(conversations: set<string>, event: string) {
    exists c :: c in conversations && ConversationMatches(c, event)
  }

  predicate Sequences(event: Event) {
    event.deliveryMode == "durable" && event.roomSeq.None?
  }

  /** prepareRoomEventLocked: the event as it is sent, given the room's counter. */
  function Prepare(room: string, event: Event, counter: int): Event {
    var named := if event.roomId == "" then event.(roomId := room) else event;
    if Sequences(event) then named.(roomSeq := Some(counter + 1)) else named
  }

  function Min(a: nat, b: nat): nat {
    if a < b then a else b
  }

  /** The replay loop: events after the last seen one that match the conversation. */
  function ReplayFrom(key: string, room: string, conversation: string, lastSeen: int,
        buffer: seq<Event>): seq<Delivery> {
    if buffer == [] then []
    else
      var e, rest := buffer[0], ReplayFrom(key, room, conversation, lastSeen, buffer[1..]);
      if e.roomSeq.None? || e.roomSeq.value <= lastSeen || !ConversationMatches(conversation, e.conversationId)
      then rest else [Sequenced(key, room, e)] + rest
  }

  /** replayRoomEvents, with all its branches. */
  function ReplayPlan(key: string, room: string, conversation: string, lastSeen: int, latest: int,
        buffer: seq<Event>): seq<Delivery> {
    if latest <= lastSeen then []
    else if |buffer| == 0 then [ResyncRequired(key, room, conversation, lastSeen, latest, None)]
    else
      var earliest := if buffer[0].roomSeq.Some? then buffer[0].roomSeq.value else 0;
      if earliest == 0 then []
      else if lastSeen < earliest - 1 then [ResyncRequired(key, room, conversation, lastSeen, latest, Some(earliest))]
      else ReplayFrom(key, room, conversation, lastSeen, buffer)
  }

  // ---------------------------------------------------------------- the locked regions

  function WithEntry<K, V>(m: map<K, V>, k: K, v: V, keep: bool): map<K, V> {
    if keep then m[k := v] else m - {k}
  }

  function Subscribed(s: State, op: Op): State
    requires op.Subscribe?
  {
    if op.room == "" then s
    else
      var subs := Lookup(s.roomSubs, op.room, map[]);
      var conversations := Lookup(subs, op.key, {}) + {op.conversation};
      s.(roomSubs := s.roomSubs[op.room := subs[op.key := conversations]],
         senderRooms := s.senderRooms[op.key := Lookup(s.senderRooms, op.key, {}) + {op.room}])
  }

  function Unsubscribed(s: State, op: Op): State
    requires op.Unsubscribe?
  {
    var subs := Lookup(s.roomSubs, op.room, map[]);
    if op.room == "" || op.key !in subs then s
    else
      var conversations := subs[op.key] - {op.conversation};
      if conversations != {} then
        s.(roomSubs := s.roomSubs[op.room := subs[op.key := conversations]])
      else
        var left := subs - {op.key};
        var rooms := Lookup(s.senderRooms, op.key, {});
        s.(roomSubs := WithEntry(s.roomSubs, op.room, left, left != map[]),
           senderRooms := if rooms == {} then s.senderRooms
                          else WithEntry(s.senderRooms, op.key, rooms - {op.room}, rooms - {op.room} != {}))
  }

  /** roomSubs after `key` is dropped from each of `rooms`, emptied rooms being deleted. */
  function DropSender(roomSubs: map<string, Subscribers>, rooms: set<string>, key: string): map<string, Subscribers> {
    map r | r in roomSubs && (r in rooms ==> roomSubs[r] - {key} != map[])
          :: if r in rooms then roomSubs[r] - {key} else roomSubs[r]
  }

  /** senderRooms after `room` is dropped from each of `keys`, emptied senders being deleted. */
  function DropRoom(senderRooms: map<string, set<string>>, keys: set<string>, room: string): map<string, set<string>> {
    map k | k in senderRooms && (k in keys ==> senderRooms[k] - {room} != {})
          :: if k in keys then senderRooms[k] - {room} else senderRooms[k]
  }

  function Unregistered(s: State, key: string): State {
    s.(roomSubs := DropSender(s.roomSubs, Lookup(s.senderRooms, key, {}), key),
       senderRooms := s.senderRooms - {key})
  }

  function Removed(s: State, room: string): State {
    if room == "" then s
    else
      s.(senderRooms := DropRoom(s.senderRooms, Lookup(s.roomSubs, room, map[]).Keys, room),
         roomSubs := s.roomSubs - {room},
         roomSequences := s.roomSequences - {room},
         roomReplay := s.roomReplay - {room})
  }

  function Published(cap: nat, s: State, room: string, event: Event): State {
    if room == "" then s
    else
      var sequenced :=
        if !Sequences(event) then s
        else
          var counter := Lookup(s.roomSequences, room, 0);
          s.(roomSequences := s.roomSequences[room := counter + 1],
             roomReplay := s.roomReplay[
               room := LastN(Lookup(s.roomReplay, room, []) + [Prepare(room, event, counter)], cap)]);
      sequenced.(roomSubs := Pruned(s.roomSubs, room, s.closed))
  }

  /** matchingSubscribersLocked deletes the closed senders of the room it looks at. */
  function Pruned(roomSubs: map<string, Subscribers>, room: string, closed: set<string>): map<string, Subscribers> {
    if room !in roomSubs || roomSubs[room] == map[] then roomSubs
    else WithEntry(roomSubs, room, roomSubs[room] - closed, roomSubs[room] - closed != map[])
  }

  /** Open senders of the room with a subscription that matches the conversation. */
  function Targets(s: State, room: string, conversation: string): set<string> {
    var subs := Lookup(s.roomSubs, room, map[]);
    set k | k in subs && k !in s.closed && SubscriptionMatches(subs[k], conversation)
  }

  function Address(room: string, prepared: Event, sequenced: bool, keys: seq<string>): seq<Delivery> {
    if keys == [] then []
    else [if sequenced then Sequenced(keys[0], room, prepared) else Passthrough(keys[0], room, prepared)]
         + Address(room, prepared, sequenced, keys[1..])
  }

  function Next(cap: nat, s: State, op: Op): State {
    match op
    case Subscribe(_, _, _, _) => Subscribed(s, op)
    case Unsubscribe(_, _, _) => Unsubscribed(s, op)
    case Unregister(key) => Unregistered(s, key)
    case Remove(room) => Removed(s, room)
    case Broadcast(room, event) => Published(cap, s, room, event)
    case Close(key) => s.(closed := s.closed + {key})
  }

  ghost function Emits(s: State, op: Op): seq<Delivery> {
    match op
    case Subscribe(key, room, conversation, lastSeen) =>
      if room == "" || lastSeen.None? || lastSeen.value <= 0 then []
      else ReplayPlan(key, room, conversation, lastSeen.value,
                      Lookup(s.roomSequences, room, 0), Lookup(s.roomReplay, room, []))
    case Broadcast(room, event) =>
      if room == "" then []
      else
        var prepared := Prepare(room, event, Lookup(s.roomSequences, room, 0));
        Address(room, prepared, Sequences(event), Sorted(Targets(s, room, event.conversationId)))
    case _ => []
  }

  // ---------------------------------------------------------------- runs

  function StateAfter(cap: nat, ops: seq<Op>): State {
    if ops == [] then INIT else Next(cap, StateAfter(cap, ops[..|ops| - 1]), ops[|ops| - 1])
  }

  /** Everything the steps of `ops` from position `from` on address to anyone. */
  ghost function Addressed(cap: nat, ops: seq<Op>, from: nat): seq<Delivery> {
    if |ops| <= from then []
    else Addressed(cap, ops[..|ops| - 1], from) + Emits(StateAfter(cap, ops[..|ops| - 1]), ops[|ops| - 1])
  }

  /** The reference: every event the registry has to sequence for a room since the room was
      last removed, stamped 1, 2, 3, ... It is read off the operations alone. */
  function History(ops: seq<Op>, room: string): seq<Event> {
    if ops == [] then [] else Recorded(History(ops[..|ops| - 1], room), ops[|ops| - 1], room)
  }

  function Recorded(h: seq<Event>, op: Op, room: string): seq<Event> {
    if op == Remove(room) && room != "" then []
    else if op.Broadcast? && op.room == room != "" && Sequences(op.event)
    then h + [Prepare(room, op.event, |h|)]
    else h
  }

  function Matching(events: seq<Event>, conversation: string): seq<Event> {
    if events == [] then []
    else
      var rest := Matching(events[1..], conversation);
      if ConversationMatches(conversation, events[0].conversationId) then [events[0]] + rest else rest
  }

  /** The sequenced events of a room that were addressed to a sender and match a conversation. */
  function Received(deliveries: seq<Delivery>, key: string, room: string, conversation: string): seq<Event> {
    if deliveries == [] then []
    else
      var d, rest := deliveries[0], Received(deliveries[1..], key, room, conversation);
      if d.Sequenced? && d.key == key && d.room == room && ConversationMatches(conversation, d.event.conversationId)
      then [d.event] + rest else rest
  }

  function Resyncs(deliveries: seq<Delivery>, key: string, room: string): seq<Delivery> {
    if deliveries == [] then []
    else
      var d, rest := deliveries[0], Resyncs(deliveries[1..], key, room);
      if d.ResyncRequired? && d.key == key && d.room == room then [d] + rest else rest
  }

  // ---------------------------------------------------------------- the buffer refines the history

  ghost predicate BufferAgrees(cap: nat, s: State, h: seq<Event>, room: string) {
    StreamAgrees(cap, Lookup(s.roomSequences, room, 0), Lookup(s.roomReplay, room, []), h)
  }

  ghost predicate StreamAgrees(cap: nat, counter: int, buffer: seq<Event>, h: seq<Event>) {
    && counter == |h|
    && buffer == LastN(h, cap)
    && forall i :: 0 <= i < |h| ==> h[i].roomSeq == Some(i + 1)
  }

  /** What a step does to one room's counter and buffer. */
  lemma StreamStep(cap: nat, s: State, op: Op, room: string)
    ensures var t := Next(cap, s, op);
      var counter, buffer := Lookup(s.roomSequences, room, 0), Lookup(s.roomReplay, room, []);
      var sequenced := op.Broadcast? && op.room == room != "" && Sequences(op.event);
      && Lookup(t.roomSequences, room, 0)
         == (if op == Remove(room) && room != "" then 0 else if sequenced then counter + 1 else counter)
      && Lookup(t.roomReplay, room, [])
         == (if op == Remove(room) && room != "" then []
             else if sequenced then LastN(buffer + [Prepare(room, op.event, counter)], cap) else buffer)
  {
    match op
    case Subscribe(_, _, _, _) =>
    case Unsubscribe(_, _, _) =>
    case Unregister(_) =>
    case Remove(_) =>
    case Broadcast(_, _) =>
    case Close(_) =>
  }

  lemma AppendKeepsAgreement(cap: nat, counter: int, buffer: seq<Event>, h: seq<Event>, room: string, event: Event)
    requires cap > 0 && Sequences(event) && StreamAgrees(cap, counter, buffer, h)
    ensures var e := Prepare(room, event, counter); StreamAgrees(cap, counter + 1, LastN(buffer + [e], cap), h + [e])
  {
    var e := Prepare(room, event, counter);
    assert LastN(LastN(h, cap) + [e], cap) == LastN(h + [e], cap);
  }

  lemma BufferStep(cap: nat, s: State, h: seq<Event>, op: Op, room: string)
    requires cap > 0 && BufferAgrees(cap, s, h, room)
    ensures BufferAgrees(cap, Next(cap, s, op), Recorded(h, op, room), room)
  {
    StreamStep(cap, s, op, room);
    if op.Broadcast? && Sequences(op.event) {
      AppendKeepsAgreement(cap, Lookup(s.roomSequences, room, 0), Lookup(s.roomReplay, room, []), h, room, op.event);
    }
  }

  /** The replay buffer holds the last min(cap, counter) sequenced events, and the counter is
      the number of events sequenced since the room was last removed. */
  lemma {:induction false} BufferIsRecentHistory(cap: nat, ops: seq<Op>, room: string)
    requires cap > 0
    ensures BufferAgrees(cap, StateAfter(cap, ops), History(ops, room), room)
  {
    if ops != [] {
      BufferIsRecentHistory(cap, ops[..|ops| - 1], room);
      BufferStep(cap, StateAfter(cap, ops[..|ops| - 1]), History(ops[..|ops| - 1], room), ops[|ops| - 1], room);
    }
  }

  /** The events, each addressed to the sender. */
  function SequencedAll(key: string, room: string, events: seq<Event>): seq<Delivery> {
    if events == [] then [] else [Sequenced(key, room, events[0])] + SequencedAll(key, room, events[1..])
  }

  lemma {:induction false} ReceivedOfAll(key: string, room: string, conversation: string, events: seq<Event>)
    ensures var plan := SequencedAll(key, room, Matching(events, conversation));
      && Received(plan, key, room, conversation) == Matching(events, conversation)
      && Resyncs(plan, key, room) == []
  {
    if events != [] {
      ReceivedOfAll(key, room, conversation, events[1..]);
      var rest := Matching(events[1..], conversation);
      var plan := SequencedAll(key, room, rest);
      assert ([events[0]] + rest)[1..] == rest;
      assert ([Sequenced(key, room, events[0])] + plan)[1..] == plan;
    }
  }

  lemma {:induction false} ReplayFromRecent(key: string, room: string, conversation: string, lastSeen: nat,
        h: seq<Event>, from: nat)
    requires from <= |h|
    requires forall i :: 0 <= i < |h| ==> h[i].roomSeq == Some(i + 1)
    ensures var start := if lastSeen < from then from else Min(lastSeen, |h|);
      ReplayFrom(key, room, conversation, lastSeen, h[from..])
          == SequencedAll(key, room, Matching(h[start..], conversation))
    decreases |h| - from
  {
    if from < |h| {
      assert h[from..][1..] == h[from + 1..];
      ReplayFromRecent(key, room, conversation, lastSeen, h, from + 1);
      var rest := Matching(h[from + 1..], conversation);
      assert ([h[from]] + rest)[1..] == rest;
    }
  }

  /** How many of the room's sequenced events the buffer no longer holds. */
  function Evicted(cap: nat, h: seq<Event>): nat {
    if |h| > cap then |h| - cap else 0
  }

  lemma PlanOnHistory(cap: nat, h: seq<Event>, key: string, room: string, conversation: string, lastSeen: nat)
    requires cap > 0 && lastSeen > 0
    requires forall i :: 0 <= i < |h| ==> h[i].roomSeq == Some(i + 1)
    ensures ReplayPlan(key, room, conversation, lastSeen, |h|, LastN(h, cap)) ==
      if lastSeen < Evicted(cap, h)
      then [ResyncRequired(key, room, conversation, lastSeen, |h|, Some(Evicted(cap, h) + 1))]
      else SequencedAll(key, room, Matching(h[Min(lastSeen, |h|)..], conversation))
  {
    var evicted := Evicted(cap, h);
    assert LastN(h, cap) == h[evicted..];
    if lastSeen < |h| {
      assert LastN(h, cap)[0] == h[evicted];
      ReplayFromRecent(key, room, conversation, lastSeen, h, evicted);
    }
  }

  /** In every reachable state, for a positive last seen number, the plan is exactly one resync
      (naming the first buffered number) if a number the client still needs has been evicted, and
      otherwise the matching events it has not seen, in order, and nothing else; that is nothing at
      all when it is up to date. The resync without a buffer start is never sent. */
  lemma ReplayOrResync(cap: nat, ops: seq<Op>, key: string, room: string, conversation: string, lastSeen: int)
    requires cap > 0 && lastSeen > 0 && room != ""
    ensures var h := History(ops, room);
      Emits(StateAfter(cap, ops), Subscribe(key, room, conversation, Some(lastSeen))) ==
        if lastSeen < Evicted(cap, h)
        then [ResyncRequired(key, room, conversation, lastSeen, |h|, Some(Evicted(cap, h) + 1))]
        else SequencedAll(key, room, Matching(h[Min(lastSeen, |h|)..], conversation))
  {
    BufferIsRecentHistory(cap, ops, room);
    PlanOnHistory(cap, History(ops, room), key, room, conversation, lastSeen);
  }

  // ---------------------------------------------------------------- live delivery

  predicate Holds(s: State, key: string, room: string, conversation: string) {
    key !in s.closed && room in s.roomSubs && key in s.roomSubs[room] && conversation in s.roomSubs[room][key]
  }

  /** The operations that leave `key` open and subscribed to `conversation` of `room` without
      asking for a second replay, and leave the room in place. Anything else may happen,
      including other subscriptions of the same sender. */
  predicate LeavesSubscribed(op: Op, key: string, room: string, conversation: string) {
    match op
    case Subscribe(k, r, _, lastSeen) => k == key && r == room ==> lastSeen.None? || lastSeen.value <= 0
    case Unsubscribe(k, r, c) => !(k == key && r == room && c == conversation)
    case Unregister(k) => k != key
    case Remove(r) => r != room
    case Broadcast(_, _) => true
    case Close(k) => k != key
  }

  lemma StaysSubscribed(cap: nat, s: State, op: Op, key: string, room: string, conversation: string)
    requires Holds(s, key, room, conversation) && LeavesSubscribed(op, key, room, conversation)
    ensures Holds(Next(cap, s, op), key, room, conversation)
  {
    match op
    case Subscribe(_, _, _, _) =>
    case Unsubscribe(k, r, c) =>
      if r == room {
        assert k != key ==> key in s.roomSubs[room] - {k};
        assert k == key ==> conversation in s.roomSubs[room][key] - {c};
      }
    case Unregister(k) =>
      assert key in s.roomSubs[room] - {k};
    case Remove(_) =>
    case Broadcast(r, _) =>
      if r == room { assert key in s.roomSubs[room] - s.closed; }
    case Close(_) =>
  }

  lemma {:induction false} ReceivedAppend(a: seq<Delivery>, b: seq<Delivery>, key: string, room: string,
        conversation: string)
    ensures Received(a + b, key, room, conversation)
        == Received(a, key, room, conversation) + Received(b, key, room, conversation)
  {
    if a == [] {
      assert a + b == b;
    } else {
      assert (a + b)[1..] == a[1..] + b;
      ReceivedAppend(a[1..], b, key, room, conversation);
    }
  }

  lemma {:induction false} ResyncsAppend(a: seq<Delivery>, b: seq<Delivery>, key: string, room: string)
    ensures Resyncs(a + b, key, room) == Resyncs(a, key, room) + Resyncs(b, key, room)
  {
    if a == [] {
      assert a + b == b;
    } else {
      assert (a + b)[1..] == a[1..] + b;
      ResyncsAppend(a[1..], b, key, room);
    }
  }

  lemma {:induction false} MatchingAppend(a: seq<Event>, b: seq<Event>, conversation: string)
    ensures Matching(a + b, conversation) == Matching(a, conversation) + Matching(b, conversation)
  {
    if a == [] {
      assert a + b == b;
    } else {
      assert (a + b)[1..] == a[1..] + b;
      MatchingAppend(a[1..], b, conversation);
    }
  }

  lemma MatchingSplit(h0: seq<Event>, h: seq<Event>, start: nat, conversation: string)
    requires h0 <= h && start <= |h0|
    ensures Matching(h[start..], conversation)
        == Matching(h0[start..], conversation) + Matching(h[|h0|..], conversation)
  {
    MatchingAppend(h0[start..], h[|h0|..], conversation);
    assert h[start..] == h0[start..] + h[|h0|..];
  }

  lemma {:induction false} AddressedOnce(room: string, prepared: Event, sequenced: bool, keys: seq<string>, key: string,
        r: string, conversation: string)
    requires Ascending(keys)
    ensures Resyncs(Address(room, prepared, sequenced, keys), key, r) == []
    ensures Received(Address(room, prepared, sequenced, keys), key, r, conversation)
         == if sequenced && key in keys && r == room && ConversationMatches(conversation, prepared.conversationId)
            then [prepared] else []
  {
    if keys != [] {
      LessIsTotal(key, key);
      assert forall j :: 0 <= j < |keys| - 1 ==> keys[1..][j] == keys[j + 1];
      AddressedOnce(room, prepared, sequenced, keys[1..], key, r, conversation);
      var rest := Address(room, prepared, sequenced, keys[1..]);
      assert Address(room, prepared, sequenced, keys)[1..] == rest;
    }
  }

  lemma HistoryStep(ops: seq<Op>, op: Op, room: string)
    ensures History(ops + [op], room) == Recorded(History(ops, room), op, room)
  {
    assert (ops + [op])[..|ops|] == ops;
  }

  /** One step under a standing subscription addresses exactly the matching part of what it
      adds to the history, and never a resync. */
  lemma LiveStep(cap: nat, ops: seq<Op>, op: Op, key: string, room: string, conversation: string)
    requires cap > 0 && room != ""
    requires Holds(StateAfter(cap, ops), key, room, conversation) && LeavesSubscribed(op, key, room, conversation)
    ensures var s := StateAfter(cap, ops);
      && History(ops, room) <= History(ops + [op], room)
      && Received(Emits(s, op), key, room, conversation)
         == Matching(History(ops + [op], room)[|History(ops, room)|..], conversation)
      && Resyncs(Emits(s, op), key, room) == []
  {
    var s := StateAfter(cap, ops);
    HistoryStep(ops, op, room);
    match op
    case Broadcast(r, event) =>
      if r != "" { LiveBroadcast(cap, ops, r, event, key, room, conversation); }
    case Subscribe(k, r, c, lastSeen) =>
      if !(k == key && r == room) {
        ElsewhereReplay(k, r, c, lastSeen, s, key, room, conversation);
      }
    case _ =>
  }

  lemma LiveBroadcast(cap: nat, ops: seq<Op>, r: string, event: Event, key: string, room: string, conversation: string)
    requires cap > 0 && r != "" && Holds(StateAfter(cap, ops), key, room, conversation)
    ensures var s := StateAfter(cap, ops);
      && Received(Emits(s, Broadcast(r, event)), key, room, conversation)
         == (if r == room && Sequences(event) && ConversationMatches(conversation, event.conversationId)
             then [Prepare(room, event, |History(ops, room)|)] else [])
      && Resyncs(Emits(s, Broadcast(r, event)), key, room) == []
  {
    var s := StateAfter(cap, ops);
    BufferIsRecentHistory(cap, ops, r);
    var prepared := Prepare(r, event, Lookup(s.roomSequences, r, 0));
    var targets := Targets(s, r, event.conversationId);
    AddressedOnce(r, prepared, Sequences(event), Sorted(targets), key, room, conversation);
    if r == room && ConversationMatches(conversation, event.conversationId) {
      assert SubscriptionMatches(s.roomSubs[room][key], event.conversationId);
      assert key in targets;
    }
  }

  lemma ElsewhereReplay(k: string, r: string, c: string, lastSeen: Option<int>, s: State, key: string, room: string,
        conversation: string)
    requires !(k == key && r == room)
    ensures Received(Emits(s, Subscribe(k, r, c, lastSeen)), key, room, conversation) == []
    ensures Resyncs(Emits(s, Subscribe(k, r, c, lastSeen)), key, room) == []
  {
    if lastSeen.Some? {
      ReplayElsewhere(k, r, c, lastSeen.value, Lookup(s.roomReplay, r, []), key, room, conversation);
    }
  }

  lemma {:induction false} ReplayElsewhere(k: string, r: string, c: string, lastSeen: int, buffer: seq<Event>,
        key: string, room: string, conversation: string)
    requires !(k == key && r == room)
    ensures Received(ReplayFrom(k, r, c, lastSeen, buffer), key, room, conversation) == []
    ensures Resyncs(ReplayFrom(k, r, c, lastSeen, buffer), key, room) == []
  {
    if buffer != [] {
      ReplayElsewhere(k, r, c, lastSeen, buffer[1..], key, room, conversation);
      var rest := ReplayFrom(k, r, c, lastSeen, buffer[1..]);
      assert ([Sequenced(k, r, buffer[0])] + rest)[1..] == rest;
    }
  }

  // ---------------------------------------------------------------- no loss, no duplication

  lemma {:induction false} LiveRun(cap: nat, ops: seq<Op>, from: nat, key: string, room: string, conversation: string)
    requires cap > 0 && room != "" && from <= |ops|
    requires Holds(StateAfter(cap, ops[..from]), key, room, conversation)
    requires forall i :: from <= i < |ops| ==> LeavesSubscribed(ops[i], key, room, conversation)
    ensures Holds(StateAfter(cap, ops), key, room, conversation)
    ensures History(ops[..from], room) <= History(ops, room)
    ensures Received(Addressed(cap, ops, from), key, room, conversation)
         == Matching(History(ops, room)[|History(ops[..from], room)|..], conversation)
    ensures Resyncs(Addressed(cap, ops, from), key, room) == []
    decreases |ops|
  {
    if |ops| == from {
      assert ops[..from] == ops;
    } else {
      var front, op := ops[..|ops| - 1], ops[|ops| - 1];
      assert front[..from] == ops[..from] && front + [op] == ops;
      LiveRun(cap, front, from, key, room, conversation);
      StaysSubscribed(cap, StateAfter(cap, front), op, key, room, conversation);
      LiveStep(cap, front, op, key, room, conversation);
      var emitted := Emits(StateAfter(cap, front), op);
      ReceivedAppend(Addressed(cap, front, from), emitted, key, room, conversation);
      ResyncsAppend(Addressed(cap, front, from), emitted, key, room);
      MatchingSplit(History(front, room), History(ops, room), |History(ops[..from], room)|, conversation);
    }
  }

  lemma {:induction false} AddressedSplit(cap: nat, ops: seq<Op>, from: nat)
    requires from < |ops|
    ensures Addressed(cap, ops, from)
         == Emits(StateAfter(cap, ops[..from]), ops[from]) + Addressed(cap, ops, from + 1)
  {
    if |ops| > from + 1 {
      var front := ops[..|ops| - 1];
      assert front[..from] == ops[..from];
      AddressedSplit(cap, front, from);
    } else {
      assert ops[..|ops| - 1] == ops[..from];
      assert Addressed(cap, ops[..from], from) == [];
    }
  }

  /** Step `at` of the run is a subscription of an open sender to one conversation of a room,
      saying it has seen everything up to `lastSeen`; the steps after it, of any senders, keep
      it open and subscribed and keep the room. */
  predicate Reconnects(cap: nat, ops: seq<Op>, at: nat, key: string, room: string, conversation: string,
        lastSeen: int) {
    && cap > 0 && room != "" && lastSeen > 0
    && at < |ops| && ops[at] == Subscribe(key, room, conversation, Some(lastSeen))
    && key !in StateAfter(cap, ops[..at]).closed
    && forall i :: at < i < |ops| ==> LeavesSubscribed(ops[i], key, room, conversation)
  }

  lemma AfterSubscribing(cap: nat, ops: seq<Op>, at: nat, key: string, room: string, conversation: string,
        lastSeen: int)
    requires Reconnects(cap, ops, at, key, room, conversation, lastSeen)
    ensures History(ops[..at], room) <= History(ops, room)
    ensures Received(Addressed(cap, ops, at + 1), key, room, conversation)
         == Matching(History(ops, room)[|History(ops[..at], room)|..], conversation)
    ensures Resyncs(Addressed(cap, ops, at + 1), key, room) == []
  {
    assert ops[..at + 1] == ops[..at] + [ops[at]];
    HistoryStep(ops[..at], ops[at], room);
    assert ops[..at + 1][..at] == ops[..at];
    LiveRun(cap, ops, at + 1, key, room, conversation);
  }

  lemma AddressedInTwoParts(cap: nat, ops: seq<Op>, at: nat, key: string, room: string, conversation: string)
    requires at < |ops|
    ensures var replayed, live := Emits(StateAfter(cap, ops[..at]), ops[at]), Addressed(cap, ops, at + 1);
      && Received(Addressed(cap, ops, at), key, room, conversation)
         == Received(replayed, key, room, conversation) + Received(live, key, room, conversation)
      && Resyncs(Addressed(cap, ops, at), key, room) == Resyncs(replayed, key, room) + Resyncs(live, key, room)
  {
    var replayed, live := Emits(StateAfter(cap, ops[..at]), ops[at]), Addressed(cap, ops, at + 1);
    AddressedSplit(cap, ops, at);
    ReceivedAppend(replayed, live, key, room, conversation);
    ResyncsAppend(replayed, live, key, room);
  }

  /** The reconnection theorem. When no number the client needs has been evicted, the sequenced
      matching events addressed to it from its subscription on are, in order, exactly the
      matching part of the room's history after `lastSeen` (after the counter of that moment,
      when the client claims to have seen more than there was), and it is never told to resync. */
  lemma NoLossNoDuplication(cap: nat, ops: seq<Op>, at: nat, key: string, room: string, conversation: string,
        lastSeen: int)
    requires Reconnects(cap, ops, at, key, room, conversation, lastSeen)
    requires lastSeen >= Evicted(cap, History(ops[..at], room))
    ensures |History(ops[..at], room)| <= |History(ops, room)|
    ensures Resyncs(Addressed(cap, ops, at), key, room) == []
    ensures Received(Addressed(cap, ops, at), key, room, conversation)
         == Matching(History(ops, room)[Min(lastSeen, |History(ops[..at], room)|)..], conversation)
  {
    var h0, h := History(ops[..at], room), History(ops, room);
    AfterSubscribing(cap, ops, at, key, room, conversation, lastSeen);
    ReplayOrResync(cap, ops[..at], key, room, conversation, lastSeen);
    ReceivedOfAll(key, room, conversation, h0[Min(lastSeen, |h0|)..]);
    AddressedInTwoParts(cap, ops, at, key, room, conversation);
    MatchingSplit(h0, h, Min(lastSeen, |h0|), conversation);
  }

  /** The call to resync: the range from the last number seen to the counter of the snapshot. */
  function ResyncAt(cap: nat, h: seq<Event>, key: string, room: string, conversation: string, lastSeen: int): Delivery {
    ResyncRequired(key, room, conversation, lastSeen, |h|, Some(Evicted(cap, h) + 1))
  }

  /** Otherwise it is told to resync, once, with the range it missed, and is addressed exactly
      the matching part of what is sequenced after the snapshot. */
  lemma ResyncWhenEvicted(cap: nat, ops: seq<Op>, at: nat, key: string, room: string, conversation: string,
        lastSeen: int)
    requires Reconnects(cap, ops, at, key, room, conversation, lastSeen)
    requires lastSeen < Evicted(cap, History(ops[..at], room))
    ensures Resyncs(Addressed(cap, ops, at), key, room)
        == [ResyncAt(cap, History(ops[..at], room), key, room, conversation, lastSeen)]
    ensures |History(ops[..at], room)| <= |History(ops, room)|
    ensures Received(Addressed(cap, ops, at), key, room, conversation)
         == Matching(History(ops, room)[|History(ops[..at], room)|..], conversation)
  {
    var resync := ResyncAt(cap, History(ops[..at], room), key, room, conversation, lastSeen);
    ResyncPart(cap, ops, at, key, room, conversation, lastSeen, resync);
    AfterSubscribing(cap, ops, at, key, room, conversation, lastSeen);
    ResyncThenLive(cap, ops, at, key, room, conversation, resync);
  }

  lemma ResyncThenLive(cap: nat, ops: seq<Op>, at: nat, key: string, room: string, conversation: string,
        resync: Delivery)
    requires at < |ops|
    requires var replayed := Emits(StateAfter(cap, ops[..at]), ops[at]);
      Received(replayed, key, room, conversation) == [] && Resyncs(replayed, key, room) == [resync]
    requires Resyncs(Addressed(cap, ops, at + 1), key, room) == []
    ensures Resyncs(Addressed(cap, ops, at), key, room) == [resync]
    ensures Received(Addressed(cap, ops, at), key, room, conversation)
        == Received(Addressed(cap, ops, at + 1), key, room, conversation)
  {
    AddressedInTwoParts(cap, ops, at, key, room, conversation);
    WithNothing(Received(Addressed(cap, ops, at + 1), key, room, conversation));
    WithNothing([resync]);
  }

  lemma WithNothing<T>(s: seq<T>)
    ensures [] + s == s && s + [] == s
  {}

  lemma ResyncPart(cap: nat, ops: seq<Op>, at: nat, key: string, room: string, conversation: string, lastSeen: int,
        resync: Delivery)
    requires Reconnects(cap, ops, at, key, room, conversation, lastSeen)
    requires lastSeen < Evicted(cap, History(ops[..at], room))
    requires resync == ResyncAt(cap, History(ops[..at], room), key, room, conversation, lastSeen)
    ensures var replayed := Emits(StateAfter(cap, ops[..at]), ops[at]);
      Received(replayed, key, room, conversation) == [] && Resyncs(replayed, key, room) == [resync]
  {
    ReplayOrResync(cap, ops[..at], key, room, conversation, lastSeen);
    OneResync(resync, conversation);
  }

  lemma OneResync(d: Delivery, conversation: string)
    requires d.ResyncRequired?
    ensures Received([d], d.key, d.room, conversation) == [] && Resyncs([d], d.key, d.room) == [d]
  {
    assert [d][1..] == [];
  }

  /** What "exactly the matching part" gives for one event: the numbers received strictly
      ascend, so none comes twice, and a number is received iff its event matches. */
  lemma {:induction false} MatchingIsExactlyOnce(h: seq<Event>, from: nat, conversation: string)
    requires from <= |h|
    requires forall i :: 0 <= i < |h| ==> h[i].roomSeq == Some(i + 1)
    ensures var m := Matching(h[from..], conversation);
      && (forall i :: 0 <= i < |m| ==> m[i].roomSeq.Some? && from < m[i].roomSeq.value <= |h|)
      && (forall i, j :: 0 <= i < j < |m| ==> m[i].roomSeq.value < m[j].roomSeq.value)
      && (forall n :: from <= n < |h| ==> (h[n] in m <==> ConversationMatches(conversation, h[n].conversationId)))
    decreases |h| - from
  {
    if from < |h| {
      assert h[from..][1..] == h[from + 1..] && h[from..][0] == h[from];
      MatchingIsExactlyOnce(h, from + 1, conversation);
      var rest := Matching(h[from + 1..], conversation);
      var m := Matching(h[from..], conversation);
      assert forall i :: 0 <= i < |rest| ==> rest[i] != h[from];
    }
  }

  /** Exactly once, per event: under the conditions of the reconnection theorem, without a
      resync, each matching event numbered above `lastSeen` is addressed to the sender at one
      position and at no other. */
  lemma EachEventExactlyOnce(cap: nat, ops: seq<Op>, at: nat, key: string, room: string, conversation: string,
        lastSeen: int, n: nat)
    requires Reconnects(cap, ops, at, key, room, conversation, lastSeen)
    requires Resyncs(Addressed(cap, ops, at), key, room) == []
    requires lastSeen < n <= |History(ops, room)|
    requires ConversationMatches(conversation, History(ops, room)[n - 1].conversationId)
    ensures var received := Received(Addressed(cap, ops, at), key, room, conversation);
      exists i :: 0 <= i < |received| && received[i] == History(ops, room)[n - 1]
                  && forall j :: 0 <= j < |received| && received[j].roomSeq == Some(n) ==> j == i
  {
    if lastSeen < Evicted(cap, History(ops[..at], room)) {
      ResyncWhenEvicted(cap, ops, at, key, room, conversation, lastSeen);
    }
    NoLossNoDuplication(cap, ops, at, key, room, conversation, lastSeen);
    BufferIsRecentHistory(cap, ops, room);
    OnePosition(History(ops, room), Min(lastSeen, |History(ops[..at], room)|), conversation, n);
  }

  lemma OnePosition(h: seq<Event>, from: nat, conversation: string, n: nat)
    requires from < n <= |h| && ConversationMatches(conversation, h[n - 1].conversationId)
    requires forall i :: 0 <= i < |h| ==> h[i].roomSeq == Some(i + 1)
    ensures var m := Matching(h[from..], conversation);
      exists i :: 0 <= i < |m| && m[i] == h[n - 1] && forall j :: 0 <= j < |m| && m[j].roomSeq == Some(n) ==> j == i
  {
    MatchingIsExactlyOnce(h, from, conversation);
    var m := Matching(h[from..], conversation);
    assert h[n - 1] in m;
    var i :| 0 <= i < |m| && m[i] == h[n - 1];
    assert forall j :: 0 <= j < |m| && m[j].roomSeq == Some(n) ==> !(i < j) && !(j < i);
  }

  // ---------------------------------------------------------------- nothing else is addressed

  /** The sender holds a subscription in the room that matches the conversation. */
  predicate Entitled(s: State, key: string, room: string, conversation: string) {
    room in s.roomSubs && key in s.roomSubs[room] && SubscriptionMatches(s.roomSubs[room][key], conversation)
  }

  function To(deliveries: seq<Delivery>, key: string): seq<Delivery> {
    if deliveries == [] then []
    else if deliveries[0].key == key then [deliveries[0]] + To(deliveries[1..], key)
    else To(deliveries[1..], key)
  }

  lemma {:induction false} AddressTo(room: string, prepared: Event, sequenced: bool, keys: seq<string>, key: string)
    requires Ascending(keys)
    ensures To(Address(room, prepared, sequenced, keys), key) ==
      if key in keys then [if sequenced then Sequenced(key, room, prepared) else Passthrough(key, room, prepared)]
      else []
  {
    if keys != [] {
      LessIsTotal(key, key);
      assert forall j :: 0 <= j < |keys| - 1 ==> keys[1..][j] == keys[j + 1];
      AddressTo(room, prepared, sequenced, keys[1..], key);
      assert Address(room, prepared, sequenced, keys)[1..] == Address(room, prepared, sequenced, keys[1..]);
    }
  }

  /** A broadcast addresses a sender the prepared event, once, exactly if the sender is open and
      holds a subscription that matches; all others it addresses nothing. */
  lemma BroadcastReachesExactly(s: State, room: string, event: Event, key: string)
    requires room != ""
    ensures var prepared := Prepare(room, event, Lookup(s.roomSequences, room, 0));
      To(Emits(s, Broadcast(room, event)), key) ==
        if key !in s.closed && Entitled(s, key, room, event.conversationId)
        then [if Sequences(event) then Sequenced(key, room, prepared) else Passthrough(key, room, prepared)]
        else []
  {
    var prepared := Prepare(room, event, Lookup(s.roomSequences, room, 0));
    AddressTo(room, prepared, Sequences(event), Sorted(Targets(s, room, event.conversationId)), key);
  }

  /** Every event a step addresses to a sender is one it is entitled to: for a broadcast it holds a
      matching subscription, before the step and after it; for a replay the conversation just
      subscribed matches, and the event is newer than the last one seen. */
  ghost predicate Deserved(cap: nat, s: State, op: Op, d: Delivery) {
    match op
    case Subscribe(key, room, conversation, lastSeen) =>
      && d.key == key && d.room == room
      && (!d.ResyncRequired? ==>
            && d.Sequenced? && ConversationMatches(conversation, d.event.conversationId)
            && lastSeen.Some? && d.event.roomSeq.Some? && d.event.roomSeq.value > lastSeen.value
            && Entitled(Next(cap, s, op), key, room, d.event.conversationId))
    case Broadcast(room, event) =>
      && !d.ResyncRequired? && d.room == room && d.key !in s.closed
      && d.event.conversationId == event.conversationId
      && Entitled(s, d.key, room, event.conversationId)
      && Entitled(Next(cap, s, op), d.key, room, event.conversationId)
    case _ => false
  }

  lemma {:induction false} ReplayedDeserve(key: string, room: string, conversation: string, lastSeen: int,
        buffer: seq<Event>, d: Delivery)
    requires d in ReplayFrom(key, room, conversation, lastSeen, buffer)
    ensures d.Sequenced? && d.key == key && d.room == room && ConversationMatches(conversation, d.event.conversationId)
    ensures d.event.roomSeq.Some? && d.event.roomSeq.value > lastSeen
  {
    if d in ReplayFrom(key, room, conversation, lastSeen, buffer[1..]) {
      ReplayedDeserve(key, room, conversation, lastSeen, buffer[1..], d);
    }
  }

  lemma {:induction false} AddressedAreTargets(room: string, prepared: Event, sequenced: bool, keys: seq<string>,
        d: Delivery)
    requires d in Address(room, prepared, sequenced, keys)
    ensures d.key in keys && d.room == room && !d.ResyncRequired? && d.event == prepared
        && (d.Sequenced? <==> sequenced)
  {
    if d in Address(room, prepared, sequenced, keys[1..]) {
      AddressedAreTargets(room, prepared, sequenced, keys[1..], d);
    }
  }

  lemma PlannedDeserve(key: string, room: string, conversation: string, lastSeen: int, latest: int, buffer: seq<Event>,
        d: Delivery)
    requires d in ReplayPlan(key, room, conversation, lastSeen, latest, buffer)
    ensures d.key == key && d.room == room
    ensures !d.ResyncRequired? ==> d.Sequenced? && ConversationMatches(conversation, d.event.conversationId)
    ensures !d.ResyncRequired? ==> d.event.roomSeq.Some? && d.event.roomSeq.value > lastSeen
  {
    if d in ReplayFrom(key, room, conversation, lastSeen, buffer) {
      ReplayedDeserve(key, room, conversation, lastSeen, buffer, d);
    }
  }

  lemma SubscriberIsEntitled(cap: nat, s: State, op: Op, conversation: string)
    requires op.Subscribe? && op.room != "" && ConversationMatches(op.conversation, conversation)
    ensures Entitled(Next(cap, s, op), op.key, op.room, conversation)
  {
    assert op.conversation in Next(cap, s, op).roomSubs[op.room][op.key];
  }

  lemma TargetIsEntitled(cap: nat, s: State, room: string, event: Event, key: string)
    requires room != "" && key in Targets(s, room, event.conversationId)
    ensures key !in s.closed && Entitled(s, key, room, event.conversationId)
    ensures Entitled(Next(cap, s, Broadcast(room, event)), key, room, event.conversationId)
  {
    assert key in s.roomSubs[room] - s.closed;
  }

  lemma StepDeserves(cap: nat, s: State, op: Op, d: Delivery)
    requires d in Emits(s, op)
    ensures Deserved(cap, s, op, d)
  {
    match op
    case Subscribe(key, room, conversation, lastSeen) =>
      PlannedDeserve(key, room, conversation, lastSeen.value, Lookup(s.roomSequences, room, 0),
          Lookup(s.roomReplay, room, []), d);
      if !d.ResyncRequired? {
        SubscriberIsEntitled(cap, s, op, d.event.conversationId);
      }
    case Broadcast(room, event) =>
      var targets := Targets(s, room, event.conversationId);
      AddressedAreTargets(room, Prepare(room, event, Lookup(s.roomSequences, room, 0)), Sequences(event),
          Sorted(targets), d);
      TargetIsEntitled(cap, s, room, event, d.key);
    case _ =>
  }

  ghost predicate DeservedAt(cap: nat, ops: seq<Op>, i: nat, d: Delivery) {
    i < |ops| && Deserved(cap, StateAfter(cap, ops[..i]), ops[i], d)
  }

  lemma DeservedLater(cap: nat, ops: seq<Op>, op: Op, i: nat, d: Delivery)
    requires DeservedAt(cap, ops, i, d)
    ensures DeservedAt(cap, ops + [op], i, d)
  {
    assert (ops + [op])[..i] == ops[..i];
  }

  /** Isolation, over every run: whatever is addressed to anyone was addressed by some step that
      entitled the receiver to it. */
  lemma {:induction false} NothingElseAddressed(cap: nat, ops: seq<Op>, from: nat, d: Delivery)
    requires d in Addressed(cap, ops, from)
    ensures exists i :: from <= i < |ops| && DeservedAt(cap, ops, i, d)
    decreases |ops|
  {
    var front, op := ops[..|ops| - 1], ops[|ops| - 1];
    assert ops == front + [op];
    if d in Addressed(cap, front, from) {
      NothingElseAddressed(cap, front, from, d);
      var i :| from <= i < |front| && DeservedAt(cap, front, i, d);
      DeservedLater(cap, front, op, i, d);
    } else {
      StepDeserves(cap, StateAfter(cap, front), op, d);
      assert ops[..|front|] == front;
      assert DeservedAt(cap, ops, |front|, d);
    }
  }

  // ---------------------------------------------------------------- a client of one conversation

  /** All sequenced events of the room addressed to the sender, matching or not. */
  function Sent(deliveries: seq<Delivery>, key: string, room: string): seq<Event> {
    if deliveries == [] then []
    else
      var d, rest := deliveries[0], Sent(deliveries[1..], key, room);
      if d.Sequenced? && d.key == key && d.room == room then [d.event] + rest else rest
  }

  ghost predicate AllMatch(deliveries: seq<Delivery>, key: string, room: string, conversation: string) {
    forall d :: d in deliveries && d.Sequenced? && d.key == key && d.room == room
        ==> ConversationMatches(conversation, d.event.conversationId)
  }

  lemma {:induction false} SentIsReceived(deliveries: seq<Delivery>, key: string, room: string, conversation: string)
    requires AllMatch(deliveries, key, room, conversation)
    ensures Sent(deliveries, key, room) == Received(deliveries, key, room, conversation)
  {
    if deliveries != [] {
      assert deliveries[0] in deliveries;
      assert AllMatch(deliveries[1..], key, room, conversation);
      SentIsReceived(deliveries[1..], key, room, conversation);
    }
  }

  predicate HoldsOnly(s: State, key: string, room: string, conversation: string) {
    room in s.roomSubs && key in s.roomSubs[room] ==> s.roomSubs[room][key] <= {conversation}
  }

  predicate AsksOnly(op: Op, key: string, room: string, conversation: string) {
    op.Subscribe? && op.key == key && op.room == room ==> op.conversation == conversation
  }

  lemma StaysOnly(cap: nat, s: State, op: Op, key: string, room: string, conversation: string)
    requires HoldsOnly(s, key, room, conversation) && AsksOnly(op, key, room, conversation)
    ensures HoldsOnly(Next(cap, s, op), key, room, conversation)
  {
    match op
    case Subscribe(_, _, _, _) =>
    case Unsubscribe(_, _, _) =>
    case Unregister(_) =>
    case Remove(_) =>
    case Broadcast(_, _) =>
    case Close(_) =>
  }

  lemma {:induction false} OnlyMatching(cap: nat, ops: seq<Op>, from: nat, key: string, room: string,
        conversation: string)
    requires from <= |ops| && HoldsOnly(StateAfter(cap, ops[..from]), key, room, conversation)
    requires forall i :: from <= i < |ops| ==> AsksOnly(ops[i], key, room, conversation)
    ensures HoldsOnly(StateAfter(cap, ops), key, room, conversation)
    ensures AllMatch(Addressed(cap, ops, from), key, room, conversation)
    decreases |ops|
  {
    if |ops| == from {
      assert ops[..from] == ops;
    } else {
      var front, op := ops[..|ops| - 1], ops[|ops| - 1];
      var s := StateAfter(cap, front);
      assert front[..from] == ops[..from];
      OnlyMatching(cap, front, from, key, room, conversation);
      StaysOnly(cap, s, op, key, room, conversation);
      forall d | d in Emits(s, op) && d.Sequenced? && d.key == key && d.room == room
        ensures ConversationMatches(conversation, d.event.conversationId) {
        StepDeserves(cap, s, op, d);
        assert Entitled(Next(cap, s, op), key, room, d.event.conversationId);
      }
    }
  }

  /** For a client of one conversation of a room, under the conditions of the reconnection theorem,
      the sequenced events of the room addressed to it are, all of them and in order, the matching
      part of the history after `lastSeen`: nothing is lost, doubled or added. */
  lemma ExactlyItsConversation(cap: nat, ops: seq<Op>, at: nat, key: string, room: string, conversation: string,
        lastSeen: int)
    requires Reconnects(cap, ops, at, key, room, conversation, lastSeen)
    requires lastSeen >= Evicted(cap, History(ops[..at], room))
    requires HoldsOnly(StateAfter(cap, ops[..at]), key, room, conversation)
    requires forall i :: at <= i < |ops| ==> AsksOnly(ops[i], key, room, conversation)
    ensures |History(ops[..at], room)| <= |History(ops, room)|
    ensures Sent(Addressed(cap, ops, at), key, room)
         == Matching(History(ops, room)[Min(lastSeen, |History(ops[..at], room)|)..], conversation)
  {
    NoLossNoDuplication(cap, ops, at, key, room, conversation, lastSeen);
    OnlyMatching(cap, ops, at, key, room, conversation);
    SentIsReceived(Addressed(cap, ops, at), key, room, conversation);
  }

  // ---------------------------------------------------------------- the two indexes

  /** Every subscription is known to the sender's side of the index, and no map is left empty.
      (The converse fails: pruning closed senders touches only roomSubs.) */
  ghost predicate IndexInvariant(s: State) {
    && (forall r :: r in s.roomSubs ==> s.roomSubs[r] != map[])
    && (forall r, k :: r in s.roomSubs && k in s.roomSubs[r] ==> Indexed(s, r, k))
    && (forall k :: k in s.senderRooms ==> s.senderRooms[k] != {})
  }

  predicate Indexed(s: State, r: string, k: string)
    requires r in s.roomSubs && k in s.roomSubs[r]
  {
    s.roomSubs[r][k] != {} && k in s.senderRooms && r in s.senderRooms[k]
  }

  /** Some conversation is left. */
  lemma NarrowedKeepsIndex(s: State, op: Op)
    requires IndexInvariant(s) && op.Unsubscribe? && op.room != ""
    requires op.room in s.roomSubs && op.key in s.roomSubs[op.room]
        && s.roomSubs[op.room][op.key] - {op.conversation} != {}
    ensures IndexInvariant(Unsubscribed(s, op))
  {
    var t := Unsubscribed(s, op);
    assert t.senderRooms == s.senderRooms;
    forall r, k | r in t.roomSubs && k in t.roomSubs[r] ensures Indexed(t, r, k) {
      assert Indexed(s, r, k);
    }
  }

  /** The sender leaves the room. */
  lemma LeftKeepsIndex(s: State, op: Op)
    requires IndexInvariant(s) && op.Unsubscribe? && op.room != ""
    requires op.room in s.roomSubs && op.key in s.roomSubs[op.room]
        && s.roomSubs[op.room][op.key] - {op.conversation} == {}
    ensures IndexInvariant(Unsubscribed(s, op))
  {
    var t := Unsubscribed(s, op);
    assert Indexed(s, op.room, op.key);
    var rooms := s.senderRooms[op.key];
    forall r, k | r in t.roomSubs && k in t.roomSubs[r] ensures Indexed(t, r, k) {
      assert Indexed(s, r, k);
      assert k == op.key ==> r in rooms - {op.room};
    }
  }

  lemma UnsubscribedKeepsIndex(s: State, op: Op)
    requires IndexInvariant(s) && op.Unsubscribe?
    ensures IndexInvariant(Unsubscribed(s, op))
  {
    if op.room != "" && op.room in s.roomSubs && op.key in s.roomSubs[op.room] {
      if s.roomSubs[op.room][op.key] - {op.conversation} != {} {
        NarrowedKeepsIndex(s, op);
      } else {
        LeftKeepsIndex(s, op);
      }
    }
  }

  lemma SubscribedKeepsIndex(s: State, op: Op)
    requires IndexInvariant(s) && op.Subscribe?
    ensures IndexInvariant(Subscribed(s, op))
  {
    var t := Subscribed(s, op);
    if t != s {
      assert op.room in t.senderRooms[op.key] && op.key in t.roomSubs[op.room];
      assert op.conversation in t.roomSubs[op.room][op.key];
      forall r, k | r in t.roomSubs && k in t.roomSubs[r] ensures Indexed(t, r, k) {
        if !(r == op.room && k == op.key) { assert Indexed(s, r, k); }
      }
    }
  }

  lemma RemovedKeepsIndex(s: State, room: string)
    requires IndexInvariant(s)
    ensures IndexInvariant(Removed(s, room))
  {
    var t := Removed(s, room);
    forall r, k | r in t.roomSubs && k in t.roomSubs[r] && room != ""
      ensures Indexed(t, r, k)
    {
      assert Indexed(s, r, k);
      assert r in s.senderRooms[k] - {room};
    }
  }

  lemma UnregisteredKeepsIndex(s: State, key: string)
    requires IndexInvariant(s)
    ensures IndexInvariant(Unregistered(s, key))
  {}

  lemma PublishedKeepsIndex(cap: nat, s: State, room: string, event: Event)
    requires IndexInvariant(s)
    ensures IndexInvariant(Published(cap, s, room, event))
  {}

  lemma IndexInvariantStep(cap: nat, s: State, op: Op)
    requires IndexInvariant(s)
    ensures IndexInvariant(Next(cap, s, op))
  {
    match op
    case Subscribe(_, _, _, _) => SubscribedKeepsIndex(s, op);
    case Unsubscribe(_, _, _) => UnsubscribedKeepsIndex(s, op);
    case Unregister(key) => UnregisteredKeepsIndex(s, key);
    case Remove(room) => RemovedKeepsIndex(s, room);
    case Broadcast(room, event) => PublishedKeepsIndex(cap, s, room, event);
    case Close(_) =>
  }

  lemma {:induction false} IndexInvariantAlways(cap: nat, ops: seq<Op>)
    ensures IndexInvariant(StateAfter(cap, ops))
  {
    if ops != [] {
      IndexInvariantAlways(cap, ops[..|ops| - 1]);
      IndexInvariantStep(cap, StateAfter(cap, ops[..|ops| - 1]), ops[|ops| - 1]);
    }
  }

  predicate Absent(s: State, key: string) {
    && key !in s.senderRooms
    && forall r :: r in s.roomSubs ==> key !in s.roomSubs[r]
  }

  /** Once unregistered, a sender is addressed nothing until it subscribes again, whatever
      the other senders do. */
  lemma {:induction false} SilentAfterUnregister(cap: nat, ops: seq<Op>, at: nat, key: string)
    requires at < |ops| && ops[at] == Unregister(key)
    requires forall i :: at < i < |ops| ==> !(ops[i].Subscribe? && ops[i].key == key)
    ensures Absent(StateAfter(cap, ops), key)
    ensures forall d :: d in Addressed(cap, ops, at) ==> d.key != key
    decreases |ops|
  {
    var front, op := ops[..|ops| - 1], ops[|ops| - 1];
    var s := StateAfter(cap, front);
    if at < |front| {
      SilentAfterUnregister(cap, front, at, key);
      StaysAbsent(cap, s, op, key);
      NotAddressed(s, op, key);
    } else {
      IndexInvariantAlways(cap, front);
      UnregisterMakesAbsent(s, key);
      assert Addressed(cap, front, at) == [];
    }
  }

  lemma UnregisterMakesAbsent(s: State, key: string)
    requires IndexInvariant(s)
    ensures Absent(Unregistered(s, key), key)
  {
    var t := Unregistered(s, key);
    forall r | r in t.roomSubs ensures key !in t.roomSubs[r] {
      assert key in s.roomSubs[r] ==> Indexed(s, r, key);
    }
  }

  lemma StaysAbsent(cap: nat, s: State, op: Op, key: string)
    requires Absent(s, key) && !(op.Subscribe? && op.key == key)
    ensures Absent(Next(cap, s, op), key)
  {
    match op
    case Subscribe(_, _, _, _) =>
    case Unsubscribe(_, _, _) =>
    case Unregister(_) =>
    case Remove(_) =>
    case Broadcast(_, _) =>
    case Close(_) =>
  }

  lemma NotAddressed(s: State, op: Op, key: string)
    requires Absent(s, key) && !(op.Subscribe? && op.key == key)
    ensures forall d :: d in Emits(s, op) ==> d.key != key
  {
    match op
    case Subscribe(k, r, c, lastSeen) =>
      if lastSeen.Some? { ReplayMentions(k, r, c, lastSeen.value, Lookup(s.roomReplay, r, []), key); }
    case Broadcast(r, event) =>
      var prepared := Prepare(r, event, Lookup(s.roomSequences, r, 0));
      AddressMentions(r, prepared, Sequences(event), Sorted(Targets(s, r, event.conversationId)), key);
    case _ =>
  }

  lemma {:induction false} ReplayMentions(k: string, r: string, c: string, lastSeen: int, buffer: seq<Event>,
        key: string)
    requires k != key
    ensures forall d :: d in ReplayFrom(k, r, c, lastSeen, buffer) ==> d.key != key
  {
    if buffer != [] { ReplayMentions(k, r, c, lastSeen, buffer[1..], key); }
  }

  lemma {:induction false} AddressMentions(room: string, prepared: Event, sequenced: bool, keys: seq<string>,
        key: string)
    requires key !in keys
    ensures forall d :: d in Address(room, prepared, sequenced, keys) ==> d.key != key
  {
    if keys != [] { AddressMentions(room, prepared, sequenced, keys[1..], key); }
  }
}

/** The registry itself: the fields and methods of roomSubscriptionRegistry, each method proved
    to take exactly the step of RoomStream. `closed` is the set of senders whose IsClosed
    answers true while the method holds the mutex. */
module RoomRegistry {
  import opened Options
  import opened SortedKeys
  import opened RoomStream

  lemma DropSenderStep(m: map<string, Subscribers>, rooms: set<string>, room: string, key: string)
    requires room !in rooms
    ensures var d := DropSender(m, rooms, key);
      DropSender(m, rooms + {room}, key)
        == if room !in d then d
           else if d[room] - {key} == map[] then d[room := d[room] - {key}] - {room}
           else d[room := d[room] - {key}]
  {}

  lemma DropRoomStep(m: map<string, set<string>>, keys: set<string>, key: string, room: string)
    requires key !in keys
    ensures var d := DropRoom(m, keys, room);
      DropRoom(m, keys + {key}, room)
        == if key !in d then d
           else if d[key] - {room} == {} then d[key := d[key] - {room}] - {key}
           else d[key := d[key] - {room}]
  {}

  lemma AppendAscending(keys: seq<string>, all: seq<string>, i: nat)
    requires i < |all| && Ascending(all) && Ascending(keys)
    requires forall k :: k in keys ==> k in all[..i]
    ensures Ascending(keys + [all[i]])
  {
    forall n | 0 <= n < |keys| ensures Less(keys[n], all[i]) {
      assert keys[n] in keys;
      var j :| 0 <= j < i && all[..i][j] == keys[n];
    }
  }

  ghost function ClosedAmong(keys: seq<string>, closed: set<string>): set<string> {
    set k | k in keys && k in closed
  }

  lemma ClosedAmongMore(keys: seq<string>, i: nat, closed: set<string>)
    requires i < |keys|
    ensures ClosedAmong(keys[..i + 1], closed)
        == ClosedAmong(keys[..i], closed) + if keys[i] in closed then {keys[i]} else {}
  {
    assert keys[..i + 1] == keys[..i] + [keys[i]];
  }

  lemma PrunedMore(subscribers: Subscribers, all: seq<string>, i: nat, closed: set<string>)
    requires i < |all|
    ensures var pruned := subscribers - ClosedAmong(all[..i], closed);
      subscribers - ClosedAmong(all[..i + 1], closed) == if all[i] in closed then pruned - {all[i]} else pruned
  {
    ClosedAmongMore(all, i, closed);
    if all[i] !in closed {
      assert ClosedAmong(all[..i + 1], closed) == ClosedAmong(all[..i], closed);
    }
  }

  lemma PutTwice(m: map<string, Subscribers>, room: string, a: Subscribers, b: Subscribers)
    ensures m[room := a][room := b] == m[room := b]
  {}

  /** The keys selected among the first `i`. */
  ghost predicate SelectedAmong(keys: seq<string>, all: seq<string>, i: nat, subscribers: Subscribers,
        conversation: string, closed: set<string>)
    requires i <= |all| && forall k :: k in all ==> k in subscribers
  {
    && Ascending(keys)
    && (forall k :: k in keys <==> k in all[..i] && k !in closed && SubscriptionMatches(subscribers[k], conversation))
  }

  lemma SelectedMore(keys: seq<string>, all: seq<string>, i: nat, subscribers: Subscribers, conversation: string,
        closed: set<string>)
    requires i < |all| && (forall k :: k in all ==> k in subscribers) && Ascending(all)
    requires SelectedAmong(keys, all, i, subscribers, conversation, closed)
    ensures SelectedAmong(
      if all[i] !in closed && SubscriptionMatches(subscribers[all[i]], conversation) then keys + [all[i]] else keys,
      all, i + 1, subscribers, conversation, closed)
  {
    assert all[..i + 1] == all[..i] + [all[i]];
    assert forall k :: k in keys ==> k in all[..i];
    AppendAscending(keys, all, i);
  }

  class Registry {
    var roomSubs: map<string, Subscribers>
    var senderRooms: map<string, set<string>>
    var roomSequences: map<string, int>
    var roomReplay: map<string, seq<Event>>
    const cap: nat

    constructor (bufferCap: int)
      ensures cap == (if bufferCap <= 0 then 128 else bufferCap) && cap > 0
      ensures View({}) == INIT
    {
      cap := if bufferCap <= 0 then 128 else bufferCap;
      roomSubs, senderRooms, roomSequences, roomReplay := map[], map[], map[], map[];
    }

    ghost function View(closed: set<string>): State
      reads this
    {
      State(roomSubs, senderRooms, roomSequences, roomReplay, closed)
    }

    method Register(key: string, room: string, conversation: string)
      modifies `roomSubs, `senderRooms
      ensures var subs := Lookup(old(roomSubs), room, map[]);
        roomSubs == old(roomSubs)[room := subs[key := Lookup(subs, key, {}) + {conversation}]]
      ensures senderRooms == old(senderRooms)[key := Lookup(old(senderRooms), key, {}) + {room}]
    {
      ghost var before := roomSubs;
      if room !in roomSubs {
        roomSubs := roomSubs[room := map[]];
      }
      var subscribers := roomSubs[room];
      assert subscribers == Lookup(before, room, map[]);
      var conversations := if key in subscribers then subscribers[key] else {};
      roomSubs := roomSubs[room := subscribers[key := conversations + {conversation}]];
      if key !in senderRooms {
        senderRooms := senderRooms[key := {}];
      }
      senderRooms := senderRooms[key := senderRooms[key] + {room}];
    }

    /** `open` is what the sender answered before the lock was taken, `closed` the senders closed by
        then. The locked part registers; what is to be replayed is decided from the snapshot taken
        under the lock. */
    method SubscribeRoom(key: string, room: string, conversation: string, lastSeen: Option<int>, open: bool,
          closed: set<string>)
      returns (replay: seq<Delivery>)
      modifies this
      ensures View(closed)
          == if open then Next(cap, old(View(closed)), Subscribe(key, room, conversation, lastSeen))
             else old(View(closed))
      ensures replay == if open then Emits(old(View(closed)), Subscribe(key, room, conversation, lastSeen)) else []
    {
      replay := [];
      if !open || room == "" {
        return;
      }
      Register(key, room, conversation);
      if lastSeen.None? || lastSeen.value <= 0 {
        return;
      }
      var latest := if room in roomSequences then roomSequences[room] else 0;
      var buffer := if room in roomReplay then roomReplay[room] else [];
      replay := PlanReplay(key, room, conversation, lastSeen.value, latest, buffer);
    }

    /** replayRoomEvents up to the sends: which events, or which resync, in which order. */
    method PlanReplay(key: string, room: string, conversation: string, lastSeen: int, latest: int, buffer: seq<Event>)
      returns (plan: seq<Delivery>)
      ensures plan == ReplayPlan(key, room, conversation, lastSeen, latest, buffer)
    {
      plan := [];
      if latest <= lastSeen {
        return;
      }
      if |buffer| == 0 {
        return [ResyncRequired(key, room, conversation, lastSeen, latest, None)];
      }
      var earliest := 0;
      if buffer[0].roomSeq.Some? {
        earliest := buffer[0].roomSeq.value;
      }
      if earliest == 0 {
        return;
      }
      if lastSeen < earliest - 1 {
        return [ResyncRequired(key, room, conversation, lastSeen, latest, Some(earliest))];
      }
      var i := 0;
      while i < |buffer|
        invariant i <= |buffer|
        invariant plan + ReplayFrom(key, room, conversation, lastSeen, buffer[i..])
            == ReplayFrom(key, room, conversation, lastSeen, buffer)
      {
        var event := buffer[i];
        assert buffer[i..][1..] == buffer[i + 1..];
        if event.roomSeq.Some? && event.roomSeq.value > lastSeen
            && ConversationMatches(conversation, event.conversationId) {
          plan := plan + [Sequenced(key, room, event)];
        }
        i := i + 1;
      }
    }

    /** The replay sends stop at the first one that fails (`failsAt`, if it is reached). */
    method SendReplay(plan: seq<Delivery>, failsAt: Option<nat>) returns (sent: seq<Delivery>, failed: bool)
      ensures sent <= plan
      ensures failed <==> failsAt.Some? && failsAt.value < |plan|
      ensures |sent| == if failed then failsAt.value else |plan|
    {
      sent, failed := [], false;
      while |sent| < |plan|
        invariant sent <= plan
        invariant failsAt.Some? ==> |sent| <= failsAt.value || |plan| <= failsAt.value
      {
        if failsAt == Some(|sent|) {
          return sent, true;
        }
        sent := sent + [plan[|sent|]];
      }
    }

    method UnsubscribeRoom(key: string, room: string, conversation: string, closed: set<string>)
      modifies this
      ensures View(closed) == Next(cap, old(View(closed)), Unsubscribe(key, room, conversation))
    {
      if room == "" || room !in roomSubs || key !in roomSubs[room] {
        return;
      }
      var subscribers := roomSubs[room];
      var conversations := subscribers[key] - {conversation};
      if conversations != {} {
        roomSubs := roomSubs[room := subscribers[key := conversations]];
        return;
      }
      subscribers := subscribers - {key};
      roomSubs := roomSubs[room := subscribers];
      if subscribers == map[] {
        roomSubs := roomSubs - {room};
      }
      if key !in senderRooms || senderRooms[key] == {} {
        return;
      }
      senderRooms := senderRooms[key := senderRooms[key] - {room}];
      if senderRooms[key] == {} {
        senderRooms := senderRooms - {key};
      }
    }

    method UnregisterSender(key: string, closed: set<string>)
      modifies this
      ensures View(closed) == Next(cap, old(View(closed)), Unregister(key))
    {
      var rooms := if key in senderRooms then senderRooms[key] else {};
      var rest := rooms;
      while rest != {}
        invariant rest <= rooms
        invariant roomSubs == DropSender(old(roomSubs), rooms - rest, key)
        invariant unchanged(`senderRooms) && unchanged(`roomSequences) && unchanged(`roomReplay)
        decreases |rest|
      {
        var room :| room in rest;
        if room in roomSubs {
          var subscribers := roomSubs[room] - {key};
          roomSubs := roomSubs[room := subscribers];
          if subscribers == map[] {
            roomSubs := roomSubs - {room};
          }
        }
        DropSenderStep(old(roomSubs), rooms - rest, room, key);
        assert rooms - (rest - {room}) == (rooms - rest) + {room};
        rest := rest - {room};
      }
      assert rooms - rest == rooms;
      senderRooms := senderRooms - {key};
    }

    method RemoveRoom(room: string, closed: set<string>)
      modifies this
      ensures View(closed) == Next(cap, old(View(closed)), Remove(room))
    {
      if room == "" {
        return;
      }
      ForgetRoom(if room in roomSubs then roomSubs[room].Keys else {}, room);
      roomSubs := roomSubs - {room};
      roomSequences := roomSequences - {room};
      roomReplay := roomReplay - {room};
    }

    method ForgetRoom(keys: set<string>, room: string)
      modifies `senderRooms
      ensures senderRooms == DropRoom(old(senderRooms), keys, room)
    {
      var rest := keys;
      while rest != {}
        invariant rest <= keys
        invariant senderRooms == DropRoom(old(senderRooms), keys - rest, room)
        decreases |rest|
      {
        var key :| key in rest;
        if key in senderRooms {
          var rooms := senderRooms[key] - {room};
          senderRooms := senderRooms[key := rooms];
          if rooms == {} {
            senderRooms := senderRooms - {key};
          }
        }
        DropRoomStep(old(senderRooms), keys - rest, key, room);
        assert keys - (rest - {key}) == (keys - rest) + {key};
        rest := rest - {key};
      }
      assert keys - rest == keys;
    }

    method PrepareRoomEvent(room: string, event: Event) returns (prepared: Event)
      requires room != ""
      modifies `roomSequences, `roomReplay
      ensures prepared == Prepare(room, event, old(Lookup(roomSequences, room, 0)))
      ensures forall closed :: View(closed) == Published(cap, old(View(closed)), room, event).(roomSubs := roomSubs)
    {
      prepared := event;
      if prepared.roomId == "" {
        prepared := prepared.(roomId := room);
      }
      if prepared.deliveryMode != "durable" || prepared.roomSeq.Some? {
        return;
      }
      var next := (if room in roomSequences then roomSequences[room] else 0) + 1;
      roomSequences := roomSequences[room := next];
      prepared := prepared.(roomSeq := Some(next));
      var buffer := (if room in roomReplay then roomReplay[room] else []) + [prepared];
      if |buffer| > cap {
        buffer := buffer[|buffer| - cap..];
      }
      roomReplay := roomReplay[room := buffer];
    }

    /** Collect and sort the keys, prune the closed senders, keep the matching ones. */
    method MatchingSubscribers(room: string, conversation: string, closed: set<string>) returns (keys: seq<string>)
      modifies `roomSubs
      ensures roomSubs == Pruned(old(roomSubs), room, closed)
      ensures IsSortedListOf(keys, Targets(old(View(closed)), room, conversation))
    {
      keys := [];
      if room !in roomSubs || roomSubs[room] == map[] {
        return;
      }
      ghost var before := roomSubs;
      var subscribers := roomSubs[room];
      var all := SortKeys(subscribers.Keys);
      var i := 0;
      assert ClosedAmong(all[..0], closed) == {} && subscribers - {} == subscribers;
      assert before == before[room := subscribers];
      while i < |all|
        invariant i <= |all|
        invariant roomSubs == before[room := subscribers - ClosedAmong(all[..i], closed)]
        invariant SelectedAmong(keys, all, i, subscribers, conversation, closed)
      {
        var key := all[i];
        ghost var pruned := subscribers - ClosedAmong(all[..i], closed);
        PrunedMore(subscribers, all, i, closed);
        PutTwice(before, room, pruned, pruned - {key});
        SelectedMore(keys, all, i, subscribers, conversation, closed);
        if key in closed {
          roomSubs := roomSubs[room := roomSubs[room] - {key}];
        } else if SubscriptionMatches(subscribers[key], conversation) {
          keys := keys + [key];
        }
        i := i + 1;
      }
      assert all[..i] == all;
      assert subscribers - ClosedAmong(all, closed) == subscribers - closed;
      if roomSubs[room] == map[] {
        roomSubs := roomSubs - {room};
      }
    }

    /** The locked part of a broadcast; `targets` is the list the sends then go through. */
    method Broadcast(room: string, event: Event, closed: set<string>) returns (prepared: Event, targets: seq<string>)
      modifies this
      ensures View(closed) == Next(cap, old(View(closed)), RoomStream.Broadcast(room, event))
      ensures room != "" ==> Address(room, prepared, Sequences(event), targets)
                             == Emits(old(View(closed)), RoomStream.Broadcast(room, event))
    {
      prepared, targets := event, [];
      if room == "" {
        return;
      }
      prepared := PrepareRoomEvent(room, event);
      label prepared_:
      targets := MatchingSubscribers(room, prepared.conversationId, closed);
      var expected := Targets(old(View(closed)), room, event.conversationId);
      assert expected == Targets(old@prepared_(View(closed)), room, event.conversationId);
      SortedListIsUnique(targets, Sorted(expected), expected);
    }

    /** The sends of a broadcast: a sender that has closed meanwhile is skipped, one whose send
        fails is reported, and neither stops the others. */
    method SendLive(targets: seq<string>, closedNow: set<string>, failing: set<string>)
      returns (sent: seq<string>, errors: nat)
      ensures forall k :: k in sent <==> k in targets && k !in closedNow && k !in failing
      ensures Ascending(targets) ==> Ascending(sent)
      ensures |sent| + errors <= |targets|
      ensures errors == 0 <==> forall k :: k in targets && k !in closedNow ==> k !in failing
    {
      sent, errors := [], 0;
      var i := 0;
      while i < |targets|
        invariant i <= |targets|
        invariant forall k :: k in sent <==> k in targets[..i] && k !in closedNow && k !in failing
        invariant Ascending(targets) ==> Ascending(sent)
        invariant |sent| + errors <= i
        invariant errors == 0 <==> forall k :: k in targets[..i] && k !in closedNow ==> k !in failing
      {
        assert targets[..i + 1] == targets[..i] + [targets[i]];
        if targets[i] !in closedNow {
          if targets[i] in failing {
            errors := errors + 1;
          } else {
            if Ascending(targets) { AppendAscending(sent, targets, i); }
            sent := sent + [targets[i]];
          }
        }
        i := i + 1;
      }
      assert targets[..i] == targets;
    }
  }
}

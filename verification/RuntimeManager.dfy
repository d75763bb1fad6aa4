/** The manager: its fields and the regions it runs under its lock, each proved to take the
    step of RuntimeRounds. Done channels are numbered in the order they are made. */
module RuntimeManager {
  import opened Options
  import opened SortedKeys
  import opened Text
  import opened RuntimeRounds

  datatype QueueResult = Queued(runningRounds: seq<string>) | Ignored | NoRunningRound

  class Manager {
    var sessions: map<string, Session>
    var signals: seq<(string, string)>
    var closings: seq<nat>

    constructor ()
      ensures View(map[]) == INIT
    {
      sessions, signals, closings := map[], [], [];
    }

    ghost function View(calls: map<nat, Call>): State
      reads this
    {
      State(sessions, signals, closings, calls)
    }

    method EnsureState(session: string) returns (st: Session)
      modifies `sessions
      ensures st == Lookup(old(sessions), session, NO_SESSION)
      ensures sessions == old(sessions)[session := st]
    {
      if session !in sessions {
        sessions := sessions[session := Session(false, {}, map[], map[], map[], [])];
      }
      st := sessions[session];
    }

    method StartRound(session: string, round: string, cancel: Option<nat>, ghost calls: map<nat, Call>)
      modifies this
      ensures View(calls) == Next(old(View(calls)), RuntimeRounds.StartRound(session, round, cancel))
    {
      if session == "" || round == "" {
        return;
      }
      var st := EnsureState(session);
      ghost var found, made := st, |signals|;
      st := st.(running := st.running + {round}, interruptions := st.interruptions - {round});
      if cancel.Some? {
        st := st.(cancels := st.cancels[round := cancel.value]);
      }
      if round !in st.done {
        st := st.(done := st.done[round := |signals|]);
        signals := signals + [(session, round)];
      }
      assert st == Started(found, round, cancel, made);
      sessions := sessions[session := st];
      assert sessions == old(sessions)[session := st];
    }

    method MarkRoundFinished(session: string, round: string, ghost calls: map<nat, Call>)
      modifies this
      ensures View(calls) == Next(old(View(calls)), FinishRound(session, round))
    {
      if session == "" || round == "" || session !in sessions {
        return;
      }
      var st := sessions[session];
      st := st.(running := st.running - {round}, cancels := st.cancels - {round},
          interruptions := st.interruptions - {round});
      if st.running == {} {
        st := st.(guided := []);
      }
      if round in st.done {
        closings := closings + [st.done[round]];
        st := st.(done := st.done - {round});
      } else {
        assert st.done - {round} == st.done;
      }
      sessions := sessions[session := st];
    }

    method GetRunningRoundIDs(session: string) returns (ids: seq<string>)
      ensures IsSortedListOf(ids, Lookup(sessions, session, NO_SESSION).running)
    {
      if session !in sessions || sessions[session].running == {} {
        return [];
      }
      ids := SortKeys(sessions[session].running);
    }

    /** The first locked part of InterruptSession: the running rounds in some iteration order,
        with their done channels and cancels; `ids` is the sorted list the caller gets. */
    method SnapshotRounds(session: string, reason: string)
      returns (call: Call, ghost order: seq<string>, ids: seq<string>)
      ensures IsIterationOf(order, Lookup(sessions, session, NO_SESSION).running)
      ensures forall n :: call == Snapshot(View(map[]), Interrupt(n, session, reason, order))
      ensures IsSortedListOf(ids, Lookup(sessions, session, NO_SESSION).running)
    {
      order, ids := [], [];
      if session !in sessions {
        return Returned(session, [], [], true, 0), [], [];
      }
      var st := sessions[session];
      var roundIds := [];
      var rest := st.running;
      while rest != {}
        invariant rest <= st.running
        invariant IsIterationOf(roundIds, st.running - rest)
        decreases |rest|
      {
        var round :| round in rest;
        roundIds := roundIds + [round];
        rest := rest - {round};
      }
      order := roundIds;
      assert st.running - rest == st.running;
      assert forall round :: round in st.running ==> round in roundIds;
      if roundIds == [] {
        return Returned(session, [], [], true, 0), order, [];
      }
      assert roundIds[0] in st.running;
      var doneSignals := CollectValues(roundIds, st.done);
      var cancels := CollectValues(roundIds, st.cancels);
      ids := SortKeys(st.running);
      call := Snapshotted(session, reason, roundIds, doneSignals, cancels);
    }

    method CollectValues(order: seq<string>, m: map<string, nat>) returns (values: seq<nat>)
      ensures values == Collect(order, m)
    {
      values := [];
      var i := 0;
      while i < |order|
        invariant i <= |order|
        invariant values + Collect(order[i..], m) == Collect(order, m)
      {
        assert order[i..][1..] == order[i + 1..];
        if order[i] in m {
          values := values + [m[order[i]]];
        }
        i := i + 1;
      }
    }

    /** The second locked part: by now the session may have been closed, or made anew. */
    method MarkInterruptions(call: Call) returns (marked: Call)
      requires call.Snapshotted?
      modifies `sessions
      ensures View(map[0 := marked]) == Next(old(View(map[0 := call])), MarkInterrupted(0))
    {
      var st := EnsureState(call.session);
      var interruptions := st.interruptions;
      var i := 0;
      while i < |call.ids|
        invariant i <= |call.ids|
        invariant WithReason(interruptions, call.ids[i..], call.reason)
            == WithReason(st.interruptions, call.ids, call.reason)
      {
        assert call.ids[i..][1..] == call.ids[i + 1..];
        interruptions := interruptions[call.ids[i] := call.reason];
        i := i + 1;
      }
      sessions := sessions[call.session := st.(interruptions := interruptions)];
      marked := Marked(call.session, call.ids, call.signals, call.cancels, st.hasClient);
      assert map[0 := call][0 := marked] == map[0 := marked];
    }

    /** waitRoundDoneSignals: one signal after the other, the timer being listened to only until
        it has fired the cancels. `choices` are the outcomes of the selects; the loop returns
        still waiting when they run out. */
    method WaitRoundDoneSignals(session: string, ids: seq<string>, doneSignals: seq<nat>, canForce: bool,
          choices: seq<Choice>)
      returns (call: Call)
      ensures call == Waited(Wait(session, ids, doneSignals, !canForce, 0), choices)
      ensures call.Waiting? || call.Returned?
      ensures call.firings <= (if canForce then 1 else 0)
    {
      if |doneSignals| == 0 {
        return Returned(session, ids, doneSignals, true, 0);
      }
      var forceCancelled, firings := !canForce, 0;
      var next, i := 0, 0;
      while next < |doneSignals|
        invariant next <= |doneSignals| && i <= |choices|
        invariant firings == (if canForce && forceCancelled then 1 else 0) && (!canForce ==> forceCancelled)
        invariant next < |doneSignals| ==>
          Waited(Wait(session, ids, doneSignals, !canForce, 0), choices)
          == Waited(Waiting(session, ids, doneSignals, next, forceCancelled, firings), choices[i..])
        invariant next == |doneSignals| ==>
          Waited(Wait(session, ids, doneSignals, !canForce, 0), choices)
              == Returned(session, ids, doneSignals, true, firings)
      {
        var closed := false;
        while !closed
          invariant i <= |choices|
          invariant firings == (if canForce && forceCancelled then 1 else 0) && (!canForce ==> forceCancelled)
          invariant !closed ==>
            Waited(Wait(session, ids, doneSignals, !canForce, 0), choices)
            == Waited(Waiting(session, ids, doneSignals, next, forceCancelled, firings), choices[i..])
          invariant closed ==>
            Waited(Wait(session, ids, doneSignals, !canForce, 0), choices)
            == Waited(Chosen(Waiting(session, ids, doneSignals, next, forceCancelled, firings), SignalClosed),
                choices[i..])
          decreases |choices| - i, !closed
        {
          if i == |choices| {
            return Waiting(session, ids, doneSignals, next, forceCancelled, firings);
          }
          var choice := choices[i];
          assert choices[i..][1..] == choices[i + 1..];
          i := i + 1;
          match choice
          case SignalClosed => closed := true;
          case ContextDone => return Returned(session, ids, doneSignals, false, firings);
          case TimerFired =>
            if !forceCancelled {
              firings := firings + 1;
              forceCancelled := true;
            }
        }
        next := next + 1;
      }
      call := Returned(session, ids, doneSignals, true, firings);
    }

    /** The cancels of the dropped session are fired, and its client disconnected, only when it
        has a client. Its done channels are not closed. */
    method CloseSession(session: string, ghost calls: map<nat, Call>)
      returns (fired: map<string, nat>, disconnect: bool)
      modifies `sessions
      ensures View(calls) == Next(old(View(calls)), RuntimeRounds.CloseSession(session))
      ensures disconnect == Lookup(old(sessions), session, NO_SESSION).hasClient
      ensures fired == if disconnect then old(sessions)[session].cancels else map[]
    {
      fired, disconnect := map[], false;
      if session !in sessions {
        assert sessions - {session} == sessions;
        return;
      }
      var st := sessions[session];
      sessions := sessions - {session};
      if !st.hasClient {
        return;
      }
      fired, disconnect := st.cancels, true;
    }

    method QueueGuidanceInput(session: string, round: string, content: string, ghost calls: map<nat, Call>)
      returns (r: QueueResult)
      modifies `sessions
      ensures View(calls) == Next(old(View(calls)), Queue(session, Trim(round), Trim(content)))
      ensures r.Queued? <==> Accepts(old(View(calls)), session, Trim(content))
      ensures r.Queued? ==> IsSortedListOf(r.runningRounds, old(sessions)[session].running)
      ensures r.Ignored? <==> Trim(content) == ""
    {
      r := Enqueue(session, Trim(round), Trim(content), calls);
    }

    method Enqueue(session: string, round: string, content: string, ghost calls: map<nat, Call>)
      returns (r: QueueResult)
      modifies `sessions
      ensures View(calls) == Next(old(View(calls)), Queue(session, round, content))
      ensures r.Queued? <==> Accepts(old(View(calls)), session, content)
      ensures r.Queued? ==> IsSortedListOf(r.runningRounds, old(sessions)[session].running)
      ensures r.Ignored? <==> content == ""
    {
      if content == "" {
        return Ignored;
      }
      if session !in sessions || sessions[session].running == {} {
        return NoRunningRound;
      }
      var st := sessions[session];
      var ids := SortKeys(st.running);
      sessions := sessions[session := st.(guided := st.guided + [Guidance(round, content)])];
      r := Queued(ids);
    }

    method DrainGuidanceInputs(session: string, ghost calls: map<nat, Call>) returns (inputs: seq<Guidance>)
      modifies `sessions
      ensures View(calls) == Next(old(View(calls)), Drain(session))
      ensures inputs == Pending(old(View(calls)), session)
    {
      inputs := [];
      if session !in sessions {
        return;
      }
      var st := sessions[session];
      if |st.guided| == 0 {
        assert sessions == sessions[session := st.(guided := [])];
        return;
      }
      inputs := st.guided;
      sessions := sessions[session := st.(guided := [])];
    }

    method PendingGuidanceCount(session: string) returns (n: nat)
      ensures n == |Pending(View(map[]), session)|
    {
      n := if session in sessions then |sessions[session].guided| else 0;
    }
  }
}

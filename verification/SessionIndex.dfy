/** The two-way index between sessions and the senders bound to them, with closed senders
    pruned on the way. What the index means is one relation; both maps are always its two
    listings. */
module SessionIndex {
  import opened Options
  import opened SortedKeys

  datatype Index = Index(bindings: map<string, set<string>>, sessions: map<string, set<string>>)

  ghost function Pairs(ix: Index): set<(string, string)> {
    set s, k | s in ix.bindings && k in ix.bindings[s] :: (s, k)
  }

  /** A sender is listed under a session iff the session is listed under the sender, and no
      listing is empty. */
  ghost predicate Mirror(ix: Index) {
    && (forall s, k :: s in ix.bindings && k in ix.bindings[s] ==> k in ix.sessions && s in ix.sessions[k])
    && (forall s, k :: k in ix.sessions && s in ix.sessions[k] ==> s in ix.bindings && k in ix.bindings[s])
    && (forall s :: s in ix.bindings ==> ix.bindings[s] != {})
    && (forall k :: k in ix.sessions ==> ix.sessions[k] != {})
  }

  /** The relation determines both maps: nothing else is stored in them. */
  lemma PairsDetermineIndex(a: Index, b: Index)
    requires Mirror(a) && Mirror(b) && Pairs(a) == Pairs(b)
    ensures a == b
  {
    forall s, k ensures (s in a.bindings && k in a.bindings[s]) == (s in b.bindings && k in b.bindings[s]) {
      assert (s in a.bindings && k in a.bindings[s]) == ((s, k) in Pairs(a));
      assert (s in b.bindings && k in b.bindings[s]) == ((s, k) in Pairs(b));
    }
    SameListing(a.bindings, b.bindings);
    forall s, k ensures (k in a.sessions && s in a.sessions[k]) == (k in b.sessions && s in b.sessions[k]) {
      assert (k in a.sessions && s in a.sessions[k]) == (s in a.bindings && k in a.bindings[s]);
      assert (k in b.sessions && s in b.sessions[k]) == (s in b.bindings && k in b.bindings[s]);
    }
    SameListing(a.sessions, b.sessions);
  }

  lemma SameListing(a: map<string, set<string>>, b: map<string, set<string>>)
    requires forall x :: x in a ==> a[x] != {}
    requires forall x :: x in b ==> b[x] != {}
    requires forall x, y :: (x in a && y in a[x]) == (x in b && y in b[x])
    ensures a == b
  {
    forall x ensures x in a <==> x in b {
      if x in a { var y :| y in a[x]; assert x in b && y in b[x]; }
      if x in b { var y :| y in b[x]; assert x in a && y in a[x]; }
    }
    forall x | x in a ensures a[x] == b[x] {
      assert forall y :: y in a[x] <==> y in b[x];
    }
  }

  /** Delete `x` from the listing of `from`, and the listing itself when it becomes empty. */
  function Without(m: map<string, set<string>>, from: string, x: string): map<string, set<string>> {
    if from !in m || m[from] == {} then m
    else if m[from] - {x} == {} then m - {from}
    else m[from := m[from] - {x}]
  }

  function With(m: map<string, set<string>>, to: string, x: string): map<string, set<string>> {
    m[to := Lookup(m, to, {}) + {x}]
  }

  lemma WithoutMeaning(m: map<string, set<string>>, from: string, x: string, a: string, b: string)
    ensures var w := Without(m, from, x);
      (a in w && b in w[a]) == (a in m && b in m[a] && !(a == from && b == x))
  {
    if a == from && a in m { assert b in m[a] - {x} <==> b in m[a] && b != x; }
  }

  /** removeBindingLocked. */
  function RemovedBinding(ix: Index, session: string, key: string): Index {
    if session !in ix.bindings || ix.bindings[session] == {} then ix
    else Index(Without(ix.bindings, session, key), Without(ix.sessions, key, session))
  }

  lemma RemoveBindingMeaning(ix: Index, session: string, key: string)
    requires Mirror(ix)
    ensures Mirror(RemovedBinding(ix, session, key))
    ensures Pairs(RemovedBinding(ix, session, key)) == Pairs(ix) - {(session, key)}
  {
    RemovedListing(ix, session, key);
    PairsWithout(ix, RemovedBinding(ix, session, key), session, key);
  }

  lemma PairsWithout(ix: Index, after: Index, session: string, key: string)
    requires forall s, k :: Lists(after.bindings, s, k) == (Lists(ix.bindings, s, k) && (s, k) != (session, key))
    ensures Pairs(after) == Pairs(ix) - {(session, key)}
  {
    forall s, k ensures (s, k) in Pairs(after) <==> (s, k) in Pairs(ix) - {(session, key)} {
      assert (s, k) in Pairs(after) <==> Lists(after.bindings, s, k);
      assert (s, k) in Pairs(ix) <==> Lists(ix.bindings, s, k);
    }
  }

  lemma RemovedListing(ix: Index, session: string, key: string)
    requires Mirror(ix)
    ensures var after := RemovedBinding(ix, session, key);
      && Mirror(after)
      && forall s, k :: Lists(after.bindings, s, k) == (Lists(ix.bindings, s, k) && (s, k) != (session, key))
  {
    if session in ix.bindings && ix.bindings[session] != {} {
      var after := RemovedBinding(ix, session, key);
      forall s, k ensures Lists(after.bindings, s, k) == (Lists(ix.bindings, s, k) && (s, k) != (session, key)) {
        WithoutMeaning(ix.bindings, session, key, s, k);
      }
      forall s, k ensures Lists(after.sessions, k, s) == (Lists(ix.sessions, k, s) && (s, k) != (session, key)) {
        WithoutMeaning(ix.sessions, key, session, k, s);
      }
      WithoutFull(ix.bindings, session, key);
      WithoutFull(ix.sessions, key, session);
      MirrorWithout(ix, after, session, key);
    }
  }

  predicate Lists(m: map<string, set<string>>, a: string, b: string) {
    a in m && b in m[a]
  }

  lemma MirrorWithout(ix: Index, after: Index, session: string, key: string)
    requires Mirror(ix)
    requires forall s, k :: Lists(after.bindings, s, k) == (Lists(ix.bindings, s, k) && (s, k) != (session, key))
    requires forall s, k :: Lists(after.sessions, k, s) == (Lists(ix.sessions, k, s) && (s, k) != (session, key))
    requires (forall s :: s in after.bindings ==> after.bindings[s] != {})
        && (forall k :: k in after.sessions ==> after.sessions[k] != {})
    ensures Mirror(after)
  {
    forall s, k ensures (s in after.bindings && k in after.bindings[s])
        == (k in after.sessions && s in after.sessions[k]) {
      assert Lists(ix.bindings, s, k) == Lists(ix.sessions, k, s);
      assert Lists(after.bindings, s, k) == Lists(after.sessions, k, s);
    }
  }

  lemma WithoutFull(m: map<string, set<string>>, from: string, x: string)
    requires forall a :: a in m ==> m[a] != {}
    ensures var w := Without(m, from, x); forall a :: a in w ==> w[a] != {}
  {}

  lemma AddBindingMeaning(ix: Index, session: string, key: string)
    requires Mirror(ix)
    ensures var after := Index(With(ix.bindings, session, key), With(ix.sessions, key, session));
      Mirror(after) && Pairs(after) == Pairs(ix) + {(session, key)}
  {
    var after := Index(With(ix.bindings, session, key), With(ix.sessions, key, session));
    forall s, k ensures (s in after.bindings && k in after.bindings[s])
                     == ((s in ix.bindings && k in ix.bindings[s]) || (s, k) == (session, key)) {}
    forall s, k ensures (k in after.sessions && s in after.sessions[k])
                     == ((k in ix.sessions && s in ix.sessions[k]) || (s, k) == (session, key)) {}
  }

  ghost function SessionsOf(pairs: set<(string, string)>, key: string): set<string> {
    set p | p in pairs && p.1 == key :: p.0
  }

  ghost function SendersOf(pairs: set<(string, string)>, session: string): set<string> {
    set p | p in pairs && p.0 == session :: p.1
  }

  ghost function ClosedPairs(pairs: set<(string, string)>, session: string,
        closed: set<string>): set<(string, string)> {
    set p | p in pairs && p.0 == session && p.1 in closed
  }

  /** What unregistering `key` removes from the listings of `visited`. */
  ghost function Departing(pairs: set<(string, string)>, visited: set<string>, key: string,
        closed: set<string>): set<(string, string)> {
    set p | p in pairs && p.0 in visited && (p.1 == key || p.1 in closed)
  }

  lemma DepartingStep(pairs: set<(string, string)>, visited: set<string>, session: string, key: string,
        closed: set<string>)
    ensures var left := pairs - Departing(pairs, visited, key, closed) - {(session, key)};
      left - ClosedPairs(left, session, closed) == pairs - Departing(pairs, visited + {session}, key, closed)
  {}

  lemma DepartedAll(pairs: set<(string, string)>, visited: set<string>, key: string, closed: set<string>)
    requires visited <= SessionsOf(pairs, key)
    requires SessionsOf(pairs - Departing(pairs, visited, key, closed), key) <= visited
    ensures visited == SessionsOf(pairs, key)
    ensures SessionsOf(pairs - Departing(pairs, visited, key, closed), key) == {}
  {
    var left := pairs - Departing(pairs, visited, key, closed);
    forall s | s in SessionsOf(pairs, key) ensures s in visited {
      assert (s, key) in pairs;
      assert s !in visited ==> (s, key) in left;
      assert (s, key) in left ==> (s, key).0 in SessionsOf(left, key);
    }
    assert forall s :: s in SessionsOf(left, key) ==> (s, key) in left && s in visited;
  }

  class Context {
    var sessionBindings: map<string, set<string>>
    var senderSessions: map<string, set<string>>

    ghost predicate Valid() reads this { Mirror(View()) }

    ghost function View(): Index reads this { Index(sessionBindings, senderSessions) }

    ghost function Bound(): set<(string, string)> reads this { Pairs(View()) }

    constructor ()
      ensures Valid() && Bound() == {}
    {
      sessionBindings, senderSessions := map[], map[];
    }

    method RemoveBinding(session: string, key: string)
      requires Valid()
      modifies this
      ensures Valid() && Bound() == old(Bound()) - {(session, key)}
      ensures View() == RemovedBinding(old(View()), session, key)
    {
      RemoveBindingMeaning(View(), session, key);
      if session !in sessionBindings || sessionBindings[session] == {} {
        return;
      }
      var bindings := sessionBindings[session] - {key};
      sessionBindings := sessionBindings[session := bindings];
      if bindings == {} {
        sessionBindings := sessionBindings - {session};
      }
      if key in senderSessions && senderSessions[key] != {} {
        var sessions := senderSessions[key] - {session};
        senderSessions := senderSessions[key := sessions];
        if sessions == {} {
          senderSessions := senderSessions - {key};
        }
      }
      assert View().bindings == Without(old(sessionBindings), session, key);
      assert View().sessions == Without(old(senderSessions), key, session);
    }

    /** The listing is iterated while closed senders are deleted from it. */
    method PruneClosedBindings(session: string, closed: set<string>)
      requires Valid()
      modifies this
      ensures Valid() && Bound() == old(Bound()) - ClosedPairs(old(Bound()), session, closed)
    {
      if session !in sessionBindings || sessionBindings[session] == {} {
        assert ClosedPairs(Bound(), session, closed) == {};
        return;
      }
      var visited := {};
      while session in sessionBindings && sessionBindings[session] - visited != {}
        invariant Valid()
        invariant Bound() == old(Bound()) - ClosedPairs(old(Bound()), session, closed * visited)
        decreases SendersOf(old(Bound()), session) - visited
      {
        var key :| key in sessionBindings[session] - visited;
        assert (session, key) in Bound() && (session, key) in old(Bound());
        assert key in SendersOf(old(Bound()), session);
        assert ClosedPairs(old(Bound()), session, closed * (visited + {key}))
            == ClosedPairs(old(Bound()), session, closed * visited) + if key in closed then {(session, key)} else {};
        if key in closed {
          RemoveBinding(session, key);
        }
        visited := visited + {key};
      }
      forall p | p in Bound() && p.0 == session ensures p.1 !in closed {}
    }

    /** `open` is what IsClosed answers on entry; `closed` are the senders found closed under the
        lock, the newcomer possibly among them. */
    method BindSession(session: string, key: string, open: bool, closed: set<string>)
      requires Valid()
      modifies this
      ensures Valid()
      ensures var after := old(Bound()) + {(session, key)};
        Bound() == if open && session != "" then after - ClosedPairs(after, session, closed) else old(Bound())
    {
      if !open || session == "" {
        return;
      }
      AddBindingMeaning(View(), session, key);
      var bindings := if session in sessionBindings then sessionBindings[session] else {};
      sessionBindings := sessionBindings[session := bindings + {key}];
      var sessions := if key in senderSessions then senderSessions[key] else {};
      senderSessions := senderSessions[key := sessions + {session}];
      PruneClosedBindings(session, closed);
    }

    method UnbindSession(session: string, key: string, closed: set<string>)
      requires Valid()
      modifies this
      ensures Valid()
      ensures var after := old(Bound()) - {(session, key)};
        Bound() == if session == "" then old(Bound()) else after - ClosedPairs(after, session, closed)
    {
      if session == "" {
        return;
      }
      RemoveBinding(session, key);
      PruneClosedBindings(session, closed);
    }

    /** The sessions of the sender are iterated while removeBindingLocked deletes from that very
        listing. The result is the sorted list of the sessions bound at entry; the sender is
        gone, and so are the closed senders of those sessions, and nothing else. */
    method UnregisterSender(key: string, closed: set<string>) returns (changed: seq<string>)
      requires Valid()
      modifies this
      ensures Valid()
      ensures IsSortedListOf(changed, SessionsOf(old(Bound()), key))
      ensures Bound() == old(Bound()) - Departing(old(Bound()), SessionsOf(old(Bound()), key), key, closed)
      ensures key !in senderSessions && SessionsOf(Bound(), key) == {}
    {
      ListedSessions(View(), key);
      if key !in senderSessions || senderSessions[key] == {} {
        return [];
      }
      var visited := {};
      while key in senderSessions && senderSessions[key] - visited != {}
        invariant Valid()
        invariant visited <= SessionsOf(old(Bound()), key)
        invariant Bound() == old(Bound()) - Departing(old(Bound()), visited, key, closed)
        decreases SessionsOf(old(Bound()), key) - visited
      {
        var session :| session in senderSessions[key] - visited;
        assert (session, key) in Bound() && (session, key) in old(Bound());
        assert session in SessionsOf(old(Bound()), key);
        RemoveBinding(session, key);
        PruneClosedBindings(session, closed);
        DepartingStep(old(Bound()), visited, session, key, closed);
        visited := visited + {session};
      }
      ListedSessions(View(), key);
      DepartedAll(old(Bound()), visited, key, closed);
      assert senderSessions - {key} == senderSessions;
      senderSessions := senderSessions - {key};
      changed := SortKeys(visited);
    }

    method IsBound(session: string, key: string, closed: set<string>) returns (bound: bool)
      requires Valid()
      modifies this
      ensures Valid() && Bound() == old(Bound()) - ClosedPairs(old(Bound()), session, closed)
      ensures bound <==> (session, key) in old(Bound()) && key !in closed
    {
      PruneClosedBindings(session, closed);
      bound := session in sessionBindings && key in sessionBindings[session];
      assert bound == ((session, key) in Bound());
    }

    method ResolveSessionSenders(session: string, closed: set<string>) returns (senders: seq<string>)
      requires Valid()
      modifies this
      ensures Valid() && Bound() == old(Bound()) - ClosedPairs(old(Bound()), session, closed)
      ensures IsSortedListOf(senders, SendersOf(old(Bound()), session) - closed)
    {
      PruneClosedBindings(session, closed);
      ListedSenders(View(), session);
      assert SendersOf(Bound(), session) == SendersOf(old(Bound()), session) - closed;
      if session !in sessionBindings {
        return [];
      }
      senders := SortKeys(sessionBindings[session]);
    }
  }

  lemma ListedSessions(ix: Index, key: string)
    requires Mirror(ix)
    ensures SessionsOf(Pairs(ix), key) == Lookup(ix.sessions, key, {})
  {
    forall s ensures s in SessionsOf(Pairs(ix), key) <==> s in Lookup(ix.sessions, key, {}) {
      assert s in SessionsOf(Pairs(ix), key) <==> (s, key) in Pairs(ix);
    }
  }

  lemma ListedSenders(ix: Index, session: string)
    requires Mirror(ix)
    ensures SendersOf(Pairs(ix), session) == Lookup(ix.bindings, session, {})
  {
    forall k ensures k in SendersOf(Pairs(ix), session) <==> k in Lookup(ix.bindings, session, {}) {
      assert k in SendersOf(Pairs(ix), session) <==> (session, k) in Pairs(ix);
    }
  }
}

/** The workspace registry: its fields and the regions it runs under its mutex, each proved to
    have the outcome WorkspaceTokens gives the step. A token is the number it was handed out
    under; the empty token is None. */
module WorkspaceRegistry {
  import opened Options
  import opened WorkspaceTokens

  class Registry {
    const hasWorkspace: bool
    var senderTokens: map<string, Row>
    var agentSenders: map<string, set<string>>
    var poller: bool

    /** No sender is listed without entries, no agent without senders, and the poller runs while
        there is a subscription. */
    ghost predicate Valid() reads this {
      && (forall k :: k in senderTokens ==> senderTokens[k] != map[])
      && (forall a :: a in agentSenders ==> agentSenders[a] != {})
      && (poller <==> agentSenders != map[])
    }

    ghost function RowOf(key: string): Row reads this {
      Lookup(senderTokens, key, map[])
    }

    /** The registry went from its old state to the one the outcome describes. */
    twostate predicate Has(key: string, o: Outcome)
      reads this
    {
      && senderTokens == Enter(old(senderTokens), key, o.row)
      && agentSenders == Reindexed(old(agentSenders), key, o.index)
      && poller == Polling(old(poller), agentSenders, o.index)
    }

    constructor (hasWorkspace: bool)
      ensures Valid() && this.hasWorkspace == hasWorkspace && senderTokens == map[] && !poller
    {
      this.hasWorkspace := hasWorkspace;
      senderTokens, agentSenders, poller := map[], map[], false;
    }

    /** The first locked region of Subscribe: bump the entry if there is one. */
    method SubscribeEnter(key: string, agent: string, watch: bool) returns (task: Task)
      requires Valid()
      modifies this
      ensures Valid()
      ensures var o := Subscribing(hasWorkspace, old(RowOf(key)), agent, watch); Has(key, o) && task == o.task
    {
      if key in senderTokens && agent in senderTokens[key] {
        var subscription := senderTokens[key][agent];
        subscription := subscription.(refs := subscription.refs + 1);
        var needsUpgrade := watch && subscription.token.None? && hasWorkspace;
        if watch {
          subscription := subscription.(watches := subscription.watches + 1);
        }
        var row := senderTokens[key][agent := subscription];
        assert agent in row;
        senderTokens := senderTokens[key := row];
        return if needsUpgrade then Upgrading(agent) else Idle;
      }
      assert senderTokens == Enter(senderTokens, key, RowOf(key));
      task := if watch && hasWorkspace then Acquiring(agent) else Storing(agent, watch, None);
    }

    /** The second locked region of Subscribe. */
    method SubscribeStore(key: string, agent: string, watch: bool, acquired: Option<nat>, closed: bool)
      returns (task: Task)
      requires Valid()
      modifies this
      ensures Valid()
      ensures var o := StoringEntry(closed, old(RowOf(key)), agent, watch, acquired); Has(key, o) && task == o.task
    {
      if closed {
        assert senderTokens == Enter(senderTokens, key, RowOf(key));
        return if acquired.Some? then Releasing(acquired.value) else Idle;
      }
      var row := if key in senderTokens then senderTokens[key] else map[];
      row := row[agent := Entry(1, acquired, if watch then 1 else 0)];
      assert agent in row;
      senderTokens := senderTokens[key := row];
      AddSender(key, agent);
      task := Idle;
    }

    method AddSender(key: string, agent: string)
      requires forall a :: a in agentSenders ==> agentSenders[a] != {}
      modifies `agentSenders, `poller
      ensures agentSenders == Reindexed(old(agentSenders), key, Adds(agent)) && poller
      ensures agentSenders != map[] && forall a :: a in agentSenders ==> agentSenders[a] != {}
    {
      var senders := if agent in agentSenders then agentSenders[agent] else {};
      assert key in senders + {key};
      agentSenders := agentSenders[agent := senders + {key}];
      assert agent in agentSenders;
      if !poller {
        poller := true;
      }
    }

    method AttachLiveToken(key: string, agent: string, token: nat) returns (task: Task)
      requires Valid()
      modifies `senderTokens
      ensures Valid()
      ensures var o := Attaching(old(RowOf(key)), agent, token); Has(key, o) && task == o.task
    {
      if key !in senderTokens || agent !in senderTokens[key]
         || senderTokens[key][agent].token.Some? || senderTokens[key][agent].watches == 0 {
        assert senderTokens == Enter(senderTokens, key, RowOf(key));
        return Releasing(token);
      }
      var row := senderTokens[key][agent := senderTokens[key][agent].(token := Some(token))];
      assert agent in row;
      senderTokens := senderTokens[key := row];
      task := Idle;
    }

    /** The common end of unsubscribe and remove. */
    method Drop(key: string, agent: string)
      requires Valid() && key in senderTokens
      modifies this
      ensures Valid()
      ensures Has(key, Outcome(old(RowOf(key)) - {agent}, Idle, Drops(agent), false, None))
    {
      var row := senderTokens[key] - {agent};
      senderTokens := senderTokens[key := row];
      if row == map[] {
        senderTokens := senderTokens - {key};
      }
      assert senderTokens == Enter(old(senderTokens), key, row);
      RemoveSender(key, agent);
    }

    method RemoveSender(key: string, agent: string)
      requires forall a :: a in agentSenders ==> agentSenders[a] != {}
      requires poller <==> agentSenders != map[]
      modifies `agentSenders, `poller
      ensures agentSenders == Reindexed(old(agentSenders), key, Drops(agent))
      ensures poller == Polling(old(poller), agentSenders, Drops(agent))
      ensures forall a :: a in agentSenders ==> agentSenders[a] != {}
      ensures poller <==> agentSenders != map[]
    {
      PollerStep(poller, agentSenders, key, Drops(agent));
      if agent in agentSenders {
        var senders := agentSenders[agent] - {key};
        if senders == {} {
          agentSenders := agentSenders - {agent};
        } else {
          agentSenders := agentSenders[agent := senders];
        }
      }
      if agentSenders == map[] && poller {
        poller := false;
      }
    }

    method Unsubscribe(key: string, agent: string, watch: bool) returns (task: Task)
      requires Valid()
      modifies this
      ensures Valid()
      ensures var o := Unsubscribing(old(RowOf(key)), agent, watch); Has(key, o) && task == o.task
    {
      if key !in senderTokens {
        assert senderTokens - {key} == senderTokens;
        return Idle;
      }
      var subscription := if agent in senderTokens[key] then senderTokens[key][agent] else Entry(0, None, 0);
      var tokenToRelease := None;
      if watch && subscription.watches > 0 {
        subscription := subscription.(watches := subscription.watches - 1);
        if subscription.watches == 0 && subscription.refs > 1 {
          tokenToRelease := subscription.token;
          subscription := subscription.(token := None);
        }
      }
      if subscription.refs > 1 {
        subscription := subscription.(refs := subscription.refs - 1);
        var row := senderTokens[key][agent := subscription];
        assert agent in row;
        senderTokens := senderTokens[key := row];
        return if tokenToRelease.Some? then Releasing(tokenToRelease.value) else Idle;
      }
      Drop(key, agent);
      task := if subscription.token.Some? then Releasing(subscription.token.value) else Idle;
    }

    /** The locked region of remove, for one of the agents UnregisterSender collected. */
    method Remove(key: string, agents: set<string>, agent: string) returns (task: Task)
      requires Valid() && agent in agents
      modifies this
      ensures Valid()
      ensures var o := RemovingNext(old(RowOf(key)), agents, agent); Has(key, o) && task == o.task
    {
      if key !in senderTokens || agent !in senderTokens[key] {
        assert senderTokens == Enter(senderTokens, key, RowOf(key));
        return Unregistering(agents - {agent});
      }
      var token := senderTokens[key][agent].token;
      Drop(key, agent);
      task := if token.Some? then UnregisterReleasing(token.value, agents - {agent})
          else Unregistering(agents - {agent});
    }
  }
}

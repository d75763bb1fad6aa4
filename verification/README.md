# Nexus cores in Dafny

Nexus is a chat server in which several agents work in shared rooms. This project models six of its
cores and proves what they are relied on for.

* **Room event stream** (`RoomStream`, `RoomSubscriptions`, `RoomRegistry`). Per-room sequence numbers, a
  bounded replay buffer, live fan-out, and replay or resync on reconnection. The state machine takes one
  step for each region run under the mutex; the main theorems are that, in every interleaving, a
  reconnecting client loses nothing and gets nothing twice, that the registry holds exactly what the
  operations asked for and did not withdraw, and that nobody is addressed an event it does not want.
* **Running rounds** (`RuntimeRounds`, `RuntimeHistory`, `RuntimeManager`, `RoundExecutor`,
  `RoundEffects`). Rounds, done signals, cancels, interruption (which gives up its lock in the middle),
  queued guidance, and the loop that executes one round. Interrupting is proved to wait for every round
  that ran when it was asked, it is proved exactly when an interrupt under way can still succeed, and
  which cancels it captures and fires is read off the operations alone.
* **Subscription indexes** (`WorkspaceTokens`, `WorkspaceCalls`, `WorkspaceRegistry`, `SessionIndex`). Live
  tokens are conserved through reference counts, upgrades, failures and teardown; two maps stay mirrors of each
  other while closed senders are pruned from a listing that is being walked.
* **Assistant stream** (`AssistantContent`, `BlockUpserts`, `BlockMerges`, `SegmentObject`,
  `ProcessorRun`, `ProcessorReports`, `MessageProcessor`). Raw stream indices may be reused, so a table maps them to positions of a
  growing list into which snapshots and tool results are upserted by key. Blocks are cells on the
  heap: deltas write into them, and messages already emitted are proved never to change.
* **Public context window** (`Utf8`, `Utf8Encoding`, `LineWindow`, `VisibleContext`). Two greedy selections written
  independently, one over messages and one over rendered lines, are proved to agree under the byte
  budget; the cursor is proved never to deliver a message twice; truncation respects runes.
* **Parsers and a graph walk** (`Segments`, `SessionKey`, `KeyGrammar`, `Heartbeat`, `BlockWalk`). The
  session-key printer and parser with the exact grammar of valid keys, the parser of heartbeat files, and
  a walk over a possibly cyclic block graph.

`Options`, `Histories`, `SortedKeys` and `Text` hold what the others share. Where the source changes state in
place, a class has the same fields and methods, and each method is proved to take the step of a
specification function; the theorems over runs are about those functions.

`dafny verify dfyconfig.toml` checks the whole project.

## What the proofs found

* A snapshot copied into an empty segment can hold several blocks with one key, and then applying it
  again changes the content (`BlockUpserts.SnapshotNotRepeatable`). It changes nothing exactly if all
  its blocks have keys and, with an empty content, the first and the last block with each key are
  equal (`BlockUpserts.SnapshotAgain`).
* The block published for a delta is looked up by its position as if that were a raw index.
  `AssistantContent.PayloadReadsItsPosition` says exactly when that is the right block, and
  `AssistantContent.PayloadOfAnotherBlock` gives a stream in which it is not.
* A thinking delta on a raw index that was never opened is dropped and leaves an empty text block
  behind (`AssistantContent.ThinkingDeltaWithoutStart`).
* Closing a session drops its done signals without closing them, so that an interrupt waiting for one
  of them can only end with an error (`RuntimeRounds.OvertakenRunFails`). An interrupt under way can
  still succeed exactly if each signal it has yet to wait for is closed or belongs to a round that
  still runs in its session (`RuntimeRounds.CanStillSucceed`).
* Some names accepted for a named automation target have keys that parse to the ref and thread of the
  main session, `main:topic` among them (`SessionKey.NamedMainTopic`). They are exactly those that a
  `topic` segment cuts into `main` and nothing, up to white space (`SessionKey.NamedParsesAsMain`);
  none of these keys is structured (`SessionKey.StructuredNamedIsNotMain`), and none is a main key
  itself (`SessionKey.ResolvesToMainExactly`).
* White space can hide a `topic` segment: a key whose ref starts with a blank and then `topic` is valid,
  and the key printed from what it parses to is not (`KeyGrammar.PaddedTopic`). Printing a parsed key and
  parsing it again gives the same fields exactly if its trimmed ref has no `topic` segment
  (`KeyGrammar.ReprintedKey`).
* The metadata of a message delta that arrives before anything has started the segment is lost, because
  reading the id of the segment starts it afresh (`ProcessorReports.FirstMeta`, which
  `ProcessorReports.SegmentIsOfEpisode` relates to every run).
* Converted document blocks are walked chunk by chunk, each chunk with a fresh set of seen blocks, so a
  block is requested once for each chunk that leads to it (`BlockWalk.RequestedOncePerChunk`,
  `BlockWalk.SharedBlockIsRequestedTwice`); each is requested once exactly if no block is reachable
  from two chunks (`BlockWalk.CreatedCount`).

## Model

| member | source | states |
|---|---|---|
| `RoomStream.NoLossNoDuplication` | internal/handler/websocket/registry_room_subscription.go:45-86 | for every run of locked regions in which a sender reconnects with a positive last-seen number, stays open and subscribed and keeps the room, and none of the numbers it needs is evicted: the matching sequenced events addressed to it from then on are, in order, exactly those after its last-seen number, and it is never told to resync |
| `RoomStream.ResyncWhenEvicted` | internal/handler/websocket/registry_room_subscription.go:221-227 | if a number it needs is evicted, it is told to resync exactly once, with the range it missed, and gets exactly the matching events sequenced after the snapshot |
| `RoomStream.EachEventExactlyOnce` | internal/handler/websocket/registry_room_subscription.go:175-240 | without a resync, each matching event numbered above last-seen is addressed to the sender at exactly one position of the whole run |
| `RoomStream.MatchingIsExactlyOnce` | internal/handler/websocket/registry_room_subscription.go:229-237 | the matching part of a history has strictly ascending numbers and holds exactly the events whose conversation matches |
| `RoomStream.BufferIsRecentHistory` | internal/handler/websocket/registry_room_subscription.go:242-261 | in every reachable state the counter is the number of events sequenced since the room was removed, they are numbered 1, 2, 3, ..., and the buffer holds the last min(cap, counter) of them |
| `RoomStream.ReplayOrResync` | internal/handler/websocket/registry_room_subscription.go:201-240 | the whole plan for last-seen L > 0 in any reachable state: exactly the matching events after L, in order and no others (none when it is up to date), or, exactly when a needed number is evicted, one resync that names the first buffered number; the resync with an empty buffer is unreachable |
| `RoomStream.LiveRun` | internal/handler/websocket/registry_room_subscription.go:175-199 | under a standing subscription to a conversation, the matching sequenced events a run of any steps addresses to the sender are exactly the matching part of what the run adds to the history, and there is no resync |
| `RoomStream.BroadcastReachesExactly` | internal/handler/websocket/registry_room_subscription.go:263-291 | what a broadcast addresses to any sender in any state: the prepared event, once, if the sender is open and holds a matching subscription in the room, and otherwise nothing at all |
| `RoomStream.NothingElseAddressed` | internal/handler/websocket/registry_room_subscription.go:175-240 | isolation over every run: whatever is addressed to anyone was addressed by a step that entitled it, a broadcast of an event some subscription it holds in that room matches, or a replay of an event newer than its last-seen number in the conversation it just subscribed |
| `RoomStream.ExactlyItsConversation` | internal/handler/websocket/registry_room_subscription.go:45-86 | a reconnecting client that only ever asks for one conversation of a room is addressed, of all sequenced events of that room, exactly the matching ones after its last-seen number, in order |
| `RoomStream.StaysSubscribed` | internal/handler/websocket/registry_room_subscription.go:88-124 | a standing subscription survives every step that is not its own removal, the pruning of closed senders included |
| `RoomStream.IndexInvariantAlways` | internal/handler/websocket/registry_room_subscription.go:88-164 | in every reachable state each entry of roomSubs is known to senderRooms and no inner map is empty |
| `RoomStream.SilentAfterUnregister` | internal/handler/websocket/registry_room_subscription.go:126-143 | after its removal a sender is addressed nothing until it subscribes again |
| `RoomSubscriptions.HoldsWhatIsWanted` | internal/handler/websocket/registry_room_subscription.go:45-164 | over every run, told from the operations alone: a stored conversation is one its sender subscribed to and has since neither unsubscribed from nor lost by its own removal or that of the room, and of a sender that is open all such conversations are stored |
| `RoomSubscriptions.ListedWhereWanted` | internal/handler/websocket/registry_room_subscription.go:88-164 | the rooms an open sender is listed with in senderRooms are exactly those where it wants some conversation |
| `RoomSubscriptions.ClosedAreDropped` | internal/handler/websocket/registry_room_subscription.go:263-291 | a broadcast leaves no closed sender in its room |
| `RoomSubscriptions.BroadcastReachesWhoWantsIt` | internal/handler/websocket/registry_room_subscription.go:175-199 | what a broadcast addresses to any sender after any run: one delivery exactly if the sender is open and wants the conversation, an empty one on either side standing for all; it carries the payload, the room filled in if it was empty, and the next number of the room exactly if the event is durable and has none |
| `RoomSubscriptions.NothingUnwanted` | internal/handler/websocket/registry_room_subscription.go:175-240 | over every run an event is addressed to a sender only by a step at which it wants its conversation |
| `RoomSubscriptions.SilentAfterUnsubscribe` | internal/handler/websocket/registry_room_subscription.go:88-124 | after its unsubscription from a conversation, and without a subscription to all conversations, a sender is addressed no event of it until it subscribes again |
| `RoomSubscriptions.HistoryIsBroadcasts` | internal/handler/websocket/registry_room_subscription.go:242-261 | each event of the history is a broadcast of the run since the room was last removed, under the number it got |
| `RoomSubscriptions.ReplayedAre` | internal/handler/websocket/registry_room_subscription.go:201-240 | with nothing needed evicted, a replay addresses an event of the history exactly if its number is above last-seen and its conversation is the one asked for, an empty one on either side standing for all |
| `RoomSubscriptions.NoReplayUnasked` | internal/handler/websocket/registry_room_subscription.go:201-212 | a subscription without a positive last-seen number addresses nothing |
| `RoomRegistry.Registry.constructor` | internal/handler/websocket/registry_room_subscription.go:32-43 | the registry starts empty, with a buffer of 128 unless a positive size is given |
| `RoomRegistry.Registry.SubscribeRoom` | internal/handler/websocket/registry_room_subscription.go:45-86 | with the answer the sender gave before the lock was taken, the locked region takes the subscription step and the replay is the one planned from its snapshot; nothing changes if the answer was closed |
| `RoomRegistry.Registry.PlanReplay` | internal/handler/websocket/registry_room_subscription.go:201-240 | the branches and the loop of the replay give the replay plan |
| `RoomRegistry.Registry.SendReplay` | internal/handler/websocket/registry_room_subscription.go:229-239 | the replay sends are a prefix of the plan that ends before the first send that fails |
| `RoomRegistry.Registry.UnsubscribeRoom` | internal/handler/websocket/registry_room_subscription.go:88-124 | takes the unsubscription step, with its early returns; what the step takes away is pinned by `RoomSubscriptions.HoldsWhatIsWanted` |
| `RoomRegistry.Registry.UnregisterSender` | internal/handler/websocket/registry_room_subscription.go:126-143 | the loop over the sender's rooms takes the unregistration step |
| `RoomRegistry.Registry.RemoveRoom` | internal/handler/websocket/registry_room_subscription.go:145-164 | takes the removal step on all four maps |
| `RoomRegistry.Registry.PrepareRoomEvent` | internal/handler/websocket/registry_room_subscription.go:242-261 | stamps and buffers an event that is durable and not stamped yet, and only such an event |
| `RoomRegistry.Registry.MatchingSubscribers` | internal/handler/websocket/registry_room_subscription.go:263-291 | the sorted open senders with a matching subscription, the closed ones being pruned while the list is walked |
| `RoomRegistry.Registry.Broadcast` | internal/handler/websocket/registry_room_subscription.go:175-185 | the locked region takes the broadcast step and its targets are those the step addresses |
| `RoomRegistry.Registry.SendLive` | internal/handler/websocket/registry_room_subscription.go:191-198 | a failed or skipped send does not stop the others, and errors are reported exactly if some open target failed |
| `RuntimeRounds.InterruptReallyWaits` | internal/runtime/manager.go:492-552 | in every interleaving: when an interrupt returns without an error it reports exactly the rounds running at its snapshot, each of them has since been ended by a MarkRoundFinished that found it still running under the done signal it had at the snapshot and closed that signal, and the captured cancels were fired at most once |
| `RuntimeRounds.InvariantAlways` | internal/runtime/manager.go:414-452 | in every reachable state a session's done signals and running rounds have the same keys, cancels belong to running rounds, no signal is closed twice, and each interrupt watches one signal per round it reports |
| `RuntimeRounds.ClosedInBetween` | internal/runtime/manager.go:432-452 | a signal closed between two moments was closed by a MarkRoundFinished that found the round it was made for running under it |
| `RuntimeRounds.OrphanForever` | internal/runtime/manager.go:622-638 | a done signal dropped with its session is never closed |
| `RuntimeRounds.CanStillSucceed` | internal/runtime/manager.go:526-552 | exactly when, in every reachable state: an interrupt that has not returned can still return without an error in some continuation if and only if each done signal it has yet to wait for is closed or belongs to a round that still runs in its session |
| `RuntimeRounds.OvertakenInterruptFails` | internal/runtime/manager.go:622-638 | an interrupt overtaken by CloseSession while it has to wait for one of the dropped rounds never returns without an error |
| `RuntimeRounds.OvertakenRunFails` | internal/runtime/manager.go:622-638 | a run of four steps (a round, a client, an interrupt, the session closed) after which no continuation lets the interrupt succeed |
| `RuntimeRounds.GuidanceIsConserved` | internal/runtime/guidance.go:21-55 | over every run the inputs accepted are, in order, those drained or discarded followed by those pending, and nothing is pending unless a round runs |
| `RuntimeHistory.RoundsAre` | internal/runtime/manager.go:414-452 | over every run, told from the operations alone: a round runs exactly if it was started and has since neither finished nor lost its session, and its cancel is exactly the last one a start brought since it last began running |
| `RuntimeHistory.SignalStaysLive` | internal/runtime/manager.go:414-430 | a round keeps its done signal, open, for as long as it runs, however often it is started again |
| `RuntimeHistory.ClientsAre` | internal/runtime/manager.go:322-353 | a session has a client exactly if one was attached and the session was not closed since |
| `RuntimeHistory.CapturedAre` | internal/runtime/manager.go:492-523 | the first locked part of an interrupt captures exactly the rounds running then, and for each of them that has a cancel exactly the last one brought for it |
| `RuntimeHistory.InterruptComesOut` | internal/runtime/manager.go:525-552 | in every run a returned call fired the captured cancels, once, exactly if the session had no client when the call was marked or the timer went off while it was waiting, and it returned an error exactly if the client refused or the context of the caller ended first |
| `RuntimeHistory.ClosingFires` | internal/runtime/manager.go:622-638 | closing a session fires exactly the cancels of its running rounds if it has a client, and none otherwise |
| `RuntimeHistory.ReasonsAre` | internal/runtime/manager.go:527-533 | the reason recorded for a round is that of the last interrupt that reported it and was marked since the round was last started or ended |
| `RuntimeHistory.QueuedWhileBusy` | internal/runtime/guidance.go:21-45 | an input queued after any run is taken, behind those pending, exactly if it is not blank and some round of its session was started and has not ended |
| `RuntimeManager.Manager.constructor` | internal/runtime/manager.go:311-320 | the manager starts without sessions |
| `RuntimeManager.Manager.StartRound` | internal/runtime/manager.go:414-430 | takes the start step: a done signal is made only if the round has none, and a cancel replaces the old one; what is stored is pinned by `RuntimeHistory.RoundsAre` |
| `RuntimeManager.Manager.MarkRoundFinished` | internal/runtime/manager.go:432-452 | takes the finish step: guidance is dropped with the last running round, the signal closed and forgotten |
| `RuntimeManager.Manager.GetRunningRoundIDs` | internal/runtime/manager.go:455-469 | returns the sorted running rounds |
| `RuntimeManager.Manager.SnapshotRounds` | internal/runtime/manager.go:492-523 | the first locked part captures the running rounds in some order with their signals and cancels |
| `RuntimeManager.Manager.MarkInterruptions` | internal/runtime/manager.go:527-533 | the second locked part records the reason for every captured round, in a session that may be new by then |
| `RuntimeManager.Manager.WaitRoundDoneSignals` | internal/runtime/manager.go:658-694 | the nested loops under any sequence of select outcomes; the cancels are fired at most once, and never without a force-cancel |
| `RuntimeManager.Manager.CloseSession` | internal/runtime/manager.go:622-638 | drops the session and fires its cancels only if it has a client |
| `RuntimeManager.Manager.QueueGuidanceInput` | internal/runtime/guidance.go:21-45 | accepts a non-blank input exactly if a round of the session runs, and then returns the sorted running rounds |
| `RuntimeManager.Manager.DrainGuidanceInputs` | internal/runtime/guidance.go:127-138 | hands out exactly the pending inputs and leaves none |
| `RuntimeManager.Manager.PendingGuidanceCount` | internal/runtime/guidance.go:47-56 | counts the pending inputs |
| `SessionIndex.PairsDetermineIndex` | internal/runtime/permission/context.go:303-340 | two mirrored indexes with the same sender-session pairs are equal: the maps hold nothing but the relation |
| `SessionIndex.RemoveBindingMeaning` | internal/runtime/permission/context.go:322-340 | removing a binding takes exactly one pair away and keeps the maps mirrored, without empty inner maps |
| `SessionIndex.AddBindingMeaning` | internal/runtime/permission/context.go:47-75 | adding a binding adds exactly one pair and keeps the maps mirrored |
| `SessionIndex.Context.constructor` | internal/runtime/permission/context.go:36-45 | the index starts empty and mirrored |
| `SessionIndex.Context.RemoveBinding` | internal/runtime/permission/context.go:322-340 | takes exactly one pair away, in place |
| `SessionIndex.Context.PruneClosedBindings` | internal/runtime/permission/context.go:303-320 | the loop that deletes from the listing it walks removes exactly the closed senders of the session |
| `SessionIndex.Context.BindSession` | internal/runtime/permission/context.go:47-75 | adds the pair and prunes, or changes nothing for a closed sender or an empty key |
| `SessionIndex.Context.UnbindSession` | internal/runtime/permission/context.go:77-87 | removes the pair and prunes |
| `SessionIndex.Context.UnregisterSender` | internal/runtime/permission/context.go:89-113 | returns exactly the sorted sessions bound at entry, leaves no trace of the sender, and removes nothing else but closed senders of those sessions |
| `SessionIndex.Context.IsBound` | internal/runtime/permission/context.go:115-125 | is true exactly for an open sender bound to the session |
| `SessionIndex.Context.ResolveSessionSenders` | internal/runtime/permission/context.go:127-147 | returns exactly the sorted open senders of the session |
| `WorkspaceTokens.OutstandingIsStored` | internal/handler/websocket/registry_workspace_subscription.go:56-149 | in every run with calls serialized per sender, whenever no call is in progress the tokens acquired and not released are exactly those stored, each in one entry |
| `WorkspaceTokens.InvariantsAlways` | internal/handler/websocket/registry_workspace_subscription.go:175-257 | in every reachable state, senders that close between any two regions included, every token handed out is with exactly one entry or call or was released, none was released twice, agentSenders mirrors senderTokens, and the poller runs exactly if agentSenders is not empty |
| `WorkspaceTokens.HeldIffWatchedAlways` | internal/handler/websocket/registry_workspace_subscription.go:64-88 | outside an upgrade in flight an entry holds a token exactly if its files are watched and its agent is not one whose live subscription is answered without a token (a blank agent id in the workspace record); an entry in upgrade holds none |
| `WorkspaceTokens.FailedUpgradeRestores` | internal/handler/websocket/registry_workspace_subscription.go:64-88 | a subscription whose live upgrade fails leaves the sender's entries as they were, whatever other senders do in between |
| `WorkspaceTokens.OwnTokens` | internal/handler/websocket/registry_workspace_subscription.go:130-149 | each step of a sender conserves its tokens: held before, plus the one issued, minus the one given back, and never two places |
| `WorkspaceTokens.IndexStep` | internal/handler/websocket/registry_workspace_subscription.go:175-257 | every step keeps agentSenders the mirror of the entries and the poller in step with it |
| `WorkspaceCalls.RefsAreCompleted` | internal/handler/websocket/registry_workspace_subscription.go:56-223 | when no call of a sender is in progress it has an entry for exactly the agents with completed subscriptions not undone by unsubscriptions or its removal, and the reference count of the entry is their number |
| `WorkspaceCalls.WatchesAreCompleted` | internal/handler/websocket/registry_workspace_subscription.go:56-223 | and its watch count is the number of completed watching subscriptions not undone by watching unsubscriptions, the end of the entry or the removal of the sender, read off the progress of the calls |
| `WorkspaceCalls.TokenWhileWatching` | internal/handler/websocket/registry_workspace_subscription.go:56-223 | with a workspace, a sender without a call in progress holds a token for an agent exactly while a watching subscription is outstanding, unless the agent is one that is answered without a token |
| `WorkspaceCalls.NoWorkspaceNoTokens` | internal/handler/websocket/registry_workspace_subscription.go:66-94 | without a workspace no token is ever asked for, held or given back |
| `WorkspaceCalls.UnregisterLeavesNothing` | internal/handler/websocket/registry_workspace_subscription.go:158-173 | when UnregisterSender returns, in every interleaving with other senders, the sender has no entry, no agent lists it, it holds no token, and every token it held at any time before has been released |
| `WorkspaceRegistry.Registry.constructor` | internal/handler/websocket/registry_workspace_subscription.go:43-54 | the registry starts empty, without a poller |
| `WorkspaceRegistry.Registry.SubscribeEnter` | internal/handler/websocket/registry_workspace_subscription.go:56-88 | the first locked region of Subscribe has the outcome of its step; that every watching subscription is counted is `WorkspaceCalls.WatchesAreCompleted` |
| `WorkspaceRegistry.Registry.SubscribeStore` | internal/handler/websocket/registry_workspace_subscription.go:96-119 | the second locked region has the outcome of its step, the sender having closed or not |
| `WorkspaceRegistry.Registry.AttachLiveToken` | internal/handler/websocket/registry_workspace_subscription.go:130-149 | the token goes into the entry only if it is still wanted there, else it is to be released |
| `WorkspaceRegistry.Registry.Unsubscribe` | internal/handler/websocket/registry_workspace_subscription.go:175-223 | has the outcome of the unsubscription step: the token is released with the last watch or the last reference |
| `WorkspaceRegistry.Registry.Remove` | internal/handler/websocket/registry_workspace_subscription.go:225-257 | has the outcome of the removal step for one agent |
| `AssistantContent.SlotsAlwaysSound` | internal/message/segment_assistant.go:322-341 | in every reachable assembly the slots are positions of the content and no two raw indices share one |
| `AssistantContent.ReusedRawIndexKeepsBlocks` | internal/message/segment_assistant.go:59-68 | opening a block of another kind on a reused raw index leaves all earlier blocks as they were and adds the new one at the end |
| `AssistantContent.StartIsPlaced` | internal/message/segment_assistant.go:59-68 | in every reachable assembly a block started on a raw index replaces the block of that index if that is of its kind or of none, and is added at the end otherwise; nothing else changes |
| `AssistantContent.BlocksAreAssembled` | internal/message/segment_assistant.go:59-100 | in a run of starts and deltas every block is its last start followed by the deltas applied there since, in order, and a raw index leads to the position of its last start or delta |
| `AssistantContent.ThinkingDeltaWithoutStart` | internal/message/segment_assistant.go:70-84 | a delta on a raw index never opened adds a text block, empty unless it is a text delta |
| `AssistantContent.PayloadReadsItsPosition` | internal/message/processor.go:173-184 | the block looked up for an applied delta is the one at its position exactly if that position, taken as a raw index, was never opened or is the raw index of the delta |
| `AssistantContent.PayloadOfAnotherBlock` | internal/message/segment_assistant.go:215-224 | two starts on raw indices 1 and 0 and a delta for the first: the position published is 0, the block published the one at 1 |
| `AssistantContent.DisciplinedPayloads` | internal/message/processor.go:173-184 | in streams that open 0, 1, 2, ... in order, each possibly again until the next, with deltas for the newest only and upserts at any time, the published block is the one at the published position |
| `AssistantContent.DisciplinedSlots` | internal/message/segment_assistant.go:322-341 | in such streams exactly the indices up to the newest are opened, and the newest sits at or after its own number |
| `BlockUpserts.UpsertAllHolds` | internal/message/segment_assistant.go:268-308 | after an upsert the first block with each key is the last one that came with it |
| `BlockUpserts.UpsertAgain` | internal/message/segment_assistant.go:134-139 | upserting the same blocks again changes nothing if and only if all of them have keyed types |
| `BlockUpserts.SnapshotAgain` | internal/message/segment_assistant.go:115-126 | a snapshot applied again changes nothing if and only if its blocks have keys and, when it was copied into an empty content, the first and the last block with each key are equal |
| `BlockUpserts.SnapshotNotRepeatable` | internal/message/segment_assistant.go:115-126 | two different thinking blocks in one snapshot: copied into an empty content both stay, and applied again the second replaces the first |
| `BlockUpserts.DistinctKeysRepeatable` | internal/message/segment_assistant.go:115-126 | a snapshot with pairwise distinct keys can be applied again |
| `BlockUpserts.ThinkingMoves` | internal/message/segment_assistant.go:249-266 | only the first thinking block moves, to the front, and the others keep their order |
| `BlockUpserts.ThinkingFirstPermutes` | internal/message/segment_assistant.go:243-266 | no block is lost or added, and moving again changes nothing |
| `BlockUpserts.MoveToFront` | internal/message/segment_assistant.go:261-265 | the in-place shift puts the block in front of those before it |
| `BlockMerges.MergeOfResults` | internal/message/segment_assistant.go:285-289 | in terms of the fields of the blocks: after a merge the content holds, for every tool use id, the last tool result that came with it, or the one that was there; results of other tool uses and blocks of other kinds stay as and where they were |
| `BlockMerges.MergeOfUses` | internal/message/segment_assistant.go:280-284 | likewise for tool uses by their id |
| `BlockMerges.MergeOfProgress` | internal/message/segment_assistant.go:290-294 | likewise for task progress by its task id |
| `BlockMerges.MergeOfTexts` | internal/message/segment_assistant.go:300-304 | likewise for texts by their text |
| `BlockMerges.MergeOfThinking` | internal/message/segment_assistant.go:277-279 | likewise for thinking, of which there is one |
| `BlockMerges.MergeOfArtifacts` | internal/message/segment_assistant.go:295-320 | likewise for artifacts by their id or, without one, by the tool use they come from and their path |
| `BlockMerges.MergeOfNamelessArtifacts` | internal/message/segment_assistant.go:310-320 | artifacts with neither count as one |
| `BlockMerges.MergeOfOthers` | internal/message/segment_assistant.go:305-308 | blocks of any other kind are only ever added |
| `BlockMerges.StreamedBlock` | internal/message/segment_assistant.go:59-100 | a block started on a raw index after anything else and then streamed there stands at its position grown by the deltas of its kind, in order, text by text and thinking and signature each by their own, and every other block is as it was |
| `SegmentObject.AssistantSegment.constructor` | internal/message/segment_assistant.go:12-20 | a segment starts empty |
| `SegmentObject.AssistantSegment.Start` | internal/message/segment_assistant.go:34-44 | starts afresh, with a generated id if none is given |
| `SegmentObject.AssistantSegment.EnsureStarted` | internal/message/segment_assistant.go:46-52 | starts a segment that has no id and leaves one that has |
| `SegmentObject.AssistantSegment.ApplyBlock` | internal/message/segment_assistant.go:59-68 | takes the start step in place: a fresh cell at the logical index, all other cells as they were |
| `SegmentObject.AssistantSegment.ApplyDelta` | internal/message/segment_assistant.go:70-100 | takes the delta step by writing into the cell at its position |
| `SegmentObject.AssistantSegment.ResolveLogicalIndex` | internal/message/segment_assistant.go:322-341 | resolves and records the slot of a raw index |
| `SegmentObject.AssistantSegment.UpsertBlock` | internal/message/segment_assistant.go:268-308 | the search by kind and key replaces the first match, or appends; which fields tell blocks apart is pinned by the theorems of `BlockMerges` |
| `SegmentObject.AssistantSegment.AppendBlocks` | internal/message/segment_assistant.go:128-139 | upserts the blocks one after the other |
| `SegmentObject.AssistantSegment.UpdateMeta` | internal/message/segment_assistant.go:102-113 | only non-empty metadata replaces what is there |
| `SegmentObject.AssistantSegment.ReplaceFromSnapshot` | internal/message/segment_assistant.go:115-126 | copies a snapshot into an empty content, else upserts it |
| `SegmentObject.AssistantSegment.HasToolUse` | internal/message/segment_assistant.go:177-192 | is true exactly if a tool use with the id is in the content |
| `SegmentObject.AssistantSegment.CurrentBlock` | internal/message/segment_assistant.go:215-224 | reads its argument as a raw index first, then as a position |
| `SegmentObject.AssistantSegment.NormalizedContent` | internal/message/segment_assistant.go:243-266 | fresh cells with the thinking block first |
| `ProcessorRun.RegisteredMeaning` | internal/message/processor.go:524-549 | a conflict exactly if there is an id and some non-empty candidate differs; a registration exactly if there is none and some candidate is not empty |
| `ProcessorRun.SessionIdStays` | internal/message/processor.go:524-549 | once there is a session id it stays for the rest of every run; a message fails exactly if it names another, and then publishes and changes nothing |
| `ProcessorRun.NoDurableRepeats` | internal/message/processor.go:630-662 | between two starts of the segment no durable assistant message equals the one emitted before it |
| `ProcessorRun.LastEmittedIsCurrent` | internal/message/processor.go:630-648 | suppression loses nothing: whenever a durable message is asked for, the last one emitted says the same as the one built from the segment |
| `ProcessorRun.SnapshotsInStream` | internal/message/processor.go:239-266 | from a message start until its first message delta, whatever else arrives, durable snapshots are emitted as incomplete |
| `ProcessorRun.SegmentIsRun` | internal/message/processor.go:117-352 | the segment is always the assembly of the starts, deltas, snapshots and merges since it was last started |
| `ProcessorRun.EventsCarryTheirBlock` | internal/message/processor.go:163-184 | in a disciplined stream every block event carries the block at the position it names |
| `ProcessorRun.EmittedShowsSegment` | internal/message/processor.go:630-648 | a durable assistant message shows exactly the content of the segment, thinking first |
| `ProcessorReports.SegmentIsOfEpisode` | internal/message/processor.go:117-266 | in every reachable state the id, the time and the metadata of the segment are those given by the messages since it was last started, and it counts as streamed exactly if a message start began it |
| `ProcessorReports.EndIsObserved` | internal/message/processor.go:207-208 | the end of a stream is observed exactly if some message delta since the start left content and a stop reason |
| `ProcessorReports.EmittedIsOfSegment` | internal/message/processor.go:630-662 | field by field: a message makes the processor emit one durable assistant message exactly if one is asked for and the last one does not say the same up to usage and time; it shows the stop reason, and is complete, exactly as the kind of the message and the observed end allow |
| `ProcessorReports.ReportedFlags` | internal/message/processor.go:74-115 | whether a stream started and an assistant message was completed, as reported |
| `ProcessorReports.TakesFirstId` | internal/message/processor.go:524-549 | without a session id the first non-empty candidate is taken and reported, and with one none is |
| `ProcessorReports.ResultEndsRound` | internal/message/processor.go:603-628 | the status, the subtype and the durable message of a result, for every subtype and error flag |
| `ProcessorReports.OnlyResultsEnd` | internal/message/processor.go:74-115 | no other message ends the round |
| `ProcessorReports.MergedResults` | internal/message/processor.go:324-360 | a user message merges nothing unless all its blocks are tool results, and then, in order, the failed ones and those whose tool use is in the content, these with their artifacts |
| `ProcessorReports.EventsAre` | internal/message/processor.go:117-237 | after any run, which stream events a message publishes: the marks of a message under the id of its segment, a started block and a delta that is taken with the position the raw index leads to, unless the block is a tool use, and none for other messages |
| `MessageProcessor.Processor.constructor` | internal/message/processor.go:56-62 | a processor starts with an empty segment and the given session id |
| `MessageProcessor.Processor.RegisterSessionId` | internal/message/processor.go:524-549 | the loop over the candidates registers the first non-empty one or reports a conflict |
| `MessageProcessor.Processor.Answer` | internal/message/processor.go:630-648 | emits the durable message in fresh cells, unless it equals the last one |
| `MessageProcessor.Processor.TakeBlockDelta` | internal/message/processor.go:173-184 | writes only to cells of the segment and publishes what the step publishes |
| `MessageProcessor.Processor.TakeMessageDelta` | internal/message/processor.go:185-214 | updates the metadata and asks for a complete message once there is content and a stop reason |
| `MessageProcessor.Processor.TakeSnapshot` | internal/message/processor.go:239-266 | starts the segment if need be, takes the snapshot in, and asks for a message with or without its stop reason |
| `MessageProcessor.Processor.TakeTaskProgress` | internal/message/processor.go:388-401 | upserts the progress block unless it has no task id |
| `MessageProcessor.Processor.KeepToolResults` | internal/message/processor.go:337-360 | keeps exactly the failed results and those whose tool use is known, artifacts following successful ones |
| `MessageProcessor.Processor.TakeToolResults` | internal/message/processor.go:324-351 | merges the kept results of a message made of tool results only |
| `MessageProcessor.Processor.Process` | internal/message/processor.go:74-115 | takes the step of the run and returns its output; blocks of messages emitted before are never written again |
| `RoundExecutor.CallsInOrder` | internal/runtime/executor_round.go:201-237 | the callback calls of a round are, in order, those of the messages it took, complete unless a call failed, and then ending with that call |
| `RoundExecutor.StopsAtFirstTerminal` | internal/runtime/executor_round.go:239-241 | no message before the one that ended the round was terminal, and a terminal message ends it with its status unless one of its calls fails |
| `RoundExecutor.FinishedWithoutTerminal` | internal/runtime/executor_round.go:172-193 | a round finishes without a terminal message exactly if the grace time runs out or the stream ends uninterrupted after some complete assistant message with a terminal stop reason |
| `RoundExecutor.CompletedByAssistant` | internal/runtime/executor_round.go:252-293 | completed by the assistant means success and exactly that a finished turn was shown by then or the terminal message holds a good result |
| `RoundExecutor.RunningIsOnCourse` | internal/runtime/executor_round.go:172-249 | while a round runs, all calls of all messages so far were made in order, none was terminal, and a result is kept exactly if some message ended the turn |
| `RoundExecutor.EndsSomewhere` | internal/runtime/executor_round.go:172-249 | a round that is over ended with one of its inputs, and the inputs after it change nothing |
| `RoundExecutor.HandleMessage` | internal/runtime/executor_round.go:211-237 | the loops over durables and events make the calls up to and with the first that fails |
| `RoundExecutor.FinalResult` | internal/runtime/executor_round.go:252-275 | the classification of a terminal message |
| `RoundExecutor.ExecuteRound` | internal/runtime/executor_round.go:136-250 | the loop has the effects and the outcome of the run of its inputs |
| `RoundEffects.MessageCalls` | internal/runtime/executor_round.go:201-237 | the calls of one message of a running round, from its fields: the session id is synced first, then every durable message is persisted in order, one without a session id under that one, then every event is emitted in order, each if its callback is set; up to the first call that fails, which fails the round |
| `RoundEffects.OnlyMessagesCall` | internal/runtime/executor_round.go:165-200 | nothing else makes calls |
| `RoundEffects.EndsWithout` | internal/runtime/executor_round.go:165-193 | how a running round takes a cancel, a timer, the end of the stream or a message that cannot be mapped, from the fields of the messages before |
| `RoundEffects.EndsWithMessage` | internal/runtime/executor_round.go:239-293 | how it takes a mapped message: on unless it is terminal, else finished with its status and subtype, completed by the assistant exactly if it is a success and some complete assistant message with stop reason end_turn, stop_sequence or max_tokens was seen or this message holds a result without an error |
| `LineWindow.WeightIsJoinedLength` | internal/chat/room/visible_context.go:253-273 | what the loops add up is the length of the non-empty lines joined by newlines |
| `LineWindow.LongestFitMeaning` | internal/chat/room/visible_context.go:255-274 | the chosen start is that of the longest suffix that fits |
| `LineWindow.TrimmedItemsFit` | internal/chat/room/visible_context.go:249-275 | the message trimmer keeps the longest suffix that fits, or exactly the last message when its line alone does not fit |
| `LineWindow.WindowIs` | internal/chat/room/visible_context.go:117-132 | a batch starts where as many of the newest 80 items as weigh at most 12000 bytes begin, or at the newest when it weighs more |
| `LineWindow.TrimItems` | internal/chat/room/visible_context.go:249-275 | the backward loop computes that suffix |
| `LineWindow.CollectLines` | internal/chat/room/visible_context.go:310-329 | the backward loop collects the newest lines that fit, or the newest one cut |
| `LineWindow.ReverseLines` | internal/chat/room/visible_context.go:330-332 | the swaps turn the collected lines around |
| `LineWindow.BuildHistoryLines` | internal/chat/room/visible_context.go:292-334 | the three loops together give the newest lines that fit, in order |
| `VisibleContext.FeedWithinBudget` | internal/chat/room/visible_context.go:292-334 | the rendered feed never exceeds 12000 bytes, for any messages, names and trigger |
| `VisibleContext.FeedIsValid` | internal/chat/room/visible_context.go:292-334 | if the texts, summaries, agent ids and names are valid UTF-8 so is the whole rendered feed: a line that is cut, with the mark appended, is cut between two runes |
| `VisibleContext.FeedIsLongestSuffix` | internal/chat/room/visible_context.go:292-334 | the feed is the longest suffix of the last 80 messages' lines that fits, or the newest line cut when it alone does not fit |
| `VisibleContext.LineOf` | internal/chat/room/visible_context.go:459-506 | from the fields of a message: it has a line exactly if it is a user message with a non-blank text, or an assistant message not marked incomplete with a summary and a non-blank text or summary, or marked complete with a non-blank text; the line is headed by the name, else the id, and ends with the text, else the summary |
| `VisibleContext.TriggerIsLeftOut` | internal/chat/room/visible_context.go:211-224 | the feed leaves out exactly the messages with the id of the trigger, if there is one |
| `VisibleContext.CursorCuts` | internal/chat/room/visible_context.go:226-247 | the messages after a cursor start behind the first message with its id, else at the first one later than its time, else at the beginning |
| `VisibleContext.CandidatesAre` | internal/chat/room/visible_context.go:117-132 | of these, as many of the newest 80 as weigh at most 12000 bytes are kept, or the newest alone |
| `VisibleContext.CursorMoves` | internal/service/room/public_context.go:65-68 | recording a batch moves the cursor to the newest message exactly if there are messages after it and the newest has an id or a time |
| `VisibleContext.BatchIsRenderedWhole` | internal/chat/room/visible_context.go:117-139 | if the candidates kept fit the budget, every visible message but the trigger is rendered whole and in order, whatever the trigger and the target |
| `VisibleContext.LoneMessageIsCut` | internal/chat/room/visible_context.go:249-275 | if they do not fit, only the newest message was kept, and it is rendered cut short unless it is not shown at all |
| `VisibleContext.BatchBoundary` | internal/chat/room/visible_context.go:133-138 | the boundary of a batch is the newest message of the history whenever there are candidates |
| `VisibleContext.SeesAllButItsOwn` | internal/chat/room/visible_context.go:277-290 | a kept message is in the batch exactly if, by its fields, it is a user message with a non-blank text or a public answer of another agent |
| `VisibleContext.NewsOfOthersArrives` | internal/chat/room/visible_context.go:117-139 | over append-only deliveries: when at most 80 messages weighing at most 12000 bytes were appended since the last delivery, the batch holds exactly those of them that are, by their fields, user messages with a non-blank text or public answers of others |
| `VisibleContext.CandidatesAreTheNew` | internal/chat/room/visible_context.go:226-247 | on an append-only history with distinct non-empty ids the candidates of a delivery are exactly the messages appended since the one before |
| `VisibleContext.BatchesAreApart` | internal/chat/room/visible_context.go:117-139 | no message is in the batches of two deliveries |
| `VisibleContext.MessagesAfterCursor` | internal/chat/room/visible_context.go:226-247 | the search by id, then by time, gives the messages after the cursor |
| `VisibleContext.BuildPublicInputBatch` | internal/chat/room/visible_context.go:117-139 | the selection with its two limits, the filter and the boundary; what the lines and the filter select is `VisibleContext.LineOf` and `VisibleContext.SeesAllButItsOwn` |
| `VisibleContext.MovesToEnd` | internal/service/room/public_context.go:65-68 | recording the boundary of a batch moves the cursor to the newest message |
| `Utf8.TruncatedFits` | internal/chat/room/visible_context.go:547-560 | a truncated text stays within a positive bound, and a text within the bound, or without one, is only trimmed |
| `Utf8.TruncatedValid` | internal/chat/room/visible_context.go:547-581 | truncating valid UTF-8 with a valid suffix gives valid UTF-8: it ends at a rune boundary; `VisibleContext.FeedIsValid` applies it to the mark of the source |
| `Utf8.TruncatedKeepsLongestPrefix` | internal/chat/room/visible_context.go:547-560 | what is kept is the longest prefix of whole runes that leaves room for the suffix, without the space at its end |
| `Utf8.TruncatedWithoutSuffix` | internal/chat/room/visible_context.go:547-560 | where there is no room for the suffix, or none beside it for a rune, what is kept is the longest prefix of whole runes that fits, without the suffix |
| `Utf8.FitIsLongest` | internal/chat/room/visible_context.go:562-581 | on valid text no longer prefix of whole runes fits |
| `Utf8.CutOfValid` | internal/chat/room/visible_context.go:569-580 | on valid text the loop over runes cuts exactly there |
| `Utf8.TrimStringByBytes` | internal/chat/room/visible_context.go:562-581 | the loop over runes, on any bytes |
| `Utf8.TrimIsMiddle` | internal/chat/room/visible_context.go:547-560 | trimming cuts exactly the white space at both ends |
| `Utf8.CutOfRuneless` | internal/chat/room/visible_context.go:569-580 | on bytes none of which starts a rune each counts as three: the cut is at the bound, or at nothing below three bytes |
| `Utf8Encoding.ValidMeansEncoded` | internal/chat/room/visible_context.go:562-581 | the valid texts of the other theorems are exactly the UTF-8 encodings of sequences of Unicode scalar values |
| `SessionKey.AgentKeyRoundTrip` | internal/protocol/model_session_key.go:151-224 | parsing a built agent key gives exactly the normalized components if and only if no segment of the ref is topic, and it is then structured if and only if there are an agent and a channel |
| `SessionKey.PrintedIsInjective` | internal/protocol/model_session_key.go:212-224 | different components give different keys |
| `SessionKey.RebuiltFromParse` | internal/protocol/model_session_key.go:151-224 | building a key again from what it parses to gives the key itself |
| `SessionKey.PrintedParses` | internal/protocol/model_session_key.go:84-135 | the reserved topic segment cuts a key exactly after a ref without it, and validation agrees |
| `SessionKey.ChannelSegmentIsFixed` | internal/protocol/model_session_key.go:256-276 | normalizing a channel twice is normalizing it once |
| `SessionKey.ResolvesToMainExactly` | internal/automation/session.go:15-36 | a job resolves to the main key of an agent if and only if its target is the main session of that agent or is bound to that very key; a validated named target and an isolated run never do |
| `SessionKey.NamedParsesAsMain` | internal/protocol/model_session_key.go:175-181 | exactly which validated names: the key of a named target parses to the ref and thread of the main session if and only if a topic segment cuts the name into main and nothing, up to white space |
| `SessionKey.StructuredNamedIsNotMain` | internal/protocol/model_automation.go:219-225 | nor is its key parsed as the main session if it is structured |
| `SessionKey.NamedMainTopic` | internal/protocol/model_session_key.go:175-181 | the name main:topic is valid, and its unstructured key parses to the ref and thread of the main session |
| `SessionKey.RoomKeyRoundTrip` | internal/protocol/model_session_key.go:189-229 | parsing a room key gives the conversation id back, and building from it the same key; it is structured and shared exactly if there is a conversation id |
| `KeyGrammar.ValidKeysAre` | internal/protocol/model_session_key.go:84-135 | for every text: it is a valid key exactly if, trimmed, it is agent, channel, chat type, ref and maybe topic and thread joined by colons, none of them blank, the first three without colons and the ref without a topic segment, or room:group: and a non-blank conversation; otherwise the error is the one its prefix calls for |
| `KeyGrammar.WrittenKeyParses` | internal/protocol/model_session_key.go:151-187 | parsing such an agent key gives exactly its segments, trimmed |
| `KeyGrammar.RoomTextParses` | internal/protocol/model_session_key.go:189-206 | parsing a room key gives its conversation, trimmed; it is structured and shared exactly if that is not blank |
| `KeyGrammar.ParsedKinds` | internal/protocol/model_session_key.go:151-209 | for every text: the kind goes by the prefix, a key is structured exactly if it is valid and shared exactly if it is also one of a room, and an agent key without a chat type is direct |
| `KeyGrammar.ReprintedKey` | internal/protocol/model_session_key.go:84-187 | printing what a valid agent key parses to and parsing that gives the same fields exactly if the trimmed ref has no topic segment |
| `KeyGrammar.PaddedTopic` | internal/protocol/model_session_key.go:84-187 | a valid key of any agent for which it does not, and whose reprint is not valid |
| `KeyGrammar.ChannelNames` | internal/protocol/model_session_key.go:256-298 | each channel has a segment and a stored name; written as either, in any case, it is normalized to the one and stored under the other, and any other name is only trimmed |
| `KeyGrammar.StoredAndSegment` | internal/protocol/model_session_key.go:256-298 | the segment of the stored name is the segment, and the stored name of the segment the stored name |
| `KeyGrammar.ChatTypes` | internal/protocol/model_session_key.go:300-310 | no chat type, or dm in any case, is dm; group in any case is group; any other is only trimmed |
| `KeyGrammar.ResolvedReads` | internal/automation/session.go:15-36 | what each kind of target resolves to: a structured key of the session main, the bound key, the key of the named session, or for a run, which must be there, that of the session cron, job and run; the last two read back as such exactly if there is no topic segment in them |
| `KeyGrammar.NamesAllowed` | internal/protocol/model_automation.go:219-225 | a name is accepted for a named target exactly if it is neither blank nor, in small or capital letters, main |
| `Segments.SplitJoin` | internal/protocol/model_session_key.go:162-206 | splitting what was joined gives the segments back |
| `Heartbeat.ParseHeartbeatTasks` | internal/automation/heartbeat_prompt.go:13-129 | the loop that reads some lines twice terminates (lines left, then block pending) and computes the fold that takes every line once |
| `Heartbeat.LayoutParses` | internal/automation/heartbeat_prompt.go:13-129 | a file that holds the canonical layout of any entries, between lines without a header and the end of the section, parses to exactly their tasks, whether the dash stands before the name or on its own line, with values as they are or in quotes and with inline or block prompts; an entry that says nothing has no task |
| `Heartbeat.EntryFold` | internal/automation/heartbeat_prompt.go:85-122 | one laid-out entry adds exactly its task, whatever came before it |
| `Heartbeat.BlockFold` | internal/automation/heartbeat_prompt.go:59-83 | the lines of a block are collected without their indentation |
| `BlockWalk.WalkIsReachability` | internal/connectors/feishudocx/client.go:635-655 | on any graph the walk visits exactly the existing blocks reachable from the ids, each once |
| `BlockWalk.WalkIsPreorder` | internal/connectors/feishudocx/client.go:635-655 | it begins with the first id and visits each block that was not asked for after one it is a child of |
| `BlockWalk.IndexIsLast` | internal/connectors/feishudocx/client.go:628-634 | under each non-empty id stands the last block with it |
| `BlockWalk.Walker.Walk` | internal/connectors/feishudocx/client.go:638-651 | the recursive closure appends what the walk visits and marks it seen, and terminates on cycles |
| `BlockWalk.FilterDescendants` | internal/connectors/feishudocx/client.go:628-656 | the result is, in visiting order, each existing block reachable from the given ids exactly once and no other |
| `BlockWalk.ChunkStrings` | internal/connectors/feishudocx/client.go:658-671 | the chunks are those of the recursive definition: they concatenate to the original ids, all full but the last, and there are none for a size that is not positive |
| `BlockWalk.ChunksReachTheSame` | internal/connectors/feishudocx/client.go:276-280 | the walks from the chunks together reach exactly what one walk from all ids reaches |
| `BlockWalk.CreatedCount` | internal/connectors/feishudocx/client.go:276-316 | chunk by chunk at least as many blocks are requested as are reachable, and exactly as many if and only if no block is reachable from two chunks |
| `BlockWalk.RequestsAre` | internal/connectors/feishudocx/client.go:276-296 | there is one request for each chunk with the id of some block, in order, with exactly the blocks reachable from its ids |
| `BlockWalk.RequestedOncePerChunk` | internal/connectors/feishudocx/client.go:276-289 | a block is requested exactly once for each chunk from which it is reachable |
| `BlockWalk.SharedBlockIsRequestedTwice` | internal/connectors/feishudocx/client.go:276-289 | 51 ids, the first and the last of which lead to one block: it is requested twice |
| `BlockWalk.AllAccepted` | internal/connectors/feishudocx/client.go:296-317 | if every request is accepted, the blocks counted are those of the walks of all chunks |
| `BlockWalk.CountIsAnswered` | internal/connectors/feishudocx/client.go:296-317 | what is counted is the blocks of exactly the requests answered with data |
| `BlockWalk.AppendConvertedBlocks` | internal/connectors/feishudocx/client.go:272-318 | for any answers: the requests for the non-empty walks are sent in order up to the first refused one, which loses the result; without a refusal all are sent and the blocks of those answered with data are counted |
| `SortedKeys.SortKeys` | internal/runtime/permission/context.go:103-110 | the keys of a set in strictly ascending order |
| `SortedKeys.SortedListIsUnique` | internal/runtime/manager.go:462-466 | there is only one such listing, so iteration order does not show |

## Left out

* Overflow of the 64-bit sequence counter, timestamps and lengths: integers are unbounded.
* Sends after the lock is given up: a send that fails or overtakes another is not ordered against the
  locked regions, so the theorems on the room stream are about which events are addressed to whom, in
  which order they are decided, and not about arrival.
* `senderRooms` as a mirror of `roomSubs`: pruning closed senders touches only one side, so only one
  direction is an invariant.
* Two senders with one key, and nil senders. A subscription asks whether its sender is closed before
  it takes the lock: the steps of the models are the locked regions, which a sender that closes in
  between still enters.
* The SDK client: it answers or fails as a parameter says. Its adapter, its message pump and the
  replacement of disconnected clients are not modelled, nor is what a second client of a session does.
* Clocks and timers: a timer fires as a step of its own, a clock reading is a parameter, and a done
  channel is the number it was made under, with the list of closed numbers.
* Concurrent subscriptions of one sender in the workspace registry: each connection handles its
  messages one at a time. The poller is only on or off.
* The status broadcast and the snapshot sends of the permission context and of the workspace
  registry, permission requests, and the text built from drained guidance.
* The decoding of SDK payloads into blocks, messages and trimmed strings, artifact detection and
  permission error codes: a tool result comes with the artifacts its tool contributes. Visible system
  messages, other than task progress, do not touch the segment and are not modelled, nor is the
  rewriting of a result after the user stopped a round.
* Copies of blocks are one level deep in the source, so nested values stay shared; in the model a
  block is a value in one cell.
* White space is ASCII white space, and lower-casing covers the characters that can become ASCII
  letters; of the truncation of bytes that are not valid UTF-8 only its bound, and the cut where no rune
  starts at all, are proved.
* The text of a content (its blocks joined), prompt texts, member directories, triggers and directed
  messages around the public feed, and the storage of cursors.
* Sessions of rooms on the agent side (BuildRoomAgentSessionKey).
* HeartbeatTask layouts other than the canonical one: they are parsed as the source does, but no
  round trip is stated for other indentations, tabs or nested sections.
* What a document request answers, other than whether it was refused and whether data came with it,
  and the mapping of blocks to and from SDK objects, which can fail.
* Attachment references are rendered into the selected messages before the feed is built
  (internal/service/room/public_context.go:61). A rendered message can then be longer than the one
  selected, so that `VisibleContext.BatchIsRenderedWhole` is about the selection and the renderer with
  the same messages; the bound of `VisibleContext.FeedWithinBudget` holds for any messages.

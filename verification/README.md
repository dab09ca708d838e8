# ACP gateway and harness: a verified model

This project models three stateful parts of the repository and proves what they keep, over every
interleaving of their steps and on every input.

**The gateway's session pool.** `AgentPool` keeps six linked structures: backend slots with load
counters, active sessions, the backend-to-external table, evicted sessions, in-flight flags and
prompt senders. `PoolModel` states what each operation makes of them as a value; the class
`AgentPool` updates them in place and is proved equal to it. `GatewaySystem` adds the requests that
wait at an `await`: one event is one stretch of code between two awaits, so a run is any interleaving
of requests, replies, evictions, purges, backend deaths and respawns. The methods of the class
`GatewayAgent` perform every one of these events and keep every slot index in range. What each event
makes of one session, one slot and one waiting request is said exactly in `SessionEntries`,
`BackendSlots` and `RequestOrigins`, and over runs in `SessionActivity` and `CallbackRouting`. Session ids and
backend ids are fresh, a dead backend's tasks may report its death late, and everything a backend or a
policy decides is a parameter of the event.

**The harness's prompt turns.** `Conversation` and `AgentLoop` model the agent loop with an arbitrary
model and arbitrary tools; `HarnessModel` and `SessionManager` model the store, the runtime cache and
the running turns. `PromptTurns` runs overlapping turns, forks, closes and setting changes, with
`begin_prompt` and `set_mode` both split at the await of their runtime builds; about its runs
`RuntimeCoherence` says when runtimes and stored modes agree, `TurnFlags` which sessions stay blocked,
and `SessionSettings` which settings are taken back. `ModeChanges` adds the agent's locks, notifications
and rollbacks, and every run of it is a run of `PromptTurns`; the class `HarnessAgent` performs its
events. `Answers` tells a run of the loop by the model's replies alone, and `DanglingCalls` says what an
unoffered tool call does to later requests.

**The bounded byte, queue and rate machinery.** `OutboundBuffer` is the drop-oldest queue with its
single lease; `MessageFraming`, `LineReader` and `SentinelFraming` are the three ways bytes are cut
into messages; `Utf8` (section 3 of RFC 3629) and `Truncation` cut text at character boundaries;
`TokenBucket` limits the rate; `ToolIpc` composes the sandbox runner with the harness loop serving it,
`ToolReplies` says what each call gets back, and `OutputDelivery` follows the captured output through
its JSON escapes to that loop.

Where the code does not meet a property everywhere, the model keeps the code as it is and the lemma
says exactly when it holds. These are the findings:

- Dedicated mode gives each session a backend of its own exactly as long as no reply registers a session
  on a slot that is empty or used (`DedicatedMode.OneEachUnlessCrowded`, `DedicatedMode.RunOneEachUnlessCrowded`).
  Three runs do: two requests at once, whose slot counts zero until one registers
  (`DedicatedDiscipline.ConcurrentRequestsShareASlot`), a fork (`DedicatedDiscipline.ForkSharesASlot`), and a
  backend that answers and dies before its answer is taken (`DedicatedDiscipline.CrashLeavesNoBackend`).
- An active session can be reached exactly until an answer is taken after its slot died, in either mode, or
  an eviction of idle sessions frees a Dedicated slot under a session in use that shares it
  (`SessionResolution.ResolvesUnlessStranded`, `SessionResolution.LateAnswerStrands`,
  `SessionResolution.EvictionStrands`). Such a session is refused everything, even a close, until it is idle
  long enough, its slot's death is reported late, a backend is spawned there, or an earlier close is answered
  (`SessionResolution.StrandedUntilReleased`, `SessionResolution.StrandedIsRefused`).
- A backend spawned into a slot that sessions still refer to resets its counter; that is the one way
  counters stop being exact (`SlotAccounting.ExactUnlessClobbered`). A respawn whose initialization fails
  is tried again over the slot it has just filled, which does it (`SlotAccounting.RespawnOverSession`).
- A crash under a live prompt clears its flag, and after a respawn a second prompt may start while the
  first is still alive (`PromptGuards.CrashAllowsSecondGuard`).
- A reload that finds no slot, or whose backend refuses, loses the session for good
  (`SessionConservation.LostExactlyWhen` lists every way a session is lost).
- `set_mode` saves what it loaded before its runtime build, so a turn committed in between is lost
  (`PromptTurns.FaithfulUnlessStale`, `PromptTurns.ModeChangeLosesTurn`), and a directory stored in between
  is taken back (`SessionSettings.AskedUnlessTakenBack`, `SessionSettings.ModeChangeTakesBackCwd`).
- Runtimes and stored modes agree exactly until a build inserts a runtime that its session does not want
  (`RuntimeCoherence.CoherentUnlessMisfit`, `RuntimeCoherence.RunCoherentUnlessMisfit`). Three runs get there: a
  close during the build of a mode change (`RuntimeCoherence.CloseOrphansRuntime`) or of a prompt
  (`RuntimeCoherence.CloseDuringBuild`), which leave a runtime without a session, and a mode change that passed
  its test before a prompt began and saves while that one builds (`RuntimeCoherence.ModeChangeDuringBuild`).
- A turn dropped before it has finished blocks its session for ever, since no guard clears the flag
  (`TurnFlags.ActiveHeldUnlessDropped`, `TurnFlags.BlockedForEver`). A failed tool call drops one when the
  JSON text of its parameters has more than 200 bytes and byte 200 falls inside a character: the log
  preview slices there and panics (harness/src/agent_loop.rs:250, `ParamsPreview.PreviewPanicsInside`).
- A model that calls tools it was not offered leaves a dangling call in the history; every request of the
  next turn with tools is well formed exactly when it did not (`DanglingCalls.NextTurnUnlessDangling`).
- A failed notification of a mode change restores the old mode exactly when the session stays stored, no
  turn had begun on it when the notification failed, and the old runtime can be built
  (`ModeChanges.FailedNotificationRollsBack`); a prompt that begins before keeps the new mode
  (`ModeChanges.PromptDefeatsRollback`), and a turn that commits while the rollback builds is lost
  (`ModeChanges.RollbackLosesTurn`).
- Least-connections requests in flight together register on one slot, so their number bounds how far
  loads spread, and a burst reaches the bound (`ConcurrentSpread.SpreadUnderOverlap`,
  `ConcurrentSpread.BurstOnOneSlot`).
- A stream may end and leave messages queued, when one was pushed between its two looks at the queue
  (`OutboundBuffer.EndsDrainedUnlessRaced`, `OutboundBuffer.RaceLeavesMessage`). That takes a runtime with
  several threads: no await lies between the looks, and both programs run on one thread, where a stream
  always ends drained (`OutboundBuffer.TogetherEndsDrained`).
- Callers of the rate limiter that wait take no token, so any number of calls at one instant go ahead
  after one and the same wait (`TokenBucket.BurstSharesOneWait`).
- A captured output holds question marks in place of lone surrogates only in the write that overflows
  (`Truncation.CaptureIsVerbatim`). It is delivered exactly when its escapes fit the final line and its
  surrogates are paired (`OutputDelivery.CapturedOutputArrives`): 131072 newlines are captured whole and
  double their size (`OutputDelivery.NewlinesDoNotFit`), and a lone surrogate makes the line unreadable
  (`OutputDelivery.LoneSurrogateIsRefused`); either way a finished execution ends in an error.

## Model

| member | source | states |
|---|---|---|
| `AgentPool.AgentPool.SelectSlot` | gateway/acp-gateway/src/pool.rs:105-138 | the first of the least loaded alive slots; in Dedicated mode an idle alive slot before an empty one, else nothing |
| `AgentPool.AgentPool.InsertSlot` | gateway/acp-gateway/src/pool.rs:94-100 | the slot is filled, and the table grows with empty slots to reach it |
| `AgentPool.AgentPool.RegisterSession` | gateway/acp-gateway/src/pool.rs:177-201 | the session enters both tables and its slot counts one more |
| `AgentPool.AgentPool.RecordSender` | gateway/acp-gateway/src/pool.rs:210-217 | the sender of an active session, else of an evicted one, and nothing else |
| `AgentPool.AgentPool.RemoveSession` | gateway/acp-gateway/src/pool.rs:262-294 | a close clears every table of the session, and frees a Dedicated slot whose counter reaches zero |
| `AgentPool.AgentPool.TouchSession` | gateway/acp-gateway/src/pool.rs:297-302 | the last activity of an active session is this moment, and nothing else changes |
| `AgentPool.AgentPool.BeginPrompt` | gateway/acp-gateway/src/pool.rs:336-354 | refused without change when the flag is set; otherwise flag, prompt sender and last sender are set |
| `AgentPool.AgentPool.EndPrompt` | gateway/acp-gateway/src/pool.rs:357-361 | flag and prompt sender are cleared |
| `AgentPool.AgentPool.TakeEvicted` | gateway/acp-gateway/src/pool.rs:439-441 | the evicted entry leaves the table with its taker |
| `AgentPool.AgentPool.ParkIdle` | gateway/acp-gateway/src/pool.rs:375-418 | the eviction loop parks each idle session once, in whatever order the table yields them, and lowers counters or collects slots |
| `AgentPool.AgentPool.EvictIdleSessions` | gateway/acp-gateway/src/pool.rs:369-436 | exactly the sessions whose last use is as long ago as the timeout are parked and listed, whatever the order; each slot loses exactly those it carried |
| `AgentPool.AgentPool.OldestFirst` | gateway/acp-gateway/src/pool.rs:455-458 | a permutation of the evicted ids, sorted by eviction time |
| `AgentPool.AgentPool.PurgeStaleEvicted` | gateway/acp-gateway/src/pool.rs:450-464 | min(size, limit) entries stay, none older than one removed |
| `AgentPool.AgentPool.ParkSlot` | gateway/acp-gateway/src/pool.rs:503-534 | every session of the slot, and no other, is parked and loses its flag |
| `AgentPool.AgentPool.HandleBackendDeath` | gateway/acp-gateway/src/pool.rs:488-541 | the slot is freed or marked dead with counter zero, and its sessions are parked |
| `AgentPool.AgentPool.AliveSlots` | gateway/acp-gateway/src/pool.rs:471-481 | the indices of exactly the alive slots, ascending |
| `AgentPool.ParkEachIsPark` | gateway/acp-gateway/src/pool.rs:393-407 | parking sessions one by one, in any order, is parking them all at once |
| `AgentPool.LeavingSlots` | gateway/acp-gateway/src/pool.rs:409-428 | lowering or freeing slots one session at a time comes to one subtraction per slot |
| `AgentPool.OldestDropped` | gateway/acp-gateway/src/pool.rs:452-462 | dropping the first of a sorted order leaves entries none of which is older than one dropped |
| `GatewayAgent.GatewayAgent.AssignSlot` | gateway/acp-gateway/src/gateway.rs:110-118 | a slot is selected, and spawned into when it is empty in Dedicated mode; the two errors are told apart |
| `GatewayAgent.GatewayAgent.Initialize` | gateway/acp-gateway/src/gateway.rs:47-69 | the request is stored, and the first Dedicated backend is spawned exactly when none is alive |
| `GatewayAgent.GatewayAgent.NewSession` | gateway/acp-gateway/src/gateway.rs:104-121 | new_session up to its await is one step of the system |
| `GatewayAgent.GatewayAgent.InitReply` | gateway/acp-gateway/src/pool.rs:637-661 | after the replayed initialize the request goes on only if its slot is still alive |
| `GatewayAgent.GatewayAgent.CreateReply` | gateway/acp-gateway/src/gateway.rs:121-133 | the reply to new_session registers the session on the slot chosen before the await |
| `GatewayAgent.GatewayAgent.ReloadEvicted` | gateway/acp-gateway/src/gateway.rs:147-156 | the evicted entry is taken before a slot is sought, and is gone when none is found |
| `GatewayAgent.GatewayAgent.LoadSession` | gateway/acp-gateway/src/gateway.rs:136-180 | load_session and resume_session up to their await |
| `GatewayAgent.GatewayAgent.Prompt` | gateway/acp-gateway/src/gateway.rs:182-242 | authorization, guard, resolution or reload, touch, up to the await |
| `GatewayAgent.GatewayAgent.ReloadReply` | gateway/acp-gateway/src/gateway.rs:221-239 | a reloaded session is registered under its old ids; a prompt goes on with its guard |
| `GatewayAgent.GatewayAgent.ForkSession` | gateway/acp-gateway/src/gateway.rs:316-328 | a fork goes to the slot of its source |
| `GatewayAgent.GatewayAgent.ForkReply` | gateway/acp-gateway/src/gateway.rs:328-342 | the forked session is registered on that slot under new ids |
| `GatewayAgent.GatewayAgent.CloseSession` | gateway/acp-gateway/src/gateway.rs:390-399 | close_session up to its await: an unknown session is refused |
| `GatewayAgent.GatewayAgent.CloseReply` | gateway/acp-gateway/src/gateway.rs:390-402 | an answered close removes the session |
| `GatewayAgent.GatewayAgent.EndRequest` | gateway/acp-gateway/src/gateway.rs:16-25 | a request that ends drops its prompt guard |
| `GatewayAgent.GatewayAgent.RecordSender` | gateway/acp-gateway/src/pool.rs:210-217 | a request that only records its sender is one step of the system |
| `GatewayAgent.GatewayAgent.EvictIdle` | gateway/acp-gateway/src/pool.rs:369-436 | an eviction is one step, lists exactly the idle sessions, and never indexes outside the table |
| `GatewayAgent.GatewayAgent.Purge` | gateway/acp-gateway/src/pool.rs:450-464 | a purge is one step and keeps the newest entries |
| `GatewayAgent.GatewayAgent.BackendDeath` | gateway/acp-gateway/src/pool.rs:488-541 | a backend's death is one step, and its slot is in the table |
| `GatewayAgent.GatewayAgent.SpawnBackend` | gateway/acp-gateway/src/spawn.rs:46-52 | a spawn fills its slot, which is in the table from then on |
| `SlotRange.StepInRange` | gateway/acp-gateway/src/pool.rs:94-541 | every event leaves each session and each waiting request on a slot of the table, which never shrinks |
| `SlotRange.RunInRange` | gateway/acp-gateway/src/pool.rs:426-428 | so does every run, so eviction indexes the table without fail |
| `SlotRange.ReachableInRange` | gateway/acp-gateway/src/pool.rs:488-494 | in every reachable state; a slot that held a backend stays in the table, so a late death report finds it |
| `SessionDirectory.RegisterKeepsInverse` | gateway/acp-gateway/src/pool.rs:177-197 | sessions and reverse stay inverse exactly when neither id is taken by another |
| `SessionDirectory.OnePlaceEach` | gateway/acp-gateway/src/pool.rs:48-58 | among active, evicted and being reloaded, equal ids mean the same place, and so do equal backend ids |
| `SessionDirectory.StepKeepsConsistent` | gateway/acp-gateway/src/gateway.rs:104-402 | every event keeps the directory consistent |
| `SessionDirectory.RunKeepsConsistent` | gateway/acp-gateway/src/gateway.rs:104-402 | so does every run |
| `SessionDirectory.NeverInTwoPlaces` | gateway/acp-gateway/src/pool.rs:177-441 | in every reachable state no session and no backend id is in two places, and the two tables are inverse bijections |
| `SessionDirectory.BindingForLife` | gateway/acp-gateway/src/pool.rs:369-541 | through any evictions, crashes and reloads a session keeps its backend id and directory |
| `SessionConservation.LostExactlyWhen` | gateway/acp-gateway/src/gateway.rs:147-239 | a known session becomes unknown exactly by an answered close, a purge that leaves it out, or a reload that fails |
| `SessionEntries.RegisteredTables` | gateway/acp-gateway/src/pool.rs:177-201 | an answer registers one session, with the slot, directory and frontend of its request and used at that moment, and changes no other |
| `SessionEntries.EntriesChangeExactly` | gateway/acp-gateway/src/pool.rs:177-541 | for every event: an active session stays active exactly until it is closed, unused for the timeout of an eviction or its slot dies, an evicted one stays so exactly until it is taken for a reload or purged; meanwhile only frontends that name it become its sender and only a forwarded prompt counts as use |
| `SessionActivity.EvictionKeepsTheUsed` | gateway/acp-gateway/src/pool.rs:369-391 | an eviction keeps exactly the sessions whose last use and the timeout together lie after the present moment |
| `SessionActivity.UseIsRecorded` | gateway/acp-gateway/src/pool.rs:297-302 | a registration or a forwarded prompt is the last use of its session |
| `SessionActivity.ActiveUntilUnused` | gateway/acp-gateway/src/pool.rs:177-541 | from then on, over every run, the session is active throughout exactly when it is not closed, its slot does not die, and no eviction finds its last use, counted by the prompts forwarded since, as long ago as the timeout |
| `SessionActivity.SafeAfterUse` | gateway/acp-gateway/src/gateway.rs:182-242 | so a session used at some instant is active after every run without its close or crash whose prompts come no earlier and whose evictions come within the timeout of that instant |
| `RequestOrigins.StartsAsAsked` | gateway/acp-gateway/src/gateway.rs:104-399 | which requests wait for an answer and which are refused, and what each carries |
| `RequestOrigins.AnswersEndRequests` | gateway/acp-gateway/src/gateway.rs:104-402 | an answer ends its request, except that a reloaded prompt waits on with its guard and an initialized backend is called if its slot is still alive; no other event touches a waiting request |
| `RequestOrigins.RegistersAsAsked` | gateway/acp-gateway/src/gateway.rs:104-342 | whatever happens while a request waits, its answer registers the session on the slot chosen at its start with the directory and frontend it was started with; a reload brings back the backend id and directory of the evicted entry |
| `RequestOrigins.InitializedFirst` | gateway/acp-gateway/src/pool.rs:637-660 | once an initialize request is stored, a backend spawned for a request answers it before the call is made |
| `RequestOrigins.LatestInitIsStored` | gateway/acp-gateway/src/pool.rs:618-620 | what is replayed to a new backend is the latest initialize request of the run |
| `SlotAccounting.RegisterCounts` | gateway/acp-gateway/src/pool.rs:198-200 | a registration adds one to the counter and to the sessions of its slot only |
| `SlotAccounting.EvictCounts` | gateway/acp-gateway/src/pool.rs:409-428 | an eviction lowers a surviving slot by the number of sessions that leave it, stopping at zero |
| `SlotAccounting.StepMoves` | gateway/acp-gateway/src/pool.rs:94-541 | no event raises a counter above what it adds in sessions, and all but a spawn move the two together |
| `SlotAccounting.RunNeverOver` | gateway/acp-gateway/src/pool.rs:271-287 | in every interleaving no counter exceeds the sessions mapped to its slot |
| `SlotAccounting.ExactUnlessClobbered` | gateway/acp-gateway/src/pool.rs:94-100 | exact counters stay exact exactly unless a backend is spawned into a slot sessions refer to |
| `SlotAccounting.ExactNeverSaturates` | gateway/acp-gateway/src/pool.rs:271-273 | while exact, no subtraction is cut at zero |
| `SlotAccounting.RunExact` | gateway/acp-gateway/src/spawn.rs:52-90 | runs that spawn only into slots no session refers to keep every counter exact |
| `SlotAccounting.RespawnOverSession` | gateway/acp-gateway/src/spawn.rs:62-90 | from the start: a spawn, a session, and a second spawn after a failed replay leave a slot that counts none of its sessions |
| `BackendSlots.CloseFreesExactly` | gateway/acp-gateway/src/pool.rs:262-294 | with exact counters an answered close empties the slot exactly in Dedicated mode with no other session on it; else its backend stays and counts the others, and no other slot changes |
| `BackendSlots.SlotsChangeExactly` | gateway/acp-gateway/src/pool.rs:94-541 | after every event a slot holds a backend exactly when one is spawned into it or it held one that is not freed by the close of its only session, the eviction of one of its sessions or its death; a least-connections slot is never freed; and it is alive exactly when besides it did not die |
| `PromptGuards.StepFlagsOwned` | gateway/acp-gateway/src/gateway.rs:195-200 | every event leaves each flag with a live guard and the prompt senders within the flags |
| `PromptGuards.RunFlagsOwned` | gateway/acp-gateway/src/gateway.rs:16-25 | so does every run |
| `PromptGuards.NeverStuck` | gateway/acp-gateway/src/gateway.rs:21-25 | a session whose guards are dropped accepts prompts again |
| `PromptGuards.SoleUnlessRevoked` | gateway/acp-gateway/src/pool.rs:340-342 | a sole guard stays sole and flagged exactly until a crash or a close under it |
| `PromptGuards.RunSoleGuard` | gateway/acp-gateway/src/pool.rs:336-354 | without such an event prompts on one session never overlap |
| `PromptGuards.CrashAllowsSecondGuard` | gateway/acp-gateway/src/pool.rs:530-530 | from any state with a prompt on an active session, a crash and a respawn let a second guard live beside the first |
| `CallbackRouting.GatewayService.FrontendForSession` | gateway/acp-gateway/src/service.rs:66-76 | prompt sender before last sender before evicted sender; a missing route and a disconnected frontend are told apart |
| `CallbackRouting.GatewayService.FrontendForBackendSession` | gateway/acp-gateway/src/service.rs:78-89 | the route of the session a backend id stands for |
| `CallbackRouting.GatewayService.FrontendForUnscopedCallback` | gateway/acp-gateway/src/service.rs:91-105 | an unscoped callback is delivered exactly when there is one frontend |
| `CallbackRouting.ActiveBackendsRouted` | gateway/acp-gateway/src/pool.rs:220-233 | in every reachable state exactly the backend ids of active sessions have a route, to their own session |
| `CallbackRouting.OwnsUnlessInterrupted` | gateway/acp-gateway/src/service.rs:66-89 | a prompt keeps the callbacks of its session exactly until it ends or the session is evicted, crashes or is closed |
| `CallbackRouting.PromptOwnsCallbacks` | gateway/acp-gateway/src/pool.rs:210-233 | until then every callback goes to the prompting frontend, however many others act on the session |
| `CallbackRouting.SenderIsLastCaller` | gateway/acp-gateway/src/pool.rs:210-217 | over every run in which a session is active or evicted, its sender is the frontend that named it last |
| `CallbackRouting.CallbacksGoToLastCaller` | gateway/acp-gateway/src/service.rs:66-89 | so its callbacks go to the frontend whose prompt runs on it, and without a prompt to that one |
| `DedicatedMode.SelectedIsFree` | gateway/acp-gateway/src/pool.rs:122-135 | the selected slot carries no session and is idle or empty |
| `DedicatedMode.ExhaustedExactlyWhenFull` | gateway/acp-gateway/src/pool.rs:122-135 | selection fails exactly when as many sessions are active as there are slots |
| `DedicatedMode.RegisterExactly` | gateway/acp-gateway/src/pool.rs:177-201 | a registration keeps one backend per session exactly when its slot holds a backend and no session |
| `DedicatedMode.OneEachUnlessCrowded` | gateway/acp-gateway/src/pool.rs:122-541 | every event keeps one live backend per session exactly unless it registers a session on an empty or used slot; counters and directory stay exact either way |
| `DedicatedMode.RunOneEachUnlessCrowded` | gateway/acp-gateway/src/pool.rs:122-541 | over every run from such a state, one backend per session throughout is no such registration throughout |
| `DedicatedMode.DedicatedIsExclusive` | gateway/acp-gateway/src/pool.rs:122-541 | after every uncrowded run, crashes, forks and concurrent requests included, sessions map one to one to alive slots, and selection fails exactly at pool_size sessions |
| `DedicatedDiscipline.DisciplinedIsUncrowded` | gateway/acp-gateway/src/gateway.rs:104-239 | one request for a slot at a time, no forks, and no reply from a dead backend is enough, crashes at any time included |
| `DedicatedDiscipline.ConcurrentRequestsShareASlot` | gateway/acp-gateway/src/gateway.rs:104-133 | from any state with a slot to give, two requests at once end as two sessions on one slot |
| `DedicatedDiscipline.ForkSharesASlot` | gateway/acp-gateway/src/gateway.rs:316-342 | from any state with an active session, its fork is a second session on its slot |
| `DedicatedDiscipline.CrashLeavesNoBackend` | gateway/acp-gateway/src/pool.rs:488-541 | from any state with a slot to give, a backend that dies before its answer is taken leaves a session on an empty slot |
| `SessionResolution.ResolvesUnlessStranded` | gateway/acp-gateway/src/pool.rs:177-541 | every event keeps all active sessions reachable exactly unless it registers one on a dead slot, or evicts an idle one from a Dedicated slot shared with one in use |
| `SessionResolution.RunResolvesFromBoot` | gateway/acp-gateway/src/pool.rs:177-541 | over every run from the start they are reachable throughout exactly when no event does that |
| `SessionResolution.StrandedUntilReleased` | gateway/acp-gateway/src/pool.rs:240-541 | an unreachable active session stays so exactly until its idle eviction, a late death report or a spawn for its slot, or the answer to an earlier close |
| `SessionResolution.StrandedIsRefused` | gateway/acp-gateway/src/gateway.rs:136-399 | meanwhile prompt, load, fork and close of it are refused |
| `SessionResolution.LateAnswerStrands` | gateway/acp-gateway/src/gateway.rs:104-133 | in least-connections mode, from any state with a selectable slot, a backend that dies before its answer is taken leaves such a session |
| `SessionResolution.EvictionStrands` | gateway/acp-gateway/src/pool.rs:409-428 | an eviction of one of two sessions on a Dedicated slot leaves the other so |
| `LeastConnections.AddIsNewSession` | gateway/acp-gateway/src/gateway.rs:104-133 | an answered new_session leaves the whole system as select then register does |
| `LeastConnections.AddAllIsARun` | gateway/acp-gateway/src/gateway.rs:104-133 | any number of answered new_session requests is a run of the gateway that adds that many sessions |
| `LeastConnections.ExactShares` | gateway/acp-gateway/src/pool.rs:108-121 | n sessions on m alive empty slots leave the slot of rank r with exactly floor((n + m - 1 - r) / m) |
| `LeastConnections.SpreadNeverWidens` | gateway/acp-gateway/src/pool.rs:108-121 | from any state a new session leaves the spread of loads at most max(old spread, 1) |
| `LeastConnections.SpreadNeverWidensAll` | gateway/acp-gateway/src/pool.rs:108-121 | so does any number of them |
| `ConcurrentSpread.LateAnswerSpreads` | gateway/acp-gateway/src/pool.rs:177-201 | a registration on a slot chosen earlier keeps the spread within d exactly when that slot, as loaded when the answer arrives, is less than d above every other alive one |
| `ConcurrentSpread.StepLeveled` | gateway/acp-gateway/src/gateway.rs:104-239 | every event that only adds sessions keeps each slot's load with the requests waiting on it within d of every other load, when at most d requests are in flight |
| `ConcurrentSpread.SpreadUnderOverlap` | gateway/acp-gateway/src/gateway.rs:104-239 | over every run of new sessions, reloads and prompts, answered in any order with at most k in flight, the spread stays within max(old spread, k) |
| `ConcurrentSpread.BurstOnOneSlot` | gateway/acp-gateway/src/gateway.rs:104-133 | any number of new_session requests started before the first is answered all end on one slot |
| `Maintenance.Tick` | gateway/acp-gateway/src/main.rs:226-232 | a tick evicts and then purges to 1000 entries, with every slot index in range, and leaves active exactly the sessions used less than the timeout ago |
| `Maintenance.TickSessions` | gateway/acp-gateway/src/pool.rs:369-407 | after a tick exactly the recently used sessions are active, unchanged; an idle one is parked with backend id, directory and sender, or the table is full of entries as new |
| `Maintenance.TickPurges` | gateway/acp-gateway/src/pool.rs:450-464 | the table holds min(size, limit) entries, none older than one left out |
| `Maintenance.TickLoads` | gateway/acp-gateway/src/pool.rs:409-418 | a least-connections slot is lowered by exactly the sessions that left it and stays exact |
| `Conversation.BuildMessages` | harness/src/agent_loop.rs:28-77 | the request is the prompt and the wire form of each stored message, in order |
| `Conversation.PairedAppend` | harness/src/agent_loop.rs:173-213 | a history appended to a paired one is paired exactly when the addition is |
| `Conversation.BalancedAppend` | harness/src/agent_loop.rs:28-77 | after a balanced sequence of wire messages, more messages are balanced exactly when they are on their own |
| `Conversation.RequestWellFormed` | harness/src/agent_loop.rs:28-77 | a paired history makes a well-formed request with tools, and any history one without |
| `Conversation.EachMessageIsSent` | harness/src/agent_loop.rs:28-77 | a request is the prompt and then, for each stored message in turn, one message with its role, text, calls and id, or none exactly when there is nothing to send |
| `AgentLoop.RunTools` | harness/src/agent_loop.rs:194-213 | calls are answered one by one in order until one is interrupted |
| `AgentLoop.ResultsAnswer` | harness/src/agent_loop.rs:194-213 | each result carries the id of its own call, and only an interruption leaves calls unanswered |
| `AgentLoop.HandleReply` | harness/src/agent_loop.rs:142-224 | what one reply does to the history: every error, tool round and answer |
| `AgentLoop.Run` | harness/src/agent_loop.rs:107-229 | the loop is the iteration of that step, at most twenty times |
| `AgentLoop.IterationAdvances` | harness/src/agent_loop.rs:126-224 | an iteration only appends, keeps a paired history paired when it goes on or succeeds, and lengthens the next request |
| `AgentLoop.HistoryKept` | harness/src/agent_loop.rs:107-229 | the old history stays a prefix, and on success the result is the last message, newly added |
| `AgentLoop.RequestsWellFormed` | harness/src/agent_loop.rs:126-139 | one to twenty requests, the first made of the history, each repeating and extending those before, and all well formed when the history is paired or no tools are offered |
| `Answers.ReplyByReply` | harness/src/agent_loop.rs:107-229 | every reply but the last called offered tools, and the next request repeats the one it answered with those calls and their results; the last reply decides what is returned and what is stored |
| `Answers.SuccessIsTheAnswer` | harness/src/agent_loop.rs:142-224 | a run succeeds exactly when the reply to its last request has a regular finish reason and calls no tools, or has text and calls tools that were not offered; the result is its text, or empty exactly when it has none |
| `AgentLoop.SuccessPaired` | harness/src/agent_loop.rs:165-192 | a successful run leaves a paired history exactly when no unoffered tool was called |
| `AgentLoop.ConversePaired` | harness/src/agent.rs:406-455 | so do any number of turns with an honest model, with or without tools |
| `AgentLoop.EveryRequestWellFormed` | harness/src/agent_loop.rs:28-77 | every request of a turn after any such turns is well formed |
| `DanglingCalls.SpoiledForGood` | harness/src/agent_loop.rs:28-77 | whatever is stored after an unanswered call, no request with tools is well formed again |
| `DanglingCalls.NextTurnUnlessDangling` | harness/src/agent_loop.rs:165-192 | after a successful turn without tools on a paired history, each request of a next turn with tools is well formed exactly when no unoffered tool was called |
| `DanglingCalls.DanglingCallSpoilsNextTurn` | harness/src/agent_loop.rs:181-192 | from any paired history, a reply with text and unoffered calls succeeds and spoils every request of the next turn |
| `SessionManager.SessionStore.Save` | harness/src/session_store.rs:92-99 | only an existing session is overwritten; a deleted one is not brought back |
| `SessionManager.SessionStore.Delete` | harness/src/session_store.rs:101-108 | the session goes, and a missing one is an error |
| `SessionManager.ToolRuntimeManager.GetOrActivate` | harness/src/tool_runtime.rs:56-68 | a runtime with the wanted sources is reused untouched; any other is rebuilt or, failing that, left |
| `SessionManager.SessionManager.LoadSession` | harness/src/session_manager.rs:311-324 | loading writes back only a changed directory |
| `SessionManager.SessionManager.CloseSession` | harness/src/session_manager.rs:154-158 | runtime and session go together |
| `SessionManager.SessionManager.ForkSession` | harness/src/session_manager.rs:160-170 | the copy has the source's history, mode and model, and its own directory |
| `SessionManager.SessionManager.SetMode` | harness/src/session_manager.rs:172-191 | with nothing done during its build: refused under a running turn; otherwise runtime and stored mode change, or neither when the build fails |
| `SessionManager.SessionManager.LoadForMode` | harness/src/session_manager.rs:177-183 | set_mode up to its build: the refusals in order, and the session as loaded, with the new mode |
| `SessionManager.SessionManager.SaveMode` | harness/src/session_manager.rs:184-190 | and after it: the runtime is inserted, and what was loaded is saved unless the session is gone |
| `SessionManager.SessionManager.SetModel` | harness/src/session_manager.rs:193-207 | refused under a running turn or for an unsupported model |
| `SessionManager.SessionManager.BeginPrompt` | harness/src/session_manager.rs:209-238 | with nothing done during its build: one turn per session; a failed build leaves no turn behind |
| `SessionManager.SessionManager.StartPrompt` | harness/src/session_manager.rs:215-223 | begin_prompt up to its build: the session is marked, its copy taken, and the sources to build known unless cached |
| `SessionManager.SessionManager.EndBuild` | harness/src/session_manager.rs:224-230 | and after it: the runtime is inserted, or the session freed |
| `SessionManager.SessionManager.CommitPrompt` | harness/src/session_manager.rs:240-257 | what the turn added is spliced onto whatever is stored now |
| `PromptTurns.StepTurnsInOrder` | harness/src/session_manager.rs:285-294 | every event keeps turns whole and at most one unfinished per session |
| `PromptTurns.RunOrderly` | harness/src/session_manager.rs:209-261 | in every run turns never overlap between begin and finish, and each committed turn is whole and committed once |
| `PromptTurns.FaithfulUnlessStale` | harness/src/session_manager.rs:172-191 | histories stay initial history plus committed turns, except exactly when a mode change saves over a turn committed since it loaded |
| `PromptTurns.RunFaithful` | harness/src/session_manager.rs:240-257 | so they do over every run without such a save |
| `PromptTurns.StoredHistories` | harness/src/agent.rs:416-455 | from an empty store each history is its start followed by whole, distinct, successful turns in commit order |
| `PromptTurns.ModeChangeLosesTurn` | harness/src/session_manager.rs:172-191 | from any state with a finished turn, a mode change around its commit loses it |
| `PromptTurns.RunAllPaired` | harness/src/agent_loop.rs:107-229 | with an honest model every stored and private history is paired, however turns overlap |
| `PromptTurns.OverlappingRequestsWellFormed` | harness/src/agent_loop.rs:28-77 | so every request of every overlapping turn is well formed |
| `TurnFlags.ActiveHeldUnlessDropped` | harness/src/session_manager.rs:209-261 | every blocked session has a turn that builds its runtime or runs, exactly until such a turn is dropped |
| `TurnFlags.RunHeldUnlessDropped` | harness/src/session_manager.rs:209-261 | over every run a blocked session always has one exactly when no unfinished turn is dropped |
| `TurnFlags.DroppedIsBlocked` | harness/src/agent.rs:406-455 | a turn dropped before it has finished leaves its session blocked without a turn |
| `TurnFlags.BlockedForEver` | harness/src/session_manager.rs:172-238 | such a session refuses every prompt, mode and model change in every later state |
| `ParamsPreview.PreviewPanicsInside` | harness/src/agent_loop.rs:248-253 | the preview of a call's parameters panics exactly when byte 200 of a longer text falls inside a character, and otherwise is the characters that fit and an ellipsis |
| `ParamsPreview.BoundariesAreCuts` | harness/src/agent_loop.rs:248-253 | a slice is allowed exactly where the bytes before it are whole characters |
| `RuntimeCoherence.SequentialRunsStayCoherent` | harness/src/session_manager.rs:154-257 | done one after the other, all operations keep runtimes with stored sessions and with the sources of their stored mode |
| `RuntimeCoherence.RunsWithItsSources` | harness/src/tool_runtime.rs:56-68 | a turn that begins to run has a runtime with the sources it asked for, those of its session's mode when it began |
| `RuntimeCoherence.BuildsItsSources` | harness/src/tool_runtime.rs:56-68 | a turn runs at once exactly when the cached runtime has those sources, and otherwise builds them |
| `RuntimeCoherence.CoherentUnlessMisfit` | harness/src/tool_runtime.rs:56-81 | with everything interleaved and both builds awaited, runtimes and stored modes stay in agreement at every event, except exactly when a mode change ends its build after its session was closed, or a prompt ends its build for a session that is gone or wants other sources by then |
| `RuntimeCoherence.RunCoherentUnlessMisfit` | harness/src/session_manager.rs:154-257 | over every run they always agree exactly when no build inserts such a runtime |
| `RuntimeCoherence.CloseOrphansRuntime` | harness/src/session_manager.rs:154-191 | from any state with an idle session, a close during the build of a mode change leaves a runtime without a session |
| `RuntimeCoherence.CloseDuringBuild` | harness/src/session_manager.rs:154-229 | from any state with an idle session whose runtime is not cached, so does a close during the build of a prompt |
| `RuntimeCoherence.ModeChangeDuringBuild` | harness/src/session_manager.rs:172-229 | from any such state, a mode change that loaded before the prompt began and saves during its build leaves a runtime with the old mode's sources |
| `SessionSettings.AskedUnlessTakenBack` | harness/src/session_manager.rs:172-207 | a stored session has the directory, mode and model it was asked to have, except exactly when a mode change saves a directory or model that is no longer stored |
| `SessionSettings.RunAsAsked` | harness/src/session_manager.rs:172-207 | over every run it always has them exactly when no mode change saves so |
| `SessionSettings.FirstSettings` | harness/src/session_manager.rs:127-170 | a new session starts in code mode with the configured model and no history, a fork with its source's mode, model and history and its own directory; no other session changes |
| `SessionSettings.LoadsForMode` | harness/src/session_manager.rs:172-183 | what a mode change will save is the session as it was loaded, in one of the three modes, and nothing when it is gone or has a turn |
| `SessionSettings.AsAskedFromTheStart` | harness/src/session_manager.rs:127-207 | from its creation or fork on, over every run, a session has the settings asked for exactly when no mode change takes one back |
| `SessionSettings.ModeChangeTakesBackCwd` | harness/src/session_manager.rs:182-189 | from any state with an idle session, a directory stored during the build of a mode change is taken back |
| `ModeChanges.RunsAreDeskRuns` | harness/src/agent.rs:125-196 | every run with locks, notifications and rollbacks is a run of turns and mode changes, with the same sessions, runtimes and turns at its end |
| `ModeChanges.CoherentUnlessMisfit` | harness/src/agent.rs:158-196 | so runtimes and modes always agree in it exactly when no build inserts a runtime its session does not want |
| `ModeChanges.RunLocked` | harness/src/agent.rs:125-196 | whatever happens while a change waits, its stored session has the previous mode until the change is saved and the new one from then on, until a rollback is saved |
| `ModeChanges.ModelsKept` | harness/src/agent.rs:125-134 | under the lock nothing but set_model changes the model of a stored session |
| `ModeChanges.RefusedAtOnce` | harness/src/agent.rs:158-175 | a change is refused at once, with nothing changed, for an unknown session, a running turn or an unknown mode, in this order, and for nothing else |
| `ModeChanges.ToldAfterBothNotifications` | harness/src/agent.rs:158-196 | whatever is done meanwhile, the caller is told of success exactly when the second notification is delivered, and then of the session as it was loaded with the new mode |
| `ModeChanges.RollbackStarts` | harness/src/agent.rs:136-145 | a failed notification ends the change with an error and nothing changed, unless the session is stored without a turn, and then a rollback to the previous mode starts |
| `ModeChanges.RollbackEnds` | harness/src/agent.rs:136-145 | whatever was done during its build, a rollback saves exactly what it loaded, with the previous mode and its sources, or nothing when the build fails or the session is gone |
| `ModeChanges.FailedNotificationRollsBack` | harness/src/agent.rs:158-196 | from before the change to the end of its rollback, with anything done in between, the old mode is stored again exactly when the session stays stored and the mode was the same, or no turn had begun when the notification failed and the build succeeds |
| `ModeChanges.PromptDefeatsRollback` | harness/src/agent.rs:136-145 | from any state with a pending change and no turn, a prompt begun before the notification fails leaves the new mode stored behind an error |
| `ModeChanges.RollbackLosesTurn` | harness/src/agent.rs:136-145 | from any such state with a finished turn, its commit during the rollback's build is lost |
| `HarnessAgent.HarnessAgent.NewSession` | harness/src/session_manager.rs:127-132 | one step: the session is stored with the default mode and model |
| `HarnessAgent.HarnessAgent.ForkSession` | harness/src/session_manager.rs:160-170 | one step: the copy starts with the source's history |
| `HarnessAgent.HarnessAgent.LoadSession` | harness/src/session_manager.rs:134-148 | one step, for load and resume alike |
| `HarnessAgent.HarnessAgent.CloseSession` | harness/src/session_manager.rs:154-158 | one step: runtime and session go, whatever turn or change is under way |
| `HarnessAgent.HarnessAgent.SetModel` | harness/src/agent.rs:198-231 | one step, when no mode change holds the lock |
| `HarnessAgent.HarnessAgent.Prompt` | harness/src/session_manager.rs:209-227 | begin_prompt up to its build: refused for an unknown session or one with a turn, else the turn runs or awaits the runtime it wants |
| `HarnessAgent.HarnessAgent.RuntimeBuilt` | harness/src/session_manager.rs:220-238 | the end of that build: the runtime is inserted and the turn runs, or the turn is given up and the session freed |
| `HarnessAgent.HarnessAgent.RunTurn` | harness/src/agent.rs:424-442 | the agent loop on the turn's own copy, after which the session is free |
| `HarnessAgent.HarnessAgent.CommitTurn` | harness/src/agent.rs:444-450 | what the turn added is spliced onto what is stored |
| `HarnessAgent.HarnessAgent.ApplyModeChange` | harness/src/agent.rs:158-175 | from taking the lock to the build: an unknown session, a running turn and an unknown mode are refused |
| `HarnessAgent.HarnessAgent.ModeBuilt` | harness/src/agent.rs:170-175 | the end of the build: runtime and mode change and the notifications begin, or the change ends with the error |
| `HarnessAgent.HarnessAgent.NotificationEnded` | harness/src/agent.rs:176-196 | what follows each of the two notifications: the next, the answer, or the start of a rollback |
| `HarnessAgent.HarnessAgent.RollbackBuilt` | harness/src/agent.rs:136-145 | the end of a rollback, whose own failure is not told |
| `OutboundBuffer.Buffer.PushMessage` | acp-http-transport/src/server.rs:261-272 | nothing once closed; the oldest message gives way when the queue is full |
| `OutboundBuffer.Buffer.ClaimStream` | acp-http-transport/src/server.rs:281-293 | refused while a stream is open, or when closed and drained |
| `OutboundBuffer.Buffer.PopFront` | acp-http-transport/src/server.rs:304-309 | the oldest message, if there is one |
| `OutboundBuffer.SettleHead` | acp-http-transport/src/server.rs:266-268 | the message at the head meets its fate in order and within its bound |
| `OutboundBuffer.StepKeeps` | acp-http-transport/src/server.rs:261-318 | every locked operation keeps: the queue is the last accepted messages and fits; fates come in order, a drop exactly at the push that exceeds the limit; delivery in order; one lease |
| `OutboundBuffer.RunKeeps` | acp-http-transport/src/server.rs:261-328 | so does every interleaving |
| `OutboundBuffer.AcceptedIsPartitioned` | acp-http-transport/src/server.rs:261-318 | accepted messages are delivered, dropped or queued; the stream and the queue are all of them exactly when none was dropped |
| `OutboundBuffer.EndsDrainedUnlessRaced` | acp-http-transport/src/server.rs:302-318 | a stream ends with the queue drained exactly when nothing was accepted between its two looks; else it may be claimed again |
| `OutboundBuffer.RaceLeavesMessage` | acp-http-transport/src/server.rs:302-318 | from an opening buffer, a push and a close between the two looks end the stream with the message queued |
| `OutboundBuffer.TogetherEndsDrained` | acp-http-transport/src/server.rs:302-318 | when the second look follows the first at once, every run ends a stream only with the queue drained and nothing left to claim |
| `OutboundBuffer.ClosedOnlyDrains` | acp-http-transport/src/server.rs:261-279 | after close nothing is accepted or dropped any more |
| `MessageFraming.PumpOutbound` | acp-http-transport/src/server.rs:205-228 | each line is pushed with its newline until the end, an error or an oversized line, and then the buffer is closed |
| `MessageFraming.PumpIsPrefix` | acp-http-transport/src/server.rs:205-228 | what is pumped is a prefix of the peer's bytes, and all of them exactly when every line fits and the end is readable |
| `MessageFraming.StreamCarriesBytes` | acp-http-transport/src/server.rs:205-318 | with nothing dropped the drained stream carries a prefix of the peer's bytes, and all of them exactly when every line fits and the end is readable |
| `MessageFraming.PeerWriter.SendMessage` | acp-http-transport/src/server.rs:162-180 | an oversized message and a closed writer are refused without writing; otherwise message and newline are written, or a prefix of them when a write fails |
| `MessageFraming.AfterFailedWrite` | acp-http-transport/src/server.rs:162-180 | a failed write leaves the writer open, and the next message is read back on its own exactly when nothing or the whole frame was written; otherwise the two run together, or are refused when too long |
| `MessageFraming.TrimNewline` | acp-http-transport/src/client.rs:273-280 | one line ending is trimmed: newline, carriage return, or both |
| `MessageFraming.ForwardMessages` | acp-http-transport/src/client.rs:67-104 | the trimmed non-empty lines are posted in order up to the first oversized one, refused post, error or end |
| `MessageFraming.ForwardedShape` | acp-http-transport/src/client.rs:75-84 | only non-empty newline-free messages within the limit are posted |
| `MessageFraming.FramingRoundTrip` | acp-http-transport/src/client.rs:67-104 | messages written as lines are recovered exactly when each is non-empty, newline-free, within the limit and not ending in a carriage return |
| `MessageFraming.ArrivesAs` | acp-http-transport/src/client.rs:67-104 | of any messages without newlines each arrives without a carriage return at its end, empty ones are left out, and the first oversized one ends the relay |
| `MessageFraming.RelayStable` | acp-http-transport/src/client.rs:67-104 | what one relay posts, a second passes on unchanged exactly when no message still ends in a carriage return |
| `LineReader.ReadLimitedLine` | harness/src/sandbox.rs:394-441 | the outcome, each error included, is a function of the bytes alone, however they are buffered, and a line leaves exactly the rest unread |
| `LineReader.WrittenLineIsRead` | harness/src/sandbox.rs:295-337 | a newline-free text written as a line is read back whole exactly when it fits, whatever follows |
| `LineReader.FirstLineIsRead` | harness/src/sandbox.rs:394-441 | a first line within the limit is the text it encodes, or refused when it encodes none; a longer one is too long |
| `LineReader.NoLineIsRead` | harness/src/sandbox.rs:394-441 | without a newline, a clean end, an end inside a message, a read error and an excess are told apart exactly |
| `Utf8.DecodesExactlyEncodings` | harness/src/sandbox.rs:438-440 | strict decoding accepts exactly the encodings and inverts them |
| `Utf8.CutAnywhere` | harness/sandbox/runner.py:62-62 | an encoding cut at any byte, leniently decoded, is the longest run of characters that fits |
| `Utf8.WellFormedCuts` | harness/src/sandbox.rs:380-387 | a cut encoding is well formed exactly at character boundaries |
| `Truncation.TruncateUtf8` | harness/src/sandbox.rs:375-392 | the loop computes the truncation |
| `Truncation.TruncateIsMaximal` | harness/src/sandbox.rs:375-392 | the kept prefix fits, no longer prefix fits in characters or in well-formed bytes, and the suffix shows exactly on overflow |
| `Truncation.BoundedCapture.Write` | harness/sandbox/runner.py:44-68 | a write is kept whole, cut at a character boundary, or ignored, and always reports its full length |
| `Truncation.BoundedCapture.GetValue` | harness/sandbox/runner.py:73-74 | the parts joined |
| `Truncation.CaptureInvariant` | harness/sandbox/runner.py:44-74 | the capture after any writes, as a function of the whole output and of where its writes overflow |
| `Truncation.CaptureIsTruncation` | harness/sandbox/runner.py:44-74 | however the output is split into writes, the capture is the truncation of the whole, with one notice exactly on overflow, lone surrogates read as question marks |
| `Truncation.CaptureIsVerbatim` | harness/sandbox/runner.py:52-68 | the kept text is the output's own exactly when the overflowing write keeps no lone surrogate |
| `OutputDelivery.StringArrives` | harness/sandbox/runner.py:335-337 | an escaped string is read back by a strict JSON parser merged, or refused when it cannot be |
| `OutputDelivery.MergesExactly` | harness/src/sandbox.rs:207-208 | a string is read back exactly when its surrogates are paired, and verbatim exactly when it has none |
| `OutputDelivery.FinalLineIsRead` | harness/src/sandbox.rs:190-272 | the final line ends the loop with output and error exactly when its escapes fit the line limit and both merge; otherwise with a read error, or a parse error |
| `OutputDelivery.CapturedOutputArrives` | harness/sandbox/runner.py:330-351 | whatever was written, the captured output arrives exactly when the escapes fit and surrogates are paired, and verbatim exactly when they fit and there are none |
| `OutputDelivery.EscapesAreBounded` | harness/sandbox/runner.py:335-337 | escapes take at most six times the bytes the capture counts |
| `OutputDelivery.SmallOutputArrives` | harness/sandbox/runner.py:330-337 | so a small output without surrogates always arrives verbatim |
| `OutputDelivery.NewlinesDoNotFit` | harness/sandbox/runner.py:44-68 | newlines within the capture's limit whose escapes exceed the line's are captured whole and not delivered |
| `OutputDelivery.LoneSurrogateIsRefused` | harness/sandbox/runner.py:52-61 | a lone surrogate is captured and makes the final line unparsable |
| `SentinelFraming.SubmitCode` | harness/src/sandbox.rs:88-104 | code is accepted exactly when non-empty, within a mebibyte and free of the reserved pattern, and framed by the sentinel |
| `SentinelFraming.ReceiveCode` | harness/sandbox/runner.py:310-317 | the reader takes lines up to one that strips to the sentinel and leaves the rest unread |
| `SentinelFraming.StripsBothEnds` | harness/sandbox/runner.py:310-315 | stripping a line takes exactly the whitespace at both of its ends |
| `SentinelFraming.CollectedWhole` | harness/sandbox/runner.py:312-317 | a text is collected whole exactly when it hides no sentinel line |
| `SentinelFraming.FramedProgramIsRecovered` | harness/src/sandbox.rs:166-178 | framed code is recovered with a final newline, every other character as it was and the rest left unread, exactly when no line strips to the sentinel |
| `SentinelFraming.AcceptedProgramArrives` | harness/src/sandbox.rs:88-178 | accepted code always arrives verbatim, but for the final newline, and what follows it is left unread |
| `TokenBucket.Limiter.AcquireToken` | harness/src/llm.rs:61-74 | refill up to capacity, then take a token or tell the wait |
| `TokenBucket.StaysWithin` | harness/src/llm.rs:61-74 | whatever the clock does, tokens stay between none and capacity; the infinite wait occurs exactly at rate zero |
| `TokenBucket.GrantsAreFunded` | harness/src/llm.rs:61-74 | immediate grants never exceed what the bucket held and gained |
| `TokenBucket.GrantsInWindow` | harness/src/llm.rs:50-74 | in every window of T seconds of a run at most capacity * (1 + T / 60) immediate grants |
| `TokenBucket.GrantsWithAnyClock` | harness/src/llm.rs:61-74 | even when the clock steps back, grants and remaining tokens are paid by the tokens at the start and the time gone forward |
| `TokenBucket.WaitIsLeast` | harness/src/llm.rs:70-73 | the wait is the least delay after which an uncontended call is granted |
| `TokenBucket.BurstSharesOneWait` | harness/src/llm.rs:145-150 | of any number of calls at one instant those the tokens cover are granted and all others told one same wait |
| `TokenBucket.FreshBurst` | harness/src/llm.rs:50-74 | on a fresh limiter every call past the first rpm waits 60 / rpm seconds |
| `ToolIpc.SendToolError` | harness/src/sandbox.rs:339-367 | the error text is truncated, and a reply too long for a line is not sent |
| `ToolIpc.ServeCall` | harness/src/sandbox.rs:214-268 | limit, key, size, policy, registry and result size, in this order, each with its reply or error |
| `ToolIpc.ServeCalls` | harness/src/sandbox.rs:186-276 | the loop serves the lines in order until one ends it |
| `ToolIpc.RegistryIsGuarded` | harness/src/sandbox.rs:214-256 | whatever the sandbox writes, at most 64 calls reach the registry, each with a parsed key, bounded params and the policy's consent for them |
| `ToolIpc.ToolBridge.Request` | harness/sandbox/runner.py:78-94 | each call of the bridge carries the next number, counted from one |
| `ToolIpc.DecimalReadsBack` | harness/sandbox/runner.py:80-86 | the name of a call spells its number, so no two calls share one |
| `ToolIpc.ToolBridge.Accept` | harness/sandbox/runner.py:96-112 | an error reply raises, any other yields its result; the id is not looked at |
| `ToolIpc.StepKeepsLockstep` | harness/sandbox/runner.py:77-112 | every step of runner or harness keeps at most one line on its way, of the right kind |
| `ToolIpc.RunKeepsLockstep` | harness/sandbox/runner.py:77-112 | so does every composed run, whatever ends it |
| `ToolIpc.ServedInTurn` | harness/sandbox/runner.py:80-94 | before a call is read every earlier call has had its one reply under its own id, and ids differ |
| `ToolIpc.HowSessionsEnd` | harness/src/sandbox.rs:214-276 | a finished session answered every call, 64 at most; the limit ends one exactly at the 65th; the registry ran exactly the cleared calls within it |
| `ToolReplies.RepliesArrive` | harness/src/sandbox.rs:214-268 | in every composed run the i-th reply the program takes answers its i-th call: the registry's result exactly when key, size, policy, registry and result size all allow it, else the text of the first of these errors, cut to 4096 bytes |
| `ToolReplies.UnansweredEndsSession` | harness/src/sandbox.rs:214-268 | a call that is read and gets no reply ended the session, by the limit, a cancellation, a reply too long for its line, or a failed write, exactly as its case has it |
| `ToolReplies.CallsAndOutputArrive` | harness/sandbox/runner.py:78-112 | calls carry the numbers, keys and params they were made with, in order, and a finished session ends with the program's own output and error |

## Left out

- HTTP routing, TLS, sockets, stdio pipes and process handling (spawn, signals, resource limits, `graceful_kill`, `shutdown`): library and system calls; a backend is an opaque id with replies and death events.
- Cedar policies, JSON, MCP tools, model clients and their texts: arbitrary functions and event parameters; error messages and JSON sizes are parameters of `ToolIpc.Host`.
- Liveness: wake-ups of waiting readers and fairness of the scheduler; safety only.
- Cancellation tokens: a cancelled model call, tool call or read is an outcome the environment chooses.
- Clock reads: one instant per pool operation, where the code reads the clock once per evicted entry after a crash.
- Requests forwarded without touching the pool after their await (load of an active session, cancel, modes, list, authenticate): they only record a sender, which `GatewaySystem` has as its own event.
- Awaits that find their lock free: the locks of the in-memory store, of the runtime cache and of the running turns are never held across another await, so on one thread nothing runs between two of them; every await on a runtime build, a model, a tool or a notification is split.
- TokenBucket.GrantsInWindow: over the reals, without floating-point rounding or the resolution of durations.
- SentinelFraming.AcceptedProgramArrives: the runner's standard input is taken as UTF-8 text, as Python chooses for the cleared environment of the sandbox, with lines that end at newlines alone, as Python reads standard input everywhere but on Windows.
- OutputDelivery.FinalLineIsRead: the harness's JSON parser is modelled for a line in the layout the runner writes; whatever else may be written to the line is an event of `ToolIpc`.
- Session listing, pool status, runtime refresh, configuration loading, prompt texts, the redaction of parameters, the syntax visitor of the sandbox, metrics, the Telegram connector and the web site: easy members or no state.
- apply_model_change: its set_model and the one of its rollback are events of `ModeChanges` that may come whenever no mode change holds the lock; that its own notification keeps the lock is not modelled, which only admits more runs.

# Domiform, modelled and verified

Domiform compiles a smart-home configuration into rules, scenes and schedules and runs them
on a single-threaded event loop. This project models that loop, the adapters whose protocols
it depends on, and the compiler in front of it, and proves what they promise over every run,
every adapter behaviour, every interleaving or every configuration.

`dafny verify dfyconfig.toml` checks everything.

## Layout

| file | models |
|---|---|
| `Model`, `StateStore`, `Rules` | the vocabulary, the state store, triggers and conditions |
| `Readings`, `Kleene`, `EdgeRuns` | reports and what they read as; what the three-valued conditions and the edge triggers mean |
| `Ordering`, `TimerKeys`, `Scheduler` | deterministic order out of hash maps, generated timer keys, the timer table |
| `Scenes`, `EngineSpec`, `Intents` | scene expansion, the loop as a state machine, intents and relative commands |
| `AnyRun` | what every run keeps in any configuration |
| `EngineInvariants`, `Reachable` | what every reachable state of a well-formed configuration keeps |
| `Orders`, `UserTimers` | what one iteration sends to which adapter, which rules it wakes, which timers it sets; user timers over whole runs |
| `Drain` | quiescence, and exactly what it depends on |
| `Retries`, `RetryRuns`, `RetryTiming`, `RetryCommands`, `GiveUps` | the ledger of retries, their timing, their commands, and giving up |
| `Sustained`, `Dangling`, `Mirror` | `for:` waits, timer keys in circulation, northbound mirrors, all over whole runs |
| `Engine` | the runtime object, loop by loop, tied to the state machine |
| `Stream`, `Snapshot` | the bounded SSE fan-out, and one stream connection against a running engine |
| `Clock`, `Waking`, `CronRuns` | cron firing, civil minutes and wake-ups; the whole engine on a sleeping host; occurrences over whole runs |
| `RawConfig`, `Lower`, `Resolve`, `Deploy` | what a configuration means, the compiler that decides it, and what acceptance buys at run time |
| `Meaning`, `MeaningExists`, `Acceptance`, `Behaviour` | raw nodes read over the log of events, preserved by compiling, evaluating and running; exactly which nodes and configurations are accepted |

## Conventions

A run starts in the initial state and alternates host calls (`Inject`, `Advance`, `Sync`),
consumer writes to a northbound mirror, and single iterations of the loop (`Pop`). Device
adapters are an arbitrary script: the n-th dispatch of a run gets the n-th answer. Since the
loop is deterministic, quantifying over scripts covers adapters of every kind. Non-scheduler
adapters' ticks are an arbitrary list of events per advance.

Hash maps are walked in an arbitrary order wherever the program walks one; the results are
proved independent of it.

What the theorems assume, they name:

- *nothing*: the store as a replay, the mirrors and sane wait tables hold on every run of
  every configuration;
- *acyclic scenes*: no scene reaches itself. With that every run drains at depth limit 0,
  whatever the adapters answer, and at any limit if the adapters answer with a
  `TimerElapsed` of the engine's own (`__retry:` or `__for:`) only finitely often;
- *honest adapters* never do. With acyclic scenes and honest adapters the runtime object is
  deterministic, in every configuration;
- *well-formed configurations in a clean environment*, for the theorems about single waits and
  retries: only the scheduler produces `TimerElapsed`; no configured timer command uses a
  reserved key; no scene reaches itself; rule ids are distinct and `for:` stands on edge
  triggers only.

The compiler guarantees the last of these, and checks neither reserved keys nor scenes
(`Deploy.AcceptedIsWellFormedIff`). Where an assumption is needed, its exact condition is
proved: `Drain.DepthLimitSufficesIff`, `Drain.HonestyLeavesScenes`,
`EngineInvariants.TimerCommandOwnsIff`, `Scenes.ExpansionTerminatesIff`.

## What turned out differently from the documentation

- *Termination.* The loop is described as provably terminating through depth alone
  (`ARCHITECTURE.md:271-276`). Depth alone suffices exactly when the limit is 0 and no scene
  reaches itself (`Drain.DepthLimitSufficesIff`). At any other limit one adapter that goes on
  forging retry timers keeps the loop busy forever (`Drain.ForgedTimersNeverDrain`). Among
  adapters that forge finitely often, everything drains exactly when no scene reaches itself
  (`Drain.EventuallyHonestDrains`, `Drain.HonestyLeavesScenes`).
- *Scenes.* Expansion recurses at one depth, so the depth limit does not bound it. A scene
  that activates itself is accepted by the compiler (`Deploy.CyclicSceneAccepted`), to whom
  cycle detection is left (`ARCHITECTURE.md:275-276`), and never finishes expanding: asking
  for it stops the loop at every limit (`Drain.CyclicSceneNeverDrains`).
  `Scenes.ExpansionTerminatesIff` is the exact condition.
- *Snap-back.* A northbound mirror is said to return to truth one hop after any write
  (`src/engine.rs:333-345`). A failed write to a capability the store has never seen stays
  (`Mirror.UnknownWriteSticks`). `Mirror.RefanRestoresIff` is the exact condition for one hop,
  `Mirror.MirrorAgreesAtRestIff` for whole runs.
- *Streams.* Subscribing before the snapshot is said to close the lost-update window
  (`src/adapters/rest_api/http.rs:500-505`). Because a report is broadcast before the mirror
  is written, a window remains; `Snapshot.ClientAgreesIff` says exactly when an update is
  missed, and `Snapshot.UpdateCanBeMissed` shows one.
- *Northbound adapters.* The engine builder says that resolving rejects a device bound to a
  northbound adapter (`src/compile/mod.rs:213-214`). Resolving never looks at the direction of
  an adapter: such a device is rejected exactly if it would be on a southbound one
  (`Deploy.PolarityIrrelevant`, `Deploy.NorthboundDeviceAccepted`), and its commands find no
  adapter to dispatch to (`Deploy.CommandsBoundIff`).
- *Relative commands.* A toggle or a brightness step that could not be resolved goes into the
  retry table as it is and is resolved again on the retry. A retry carries the command of the
  attempt it follows exactly when that is absolute or still cannot be resolved
  (`RetryCommands.RetryCarriesCommandIff`); `RetryCommands.RetriedToggleChanges` is a run on
  which it does not.
- *Warnings.* Dangling-timer warnings come out of a hash-set difference
  (`src/compile/resolve.rs:491-496`): their set is determined, their order is not.
- *Minutes.* The clock is said to republish the current time and sun on each tick
  (`src/adapters/clock.rs:1-5`), but does so only if the minute of the day is not the last
  published one (`src/adapters/clock.rs:178-180`). `Clock.PublishesAfreshIff` says exactly
  when a tick publishes; `Clock.StaleSunAfterADay` is a tick that leaves the sun stale, any
  part of a minute after whole days. A host that obeys the wake delay never gets there
  (`Clock.PunctualHostStaysCurrent`).
- *Dead triggers.* Checking a trigger against what its device declares
  (`src/compile/lower.rs:265-312`) does not make it one that can match: a `reports` trigger on
  the write-only `ir_transmitter` and a threshold outside what the capability can report are
  accepted without a warning. `Deploy.AcceptedTriggerMatchesIff` is the exact condition.
- *Subscribers.* The `live` flag of a stream subscriber is read but never cleared.

## Model

| member | source | states |
|---|---|---|
| `StateStore.ReplayIsLastReport` | src/state.rs:13-27 | deleting the store and replaying the log of reports rebuilds it: every read is the newest report of that capability, and nothing if there was none |
| `StateStore.StateTable.Set` | src/state.rs:18-20 | a report overwrites exactly its own (device, capability) cell |
| `Rules.EdgeIsRisingPredicate` | src/rule.rs:90-124 | an edge trigger matches a report iff it is of the watched capability, makes the sustained predicate true, and the store it replaces made it false |
| `Rules.PredicateFollowsWatched` | src/rule.rs:144-175 | no other event, and no report of another capability, moves a sustained predicate |
| `Readings.BoolViewInverts` | src/model.rs:216-226 | a state reads as a boolean iff it is the one report of its capability that says so |
| `Readings.NumberViewInverts` | src/model.rs:230-241 | a state reads as a number iff it is the one report of its capability with that number, in its range |
| `EdgeRuns.MatchStartsRun` | src/rule.rs:90-124 | against the store replayed so far, the trigger matches exactly the report that starts a run of satisfying reports |
| `EdgeRuns.EdgesCountRuns` | src/engine.rs:366-373 | over any event log, matches = maximal runs of satisfying reports, a satisfying first report included |
| `Kleene.KleeneSound` | src/rule.rs:227-252 | a rule that fires (or is refused) on partial knowledge would be classically right to under every completion of the unreported capabilities |
| `Kleene.DefiniteVerdictsPersist` | src/rule.rs:299-333 | a definite verdict survives every further report |
| `Kleene.GroundedIsClassical` | src/rule.rs:299-333 | with everything reported the evaluator is ordinary logic and never Unknown |
| `Kleene.KleeneIncomplete` | src/rule.rs:299-333 | the converse of soundness fails: a tautology over an unreported capability is Unknown |
| `Kleene.ListOrderIrrelevant` | src/rule.rs:299-312 | `all` and `any` do not depend on the order of their list |
| `Kleene.DeMorgan` | src/rule.rs:227-252 | De Morgan's laws for lists of any length, Unknown included |
| `TimerKeys.TextKeysAreValid` | src/engine.rs:38-42 | `__retry:N` and `__for:N` are two disjoint families of keys, each injective in N; a key is reserved iff it starts with one of the two prefixes |
| `TimerKeys.GeneratedKeysDistinct` | src/engine.rs:708-712 | a generated key names one wait, and a user key outside both prefixes none |
| `Scheduler.TickSpacingIrrelevant` | src/adapters/scheduler.rs:30-45 | tick(t1) then tick(t2) fires what tick(t2) alone fires, in the same order, and leaves the same table |
| `Scheduler.FiresInOrder` | src/adapters/scheduler.rs:30-45 | due timers fire by time, at one instant by the first character in which their keys differ |
| `Scheduler.WakeIsExact` | src/adapters/scheduler.rs:47-55 | sleeping at most the delay overshoots no deadline, sleeping less fires nothing |
| `Scheduler.SchedulerAdapter.Tick` | src/adapters/scheduler.rs:30-45 | whatever order the map is walked in, every due timer fires once in (time, key) order and the rest stay |
| `Scheduler.SchedulerAdapter.Dispatch` | src/adapters/scheduler.rs:17-28 | schedules at now + after, cancels, ignores the rest |
| `Scheduler.SchedulerAdapter.NextWake` | src/adapters/scheduler.rs:47-55 | the distance to the soonest deadline, floored at 0, none without timers |
| `Scenes.ExpansionTerminatesIff` | src/engine.rs:519-527 | scene expansion has a bounded depth iff no activation chain revisits a scene |
| `Scenes.ExpandsInOrder` | src/engine.rs:519-527 | without cycles a list expands command by command, a scene to the expansion of its members, an unknown scene to nothing |
| `Scenes.SelfActivationNeverReturns` | src/engine.rs:519-527 | a scene activating itself exceeds every bound |
| `Intents.RequestedStateRoundTrips` | src/engine.rs:603-638 | asking for a writable state commands the right device to exactly that state, without a transition; a report-only state commands nothing |
| `Intents.RequestAsksAsIntended` | src/engine.rs:571-592 | any other request asks its device for the opposite of its last reported switch, for the last reported brightness plus the delta clamped to 0..100, or for the code; for the toggle or the step itself if nothing was reported; a delta of 0 asks for nothing |
| `Intents.ToggleTwiceRestores` | src/engine.rs:652-659 | a toggle asks for the opposite of a known switch, and again, after the echo, for the original |
| `Intents.StepUndoneIff` | src/engine.rs:660-681 | the opposite brightness step restores a reported level iff the level is at most 100 and the first step stayed in 0..100 or swept the whole range from one end |
| `Intents.ResolvesToItselfIff` | src/engine.rs:652-684 | resolving changes a command iff it is relative to a known state; then it becomes absolute, to the same device, for good |
| `EngineInvariants.TimerCommandOwnsIff` | src/engine.rs:530-540 | a user timer command keeps every wait owned iff its key is not reserved, or it re-schedules a pending one, or cancels one that is not there |
| `Reachable.FiredInOrder` | src/engine.rs:393-410 | rules fire in the order they are configured in |
| `Reachable.ImmediateMembers` | src/engine.rs:404-416 | commands dispatched at once belong to fired rules without `for:`; a `for:` rule only ever arms |
| `Reachable.WaitingExcludesEdge` | src/engine.rs:423-428 | a rule that is waiting cannot match again, so a wait is never restarted |
| `Reachable.ElapsedFires` | src/engine.rs:464-485 | an elapsed wait always fires: the re-check of its predicate never rejects, and the search for its rule has one answer |
| `Reachable.RetryKeeps` | src/engine.rs:300-305 | re-issuing a retry removes its entry and keeps every other wait and key where it was |
| `Reachable.RunsKeepInv` | src/engine.rs:287-417 | in every state of every run: the queue is layered, every wait's key is in the scheduler or in one queued event but not both, no reserved key is orphaned, waiting rules' predicates are true, pending attempts lie in 2..=max, and the store is the replay of the processed events |
| `AnyRun.RunsStayTabled` | src/engine.rs:686-727 | whatever the adapters answer and the host injects, pending retries are device commands under retry keys and every wait has a generated key of its own |
| `AnyRun.RunsStaySteady` | src/engine.rs:287-417 | among honest adapters, in every configuration and whatever the host injects, the queue stays layered with the engine's own timers at depth 0, retries stay device commands under retry keys, and every wait has its own key |
| `Orders.PopEffect` | src/engine.rs:287-417 | whatever the configuration and the adapters: an iteration sends the device commands its event calls for, each once, in order, resolved against the store after the event, and the last word about each user timer holds; an event calls for the commands of exactly those configured rules whose trigger matches against the value before it and whose condition is true after it, a requested scene or change for its own, an elapsed wait for its rule's, an elapsed retry for the stored one |
| `Orders.WaitStartsIff` | src/engine.rs:393-413 | a wait starts in an iteration iff a configured rule with that id and a `for:` has its trigger match against the value before the event and its condition true after it |
| `Orders.UnansweredIsSilent` | src/engine.rs:395-401 | an event whose matching rules all have a false or unknown condition dispatches nothing, starts no wait and touches no user timer |
| `Orders.RunsRecord` | src/engine.rs:686-706 | on every run the i-th dispatch got the i-th answer of the script, or a refusal if no adapter is bound, and leaves a retry iff it failed transiently with its number below `max_attempts` |
| `UserTimers.TimerStands` | src/engine.rs:530-540 | on every run a user timer set at T with delay d stands at T + d until a command about its key, or the time, comes |
| `UserTimers.TimerElapses` | src/adapters/scheduler.rs:30-45 | the advance that reaches T + d queues its event, at that very instant if the host never oversleeps |
| `UserTimers.TimerWasSet` | src/adapters/scheduler.rs:17-28 | every user timer in the scheduler was set by the last command about its key, as long before its deadline as that command asked |
| `UserTimers.AdvanceInOrder` | src/engine.rs:271-285 | an advance queues elapsed timers first, then the adapters' events, then the consumers' requests, all at depth 0 |
| `Drain.ProcessIsProgress` | src/engine.rs:287-293 | every iteration shrinks the front layer of the queue or exposes a deeper one, and no layer lies beyond the limit plus one |
| `Drain.Drained` | src/engine.rs:287-417 | with acyclic scenes and honest adapters, running to quiescence is a total function that ends with an empty queue in a steady state |
| `Drain.DrainedKeepsInv` | src/engine.rs:287-417 | well-formed configurations in a clean environment meet what quiescence needs, and it keeps their full invariant |
| `Drain.RunsDrain` | src/engine.rs:287-417 | with acyclic scenes every state of every run drains if the limit is 0 or the adapters answer with the engine's own timers finitely often |
| `Drain.EventuallyHonestDrains` | src/engine.rs:287-417 | with acyclic scenes a script that is honest from some dispatch on drains from every state with sane wait tables, layered queue or not |
| `Drain.HonestyLeavesScenes` | src/engine.rs:519-527 | under any limit, all states with sane wait tables and all scripts that forge finitely often drain iff no scene reaches itself |
| `Drain.CyclicSceneNeverDrains` | src/engine.rs:519-527 | asking for a scene that reaches itself, the loop comes to rest at no limit and among no adapters |
| `Drain.ZeroLimitDrains` | src/engine.rs:288-293 | at limit 0 and with acyclic scenes every state drains, whatever adapters forge |
| `Drain.ForgedTimersNeverDrain` | src/engine.rs:300-305 | at every other limit one forging adapter keeps the loop busy for any number of iterations after a single request, in a configuration without rules, whatever its scenes |
| `Drain.DepthLimitSufficesIff` | src/engine.rs:194-198 | with given scenes and a given limit all adapter scripts drain in all configurations and states iff the limit is 0 and no scene reaches itself |
| `Retries.GivingUpIsAnnounced` | src/engine.rs:686-741 | an accepted dispatch puts the adapter's own events on the bus, a refusal or a transient failure of the last attempt allowed exactly one `CommandFailed` with the command, the reason and the attempt number, an earlier transient failure nothing |
| `GiveUps.GiveUpsAreAnnounced` | src/engine.rs:729-741 | on every run, `CommandFailed` events heard plus those queued are exactly the attempts given up on, if adapters and host make none of their own |
| `Retries.DistinctKeysPairwise` | src/engine.rs:708-727 | no two attempts leave the same retry key or are reached through the same one |
| `RetryRuns.RunsKeepBooks` | src/engine.rs:686-741 | on every run, chains started = successes + give-ups + pending retries; each attempt is numbered within the policy and linked to exactly one predecessor, whose command it re-issues (as stored, or resolved against some store), not before its backoff has passed |
| `RetryRuns.RunsStayPunctual` | src/engine.rs:216-220 | a host that never sleeps longer than asked never oversleeps a deadline |
| `RetryRuns.TimersElapseOnTime` | src/adapters/scheduler.rs:30-55 | under such a host every timer elapses on the tick where now equals its deadline, and a shorter sleep elapses none |
| `RetryTiming.BackoffIs` | src/engine.rs:63-69 | the backoff after attempt n is base * 2^min(n-1, 15), at most 2^64 - 1 |
| `RetryTiming.BackoffMonotoneAndCapped` | src/engine.rs:63-69 | backoff never shrinks and is capped at base * 2^15 |
| `RetryTiming.DoublingSchedule` | src/engine.rs:63-69 | attempt n of the first seventeen comes base * (2^(n-1) - 1) after the first |
| `RetryTiming.CappedSchedule` | src/engine.rs:63-69 | every later attempt adds base * 2^15 |
| `RetryTiming.AttemptsAreSpaced` | src/engine.rs:708-727 | on every run an attempt stands at the end of a chain that re-issues one command to one device, its backoffs after the first attempt at the earliest, and exactly then under a punctual host |
| `RetryTiming.ChainsEnd` | src/engine.rs:686-706 | a chain has at most max(1, max_attempts) attempts, and with no retry pending every attempt succeeded, was given up on, or was followed by a re-issue of its command |
| `RetryTiming.ChainsRunOut` | src/engine.rs:686-706 | with no retry pending every command's chain has ended with a success, a refusal or attempt max(1, max_attempts), every attempt before having failed transiently; so one that always fails transiently is tried exactly that often |
| `RetryCommands.RetryCarriesCommandIff` | src/engine.rs:510-513 | on every run a retry carries the command of the attempt it follows iff that is absolute or still unresolved at the store of that moment |
| `RetryCommands.RetriedToggleChanges` | src/engine.rs:652-659 | a run on which the second attempt of a toggle is an absolute switch command |
| `Sustained.FiringWasSustained` | src/engine.rs:464-485 | when a `for: d` rule dispatches, an arming edge lies at least d back (exactly d under a punctual host) and the predicate held in the store in every state in between |
| `Sustained.SustainedFires` | src/engine.rs:366-411 | if the predicate holds from the arming edge until an advance has reached its end and the loop is at rest, the rule has dispatched |
| `Sustained.FiresAtMostOnce` | src/engine.rs:423-458 | a wait's key fires at most once, for one rule |
| `Sustained.WaitHistory` | src/engine.rs:423-458 | every pending wait goes back to one arming step, under the same key ever since, its timer due at that step plus the duration |
| `Dangling.UnscheduledTimerNeverMatches` | src/engine.rs:530-540 | a `timer: k` trigger matches on no run if no configured command schedules k |
| `Mirror.RefanRestoresIff` | src/engine.rs:333-348 | re-fanning restores a mirror cell iff the store knows the capability, or there was nothing to restore |
| `Mirror.RunsReplay` | src/engine.rs:489-494 | on every run of every configuration the store is the replay of the processed reports |
| `Mirror.RunsStayCovered` | src/engine.rs:489-506 | on every run of every configuration a known capability reads the same in store and mirror, or a request that restores it is still waiting |
| `Mirror.MirrorAgreesAtRestIff` | src/engine.rs:327-348 | on every run, at rest, a mirror cell shows the newest report (or nothing where there is none) iff the capability was reported or no consumer ever wrote it |
| `Mirror.SyncShowsReports` | src/engine.rs:240-254 | after a sync every capability ever reported shows its newest report, even with a consumer's write still waiting, and the others are left alone |
| `Mirror.MirrorIsStore` | src/adapters/rest_api/mod.rs:138-143 | while no consumer writes, the mirror is the store at every loop head |
| `Mirror.UnknownWriteSticks` | src/engine.rs:333-348 | a write to a capability never reported, refused by the device or by the lack of an adapter, stays in the mirror |
| `Engine.Engine.DispatchAt` | src/engine.rs:510-559 | resolves, expands scenes recursively, routes timers to the scheduler and devices to their adapter; ends because no scene can be entered again |
| `Engine.Engine.HandleOutcome` | src/engine.rs:686-706 | enqueues the adapter's events one hop deeper, schedules a retry or gives up |
| `Engine.Engine.ScheduleRetry` | src/engine.rs:708-727 | a fresh key, the next attempt number, due after the backoff |
| `Engine.Engine.ArmForTimer` | src/engine.rs:423-434 | a fresh key for the rule, due after the duration, any earlier timer cancelled |
| `Engine.Engine.CancelRevertedForTimers` | src/engine.rs:439-458 | drops exactly the waits whose predicate is false and their timers, in any map order |
| `Engine.Engine.FireElapsedFor` | src/engine.rs:464-485 | clears the wait and runs its rule, whichever way the map is searched |
| `Engine.Engine.ReactTo` | src/engine.rs:350-416 | folds, cancels, matches every rule, arms the sustained ones, then dispatches the others in order |
| `Engine.Engine.Drain` | src/engine.rs:287-417 | among honest adapters the loop ends, in the state the model's quiescence function gives |
| `Engine.Engine.SyncNorthbound` | src/engine.rs:240-254 | after start the mirror holds the whole store, in any map order |
| `Engine.Engine.NextWakeDelay` | src/engine.rs:216-220 | the smallest delay any adapter asks for |
| `Engine.Engine.Serve` | src/engine.rs:225-268 | any sequence of host calls leads where the model's function of the old state says |
| `Engine.ServedRuns` | src/engine.rs:225-268 | every state an engine reaches through host calls is the end of a run, a clean one if the calls are clean, so what is proved of runs holds of it |
| `Engine.ReplayTwice` | src/lib.rs:32-34 | two engines with the same wiring, adapter answers and host calls end in the same state, trace of dispatches included |
| `Stream.MailboxHoldsNewest` | src/adapters/rest_api/stream.rs:158-180 | the bounded mailbox holds exactly the newest 256 frames pushed, and is flagged iff more were |
| `Stream.BatchesAreNewest` | src/adapters/rest_api/stream.rs:224-242 | for any interleaving of pushes and drains each batch is the newest min(n, 256) of the n frames since the previous one, flagged iff n > 256 |
| `Stream.UnflaggedBatchesAreHistory` | src/adapters/rest_api/stream.rs:224-242 | unflagged batches concatenate to the history since subscribing |
| `Stream.Broadcaster.Subscribe` | src/adapters/rest_api/stream.rs:136-153 | a new id, an empty mailbox, a history that starts now; nobody else is touched |
| `Stream.Broadcaster.Broadcast` | src/adapters/rest_api/stream.rs:158-180 | every attached subscriber is owed one frame more |
| `Stream.Broadcaster.NextBatch` | src/adapters/rest_api/stream.rs:224-257 | one subscriber is given what it is owed and nobody else is touched; done after shutdown or removal |
| `Stream.Broadcaster.Remove` | src/adapters/rest_api/stream.rs:193-199 | detaches exactly that subscriber, idempotently |
| `Snapshot.ClientAgreesIff` | src/adapters/rest_api/http.rs:500-526 | with everything delivered and no `lagged` seen, the client's view of a declared cell is the mirror's iff the cell was not missed |
| `Snapshot.WindowIsInterleaving` | src/engine.rs:501-506 | a read falls into the window iff the subscription and the read both lie between one report's broadcast and its mirror write |
| `Snapshot.UpdateCanBeMissed` | src/adapters/rest_api/mod.rs:138-143 | a run in which a client never learns of a report |
| `Snapshot.RunsAreWhole` | src/adapters/rest_api/stream.rs:158-180 | frames delivered and queued are all frames since subscribing, unless a `lagged` notice was given or is due |
| `Clock.TickSpacingIrrelevant` | src/adapters/clock.rs:137-162 | for any increasing ticks the concatenated output is every occurrence up to the last one, once, by (time, id) |
| `Clock.FiredInOrder` | src/adapters/clock.rs:137-162 | occurrences fire by time, at one instant by schedule id |
| `Clock.ClockWakeIsExact` | src/adapters/clock.rs:196-210 | sleeping less than the delay reaches no occurrence and no new minute, sleeping exactly it overshoots none |
| `Clock.PublishesAfreshIff` | src/adapters/clock.rs:178-190 | in any time zone a tick publishes the local clock modulo 1440 minutes and the sun of the moment, unless that clock stands whole days from where it stood at the last publication; then it says nothing and the old publication stands, whatever the sun has done |
| `Clock.SameMinuteIffWholeDays` | src/adapters/clock.rs:178-180 | under one offset that minute is the same iff the ticks lie whole days apart, give or take the seconds within the minute |
| `Clock.StaleSunAfterADay` | src/adapters/clock.rs:178-190 | a tick a day and part of a minute later says nothing although the sun has changed |
| `Clock.PunctualHostStaysCurrent` | src/adapters/clock.rs:196-210 | under a host that never sleeps past the next minute boundary what is published always dates from the current minute |
| `Waking.EveryTimerOnTime` | src/engine.rs:216-220 | on every run, a host bounded by the least delay of all adapters elapses timers only at the instant of their deadline, and none on a shorter advance |
| `Waking.EveryOccurrenceOnTime` | src/engine.rs:216-220 | on the same host the clock fires every occurrence at its instant and skips no minute, and has nothing to say after a shorter advance |
| `CronRuns.TickSays` | src/adapters/clock.rs:172-194 | the occurrences among what the clock's tick returns are exactly what it fires, in order |
| `CronRuns.EveryOccurrenceHeard` | src/adapters/clock.rs:137-162 | on every run, however the host spaces its calls, the occurrences processed, followed by those still queued, are every occurrence since the clock's first tick, once, by time and then schedule; the depth limit drops none |
| `CronRuns.OccurrencesHeardOnTime` | src/engine.rs:216-220 | on every run whose host never sleeps longer than asked, every occurrence in the queue is due at that very instant |
| `Clock.ClockAdapter.FireDueSchedules` | src/adapters/clock.rs:137-162 | fires exactly the occurrences since the last tick, in order; the first tick only arms |
| `Clock.ClockAdapter.Tick` | src/adapters/clock.rs:172-194 | time of day and sun when the minute of the day is not the last published one, then the schedules |
| `Clock.ClockAdapter.NextWake` | src/adapters/clock.rs:196-210 | the next minute boundary or the soonest occurrence; right after a tick every cached occurrence is the next one |
| `RawConfig.ConditionMeaningUnique` | src/compile/lower.rs:381-463 | a condition node means at most one condition |
| `RawConfig.MeaningIsSound` | src/compile/lower.rs:381-463 | what a condition node means reads only capabilities its devices declare, in their shape |
| `Meaning.NamesRoundTrip` | src/model.rs:94-140 | names and capabilities correspond one to one; the clock's own cannot be named |
| `Meaning.TriggerPreserved` | src/compile/lower.rs:246-353 | a compiled trigger matches an event iff its node answers it, told by the event and the reports before it: a named event, a report that turns to the value, one that passes the threshold where the one before did not, any report of the capability, a timer, a schedule, a failure |
| `Meaning.ConditionPreserved` | src/compile/lower.rs:381-463 | with everything it asks about reported, a compiled condition evaluates to what its node says of the newest reports: `<` `<=` `==` `!=` `>=` `>` as integer relations, `time_after` at or past the minute, `time_before` before it |
| `Meaning.PartialVerdictPreserved` | src/rule.rs:227-252 | with reports missing, a definite verdict is what the node says whatever the missing capabilities may have been |
| `Meaning.CommandPreserved` | src/compile/lower.rs:493-650 | a compiled command reaches its adapter as what its node asks for, steps and toggles counted from the newest report |
| `MeaningExists.TriggerMeansIff` | src/compile/lower.rs:246-353 | a trigger node means something iff it has the payload its verb takes, and names things that exist and capabilities of the right shape that the device declares |
| `MeaningExists.ConditionMeansIff` | src/compile/lower.rs:381-485 | likewise a condition node, part by part |
| `MeaningExists.CommandMeansIff` | src/compile/lower.rs:493-650 | likewise a command node |
| `Acceptance.EnvExistsIff` | src/compile/resolve.rs:206-320 | the devices resolve iff each names a declared adapter and capabilities a configuration may name |
| `Acceptance.AcceptedIff` | src/compile/resolve.rs:206-524 | a configuration whose devices resolve is accepted iff its adapters are known, its exposures declared, every scene, guard, trigger and command node fits, every `for:` is valid and on an edge, and no check reports an error |
| `Lower.Lowerer.Trigger` | src/compile/lower.rs:246-353 | reports no error iff the node means a trigger, and then returns that trigger |
| `Lower.Lowerer.Condition` | src/compile/lower.rs:381-463 | reports no error iff the node means a condition, and then returns that condition |
| `Lower.Lowerer.ConditionList` | src/compile/lower.rs:467-485 | lowers every item; fails iff one means nothing |
| `Lower.Lowerer.Commands` | src/compile/lower.rs:489-491 | with no error the list has one command per node, the one it means; with an error some node means none |
| `Lower.Lowerer.ForDuration` | src/compile/lower.rs:655-670 | accepted iff the trigger is an edge trigger and the duration is valid |
| `Resolve.CompiledUnique` | src/compile/resolve.rs:206-524 | a configuration compiles to one thing at most |
| `Resolve.ActionsDistinct` | src/compile/resolve.rs:236-320 | no two declared events share an action, within a device or across devices |
| `Resolve.ResolveDevices` | src/compile/resolve.rs:236-320 | without errors every device keeps its place, adapter, capabilities and consecutively numbered events |
| `Resolve.LowerRule` | src/compile/resolve.rs:376-399 | no error iff trigger, guard, commands and duration all mean something; then the rule is exactly that, with its place as id |
| `Resolve.LintTimers` | src/compile/resolve.rs:491-496 | one warning per key that is mentioned and never scheduled |
| `Resolve.Resolve` | src/compile/resolve.rs:206-524 | accepted iff the configuration means something; what is handed out is exactly what it means, nothing dropped, and the timer lints are exact |
| `Deploy.AcceptedRulesSound` | src/compile/resolve.rs:354-401 | every accepted rule reads and writes declared capabilities of existing devices and names existing scenes and schedules |
| `Behaviour.RuleAnswersAsWritten` | src/engine.rs:393-402 | an accepted rule answers an event only if its `when` node does and its guard holds whatever the unreported capabilities may be; with those reported, exactly then |
| `Behaviour.RunsAnswerAsWritten` | src/engine.rs:393-402 | on every run the event at the head of the queue is answered by exactly the accepted rules written to answer it |
| `Behaviour.CommandsAskAsWritten` | src/engine.rs:652-684 | each command of an accepted rule reaches its adapter as what its node asks for |
| `Behaviour.ScenesAskAsWritten` | src/compile/resolve.rs:368-376 | so does each command of an accepted scene |
| `Behaviour.RulesWaitAsWritten` | src/compile/lower.rs:655-670 | an accepted rule waits iff it says `for:`, as long as the text says |
| `Deploy.CommandsBoundIff` | src/compile/mod.rs:176-217 | a command that an accepted rule comes down to, directly or through scenes, finds an adapter iff its device is not on a northbound one |
| `Deploy.PolarityIrrelevant` | src/compile/resolve.rs:209-260 | two configurations that differ only in the direction of their adapters compile to the same thing or not at all |
| `Deploy.AcceptedIsWellFormedIff` | src/compile/resolve.rs:376-399 | acceptance gives distinct rule ids and `for:` on edge triggers only; the rest of what the wait theorems need holds iff no scene reaches itself and no user timer uses a reserved prefix |
| `Deploy.WarnedIffUnscheduled` | src/compile/resolve.rs:491-496 | a rule on `timer: k` is warned about iff nothing schedules k |
| `Deploy.WarnedRuleIsDead` | src/compile/resolve.rs:491-496 | a warned rule's trigger matches on no run |
| `Deploy.AcceptedTriggerMatchesIff` | src/compile/lower.rs:265-312 | the trigger of an accepted rule matches some event iff it does not watch a write-only capability and its threshold lies within the readings of the capability |
| `Deploy.DeadTriggerAccepted` | src/compile/lower.rs:307-312 | a rule waiting for reports of `ir_transmitter` is accepted and matches no event |
| `Deploy.CyclicSceneAccepted` | src/compile/resolve.rs:368-376 | a self-activating scene is accepted |
| `Deploy.ReservedKeyAccepted` | src/compile/lower.rs:611-624 | a user timer inside a reserved prefix is accepted |
| `Deploy.NorthboundDeviceAccepted` | src/compile/mod.rs:213-216 | a device on a northbound adapter is accepted and bound to nothing |

## Left out

- Drain.RunsDrain: which single scripts that forge forever happen to drain at a limit above 0 depends on the whole script and is not characterised; that all of them drain iff the limit is 0 and no scene reaches itself is (`Drain.DepthLimitSufficesIff`).
- CronRuns.EveryOccurrenceHeard: that no host and no other adapter claims a time is reached is assumed.
- Deploy.NorthboundDeviceAccepted: the model leaves such a device unbound, so that its commands fail for want of an adapter; the program looks them up under an index no adapter has.
- Snapshot.ClientAgreesIff: takes one connection; several connections have separate mailboxes and do not interact.
- Stream.Broadcaster.NextBatch: drains without waiting; the condition variable, its timeout and the keepalive are not modelled.
- Stream.Broadcaster.Subscribe: ids are unbounded, so the wrap-around after 2^64 subscriptions is not modelled.
- Stream.Broadcaster.Broadcast: the separately stored subscriber count and the stream budget are not modelled; the count is stored after the lock is released and is no invariant.
- Scheduler.SchedulerAdapter.Dispatch: `now + after` and the key counters are unbounded, so overflow of 64-bit time is not modelled.
- Clock.ClockAdapter.Tick: cron parsing, time-zone rules and the solar ephemeris with its per-day cache are an exact next-occurrence function, a minute offset and an arbitrary predicate.
- Lower.Lowerer.Condition: YAML decoding and merge keys are taken as done; a payload either decodes as its record or does not. Durations, times and colours are arbitrary text syntaxes.
- Lower.Lowerer.Trigger: diagnostic texts are not modelled, codes and contexts are.
- Resolve.Resolve: what plugins report about their own configuration, and the system section's checks, are arbitrary lists of diagnostics; the warnings about unused adapters, scenes and schedules, inert devices and empty exposures are not modelled.
- Engine.Engine.SyncNorthbound: all northbound mirrors receive the same calls and are modelled as one.
- Engine.Engine.AdapterDispatch: a device adapter is the script of its answers; protocol translation, transports, reconnects and wakers are not modelled.
- Observers are the log of dispatch attempts and of processed events; trace formatting and the health check are not modelled.
- HTTP routing, authentication, JSON shapes and SSE text encoding are not modelled.

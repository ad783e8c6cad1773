# Lasterm verification model

Lasterm is a terminal platform: a hub (TypeScript) owns a state directory and talks to
PTY agents (Rust) over framed MessagePack. This project models the parts of the hub, the
agent and their shared library whose correctness spans several functions or processes,
and proves what they are for. `dafny verify dfyconfig.toml` checks everything.

| module | what it models | main results |
|---|---|---|
| `AgentStop` | `lasterm-agent --stop` beside processes that spawn, exec, exit, are reaped and reuse pids between any two system calls | the signal reaches only the recorded incarnation; exactly when each outcome is reported, and when `Stopped` is true |
| `HubLifecycle` | any number of hub processes, with crashes, over one lock and one record file | one owner; only the owner has resources; hubs remove only their own record, and do remove it; what a confirmed quit means |
| `QuitObserver` | `waitForHubQuit` in another process | the verdict, the rounds and the time spent, exactly, in every world; a bad record always fails, a hub gone in time is always confirmed |
| `Shutdown` | the quit lifecycle and its teardown, for every order of event-loop turns | one teardown, in order; exact exit status; the response precedes the close |
| `OutputBatching` | PTY readers, DSR stripping, the batch loop | per-channel conservation, exactly what each input sends, increasing numbers; exactly when a query survives stripping |
| `OutputRouter` | the active connection slot and the bounded frame queue | slot = latest connection; exactly which frames are lost; order |
| `OutputPipeline` | readers, batch loop and router connected, under every order of turns | where any turns leave every byte a channel's reads strip to; every merge and history comes from some turns |
| `PtyTeardown` | the terminal manager and its shutdown sweep | every channel accounted for once; exact exit status; the registry by its history; no spawn after shutdown began |
| `Framing` | both frame encoders and both incremental readers | chunking does not matter; round trips; where the two sides differ |
| `CaseCodec` | camel/snake conversion of message trees | the exact set of trees that survive the round trip |
| `CivilDate` | `days_to_ymd` and the fields of `iso_now` | it counts calendar days; inverse both ways; no overflow |
| `JsObjects` | objects with own entries and a prototype, and what assigning to `__proto__` does | |
| `ConfigCascade` | `deepMerge`, `resolve`, `getCascade` | exactly when a prefix of the layers can be merged first; the cascade recombines; when repeating a layer is harmless |
| `VarExpansion` | both `${VAR}` expanders | render after an environment-independent split; the exact inputs on which the two agree |
| `FetchQueue` | the two-slot agent download queue | order, bound, conservation, no idle slot; when a request may register, when one job per target holds |
| `RuntimeRecord`, `Prelude` | `runtime.json` and shared types | |

Protocols are transition systems whose main results quantify over every run (every list of
states linked by enabled steps, or every list of inputs). Stateful code is a class whose
methods are tied to a step function, and the step function's runs carry the theorems.

## How the environment is modelled

- `AgentStop`: every system call of the stopper is one step. A pidfd and an open `/proc` directory name one
  incarnation forever; a pid names whoever holds it. A pidfd is ready when all threads have ended; the executable
  can be read while the first thread runs. The canonical form of a path does not change during one stop.
- `HubLifecycle`: the kernel grants the lock when it is free and takes it back when the process
  ends, in one step together with its sockets and databases. Fresh instance ids are new. `deleteRuntime`'s
  read and removal are separate steps and may each fail. Record cleanup by CLI commands, which hold no lock,
  is one atomic environment step that needs a record whose pid is dead.
- `Shutdown`: an event-loop turn is atomic, and the continuation of a settled promise belongs to the turn that settled it.
- `QuitObserver`: the world may change at every observation; a sleep may take any longer than asked, and an observation any time.
- `Framing`: the MessagePack decoder is a parameter, any partial function.
- `PtyTeardown`: what `kill_tree` and a confirmation answer is a parameter.
- `ConfigCascade`: a merge source is the list of its own enumerable entries, `__proto__` being an ordinary key there;
  stored profiles are fields of the resolver.
- `OutputRouter`: a frame is the batch it carries.
- `VarExpansion`: an environment is a map of strings; the hub reads it as a JavaScript object, with the names
  inherited from `Object.prototype`. Strings are sequences of characters, where the agent walks
  UTF-8 bytes (every byte it compares with is ASCII).

## Properties that hold only under a condition

- `strip_dsr` can leave a query that removal joined from pieces (`StrippingCanLeaveAQuery`), and a query split
  between two reads passes whole (`SplitQueryIsSent`). `QueryIsLeftIffJoined` and `QueryIsSentIffJoined` say
  exactly when one is left, in one read and over all reads.
- The agent's frame encoder narrows the length to 32 bits before comparing it
  (crates/lasterm-agent/src/framing.rs:11-12); `RustRoundTripIsExact` gives the exact condition, `FourGiBPayloadIsCut` an input.
- On a payload that does not decode, the agent's reader goes on and the hub's throws on it
  again at every push (`UndecodableFrameStays`).
- The agent's expander collapses every pair of backslashes and accepts any name up to the brace, while the hub's
  touches only identifier references, and the hub's lookup also finds what every JavaScript object inherits:
  `${toString}` stays in the agent and becomes the text of a function in the hub (`InheritedNameDiffers`).
  `ExpandersAgreeExactly` gives the exact inputs on which both agree in every environment.
- The camel/snake round trip loses keys with an underscore before a lowercase letter and the key `_Proto__`, whose
  wire form `__proto__` an assignment does not store; `TreeRoundTrip` is exact.
- `Stopped` can be reported while other threads of the daemon still run, after its first thread has exited
  (`StoppedCanBeEarly`); `StoppedIsTrue` says by the history of the run exactly when the whole process has ended,
  and that it has whenever the poll or the status read gave the answer.
- `deepMerge` assigns to its result, so a `__proto__` entry, which stored profiles can hold, gives the result a
  prototype with whose entries later layers are merged. With the host `{__proto__: {x: {p: 1}}}` and the channel
  `{x: {q: 2}}` one merge gives `x` both entries and `resolve` only `q` (`MergingTheHostFirstLosesAnEntry`,
  `ResolvingLosesAnEntry`). `PrefixCanBeMergedFirst` is the exact condition for the own entries and
  `PrefixIsInvisible` for the whole object, both computable before the call; `resolve` and `getCascade` are stated under it.
- `deepMerge` is not idempotent (`HiddenNullActsOnRepeat`); `RepeatingALayer` says exactly when applying a layer
  twice is applying it once.
- A hub that ends in order leaves its record behind when it could not be read or removed
  (`FailedRemovalLeavesRecord`); otherwise it never does (`ExitLeavesNoRecord`), and `RecordIsItsHistory` says
  exactly when the record is a hub's own.
- A download that completes hides another one of its target that still runs, so a later request misses it
  (`TwinIsMissed`); `MissedJobHadATwin` says exactly when a lookup misses an unfinished job.
- Two overlapping requests for one download target get two jobs (`TwoRequestsTwoJobs`); over whole runs one
  unfinished job per target is equivalent to every lookup still holding at registration (`OneJobPerTargetNeedsFreshLookup`).

## Model

| member | source | states |
|---|---|---|
| AgentStop.SignalOnlyReachesRecordedIncarnation | crates/lasterm-agent/src/identity.rs:451-491 | in every run, at most one signal is sent, and its target holds the recorded pid, has the recorded creation time and ran the recorded executable at or after the step of the run that opened its pidfd |
| AgentStop.SignalOnlyReachesPublisher | crates/lasterm-agent/src/identity.rs:391-402 | if creation times tell incarnations of a pid apart, the signal reaches nobody but the daemon that published the record |
| AgentStop.ReportedOutcomeIsTrue | crates/lasterm-agent/src/identity.rs:430-481 | still-running means that exactly the described incarnation was signalled; no record means no signal |
| AgentStop.GivesUpAtBound | crates/lasterm-agent/src/identity.rs:469-483 | at a deadline check still-running is reported iff the wait bound has passed since the step that delivered the signal; before that the same process is polled again |
| AgentStop.StillRunningIsLate | crates/lasterm-agent/src/identity.rs:469-483 | whenever still-running is reported, its check came at least the wait bound after the delivery |
| AgentStop.StatusIsExplained | crates/lasterm-agent/src/identity.rs:456-483 | by the run: a status call reports stopped iff the process is found gone after a signal was tried, a mismatch iff it is found gone before or the details differ from the record, an error iff they match after a failed signal; a match leads to the signal before one was sent and to the deadline check after one was delivered |
| AgentStop.OtherReports | crates/lasterm-agent/src/identity.rs:430-455 | no record iff there is none; a mismatch iff the record is malformed, for another socket or format, or nobody holds the pid; an error iff it is unreadable or a call fails; after the signal, whether delivered or not, the process is polled |
| AgentStop.StoppedIsTrue | crates/lasterm-agent/src/identity.rs:462-481 | `Stopped` names a described process whose first thread was gone at the moment of the report, and nobody else was signalled; the whole process had ended, for good, when the poll or the status read answered, and in general iff the run holds no exit of its first thread alone without a later exec or exit |
| AgentStop.LeaderGoneIffLost | crates/lasterm-agent/src/identity.rs:596-616 | at every moment of every run, a process runs without its first thread iff that thread exited by itself before (or was gone at the start) and the process has neither ended nor executed a program since |
| AgentStop.StoppedCanBeEarly | crates/lasterm-agent/src/identity.rs:612-616 | a run in which the first thread exits before the others and `Stopped` is reported while the daemon is alive |
| AgentStop.EndedStaysEnded | crates/lasterm-agent/src/identity.rs:471-480 | an ended process never runs again |
| AgentStop.StopCanSucceed | crates/lasterm-agent/src/identity.rs:451-481 | from every initial state with a live daemon that the record describes there is a run that signals it and reports `Stopped` after its end |
| AgentStop.PidfdWasOpened | crates/lasterm-agent/src/identity.rs:530-550 | whatever pidfd is in use was opened by a step of the run, with the number of images its process had then |
| AgentStop.InvIsInductive | crates/lasterm-agent/src/identity.rs:529-664 | every step of stopper and environment keeps the link between pidfd, proc directory and record |
| AgentStop.InvHolds | crates/lasterm-agent/src/identity.rs:451-491 | the invariant holds at every moment of every run |
| AgentStop.OpenStepKeepsPcOk | crates/lasterm-agent/src/identity.rs:530-550 | if the pid moves between the two opens, the pidfd's incarnation is already reaped |
| AgentStop.PidHolderIsUnique | crates/lasterm-agent/src/identity.rs:530-550 | at any moment one unreaped incarnation holds a pid |
| AgentStop.StatusStepKeepsPcOk | crates/lasterm-agent/src/identity.rs:596-622 | a live poll fixes the proc directory to the pidfd's incarnation, so the reads after it describe the process that will be signalled |
| AgentStop.MatchDescribes | crates/lasterm-agent/src/identity.rs:391-416 | details read through that directory that match the record describe the pidfd's incarnation |
| QuitObserver.WaitForHubQuit | packages/hub/src/cli.ts:1050-1110 | the course of the watch in every world: each round before the last decides nothing and ends before the timeout; the last one's answer is the verdict, or there is none, the timeout has passed and the verdict is not confirmed; observations and time spent are those of the rounds and the sleeps between them; success iff the last round saw record absent, pid dead, record absent; the timeout is overrun by at most one sleep and one round |
| QuitObserver.CourseIsUnique | packages/hub/src/cli.ts:1066-1109 | world and timeout determine the number of rounds and the verdict |
| QuitObserver.BadRecordFails | packages/hub/src/cli.ts:1067-1099 | the verdict is a failure of the record iff some record read in any round is unreadable or a replacement's, and then it is named after the last record read |
| QuitObserver.VerdictIsWhatWasRead | packages/hub/src/cli.ts:1067-1108 | the verdict in record fields: replaced iff the record last read names another instance, unreadable iff it cannot be read, confirmed iff it is absent a second time with the pid dead in between, not confirmed iff it is legacy, the target's own, or absent with the pid alive, and the timeout has passed |
| QuitObserver.OwnRecordIsPolled | packages/hub/src/cli.ts:1073-1109 | a round that finds a legacy record, the target's own, or none with the pid alive never ends the watch before the timeout |
| QuitObserver.GoneHubIsConfirmed | packages/hub/src/cli.ts:1080-1109 | if from some observation on the record is absent and the pid dead, a last round that begins after it confirms; giving up means that the last round began before |
| QuitObserver.RoundsAreBounded | packages/hub/src/cli.ts:1101-1108 | whatever the world does, the timeout bounds the number of rounds |
| HubLifecycle.AtMostOneOwner | packages/hub/src/hub-lock.ts:63-83 | at every moment of every run at most one process is between lock acquisition and its end |
| HubLifecycle.AcquireIsExact | packages/hub/src/hub-lock.ts:67-77 | an acquisition succeeds iff no live process owns the lock, so a crashed or exited hub never leaves it stale |
| HubLifecycle.OnlyOwnerIsActive | packages/hub/src/hub-startup.ts:85-196 | databases, a listening server, a publication, a teardown or a removal in progress belong to that process alone |
| HubLifecycle.HubsOnlyRemoveTheirOwnRecord | packages/hub/src/cli.ts:105-155 | a hub step changes the record only by publishing its own or by removing exactly its own, although read and removal are separate |
| HubLifecycle.RecordIsItsHistory | packages/hub/src/cli.ts:105-155 | the record is a hub's own iff this hub has published it and nobody has removed, cleaned up or replaced it since |
| HubLifecycle.ExitLeavesNoRecord | packages/hub/src/shutdown.ts:166-206 | a hub that ends in order, after a shutdown, a forced one or a failed startup, leaves no record of its own unless the record was unreadable or its last removal failed |
| HubLifecycle.FailedRemovalLeavesRecord | packages/hub/src/shutdown.ts:197-206 | a run in which removing fails on the forced path and the record outlives the hub |
| HubLifecycle.InstancesAreDistinct | packages/hub/src/cli.ts:137-146 | the records of two hubs of a run never match |
| HubLifecycle.GracefulWithdrawalIsLast | packages/hub/src/shutdown.ts:166-179 | the undisturbed shutdown withdraws the record only with socket and databases closed |
| HubLifecycle.FailedStartupUnwindsInOrder | packages/hub/src/hub-startup.ts:168-195 | a failed startup withdraws its record only after trying to close the server and then the databases; what is still open then refused to close |
| HubLifecycle.UpHubServes | packages/hub/src/hub-startup.ts:85-150 | a hub that is up and not shutting down owns the lock, has databases and server open, and its record is there |
| HubLifecycle.HubCanServeAndStop | packages/hub/src/hub-startup.ts:85-167 | from every free state directory there is a run that starts, is up with its record published, and shuts down with record and lock gone |
| HubLifecycle.HubsComeToAnEnd | packages/hub/src/shutdown.ts:156-210 | every step of a hub brings its end nearer and a live hub can always take one that is no crash, so it takes at most 33 |
| HubLifecycle.UpHubsAreVisible | packages/hub/src/hub-startup.ts:139-147 | in every run, CLI cleanup included, the record of a hub that is up is the published one |
| HubLifecycle.UpExcludesRecordSteps | packages/hub/src/cli.ts:148-155 | while a hub is up no step of any process, CLI cleanup included, changes the record |
| HubLifecycle.ConfirmedQuit | packages/hub/src/cli.ts:1045-1110 | the three observations of a confirmed quit, at any moments of a run in this order, imply that the target has ended for good, holds nothing, and that no hub is up |
| HubLifecycle.EndedStaysEnded | packages/hub/src/cli.ts:1080-1099 | an ended hub process never acts again |
| HubLifecycle.InvIsInductive | packages/hub/src/hub-startup.ts:85-196 | every step of every process keeps the ownership invariant |
| HubLifecycle.InvHolds | packages/hub/src/hub-startup.ts:85-196 | the invariant holds at every moment of every run |
| HubLifecycle.OthersKeepOk | crates/lasterm-process-lock/src/lib.rs:22-29 | a step of one hub never disturbs another, because publication needs the lock |
| Shutdown.SingleOrderedTeardown | packages/hub/src/shutdown.ts:149-210 | whatever the turns, at most one teardown starts and it runs one of five courses: server, databases, removal in order, always a removal attempt before the one exit |
| Shutdown.TeardownStepsInOrder | packages/hub/src/shutdown.ts:166-206 | by position in the log: server close before database close before record removal before exit, and no teardown event repeats except a retried removal |
| Shutdown.ExitComesLast | packages/hub/src/shutdown.ts:156-210 | nothing at all follows an exit, so there is one, and a removal attempt precedes it |
| Shutdown.ExitStatusIsHonest | packages/hub/src/shutdown.ts:156-210 | any exit follows a removal attempt; exit 0 means that no phase failed and no timeout fired |
| Shutdown.CloseDecidesExit | packages/hub/src/shutdown.ts:156-210 | for every close turn that ends a teardown: exit 0 iff server, databases and removal succeeded and a quit that came before had its agent stop confirmed, else exit 1; and exactly which phases are reported with which results |
| Shutdown.TimerDecidesExit | packages/hub/src/shutdown.ts:181-206 | a timeout ends it with exit 1 after one removal attempt, whatever the phases were |
| Shutdown.QuitResponseComesFirst | packages/hub/src/shutdown.ts:48-132 | a quit begun before the teardown delays the server close until the agent stop settled and a delivery fired; exit 0 then means the stop was confirmed |
| Shutdown.DeliveredQuitTearsDown | packages/hub/src/shutdown.ts:112-121 | conversely, a settled stop and a delivery after the quit began have started the teardown |
| Shutdown.NothingBeforeStartup | packages/hub/src/hub-startup.ts:122-125 | before startup completed no request begins a quit or a teardown |
| Shutdown.ShutdownRequestIsHonoured | packages/hub/src/shutdown.ts:123-131 | after startup a stop request or signal has started the teardown, unless a quit has begun |
| Shutdown.QuitRequestIsHonoured | packages/hub/src/shutdown.ts:48-110 | after startup a quit request whose session does not refuse has begun the quit, and a stopper that throws settles it as failed |
| Shutdown.StopperDecides | packages/hub/src/shutdown.ts:95-110 | the stop of a begun quit settles as its stopper does, once |
| Shutdown.DeliveryRetriesTheQuit | packages/hub/src/shutdown.ts:112-121 | a quit that the session refused is begun by the delivery |
| Shutdown.LogIsAskedFor | packages/hub/src/shutdown.ts:48-132 | conversely, nothing begins, settles or is delivered without a turn that asks for it |
| Shutdown.TeardownAlwaysExits | packages/hub/src/shutdown.ts:156-210 | a started teardown is complete as soon as the close settles or the timer fires |
| Shutdown.StepKeepsInv | packages/hub/src/shutdown.ts:48-210 | every turn keeps the relation between promises, log and teardown |
| Shutdown.InvHolds | packages/hub/src/shutdown.ts:48-210 | it holds after every sequence of turns |
| Shutdown.QuitLifecycle.Graceful | packages/hub/src/shutdown.ts:149-154 | starts the teardown unless one exists |
| Shutdown.QuitLifecycle.Begin | packages/hub/src/shutdown.ts:86-110 | begins the agent stop once; a session that refuses leaves nothing begun; a stopper that throws counts as a failed stop |
| Shutdown.QuitLifecycle.Quit | packages/hub/src/shutdown.ts:48-57 | creates the coordinator when startup has completed and begins the quit |
| Shutdown.QuitLifecycle.StopperSettled | packages/hub/src/shutdown.ts:95-121 | records the outcome and releases a teardown that waits for it |
| Shutdown.QuitLifecycle.Delivered | packages/hub/src/shutdown.ts:112-121 | the first delivery asks for the teardown, at once when the stop has settled |
| Shutdown.QuitLifecycle.Shutdown | packages/hub/src/shutdown.ts:123-131 | an ordinary shutdown request asks for a teardown with status 0 unless a quit has begun |
| Shutdown.QuitLifecycle.CloseSettled | packages/hub/src/shutdown.ts:156-206 | the rest of the teardown after the close settled, with its three failure branches |
| Shutdown.QuitLifecycle.TimerFired | packages/hub/src/shutdown.ts:181-206 | the timeout removes the record and exits with 1 |
| Shutdown.Drive | packages/hub/src/shutdown.ts:48-210 | the object driven by any sequence of turns produces the log the theorems speak of |
| OutputBatching.StripDsr | crates/lasterm-agent/src/handler.rs:942-958 | the result is the input without exactly the bytes covered by some occurrence of the query |
| OutputBatching.ContainsDsr | crates/lasterm-agent/src/handler.rs:944-946 | the fast path is taken exactly when no query occurs |
| OutputBatching.RemoveDsr | crates/lasterm-agent/src/handler.rs:947-957 | the index loop removes exactly the covered bytes |
| OutputBatching.StrippingCanLeaveAQuery | crates/lasterm-agent/src/handler.rs:942-958 | an input whose stripped form is itself a query, the witness for the condition below |
| OutputBatching.QueryIsLeftIffJoined | crates/lasterm-agent/src/handler.rs:942-958 | a query is left iff some ESC outside every query of the input is followed by `[`, `6`, `n` once the queries in between are skipped |
| OutputBatching.QueryIsSentIffJoined | crates/lasterm-agent/src/handler.rs:797-811 | over all reads of a channel a query is sent iff its bytes follow one another once the queries inside single reads are skipped |
| OutputBatching.SplitQueryIsSent | crates/lasterm-agent/src/handler.rs:797-811 | two reads that make up a query and are sent unchanged |
| OutputBatching.HandleRead | crates/lasterm-agent/src/handler.rs:797-821 | a read is numbered, stripped, and sent unless nothing is left; the reader's invariant is kept |
| OutputBatching.ReaderTask | crates/lasterm-agent/src/handler.rs:748-821 | the events' bytes are the stripped reads; numbers strictly increase; each event is one non-empty read of at most 4096 bytes |
| OutputBatching.BatchLoop | crates/lasterm-agent/src/batch.rs:31-84 | for every channel emitted bytes plus residual equal all bytes received, whatever the ticks and map order; input by input exactly what is sent: an arrival sends its channel iff 4096 bytes have gathered, a tick every channel with bytes, once; so less than 4096 bytes are ever held back and after a tick none |
| OutputBatching.FlushAll | crates/lasterm-agent/src/batch.rs:62-81 | the timer arm empties every buffer into the output, in any order of the map |
| OutputBatching.ArrivalKeepsInv | crates/lasterm-agent/src/batch.rs:42-48 | an arrival keeps conservation and alignment for every channel |
| OutputBatching.FlushKeepsInv | crates/lasterm-agent/src/batch.rs:49-57 | so does a flush, and the new batch closes exactly the reads up to its number |
| OutputBatching.BatchNumbersIncrease | crates/lasterm-agent/src/batch.rs:43-57 | the numbers of a channel's batches strictly increase |
| OutputBatching.ReceivedIsStream | crates/lasterm-agent/src/batch.rs:47-48 | the bytes numbered up to the latest event are all bytes of the channel |
| OutputBatching.MergeIsFromReaders | crates/lasterm-agent/src/handler.rs:748-821 | any merge of ticks with what reader tasks send, one per channel, meets the batch loop's input condition |
| OutputRouter.SlotIsLatestConnection | crates/lasterm-agent/src/daemon.rs:943-953 | over every run of accepts and late exits the slot is the latest accepted connection until its own handler exits |
| OutputRouter.CancelledAreDisplaced | crates/lasterm-agent/src/daemon.rs:280-297 | the cancelled connections are exactly those that were current when another was accepted |
| OutputRouter.OneLiveConnection | crates/lasterm-agent/src/daemon.rs:280-297 | a connection whose handler still runs is the active one or has been cancelled |
| OutputRouter.RouterMeetsReference | crates/lasterm-agent/src/daemon.rs:967-999 | pending is the newest 1000 of the unbounded queue, and what is handed over, and to whom, is the reference delivery |
| OutputRouter.DisconnectedStretchLosesOldest | crates/lasterm-agent/src/daemon.rs:982-995 | a stretch of n frames none of which finds a connection, whatever connects and leaves meanwhile, loses exactly its oldest max(0, n-1000); the rest arrive in order before the first frame that finds one |
| OutputRouter.StretchWaits | crates/lasterm-agent/src/daemon.rs:989-995 | frames that find no connection wait in order and nothing is handed over |
| OutputRouter.LossIsExact | crates/lasterm-agent/src/daemon.rs:974-996 | at every moment handed-over plus pending frames are all frames, in order, except exactly those that at some moment waited behind 1000 newer ones |
| OutputRouter.NothingLostWithinBound | crates/lasterm-agent/src/daemon.rs:981-996 | nothing is ever lost iff no stretch exceeds the bound, and then handed-over plus waiting frames are all frames in order |
| OutputRouter.OrderIsKept | crates/lasterm-agent/src/daemon.rs:974-996 | on every run handed-over plus pending frames are a subsequence of the frames that came |
| OutputRouter.Daemon.AcceptConnection | crates/lasterm-agent/src/daemon.rs:280-297 | takes the slot and cancels the displaced connection |
| OutputRouter.Daemon.ClearActiveIfOurs | crates/lasterm-agent/src/daemon.rs:943-953 | clears the slot only for its own connection |
| OutputRouter.Daemon.Route | crates/lasterm-agent/src/daemon.rs:974-996 | drains pending before the frame, or queues it and drops the oldest when full |
| OutputRouter.Drive | crates/lasterm-agent/src/daemon.rs:967-999 | the daemon driven by any history delivers the reference delivery |
| OutputPipeline.Run | crates/lasterm-agent/src/daemon.rs:967-999 | readers, batch loop and router composed: arrivals, ticks, connections, exits and takes are those of the turns; batches plus residual are the stripped reads as far as they have arrived; handed-over plus pending frames are the taken batches less exactly the lost ones |
| OutputPipeline.ReadAndBatch | crates/lasterm-agent/src/batch.rs:31-84 | readers and batch loop composed, in the order of the turns: per channel nothing is lost or reordered, nothing is held back beyond the next tick or 4096 bytes, no batch is empty or above 8191 bytes, numbers strictly increase |
| OutputPipeline.ConnectAndRoute | crates/lasterm-agent/src/daemon.rs:280-297 | the history is that of the turns: every batch taken is handed over, pending or lost as the reference says |
| OutputPipeline.EveryMergeIsScheduled | crates/lasterm-agent/src/batch.rs:38-82 | every merge of ticks with what the readers send is the schedule of some turns |
| OutputPipeline.EveryHistoryIsRouted | crates/lasterm-agent/src/daemon.rs:967-999 | every feasible history in which the router takes the batches in order comes from some turns |
| PtyTeardown.SweepAccounts | crates/lasterm-agent/src/pty.rs:125-149 | for every map order and every mix of outcomes, each swept channel is counted once as confirmed or unresolved, with pid and reason |
| PtyTeardown.ReasonsAreTrue | crates/lasterm-agent/src/pty.rs:125-149 | from the answers alone: a channel is resolved iff it had exited already or was signalled and seen to exit, and each unresolved reason stands for the answer that caused it |
| PtyTeardown.LogIsOrdered | crates/lasterm-agent/src/pty.rs:325-386 | all signals precede the first wait, each channel is signalled once, and exactly the signalled ones are awaited |
| PtyTeardown.ExitStatusIsExact | crates/lasterm-agent/src/daemon.rs:85-94 | status 0 iff every swept shell is confirmed gone |
| PtyTeardown.NoSpawnAfterShutdown | crates/lasterm-agent/src/pty.rs:178-219 | after shutdown began, no sequence of operations registers a terminal again |
| PtyTeardown.BeginShutdownRefuses | crates/lasterm-agent/src/pty.rs:178-219 | from `begin_shutdown` on, whatever came before and whatever follows, nothing new is registered and every spawn is refused |
| PtyTeardown.RegistryIsItsHistory | crates/lasterm-agent/src/pty.rs:205-266 | after any operations a channel is registered with a pid iff its last accepted spawn got this pid, or it was there from the start, and no removal or sweep has taken it since |
| PtyTeardown.SpawnNeverReplaces | crates/lasterm-agent/src/pty.rs:221-252 | whatever is spawned, a registered channel keeps its process until it is removed or swept, as long as generated ids are new |
| PtyTeardown.SignalAll | crates/lasterm-agent/src/pty.rs:326-361 | the first pass visits every channel once and leaves registered exactly those whose signalling failed |
| PtyTeardown.AwaitAll | crates/lasterm-agent/src/pty.rs:363-386 | the second pass records one outcome per wait |
| PtyTeardown.PtyManager.Spawn | crates/lasterm-agent/src/pty.rs:205-253 | refuses during shutdown and on a taken id, registers otherwise, and nothing on failure |
| PtyTeardown.PtyManager.BeginShutdown | crates/lasterm-agent/src/pty.rs:178-180 | sets the refusal and leaves the channels |
| PtyTeardown.PtyManager.Remove | crates/lasterm-agent/src/pty.rs:262-266 | removes one channel and no other |
| PtyTeardown.PtyManager.DestroyAll | crates/lasterm-agent/src/pty.rs:325-389 | the whole sweep: complete accounting, signals before waits, failed channels still registered |
| PtyTeardown.PtyManager.TearDown | crates/lasterm-agent/src/daemon.rs:53-94 | shutdown flag then sweep: spawns are refused, exactly the channels whose signalling failed are left, status 0 iff every terminal present was confirmed gone |
| Framing.HeaderRoundTrip | crates/lasterm-agent/src/framing.rs:19-44 | the four little-endian bytes give the length back |
| Framing.HeaderIsLittleEndian | crates/lasterm-agent/src/framing.rs:8-22 | the header bytes are the base-256 digits of the length, least significant first |
| Framing.ParseContinues | crates/lasterm-agent/src/framing.rs:36-71 | parsing a longer stream continues where parsing its prefix stopped |
| Framing.LeftoverIsPartial | crates/lasterm-agent/src/framing.rs:40-53 | what stays buffered is less than one frame |
| Framing.EncodersAgree | packages/shared/src/framing.ts:18-32 | within the limit both encoders give the same frame; the hub refuses exactly the longer payloads |
| Framing.RoundTrip | crates/lasterm-agent/src/framing.rs:8-71 | frames of any payloads within the limit parse back in order with nothing left |
| Framing.RustRoundTripIsExact | crates/lasterm-agent/src/framing.rs:8-22 | an agent frame reads back as its payload iff the payload is within the limit |
| Framing.FourGiBPayloadIsCut | crates/lasterm-agent/src/framing.rs:11-12 | a payload the agent accepts and the hub refuses, whose frame reads back wrong |
| Framing.ChunkingDoesNotMatter | crates/lasterm-agent/src/framing.rs:36-71 | every cutting of a stream without oversized header gives what one push gives |
| Framing.OversizedStopsAtItsChunk | crates/lasterm-agent/src/framing.rs:45-50 | with an oversized header, delivery ends with the chunks before the one that completes it |
| Framing.FeedMeetsParse | crates/lasterm-agent/src/framing.rs:36-71 | feeding fails exactly on streams with an oversized header |
| Framing.FrameReader.Push | crates/lasterm-agent/src/framing.rs:36-71 | returns exactly the complete frames of buffer plus data, an error item per undecodable one, and keeps the rest |
| Framing.ReadRust | crates/lasterm-agent/src/framing.rs:36-71 | a reader fed any chunks yields the messages and leftover of the whole stream |
| Framing.ItemsTell | crates/lasterm-agent/src/framing.rs:52-71 | a payload that decodes becomes its message, any other an error that names it |
| Framing.ScanAgreesWithParse | packages/shared/src/framing.ts:53-84 | on payloads that all decode the hub's loop parses like the agent's |
| Framing.ScanThrowsIffUndecodable | packages/shared/src/framing.ts:76-77 | the hub's reader throws on a payload iff the stream has a complete one that does not decode |
| Framing.UndecodableFrameStays | packages/shared/src/framing.ts:76-80 | an undecodable frame is never consumed by the hub's reader |
| Framing.TsFrameReader.Push | packages/shared/src/framing.ts:53-84 | returns the decoded frames and keeps the rest; when it throws, messages decoded in that push are lost |
| Framing.ReadTs | packages/shared/src/framing.ts:53-84 | fed any chunks of a stream that decodes, it gives the messages and leftover of the whole stream |
| CaseCodec.KeyRoundTrip | packages/shared/src/codec.ts:16-23 | a key survives iff it has no underscore directly before a lowercase letter |
| CaseCodec.OnlyOneKeyIsLost | packages/shared/src/codec.ts:34-37 | the one restorable key whose wire form cannot be stored is `_Proto__` |
| CaseCodec.CamelIsRestorable | packages/shared/src/codec.ts:20-23 | camel conversion never leaves such an underscore |
| CaseCodec.OnlyEnvBecomesEnv | packages/shared/src/codec.ts:26-27 | only the key `env` itself is raw, on both sides of the wire |
| CaseCodec.EntriesReturn | packages/shared/src/codec.ts:34-39 | snake conversion merges no two keys that survive, keeps their order, and camel conversion restores the entries |
| CaseCodec.CamelTreeIsRestorable | packages/shared/src/codec.ts:45-58 | every tree that came off the wire has restorable keys outside raw maps |
| CaseCodec.SnakeTreeIsWire | packages/shared/src/codec.ts:29-42 | every tree that is sent has keys without capitals, and never `__proto__`, outside raw maps |
| CaseCodec.TreeRoundTrip | packages/shared/src/codec.ts:29-58 | a message tree survives the round trip iff its keys outside raw maps are restorable and none has the wire form `__proto__` |
| CaseCodec.ToSnakeCase | packages/shared/src/codec.ts:29-42 | the recursive loops compute the snake tree, for which the round trip is proved |
| CaseCodec.ToCamelCase | packages/shared/src/codec.ts:45-58 | the recursive loops compute the camel tree |
| CivilDate.FormulasAreRight | crates/lasterm-agent/src/handler.rs:988-994 | the closed formulas find the March-based year that contains the day and the day's place in it |
| CivilDate.MonthsAreRight | crates/lasterm-agent/src/handler.rs:995-998 | the month formula's starts match the Gregorian month lengths |
| CivilDate.EpochDate | crates/lasterm-agent/src/handler.rs:986-1000 | day 0 is 1970-01-01 |
| CivilDate.CountsCalendarDays | crates/lasterm-agent/src/handler.rs:986-1000 | every result is a valid date and the next day's result is the next calendar day |
| CivilDate.InverseOnDays | crates/lasterm-agent/src/handler.rs:986-1000 | on every day count civil-to-days undoes the conversion |
| CivilDate.InverseOnDates | crates/lasterm-agent/src/handler.rs:986-1000 | the conversion undoes civil-to-days on every date from the epoch on |
| CivilDate.YearPart64 | crates/lasterm-agent/src/handler.rs:989-994 | the 64-bit arithmetic neither underflows nor overflows and locates the day in its March-based year |
| CivilDate.DaysToYmd64 | crates/lasterm-agent/src/handler.rs:988-1000 | the 64-bit computation gives the proved date for every day count whose sum with 719468 fits |
| CivilDate.IsoFields | crates/lasterm-agent/src/handler.rs:969-979 | for every 64-bit second count the fields are in range and determine the second |
| ConfigCascade.PrefixCanBeMergedFirst | packages/shared/src/config.ts:36-66 | merging the layers `a` first gives the same own entries, whatever layers follow, iff `a` leaves no `__proto__` entry in the result and a prototype, if any, that is an object whose own entries are null or undefined and through which no object and no `__proto__` is found |
| ConfigCascade.PrefixIsInvisible | packages/shared/src/config.ts:36-66 | merging the layers `a` first gives the same object, prototype included, whatever layers follow, iff no `__proto__` entry of `a` holds an object or an array |
| ConfigCascade.MergingTheHostFirstLosesAnEntry | packages/shared/src/config.ts:48-57 | an input where the law fails: a host with a `__proto__` entry and a channel that merges into what it left inherited |
| ConfigCascade.NestedMergeIsDeepMerge | packages/shared/src/config.ts:48-57 | an object that lands on an object, own or inherited, is merged as the second of two layers and assigned |
| ConfigCascade.MergeIsKeywise | packages/shared/src/config.ts:42-62 | a key's result depends only on what the layers say about this key and about `__proto__`, in order |
| ConfigCascade.LastLayerRules | packages/shared/src/config.ts:30-62 | one more layer keeps a key it is silent or undefined about, removes it on null, merges an object into an own object and otherwise replaces it, except that an object on nothing is merged into an inherited object |
| ConfigCascade.RepeatingALayer | packages/shared/src/config.ts:36-66 | a layer twice is the layer once iff merging each of its object values once more into what it became changes nothing; when the layer sets no prototype, iff none of these objects hides a null, an undefined or a `__proto__` |
| ConfigCascade.HiddenNullActsOnRepeat | packages/shared/src/config.ts:42-61 | the layer {a: {b: null}}, applied once and twice |
| ConfigCascade.SelfMergeOfObject | packages/shared/src/config.ts:48-57 | an object merged with itself returns iff it is deeply free of null, undefined and `__proto__` |
| ConfigCascade.MergeOne | packages/shared/src/config.ts:43-61 | one turn of the key loop, recursive call included, is one entry of the merge |
| ConfigCascade.MergeSource | packages/shared/src/config.ts:42-62 | the key loop merges the entries of a source in order |
| ConfigCascade.DeepMergeLayers | packages/shared/src/config.ts:36-66 | the source loop gives the left fold of the layers, of which the laws speak |
| ConfigCascade.ConfigResolver.Resolve | packages/hub/src/config.ts:997-1041 | resolution merges layer by layer, skipping missing and invalid ones; what the channel profile says with a scalar, an array or null holds, then agent hints, host profile, file and defaults where no later one speaks; it has the own entries of one merge of all layers when nothing is inherited on the way |
| ConfigCascade.LastWordRules | packages/hub/src/config.ts:997-1041 | merging layer by layer, a null, scalar or array holds for every key about which no later layer speaks |
| ConfigCascade.ConfigResolver.Overlay | packages/hub/src/config.ts:1006-1017 | one stored profile on top of what is merged so far |
| ConfigCascade.ConfigResolver.Shown | packages/hub/src/config.ts:851-861 | the layer shown is the layer that contributes |
| ConfigCascade.ConfigResolver.GetCascade | packages/hub/src/config.ts:846-896 | the layers returned are the defaults, the file, the host and the channel profile; merged one by one they always recombine to `resolved`, and in one merge when nothing is inherited on the way, without agent hints |
| ConfigCascade.StepwiseIsOneMerge | packages/hub/src/config.ts:997-1041 | merging layer by layer gives the own entries of one merge of all layers when every result on the way meets the condition of the prefix law |
| ConfigCascade.NoPrototypeIsNeutral | packages/hub/src/config.ts:997-1041 | layers without a `__proto__` entry that holds an object or an array meet it |
| ConfigCascade.ResolvingLosesAnEntry | packages/hub/src/config.ts:1011-1032 | the input at which layer-by-layer resolution and one merge differ |
| ConfigCascade.GlobalMayBeEmpty | packages/hub/src/config.ts:847-849 | an empty object in place of a missing file layer changes no own entry of what layer-by-layer merging gives |
| VarExpansion.ExpandVars | crates/lasterm-agent/src/expand.rs:13-66 | the loop's output is the rendering of the input's split |
| VarExpansion.ExpandAt | crates/lasterm-agent/src/expand.rs:19-63 | one iteration appends the rendering of the token at its position and moves past it |
| VarExpansion.ExpansionIsRenderAfterSplit | crates/lasterm-agent/src/expand.rs:13-66 | expansion is render after a split that does not depend on the environment, so values are never rescanned |
| VarExpansion.SplitIsLossless | crates/lasterm-agent/src/expand.rs:19-63 | the tokens spell the input |
| VarExpansion.RenderingOfSource | crates/lasterm-agent/src/expand.rs:19-63 | a reference that is not found stays as written, an escape loses its backslash, a pair one of its two, and nothing else changes |
| VarExpansion.OnlyReferencesMatter | crates/lasterm-agent/src/expand.rs:48-58 | environments that agree on the referenced names expand alike |
| VarExpansion.MatchIsIdentifierReference | packages/shared/src/var-expansion.ts:42-43 | the expression matches exactly the closed references whose name is an identifier |
| VarExpansion.PortableInputsAgree | packages/shared/src/var-expansion.ts:19-104 | on portable inputs without inherited names both expanders give the same text in every environment, each with its own lookup |
| VarExpansion.OtherInputsDiffer | packages/shared/src/var-expansion.ts:19-104 | on every other input some environment tells them apart |
| VarExpansion.ExpandersAgreeExactly | packages/shared/src/var-expansion.ts:19-104 | agreement in all environments iff the input is portable and no reference names a property inherited from `Object.prototype` |
| VarExpansion.InheritedNameDiffers | packages/shared/src/var-expansion.ts:89-103 | `${toString}` is portable, stays as it is in the agent and becomes the text of a function in the hub |
| VarExpansion.LookupsAgree | crates/lasterm-agent/src/expand.rs:75-99 | the two lookups agree on every name that is not inherited |
| VarExpansion.ProfileComesFirst | crates/lasterm-agent/src/expand.rs:75-99 | a variable of the profile wins over one of the process in both lookups; a name in neither is found only by the hub and only if objects inherit it |
| VarExpansion.TidyInputsAgree | packages/shared/src/var-expansion.ts:19-72 | in particular they agree when every `${` opens an identifier reference, none of an inherited name, and backslashes come in ones or twos right before one |
| VarExpansion.RustLeading | crates/lasterm-agent/src/expand.rs:20-46 | the agent halves a run of backslashes |
| VarExpansion.TsLeading | packages/shared/src/var-expansion.ts:42-70 | the hub keeps a run of backslashes, less one before a reference |
| FetchQueue.QueueIsFair | packages/hub/src/api/agents.ts:316-354 | over every run at most two jobs run, jobs start in enqueue order and once, and enqueued equals queued plus running plus finished |
| FetchQueue.NoIdleSlot | packages/hub/src/api/agents.ts:343-354 | no drain or completion leaves a free slot beside a queued job |
| FetchQueue.JoinedJobIsUnfinished | packages/hub/src/api/agents.ts:293-300 | the job a later request is pointed to exists, has that target and is not finished |
| FetchQueue.OneJobPerTargetNeedsFreshLookup | packages/hub/src/api/agents.ts:294-331 | over whole runs with lookup and registration apart: no state has two unfinished jobs for a target iff every request registers for a target that still has none |
| FetchQueue.TwoRequestsTwoJobs | packages/hub/src/api/agents.ts:294-331 | two overlapping requests for one target: two jobs, both running |
| FetchQueue.RunningJobHasSlot | packages/hub/src/api/agents.ts:347-349 | a running job occupies a slot, so the counter never goes below zero |
| FetchQueue.FetchRoutes.LookUp | packages/hub/src/api/agents.ts:293-300 | finds the target's job, which exists and is unfinished, and is done, or leaves the request waiting |
| FetchQueue.RegistrationFollowsAMiss | packages/hub/src/api/agents.ts:293-331 | over every run: a registration is for the target of the request's last lookup, the request has done nothing since, and by the history no job of the target had been registered without one being completed since |
| FetchQueue.MissMayRegister | packages/hub/src/api/agents.ts:293-331 | conversely, a request whose lookup missed may register until it does something else |
| FetchQueue.LookupKnows | packages/hub/src/api/agents.ts:294-300 | a lookup finds a job iff one was registered for the target and none of the target has completed since |
| FetchQueue.MissedJobHadATwin | packages/hub/src/api/agents.ts:348-352 | a lookup misses an unfinished job of its target iff another job of the target has completed beside it |
| FetchQueue.TwinIsMissed | packages/hub/src/api/agents.ts:348-352 | a run in which a third request misses a running job and may register again |
| FetchQueue.GuardedLookupIsTrue | packages/hub/src/api/agents.ts:293-331 | when every registration still finds no job, a request registers only after a lookup at which no job of its target was unfinished |
| FetchQueue.DrainKeepsInv | packages/hub/src/api/agents.ts:343-354 | a drain keeps the accounting and ends with full slots or an empty queue |
| FetchQueue.StepKeepsInv | packages/hub/src/api/agents.ts:316-354 | every step keeps the accounting and never forgets a started or finished job |
| FetchQueue.FetchRoutes.RegisterJob | packages/hub/src/api/agents.ts:316-331 | registers and queues one new job for a waiting request, without looking again |
| FetchQueue.FetchRoutes.DrainFetchQueue | packages/hub/src/api/agents.ts:343-354 | starts queued jobs until the slots are full or the queue is empty |
| FetchQueue.FetchRoutes.JobFinished | packages/hub/src/api/agents.ts:348-352 | frees the slot, forgets the target and drains |

## Left out

- The macOS and Windows stop paths: macOS has a documented pid-reuse window (crates/lasterm-agent/src/identity.rs:504-509).
- Publishing and removing the agent's identity record, its path and socket hash.
- `persistRuntime`'s temporary file: publication is the atomic rename, and a failed one leaves the record alone.
- The native lock addon and the map of held locks: a process asks for the lock once.
- The read-then-remove race of CLI commands, which hold no lock: their cleanup is one atomic step.
- Delivery of `notify_waiters` to a displaced connection's tasks: only the fact of cancellation is modelled.
- Frames lost by a connection's own writer after they were handed over, and batches whose encoding fails.
- Bytes still buffered when the batch loop's input closes are dropped by the loop; `BatchLoop` returns them as `residual`.
- Reuse of a channel id restarts its numbers; the size and number claims of `BatchLoop` are for one reader per id, conservation is for all inputs.
- The terminal mirror, title polling, LOG and exit messages of the reader task.
- `handle_spawn`'s answers, the HELLO and authentication part of the connection handler.
- The UI, appearance and elevation parts of `getCascade`.
- JavaScript's ordering of integer-like keys, and shared references between a merge result and its sources.
- Case-insensitive environment lookup on Windows.
- The text of `iso_now`, its milliseconds, and the text of error messages.
- MessagePack, TOML, JSON, SQLite, Fastify, ssh2 and vt100; REST routes, schemas, themes, keys and logs; packaging; the web and desktop clients; tokens, elevation and askpass.
- FetchQueue.FetchRoutes.RegisterJob: a job is its number and target; its progress snapshot and download are not modelled, and the cache lookup is an event that ends the request.

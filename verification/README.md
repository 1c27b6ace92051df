# A verified model of the cno runtime's protocols and matchers

This project models the parts of the repository where a wrong step is hard to see in one
function body, and proves what they promise over every input, schedule or run.

* **Setup publication** (`SetupDisk`, `SetupTrees`, `SetupPublish`, `SetupNext`, `SetupBuild`,
  `SetupSwitch`, `SetupRun`, `SetupReady`). The file system is a map from paths to entries. Every
  file call asks a fault schedule whether it proceeds, throws, or is the last thing the process does, so
  each method's contract covers every state a stop may leave behind. `rename` is one step,
  recursive removal and copying are many. `RollsBack` and `RollsForward` say of a disk, and of
  nothing else, where a recovery will lead; publication, rollback and recovery keep them. `Steady`
  says that an operation fails only by a fault of its own calls: so an undisturbed publication
  succeeds, and one that a single fault stops takes everything back by itself.
* **The debugger pause protocol** (`PauseProtocol`, `PauseSession`, `PauseResumes`, `PauseCauses`,
  `RpcCalls`, `RpcClients`).
  `PauseProtocol` is the step system: one step is one callback of the worker or one iteration
  of the blocked main thread, in any order. `PauseSession` is the same as an object whose
  methods assign fields, each proved equal to its step. `RpcCalls` and `RpcClients` do the
  same for the correlation of replies.
* **Network bodies and events** (`BodyCapture`, `BodyAccounts`, `CaptureRuns` for the main thread,
  `NetworkDomain`, `NetworkBodies`, `NetworkTrace`, `NetworkRuns` for the worker; `InsertionMap`
  and `BodyBuffers` are the tables and byte buffers they share).
* **Matchers and walks** (`UrlPattern`, `GlobPattern`, `ExcludeGlobs`, `ExcludeWalk`, `WalkFiles`).
* **The command line** (`CliGrammar`, `CliSpellings`, `CliRegions`, `CliReparse`, `NodeOptions`).
* **REPL scanners** (`Brackets`, `ColorTokens`, `ColorEnds`, `ColorBrackets`, `Colorizer`,
  `Utf8Input`, `LineEditor`).
* **The result frame and the JSON conversion** (`ResultPipe`, `JsonSafe`, `JsonLoss`).

Where the source changes fields step by step, the model is a class whose methods do so, and
their contracts equate the new state with a function of the old one.

What the model found, each with a proof of the exact condition and an input that shows it:

* A download is accepted without `node/fs/index.ts`, which the readiness probe asks for. After a
  publication the probe answers yes exactly if that file is listed and nothing is listed below
  the marker (`SetupReady.ReadyIff`); `SetupReady.NeverReady` is an accepted list for which it
  never does, so that every start installs again.
* Re-parsing the options of `test` in the child changes them exactly when a bare inspect option
  is directly followed, once the paths between are gone, by an option that looks like an
  address (`CliReparse.ChildReadsTheSame`). `test --inspect a.ts -C:80` is one such command
  line (`CliReparse.AddressSwallowed`).
* Two resumes of one stop before the first is through leave one over, which ends the next stop
  before the worker has heard of it (`PauseResumes.SecondStopLost`). A step breaks the pairing
  of stops and resumes exactly when it resumes a stop a second time
  (`PauseResumes.StepPairedIff`).
* The response cache's byte counter is exact after caching a body exactly when the id had no
  bytes cached or its old entry is spared by the eviction loop; otherwise the old bytes are
  subtracted twice and the byte cap can be overrun (`NetworkBodies.CachedExactIff`, with the run
  `NetworkRuns.CounterDrifts`).
* A closed websocket leaves nothing behind exactly if it was not streamed and holds no body;
  what it leaves, no sweep reclaims (`NetworkDomain.ClosedSocketLeft`, with the runs
  `NetworkRuns.SocketKeepsBody` and `NetworkRuns.SocketKeepsMark`).
* A body that arrives in chunks counting more bytes than they carry stands as complete, with
  bytes missing, exactly when every chunk fits (`NetworkBodies.IncompleteIff`, with the run
  `NetworkRuns.PlaceholdersAvailable`).
* A directory can be cut from the walk exactly if everything that can lie directly in it is
  excluded (`ExcludeWalk.CutIff`). Below the file system root this can fail
  (`ExcludeWalk.RootLost`); for a matcher built from a pattern it fails exactly for names with a
  line break where the pattern ends in `**` (`ExcludeGlobs.RootIff`, `ExcludeGlobs.LineBreakLost`).
* The JSON conversion assigns each field to a plain object, so an own key `__proto__` makes no
  field. A result loses nothing, at any depth, exactly if no way down comes to a record that has
  this key over a value with a JSON form (`JsonLoss.NothingLostIff`, for one record
  `JsonLoss.FieldsKeptIff`; `JsonLoss.ProtoLost` is an input).

## Model

| member | source | states |
|---|---|---|
| SetupTrees.RemoveTree | src/commands/setup.ts:89-103 | stopped anywhere, removal has only taken entries at or below its path; done, nothing is left there |
| SetupTrees.CommitFile | src/commands/setup.ts:250-305 | a commit leaves the new file, the old one or none at the target, never a torn one, and touches nothing else but scratch files and missing ancestors |
| SetupTrees.ParkAndSwap | src/commands/setup.ts:273-295 | the fallback that parks the old file keeps the same promise when a rename or its undoing fails |
| SetupPublish.CleanupCommitted | src/commands/setup.ts:698-708 | until the last entry is gone the commit decision stays durable, so every stop still leads forward |
| SetupPublish.RemoveOthers | src/commands/setup.ts:700-702 | every entry but the marker goes before the marker does |
| SetupPublish.RestoreTree | src/commands/setup.ts:678-694 | putting one tree back keeps every other tree restorable, and done, this one is as before the publication |
| SetupPublish.RestoreAll | src/commands/setup.ts:677-694 | done, nothing is left to undo |
| SetupPublish.Recover | src/commands/setup.ts:654-696 | recovery stopped anywhere leads the same way again; completed, the old trees are live if it rolled back, and the transaction is gone |
| SetupPublish.LiveRemoved | src/commands/setup.ts:683-684 | removing a half-switched live tree, even in part, loses nothing its backup does not hold |
| SetupPublish.BackupMoved | src/commands/setup.ts:685-685 | the rename back restores the old tree in one step |
| SetupPublish.SettledShrinks | src/commands/setup.ts:695-695 | once the old trees are live, any partial removal of the transaction directory is harmless |
| SetupNext.InstallDropsBytecode | src/commands/setup.ts:140-143 | no bytecode of an installed source survives its installation |
| SetupNext.InstallOneAt | src/commands/setup.ts:729-733 | installing one more source keeps, for every path, what the earlier ones achieved |
| SetupNext.InstalledAllHolds | src/commands/setup.ts:729-733 | after all of them: staged bytes for every source, no bytecode of any, old files otherwise |
| SetupNext.NextFilesBuilt | src/commands/setup.ts:728-741 | the finished trees hold exactly the downloaded managed sources with the staged bytes, no bytecode of a managed source, the marker, and every unrelated old file unchanged |
| SetupNext.BytecodeOf | src/commands/setup.ts:346-350 | the bytecode source of a name is the name it was made from |
| SetupBuild.CopyTree | src/commands/setup.ts:111-138 | a finished copy equals its source, an absent source gives an empty directory, a failed one stays below the target; only a source that is no directory, or a fault, makes it fail |
| SetupBuild.Prune | src/commands/setup.ts:356-395 | pruning only removes stale files and leaves none, at any depth |
| SetupBuild.InstallFile | src/commands/setup.ts:730-732 | one source: the staged bytes in place, its bytecode gone, every other file of the new trees unchanged |
| SetupBuild.CopiedAll | src/commands/setup.ts:728-728 | after the three copies the new trees hold exactly the live files |
| SetupBuild.BuildNext | src/commands/setup.ts:728-741 | done, the new trees are as promised; stopped anywhere, nothing outside `next` has changed; on a disk with room for the listed files only a fault stops it |
| SetupBuild.RoomForAllStays | src/commands/setup.ts:729-733 | installing one listed source leaves room for every other one and for the marker |
| SetupBuild.CopiedRoom | src/commands/setup.ts:728-728 | where the live trees have room for a listed file, so have their copies |
| SetupBuild.SwitchedView | src/commands/setup.ts:756-759 | once switched in, the live files are the built ones |
| SetupSwitch.LogSwitch | src/commands/setup.ts:744-749 | the write-ahead step records exactly the trees that exist, or fails with nothing moved |
| SetupSwitch.ParkAll | src/commands/setup.ts:750-755 | wherever parking stops, each tree is either live or in the backup |
| SetupSwitch.SwitchAll | src/commands/setup.ts:756-759 | wherever switching stops, the log and the positions of the trees still determine the way back |
| SetupSwitch.PlacedRollsBack | src/commands/setup.ts:743-759 | every position between the first rename and the marker can be recovered to the old trees |
| SetupSwitch.Sealing | src/commands/setup.ts:760-763 | the marker alone turns the decision from the old trees to the new ones |
| SetupSwitch.Seal | src/commands/setup.ts:760-763 | the commit either seals the new trees or leaves everything undoable |
| SetupSwitch.Rollback | src/commands/setup.ts:764-779 | the in-process rollback, stopped or failing anywhere, stays recoverable; without errors the old trees are back; it stops or counts an error only for a fault of its own calls, from any position |
| SetupSwitch.SwitchTrees | src/commands/setup.ts:743-780 | the switch fails only by a fault, and if that is the only one the rollback is complete |
| SetupSwitch.BuildAndSwitch | src/commands/setup.ts:727-780 | sealed: the new trees are live and as built; not sealed: the old ones can be restored; without faults, and with room for the files, it is sealed |
| SetupRun.CloseTransaction | src/commands/setup.ts:782-788 | the final clean-up never undoes the decision |
| SetupRun.Publish | src/commands/setup.ts:710-791 | any stop or error leaves a disk that recovers to the old trees, or to the new ones exactly if the marker became durable; success means the new ones, and is certain without faults and with room for the files; if one throw is all that happens between the write-ahead step and the marker, the old trees are live at its end and the transaction is gone |
| SetupRun.PublishThenRecover | src/commands/setup.ts:654-791 | with any number of interrupted recoveries: once one completes, all trees are the old ones or all are the new ones, according to the marker; undisturbed, with room for the files, the new ones |
| SetupRun.StageRemoved | src/commands/setup.ts:789-789 | dropping the download takes nothing recovery or the live trees need |
| SetupRun.PresentOnlyWhole | src/commands/setup.ts:825-856 | the readiness probe answers yes only over all old or all new trees, never in the middle of a switch |
| SetupReady.ReadyIff | src/commands/setup.ts:557-596 | after a publication the probe answers yes exactly if the download lists the one probed source that the installer does not ask for, and nothing below the marker |
| SetupReady.InstallThenProbe | src/commands/setup.ts:710-856 | so it does after a whole undisturbed publication, onto a cache with room for the files |
| SetupReady.NeverReady | src/commands/setup.ts:557-564 | an accepted list after which the probe says no |
| SetupReady.PresentIffIntact | src/commands/setup.ts:825-856 | later it answers yes exactly if no publication is open and every listed file still has its bytes, given a digest that tells them apart |
| SetupReady.PresentOtherwise | src/commands/setup.ts:825-856 | after a local installation it asks for the probed sources alone; without a marker, or with an empty list, it says no |
| PauseProtocol.StepInv | src/inspector/domains/debugger.ts:79-112 | every callback, command, timer and service iteration keeps the pause invariant |
| PauseProtocol.NeverStranded | src/inspector/domains/debugger.ts:268-522 | in every run, a thread blocked on an open channel has its stop queued, a resume on the way, or the stop held with an informed client, an armed timer or a handler in flight |
| PauseProtocol.OnPausedBase | src/inspector/domains/debugger.ts:428-447 | a stop taken in without a client is answered with a resume; with one it is held or told |
| PauseProtocol.FinishResumeInv | src/inspector/domains/debugger.ts:268-280 | the end of a resume, with whatever stops the channel still delivers while closing down, loses none |
| PauseProtocol.DetachInv | src/inspector/domains/debugger.ts:379-393 | a client leaving while its stop is held never strands the thread |
| PauseProtocol.TimersInv | src/inspector/domains/debugger.ts:454-513 | either timer may fire at any time without losing the stop it holds: the settle timer tells the client and lets nothing go, the grace timer lets go exactly what no enabled client waits for |
| PauseProtocol.SomethingDue | src/inspector/domains/debugger.ts:428-522 | while the blocked thread is neither released nor known to the client, some callback is due |
| PauseProtocol.DueDecreases | src/inspector/transport/channel-rpc.ts:147-186 | callbacks that are due use up a finite budget |
| PauseProtocol.NoStopIsHeldForEver | src/inspector/transport/channel-rpc.ts:147-265 | however they interleave, finitely many due callbacks end with the thread running or the client told |
| PauseSession.Session.OnPaused | src/inspector/domains/debugger.ts:428-447 | without a client the stop is answered with a resume at once; with one it is told, or held under an armed timer |
| PauseSession.Session.FinishResume | src/inspector/domains/debugger.ts:273-278 | the resume goes out last, with the step that was asked for, and the client no longer counts the stop as its own |
| PauseSession.Session.FinishDisable | src/inspector/domains/debugger.ts:95-111 | disabling while paused always leaves a resume in flight |
| PauseSession.Session.FlushPendingPausedSoon | src/inspector/domains/debugger.ts:498-514 | only a connected, enabled client is told, and only the held stop; a stop is given up by telling it alone, else a timer is armed |
| PauseSession.Session.DrainInbox | src/inspector/transport/channel-rpc.ts:147-165 | the loop delivers the queue in order, with drains nested in its own handlers |
| PauseSession.Session.Break | src/inspector/main/pause-controller.ts:80-94 | a dropped announcement changes nothing and does not block; a delivered one is queued last and blocks |
| PauseSession.Session.Service | src/inspector/transport/channel-rpc.ts:237-265 | the thread goes on exactly at a resume or a closed channel; otherwise one request gets one reply, in order |
| PauseSession.Session.Perform | src/inspector/domains/debugger.ts:79-522 | no handler, timer, command or service iteration breaks the pause invariant |
| PauseSession.Session.SetConnected | src/inspector/domains/debugger.ts:379-393 | after a detach no stop is held or counted as told, no timer runs, and a pause has a resume in flight |
| PauseSession.Session.GraceExpired | src/inspector/domains/debugger.ts:454-464 | a stop held for a client that never enables the domain is resumed |
| PauseSession.Session.Play | src/inspector/domains/debugger.ts:79-522 | the object's whole run equals the protocol's and keeps its invariant |
| PauseResumes.StepPairedIff | src/inspector/domains/debugger.ts:268-280 | a step keeps each stop paired with one resume if and only if it does not resume a stop that is being resumed |
| PauseResumes.EveryStopItsResume | src/inspector/domains/debugger.ts:268-280 | over every run that resumes no stop twice, each stop is in exactly one place and has one resume |
| PauseResumes.EndedByItsOwn | src/inspector/transport/channel-rpc.ts:237-251 | the resume that ends a stop was issued after the worker took it in, and none is left over |
| PauseResumes.FromTheStart | src/inspector/transport/channel-rpc.ts:237-251 | the same of every such run from the start |
| PauseResumes.SecondStopLost | src/inspector/domains/debugger.ts:268-280 | a run with two resume commands in which the next stop ends unheard |
| PauseCauses.ResumeHasCause | src/inspector/domains/debugger.ts:268-522 | over every run, a resume has a cause: a resume command, a detach, a disable, the grace timer, or a stop taken in without a client |
| PauseCauses.StaysStopped | src/inspector/domains/debugger.ts:268-522 | while an enabled client stays and asks for none of these, no step lets the stopped thread go |
| PauseCauses.ClientHears | src/inspector/domains/debugger.ts:498-514 | then the callbacks that are due end with the client told of the present stop, and the thread still stopped |
| PauseCauses.StepWasAsked | src/inspector/domains/debugger.ts:268-280 | over every run, a resume that steps carries a step that a command of the run asked for |
| PauseCauses.StepIsSent | src/inspector/domains/debugger.ts:268-280 | the handler of a resume command ends with the step it was given |
| RpcCalls.SettledOnce | src/inspector/transport/channel-rpc.ts:129-163 | settled promises stay as they are and calls keep their ids, over all runs |
| RpcCalls.NoneLeft | src/inspector/transport/channel-rpc.ts:189-197 | leaving the paused state or disposing settles every call |
| RpcCalls.LateReplyIgnored | src/inspector/transport/channel-rpc.ts:152-159 | a reply to a call that is over reaches no other call, then or later |
| RpcCalls.ResolvedByOwnReply | src/inspector/transport/pipe-rpc.ts:77-88 | a call is resolved only by a reply with its own id, sent after it |
| RpcCalls.FateDecides | src/inspector/transport/channel-rpc.ts:147-197 | a call that waits does so up to the first reply with its id, leave or close; that one decides it for good, a reply by its payload |
| RpcCalls.CallBecomes | src/inspector/transport/channel-rpc.ts:129-145 | a call is rejected at once exactly if the channel is closed or refuses the message, and else left to its fate; making it concerns no other call |
| RpcClients.ChannelClient.Send | src/inspector/transport/channel-rpc.ts:129-145 | a call that the transport takes stays outstanding under a new id; a refused or throwing send rejects its own call at once; no other call changes |
| RpcClients.ChannelClient.DrainInbox | src/inspector/transport/channel-rpc.ts:147-165 | replies settle the calls they name, in order, up to a close; in the middle of the drain an event may turn the channel off and on, make calls and close it |
| RpcClients.LeftKeeps | src/inspector/transport/channel-rpc.ts:189-197 | turning inactive leaves no call unsettled, whatever the listener turns, calls or closes meanwhile, and no settled one changed |
| RpcClients.ArrivedServed | src/inspector/transport/channel-rpc.ts:147-165 | a call whose reply has arrived when the inbox is drained gets it, whatever the listener does meanwhile short of closing, and no other call gets one |
| RpcClients.LeftServed | src/inspector/transport/channel-rpc.ts:189-197 | turning inactive fails exactly the calls whose reply has not arrived |
| RpcClients.ChannelClient.SetActive | src/inspector/transport/channel-rpc.ts:189-197 | turning inactive takes in what has arrived and fails the rest |
| RpcClients.ChannelClient.Dispose | src/inspector/transport/channel-rpc.ts:69-82 | disposing settles all calls, once |
| RpcClients.PipeClient.Call | src/inspector/transport/pipe-rpc.ts:63-75 | the same over the pipe |
| RpcClients.PipeClient.OnMessage | src/inspector/transport/pipe-rpc.ts:77-94 | one message settles at most the call it names |
| RpcClients.PipeClient.Dispose | src/inspector/transport/pipe-rpc.ts:45-61 | disposing settles all calls, once |
| RpcClients.WorkerEndpoint.Call | src/inspector/transport/worker-endpoint.ts:40-52 | control calls are applied, lifecycle calls use the pipe, inspect calls go where the pause state says |
| RpcClients.WorkerEndpoint.SetPaused | src/inspector/transport/worker-endpoint.ts:66-70 | after leaving the pause no channel call is unsettled |
| RpcClients.WorkerEndpoint.Dispose | src/inspector/transport/worker-endpoint.ts:22-37 | disposing the pipe disposes the channel, and no call is left |
| UrlPattern.MatchAt | src/inspector/domains/fetch.ts:67-75 | a segment fits where every character is equal or a question mark |
| UrlPattern.IndexOfSegment | src/inspector/domains/fetch.ts:78-84 | the first place at or behind the start where it fits, or none exists |
| UrlPattern.GreedyChoice | src/inspector/domains/fetch.ts:54-58 | putting a segment at its first place loses no match |
| UrlPattern.CollapseMeans | src/inspector/domains/fetch.ts:36-37 | runs of wildcards mean the same as one |
| UrlPattern.MiddlesPlaceable | src/inspector/domains/fetch.ts:45-62 | the parts behind the head match exactly if the middles can be placed in order before the tail |
| UrlPattern.CompiledMeans | src/inspector/domains/fetch.ts:33-64 | the compiled pattern accepts exactly the URLs the pattern means, and exactly the longer patterns are refused |
| UrlPattern.Matches | src/inspector/domains/fetch.ts:39-63 | the scan decides whether any placement exists |
| UrlPattern.CompileAndMatch | src/inspector/domains/fetch.ts:33-84 | for every pattern and URL: refused if longer than 256, else the declarative meaning |
| NetworkTrace.TraceProperty | src/inspector/domains/network.ts:368-837 | a response, data or terminal event follows an announcement of its id in the same session |
| NetworkTrace.NeverOutnumbered | src/inspector/domains/network.ts:809-834 | terminal events of an id never outnumber its announcements |
| NetworkDomain.Domain.OnFetchEvent | src/inspector/domains/network.ts:368-490 | what the client hears of a fetch event and what is kept of every request afterwards |
| NetworkDomain.Domain.OnServeEvent | src/inspector/domains/network.ts:493-626 | the same for serve events: upgrades are neither announced nor ended here |
| NetworkDomain.Domain.OnWebSocketEvent | src/inspector/domains/network.ts:628-722 | the same for websocket events, with every pending body; closing releases the request but for its streaming mark and its body |
| NetworkDomain.Domain.HandleData | src/inspector/domains/network.ts:725-761 | data of an unannounced request is neither told nor stored; otherwise its counted bytes are told, and its body is as `Arrived` says; other bodies stay or are emptied |
| NetworkDomain.Domain.HandleDone | src/inspector/domains/network.ts:763-837 | one terminal event for an announced request that is no upgrade; its body goes into the cache, available or not, and everything else is released |
| NetworkDomain.Domain.CacheBody | src/inspector/domains/network.ts:941-974 | the whole cache and counter after a body is cached or marked unavailable, and exactly when the counter drifts |
| NetworkDomain.Domain.CleanupStaleEntries | src/inspector/domains/network.ts:1259-1286 | exactly what no event touched for 120 s goes, and only every 30 s |
| NetworkDomain.Domain.Disable | src/inspector/domains/network.ts:121-140 | the session ends with all its state |
| NetworkDomain.Domain.StreamResourceContent | src/inspector/domains/network.ts:190-215 | only a request of the session can be streamed; the stored body and what the main thread still had are handed over, by size, and the body goes |
| NetworkDomain.ReclaimedIff | src/inspector/domains/network.ts:1259-1286 | what is kept of a request, its body included, is reclaimed by some sweep exactly if it has a time |
| NetworkDomain.ClosedSocketLeft | src/inspector/domains/network.ts:700-717 | what a closed websocket leaves can be reclaimed exactly if it was not streamed and holds no body; otherwise every sweep leaves it |
| NetworkRuns.SocketKeepsBody | src/inspector/domains/network.ts:700-717 | a run that leaves a body behind, counted, whatever other sockets do and however much time passes |
| NetworkRuns.SocketKeepsMark | src/inspector/domains/network.ts:700-717 | a run that leaves a streaming mark behind |
| NetworkRuns.Download | src/inspector/domains/network.ts:368-837 | a response over its whole life, fetched or served: the client hears of the request, the response, every chunk and the end, in this order and of nothing else; its body is available exactly if every chunk fit, with exactly the bytes carried |
| NetworkRuns.Conversation | src/inspector/domains/network.ts:628-722 | a websocket over its whole life: announced, its handshake, frames, failure and end told, and nothing left |
| NetworkRuns.Upgrade | src/inspector/domains/network.ts:493-722 | a served request that becomes a websocket: announced once, as the websocket, whose end alone is told; nothing is left |
| NetworkRuns.UpgradeByResponse | src/inspector/domains/network.ts:493-722 | the same where the response alone shows that the request is an upgrade |
| NetworkRuns.StaysAlive | src/inspector/domains/network.ts:725-1286 | a response that data arrives for is kept for two minutes more, whatever sweeps meanwhile |
| NetworkRuns.StreamedChunk | src/inspector/domains/network.ts:190-837 | a response whose streaming was asked for: its bytes come with their event, and nothing of it is cached |
| NetworkRuns.PlaceholdersAvailable | src/inspector/domains/network.ts:744-752 | a body of placeholders alone is cached as an available empty one |
| NetworkRuns.CounterDrifts | src/inspector/domains/network.ts:955-974 | a run of events after which the cache is over its limit and the counter shows six bytes, for all limits |
| NetworkBodies.PendingBodies.Arrive | src/inspector/domains/network.ts:731-752 | room is made for the bytes a chunk counts, its body grows by the bytes it carries, or is given up for good; other bodies stay or are emptied; the counter is the sum and within half the preview |
| NetworkBodies.ArrivedIs | src/inspector/domains/network.ts:741-752 | after any chunks a body is complete with the bytes carried if all fit, else given up |
| NetworkBodies.IncompleteIff | src/inspector/domains/network.ts:744-752 | it stands as complete with bytes missing exactly if all chunks fit and some bytes were withheld |
| NetworkBodies.PendingBodies.EnsureCapacity | src/inspector/domains/network.ts:919-939 | room is made from other bodies, oldest first, and no more than is needed; refused exactly if the body alone cannot fit |
| NetworkBodies.PendingBodies.DropPendingBody | src/inspector/domains/network.ts:895-900 | the clamp at zero never bites |
| NetworkBodies.PendingBodies.DropBufferedBody | src/inspector/domains/network.ts:902-910 | the key stays, the bytes go |
| NetworkBodies.EvictedIs | src/inspector/domains/network.ts:958-967 | the eviction loop takes exactly the oldest entries that must go |
| NetworkBodies.CachedDrift | src/inspector/domains/network.ts:955-974 | the counter after caching: exact, or short by the old entry's bytes |
| NetworkBodies.CachedExactIff | src/inspector/domains/network.ts:955-974 | it stays exact, within both caps, if and only if the id had no bytes cached or the loop spares its entry |
| NetworkBodies.RecachedOverrun | src/inspector/domains/network.ts:955-974 | for all limits, a re-cached body for which the byte cap is overrun |
| NetworkBodies.UnavailableExact | src/inspector/domains/network.ts:941-953 | marking a body unavailable keeps the counter exact |
| NetworkBodies.UnavailableKeeps | src/inspector/domains/network.ts:941-953 | of the others the newest stay, as many as fit beside it |
| NetworkBodies.ResponseCache.CacheResponseBody | src/inspector/domains/network.ts:955-974 | the loop computes what the lemmas above speak of |
| BodyBuffers.MergeChunks | src/inspector/main/hooks.ts:892-901 | copying chunk by chunk into one array gives their concatenation |
| BodyCapture.Capture.HandleData | src/inspector/main/hooks.ts:633-694 | a chunk is passed on, counted or stored; it is lost exactly if its own body no longer fits a limit, and then what was delivered before it is the body; the bodies of other requests stay but for the oldest when the table is full |
| BodyCapture.Capture.EnsureCapacity | src/inspector/main/hooks.ts:820-833 | other buffers go, oldest first and no more than needed, never the one about to grow; refused exactly if that one alone exceeds the limit |
| BodyCapture.Capture.DropRequestBody | src/inspector/main/hooks.ts:800-808 | what was delivered so far becomes the completed body; the counter stays the sum of the buffers |
| BodyCapture.Capture.EvictOldestBody | src/inspector/main/hooks.ts:909-914 | only the oldest completed body goes, and only when the table is full; every other one stays |
| BodyCapture.Capture.TakeBodyBuffer | src/inspector/main/hooks.ts:780-788 | what is stored is returned once and gone |
| BodyCapture.Capture.EnableStreaming | src/inspector/main/hooks.ts:424-443 | what the client has plus what is returned is all that was delivered, or, if a limit cut it, what was delivered before the cut, unless that body was pushed out |
| BodyCapture.Capture.Finish | src/inspector/main/hooks.ts:248-273 | the final body completes the delivered bytes, or is what was delivered before a limit cut it, the count is their number, and nothing of the request is left |
| BodyCapture.Capture.ReapBuffer | src/inspector/main/hooks.ts:854-862 | the reaper keeps the byte counter exact |
| BodyAccounts.HandedExact | src/inspector/main/hooks.ts:424-443 | the hand-over neither loses nor doubles a byte |
| BodyAccounts.PassedExact | src/inspector/main/hooks.ts:636-646 | a streaming request stays exact with every chunk passed on |
| BodyAccounts.DroppedExact | src/inspector/main/hooks.ts:800-808 | a request dropped by a limit keeps exactly what was delivered before it |
| CaptureRuns.CutShortRun | src/inspector/main/hooks.ts:633-694 | a response whose first chunk fits and whose second does not ends with exactly the first as its body |
| ExcludeWalk.ClimbIff | src/commands/test.ts:206-217 | the climb tests the path and everything in front of one of its slashes |
| ExcludeWalk.IsExcluded | src/commands/test.ts:221-231 | the loops decide whether some matcher matches |
| ExcludeWalk.ExcludedBelow | src/commands/test.ts:186-217 | what lies in an excluded directory is excluded, except below a root that a glob matches by its own name |
| ExcludeWalk.NothingKept | src/commands/test.ts:233-234 | a full walk keeps no file below a directory whose entries are excluded |
| ExcludeWalk.CutIff | src/commands/test.ts:233-234 | cutting a directory loses nothing, whatever is in it, if and only if everything that can lie directly in it is excluded |
| ExcludeWalk.RootLost | src/commands/test.ts:206-217 | a matcher and a tree for which cutting the root loses a file |
| ExcludeWalk.UnderNamed | src/commands/test.ts:237-239 | two entries of a directory have no path in common |
| ExcludeWalk.Walker.Walk | src/commands/test.ts:233-254 | the walk that stops at excluded directories yields, in order, exactly the files a full walk filtered by exclusion would, where an excluded start has excluded entries |
| WalkFiles.FoundIff | src/commands/test.ts:233-254 | the full walk finds exactly the test files to which names lead of which none is skipped |
| ExcludeGlobs.CompileSource | src/commands/test.ts:194-205 | the expression is the escaped literal path and the glob behind it |
| ExcludeGlobs.TestsIff | src/commands/test.ts:194-211 | anchored, it matches the literal path and then the glob, name by name |
| ExcludeGlobs.NamesBelow | src/commands/test.ts:137-163 | what a glob matches up to a closing slash it matches with any further name |
| ExcludeGlobs.TestsBelow | src/commands/test.ts:137-205 | a glob that matches a path up to a closing slash matches a name behind it exactly if it does not end in a slash, and not in `**` over a name with a line break |
| ExcludeGlobs.RootIff | src/commands/test.ts:194-217 | a matcher that excludes the root excludes what lies in it, but for names with a line break exactly if its pattern ends in `**` |
| ExcludeGlobs.BelowExcluded | src/commands/test.ts:173-231 | with matchers built from patterns, what lies in an excluded directory is excluded, in the root as long as the name has no line break |
| ExcludeGlobs.CollectTests | src/commands/test.ts:233-254 | so for them the walk equals the filtered full walk from any directory, in the root as long as no name there has a line break |
| ExcludeGlobs.LineBreakLost | src/commands/test.ts:150-152 | a trailing `**` excludes the root but not a name with a line break below it |
| ExcludeGlobs.TrailingSlash | src/commands/test.ts:146-149 | what a normalized pattern buys: `/**/` matches the root and no name in it |
| GlobPattern.GlobSource | src/commands/test.ts:137-163 | the loop writes the expression of the pattern's items |
| GlobPattern.ItemsNamed | src/commands/test.ts:141-160 | read character by character, the items are those of the pattern's names |
| GlobPattern.NamesStayInside | src/commands/test.ts:153-157 | stars and question marks never match a slash |
| GlobPattern.StarIff | src/commands/test.ts:147-149 | the repeated piece matches exactly runs of non-empty names with their slashes |
| GlobPattern.GlobSourceMeans | src/commands/test.ts:137-163 | the expression matches a path exactly if the glob does, name by name |
| CliGrammar.ReadOption | src/cli.ts:147-162 | an option takes itself and at most the next token |
| CliGrammar.ReadOptionLooksAtTwo | src/cli.ts:147-162 | reading depends on the token and its successor only |
| CliSpellings.LongInline | src/cli.ts:117-155 | `--name=text` is that option with that value; for a flag `true` is on, `false` is off and anything else is text |
| CliSpellings.ShortInline | src/cli.ts:117-155 | `-n=text` is the same |
| CliSpellings.ShortAttached | src/cli.ts:124-128 | so is `-ntext`, but for a pure flag |
| CliSpellings.Separate | src/cli.ts:156-160 | so are `--name text` and `-n text` where the option takes a value and the token can be one |
| CliSpellings.WordTaken | src/cli.ts:135-141 | a word, a lone dash and an unregistered dash with a digit can be values |
| CliSpellings.OptionNotTaken | src/cli.ts:135-161 | a long option, `-e` and a registered short option never are: the option in front has no value then |
| CliSpellings.Alone | src/cli.ts:156-161 | a flag alone is on, unless an address for an inspect option stands behind it |
| CliSpellings.OneDashKept | src/cli.ts:129-132 | with one dash no longer name reads as a registered one |
| CliRegions.EntryPasses | src/cli.ts:256-297 | behind a command that runs a program the options in front of the entry are read, and the entry and all behind it passed on unread |
| CliRegions.BareEntry | src/cli.ts:289-292 | the same of a first word that is no command |
| CliRegions.EvalPasses | src/cli.ts:269-281 | the program behind `-e` and its kin is taken whatever it looks like, with all behind it |
| CliGrammar.ParseArgvLoop | src/cli.ts:245-298 | the loop computes the regions of the command line |
| CliReparse.TestRegion | src/cli.ts:283-297 | behind `test`, options and positionals are read apart |
| CliReparse.LeadsAgain | src/cli.ts:283-288 | the options in front of `test` read the same whatever follows it |
| CliReparse.ReadAgain | src/cli.ts:143-162 | an option reads the same once the positionals behind it are gone, unless it would now take an address |
| CliReparse.OptionsAgain | src/cli.ts:147-178 | the options' own tokens give the same options if and only if none is swallowed |
| CliReparse.ChildReadsTheSame | src/commands/test.ts:416-436 | for every `test` command line the child reads the same kernel options, the same command options if and only if none is swallowed, and then accepts them without positionals |
| CliReparse.NoAddressOptions | src/cli.ts:143-145 | no option token of address shape is enough |
| CliReparse.AddressSwallowed | src/cli.ts:157-160 | `test --inspect a.ts -C:80`: the child accepts the tokens and takes `-C:80` for the address |
| NodeOptions.SplitNodeOptions | src/cli.ts:181-203 | the loop computes the scan |
| NodeOptions.QuotingUndone | src/cli.ts:181-203 | quoting and joining by whitespace splits back to the same list |
| NodeOptions.SpellingUndone | src/cli.ts:181-203 | words spelled as any mix of plain and quoted pieces, joined by any whitespace, split back to what they mean |
| NodeOptions.NothingQuoted | src/cli.ts:181-203 | the same for the empty list |
| NodeOptions.RefusedIff | src/cli.ts:187-200 | refused exactly if the value ends inside quotes or behind an escape |
| JsonSafe.Converter.Convert | src/inspector/main/evaluator.ts:404-432 | the conversion terminates, equals the unfolding along the path, in which a key `__proto__` makes no field, and restores the path, also when a getter throws |
| JsonSafe.CyclicChildren | src/inspector/main/evaluator.ts:408-430 | a value is cyclic exactly if it is on the path or has a cyclic child under a key that makes a field |
| JsonSafe.CircularIff | src/inspector/main/evaluator.ts:404-432 | the marker appears exactly if some way down, over keys that make a field, comes back to an object it has passed |
| JsonSafe.AcyclicExpands | src/inspector/main/evaluator.ts:404-432 | of a value from which no such way down comes back, shared objects are written out wherever they occur, whatever cycles exist elsewhere |
| JsonLoss.ThrowsIff | src/inspector/main/evaluator.ts:415-430 | the conversion throws exactly if some way down, over any keys, comes to an object one of whose getters throws |
| JsonLoss.FieldsKeptIff | src/inspector/main/evaluator.ts:422-426 | every field of a record with a JSON form is kept exactly if none of them is under a key that makes no field |
| JsonLoss.NothingLostIff | src/inspector/main/evaluator.ts:404-432 | the whole result is that of a conversion that loses no field exactly if no way down comes to a record with such a field |
| JsonLoss.ProtoLost | src/inspector/main/evaluator.ts:422-426 | a record whose one field is an own `__proto__` comes back empty |
| ResultPipe.Reader.OnChunk | src/commands/test-result-pipe.ts:67-105 | a chunk keeps the reader's state that of all bytes seen |
| ResultPipe.MoreBytes | src/commands/test-result-pipe.ts:78-84 | no more bytes mend an error, and any more spoil a complete frame |
| ResultPipe.ReadAll | src/commands/test-result-pipe.ts:51-105 | however the bytes are split, the outcome is that of all of them at once |
| ResultPipe.FrameAccepted | src/commands/test-result-pipe.ts:85-104 | exactly the frames that fit and parse are read back |
| Brackets.OpensPush | src/commands/repl/colorizer.ts:71-75 | pushing an opener |
| Brackets.OpensPop | src/commands/repl/colorizer.ts:76-82 | popping the innermost one when its closer comes |
| Brackets.OpensCount | src/commands/repl/colorizer.ts:71-85 | the depth is the number of openers without a closer |
| ColorTokens.CommentClosedFirst | src/commands/repl/colorizer.ts:120-133 | a block comment ends at the first star and slash behind its opening |
| ColorEnds.StringEnds | src/commands/repl/colorizer.ts:140-165 | a string ends behind the first delimiter that an even number of backslashes precedes, and is broken exactly by such a newline in it |
| ColorEnds.RegexClosedIff | src/commands/repl/colorizer.ts:167-204 | an expression ends at exactly the slash, not escaped, in front of which its classes can be marked so that outside them there is no other slash or opening bracket |
| ColorEnds.RegexNewlineIff | src/commands/repl/colorizer.ts:172-177 | it is broken exactly by a newline in it that is not escaped, in a class or not |
| ColorBrackets.TokenShown | src/commands/repl/colorizer.ts:46-98 | a token shows the bracket it opens or closes, and no other |
| ColorBrackets.RestTidy | src/commands/repl/colorizer.ts:45-99 | after every token the stack is what the brackets so far leave open, with one open template or comment at the very end at most |
| ColorBrackets.ShownTokens | src/commands/repl/colorizer.ts:71-85 | without an error every bracket token is matched |
| ColorBrackets.FreshColors | src/commands/repl/colorizer.ts:35-108 | from a fresh state: the state is the stack of unmatched openers, the level its height, and a valid result with nothing open means balanced bracket tokens |
| Colorizer.JSColorizer.ParseString | src/commands/repl/colorizer.ts:140-165 | a string ends where its first unescaped delimiter stands; unclosed or broken ones are errors, open templates stay on the stack |
| Colorizer.JSColorizer.ParseRegex | src/commands/repl/colorizer.ts:167-204 | an expression ends at the first slash outside a class and leaves no class on the stack |
| Colorizer.JSColorizer.Token | src/commands/repl/colorizer.ts:46-98 | one iteration is one token of the functional scan |
| Colorizer.JSColorizer.Colorize | src/commands/repl/colorizer.ts:35-108 | one style per character, invalid exactly if one is an error, the scan's result, and from a fresh state the promise of `FreshColors` |
| Utf8Input.Decoder.ReadBytes | src/commands/repl/line-editor.ts:164-193 | feeding the encoding of any text emits exactly that text, from any decoder state |
| Utf8Input.DecodeOne | src/commands/repl/line-editor.ts:171-193 | the encoding of one scalar value gives that value, from any decoder state |
| Utf8Input.DecodeEncoded | src/commands/repl/line-editor.ts:164-193 | the encoding (section 3 of RFC 3629) of any text gives that text |
| Utf8Input.EncodingUnambiguous | src/commands/repl/line-editor.ts:164-193 | different texts have different encodings |
| LineEditor.CursorApart | src/commands/repl/line-editor.ts:376-387 | what the editor's invariant means: the cursor is in range and not inside a surrogate pair |
| LineEditor.Utf16Unambiguous | src/commands/repl/line-editor.ts:376-425 | the units determine the characters |
| LineEditor.RunUnits | src/commands/repl/line-editor.ts:506-510 | a run of word units ends where a character ends |
| LineEditor.RunBackUnits | src/commands/repl/line-editor.ts:512-516 | the same backwards |
| LineEditor.Editor.MoveCursor | src/commands/repl/line-editor.ts:376-387 | one whole character to either side |
| LineEditor.Editor.Insert | src/commands/repl/line-editor.ts:389-393 | the text before the cursor grows by the insertion |
| LineEditor.Editor.DeleteChar | src/commands/repl/line-editor.ts:395-406 | exactly one character goes |
| LineEditor.Editor.Transpose | src/commands/repl/line-editor.ts:408-425 | two characters change places, pairs kept together |
| LineEditor.Editor.WordForward | src/commands/repl/line-editor.ts:343-345 | over what is no word, then over a word, in characters |
| LineEditor.Editor.WordBack | src/commands/repl/line-editor.ts:342-344 | the same backwards |
| LineEditor.WordAheadIs | src/commands/repl/line-editor.ts:506-510 | characters in no word, then the whole of one word |
| LineEditor.WordBehindIs | src/commands/repl/line-editor.ts:512-516 | the same backwards |
| LineEditor.Editor.KillToEnd | src/commands/repl/line-editor.ts:322-325 | the rest of the line goes to the clipboard |
| LineEditor.Editor.KillWord | src/commands/repl/line-editor.ts:347-351 | the word ahead goes to the clipboard |
| LineEditor.Editor.KillWordBack | src/commands/repl/line-editor.ts:352-357 | the word behind goes to the clipboard |
| LineEditor.Editor.Yank | src/commands/repl/line-editor.ts:332-332 | the clipboard comes back whole |

## Left out

- Setup: one run at a time is assumed (the lock and its queue are not modelled), as are symlink refusal, file modes, path normalisation and backslash keys; a rename or an unlink that throws has had no effect, a write that throws or is cut off may leave a torn file.
- Setup: JSON, digests and the parsing of the marker are given functions; the transaction file's `original` list holds tree names by type, so names outside the three are not modelled; temporary names are unused by construction, as the process id, time and counter make them.
- Setup: the readiness probe reads the disk at one moment; a probe whose own reads are spread over another process's switch is not modelled. The local-copy branch of setup has no transaction and is left out.
- Pause protocol: native replies and resumes are not dropped while the channel is open, listeners do not throw, the native receive does not throw; the settle period is an oracle, timers may fire at any moment, pipe replies come only while the main thread runs. After the channel closes nothing is said about resumes.
- RpcClients.ChannelClient.DrainInbox: what the listener does is one list of turns, calls and closes for each event; lifecycle and control calls it makes do not concern the channel.
- Pause protocol: breakpoints, call frames, payloads and the native debug module; control operations are applied without an answer.
- NetworkDomain.Domain.OnWebSocketEvent: frames and the closing event are told without an announcement, as the source does; only responses, data and terminal events are guarded.
- NetworkDomain.Domain.StreamResourceContent: the answer is its size; which bytes it holds is modelled on the main thread's side alone (`BodyCapture.Capture.EnableStreaming`).
- Network domain: headers, timing, cookies, request bodies, websocket metadata and resource classification other than websocket or not; bodies are their sizes and flags.
- BodyCapture.Capture.ReapBuffer: a request the stale reaper touched is exempt from stream exactness until it finishes, though not from the counters; the ages that decide what is reaped are left to the caller.
- BodyCapture.Capture.EnableStreaming: the fetch half only; the serve half repeats it with its own tables, and limits read from the environment are constants.
- UrlPattern.CompileAndMatch: characters are UTF-16 units, as in the source.
- ExcludeWalk.Walker.Walk: no symbolic links, so a directory's identity is its path; case folding on Windows, unreadable directories and the resolution of relative patterns against a base are left out.
- ExcludeGlobs.BelowExcluded: a normalized pattern is taken not to end in a slash (`ExcludeGlobs.TestsBelow` says what it would do), and resolving one against the base directory is a given function; the path library both come from is not part of this model.
- GlobPattern.GlobSourceMeans: the regular expression engine is its denotation on the six pieces used; a trailing `**` does not cross a line break, as `.` does not.
- Command line: the option vocabulary is an abstract map, and normalising the arguments leaves tokens as they are; flag merging and the checks for unknown options are left out.
- JsonSafe.Converter.Convert: a getter that throws is a kind of value; proxies, getters that change the graph and holes in arrays are left out.
- ResultPipe.ReadAll: decoding and parsing of a frame are one given partial function; read errors and closing are single steps beside it.
- Colorizer.JSColorizer.Colorize: a text continued from an earlier state is scanned as the functional scan says, but the bracket theorem starts from a fresh state.
- Utf8Input.DecodeOne: overlong forms, encoded surrogates and values beyond the last scalar are accepted by the decoder, as in the source; what the host makes of such a code is not modelled.
- Line editor: tab completion (its common prefix is taken unit by unit), escape sequences, bracketed paste, history and drawing.
- Everything that is input and output around these cores: the HTTP discovery server, process spawning, module loading and the REPL evaluator.

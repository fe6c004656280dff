# lpm, verified

A Dafny model of the parts of lpm whose correctness depends on order, failure or repetition,
with proofs of what they keep. `dafny verify dfyconfig.toml` checks all of it.

**Sharing a tab.** `Room` is the relay's room as a state machine over sockets, storage and an
alarm; `RoomSafety` proves what every reachable state keeps, `RoomFifo` that the room is a set
of independent queues, `RoomEffects` what every event does to each socket and to storage, and
`RoomObject` that the handlers, changing sockets one by one, come out where the machine says.
`Noise` and `NoiseSession` cut frames into sealed pieces and put them together again, `Channel`
and `ChannelObject` carry them over the two promise chains of the page, `Screen` places terminal
output by byte offset, and `ScreenReach` says how far it comes. `Share` puts room and session
together: what a run of one side's channel puts on the way the other side opens, among whatever
else happens in the room.

**The Tailscale node.** `Node` has one step for each critical section of the node's mutex and
for each move outside of it; `NodeSafety` proves what every run keeps, `NodeShown` what is shown
and done when, `NodeObject` has the locked sections as methods.

**Configuration.** `Layers` merges entries field by field, `ConfigResolve` resolves a project
from all its files, `ConfigOrder` says which file has the say over what, `ActionTree` lets
children inherit and `Order` sorts them, `DependencyGraph` and `ServiceCheck` check the
services, `ConfigAccept` decides whether a shared file may be written, and `RunTargets` finds
what `lpm run` is to run.

**Talking to the app.** `SocketLine` (with `Hex` and `Utf8`) quotes a command line and takes it
apart, `AgentWatch` waits for agents to settle, `JobMove` moves an automation between files,
`JobFields` (with `Mapping`) writes flags into one, and `JobValues` says what each leaves there.

## What the proofs found

- A frame over 16 MiB ends a session for good: the size `open` keeps is never set back, so no
  later frame comes out, whatever arrives. That makes the frames handed on a first part of
  those sent even after a failure (`Noise.Overgrown`, `Channel.ChannelIsFifo`).
- The nonce counter is a JavaScript number, which stops growing at 2^53: nonces are distinct
  exactly up to there (`Noise.NoncesDiffer`).
- A page that gets a `ready` for a second terminal keeps the first one's offset for it. That does
  no harm exactly while it has no offset, or the offset 0; past that the page is right only if
  the two terminals' outputs happen to agree where it has drawn (`Screen.SwitchMixes`,
  `Screen.SwitchNeedsSameOutput`). The next seed
  puts the page right again, and one that clears the terminal the whole screen
  (`Screen.SeedRepairs`).
- A seed that does not clear the terminal keeps the screen right exactly when it goes on from
  where the page is (`Screen.FaithfulExactlyWhen`). For one that answers a subscription, with no
  other seed since, that is exactly when nothing was drawn since the subscription was sent
  (`Screen.AnswerIsFaithful`); a piece that was thought lost and then comes is drawn twice
  (`Screen.LatePieceIsDrawnTwice`).
- A quoted empty argument does not survive the server's splitter; lists of arguments come back
  exactly when none is empty (`SocketLine.QuotedArgsSurvive`).
- A comment in the agent wait says a failed poll reads as nothing new. It does exactly while no
  agent has been seen running; after that the failure ends the wait
  (`AgentWatch.FailedPollSettles`). When the very first poll fails, the wait can end too early,
  exactly when old reports pass for new ones, and can go on too long, exactly when all there was
  to tell is that an agent working at first is gone (`AgentWatch.FailedFirstPoll`).
- Moving an automation can lose it, in exactly one way: another one is where it should go, the
  first read fails, the save does not happen, and the second read gets through
  (`JobMove.ExactlyWhenLost`). A move can report success and leave both entries, exactly when
  the second read fails (`JobMove.SuccessLeavesTheNewOne`). An entry that is not a mapping, or
  that the first read did not show, is written over (`JobMove.ExactlyWhenOverwritten`).
- Two actions can share an id. With keys that hold no colon they do exactly when an entry under
  the empty key at the top has a key of the top level (`RunTargets.OwnIdsExactlyWhen`); a key
  with a colon that spells the way to another entry takes that one's id
  (`RunTargets.ColonKeyCollides`).

## Assumptions

- A room handler is one step from its first storage read. `send` reaches only an open socket, a
  socket the room closed delivers no more messages, and it stays listed until its leave event.
  The text of a command is what JSON reads it as. Two guests never draw the same eight random
  bytes, where a statement says so.
- Encryption is symbolic: a message opens only under the key, nonce and data it was sealed with,
  and the handshake left both ends with crossed keys.
- The host's chunks of output say truthfully where they end. JavaScript's `encoder` turns a
  chunk into the bytes the host counted.
- A file is what it parses to, and paths compare as written. Positions are real numbers.
- `trim`, `lower`, `expand` and the like are parameters, so what is proved holds whatever they do.
- While an automation is moved nobody else changes the same entries. A request that fails may
  or may not have been carried out; one that is answered was.

## Model

| member | source | states |
|---|---|---|
| `Hex.HexRoundTrip` | relay/src/room.ts:33-39 | an id kept as hex comes back as the same bytes, two characters a byte |
| `Room.OpenHost` | relay/src/room.ts:67-69 | finds an open host socket whenever there is one, and nothing otherwise |
| `RoomSafety.WhoMayBeOpen` | relay/src/room.ts:67-183 | over every run at most one host is open, at most 16 guests are held, and an open guest was let in by the latest host connection, which is open or about to leave |
| `RoomSafety.StorageNeverLeaks` | relay/src/room.ts:74-188 | over every run a stored claim or end has an open host, a pending host leave or the alarm to clear it; the alarm means no open host; ended means the alarm, no claim and no open socket |
| `RoomSafety.EndedLasts` | relay/src/room.ts:80-84 | an ended room stays ended until the alarm or its owner's token |
| `RoomSafety.ClaimLasts` | relay/src/room.ts:79-86 | a claim changes hands only by the alarm, the owner's token, or an open host ending the share |
| `RoomSafety.StepKeeps` | relay/src/room.ts:55-189 | every event keeps the invariant of sockets and storage |
| `RoomSafety.CodesTellWhy` | relay/src/room.ts:18-27 | an open socket is closed with a code if and only if what the code stands for happened (replaced by an accepted host, its host reconnected, closed by the host, no host, ended, too big, other end gone), and is gone if and only if its leave event came |
| `RoomSafety.ClosedForGood` | relay/src/room.ts:164-172 | a closed socket keeps its code until its leave event, which is its last |
| `RoomFifo.RoomIsFifo` | relay/src/room.ts:104-144 | over every run with distinct ids each guest receives exactly the non-empty bodies its host addressed to it, in order, its host that it joined and then its messages under its id, in order, and no other host hears of it beyond its leaving |
| `RoomFifo.StepKeepsLinks` | relay/src/room.ts:104-183 | every event keeps both directions of every guest's queue |
| `RoomEffects.HostIsLetIn` | relay/src/room.ts:74-95 | each answer to a host's token, if and only if for all four, and that only one let in gets a socket |
| `RoomEffects.GuestIsLetIn` | relay/src/room.ts:61-114 | each answer to a guest, if and only if for all four, and that one let in comes to the open host under its own id |
| `RoomEffects.StorageChanges` | relay/src/room.ts:79-188 | exactly which events set and clear the claim, the ended mark and the alarm; the alarm of a room without a host forgets it |
| `RoomEffects.InboxesTellAll` | relay/src/room.ts:104-181 | over every run an event brings a socket a note if and only if it is open and the event is a guest joining or leaving, or a message routed to it, with exactly these bytes |
| `RoomEffects.HostIsToldAll` | relay/src/room.ts:104-168 | over every run with distinct ids a host still connected was told of each of its guests that it joined, all its messages, and, if and only if it left, that it did |
| `RoomObject.RelayRoom.FindOpenHost` | relay/src/room.ts:67-69 | the search along the sockets finds the host the machine finds |
| `RoomObject.RelayRoom.CountGuests` | relay/src/room.ts:107 | counts exactly the guests still held |
| `RoomObject.RelayRoom.HostConnected` | relay/src/room.ts:74-95 | claims, refuses or replaces as the machine's host step |
| `RoomObject.RelayRoom.GuestConnected` | relay/src/room.ts:104-114 | admits a guest and tells the host, or refuses, as the machine's guest step |
| `RoomObject.RelayRoom.MessageArrived` | relay/src/room.ts:116-144 | routes, closes or drops a message as the machine's message step |
| `RoomObject.RelayRoom.Obey` | relay/src/room.ts:146-162 | closes a guest or ends the share as the machine's command step |
| `RoomObject.RelayRoom.Left` | relay/src/room.ts:164-183 | tells the host, or closes the guests and sets the alarm, as the machine's leave step |
| `RoomObject.RelayRoom.AlarmWentOff` | relay/src/room.ts:186-188 | forgets a room without an open host |
| `Noise.NoncesDiffer` | relay/public/noise.js:63-68 | two nonces of a key differ if and only if the earlier one is among the first 2^53 |
| `Noise.NonceBytes` | relay/public/noise.js:63-66 | each of the twelve bytes of a nonce: four zeros, then the counter, its highest byte first |
| `Noise.FrameRoundTrip` | relay/public/noise.js:109-134 | sealing and opening a frame gives it back if and only if it is within 16 MiB, and leaves the receiver ready for the next |
| `Noise.OpenRest` | relay/public/noise.js:121-134 | part of a frame's messages give no frame, all of them exactly the frame when it fits |
| `Noise.OpensExactly` | relay/public/noise.js:121-134 | a message opens if and only if it is a flagged piece sealed under this key and the very next nonce, of a size that fits; and what it hands on |
| `Noise.Overgrown` | relay/public/noise.js:126-127 | after a frame over the limit no frame ever comes out again |
| `Noise.OpenStream` | relay/public/noise.js:109-134 | any first part of a stream of frames opens to a first part of the frames before the first too long one, and all of it to all of those |
| `Noise.SealedLengths` | relay/public/noise.js:109-122 | no sealed message fails a length check in `open` |
| `Noise.CallsCount` | relay/public/noise.js:61-77 | every message of the right size takes one nonce, opened or not |
| `NoiseSession.PiecesByNumber` | relay/public/noise.js:111-115 | the pieces sliced out by number, with their flags, are those cut off from the front |
| `NoiseSession.CipherState.Params` | relay/public/noise.js:63-68 | takes the nonce of the counter, laid out as `Noise.NonceBytes` says, and moves the counter on |
| `NoiseSession.Session.Seal` | relay/public/noise.js:109-118 | gives the frame's sealed pieces under consecutive nonces |
| `NoiseSession.Session.OpenMessage` | relay/public/noise.js:121-134 | opens one message in place as the receiver of the model does |
| `Channel.ChannelIsFifo` | relay/public/channel.js:28-77 | over every interleaving of sends, sealings, deliveries and a cut the frames handed on are the first ones sent, only a frame over 16 MiB makes one fail, and with nothing left on the way of an open socket all deliverable ones came out |
| `Channel.OnlyInOrder` | relay/public/noise.js:61-77 | of messages lost, repeated, reordered, cut short or made up without the key: as long as none failed to open, those that came are the first ones sealed, and their frames the first ones sent |
| `Channel.CanDrain` | relay/public/channel.js:28-77 | from any moment of any run with the socket open, some steps without a new frame hand on every deliverable one |
| `Channel.NoncesInStep` | relay/public/channel.js:28-77 | both counters equal their message counts and the messages opened are the first ones sealed |
| `Channel.NoncesNeverRepeat` | relay/public/noise.js:61-68 | over every run two sealed messages have different nonces if and only if the earlier is among the first 2^53 |
| `Channel.LengthsPass` | relay/src/room.ts:118-119 | over every run no sealed message is too long for `open` or, from either side, for the room |
| `Channel.LinkIsSteps` | relay/public/channel.js:38-45 | one link of the outgoing chain run alone is the machine's piece-by-piece sealing of that frame |
| `Channel.PutIsStream` | relay/public/channel.js:38-45 | over every run the messages given to the socket are the first of those that carry the frames sent, and all of them once the last frame was given |
| `ChannelObject.ChannelEnd.RunOutgoing` | relay/public/channel.js:38-45 | seals the next queued frame and sends it only on an open socket |
| `ChannelObject.ChannelEnd.RunIncoming` | relay/public/channel.js:61-77 | opens the next queued message, hands on a whole frame, and closes the socket on a failure |
| `Share.GuestGetsFrames` | relay/src/room.ts:116-144 | over every run of the host's channel and every run of the room with distinct ids, whatever else happens in it, what a guest reads is its part of the handshake, and after it messages that open to the first of the frames the host sent; while the guest is connected the handshake is read whole and, once all messages were taken by the room, every deliverable frame comes out |
| `Share.HostGetsFrames` | relay/src/room.ts:116-138 | the same from a guest's handshake and channel to its host, out of what the host was told of that guest |
| `Share.AddressedIsBodies` | relay/src/room.ts:116-144 | bodies of at most a Noise message's length are all routed, whole and in order |
| `Screen.DrawnIsTheStream` | relay/public/app.js:202-247 | for any schedule of truthful chunks in which an accepted seed follows every switch in the middle of a terminal's output, what was drawn since the last seed is the host's output from that seed's end to `end`, and at most one gap resync is outstanding |
| `Screen.EndNeverGoesBack` | relay/public/app.js:206-220 | between seeds `end` never goes back and nothing drawn is taken back |
| `Screen.SwitchMixes` | relay/public/app.js:224-246 | after any such schedule a `ready` keeps the page right whatever the terminals put out if and only if it names the same terminal or the page has no offset past 0 |
| `Screen.SwitchNeedsSameOutput` | relay/public/app.js:224-246 | for given outputs it keeps the page right if and only if both terminals' outputs agree where the page has drawn |
| `Screen.AnotherTerminalMixes` | relay/public/app.js:224-246 | a schedule after which the page holds one terminal's output for another's |
| `Screen.SeedRepairs` | relay/public/app.js:237-244 | an accepted seed puts the page right from any state, one that clears the terminal also the screen |
| `Screen.SeedIsFaithful` | relay/public/app.js:237-244 | on a right screen only a seed that does not clear, with an offset on both sides, can go wrong; it keeps the screen right if and only if it goes on from `end` |
| `Screen.ScreenIsFaithful` | relay/public/app.js:202-247 | over every run in which an accepted clearing seed follows every such switch and every seed that does not go on from where the page is, the screen is what was there when the page began to follow the output and then the host's output up to `end` |
| `Screen.FaithfulExactlyWhen` | relay/public/app.js:202-247 | over a run without such a switch the screen is right at every moment if and only if every seed goes on from where the page is |
| `Screen.AnswerIsFaithful` | relay/public/app.js:202-204 | a seed going on from where a subscription asked keeps the screen right if and only if nothing was drawn since the subscription was sent |
| `Screen.LatePieceIsDrawnTwice` | relay/public/app.js:211-217 | a schedule of a late piece and a seed after which the screen holds a piece twice |
| `ScreenReach.EndIsReached` | relay/public/app.js:206-220 | between seeds the page's end is at or past an offset if and only if the chunks it was sent reach it in a chain without a gap, from where it was |
| `ScreenReach.AsksExactlyWhen` | relay/public/app.js:202-246 | over every run it asks again if and only if a `ready` comes, or a chunk leaves a gap while no answer is due, and names its end |
| `ScreenReach.WaitsAfterGap` | relay/public/app.js:209-240 | since the last seed it waits for an answer if and only if some chunk left a gap |
| `ScreenReach.ScreenSinceSeed` | relay/public/app.js:237-244 | the screen is what the last seed wrote, on a cleared terminal or after what was there, and then what was drawn |
| `ScreenReach.NothingBeforeSeed` | relay/public/app.js:209-210 | before the first seed nothing is drawn |
| `Screen.Page.OutputChunk` | relay/public/app.js:206-220 | places, skips or asks again in place as the model's step, whose effect `ScreenReach.EndIsReached` and `ScreenReach.AsksExactlyWhen` say |
| `Screen.Page.OnLive` | relay/public/app.js:222-247 | handles a frame in place as the model's step |
| `Node.FromStatus` | tailnet/node/node.go:513-549 | the state shown is the backend's, for each state if and only if, and the sign-in URL, reason, account, tailnet and addresses are the backend's where they apply and empty elsewhere |
| `NodeSafety.NodeIsConsistent` | tailnet/node/node.go:82-141 | over every run no server means no client, no listeners and off or starting, a server means not off, and a server is closed at most once and only after its start came back |
| `NodeSafety.TakenOutIsSilent` | tailnet/node/node.go:122-483 | a server taken out is never the node's again and no step of its goroutines changes the node |
| `NodeSafety.NoLostWakeup` | tailnet/node/node.go:195-214 | over every run a waiter's channel is closed exactly by the step that made the next version, never twice, and an answer is a different version or came late |
| `NodeSafety.VersionsOnlyGrow` | tailnet/node/node.go:502-510 | every step leaves the board or makes the next version and closes the channel of the one before |
| `NodeSafety.NobodySleepsThrough` | tailnet/node/node.go:263-288 | nobody waiting to dial sleeps on an open channel while a server's state is decided |
| `NodeSafety.GotWhileRunning` | tailnet/node/node.go:263-288 | a server handed out was the node's, running and not closed when it was read |
| `NodeSafety.RelistenMatches` | tailnet/node/node.go:460-483 | afterwards every listener is wanted with its target, and was there before or is a new one on a port that can be listened on; every wanted such port has one, and those already right are kept |
| `NodeSafety.LeavingIsNotStopped` | tailnet/node/node.go:410-419 | over every run, from a state that is not stopped and as long as signing out lasts, the status is never stopped, whatever the backend reports |
| `NodeShown.ShownIs` | tailnet/node/node.go:410-420 | a refresh shows the backend's state, but for a stop while signing out, and says so when a running node is cut off |
| `NodeShown.StepShows` | tailnet/node/node.go:82-458 | exactly which events post a status, and which |
| `NodeShown.StatusIsLastPosted` | tailnet/node/node.go:82-510 | over every run the status is what the last event to post anything posted |
| `NodeShown.VersionMoves` | tailnet/node/node.go:502-510 | the version moves on if and only if something else is posted than is shown, or for the first time |
| `NodeShown.ServersMove` | tailnet/node/node.go:340-458 | how each server moves on with each event, and when it is closed |
| `NodeShown.NodeMoves` | tailnet/node/node.go:82-483 | which event sets server, client, listeners, forwards, signing out and cut off, and to what |
| `NodeShown.EveryServerIsClosed` | tailnet/node/node.go:82-141 | over every run each server is the node's, or waits for the one stop that took it, or was closed once; and once its start came back it can be closed |
| `NodeShown.RestartIsNeverOff` | tailnet/node/node.go:117-132 | once started or restarted, a node is never shown as off until it is stopped for good |
| `NodeShown.RunningIsHandedOut` | tailnet/node/node.go:263-288 | over every run, once the node's server has reported that it runs, until the next report or stop and whatever else happens, whoever waits to dial gets that server when it looks |
| `NodeShown.NodeCanRun` | tailnet/node/node.go:82-420 | from any moment some steps lead to a running node that hands its server out |
| `NodeShown.WaitsAreAnswered` | tailnet/node/node.go:195-214 | a wait is answered at once, by its channel or by its deadline, exactly then and with the version there is |
| `NodeShown.DialsAreAnswered` | tailnet/node/node.go:263-288 | who waits to dial is given the server, refused or left waiting, exactly for which states |
| `NodeObject.TailnetNode.SetLocked` | tailnet/node/node.go:502-510 | posts a status in place as the model does |
| `NodeObject.TailnetNode.Start` | tailnet/node/node.go:82-106 | takes the node where the machine's start step takes it, in every state with this node, and succeeds when it runs already or its folder is ready |
| `NodeObject.TailnetNode.TakeOut` | tailnet/node/node.go:122-132 | takes the node where the machine's stop step takes it, and hands over the server that step leaves to be closed |
| `NodeObject.TailnetNode.SetPorts` | tailnet/node/node.go:218-223 | the copying loop makes the machine's forwards step |
| `NodeObject.TailnetNode.SetClient` | tailnet/node/node.go:352-358 | for a server whose start came back, makes the machine's client step, and tells whether its goroutines go on |
| `NodeObject.TailnetNode.Relisten` | tailnet/node/node.go:460-483 | the two loops make the machine's relisten step |
| `NodeObject.TailnetNode.Refresh` | tailnet/node/node.go:400-420 | for a watching server, makes the machine's refresh step |
| `NodeObject.TailnetNode.Fail` | tailnet/node/node.go:442-448 | for a failing server, makes the machine's fail step |
| `NodeObject.TailnetNode.SetCutOff` | tailnet/node/node.go:422-428 | for a watching server, makes the machine's cut-off step |
| `NodeObject.TailnetNode.NoteError` | tailnet/node/node.go:450-458 | for a watching server, makes the machine's error step |
| `NodeObject.TailnetNode.ReadForDial` | tailnet/node/node.go:263-278 | answers a dial as the machine's reading step does, from server and state read together |
| `DependencyGraph.FindCycle` | cli/src/config_cmd.rs:972-1005 | ends on every graph, reports a closed walk along dependencies, and does so if and only if a cycle can be reached from a service, or there is one at all when every key is a service |
| `DependencyGraph.Search.Visit` | cli/src/config_cmd.rs:972-995 | finishes a name with all it depends on, or finds a cycle |
| `DependencyGraph.FinishedHasNoCycle` | cli/src/config_cmd.rs:992-993 | no cycle starts at a finished name |
| `DependencyGraph.DeclaredReachesAll` | cli/src/config_cmd.rs:996-1005 | with all keys declared a cycle can be reached if and only if there is one |
| `ServiceCheck.CheckServices` | cli/src/config_cmd.rs:1565-1604 | the report is that sequence of errors: the missing service, each service's command and taken port in name order, unknown dependencies, one cycle when there is any, unknown profile members, each as often as it is listed |
| `ServiceCheck.ReportIs` | cli/src/config_cmd.rs:1565-1604 | exactly which errors are in the report: every blank command, unknown dependency, unknown profile member and missing service, each service on a taken port with the last one before it on that port, and the cycle found |
| `ServiceCheck.ReportIsOrdered` | cli/src/config_cmd.rs:1565-1604 | missing services, then by name each service's command and port, unknown dependencies, the cycle, and by name unknown members of profiles |
| `ServiceCheck.UnknownKeepsCopies` | cli/src/config_cmd.rs:962-971 | an unknown name is reported as often as it is listed |
| `ServiceCheck.ReportIsSound` | cli/src/config_cmd.rs:1565-1604 | what is in the report is true, and it is empty if and only if nothing can be said against the project |
| `Order.BeforeIsTransitive` | cli/src/config.rs:970-980 | the order by position, those without last, then name, is transitive |
| `Order.SortedIsUnique` | cli/src/config.rs:970-980 | names have one sorted order only |
| `Order.SortByPosition` | cli/src/config.rs:970-980 | sorts names into that order |
| `Order.PositionsDoNotFall` | cli/src/config.rs:970-980 | in the sorted list positions do not fall, entries with one come first, and ties go by name |
| `Order.LessIsLexicographic` | cli/src/config.rs:970-980 | names compare at the first character they differ in |
| `Layers.OverIsAssociative` | cli/src/config.rs:806-852 | merging actions is associative |
| `Layers.ServiceOverIsAssociative` | cli/src/config.rs:708-727 | merging services is associative |
| `Layers.FlatConcat` | cli/src/config.rs:731-804 | layers merged in groups come out as one flat list of them |
| `Layers.FlatIsCombined` | cli/src/config.rs:792-804 | a key is merged from exactly the entries declared under it, in order |
| `Layers.FieldIsFirst` | cli/src/config.rs:806-852 | a field that falls back is the first one that is not empty |
| `Layers.RangePorts` | cli/src/config.rs:247-265 | a port range, either way round, is its valid ports in ascending order, cut after 1024 |
| `Layers.PortsAre` | cli/src/config.rs:239-282 | a port is among those of a list if and only if an entry stands for it |
| `Layers.ExpandPorts` | cli/src/config.rs:239-282 | the pushing loops give the ports of all entries in order |
| `ConfigResolve.MergeInto` | cli/src/config.rs:737-804 | merging entry by entry is the merge of the two layers |
| `ConfigResolve.BuildBaseLayer` | cli/src/config.rs:761-771 | a file's actions, and its terminals where no action has the name |
| `ConfigResolve.BuildLayer` | cli/src/config.rs:774-790 | a file with its templates is one flat list of layers |
| `ConfigResolve.MergeActions` | cli/src/config.rs:1064-1084 | project, parent, folder and global files, each with its templates, are one flat list of layers, whose order `ConfigOrder.FieldComesFrom` tells from the files |
| `ConfigResolve.MergeServices` | cli/src/config.rs:1019-1047 | services and profiles come from project, parent and folder, never the global file |
| `ConfigResolve.ResolveProject` | cli/src/config.rs:998-1102 | the step-by-step resolution is the flat one, failing only when the project's own file does |
| `ConfigResolve.ActionFromLayers` | cli/src/config.rs:806-852 | each field of a merged action is the first non-empty one of its layers, confirming and reusing hold when any layer says so, and its block is the first declaring layer's |
| `ConfigResolve.ServiceFromLayers` | cli/src/config.rs:708-727 | a merged service's fields fall back, its dependencies come only from the first declaring layer |
| `ConfigOrder.FieldComesFrom` | cli/src/config.rs:1064-1084 | a field of a merged action is what the first of these says that says anything: own file, parent's, folder's, global, in each the file's action, or else its terminal, before its templates in turn, the `yml` file before the `yaml` one |
| `ConfigOrder.ActionIsMerged` | cli/src/config.rs:806-852 | so for every field, and an action is there if and only if one of them declares it |
| `ConfigOrder.ServiceIsMerged` | cli/src/config.rs:1019-1047 | the same for services over own, parent's and folder's file; dependencies are the first declaring file's |
| `ConfigOrder.ProfileIsMerged` | cli/src/config.rs:1041-1045 | a profile is the first declaring file's |
| `ConfigOrder.ProjectComesFrom` | cli/src/config.rs:998-1102 | a project resolves if and only if its own file is there and parses; then its name, root and title are that file's, and services, profiles and actions come from the files in that order |
| `ActionTree.TreeInherits` | cli/src/config.rs:855-967 | at any depth an entry's folder and kind come from the nearest entry naming one, its variables from all on the path, the deeper winning |
| `ActionTree.ListsPartition` | cli/src/config.rs:1107-1131 | terminals and actions share the merged entries out between them, each list in order |
| `ActionTree.SplitNames` | cli/src/config.rs:1110-1121 | picks and sorts the names of both lists |
| `ConfigAccept.OverrideIsWriting` | cli/src/config.rs:468-489 | resolving with a candidate in place of a file is resolving after it was written |
| `ConfigAccept.SharedFileKeepsLoading` | cli/src/config_cmd.rs:526-543 | a shared file never decides whether a project loads |
| `ConfigAccept.PartitionNewErrors` | cli/src/config_cmd.rs:591-605 | the count map gives each error its part, in order |
| `ConfigAccept.PartitionSplits` | cli/src/config_cmd.rs:589-605 | the existing part is the errors common with the baseline counting copies, the new part the rest, empty if and only if the errors are contained in the baseline |
| `ConfigAccept.PartsKeepOrder` | cli/src/config_cmd.rs:596-604 | either part is a subsequence of the errors |
| `ConfigAccept.NewErrorsAre` | cli/src/config_cmd.rs:589-605 | what is held against a candidate is, counting copies, exactly the errors a project that loads does not have today, in order |
| `ConfigAccept.AllNewErrorsAre` | cli/src/config_cmd.rs:545-570 | and what is reported exactly those of each project, with its name |
| `ConfigAccept.NoErrorsMeansSound` | cli/src/config_cmd.rs:545-570 | a project is without errors if and only if it loads and nothing is wrong with it; otherwise the reason it does not load is its only error |
| `ConfigAccept.ValidateCandidate` | cli/src/config_cmd.rs:508-570 | a shared candidate without schema errors is accepted if and only if no project that loads today gets an error it does not have today, counting copies; any other must leave its project without errors |
| `RunTargets.CollectRunTargets` | cli/src/run.rs:21-38 | the recursive walk lists every entry, parents first |
| `RunTargets.ListIsPreorder` | cli/src/run.rs:21-46 | the list has every entry of the tree once, with its title and under the keys on its way with colons between them, an entry before all below it and those before the next beside it |
| `RunTargets.IdsAreDistinct` | cli/src/run.rs:29-46 | with keys that hold no colon all ids are distinct, at every depth, if and only if no child of an entry with the empty key at the top is empty or named like an entry at the top |
| `RunTargets.OwnIdsExactlyWhen` | cli/src/run.rs:21-46 | the same for a project's merged actions: if and only if no entry under the empty key has a key of the top level |
| `RunTargets.ColonKeyCollides` | cli/src/run.rs:40-46 | a key with a colon that spells the way to another entry takes its id |
| `RunTargets.SomeKeysCollide` | cli/src/run.rs:40-46 | merged actions for which each of the two happens |
| `RunTargets.LeafKeyIsName` | cli/src/run.rs:48-50 | the last part of an id is the entry's own key |
| `RunTargets.IdResolvesToItself` | cli/src/run.rs:61-64 | an id in the list always resolves to itself |
| `RunTargets.QueryIsDecided` | cli/src/run.rs:61-100 | a query is answered by the only match of the first tier with any match, ambiguous when that has more, and fails when none has any, if and only if no two targets have the query as their id |
| `RunTargets.ResolvesInOrder` | cli/src/run.rs:61-100 | an id stands for itself; any other query is answered by the last part of ids, or else their beginning, or else either in any case, or else the title in any case: the only match, or ambiguous with all of them |
| `RunTargets.OneAnswerFits` | cli/src/run.rs:52-60 | those words leave one answer to every query |
| `RunTargets.BareKeyFinds` | cli/src/run.rs:55-58 | a bare key of one entry finds it whatever ids start with it |
| `RunTargets.EveryEntryCanBeRun` | cli/src/run.rs:21-64 | of a project's merged actions every id picks itself, and with keys that hold no colon each entry has its own if and only if no entry under the empty key has a key of the top level |
| `Utf8.TextRoundTrip` | cli/src/statussock.rs:75-80 | a text comes back from its bytes |
| `Utf8.BytesRoundTrip` | cli/src/statussock.rs:206 | bytes that decode are those of the text they decode to |
| `SocketLine.ShellSplit` | cli/src/statussock.rs:217-238 | the loop over quote flags splits as the scan does |
| `SocketLine.QuoteAddsText` | cli/src/statussock.rs:51-59 | a quoted text adds itself, unchanged, to the word it stands in |
| `SocketLine.LineSplits` | cli/src/statussock.rs:51-59 | the server gets every word of a line, put together from plain, quoted and double-quoted parts, as it was meant, but for empty ones |
| `SocketLine.OpenQuoteRuns` | cli/src/statussock.rs:217-238 | a quote that is never closed runs to the end of the line |
| `SocketLine.QuotedArgsSurvive` | cli/src/statussock.rs:51-59 | quoted arguments come back unchanged if and only if none is empty |
| `SocketLine.CheckedArgIsOneWord` | cli/src/statussock.rs:61-70 | an identifier is refused if and only if it would break the line, and otherwise arrives as it is |
| `SocketLine.HexTextRoundTrip` | cli/src/statussock.rs:72-80 | any text comes back from its hex form |
| `SocketLine.PairIs` | cli/src/statussock.rs:197-205 | a pair of characters is a byte if and only if it is two hex digits of either case, or a plus sign and one |
| `SocketLine.TextOptArrives` | cli/src/statussock.rs:82-98 | a text option adds exactly two words on one line, `--name=` with a space for every line break and `--name-hex=` with a hex form the text comes back from whole |
| `AgentWatch.Watch.TakePoll` | cli/src/waitagent.rs:61-77 | the answer to a poll is told exactly by all the polls so far |
| `AgentWatch.Wait` | cli/src/waitagent.rs:94-150 | stops at the first poll that settles the agents, or at the deadline when none does |
| `AgentWatch.OwnPaneDoesNotMatter` | cli/src/waitagent.rs:48-53 | polls that differ only in entries of the caller's own pane give the same answers |
| `AgentWatch.OtherPanesMatter` | cli/src/waitagent.rs:48-77 | a first report settles a wait if and only if it is another pane's, of an agent that is not working |
| `AgentWatch.LeftoversDoNotSettle` | cli/src/waitagent.rs:20-25 | statuses left from before do not settle a wait |
| `AgentWatch.FailedPollSettles` | cli/src/waitagent.rs:100-102 | a failed poll settles the wait if and only if an agent was seen running before |
| `AgentWatch.FailedFirstPoll` | cli/src/waitagent.rs:100-103 | at which polls a failed first poll ends the wait where it would not have ended, and at which it goes on where it would have: if and only if for both |
| `AgentWatch.FailedFirstPollMisleads` | cli/src/waitagent.rs:100-103 | polls for which each of the two happens |
| `JobMove.ScopeIsKept` | cli/src/job_move.rs:12-42 | home and body together say which scope was chosen, and nothing else of the body changes |
| `JobMove.ScopesHaveOneForm` | cli/src/job_move.rs:12-42 | no two scopes are saved alike |
| `JobMove.HomeIs` | cli/src/job_move.rs:12-42 | exactly the automations of one project are kept in its own config, and only those kept globally for some projects list them |
| `JobMove.FolderKeepsIts` | cli/src/job_move.rs:53-59 | changing where it runs can succeed for an automation if and only if it does not travel with its folder; one that does is never touched |
| `JobMove.App.Rescope` | cli/src/job_move.rs:46-81 | the requests go through the states of the model, in that order |
| `JobMove.ExactlyWhenLost` | cli/src/job_move.rs:65-80 | when, of all ways requests can fail, the automation is in neither place at some moment |
| `JobMove.NeverNeither` | cli/src/job_move.rs:72-80 | whatever fails, at every moment it is in one of the two places, if and only if the new one is not taken by another that can be read |
| `JobMove.ExactlyWhenOverwritten` | cli/src/job_move.rs:65-73 | when another automation's entry is changed |
| `JobMove.TruthfulReadsKeepOthers` | cli/src/job_move.rs:65-73 | with a first read that gets through no readable entry is written over |
| `JobMove.SuccessLeavesTheNewOne` | cli/src/job_move.rs:73-80 | a successful move has the new entry, changes no other, and leaves no old one if and only if the second read got through |
| `JobMove.SucceedsExactlyWhen` | cli/src/job_move.rs:46-81 | success is reported if and only if the save was answered and it runs, nothing was seen at the new home, and the old entry was deleted or the new one not read |
| `JobMove.StaysInPlace` | cli/src/job_move.rs:60-64 | one that stays where it is kept is written over there and nothing else is touched |
| `Mapping.DoAllTwice` | cli/src/job_fields.rs:437-448 | the same changes to different keys made twice are the changes made once, order included |
| `JobFields.Apply` | cli/src/job_fields.rs:229-277 | writes the flags in place, key by key, as the model does, or refuses them |
| `JobFields.ApplyRun` | cli/src/job_fields.rs:323-376 | edits the run in place as the model does |
| `JobFields.ApplyDuplicate` | cli/src/job_fields.rs:378-434 | edits the copy options in place as the model does, and changes nothing when it refuses |
| `JobFields.BuildSchedule` | cli/src/job_fields.rs:279-318 | builds the schedule step by step as the model does |
| `JobFields.SchedulesAreOneShape` | cli/src/job_fields.rs:4-6 | a schedule by hand or by cron line has nothing else in it |
| `JobFields.ApplyTwice` | cli/src/job_fields.rs:229-434 | the same flags twice are the flags once, key order included, and the second time never fails |
| `JobFields.OtherKeysStay` | cli/src/job_fields.rs:4-6 | only the fields given change |
| `JobFields.WorktreeIsBare` | cli/src/job_fields.rs:418-426 | a worktree an edit writes carries neither pullLatest nor excludeUncommitted |
| `JobFields.CommandOrPrompt` | cli/src/job_fields.rs:320-347 | a command and a prompt stand together after an edit only if they did before and no target flag was given |
| `JobFields.CommandOrPromptInJob` | cli/src/job_fields.rs:238-245 | an entry whose run has no command beside a prompt has none after any edit |
| `JobValues.EveryKeyIs` | cli/src/job_fields.rs:229-277 | after an edit every key of the entry has what its own flag leaves there: the trimmed text, nothing for an empty one, what was there without the flag |
| `JobValues.ScheduleIs` | cli/src/job_fields.rs:279-318 | and every key of the schedule |
| `JobValues.CopyIs` | cli/src/job_fields.rs:378-434 | and the copy: nothing with `off`, a bare `true` with no option left, otherwise each option as its flag leaves it |
| `JobValues.RunIs` | cli/src/job_fields.rs:323-376 | and every key of the run, a command replacing all of it, an action what only an agent needs, and a prompt the command |
| `JobValues.RefusedExactlyWhen` | cli/src/job_fields.rs:378-434 | which flags are refused: copy options without a copy or with `off`, and a copy's own ones for a worktree, if and only if |
| `JobValues.TrimmedParts` | cli/src/job_fields.rs:286-291 | a list is its trimmed texts in order, the empty ones left out |

## Left out

- The Noise handshake, its match codes and WebCrypto: real cryptography is an assumption here.
- The host's side of a share, the Cloudflare runtime, WebSocket keepalives, timeouts and rate limits.
- tsnet, the local client, listeners and pipes of the Tailscale node: each is a step that may succeed or fail; `client`, `Login`, `Logout` and `Bridge` only read the node or call what is modelled.
- YAML and JSON parsing, the file system and canonical paths.
- Schema checks of single fields and of single actions (`validate_value`, `validate_effective_action`): one branch each, a parameter here.
- Warnings of the config check, which decide nothing.
- The text of errors from `lpm run`: an ambiguous answer lists its ids.
- Sorting calls a library in the program; here any sort by the order is shown to give the same list.
- How `lpm automations` reads days (`days_value`): a parameter.
- The desktop app behind the socket, the other CLI verbs, the website, the phone apps and all rendering.
- ConfigResolve.ResolveProject: gives the merged map of actions; the two lists made of it are `ActionTree.Listed`.
- JobFields.ApplyRun: takes out the keys an action does not go with in any order, where the program has a fixed one.

# Listen sharing, layers and PID 1: a verified model of peel

peel turns an OCI image into a running LXD system container and lets the
containers of one host share their listening sockets. This project models the
parts of peel whose correctness spans several functions, or several programs,
and proves what they keep.

**Listen replication.** Each container's `Watcher` diffs what it is listening
on against what it reported last and publishes adds and removes to bounded
subscriber queues. `watch_model.dfy` is that watcher as a state machine, one
published event at a time, with the lock; `watcher.dfy` is the class with its
maps and channels, every method proved against the machine. `ports.dfy` and
`container_watcher.dfy` are the client's reference counts per (stack, port),
`link.dfy` joins a watcher and a client over a connection that may break
anywhere, and `client_run.dfy` merges many of them into one Changes channel.
The main theorem (`EndToEnd`) says that what a consumer reads alternates
between open and close per key and, once nothing is on the way, is exactly
what the container is listening on.

**Peers and exclusions.** `peers.dfy` and `peer_manager.dfy` are the proxies a
container runs for one peer, `discovery.dfy` the managers it runs for all.
`containers.dfy` puts any number of containers together, each with its own
sockets, proxies in every stage of their life, and a watcher whose reading of
/proc and diff are separate steps. It proves that exclusions are conserved and
under what condition a proxied listen is never advertised onward.

**Layers.** `layers.dfy` applies tar entries to a tree of nodes, `rootfs.dfy`
does so in place, `layer_safety.dfy` proves what layers can and cannot do to
what is not theirs, and `layer_names.dfy` says by names alone what each entry
does. `layer_marks.dfy` reduces a list of entries to what it does
to a path, whatever the tree, and with that `layer_spec.dfy` says exactly when
stream order gives what the "Whiteouts" and "Opaque Whiteout" sections of the
OCI image specification's layer.md ask for. `layer_links.dfy` says when an
entry is led through a symbolic link, at which point the model stops following.

**The rest.** `supervisor.dfy` is PID 1 against child exits and a signal queue
that drops; `udp_sessions.dfy` the UDP session table under its three kinds of
goroutine; `frames.dfy` the datagram framing beneath it; `env.dfy` the merging
of environments.

Notation: a ghost or proof-only field (a log, a replica, `everOwn`) is named
as such where it is declared. `Id`s of subscribers, proxies, managers and
watchers are instance numbers.

## Where the code and its documentation differ

The model follows the code. Each difference is a theorem.

- `client/client.go:90-95` promises that a container too slow for the startup
  snapshot shows up in later open events. It does not: its startup result goes
  to a channel nobody reads any more. `ClientRun.ViewIffNotLost` says exactly
  when the consumer's view is right; `DeadlineRun.DeadlineLosesPorts` is a run
  in which it is not.
- `internal/lo/watcher.go:170-174` says that an excluded listen never appears
  again. It does appear again if the watcher holds it at the time of the call,
  and only then (`WatchModel.ExcludeSilentIff`; `ExcludeRun.ExcludedYetSent` is
  a run); from the end of the next scan it never does
  (`WatchModel.ExclusionOverRuns`).
- `internal/lo/watcher.go:47-49` says that /watch only describes sockets of the
  container's own. /proc is read before the lock is taken, so a proxy closed
  between the two can be reported (`PhantomRun.ProxiedListenPassedOn`);
  `Containers.PhantomIff` is the exact condition, and a scan without such a
  close in it sets things right in any run (`Containers.FullScanIsClean`).
- `README.md:29-30` of the repository says that layers never touch
  `/sbin/init`. There are two ways round it. An opaque whiteout of the layer
  root removes it, and so does a whiteout whose name comes down to the root
  (`LayerSafety.RootOpaqueRemovesInit`). And an entry whose way leads through a
  symbolic link, which a layer may have made itself, is compared with the
  protected paths by its own name only, while what it changes lies where the
  link points (`LayerLinks.OwnLinkLedThrough`). `LayerLinks.LayersResolvedIff`
  says exactly when no entry takes the second way, and then
  `LayerSafety.LayersKeptIff` that the first is the only one. "Touch" means
  existence and contents here: a hard link to `/sbin/init` is made like any
  other, and the owner, mode and attributes that
  `internal/rootfs/extract.go:221-230` then sets are those of the one file that
  both names stand for. Metadata is no part of the model.
- `README.md:27-28` says that only what the layers name is changed. With an
  entry led through a symbolic link that need not be so either
  (`LayerLinks.OwnLinkLedThrough`); otherwise it is (`LayerSafety.LayersFrame`).
- The OCI specification applies a layer's whiteouts to the layers below only.
  Stream order also removes what the layer itself put there earlier.
  `LayerSpec.ImageIff` is the exact condition on the entries under which the
  two agree; `LayerSpec.OwnFileWhitedOut` and `LayerSpec.OwnFileInTheWay` are
  layers on which they do not, one for each half of it.
- `internal/entrypoint/entrypoint.go:110-111` speaks of replacing any existing
  entry for a key. Only the first is replaced, so that holds exactly when the
  base has one at most (`Env.ReplacesAnyIff`).
- A tunnel that ends right after a frame's length reads as a clean end of
  stream (`Frames.CutAnywhere`). And if an image's environment sets PATH to the
  empty string, the lookup by which the executable is found still sees that and
  not the default supplied after it (`Env.DefaultPathIff`).

## Model

| member | source | states |
|---|---|---|
| Stream.StrictAlternation | internal/lo/watcher.go:115-125 | in a stream whose every event is news, neighbouring events about one listen are never of the same kind |
| Stream.ReplayConcat | internal/lo/server.go:54-92 | a replica may be rebuilt in two goes, at any cut of the stream |
| Stream.ExactConcat | internal/lo/watcher.go:115-125 | a stream is all news if and only if both its parts are, each against the set it starts from |
| Stream.ReplayFrame | internal/lo/watcher.go:115-125 | events about other listens leave a listen's membership alone |
| Stream.ReplicaOfServed | internal/lo/server.go:54-92 | what a server sends, snapshot first, builds the replica its events build from that snapshot |
| WatchModel.InvStep | internal/lo/watcher.go:97-190 | every step of the watcher, each single publish included, keeps: the log is all news, `current` is its replay, every subscriber holds a segment of it |
| WatchModel.Replication | internal/lo/watcher.go:97-168 | in every run, a subscriber live or dropped that has got through any k of its events holds a set the watcher passed through; a live one that has got through all holds `current` whenever the lock is free |
| WatchModel.DroppedOnlyWhenFull | internal/lo/watcher.go:131-166 | in every run a subscriber is closed if and only if, before, it was cancelled or an event found 256 queued |
| WatchModel.HiddenByScan | internal/lo/watcher.go:107-125 | the first scan to end with a listen excluded takes it out of `current` |
| WatchModel.SilentOnceHidden | internal/lo/watcher.go:97-190 | in every run, from any moment at which an excluded listen is not held, it is in no event and no new snapshot for as long as any exclusion of it stands, whatever else happens |
| WatchModel.ExclusionOverRuns | internal/lo/watcher.go:97-190 | that moment has come at the latest when the first scan to find it excluded ends |
| WatchModel.SilentToNewcomers | internal/lo/watcher.go:146-168 | no subscriber arriving in that time is ever sent anything about it |
| WatchModel.ExcludeSilentIff | internal/lo/watcher.go:170-179 | in every run, from an Exclude on and while the listen stays excluded, no event and no new snapshot has it if the watcher did not hold it at the call; and, once anybody has subscribed or a scan has ended, only if |
| ExcludeRun.ExcludedYetSent | internal/lo/watcher.go:170-179 | a run in which a subscriber arriving after the Exclude is given the listen and then sent its removal |
| WatchModel.UnexcludeUndoesExclude | internal/lo/watcher.go:175-190 | one Unexclude takes back one Exclude of its own listen, whoever else excludes it, and counts stay positive |
| WatchModel.ScanIsARun | internal/lo/watcher.go:97-126 | a whole scan is a path of the machine: begin, each publish, end |
| WatchModel.ScannedInv | internal/lo/watcher.go:97-126 | and keeps the machine's invariant |
| WatchModel.PublishAllOne | internal/lo/watcher.go:115-140 | publishing a batch is publishing its events one by one to each subscriber's queue |
| Watching.EventChannel.TrySend | internal/lo/watcher.go:133-136 | a send succeeds if and only if fewer than 256 events are queued, and otherwise changes nothing |
| Watching.EventChannel.Receive | internal/lo/server.go:80-92 | events come out in the order they went in, also after the channel was closed |
| Watching.Watcher.constructor | internal/lo/watcher.go:59-65 | a new watcher is the machine's initial state |
| Watching.Watcher.Publish | internal/lo/watcher.go:131-140 | every channel is offered the event as the machine's push does it; just the full ones are closed and forgotten |
| Watching.Watcher.ScanOnce | internal/lo/watcher.go:97-126 | the new state is the machine's after a batch that is exactly the difference, adds before removes; a failed reading changes nothing |
| Watching.Watcher.Subscribe | internal/lo/watcher.go:146-168 | a fresh channel joins, and the snapshot lists `current` without repetition |
| Watching.Watcher.Cancel | internal/lo/watcher.go:159-166 | the channel is closed and off the books; a second cancel, or one after a drop, does nothing more |
| Watching.Watcher.Exclude | internal/lo/watcher.go:175-179 | one more exclusion of that listen and of no other |
| Watching.Watcher.Unexclude | internal/lo/watcher.go:182-190 | one fewer, and no entry once there is none |
| Watching.Watcher.ValidIsInv | internal/lo/watcher.go:50-55 | the class's validity is the machine's invariant, so the machine's theorems hold of the class |
| Ports.RaiseCounts | client/watcher.go:200-207 | incrementing keeps the counts equal to the number of listens per key, and finds zero just when the key is new |
| Ports.LowerCounts | client/watcher.go:214-224 | decrementing a listen that is held keeps them equal, is never negative, and reaches zero just when the key is gone |
| Ports.CountIs | client/watcher.go:231-234 | a count is the number of listens with that stack and port, at whatever address and in whatever protocol, and it is there just if there is one |
| Ports.SyncStep | client/watcher.go:227-266 | a sync, first or after a reconnect from whatever came before, brings counts, replica and edges in step |
| Ports.SyncedStep | client/watcher.go:194-226 | so does every later event that is news |
| Ports.FaithfulIffExact | client/watcher.go:195-239 | counts are right and edges alternate at every point if and only if every event of the stream is news |
| Ports.CallbackExactlyOnce | client/watcher.go:130-183 | on every exit path, for any stream whatever, a given callback is called exactly once and before anything is emitted |
| Ports.UpToMarker | client/watcher.go:194-226 | before the sync marker, for any lines whatever, only the incoming set changes, as they say, and nothing is handed out |
| Ports.AlternationPerKey | client/watcher.go:192-266 | the alternation proved is, key by key, open, close, open and so on, and nothing weaker |
| Ports.OpenIsOdd | client/watcher.go:192-266 | a key is open after an odd number of edges and only then |
| Ports.ConnectionInStep | client/watcher.go:130-270 | one connection fed by a watcher, cut anywhere, leaves counts, replica and edges in step |
| Ports.LifetimeAlternates | client/watcher.go:82-270 | over a watcher's whole life, any number of cut connections, edges alternate per key and nothing is left open at the end |
| Ports.ConnectionsInStep | client/watcher.go:101-266 | after any series of cut connections, counts and open keys are those of the replica of the last one that got its sync marker |
| Ports.OneMoreLine | client/watcher.go:185-267 | at any point of any of its connections, one more line hands out at most one thing: the startup result on that connection's sync marker, else a batch if and only if the set of open keys has changed, which is then the replica's |
| Ports.BetweenConnections | client/watcher.go:101-183 | between connections nothing is handed out but the empty startup result, if the first has ended without its sync marker |
| Ports.LifetimeEnds | client/watcher.go:83-99 | at the end what the last replica has open is closed in one batch, and nothing if that is nothing |
| ContainerWatching.ContainerWatcher.Added | client/watcher.go:199-208 | the count goes up by one, and one open of that key is sent just when it was zero |
| ContainerWatching.ContainerWatcher.Removed | client/watcher.go:213-225 | the count goes down by one or is deleted, and one close of that key is sent just when it ends at or below zero |
| ContainerWatching.ContainerWatcher.Reconcile | client/watcher.go:252-265 | one batch with the keys of exactly one of the two maps, opens and closes apart, none repeated, none if there is no difference |
| ContainerWatching.ContainerWatcher.HandleLine | client/watcher.go:192-267 | one line takes counts and locals where the specification's step takes them |
| ContainerWatching.ContainerWatcher.WatchOnce | client/watcher.go:130-270 | the loop over a connection's lines computes the specified counts and hands out the specified items, no port twice in one |
| ContainerWatching.ContainerWatcher.CloseAll | client/watcher.go:83-99 | what is still open is closed, in one batch, each key once |
| ContainerWatching.ContainerWatcher.Run | client/watcher.go:82-116 | any series of connections hands out, in order, what the line by line results are about, and at the end closes what the last replica had open |
| ContainerWatching.CountListens | client/watcher.go:231-234 | counting a snapshot gives, for every stack and port, the number of its listens with that stack and port |
| Link.CwInvStep | internal/lo/server.go:54-92 | watcher, connection and client keep in step through scans, drops, reads, disconnects, reconnects and reboots in any order |
| Link.DrainedIsCurrent | client/watcher.go:192-266 | with nothing left on the way, the client has open exactly the keys of the server's `current` |
| Link.DrainedPort | client/watcher.go:37-40 | that is: a port is open in a stack if and only if the container listens on it in that stack, and the count is of how many listens there are |
| Link.CanDrain | internal/lo/server.go:79-92 | from any state with the connection up, its subscriber not dropped and no scan on, delivering what is on the way drains it |
| Link.StepHandsOutOne | client/watcher.go:130-270 | a step hands out one thing at most, a startup result only as the first of all |
| ClientRun.ClientInvStep | client/client.go:170-247 | no step of the client loses, doubles or reorders what a watcher handed out |
| ClientRun.EndToEnd | client/client.go:197-246 | in every run, reboots of containers included, the opens and closes of a container on Changes alternate per key, and once all is delivered a port is open in a stack if and only if the container listens on it there |
| ClientRun.CanForward | client/client.go:219-246 | once the snapshot is out, run can forward all it has, first what was pending, then what was in outCh, in order |
| ClientRun.CatchesUp | client/client.go:197-246 | every run without the deadline, past the snapshot and with a container's connection live, can go on without a scan to where Changes has open just what the container was listening on |
| ClientRun.ChangesInOrder | client/client.go:180-246 | the first item is the snapshot, no later one is, and each watcher's items are, in order and from the start, what it handed out |
| ClientRun.NoDeadlineNoLoss | client/client.go:197-224 | if the deadline does not fire, the snapshot covers every container found at startup and no startup result is left behind |
| ClientRun.StartupNeverBlocks | client/client.go:180-187 | deadline or not, unreceived startup results never exceed the channel's room |
| ClientRun.ViewIffNotLost | client/client.go:90-95 | with all else forwarded, the consumer's view of a container is right if and only if its startup result was empty or was received |
| ClientRun.MissingHead | client/client.go:205-206 | a lost startup result is never made good by what follows |
| DeadlineRun.DeadlineLosesPorts | client/client.go:205-206 | a whole run at whose end everything is delivered and a listening container is shown as having no ports |
| Peers.StreamTracks | internal/lo/peer.go:105-127 | at every point of a stream: of what the peer has, exactly those are not proxied whose last start failed; past the sync nothing else is |
| Peers.Convergence | internal/lo/peer.go:76-177 | from the sync on, whatever was proxied before, the proxied set is the peer's set less those whose last start failed |
| Peers.FullConvergence | internal/lo/peer.go:76-177 | and all of it when every start works |
| PeerManaging.StartProxy | internal/lo/proxy.go:53-85 | there is a proxy if and only if its protocol is TCP or UDP and the listener could be bound; then its exclusion is held, else the exclusions are as they were |
| PeerManaging.Proxy.Close | internal/lo/proxy.go:99-108 | gives back exactly one exclusion, of its own listen |
| PeerManaging.PeerManager.Add | internal/lo/peer.go:130-143 | a listen not proxied is, if it can be started; every one already proxied keeps its proxy; all others' exclusions stay |
| PeerManaging.PeerManager.Remove | internal/lo/peer.go:146-158 | the proxy is closed and its exclusion given back |
| PeerManaging.PeerManager.Reconcile | internal/lo/peer.go:164-177 | just the proxies of what was not seen are closed and dropped, the others are kept |
| PeerManaging.PeerManager.StopAll | internal/lo/peer.go:180-190 | every proxy is closed, nothing is proxied, and every exclusion this manager held is given back |
| PeerManaging.PeerManager.WatchOnce | internal/lo/peer.go:76-127 | the loop over the lines proxies the specified set, and exclusions held by others never change |
| PeerManaging.PeerManager.Run | internal/lo/peer.go:60-72 | after any series of connections nothing is proxied and the exclusions are those of others |
| Discovering.Sockets | internal/lo/discovery.go:77-82 | the peers in a listing: every entry that is no directory, but for oneself |
| Discovering.Discovery.Scan | internal/lo/discovery.go:69-105 | the table holds one manager per socket listed, survivors keep theirs, newcomers get new ones, exactly those gone are cancelled; a failed listing changes nothing |
| Discovering.Discovery.Finish | internal/lo/discovery.go:57-62 | at the end every manager ever started has been cancelled |
| Containers.BoxInvStep | internal/lo/watcher.go:97-190 | every step of a container keeps its exclusion counts equal to its proxies |
| Containers.ExclusionConservation | internal/lo/peer.go:130-190 | in every run, a listen is excluded as often as there are proxies for it starting, running or not fully closed, cancelled managers included; zero once all managers have ended |
| Containers.FailedBindReleases | internal/lo/proxy.go:59-63 | in every run, whatever went on since its start, a bind that fails leaves excluded exactly what the container's other proxies hold |
| Containers.FailedBindUndone | internal/lo/proxy.go:59-63 | and exactly what was excluded before that start, if the other proxies are the same ones |
| Containers.AllEndedNothingExcluded | internal/lo/peer.go:180-190 | with all managers ended the exclusion map is empty |
| Containers.PhantomIff | internal/lo/watcher.go:98-113 | a scan reports own sockets only if and only if every foreign one it read still has some proxy's exclusion |
| Containers.CoveredIsClean | internal/lo/watcher.go:98-113 | a scan during which no proxy was released reports own sockets only |
| Containers.NoReadvertising | internal/lo/proxy.go:53-108 | in every run of N containers without a release inside a scan, only own sockets are ever advertised and every proxy is for a listen its peer itself opened |
| Containers.FullScanIsClean | internal/lo/watcher.go:98-125 | in every run, whatever has been reported wrongly before, a container's scan in which it releases no proxy leaves `current` with its own sockets only |
| Containers.FullScanIsExact | internal/lo/watcher.go:98-125 | and with nothing left out: `current` is then exactly the container's own sockets of the time of the reading, less those for which it has a proxy at the diff |
| PhantomRun.ProxiedListenPassedOn | internal/lo/watcher.go:98-104 | a run of three containers in which a release inside a scan makes the second announce, and the third proxy, what is only the first's, until the second's next full scan |
| Layers.WithDirsAt | internal/rootfs/extract.go:157-159 | making the way to a directory changes nothing but what was missing on it |
| Layers.CleanRules | internal/rootfs/extract.go:93 | wherever in a path: empty components and "." go, ".." goes with the component before it, and alone at the root |
| Layers.CleanOfPlain | internal/rootfs/extract.go:93 | a path without such components stays as it is |
| LayerNames.PlainEntryIs | internal/rootfs/extract.go:104-127 | of entries that are no whiteouts, exactly sbin/init, peel and what is below it, and sbin as a non-directory are turned away; all others are extracted |
| LayerNames.PlainEntryDone | internal/rootfs/extract.go:154-219 | an extracted entry goes through if and only if only directories are on its way and its content could be read or it could be made |
| LayerNames.HardLinkDone | internal/rootfs/extract.go:193-197 | a hard link does if and only if, besides, there is a non-directory to link to that does not make way for the link |
| LayerNames.PlainEntryAt | internal/rootfs/extract.go:154-219 | it is then there as its kind says, and at every other path there is just what that leaves |
| LayerNames.BrokenEntry | internal/rootfs/extract.go:177-211 | a file cut short fails with what could be read in its place, a device that cannot be made with the room made for it |
| LayerNames.NamedWhiteout | internal/rootfs/extract.go:112-119 | `.wh.n` in p removes p/n and all below it and nothing else, unless that is sbin, sbin/init, peel or below peel, when it does nothing |
| LayerNames.OpaqueWhiteout | internal/rootfs/extract.go:105-111 | `.wh..wh..opq` in d removes every child of d but sbin/init and peel, with all below it, and nothing else; in those two themselves it does nothing |
| Layers.ExtractAt | internal/rootfs/extract.go:154-219 | an extracted entry is in its place, a hard link as what it links to; below it is what was there only if a directory meets a directory, above it are directories, elsewhere nothing changed |
| LayerSafety.WellFormedEntry | internal/rootfs/extract.go:82-219 | any entry, failing or not, leaves every node's parent a directory |
| LayerSafety.WellFormedLayers | internal/rootfs/extract.go:82-219 | so do any number of layers, wherever they stop |
| LayerSafety.EntryFrame | internal/rootfs/extract.go:93-128 | a path an entry neither aims at nor newly leads through is as before, unless the entry is led through a symbolic link |
| LayerSafety.LayersFrame | README.md:27-28 | a path no entry of any layer aims at or newly leads through is unchanged, existence and contents, as long as no entry is led through a symbolic link |
| LayerSafety.KeptIffNotRoot | internal/rootfs/extract.go:40-77 | an entry not led through a symbolic link keeps sbin a directory, sbin/init and all of peel if and only if it is no whiteout that comes down to the root |
| LayerSafety.LayersKeptIff | internal/rootfs/extract.go:40-152 | over any layers of which no entry is led through a symbolic link, wherever they stop, protected paths survive if and only if no entry that is reached is a whiteout that comes down to the root |
| LayerSafety.LayersKeep | internal/rootfs/extract.go:40-152 | so they do if the layers hold no such whiteout and no entry is led through a symbolic link |
| LayerSafety.RootOpaqueRemovesInit | internal/rootfs/extract.go:134-152 | the one-entry layer that removes sbin/init from any tree |
| LayerLinks.UnresolvedIff | internal/rootfs/extract.go:104-195 | an entry is led through a symbolic link, and its outcome left open, if and only if it is not turned away and one is on the way to its place, to what it clears or deletes, or to a hard link's source |
| LayerLinks.LayersResolvedIff | internal/rootfs/extract.go:82-195 | layers are followed to their end or their first failure if and only if no entry that is reached is led through a link |
| LayerLinks.NoSymlinksNoneLed | internal/rootfs/extract.go:82-195 | which is so when neither the tree nor the layers have symbolic links |
| LayerLinks.OwnLinkLedThrough | internal/rootfs/extract.go:104-195 | a two-entry layer, for any name and target, that makes a link and is led through it, though no entry comes down to the root or aims at anything outside the link's name |
| LayerMarks.WhiteoutHides | internal/rootfs/extract.go:105-119 | a whiteout that goes through removes what the specification says it hides, protected paths apart |
| LayerMarks.MarkedLook | internal/rootfs/extract.go:82-219 | what entries leave at a path is told by the last of them that does anything to it, and what was there before |
| LayerMarks.DoneIffPassable | internal/rootfs/extract.go:157-159 | entries that each went through after fewer others go through in this order if and only if none puts a non-directory in the way of a later one |
| LayerSpec.ImageIff | internal/rootfs/extract.go:82-152 | for any image free of hard links, whiteouts anywhere: stream order gives the two-phase meaning, layer by layer, if and only if in the specification's order no entry bars a later one's way and all that is laid in that order is laid in stream order |
| LayerSpec.LayerIff | internal/rootfs/extract.go:82-152 | the same for a single layer |
| LayerSpec.LayerRefinement | internal/rootfs/extract.go:82-152 | that holds of every layer in which no whiteout comes after an entry it hides |
| LayerSpec.ImageRefinement | internal/rootfs/extract.go:82-152 | and stream order gives the two-phase meaning for every image of such layers |
| LayerSpec.OwnFileWhitedOut | internal/rootfs/extract.go:112-119 | a layer on which they differ: its whiteout deletes its own file |
| LayerSpec.OwnFileInTheWay | internal/rootfs/extract.go:112-159 | and one that goes through in stream order only: its own file, whited out, would be in the way |
| RootFs.Root.Clear | internal/rootfs/extract.go:134-152 | removing the unprotected children one by one gives the tree that OpaqueWhiteout describes |
| RootFs.Root.Extract | internal/rootfs/extract.go:154-219 | in-place extraction is the specified function of the old tree, error exits included; at a symbolic link it stops and says so |
| RootFs.Root.ApplyLayer | internal/rootfs/extract.go:82-130 | the loop over a layer is the fold of what PlainEntryIs, NamedWhiteout and OpaqueWhiteout describe, stopped with the tree as it then is at the first failure, or where an entry is led through a symbolic link |
| Supervisor.InvStep | internal/supervisor/supervisor.go:77-138 | the loop's invariant through exits, adoptions, dropped signals and reaping, step by step |
| Supervisor.NeverBlockedForever | internal/supervisor/supervisor.go:43-138 | whenever the loop waits, an uncollected exit means a signal queued or pending; with none, some child is running |
| Supervisor.ShutdownDecidedOnce | internal/supervisor/supervisor.go:59-108 | over any run one SIGTERM at most, the command of the first trigger for good, begun once the entrypoint's exit is dealt with, and reboot only then and with no child left |
| Supervisor.BeginsIff | internal/supervisor/supervisor.go:79-94 | a shutdown begins with SIGINT, SIGTERM, SIGPWR or SIGRTMIN+3, or at the end of the reapAll that saw the entrypoint, and with nothing else |
| Supervisor.RestartIffInt | internal/supervisor/supervisor.go:79-108 | over any run the command is restart if and only if the shutdown began with SIGINT, and power-off otherwise |
| Supervisor.HandledIsAPath | internal/supervisor/supervisor.go:77-138 | a round run without interruption is a path of the machine |
| Supervisor.Pid1.Shutdown | internal/supervisor/supervisor.go:62-75 | only the first call sets the command and broadcasts |
| Supervisor.Pid1.ReapAll | internal/supervisor/supervisor.go:117-138 | every exited child is collected; whether the entrypoint was one, and whether none is left at all |
| Supervisor.Pid1.Handle | internal/supervisor/supervisor.go:77-101 | for one signal: shutdown begins if it is not SIGCHLD or the entrypoint has exited, with restart for SIGINT alone; every exited child is collected; reboot is next if and only if shutting down with no child left |
| UdpSessions.InvStep | internal/lo/proxy.go:157-253 | every step of reader, return loops and reaper keeps table and tunnels accounted for |
| UdpSessions.NoTunnelForgotten | internal/lo/proxy.go:157-230 | in every run each tunnel is closed, on the table, or about to be closed by a thread; after the end of all loops the table is empty and all are closed |
| UdpSessions.OldNeverEvictsNew | internal/lo/proxy.go:198-250 | in every run a session that has left the table was taken off by its own return loop, by the reader that failed to write to it, or by a sweep that found it idle; never by another session under its key |
| UdpSessions.IdleBound | internal/lo/proxy.go:31-34 | with sweeps every 30 s, a session on the table has had a datagram one way or the other within the last 150 s |
| UdpSessions.OnlyIdleReaped | internal/lo/proxy.go:234-253 | a sweep takes off only a session that at its look has had no datagram either way for more than 120 s |
| UdpSessions.LastActivity | internal/lo/proxy.go:195-218 | what is noted of a session is the time of the last datagram that came or went |
| Frames.HeaderWraps | internal/lo/frame.go:30-31 | the header holds the length modulo 2^32 |
| Frames.HeadersInOrder | internal/lo/frame.go:30-31 | most significant byte first: headers are ordered as the lengths they hold, and a short one begins with three zeros |
| Frames.ArrivesIffFits | internal/lo/frame.go:29-60 | a datagram is read back as sent, and the stream left right after it, if and only if it fits the buffer and the header; otherwise its size is reported |
| Frames.CutAnywhere | internal/lo/frame.go:44-60 | a stream cut anywhere yields exactly the datagrams wholly before the cut, then the end, clean or not by where the cut is |
| Frames.RoundTrip | internal/lo/frame.go:25-60 | any list of datagrams of up to 65535 bytes is read back as the same list |
| Frames.Sink.WriteFrame | internal/lo/frame.go:29-40 | a frame goes out whole or the write fails with a prefix of it sent |
| Frames.Source.ReadFull | internal/lo/frame.go:46-56 | however the bytes arrive, as many as wanted or as there are end up in the buffer, in order, and no more are consumed |
| Frames.Source.ReadFrame | internal/lo/frame.go:44-60 | one frame ends up at the front of the caller's buffer, the rest of which and of the stream is as before; or the error is that of a clean end, a cut, an oversized frame or a broken connection, whichever it is |
| Frames.Source.ReadFrames | internal/lo/proxy.go:211-221 | the loop that reads a tunnel receives what the stream as a whole decodes to |
| Env.CutIsExact | internal/entrypoint/entrypoint.go:115-118 | key, '=' and value make up the entry again, and the key holds no '=' |
| Env.MergeEnv | internal/entrypoint/entrypoint.go:112-130 | the nested loops compute the merge the lemmas below are about |
| Env.MergedFor | internal/entrypoint/entrypoint.go:112-130 | per key: the last override replaces the base's first entry, the base's later ones stay |
| Env.ReplacesAnyIff | internal/entrypoint/entrypoint.go:110-130 | an override is all that is left for its key if and only if the base has one entry for it at most |
| Env.MergedKeys | internal/entrypoint/entrypoint.go:112-130 | base keys keep their positions; new keys follow, once each, in order of first mention |
| Env.Determined | internal/entrypoint/entrypoint.go:112-130 | those two together leave no freedom: they determine the merged list |
| Env.Idempotent | internal/entrypoint/entrypoint.go:112-130 | merging the same overrides again changes nothing |
| Env.LookupEnv | internal/entrypoint/entrypoint.go:132-139 | the loop finds the value of the first entry for the key that has one |
| Env.LookupMerged | internal/entrypoint/entrypoint.go:112-139 | a lookup in the merge gives the last override's value, or, after a bare override, what the base's later entries say |
| Env.DefaultPathIff | internal/entrypoint/entrypoint.go:85-95 | supplying the default PATH works if and only if no entry gives PATH a value, the empty one included |
| Env.OthersKept | internal/entrypoint/entrypoint.go:85-88 | supplying it changes no other key's entries nor any that were there |

## Left out

- ClientRun.EndToEnd: requires that the container's own startup result was received, because with the deadline the claim is false (ViewIffNotLost); NoDeadlineNoLoss discharges it for every run in which the deadline does not fire. Nothing is claimed after Kill, when `emit` may discard batches.
- Containers.NoReadvertising: requires that no proxy is released between a container's reading of /proc and the diff that uses it, because without that it is false (ProxiedListenPassedOn); PhantomIff is the exact condition for one scan.
- LayerSpec.ImageIff: leaves hard links out, because what a link lays depends on the tree it is laid on; images that fail or lead through symbolic links have no tree in stream order to compare with. LayerIff, LayerRefinement and ImageRefinement likewise.
- UdpSessions.IdleBound: takes a sweep, and the wait for its lock, to take no time; the reader holds that lock while it dials a tunnel.
- `portsClient.run`, the UDP proxy's three goroutines and `handleWatch` are state machines over their steps rather than methods, since what matters is how they interleave; `handleWatch` is the server side of `Link`.
- HTTP, JSON, unix sockets, dialing and hijacking, TCP accept loops and pipes: a connection is a sequence of lines that may end at any point, and a line that does not parse is `Skipped`.
- Reading and classifying /proc text, addresses and their printing: a `Listen` is a value, a reading of /proc a set of them.
- The order of a snapshot (sorted by text) and of changes within a batch (map order): lists without repetition and pairs of sets. The text of a change is its operation and key.
- A container that reboots ends its connection before its new watcher starts: the moment between, in which the client may still read what the old one has sent, is put before the reboot.
- Containers are known by watcher instance, not by name: the final closes of a stopped watcher may reach Changes after a new one of the same name has begun.
- `portsClient.scan` and its container table: the same two loops as `Discovery.Scan`; in `ClientRun` they are the steps that add and stop a watcher.
- Scan, discovery and reconnect intervals: any step may come at any time.
- `rejectsRemote`, and forwarding of payloads beyond framing.
- LayerSafety.LayersKeptIff, KeptIffNotRoot, LayersKeep, EntryFrame, LayersFrame: say nothing of layers with an entry led through a symbolic link, because where that leads is not modelled; UnresolvedIff and LayersResolvedIff say exactly which those are.
- RootFs.Root.Extract, RootFs.Root.ApplyLayer: stop at such an entry, where the code goes on through the link.
- Symbolic links on the way to an entry: such an entry's outcome is `Unresolved` and the layer is followed no further. Modes, owners, xattrs and times are not part of a node; a hard link is a second node with the same contents, which nothing later writes through, since an entry's old node is removed before the new one is made.
- The root being unpacked to is `/`: whiteouts of `..` there name the root itself. RemoveAll of it empties it and fails.
- Failures of the kernel other than those an entry's kind can carry (a device not made, contents cut short, a bad link).
- wait4 errors other than ECHILD and EINTR, a failing start or reboot, the SIGKILL after the grace period (its effect is more exits), and fork by children other than as adoption.
- Frames.Source.ReadFrame: takes `int` to be 64 bits wide.
- The rest of `Merge` and `Resolve`: users, groups, working directory and the search of PATH; networking, pulling, certificates, configuration and state files.

# A verified model of the graph builder

Dafny models of the parts of this repository that carry state across many steps, and proofs
of what they promise over every input, every peer and every run.

- **The launch protocol.** `Transport` is the framed channel with its byte, frame and time
  budgets; `LaunchIntent` freezes, digests, overlays and describes a command;
  `LaunchObserver` is the observer that routes, prepares and reports a launch to an
  untrusted peer. Each operation is a class method proved equal to a step function whose
  extra inputs are what the kernel and the peer did. `LaunchHistory` and `LaunchRuns` are
  about all runs of those steps, and `LaunchCommands` about which command a route hands
  back, and when exactly. `CargoLaunch`, `CargoRuns`, `CargoGuarantees` and `CargoAccount`
  are about the session and the child guard that drive them, through a small automaton of
  launch stages that accepts every history a session can produce; `CargoCommands` shows that
  every process spawned is the command some launch asked for, and `CargoOutcomes` that the
  record tells how it ended.
- **The graph.** `GraphModel` has the ids and the deduplicated graph; `ItemTree`,
  `ItemNames` and `Rustdoc` the walk over possibly cyclic items, against reachability, the
  ids it spells and its deferred cross-crate references; `References` all crates together,
  where a reference leads to the id the other crate's own walk gave the item; `Workspaces`
  what each crate contributes and one incremental run, `Splice` the run on the graph itself
  and any sequence of runs, `Rebuild` their comparison with a rebuild from scratch and
  `Divergence` runs where the two differ; `Owners` and `OwnerCycles` the memoized owner
  closure and when cycles spoil its answers, `Rollup` the edges derived from it; and
  `Query`, `Levels` and `Refs` the bounded breadth-first expansion against distances in the
  filtered graph.
- **Bounded observations.** `Occurrences`, `RecordCheck` and `Collector` are the driver's
  record, its validation and the collector that keeps room for every later gap, and
  `CollectorOutcomes` says when exactly a definition or a reference is kept; `ObservedRows`,
  `Semantic` and `SemanticCheck` the paged semantic stream; `Assembly` the attachment that
  evicts records until it fits and `AssemblyGaps` what it says went wrong; `Flags` the
  sysroot selection in Cargo's encoded flags.
- **Shared ground.** `Bytes`, `Maps`, `TextOrder`, `Stable` and `Measure`.

JSON encodings, SHA-256 and encoded sizes are arbitrary functions. Injectivity of the hash is
assumed only between the two values at hand, and only where a row says so. Clocks, sockets,
processes, the compiler and the file system are inputs of the steps, unconstrained unless
stated below.

Where the code and its own words differ, the model follows the code:

- The comment at `src/graph.rs:53` reads as if every id gave back its crate.
  `CrateOfIdExact` says exactly when it does.
- `CargoOperationsV1` calls its loss witness exact. It is off by the reference passes and
  refused begins of the run (`UnrecordedIsCounted`, `WitnessExactIff`);
  `ReferencePassMiscounted` is a run where one reference pass makes it say two for one.
- `gap_attachment` clears the semantic streams but not the count their witness reports. A
  fitting attachment that fails validation is published honestly exactly when no stream was
  lost, none is left, or the fallback cuts off the witness that says so, which takes as many
  witnesses as the cap (`MalformedHonestIff`); `FallbackCanOverstate` is one that is not.
- Incremental runs are to leave what a rebuild would. Node ids they do as long as no id is
  attributed to the wrong namespace for good, and a run that misreads one does not
  (`NodesExactIff`, `NextRunIff`); clean names, whose normalized form has no doubled or
  trailing underscore, are never misread (`CleanReadsRight`), others can be (`DoubledHyphenLosesFile`).
  With clean names the edges inside every namespace are those of a rebuild too; between
  namespaces the incremental graph keeps fallback edges whose preferred item has since appeared
  (`FallbackOutlives`) and dependencies that are gone, and lacks exactly the references that
  strayed since their crate was last extracted (`IncrementalAgainstRebuild`).
- `enclosing_owners` caches what it finds inside a cycle. Its answers are exact whatever was
  asked before if and only if every first walk round a cycle ends at an item that lists the
  cycle itself (`ExactIffSettled`). Where no item owns itself directly that means no cycles at
  all (`ExactIffAcyclic`, `CycleCachesPartialAnswer`); items that only own themselves do no
  harm (`OwnersExact`, `SelfOwnerIsExact`).
- `resolve_id` says that its ids match those of the other crate's walk. They do if and only if
  the item's outermost name is not empty and its kind is not forced to `method`
  (`ReferenceNamesItem`): the walk leaves out an empty first name, and no summary is tagged the
  way it tags associated items.
- `refs_indexed` tells edges apart by (from, neighbour, relation) only, so `ExpandRefs` counts
  triples: at each node it merges two links exactly when they join it to one neighbour both
  ways by one relation (`MirroredAreMerged`).

## Model

| member | source | states |
|---|---|---|
| Transport.FrameRoundTrip | src/launch_intent/linux.rs:120-193 | decoding an encoded frame followed by any bytes yields that frame and its exact length |
| Transport.FrameCanonical | src/launch_intent/linux.rs:200-219 | every byte string the reader accepts starts with the one encoding of the frame it yields |
| Transport.StreamRoundTrip | src/launch_intent/linux.rs:120-219 | a run of frames followed by a tail that starts no whole frame decodes to exactly those frames and that tail |
| Transport.TornFrameUnreadable | src/launch_intent/linux.rs:120-193 | a frame cut anywhere before its end is never read as a whole frame |
| Transport.SendKeepsBudgets | src/launch_intent/linux.rs:76-118 | no send takes bytes or frames past the session caps, and a failed channel stays failed |
| Transport.ReceiveKeepsBudgets | src/launch_intent/linux.rs:76-102 | the same for every receive, whatever the peer sent |
| Transport.ReceiveExact | src/launch_intent/linux.rs:194-293 | a receive yields a frame exactly when the stream starts with its encoding and the session can afford it |
| Transport.ReceivedInOrder | src/launch_intent/linux.rs:194-293 | on a run of frames and a tail, any receives, each hearing any part of what is left, yield the first frames in order, one each until the first failure, and leave exactly the rest of the stream |
| Transport.Channel.Charge | src/launch_intent/linux.rs:76-85 | the charge succeeds exactly when both caps allow it, and only then are the counters moved |
| Transport.Channel.Finish | src/launch_intent/linux.rs:96-102 | time spent is deducted, and an overrun or an error latches the failure |
| Transport.Channel.WritePart | src/launch_intent/linux.rs:139-193 | however the kernel splits the writes, what reaches the wire is a prefix of the part, whole exactly on success |
| Transport.Channel.Send | src/launch_intent/linux.rs:114-193 | the new channel state and the delivery (unsent, torn or sent) are those of the send step; the wire grows by a prefix of one frame |
| Transport.Channel.ReadPart | src/launch_intent/linux.rs:221-293 | a buffer is filled from the stream in any chunking, refusing a descriptor where none is allowed |
| Transport.Channel.ReceiveInner | src/launch_intent/linux.rs:200-219 | charges, tag, length and body in turn: however the kernel chunks the reads, the outcome is the one the specification gives for the bytes available |
| Transport.Channel.Receive | src/launch_intent/linux.rs:194-293 | the same with the shared epilogue; a frame takes its own bytes off the stream and no more |
| LaunchIntent.PreimageRoundTrip | src/launch_intent.rs:211-252 | the byte string that is hashed decodes back to the listing it encodes |
| LaunchIntent.DigestInjective | src/launch_intent.rs:211-252 | two environments within the bounds have the same digest only if they are equal, given that the hash separates their two preimages |
| LaunchIntent.ComputeDigest | src/launch_intent.rs:211-252 | the validation loop and the hashing loop compute exactly the specified digest, or its refusal |
| LaunchIntent.FreezeYieldsFrozen | src/launch_intent.rs:254-316 | a frozen command has an absolute directory, an explicit argv[0] and nothing left to inherit |
| LaunchIntent.FreezeIdempotent | src/launch_intent.rs:254-316 | freezing a frozen command again, under any later ambient state, returns it unchanged |
| LaunchIntent.FreezePreservesExecution | src/launch_intent.rs:254-316 | freezing keeps what an inheriting command would have executed, and makes it independent of later ambient changes |
| LaunchIntent.FreezeEnvironment | src/launch_intent.rs:254-316 | the two accumulation passes with their entry and byte bounds produce exactly the frozen command, or the refusal |
| LaunchIntent.CheckOverlay | src/launch_intent/linux.rs:438-462 | the overlay loop accepts exactly the overlays within both bounds, with well-formed and pairwise distinct names |
| LaunchIntent.ApplyOverlay | src/launch_intent/linux.rs:463-470 | applying the changes one by one yields the specified overlaid command |
| LaunchIntent.OverlayMeaning | src/launch_intent/linux.rs:438-470 | on a frozen command each distinctly named change decides its own name and no other |
| LaunchIntent.OverlayOrderIrrelevant | src/launch_intent/linux.rs:438-470 | distinctly named changes may be applied in any order with the same result |
| LaunchIntent.IntentDeterminesExecution | src/launch_intent.rs:318-377 | two frozen commands with the same described intent execute identically, under any ambient state, given that the hash separates their environments |
| LaunchIntent.DescribeIgnoresAmbient | src/launch_intent.rs:318-377 | the description of a frozen command does not depend on the ambient state |
| LaunchIntent.ComputeIntent | src/launch_intent.rs:318-377 | the loops over program, arguments and environment compute exactly the described intent, or its refusal |
| LaunchObserver.Observer.ExchangeEvent | src/launch_intent/linux.rs:559-587 | the new state and the verdict are those of the exchange step: sent, answered, and acknowledged with the right binding and digest, or latched |
| LaunchObserver.Observer.AdmitReply | src/launch_intent/linux.rs:411-439 | a routing reply is admitted exactly when its binding, digest and fresh nonce match |
| LaunchObserver.Observer.RouteCommand | src/launch_intent/linux.rs:377-487 | the whole of `route`: state and result are those of the route step, including the farewell of a failed one; `LaunchCommands.RouteExact` and `GrantedRoutes` say when it succeeds and which command it hands back, name by name |
| LaunchObserver.Observer.Prepare | src/launch_intent/linux.rs:489-557 | state and prepared launch are those of the prepare step, including the change check and the sealed carrier |
| LaunchObserver.Observer.SpawnLaunch | src/launch_intent/linux.rs:325-335 | the command is consumed by the one spawn, and the launch survives either answer |
| LaunchObserver.Observer.Announce | src/launch_intent/linux.rs:610-623 | state and verdict are those of the spawned step |
| LaunchObserver.Observer.AnnounceFailure | src/launch_intent/linux.rs:625-633 | state and verdict are those of the failed-spawn step |
| LaunchObserver.Observer.Complete | src/launch_intent/linux.rs:635-648 | state and verdict are those of the completion step, which `CargoGuarantees.SpawnIsFollowed` ties to the status that was waited for |
| LaunchObserver.Observer.Cancel | src/launch_intent/linux.rs:650-669 | state and verdict are those of the cancellation step |
| LaunchHistory.RouteKeeps | src/launch_intent/linux.rs:377-487 | a route keeps the order of events, the frame account and the wire, whatever the peer answers; a failed or pending observer sends none |
| LaunchHistory.PrepareKeeps | src/launch_intent/linux.rs:489-557 | a prepare keeps the same invariant |
| LaunchHistory.SpawnedKeeps | src/launch_intent/linux.rs:610-623 | so does the report of a spawn |
| LaunchHistory.SpawnFailedKeeps | src/launch_intent/linux.rs:625-633 | so does the report of a failed spawn |
| LaunchHistory.CompleteKeeps | src/launch_intent/linux.rs:635-648 | so does a completion |
| LaunchHistory.CancelKeeps | src/launch_intent/linux.rs:650-669 | so does a cancellation |
| LaunchRuns.RunSound | src/launch_intent/linux.rs:342-669 | every run of every call order, peer and system keeps the invariant |
| LaunchRuns.EventsInOrder | src/launch_intent/linux.rs:377-669 | in every run routes carry operations 1, 2, ..., accepted nonces never repeat, and each operation's events are a prefix of route, intent, then a failed spawn or a spawn with one terminal event |
| LaunchRuns.PeerSeesLifecycle | src/launch_intent/linux.rs:377-669 | what is delivered to the peer follows the same order, for an encoder that takes every lifecycle event of a valid binding and the intent event of every final intent it takes |
| LaunchRuns.RunEncodes | src/launch_intent/linux.rs:489-669 | every lifecycle event a run attempts is about a valid binding, so such an encoder takes it |
| LaunchRuns.FarewellsAreRefusedRoutes | src/launch_intent/linux.rs:377-410 | in every run a launch is announced unavailable once for every refused route, and at no other time |
| LaunchRuns.PeerReadsHistory | src/launch_intent/linux.rs:114-193 | the bytes on the wire decode to exactly the frames of the events recorded as sent, with no rest unless the channel failed |
| LaunchRuns.FailureLatches | src/launch_intent/linux.rs:377-410 | once failed, no continuation of the run recovers or sends another route |
| LaunchRuns.FrameBudgetExact | src/launch_intent/linux.rs:16-16 | an unfailed run has spent eight frames on each completed operation and six on each failed spawn, so sixteen completed operations use the cap exactly and no admitted operation is refused by it |
| LaunchRuns.PrepareAuthorizes | src/launch_intent/linux.rs:489-557 | a prepared launch is the command described by the acknowledged exchange that prepared it |
| LaunchRuns.NoSpawnWithoutAcknowledgement | src/launch_intent/linux.rs:325-557 | in every run a process is spawned only after its intent was acknowledged with its binding and digest and a carrier describing that very command, and at most once per operation |
| LaunchCommands.JoinMeaning | src/launch_intent.rs:254-269 | joining appends the components of a relative path to the directory, and an absolute path stands for itself |
| LaunchCommands.CarriesOnce | src/launch_intent.rs:254-316 | program, arguments, directory and the value of every name leave only one frozen command that carries a command and its changes |
| LaunchCommands.FrozenCarries | src/launch_intent.rs:254-316 | the frozen form of a command has its program, its arguments and the directory its path names, and under every name its own setting or, when it inherits, what the surroundings have for a name it neither sets nor removes |
| LaunchCommands.ChangedCarries | src/launch_intent/linux.rs:438-474 | applying distinctly named changes to that and freezing again carries each change under its own name and everything else as before |
| LaunchCommands.AnsweredExact | src/launch_intent/linux.rs:114-293 | a request has a reply exactly when its whole frame is taken and the peer sends one plain frame within time and budgets; then the channel is open with both frames charged |
| LaunchCommands.AcknowledgedExact | src/launch_intent/linux.rs:559-587 | an event is acknowledged exactly when it encodes and is answered by the acknowledgement of its own binding and bytes |
| LaunchCommands.DescribeExact | src/launch_intent.rs:318-377 | describing a frozen command succeeds exactly within the bounds, and gives its program, argument vector, directory and the digest of its environment |
| LaunchCommands.PresentExact | src/launch_intent/linux.rs:391-406 | freezing and describing succeed exactly on what is presentable once it carries the command |
| LaunchCommands.GrantedRoutes | src/launch_intent/linux.rs:377-487 | a granted route hands back the command that carries the caller's command and the reply's changes, spends the nonce, counts the operation and makes the agreed final intent pending: the whole result and state |
| LaunchCommands.RouteExact | src/launch_intent/linux.rs:377-487 | a route answers with a command if and only if the observer is free, the request is presentable and answered by its own binding and digest with a fresh nonce and well-formed changes, and the changed command is presentable |
| LaunchCommands.RoutedIsGranted | src/launch_intent/linux.rs:377-487 | whatever a route hands back was granted: it carries the caller's command and exactly the changes of the reply that was received |
| CargoLaunch.CargoLaunchSession.Begin | src/cargo_launch.rs:333-519 | state and result are those of the begin step: number, label, route, keep or count lost |
| CargoLaunch.CargoLaunchSession.BeginReference | src/cargo_launch.rs:224-270 | state and result are those of the reference-check step |
| CargoLaunch.CargoLaunchSession.MarkStarted | src/cargo_launch.rs:521-525 | only the addressed operation is marked |
| CargoLaunch.CargoLaunchSession.CompleteOperation | src/cargo_launch.rs:527-554 | only the addressed operation is completed, with the observed status or a read failure; `CargoOutcomes.RecordTellsOutcomes` says over runs which code and success that is |
| CargoLaunch.CargoLaunchSession.LaunchStarted | src/cargo_launch.rs:272-331 | session and child guard are those of the start step: prepare, spawn, announce, or cancel an unannounced child |
| CargoLaunch.CargoChild.WaitChild | src/cargo_launch.rs:648-681 | session, guard and result are those of the wait step |
| CargoLaunch.CargoChild.RetainedWait | src/cargo_launch.rs:683-695 | the status returned is that of the wait that succeeds; the child is marked faulted exactly when some wait failed before it |
| CargoLaunch.CargoChild.CancelOwnedChild | src/cargo_launch.rs:697-717 | session and guard are those of the cancellation: a child not yet waited for is waited for, completed and reported cancelled; a waited one is left alone |
| CargoLaunch.CargoChild.PipeFault | src/cargo_launch.rs:719-832 | session and guard are those of the pipe-fault step: cancelled at once, whatever the waits and the peer answer |
| CargoLaunch.CargoChild.Drop | src/cargo_launch.rs:834-840 | session and guard are those of the drop step: a guard not yet waited for cancels first |
| CargoRuns.RoutedCommandPrepares | src/cargo_launch.rs:272-331 | a command just routed is never refused by the change check: prepare fails only through sealing or the exchange |
| CargoRuns.SessionRunKept | src/cargo_launch.rs:200-840 | every run of a session with an observer keeps the observer's invariant, and its history is accepted by the launch-stage automaton, process numbers and statuses included, in the stage its objects show |
| CargoGuarantees.SpawnFollowsIntent | src/cargo_launch.rs:272-331 | a spawn directly follows the acknowledgement of its intent, which directly follows its accepted route with the same nonce |
| CargoGuarantees.SpawnIsFollowed | src/cargo_launch.rs:272-331 | what follows a spawn is, as far as the history goes: the report of that very process, the wait, a terminal event with the very status waited for, release, and then only the guard's end |
| CargoGuarantees.ReleaseFollowsWait | src/cargo_launch.rs:647-716 | a carrier is released only right after the wait and the attempt to report the status waited for, or after a reported spawn failure |
| CargoGuarantees.NothingAfterFault | src/cargo_launch.rs:377-389 | after a rejected exchange, a cancellation, a farewell or a begin that errs after routing, nothing is routed, prepared or spawned again |
| CargoGuarantees.LaunchSafety | src/cargo_launch.rs:272-331 | every run: each spawn authorized and followed through, none after a fault |
| CargoGuarantees.EverySpawnIsWaited | src/cargo_launch.rs:834-840 | in every run, whenever no child is out, every process ever spawned was waited for, reported with the status it was waited to, and released |
| CargoGuarantees.SpawnedIsAcknowledged | src/launch_intent/linux.rs:489-557 | any other frozen command that the acknowledged carrier also describes executes identically, given separation by hash and encoder |
| CargoCommands.LabelledMeaning | src/cargo_launch.rs:224-376 | flags and request label decide their own names; nothing else of the command changes |
| CargoCommands.RouteSessionCarries | src/cargo_launch.rs:377-403 | a route of the session is one accepted entry, and hands on the command that carries the one begun with the changes of that entry's reply |
| CargoCommands.BeginCarries | src/cargo_launch.rs:333-519 | so does a begin, for the command with its flags and label |
| CargoCommands.ReferenceCarries | src/cargo_launch.rs:224-270 | so does a reference pass |
| CargoCommands.PrepareKeepsCommand | src/launch_intent/linux.rs:489-557 | preparing a frozen command keeps it as it is |
| CargoCommands.RouteSessionExact | src/cargo_launch.rs:377-403 | a session's route answers if and only if the route of the begun command is granted and still makes the selection |
| CargoCommands.BeginExact | src/cargo_launch.rs:333-519 | an observed begin goes ahead if and only if the program is the selected Cargo, the flags are acceptable, there is a free record, the route is granted and keeps the selection, and the record has room; unobserved only the first two count |
| CargoCommands.RecordedIff | src/cargo_launch.rs:404-519 | a begin that goes ahead is numbered, and recorded if and only if a record is free and has room, otherwise counted lost |
| CargoCommands.ReferenceExact | src/cargo_launch.rs:224-270 | a reference pass goes ahead if and only if the same holds with the ordinal in place of the record |
| CargoCommands.PrepareGives | src/launch_intent/linux.rs:489-557 | a routed command is prepared if and only if its carrier is sealed and its intent acknowledged, and then it is the command that spawns |
| CargoCommands.SpawningExact | src/cargo_launch.rs:287-331 | a prepared launch hands out a child if and only if the system spawns and the peer acknowledges the report of it |
| CargoCommands.StartExact | src/cargo_launch.rs:272-331 | the launch of a routed command hands out a child if and only if the carrier is sealed, the intent acknowledged, the process spawned and its report acknowledged |
| CargoCommands.LaunchSpawnsAsked | src/cargo_launch.rs:200-331 | what a launch adds to the history spawns at most once, and only the command its route carried from the begun one |
| CargoCommands.OtherSpawnsNothing | src/cargo_launch.rs:333-840 | no other call of a session spawns |
| CargoCommands.SpawnIsAsked | src/cargo_launch.rs:200-331 | over every run each process spawned is one that some launch of the run asked for: its route two entries before carries the begun command, with its flags and label and the reply's changes, to the very command spawned |
| CargoCommands.WaitExact | src/cargo_launch.rs:648-681 | a wait answers with the status if and only if the system gives one, no fault is pending, and the peer of an announced child acknowledges the completion with that very status; either way the child is waited for and released |
| CargoCommands.CancelExact | src/cargo_launch.rs:697-717 | a cancelled child is waited for and released, and is faulty if and only if it was, a wait failed first, or the peer does not acknowledge the cancellation with its process and status |
| CargoOutcomes.ChildIsItsLaunch | src/cargo_launch.rs:272-331 | over every run the live child belongs to the operation recorded by the very launch that handed it out, or to none when that launch recorded none |
| CargoOutcomes.RecordTellsOutcomes | src/cargo_launch.rs:521-554 | over every run the record has one operation for each that began, numbered, labelled and classified as it began, started exactly if it ran, with exactly the code of the status it last ended with, none if it never ended, and successful exactly if that code is 0 |
| CargoOutcomes.PublishedTellsOutcomes | src/cargo_launch.rs:521-632 | whatever `finish` publishes of a run carries that outcome of the operation it records |
| CargoOutcomes.ActTells | src/cargo_launch.rs:200-840 | each call keeps the record in step with what it made happen: a wait, a cancellation and a drop record the status that was waited for |
| CargoOutcomes.CutShortLog | src/cargo_launch.rs:310-331 | a child whose spawn could not be reported is waited for once, recorded with that status and never handed out |
| CargoAccount.RequestLabelInjective | src/cargo_launch.rs:333-376 | request labels of one session differ whenever their ordinals do |
| CargoAccount.SessionRunAccounts | src/cargo_launch.rs:333-554 | every run keeps ordinals increasing, labels in step with them, recorded + lost at most the ordinal, retained bytes within the cap, and lifecycles consistent |
| CargoAccount.DraftValidates | src/cargo_launch.rs:556-632 | what `finish` drafts meets the order, label, lifecycle and witness conditions of validation, and its witness equals what was lost, dropped and never recorded |
| CargoAccount.AdmittedFrom | src/cargo_launch.rs:556-632 | only recorded operations are published |
| CargoAccount.AdmittedIffFits | src/cargo_launch.rs:562-620 | an operation is published if and only if it fits at its turn in what the ones before it left, and then for good and in order |
| CargoAccount.FittingAreAdmitted | src/cargo_launch.rs:562-620 | operations that fit together are all published |
| CargoAccount.UnrecordedIsCounted | src/cargo_launch.rs:224-519 | over every run the ordinals that left neither a record nor a loss are exactly its reference passes and refused begins |
| CargoAccount.WitnessExactIff | src/cargo_launch.rs:556-632 | after any run the witness is off by that count, so it equals the number lost if and only if the run had no reference pass and no refused begin |
| CargoAccount.ReferencePassMiscounted | src/cargo_launch.rs:224-632 | a run without an observer, one reference pass and then seventeen operations: sixteen are recorded, one is lost, and the witness marked exact says two |
| CargoAccount.Finish | src/cargo_launch.rs:556-632 | the admission loop publishes exactly the draft, or the emptied record when a check outside this account fails |
| GraphModel.CrateOfIdExact | src/graph.rs:20-61 | the crate is recovered from a file or item id if and only if the normalized name has no doubled underscore and does not end in one |
| GraphModel.CrateOfCrateIdExact | src/graph.rs:33-61 | for crate ids, if and only if it has no doubled underscore |
| GraphModel.DoubledHyphenMisattributed | src/graph.rs:52-61 | the file id of a crate named "a--b" is attributed to "a" |
| GraphModel.Graph.AddNode | src/graph.rs:185-200 | a node is added, or its missing location and attributes are filled in while what it has is kept |
| GraphModel.AddedMeaning | src/graph.rs:185-200 | adding a node keeps every other node and every edge; under its own id what was there wins attribute by attribute, and only a missing location is filled in |
| GraphModel.Graph.AddEdge | src/graph.rs:203-224 | an edge is added unless its key is there |
| GraphModel.Graph.RemoveCrate | src/graph.rs:234-239 | exactly the nodes of the namespace and the edges leaving it are removed |
| GraphModel.Graph.RemoveEdgesWithRelation | src/graph.rs:243-245 | exactly the edges of the relation are removed |
| GraphModel.Graph.PruneDanglingEdges | src/graph.rs:249-253 | exactly the edges with both endpoints present are kept |
| GraphModel.AddingTwiceIsOnce | src/graph.rs:185-224 | re-adding a node or an edge changes nothing |
| Splice.ExpandDirtyNamespaces | src/main.rs:1222-1234 | the seed is closed under shared normalized names: every crate sharing a namespace with a changed or removed one becomes dirty, and no other |
| Workspaces.AuthoredExact | src/graph.rs:20-61 | a contribution made by the id builders is attributed to its own crate if and only if the normalized name has no doubled and no trailing underscore, or there is nothing in it |
| Workspaces.OwnDropExact | src/graph.rs:234-239 | dropping a crate takes one of its files or items along if and only if its normalized name is that clean |
| Workspaces.CollectedIsBuilt | src/rustdoc.rs:414-431 | what the ingestion of a crate has collected is a contribution made by its id builders: edges among its own items or from its crate node, references from its items that name an item of the crate they fall back to |
| Workspaces.WithoutCratesKeeps | src/graph.rs:234-239 | dropping crates keeps every node and authored edge of every other namespace, payload included |
| Workspaces.NodesExactIff | src/main.rs:978-1110 | on any names a run leaves exactly the ids of the new workspace if and only if it reads no id of a crate left alone as lying in a dropped namespace and none of a dropped crate as lying outside, save those added again or still in use |
| Workspaces.CleanReadsRight | src/graph.rs:52-61 | with clean names no id is misread so |
| Workspaces.OfferedExact | src/main.rs:978-1030 | the edges a run may add are exactly a dependency between two crates, a dirty crate's node containing one of its files, an edge of a dirty crate, and a reference of a dirty crate into the workspace, to the item it names if that is there and else to the item's crate |
| Workspaces.SpliceExact | src/main.rs:978-1110 | one incremental run that misreads no id: an id is present exactly when the workspace has it; an edge is present exactly when both ends are, and it was there outside the dropped namespaces, is of the crate layer, or is offered by a dirty crate, deferred references settled against the nodes now present |
| Splice.RemoveCrates | src/main.rs:978-981 | the namespaces of the given crates are dropped one by one |
| Splice.AddCrateLayer | src/metadata.rs:81-122 | a node for every crate of the workspace and an edge for every dependency, whichever crates are dirty |
| Splice.AddDirtyFiles | src/depinfo.rs:151-162 | the files of every dirty crate, each contained by its crate |
| Splice.AddDirtyItems | src/rustdoc.rs:141-178 | items and edges of every dirty crate, with the references into the workspace collected in order |
| Splice.SpliceGraph | src/main.rs:978-1110 | removals, crate layer, files, items, settled references and pruning, performed on the graph object, are exactly the specified run |
| Splice.RunsExact | src/main.rs:978-1110 | after any sequence of runs that misread no id: the node ids are those of the latest workspace, and an edge is there if and only if some run offered it and since then both its ends stayed and its source namespace was not dropped |
| Rebuild.RebuildExact | src/main.rs:978-1110 | a rebuild, on any names, has exactly the ids of the workspace and what its crates offer between them |
| Rebuild.NextRunIff | src/main.rs:978-1110 | on any names, after runs that misread no id, one more leaves the node ids of a rebuild if and only if it misreads none |
| Rebuild.HeldIsCurrentOrLate | src/rustdoc.rs:180-193 | an edge of the incremental graph is offered by the workspace as it is now, or is the fallback of a reference whose preferred item has since appeared, or a dependency that is gone |
| Rebuild.InternalKept | src/main.rs:978-1110 | no edge inside a namespace is ever missing from the incremental graph |
| Rebuild.MissedIff | src/rustdoc.rs:180-193 | an edge the latest workspace offers is missing from the incremental graph if and only if only references make it, every one of them settled elsewhere, was not followed or lost its target in between since its crate was last extracted, and no late edge stands in for it; such an edge leads to another namespace |
| Rebuild.IncrementalAgainstRebuild | src/main.rs:978-1110 | after any runs with clean names: the node ids of a rebuild and, dependencies aside, the same edges inside every namespace; an edge is in the incremental graph alone if and only if it is an outdated fallback or a stale dependency that the rebuild lacks, and in the rebuild alone if and only if it is missed |
| Divergence.FallbackOutlives | src/rustdoc.rs:180-193 | two crates, two runs: the second crate documents an item the first takes, and the first keeps its edge to the crate node and lacks the edge to the item, against a rebuild |
| Divergence.DoubledHyphenLosesFile | src/graph.rs:52-61 | with crates "a" and "a--b", re-extracting "a" alone drops the file of "a--b", which a rebuild has |
| Owners.SortDedupMeaning | src/scip.rs:266-272 | the result is sorted, without duplicates, and has exactly the given elements |
| Owners.CloseSound | src/scip.rs:248-274 | on any map and any sound cache the answer is a sorted list of true ancestors, and the cache stays sound |
| OwnerCycles.ExactIffSettled | src/scip.rs:248-274 | on any map: every answer after any earlier queries is the sorted list of exactly the ancestors if and only if every walk over first unvisited owners on a cycle ends at an item whose ancestors are its direct owners and what owners off its cycles add; one earlier query is enough to tell |
| OwnerCycles.ExactIffAcyclic | src/scip.rs:248-274 | where no item directly owns itself, that is so if and only if nothing owns itself at all |
| OwnerCycles.InnermostCached | src/scip.rs:248-274 | a first query round a cycle caches, for the item its walk ends at, nothing but that item's own offers |
| OwnerCycles.CloseSettled | src/scip.rs:248-274 | on a settled map a query, inside the recursion too, returns every ancestor and leaves each class of mutual owners cached or being visited as a whole |
| OwnerCycles.CloseExact | src/scip.rs:248-274 | where the only cycles are items owning themselves it returns every ancestor, whatever exact answers were cached |
| OwnerCycles.OwnersExact | src/scip.rs:248-274 | on such a map, with a sound and exact cache, the answer is the sorted list of exactly the ancestors, and the cache stays that good |
| OwnerCycles.SelfOwnerIsExact | src/scip.rs:248-274 | an item that owns itself is a cycle whose answers are always exact |
| OwnerCycles.CycleCachesPartialAnswer | src/scip.rs:248-274 | on a two-element cycle a cached answer misses an ancestor |
| Owners.OwnerClosure.EnclosingOwners | src/scip.rs:248-274 | the memoized recursion returns the specified closure, updates the cache to the specified one and restores the guard |
| Rollup.BuildParents | src/scip.rs:286-305 | the ownership map has exactly the direct owners recorded in the graph |
| Rollup.AddMemberReferenceEdges | src/scip.rs:286-345 | every edge added is implied by a direct reference and a strict owner other than its target, existing edges are untouched, the counts are exact per relation, and every implied edge is there when no two different items own each other |
| Rollup.OwnsMeaning | src/scip.rs:286-305 | an item is owned directly by exactly the nodes of one of six kinds with one of four ownership edges to it |
| Rollup.ImpliedMeaning | src/scip.rs:238-345 | an edge is implied if and only if the owner encloses an item that calls its target, for a member call, or refers to it in any of the six other ways, for a member use |
| Rollup.ImplicationStable | src/scip.rs:238-246 | rolled-up edges imply nothing new |
| Rollup.SecondRunAddsNothing | src/scip.rs:286-345 | once every implied edge is there a second derivation changes nothing and counts nothing |
| Query.BuildAdjacency | src/query.rs:441-455 | each index lists, for every node, exactly its links in document order |
| Query.GatherHits | src/query.rs:463-531 | the filtered loop over both lists yields exactly the specified hits, outgoing before incoming |
| Query.GatherMeaning | src/query.rs:463-531 | a hit is gathered if and only if some document link shows it in a requested direction and past the filter |
| Query.GatherTriples | src/query.rs:463-531 | the (node, neighbour, relation) triples gathered at a node are exactly those the document offers there |
| Query.MirroredAreMerged | src/query.rs:589-602 | in a document without repeated links a node's hits exceed its triples by exactly the neighbours and relations that link it both ways; they are as many if and only if no outgoing and incoming hit share neighbour and relation |
| Levels.WithinIsDistance | src/query.rs:589-621 | a node is within k steps if and only if a walk of document links that short leads to it |
| Levels.WithinStable | src/query.rs:616-621 | a level that adds nothing ends the growth for good |
| Refs.KeepUnseen | src/query.rs:596-602 | exactly the triples not seen before are kept, each once |
| Refs.ExpandLevel | src/query.rs:594-602 | a level finds exactly the unseen triples of the frontier, each once and each shown by a link |
| Refs.SortHits | src/query.rs:603-608 | the level is reordered by direction, relation and name, nothing lost or added |
| Refs.NextFrontier | src/query.rs:609-620 | the next frontier is exactly the neighbours met for the first time, each once |
| Refs.AdvanceExact | src/query.rs:589-621 | while nothing was cut off, the visited nodes after a level are exactly those within its distance |
| Refs.ExpandRefs | src/query.rs:559-631 | each level returns exactly the smaller of the limit and the number of unseen triples its round offers, no hit left out sorting before one kept; the next round is exactly the new neighbours of the kept hits; the total is the number of distinct triples at all expanded rounds; fewer rounds than the depth means nothing new was met; each triple is returned once and shown by a link; and while nothing is cut off the answer is every triple within depth |
| Refs.TakesShare | src/query.rs:603-612 | taking from the sorted level takes a share: the first hits in order, as many as the limit and the level allow |
| Refs.OneMoreLevel | src/query.rs:589-621 | one more level extends the account of rounds, shares and total by one |
| Refs.TrailExists | src/query.rs:594-621 | the depth of a returned hit is the length of a path of returned hits from the subject to it |
| Stable.ArrangeMeaning | src/compiler_observer.rs:931-933 | sorting reorders: same pile, and nothing follows what should come after it |
| Stable.ArrangeIsStable | src/query.rs:603-608 | elements that the order does not tell apart stay in the order they came in |
| Measure.SumOfSamePile | src/compiler_invocation.rs:44-76 | encoded size does not depend on the order of the elements |
| Assembly.AssemblyBudget.constructor | src/compiler_observer.rs:848-856 | the budget starts at the encoded size of the header, or at the cap |
| Assembly.AssemblyBudget.AdmissibleSize | src/compiler_observer.rs:858-868 | a charge is given exactly when the record is small enough and fits what is left, comma included |
| Assembly.AssemblyBudget.AdmitInvocations | src/compiler_observer.rs:501-581 | attachment, bytes charged and records dropped are those of the admission run over the records |
| Assembly.AdmittedIffWelcome | src/compiler_observer.rs:501-581 | every record is admitted, in order and for good, if and only if at its turn it is small enough, fits, is bound, has a fresh key and is valid |
| Assembly.FittingRecordsAdmitted | src/compiler_observer.rs:501-581 | distinctly keyed, acceptable records that fit together are all admitted and no gap is noted |
| Assembly.AdmissionHolds | src/compiler_observer.rs:501-581 | what is charged is the encoded size of what was admitted, within the cap; admitted keys are distinct; every record not admitted is counted dropped or leaves a gap |
| AssemblyGaps.AdmissionNotes | src/compiler_observer.rs:501-581 | a conflict is noted if and only if some record with room is unbound or repeats a taken key, a malformed observation if and only if some other record with room is invalid; exactly the records without room are counted as dropped, and exactly the others in neither case are admitted |
| AssemblyGaps.KeysTaken | src/compiler_observer.rs:501-581 | a key is taken if and only if a record of that key had room, was bound and came first, valid or not |
| Assembly.ChargedIsSize | src/compiler_observer.rs:848-868 | a budget that starts as the size of the attachment stays the size of the attachment with its records in it |
| Assembly.AssemblyBudget.Losses | src/compiler_observer.rs:870-902 | the assembly's own witnesses are brought up to date, all others are left alone |
| Assembly.WitnessesAccount | src/compiler_observer.rs:870-902 | each collection has exactly one exact witness when something of it was dropped and none otherwise; foreign witnesses keep their multiplicity |
| Assembly.EvictedSurvives | src/compiler_observer.rs:904-929 | after any number of evictions: prefixes, conserved counts, streams gone before generators and generators before invocations, witnesses up to date |
| Assembly.AssemblyBudget.Shrink | src/compiler_observer.rs:904-929 | the loop ends at the first eviction state that fits, or with nothing left to evict |
| Assembly.ReorderingKeeps | src/compiler_observer.rs:931-938 | sorting the witnesses changes neither the account nor the size |
| Assembly.PublishedRecords | src/compiler_observer.rs:904-939 | off the fallback: the attachment fits, is an exact account of kept and dropped, keeps a prefix of every collection, has no stream past the invocations, and no earlier eviction state would have fitted |
| Assembly.FallbackWitnessesValid | src/compiler_observer.rs:942-983 | whatever it is given, the fallback has few enough, well-named witnesses, each reporting a loss, and the budget gap beside them |
| Assembly.FallbackHonestIff | src/compiler_observer.rs:942-960 | the fallback's witnesses state what it holds if and only if no witness of streams among those it keeps has a nonzero retained count |
| Assembly.MalformedHonestIff | src/compiler_observer.rs:931-960 | what fits but fails validation is published with honest witnesses if and only if no stream was lost, none is left, or the witness of the loss is not among those the fallback keeps; with fewer witnesses than the cap it always is |
| Assembly.FallbackCanOverstate | src/compiler_observer.rs:931-960 | one invocation with its stream, one stream dropped before, and a misnamed foreign witness: it fits, fails validation, and is published claiming a stream it no longer has |
| Assembly.ExhaustedIsHonest | src/compiler_observer.rs:917-928 | when even the bare metadata does not fit, the fallback overstates nothing |
| AssemblyGaps.EvictionGaps | src/compiler_observer.rs:904-929 | evictions add no gap but an exceeded budget, and that one exactly with a witness |
| AssemblyGaps.PublishedNotes | src/compiler_observer.rs:904-983 | a failed validation, and nothing else, adds a malformed observation to what is published; an exceeded budget comes with a witness; header and records go together exactly when the fallback is taken, and the metadata that alone was too large is witnessed |
| Assembly.AssemblyBudget.Fallback | src/compiler_observer.rs:942-983 | filtering, cutting and zeroing the witnesses in place gives exactly the specified fallback |
| Assembly.AssemblyBudget.Finish | src/compiler_observer.rs:904-939 | `finish` publishes exactly what the specification publishes for the first fitting state |
| ObservedRows.TableGrows | src/compiler_semantic.rs:728-760 | a table stays numbered and duplicate-free exactly when the new row has the next number and a fresh key |
| ObservedRows.PushCheck | src/compiler_semantic.rs:720-789 | one row is accepted exactly when the sequence with it is well formed, and the state then describes it |
| ObservedRows.ObserveMeaning | src/compiler_semantic.rs:706-789 | the row-by-row fold accepts exactly the row sequences with headers first, gap-free distinct tables within their header's limits, and increasing descriptor names; it remembers exactly their tables |
| Semantic.ValidatePage | src/compiler_semantic.rs:306-354 | a page passes exactly when its own row limits, sizes, roles and rows do |
| Semantic.RowAcceptedIff | src/compiler_semantic.rs:666-703 | a reference row is accepted if and only if it is a plain row under a plain role, a context, configuration or feature row outside the plain domain and without a location, or a harness row in the harness domain, each observation under its own role and in range |
| SemanticCheck.ObservedStreamState.Push | src/compiler_semantic.rs:720-789 | the in-place push computes the specified step |
| SemanticCheck.ObservedStreamState.Finish | src/compiler_semantic.rs:790-838 | the final check holds exactly when every table is complete or its incompleteness is excused |
| SemanticCheck.ReadReferences | src/compiler_semantic.rs:386-392 | one page's references are accepted exactly when all rows so far stay well formed and numbered |
| SemanticCheck.ReadLocations | src/compiler_semantic.rs:393-410 | locations are accepted exactly when each (version, root, path) keeps one input |
| SemanticCheck.ReadPage | src/compiler_semantic.rs:375-411 | a page is accepted exactly when all pages up to it are, by their own checks and their concatenated rows |
| SemanticCheck.CheckTerminal | src/compiler_semantic.rs:412-438 | the terminal is accepted exactly when its counts, bounds and gaps agree with the rows |
| SemanticCheck.TerminalAcceptedIff | src/compiler_semantic.rs:412-438 | on well-formed rows a terminal is accepted if and only if it counts exactly what was emitted and is missing of what was visited, keeps the work bounds, notes a gap when it stopped early or misses rows, and the tables are whole wherever it ends the domain without a gap of their kind |
| SemanticCheck.Validate | src/compiler_semantic.rs:366-438 | a stream is accepted exactly when its pages pass alone, the concatenated rows are globally numbered, well formed and agree on sources, and the terminal agrees with them; visited minus emitted is only taken when it cannot be negative |
| SemanticCheck.AcceptedIff | src/compiler_semantic.rs:366-438 | a stream is accepted if and only if its pages fit its bounded size at 128 bytes each and are all in place, rows are numbered throughout, tables are well formed, one version, root and path has one input, and the terminal is accepted |
| SemanticCheck.EndWithoutGapsIsComplete | src/compiler_semantic.rs:412-438 | an accepted stream that ended without gaps emitted every definition and every reference it visited, and every table its domain asks for is as long as its header says |
| SemanticCheck.PaginationIrrelevant | src/compiler_semantic.rs:372-411 | a corollary of `Validate`: two streams with the same rows, whose pages each pass alone, are accepted or rejected together |
| SemanticCheck.EmittedNeverOverflows | src/compiler_semantic.rs:368-420 | an accepted stream has at most 65536 pages and 8388608 rows, so the emitted counters never overflow |
| SemanticCheck.PlainDomainHasNoSessionRows | src/compiler_semantic.rs:666-703 | an accepted stream of the plain domain has no session row |
| Occurrences.DefinitionKeyInjective | src/compiler_occurrence.rs:126-135 | two definitions share a key only if package, path and kind are the same |
| Occurrences.ReorderedStaysValid | src/compiler_occurrence.rs:162-240 | a valid record stays valid in any order |
| Occurrences.RoomyIff | crates/bg-driver/src/occurrences.rs:28-41 | a record has room if and only if its counts and tuples are in order and it encodes within the bound next to all eight gaps, however many are recorded so far |
| Occurrences.RoomForAnyGaps | crates/bg-driver/src/occurrences.rs:28-41 | a record that validates with the whole gap envelope validates with any of its gaps added, in any order |
| Occurrences.GapKeepsRoom | crates/bg-driver/src/occurrences.rs:268-272 | recording a gap keeps the room for all the others |
| RecordCheck.CheckDefinitions | src/compiler_occurrence.rs:190-216 | the loop accepts exactly distinct, well-formed definitions of one package with one buffer per file and generated files accounted for |
| RecordCheck.SumInputs | src/compiler_occurrence.rs:217-223 | the fold over the input map is the total of the distinct buffers |
| RecordCheck.CheckReferences | src/compiler_occurrence.rs:224-238 | the loop accepts exactly distinct references between given definitions |
| RecordCheck.Validate | src/compiler_occurrence.rs:162-240 | a record is accepted exactly when it is valid |
| Collector.SourcesGrow | crates/bg-driver/src/occurrences.rs:322-356 | reading a buffer keeps the distinct source bytes within what was spent |
| Collector.Collector.NoteGap | crates/bg-driver/src/occurrences.rs:268-272 | a gap is recorded once, and nothing else changes |
| Collector.Collector.FitsWithGapEnvelope | crates/bg-driver/src/occurrences.rs:28-41 | the answer is whether the record is valid now and with every gap, and the record is put back as it was |
| Collector.Collector.Locate | crates/bg-driver/src/occurrences.rs:274-367 | state and location are those of the locate step: refused, answered from the sources, or read and paid for |
| Collector.LocateKeeps | crates/bg-driver/src/occurrences.rs:274-367 | a lookup leaves tuples and cache alone, never raises the budget, and a located input is among the sources paid for |
| Collector.Collector.Define | crates/bg-driver/src/occurrences.rs:369-439 | state and answer are those of the define step, and the collector stays publishable |
| Collector.DefinedIff | crates/bg-driver/src/occurrences.rs:369-439 | a definition is returned if and only if it is cached, or it is local, within the count, supported, located and the record has room for it; only then is it the one new tuple |
| Collector.Collector.KeepDefinition | crates/bg-driver/src/occurrences.rs:431-438 | the tuple is kept and cached if and only if the record has room for it and every later gap, and otherwise leaves only a gap |
| Collector.Collector.Refer | crates/bg-driver/src/occurrences.rs:441-484 | the new state is that of the refer step, and the collector stays publishable; `CollectorOutcomes.ReferenceAddedIff` says when a reference is added |
| Collector.ReferJoins | crates/bg-driver/src/occurrences.rs:441-484 | at most one reference is added; it is new and joins the cached and retained definitions of its two subjects |
| CollectorOutcomes.LocatedExact | crates/bg-driver/src/occurrences.rs:274-367 | a span is located if and only if it lies in a file outside refused expansions, under a root, in a buffer read before or affordable and not another buffer of a known file; the answer is that input and its own range |
| CollectorOutcomes.LookPays | crates/bg-driver/src/occurrences.rs:274-367 | only reading a new affordable buffer spends budget, exactly its size; a buffer that is too dear exhausts it |
| CollectorOutcomes.LookNotes | crates/bg-driver/src/occurrences.rs:274-367 | a gap is noted by a look if and only if the span gives its reason |
| CollectorOutcomes.LookRemembers | crates/bg-driver/src/occurrences.rs:322-356 | only an input that is located is remembered, and what was remembered stays |
| CollectorOutcomes.NewDefinitionIff | crates/bg-driver/src/occurrences.rs:369-439 | a definition not cached is added if and only if it is local, within the count, supported, located and its tuple has room |
| CollectorOutcomes.DefinedExact | crates/bg-driver/src/occurrences.rs:369-439 | the answer is the cached one, or else the one keepable tuple, which is then added and cached |
| CollectorOutcomes.RefusalNoted | crates/bg-driver/src/occurrences.rs:369-400 | a definition refused before its span is looked at leaves exactly the gap of the first reason that holds |
| CollectorOutcomes.DefineNotes | crates/bg-driver/src/occurrences.rs:400-439 | a named, local definition within the count is noted as over the budget if and only if it is located and not kept |
| CollectorOutcomes.LinkExact | crates/bg-driver/src/occurrences.rs:455-484 | between two kept tuples an edge is added if and only if the span lies in the source's own input, the edge is new and the record with it has room |
| CollectorOutcomes.LinkNotes | crates/bg-driver/src/occurrences.rs:455-484 | linking notes beyond the look exactly a span in another input, or a record without room for a new edge |
| CollectorOutcomes.ReferenceAddedIff | crates/bg-driver/src/occurrences.rs:441-484 | a reference is added if and only if there is a free slot, both subjects are defined, the span lies in the source's own input, the edge is new and the record with it has room; otherwise the references stay |
| CollectorOutcomes.OneMoreDefinition | crates/bg-driver/src/occurrences.rs:245-439 | after any calls, asking for a definition adds the one keepable tuple or none |
| CollectorOutcomes.OneMoreReference | crates/bg-driver/src/occurrences.rs:245-484 | after any calls, a reference call adds its edge exactly when it can be linked then |
| Collector.CollectedKeeps | crates/bg-driver/src/occurrences.rs:245-484 | over any calls the record keeps room for every gap, and no tuple, gap, cached answer or source of an earlier point is lost later |
| Collector.Collector.Publish | crates/bg-driver/src/occurrences.rs:486-505 | what is published is the sorted record, and it is valid: the rejection branch is never taken |
| Collector.SortedIsReordered | crates/bg-driver/src/occurrences.rs:486-505 | the sorted record holds exactly what was collected, definitions and references in the order asked for |
| Collector.Collect | crates/bg-driver/src/occurrences.rs:245-505 | whatever the compiler answers to whatever calls, a collector publishes if and only if its header is well formed and encodes within the bound next to every gap; what it publishes is the sorted record of those calls, valid, and noting from the start that coverage is partial |
| Flags.SplitJoin | src/cargo_launch.rs:1070-1118 | flags free of the separator survive joining and splitting |
| Flags.Scan | src/cargo_launch.rs:1083-1099 | the scan accepts exactly flags with no dangling selector, no other sysroot and at most one selection, and tells whether there is one |
| Flags.SelectsMeaning | src/cargo_launch.rs:1083-1099 | a flag selects a sysroot if and only if it is the option followed by it, or the option joined to it by an equals sign |
| Flags.ComposeFlags | src/cargo_launch.rs:1056-1119 | one variable is refused or rewritten exactly as specified; `ComposeIff` says when, `ComposeMeaning` to what |
| Flags.ComposeIff | src/cargo_launch.rs:1056-1119 | flags are refused if and only if they are not UTF-8, too long, plain with a separator, too many, with a dangling, contradictory or repeated selection, or without room for the one to be appended |
| Flags.ComposeMeaning | src/cargo_launch.rs:1049-1122 | a success keeps every prior flag in order, leaves exactly one selection of the given sysroot, appended only when there was none, respects both caps and decodes back to exactly that list |
| Flags.ComposeAgain | src/cargo_launch.rs:1049-1122 | composing again gives the same value, whatever the plain variable says by then |
| Flags.ApplySysroot | src/cargo_launch.rs:1049-1122 | both variables of a command are rewritten in turn, or the whole is refused |
| Flags.ApplyExact | src/cargo_launch.rs:1049-1122 | the selection is applied if and only if it is UTF-8 and both pairs compose; then each encoded variable is composed from itself and its own plain one, and every other name and the rest of the command are what they were |
| Flags.FixedIffCarries | src/cargo_launch.rs:1036-1044 | composing leaves an encoded value as it is if and only if it holds one selection of the sysroot and is within the bounds |
| Flags.CheckFinalSelection | src/cargo_launch.rs:1018-1045 | a routed command passes if and only if it names both tools and both its encoded variables are set and carry the sysroot |
| Flags.ApplyIsIdempotent | src/cargo_launch.rs:1018-1045 | applying the selection to a command that carries it, in two values that are UTF-8, changes nothing, in whatever surroundings |
| Rustdoc.Ingest.Register | src/rustdoc.rs:433-468 | a new item gets its id and its node before anything it refers to is walked, so fewer ids are left; its id is spelled by the steps that led to it |
| Rustdoc.Ingest.Walk | src/rustdoc.rs:433-523 | an item gets a node exactly when it has one already or is in the index, named and of a modelled kind; the walk ends on any references, cyclic ones included, finishes every item it maps (all its children linked, its impl blocks recorded), adds only edges of steps between walked items, and leaves the items it may reach |
| Rustdoc.Ingest.WalkImpls | src/rustdoc.rs:525-555 | every walkable item of every impl block is linked and every block recorded, synthetic, blanket and skipped ones left out |
| ItemTree.WalkReachesAll | src/rustdoc.rs:414-523 | a walk from the root that finishes what it maps gives a node to exactly the items that walkable references reach |
| ItemTree.ReachedIsClosed | src/rustdoc.rs:433-555 | walkable references from reached items, impl items included, stay among the reached |
| ItemTree.RootStepsMeaning | src/rustdoc.rs:414-431 | the crate leads to exactly the items its root module lists |
| ItemTree.WalkableIff | src/rustdoc.rs:433-439 | a named item gets a node under a forced kind always, under its own unless it is an impl block or of no modelled kind |
| ItemTree.StepsMeaning | src/rustdoc.rs:470-555 | an item leads to exactly the items it contains, its fields, its variants, its associated items and the items of its impl blocks that are written out, or derived where derives count, each with its relation and forced kind |
| ItemNames.MappingSpells | src/rustdoc.rs:433-449 | mapping the item a step leads to, from where the walk stands, spells its id by the names and the kind along the steps that led there, and changes no other |
| ItemNames.RoutesDecide | src/rustdoc.rs:433-449 | where all routes to an item build up one path and one kind, these spell its id |
| ItemNames.BuiltUpIsJoined | src/rustdoc.rs:441-445 | the path a walk builds up name by name is the joined path, unless the first of several names is empty: then the joined one is longer |
| Rustdoc.Ingest.TypePass | src/rustdoc.rs:557-601 | the edges and deferred references collected are sets fixed by the walk alone, whatever order the entries are visited in; `References` says where they lead |
| Rustdoc.Ingest.AddReference | src/rustdoc.rs:603-617 | a resolved reference becomes one edge, one deferred edge, or nothing |
| Rustdoc.Ingest.Run | src/rustdoc.rs:414-431 | exactly the reachable items have nodes and each is finished; every id is spelled by the names along a trail of steps whose own items are spelled so; the edges are exactly those of the walk, each a step between walked items or from the crate, and those of the type pass; the deferred references are exactly those of the walked items and recorded impls |
| Rustdoc.Ingest.Apply | src/rustdoc.rs:669-682 | the graph gains exactly the collected nodes, and every collected edge when the crate's node is there; what it had is kept |
| Rustdoc.ResolvePending | src/rustdoc.rs:180-193 | every pending reference in turn leads to its item, else its crate, else nowhere |
| Rustdoc.SettleAllKeys | src/rustdoc.rs:180-193 | the edges added are a function of the set of pending references and the nodes present, whatever their order; existing edges are untouched |
| Rustdoc.LandAllKeys | src/rustdoc.rs:674-678 | of the collected edges exactly those with both ends present are added |
| References.RefusedIff | src/rustdoc.rs:634-655 | an id the crate walked stays local; otherwise it is refused if and only if it has no summary, an empty path, or a crate outside the workspace; a summary of a crate alone leads to the crate |
| References.ReferenceNamesItem | src/rustdoc.rs:634-655 | a summary that gives an item's crate, the names on its trail and its class leads to exactly the id that crate's own walk gives the item, if and only if the outermost name is not empty and the kind is not forced |
| References.MethodIsNotSummarized | src/rustdoc.rs:683-724 | no summary is tagged the way a walk tags methods, whatever the paths |
| References.TagsAgree | src/rustdoc.rs:683-724 | what a walk calls an item of its own accord is what a summary of it is read as |
| References.UsesMeaning | src/rustdoc.rs:557-578 | a function takes its inputs and returns its output, an alias aliases its type, and fields, statics and constants use theirs; nothing else is mentioned |
| References.AddItemLayer | src/rustdoc.rs:137-196 | every documented package is ingested in turn and the others skipped, then the references between them are settled; the count is what the graph grew by |
| References.MentionSettles | src/rustdoc.rs:180-193 | in the finished graph a reference out of a crate ends at the item it names, else at that item's crate, as far as either has a node |
| References.ReferenceReachesItem | src/rustdoc.rs:137-193 | in the finished graph a walked item is joined to any item of another documented crate it mentions, by a type or by the trait of an impl, when the summary gives that item's crate, names and class |
| References.LocalReferenceLands | src/rustdoc.rs:557-617 | and to every item of its own crate it mentions, but not to itself, other than by implementing |

## Left out

- Sockets, memfds, `fcntl`, `poll`, processes, clocks and `/proc`: what they answer is an input of each step; only the budgets and the ownership they change are kept.
- Serde, JSON text, SHA-256 and FNV arithmetic: arbitrary functions and additive sizes.
- LaunchIntent.DigestInjective: assumes that the hash separates the two preimages compared, since nothing is proved about SHA-256.
- LaunchIntent.IntentDeterminesExecution: carries the same assumption, and the process image beyond program, arguments, directory and environment is not part of this model.
- LaunchIntent.FreezeEnvironment: an ambient environment has one value a name; the platform allows duplicates.
- A `Command` partly changed by a freeze that then fails: the source discards it with the error, and the model returns no command.
- LaunchRuns.PeerSeesLifecycle: supposes an encoder that takes small events; their encoded size is not computed.
- LaunchRuns.NoSpawnWithoutAcknowledgement: supposes that the working directory the system reports is absolute.
- CargoRuns.SessionRunKept: supposes that process numbers are positive and the working directory is absolute.
- CargoLaunch.CargoChild.RetainedWait: is given how many waits fail first; without a bound the source loops for as long as they do.
- Leaking a child guard with `mem::forget`, and borrowing across threads: a run uses the guard by its own operations only.
- Ordinals beyond 64 bits, and the pipe threads inside `output` beyond the fault they report.
- CargoLaunch.CargoLaunchSession.Begin: the recorded arguments, environment, directory and tools are one weight, their gaps and truncations are left out, and the flag changes of an explicit selection come from outside.
- CargoLaunch.CargoLaunchSession.BeginReference: whether the routed command still makes the explicit selection is one verdict from outside; the check behind it is `Flags.CheckFinalSelection`, and the comparison with the flags before the route is left out.
- CargoLaunch.CargoLaunchSession.CompleteOperation: the second observation of the executable and its gaps are left out.
- CargoLaunch.CargoChild.PipeFault: the draining loop of `output` and its size cap are represented by the fault they end in.
- CargoAccount.Finish: portability of paths and arguments is one verdict given from outside.
- `compose_explicit_flag_baseline` and the path checks of an explicit toolchain: single comparisons against a captured baseline.
- Flags.ComposeIff: measures a plain value again after joining, since how far white-space splitting shortens it is not assumed.
- LaunchCommands.RouteExact: takes the encodings and the hash as arbitrary functions, so what fits them is asked of them.
- Flags.ComposeMeaning: white-space splitting is any function that adds no separator to its pieces, and the sysroot has no separator, which the caller checks beforehand.
- Flags.ComposeAgain: supposes that the joined value is UTF-8, which holds of any join of UTF-8 pieces.
- `load` and `into_doc` of the graph: conversions between the maps and the document lists.
- Workspaces.SpliceExact: is for runs that misread no id, `Splice.RunsExact` likewise; `NodesExactIff` is the exact condition for the ids, and what the edges are after an id was misread is not stated.
- Rebuild.HeldIsCurrentOrLate: is for names whose normalized form is clean, which `AuthoredExact` and `OwnDropExact` show to be what the attribution of edges needs.
- Rebuild.InternalKept: is for clean names likewise.
- Rebuild.MissedIff: is for clean names likewise.
- Rebuild.IncrementalAgainstRebuild: is for clean names, and takes a clean crate's own extraction, references to other crates included, to be what it was, as the fingerprint of its sources supposes.
- Splice.SpliceGraph: ends with the settled references and pruning; the reference and rollup layers recomputed afterwards are left out.
- Attributes that an existing crate node keeps against fresh ones (its version, say): the comparison with a rebuild is about ids and edge keys.
- Recomputing the reference and rollup layers after a splice, and which crates are found dirty in the first place: any set that covers the changes.
- Rollup.AddMemberReferenceEdges: is complete for ownership without mutual owners; with such cycles what is missing depends on the order of the owner lists, which `OwnerCycles.ExactIffSettled` describes on the map.
- Query.MirroredAreMerged: is for documents without repeated links, as the graph writes them.
- SCIP and rust-analyzer parsing, and attribution of occurrences to definitions in `ingest`.
- Refs.ExpandRefs: starts from a resolved subject; ranking candidates for an ambiguous name and `context_indexed` are not modelled, and node attributes copied into a result are represented by the neighbour's id.
- Refs.AdvanceExact: is stated while nothing was cut off; with a cut `ExpandRefs` says what each level keeps and where the next round starts.
- Assembly.AssemblyBudget.AdmitInvocations: takes the records as read and parsed once; the loop over directory entries before it, and the generator loop after it, which is the same without keys, are left out.
- Assembly.AssemblyBudget.Finish: the validation of a finished attachment is an arbitrary verdict, so nothing is concluded from its failing.
- `reserve_read`, `dep_inputs` and the page inventory of `read_semantic_stream`: counters over file contents.
- Semantic.ValidatePage: text, location and per-observation field ranges are arbitrary row checks.
- SemanticCheck.Validate: gaps recorded on a page are bounded in number and otherwise not looked at, as in the source.
- RecordCheck.Validate: text and path portability are arbitrary checks; confidence, score and weight are constants of the record.
- Collector.Collector.Publish: reading the written JSON back is not modelled.
- Collector.Collector.Locate: answers of the source map are inputs; that one file keeps one buffer is not assumed.
- References.ReferenceReachesItem: is about a summary that follows the walk of the item; a summary of another public path, a re-export for instance, ends at the crate as `MentionSettles` says.
- References.AddItemLayer: whether a document could be read and parsed is one answer from outside; reports on packages are left out.
- Rustdoc.Ingest.Walk: where routes to an item differ in path or kind, which of them names it is left open; `ItemNames.RoutesDecide` is for items listed once.
- Rustdoc.Ingest.Register: definition records pair each node with its span and are left out; blanket and synthetic impls are one flag.
- Lines and files of item edges: this layer of the source sets none.
- `Locator` and `read_reference_edges`, `should_extract_crate`, the command line, reports, viewers and servers: lookups and presentation that would add only easy members.

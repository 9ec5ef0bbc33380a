# MyFlowHub, verified in Dafny

MyFlowHub connects nodes into a tree of authenticated links and gives them shared resources: Variables with
watchers, commands, files, a catalog of what exists, and policies that say who may use what. This project
models the parts of it where something can go subtly wrong and proves what they promise.

Each part has a specification on values (a state, the functions that are its critical sections, and runs as
sequences of steps), theorems over every run, and, where the program changes things in place, a class or
method with loops that is proved to do what the specification says. Concurrency is modelled as interleaving:
every action of a state machine is one critical section or one unlocked step of some thread.

Of each part three kinds of things are proved: what every run keeps (safety), why anything changes at all and
exactly when a call succeeds (the files called Causes, Answers, Meaning, Gate and Layout, which speak of records,
bytes and actions before and after and not of the functions in between), and that what should happen does
(`RoutingProgress`, and the progress theorems of `VariableGate`, `DispatcherMeaning` and `LinkMeaning`).

| part | files |
|---|---|
| enrollment authority | `Enrollment`, `EnrollmentCoherence`, `EnrollmentInvariant`, `EnrollmentHistory`, `EnrollmentStore`, `EnrollmentClock`, `EnrollmentCauses`, `EnrollmentAnswers`, `EnrollmentAuthority` |
| Variables and their watchers | `Variable`, `VariableInvariant`, `VariableGate`, `VariableObject` |
| resource registry and paged catalog | `Registry`, `RegistryObject`, `RegistryMeaning`, `Catalog` |
| routing in the tree | `Tree`, `Routing`, `RoutingNetwork`, `RoutingProgress`, `RoutingNode` |
| topology validators, builder, cache, publisher | `Decimal`, `Topology`, `TopologyBuilder`, `TopologySnapshot`, `TopologyPublisher` |
| frame and enrollment codecs | `Wire`, `Codec`, `CodecBuffer`, `EnrollmentCodec`, `CodecLayout` |
| policy store | `PolicyRules`, `Policy`, `PolicyMeaning`, `PolicyState` |
| command dispatcher | `Dispatcher`, `DispatcherMeaning`, `DispatcherCache` |
| file transfers | `Transfers`, `TransferBounds`, `TransferCauses`, `TransferController` |
| link queues and writer | `Link`, `LinkMeaning` |
| JSON surrogate scan | `JsonScan` |
| shared | `Basics`, `Ordering` |

Clocks, random bytes, the outcome of saving, publishing and file operations, the order in which a map is
visited, and what other threads do in between are parameters of each step. Signatures, fingerprints and
SHA-256 are arbitrary functions; where saved state is loaded again it is assumed
that a signature made with the authority key verifies, and where a file is received byte by byte that a
checksum is spelled as 64 hexadecimal digits.

Where a promise does not hold of the code in full, an input that breaks it and the exact condition are theorems:

- Timestamps are written unchecked, so a clock that goes back behind the creation of a request, or stands before
  1970, makes the saved enrollment state unloadable (`RejectOnBackwardClock`). `LoadableExactlyWhenClockFits` gives
  the exact condition for every call. Only the theorems about reloading (`EnrollmentInvariant.RunKeeps`,
  `RestartLosesNothing`) assume a positive clock that never goes back; what holds of identifiers, Node IDs, epochs,
  permits, grants and limits (`EnrollmentCoherence.RunCoheres` and all of `EnrollmentHistory`) holds on any clock.
- The end of a file chunk is a 64-bit sum that may wrap around, and then a chunk is written past the end of the file
  (`NoLimitSlips`). `BoundIsExact` shows for each size and chunk size that no run writes past the end exactly when
  their sum fits into 63 bits, and `LimitIsExact` that this covers all files exactly when the size limit is at most
  2^63 - 1 - 65536. The run theorems about accounts, files and writes assume no such limit.
- A failed promotion clears the frame before its interest is untracked, so the interest stays
  (`FailedPromotionLeavesInterest`); in a tree no promotion fails (`PromotionNeverFails`).
- A duplicate command moves its record to the back of the cache without renewing its expiry, so a record may
  outlive its time to live (`RecordOutlivesItsTime`); `AnsweredExactlyBehindALiveRecord` says exactly when it does.
- A command whose deadline passes is completed while its handler runs on, so a second handler of the same message
  may start beside the first (`LateHandlerRunsTwice`); `SecondHandlerExactlyWhenForgotten` says exactly when.

## Model

| member | source | states |
|---|---|---|
| `EnrollmentInvariant.RunKeeps` | runtime/auth/enrollment_authority.go:170-583 | Every state of every run from an empty store, with a positive clock that never goes back and saves that may fail, satisfies all reload checks and all uniqueness and limit invariants |
| `EnrollmentInvariant.StepKeeps` | runtime/auth/enrollment_authority.go:266-583 | One call of any kind, whatever it answers, on a clock that is positive and not behind, leads from a sound state that loads to a sound state that loads |
| `EnrollmentInvariant.IssueStep` | runtime/auth/enrollment_authority.go:266-323 | Issuing a permit keeps all invariants, so permit IDs, issue requests and epochs stay unique and the store stays reloadable |
| `EnrollmentInvariant.SubmitStep` | runtime/auth/enrollment_authority.go:325-413 | A submission, first, repeated, joined to a live request or carrying a permit, keeps all invariants |
| `EnrollmentInvariant.PermitGrantStep` | runtime/auth/enrollment_authority.go:415-430 | Consuming a permit and granting in one commit keeps all invariants, among them the pairing of approved requests and enrollments |
| `EnrollmentInvariant.GrantKeeps` | runtime/auth/enrollment_authority.go:716-754 | A grant keeps all data invariants at the next generation (unused Node ID, fresh enrollment ID, new epoch, reloadable records) and touches no permit |
| `EnrollmentInvariant.ApproveStep` | runtime/auth/enrollment_authority.go:432-481 | Approval, including the expiry it may discover, keeps all invariants |
| `EnrollmentInvariant.RejectStep` | runtime/auth/enrollment_authority.go:483-522 | Rejection, including the expiry it may discover, keeps all invariants |
| `EnrollmentInvariant.RevokePermitStep` | runtime/auth/enrollment_authority.go:524-552 | Revoking a permit keeps all invariants |
| `EnrollmentInvariant.RevokeEnrollmentStep` | runtime/auth/enrollment_authority.go:554-583 | Revoking an enrollment keeps all invariants, among them that every enrolled Node ID counts as used |
| `EnrollmentInvariant.FreshInv` | runtime/auth/enrollment_authority.go:170-210 | An authority started on an empty store is sound |
| `EnrollmentHistory.StepExtends` | runtime/auth/enrollment_authority.go:266-583 | Whatever the clock reads, no call forgets a permit, a used Node ID, a grant or a terminal status, and every grant or permit it answers is on record afterwards |
| `EnrollmentHistory.RunExtends` | runtime/auth/enrollment_authority.go:266-583 | The same over any stretch of any run on any clock |
| `EnrollmentHistory.GrantsNeverCollide` | runtime/auth/enrollment_authority.go:716-754 | Any two grants answered in a run, whatever the clock does, are the same enrollment or differ in enrollment ID, Node ID and epoch, and none carries the authority's own Node ID |
| `EnrollmentHistory.PermitsNeverCollide` | runtime/auth/enrollment_authority.go:266-323 | Any two permits answered in a run, whatever the clock does, are the same permit or differ in ID and epoch |
| `EnrollmentHistory.NodeIdsAreNeverFreed` | runtime/auth/enrollment_authority.go:554-583 | In every run, whatever the clock does, a Node ID once used stays used in every later state |
| `EnrollmentHistory.PermitIsConsumedOnce` | runtime/auth/enrollment_authority.go:681-714 | In every run, whatever the clock does, a consumed or revoked permit never changes again |
| `EnrollmentHistory.ResubmitReturnsStoredGrant` | runtime/auth/enrollment_authority.go:325-413 | On any clock, submitting an approved request ID again creates nothing and answers the stored grant, or the revocation error once revoked; it fails only when an expiry discovered on the way cannot be saved |
| `EnrollmentHistory.CallsCommitOnce` | runtime/auth/enrollment_authority.go:810-821 | A call commits at most once: it leaves the whole state alone, or it saved exactly the next generation |
| `EnrollmentStore.Save` | runtime/auth/enrollment_authority.go:823-842 | The saved file lists every record once, sorted by its key, and every used Node ID once, in order |
| `EnrollmentStore.Load` | runtime/auth/enrollment_authority.go:844-947 | A file loads exactly when all reload checks hold, and then as the data it describes |
| `EnrollmentStore.SaveThenLoad` | runtime/auth/enrollment_authority.go:823-947 | A saved state loads exactly when it satisfies the reload checks, and then as itself |
| `EnrollmentStore.RestartLosesNothing` | runtime/auth/enrollment_authority.go:170-250 | After any run on a positive clock that never goes back, a restart from the saved file gives back the same authority |
| `EnrollmentClock.RejectNeedsForwardClock` | runtime/auth/enrollment_authority.go:483-522 | Rejecting a pending request leaves a reloadable state if and only if the clock has not gone back behind the creation of that request |
| `EnrollmentAuthority.ExpirePending` | runtime/auth/enrollment_authority.go:1115-1126 | The loop closes exactly the pending requests whose time is up and says whether there were any |
| `EnrollmentAuthority.CountPending` | runtime/auth/enrollment_authority.go:1095-1103 | The loop counts the pending requests |
| `EnrollmentAuthority.CountPendingFor` | runtime/auth/enrollment_authority.go:1105-1113 | The loop counts the pending requests of one parent |
| `EnrollmentAuthority.FindPermitFor` | runtime/auth/enrollment_authority.go:266-323 | The scan finds the permit of an earlier issue request |
| `EnrollmentAuthority.FindLiveRequest` | runtime/auth/enrollment_authority.go:325-413 | The scan finds a live request of the same device at the same parent |
| `EnrollmentAuthority.DrawNodeId` | runtime/auth/enrollment_authority.go:779-794 | At most 128 draws give the first non-zero unused Node ID, or fail |
| `EnrollmentAuthority.DrawId` | runtime/auth/enrollment_authority.go:796-808 | Repeated draws give the first free non-zero record ID, or fail |
| `EnrollmentAuthority.Authority.IssuePermit` | runtime/auth/enrollment_authority.go:266-323 | The object answers and stores what the specification of issuing says; `IssueAnswers` and `IssueCaused` say what that means |
| `EnrollmentAuthority.Authority.Submit` | runtime/auth/enrollment_authority.go:325-413 | The object answers and stores what the specification of submission says, file included; `PermitIsRedeemedExactly`, `RequestIsFiledExactly` and `SubmitTellsTheTruth` say what that means |
| `EnrollmentAuthority.Authority.GrantWithPermit` | runtime/auth/enrollment_authority.go:415-430 | Consumption and grant happen in one commit or not at all, as `PermitRedeems` describes them: for an entitled submission only |
| `EnrollmentAuthority.Authority.Approve` | runtime/auth/enrollment_authority.go:432-481 | The object answers and stores what the specification of approval says; `ApproveAnswers` and `ApproveCaused` say what that means |
| `EnrollmentAuthority.Authority.Reject` | runtime/auth/enrollment_authority.go:483-522 | The object moves exactly as the specification of rejection says |
| `EnrollmentAuthority.Authority.RevokePermit` | runtime/auth/enrollment_authority.go:524-552 | The object moves exactly as the specification of permit revocation says |
| `EnrollmentAuthority.Authority.RevokeEnrollment` | runtime/auth/enrollment_authority.go:554-583 | The object moves exactly as the specification of enrollment revocation says |
| `EnrollmentAuthority.Authority.CommitData` | runtime/auth/enrollment_authority.go:810-821 | Memory and file change together, and only when the save succeeds and a generation is left |
| `VariableInvariant.EveryWatcherIsToldInOrder` | runtime/resource/variable.go:329-450 | In every interleaving an uncancelled watcher has been delivered, followed by what travels and waits for it, exactly the commits after its snapshot in revision order and then at most one terminal failure; one drainer at most, a non-empty queue has one, and the queue holds at most the limit plus one |
| `VariableInvariant.QuietMeansDelivered` | runtime/resource/variable.go:357-375 | Once nobody drains, every uncancelled watcher has received all it was promised |
| `VariableInvariant.CompareAndSetIsLinearizable` | runtime/resource/variable.go:187-238 | Every successful compare-and-set named the instance the Variable has and always had, replaced exactly the revision it expected and installed the next one; `EveryWinInstallsWhatWasConfirmed` says with what content |
| `VariableInvariant.NothingCommitsAfterRetirement` | runtime/resource/variable.go:329-341 | After retirement nothing commits, not even a writer whose handler was already running |
| `VariableInvariant.RunKeeps` | runtime/resource/variable.go:161-465 | The protocol invariant holds in every state of every interleaving |
| `VariableInvariant.StepKeeps` | runtime/resource/variable.go:161-465 | Every critical section and every unlocked step keeps the protocol invariant |
| `VariableInvariant.CommitKeeps` | runtime/resource/variable.go:329-341 | A commit, with its notice for the watchers of that moment, keeps the protocol invariant |
| `VariableInvariant.RetireKeeps` | runtime/resource/variable.go:430-450 | Retirement, with its terminal notice and the removal of all watchers, keeps the protocol invariant |
| `VariableInvariant.WatchKeeps` | runtime/resource/variable.go:376-400 | Adding a watcher that is promised exactly the commits after its snapshot keeps the protocol invariant |
| `VariableInvariant.PopKeeps` | runtime/resource/variable.go:357-375 | Moving a notice from the queue into flight, or ending the drain, keeps the protocol invariant |
| `VariableInvariant.CallKeeps` | runtime/resource/variable.go:452-465 | A call that delivers the next promised update, or panics and cancels its watcher, keeps the protocol invariant |
| `VariableObject.DrainDeliversQueue` | runtime/resource/variable.go:357-375 | Draining gives an uncancelled watcher exactly what was queued for it, in order |
| `VariableObject.NoticeSeenOnce` | runtime/resource/variable.go:369-373 | One notice reaches each of its uncancelled watchers exactly once |
| `VariableObject.Deliver` | runtime/resource/variable.go:369-373 | The delivery loop calls the uncancelled watchers of a notice in order |
| `VariableObject.SharedVariable.EnqueueLocked` | runtime/resource/variable.go:342-356 | Queues the notice for all watchers and hands out the drain ticket only when nobody drains |
| `VariableObject.SharedVariable.CommitPrepared` | runtime/resource/variable.go:329-341 | Installs the value and queues the notice, or refuses a retired variable or a full queue and changes nothing |
| `VariableObject.SharedVariable.WatchLocked` | runtime/resource/variable.go:376-400 | Adds a watcher under a new number and answers the current value, or refuses |
| `VariableObject.SharedVariable.PrepareRetire` | runtime/resource/variable.go:430-450 | Marks the variable retired, queues the terminal notice and drops the watchers |
| `VariableObject.SharedVariable.Drain` | runtime/resource/variable.go:357-375 | Empties the queue and makes exactly the calls it stands for |
| `Registry.ScanIsExact` | runtime/resource/resource.go:145-166 | The scan of a batch finds nothing exactly when every value is present, well formed, owned here, not the catalog, and named differently from the others |
| `Registry.SlotsAreFree` | runtime/resource/resource.go:177-184 | The scan under the lock finds nothing exactly when no value is retired and no name is taken |
| `Registry.PublishIsAtomic` | runtime/resource/catalog.go:127-151 | Publishing the catalog installs exactly the next revision with the payload prepared for it, or leaves value and history alone, whatever watchers and drainers do meanwhile |
| `Registry.RegisterIsAllOrNothing` | runtime/resource/resource.go:138-210 | A batch makes all its members visible at the next revision, or leaves members, revision and descriptors as they were |
| `Registry.RemoveIsAllOrNothing` | runtime/resource/resource.go:297-343 | A removal asked of the owner takes out exactly that member and retires it at the next revision, or changes nothing |
| `Registry.AddAllFiles` | runtime/resource/resource.go:185-187 | Every old entry is kept and every member of the batch is filed under its own name |
| `Registry.FreshInv` | runtime/resource/resource.go:110-132 | A new registry is consistent: it lists its own catalog, and nothing else |
| `Registry.StepKeeps` | runtime/resource/resource.go:138-343 | Every call keeps the registry consistent, and a catalog changes only together with its revision |
| `Registry.CatalogNamesTheMembers` | runtime/resource/resource.go:138-343 | In every state of every run the descriptors are the sorted descriptors of the members, and the catalog Variable has their revision and renders that very list |
| `Registry.RevisionNamesTheView` | runtime/resource/resource.go:138-343 | Over a run revisions only grow, and equal revisions mean equal catalogs |
| `Registry.RemovedNeverReturns` | runtime/resource/resource.go:177-180 | A resource with a life cycle that was removed is never registered again |
| `RegistryObject.AloneIsConcurrent` | runtime/resource/resource.go:138-343 | The object's transactions are the concurrent ones with nobody stepping in between |
| `RegistryObject.CheckBatch` | runtime/resource/resource.go:145-166 | The loop with its set of names gives the verdict of the scan |
| `RegistryObject.CheckSlots` | runtime/resource/resource.go:177-184 | The loop gives the verdict of the scan under the lock |
| `RegistryObject.SortMembers` | runtime/resource/catalog.go:131-139 | Collecting and sorting gives the sorted descriptors |
| `RegistryObject.ResourceRegistry.RegisterBatch` | runtime/resource/resource.go:138-210 | The object moves exactly as the specification of a batch says |
| `RegistryObject.ResourceRegistry.Transact` | runtime/resource/resource.go:185-205 | Insert, publish, and on failure take out again |
| `RegistryObject.ResourceRegistry.TakeOut` | runtime/resource/resource.go:188-193 | Deleting the names of the batch restores the members exactly |
| `RegistryObject.ResourceRegistry.PublishCatalog` | runtime/resource/catalog.go:127-151 | Renders the present members as the next catalog value and commits it, or refuses and changes nothing |
| `RegistryObject.ResourceRegistry.Remove` | runtime/resource/resource.go:297-343 | The object moves exactly as the specification of removal says |
| `Catalog.CatalogPage` | runtime/resource/catalog.go:74-125 | The halving loop answers what the specification of a page says, for every request |
| `Catalog.ShrinkGivesSlice` | runtime/resource/catalog.go:99-123 | A page is a non-empty slice no longer than asked for, and it fits |
| `Catalog.ShrinkFailsOnlyOnOneItem` | runtime/resource/catalog.go:99-123 | Halving gives up only when the single next descriptor does not fit on a page of its own |
| `Catalog.AnswersAreValid` | protocol/schema_catalog_page.go:44-81 | Every page cut from a consistent registry passes the client's checks, and so does its cursor |
| `Catalog.FinishedCrawlIsOneSnapshot` | runtime/resource/catalog.go:74-125 | However registrations and removals interleave, a crawl that reaches the end has collected exactly the sorted members of one single revision |
| `Catalog.CrawlIsShort` | runtime/resource/catalog.go:74-125 | A crawl takes at most as many requests as there are members |
| `Catalog.CrawlCanGoOn` | runtime/resource/catalog.go:74-125 | While the revision stands and single descriptors fit, the next request is answered |
| `Catalog.StaleCursorIsRefused` | runtime/resource/catalog.go:91-93 | After any registration or removal an earlier cursor is refused as stale |
| `Tree.RouteFollowsTrail` | runtime/tree/tree.go:381-395 | In a fixed tree the route of every node is the next step of the path up to the lowest common ancestor and down |
| `Tree.SpeaksForSubtree` | runtime/tree/tree.go:353-367 | A child link may speak exactly for the subtree of that child |
| `Tree.TrailIsSimple` | runtime/tree/tree.go:381-395 | No node lies twice on a path |
| `Tree.TrailConnects` | runtime/tree/tree.go:381-395 | A path between nodes of one tree starts at the one, ends at the other and is one edge a step |
| `Tree.TrailIsTheOnlyPath` | runtime/tree/tree.go:381-395 | It is the only path that visits no node twice |
| `Tree.TurnIsLowest` | runtime/tree/tree.go:381-395 | The node where a path turns is the lowest common ancestor |
| `RoutingNetwork.EveryFrameFollowsTheTree` | runtime/node/routing.go:50-143 | In every run, whatever hostile nodes send their parents, every frame is on the tree path from its source to its target and passes no node twice, requests only climbing and control only descending, or it is about to be dropped by the parent of the node that made it up |
| `RoutingNetwork.NothingActsUnjudged` | runtime/node/routing.go:50-143 | Every subscribe, unsubscribe, operate and session request acted upon speaks for the node where its way turns, or that node's policy decided for this very frame as it passed or was delivered, or it ends a subscription which that node itself declared over |
| `RoutingNetwork.OnlyTheHostileAreRefused` | runtime/node/routing.go:71-73 | A routing loop is met, and a link closed, only on a child that sent its parent a frame of its own invention |
| `RoutingNetwork.NoEventDescendsUnwanted` | runtime/node/routing.go:74-82 | An event that climbed before it came down was let through where it turned: that node had tracked an interest of the target in the source, and its policy still allowed that interest as this event passed |
| `RoutingNetwork.JudgementsAreDecisions` | runtime/auth/policy.go:123-135 | A frame carries a judgement only from the step in which it passed the judge and the judge's policy said yes to that very question |
| `RoutingNetwork.StepKeeps` | runtime/node/routing.go:50-143 | Every step of the network keeps the routing invariant |
| `RoutingNetwork.NeverRefused` | runtime/auth/policy.go:149-176 | A frame in its place passes the checks of the link it came over |
| `RoutingNetwork.NeverTurnsBack` | runtime/node/routing.go:71-73 | The next hop is never the link the frame came over |
| `RoutingNetwork.ForwardIsOk` | runtime/node/routing.go:85-118 | What a node passes on is in its place, in the right phase, with the epoch of its edge, and judged for this frame where it turned |
| `RoutingNetwork.DeliveredIsOk` | runtime/node/operations.go:43-48 | A request acted upon was judged for this frame at the node where its way turns |
| `RoutingNode.Router.RouteEnvelope` | runtime/node/routing.go:50-143 | The routing method does what the specification of one hop says, interests included; `PassedOnExactly`, `RemembersExactly` and `AnswersExactly` say what that means in a tree |
| `RoutingNode.Router.TrackForwarded` | runtime/node/forwarded_subscription.go:25-57 | Tracks exactly when the generation, both routes, the limit and the ID allow it |
| `Decimal.FormatIsCanonical` | protocol/payload.go:101-110 | Formatted non-zero identifiers are accepted, and distinct ones have distinct texts |
| `Decimal.CanonicalIsFormat` | protocol/payload.go:101-110 | Every digit text without leading zero is the formatted number it spells |
| `Topology.ValidateByWalking` | protocol/schema_management.go:71-114 | The per-node ancestor walk accepts exactly the complete parent structures |
| `Topology.Walk` | protocol/schema_management.go:103-111 | The walk with its visited set arrives exactly when the node is below the root |
| `Topology.ListNodes` | protocol/schema_management.go:78-93 | The listing loop accepts exactly well-formed nodes with unique identifiers |
| `Topology.ValidateBreadthFirst` | protocol/schema_topology.go:152-221 | The linear traversal accepts exactly the complete structures under the named root with right depths and right flags |
| `Topology.IndexNodes` | protocol/schema_topology.go:171-180 | The index loop accepts exactly well-formed nodes with unique identifiers and finds each of them |
| `Topology.ListKids` | protocol/schema_topology.go:185-195 | The child lists hold exactly the nodes that name a parent, each once |
| `Topology.Traverse` | protocol/schema_topology.go:199-219 | The traversal reaches every node exactly when the structure is complete, and checks depth and flag of each |
| `Topology.ValidatorsAgree` | protocol/schema_topology.go:152-221 | A parent structure passes the walking validator exactly when, with its child flags filled in, the traversing one accepts it under some root |
| `TopologyBuilder.Traverse` | feature/management/topology.go:289-320 | The breadth-first pass succeeds exactly when the relations form a tree rooted at the local node |
| `TopologyBuilder.GroupByParent` | feature/management/topology.go:289-292 | The child lists hold exactly the relations of each parent |
| `TopologyBuilder.AddKids` | feature/management/topology.go:308-316 | Children are appended exactly when none of them was seen before |
| `TopologyBuilder.CountDecides` | feature/management/topology.go:318-320 | The final count is right exactly for a tree |
| `TopologySnapshot.Build` | feature/management/topology.go:284-338 | Building succeeds exactly for a tree and gives every node once, at its level, with the right flag, in order |
| `TopologySnapshot.Sort` | feature/management/topology.go:322-338 | Sorting by level and identifier keeps the items |
| `TopologySnapshot.CountWithin` | feature/management/topology.go:361-364 | The binary search over levels finds how many items lie within a depth |
| `TopologySnapshot.EverySliceIsValid` | feature/management/topology.go:360-371 | Whatever depth is asked for, the answer passes the query validator |
| `TopologySnapshot.FullValueIsValid` | feature/management/topology.go:341-349 | A snapshot that fits passes the validator of the full topology value |
| `TopologySnapshot.Snapshot.Query` | feature/management/topology.go:373-396 | The answer is always the one encoding would give, whatever the cache holds, and the cache stays within its limits |
| `TopologySnapshot.Snapshot.Encode` | feature/management/topology.go:360-371 | Encodes the slice of a depth, or reports an overflow |
| `TopologyPublisher.OneDrainerRisingRevisions` | feature/management/topology.go:174-215 | However submissions interleave, one thread at most drains and takes up strictly rising revisions |
| `TopologyPublisher.IdleMeansNewestPublished` | feature/management/topology.go:174-215 | Whenever nobody drains, nothing is pending, and the newest revision ever submitted is the published one and the last taken up |
| `TopologyPublisher.DrainEndsIdle` | feature/management/topology.go:187-214 | A drain ends idle with something at least as new published |
| `TopologyPublisher.Publisher.Publish` | feature/management/topology.go:174-215 | One call, with what arrives during its work, moves the object as the specification says |
| `Codec.DecodeOfFrame` | protocol/codec.go:26-129 | Decoding an encoded valid envelope, whatever follows it, gives the envelope and exactly what follows |
| `Codec.FrameOfDecode` | protocol/codec.go:72-129 | Every accepted frame is valid and re-encodes to the very bytes it was read from |
| `Codec.StreamsRoundTrip` | protocol/codec.go:26-129 | Frames written one after another are read back in order |
| `Codec.FramesAreUnambiguous` | protocol/codec.go:26-129 | Equal bytes mean equal envelopes: no frame is a proper beginning of another |
| `CodecBuffer.EncodeFrame` | protocol/codec.go:26-70 | The buffer filled at fixed offsets is the frame, laid out as `BeginsExactly` says, and encoding succeeds exactly for valid envelopes whose payload length fits 32 bits and a writer that takes all of it; otherwise a beginning of the frame and an error |
| `CodecBuffer.PutBody` | protocol/codec.go:60-65 | The variable parts are copied behind the header at a moving offset |
| `CodecBuffer.PutLengths` | protocol/codec.go:47-51 | The lengths are written at their offsets |
| `CodecBuffer.PutIdentifiers` | protocol/codec.go:52-59 | The identifiers are written behind what was written before, in the order of the specification that `BeginsExactly` pins to offsets 18 to 98 |
| `CodecBuffer.DecodeFrame` | protocol/codec.go:72-129 | Reading header fields at fixed offsets and taking the body piece by piece decodes what the specification says, which is what `DecodesExactly` describes byte by byte |
| `Wire.WriteAll` | protocol/codec.go:131-146 | The loop hands over a beginning of the data: all of it when it succeeds, and an error whenever something is missing |
| `EnrollmentCodec.DecodeOfMessage` | protocol/enrollment.go:76-130 | Decoding an encoded enrollment frame, whatever follows it, gives the frame and exactly what follows |
| `EnrollmentCodec.MessageOfDecode` | protocol/enrollment.go:100-130 | Every accepted enrollment frame re-encodes to the very bytes it was read from, reserved byte included |
| `EnrollmentCodec.EncodeMessage` | protocol/enrollment.go:76-98 | Header and payload reach the writer completely, or a beginning of them and an error |
| `EnrollmentCodec.DecodeMessageFrame` | protocol/enrollment.go:100-130 | Reading at fixed offsets decodes what the specification says |
| `PolicyState.State.Evaluate` | runtime/auth/policy_store.go:205-255 | The answer is the right one in spite of index and searches: exact grant, smallest decisive binding with its first matching rule, or the resolver error in its place |
| `Policy.AllowsExactlyWhatIsPermitted` | runtime/auth/policy_store.go:205-255 | With a resolver that does not fail, evaluation allows exactly an exact grant or some live in-scope binding with a matching rule |
| `Policy.AnswerIsUnique` | runtime/auth/policy_store.go:205-255 | There is only one right answer |
| `PolicyState.MatchRule` | runtime/auth/policy_store.go:257-275 | Binary search over the sorted capabilities matches exactly the listed ones |
| `PolicyState.FindRule` | runtime/auth/policy_store.go:243-252 | The loop finds the first matching rule |
| `PolicyState.Walk` | runtime/auth/policy_store.go:229-254 | Walking the sorted bindings of a subject gives the right answer |
| `PolicyState.WalkUnresolved` | runtime/auth/policy_store.go:229-235 | Without a resolver the answer is an error exactly when the subject has a live binding |
| `PolicyState.GroupBySubject` | runtime/auth/policy_store.go:687-693 | Grouping puts every binding into the group of its subject |
| `PolicyState.SortGroups` | runtime/auth/policy_store.go:694-696 | The index lists the bindings of every subject once, in order |
| `Policy.StepKeeps` | runtime/auth/policy_store.go:307-492 | Every mutation keeps the invariants; a failed one changes nothing, and any change is a new generation |
| `Policy.DefinitionsStand` | runtime/auth/policy_store.go:307-492 | In every run every binding refers to an existing definition and the superadmin definition is untouched |
| `Policy.PutKeeps` | runtime/auth/policy_store.go:368-411 | Putting a definition keeps the invariants, and a failed put changes nothing |
| `Policy.DeleteKeeps` | runtime/auth/policy_store.go:413-437 | Deleting a definition keeps the invariants, so it never orphans a binding |
| `Policy.CreateKeeps` | runtime/auth/policy_store.go:439-477 | Creating a binding keeps the invariants, so it refers to an existing definition |
| `Policy.RevokeSubjectKeeps` | runtime/auth/policy_store.go:340-366 | Revoking a subject keeps the invariants, and a failed one changes nothing |
| `PolicyState.State.CommitLocked` | runtime/auth/policy_store.go:589-611 | The new state and its rebuilt index are installed only after a successful save |
| `PolicyState.State.Grant` | runtime/auth/policy_store.go:307-323 | The object moves as the specification says, which `GrantMeans` and `GrantPermits` describe |
| `PolicyState.State.Revoke` | runtime/auth/policy_store.go:325-338 | The object moves as the specification says, which `RevokeMeans` and `RevokeForbids` describe: the grant is gone |
| `PolicyState.State.RevokeSubject` | runtime/auth/policy_store.go:340-366 | The loops remove exactly the grants and bindings of the subject |
| `PolicyState.State.PutDefinition` | runtime/auth/policy_store.go:368-411 | The object moves as the specification says and stores the rules in their one order |
| `PolicyState.State.DeleteDefinition` | runtime/auth/policy_store.go:413-437 | The loop finds any binding that refers to the definition |
| `PolicyState.State.CreateBinding` | runtime/auth/policy_store.go:439-477 | The object moves as the specification says, which `CreateMeans` and `CreatePermits` describe |
| `PolicyState.State.RevokeBinding` | runtime/auth/policy_store.go:479-492 | The object moves as the specification says, which `RevokeBindingMeans` describes |
| `PolicyState.State.ExpireBindings` | runtime/auth/policy_store.go:645-667 | The loop removes exactly the expired bindings |
| `Dispatcher.RunsAgainOnlyWhenForgotten` | runtime/command/dispatcher.go:149-319 | When a message that once began executing is about to execute again, its record had reached its time to live, or at least as many other messages as the cache holds were used after its own last use |
| `Dispatcher.NeverTwiceBeforeCompletion` | runtime/command/dispatcher.go:259-277 | Until its call completes, a message that began does not begin again, is not admitted again and is not remembered |
| `Dispatcher.WithinLimits` | runtime/command/dispatcher.go:182-197 | Running handlers and remembered messages stay within their limits, and each message is listed once |
| `Dispatcher.StepKeeps` | runtime/command/dispatcher.go:149-319 | Every step keeps the invariant |
| `Dispatcher.BeginKeeps` | runtime/command/dispatcher.go:259-277 | Admitting a message or answering a duplicate keeps the invariant |
| `Dispatcher.CompleteKeeps` | runtime/command/dispatcher.go:285-299 | Completion, with the records it drops at the front, keeps the invariant |
| `Dispatcher.FrontIsCrowded` | runtime/command/dispatcher.go:312-319 | A record dropped at the front was followed by a full cache of messages used later |
| `DispatcherCache.Cache.BeginLocked` | runtime/command/dispatcher.go:259-277 | The object moves as the specification says, map and list in agreement |
| `DispatcherCache.Cache.CompleteLocked` | runtime/command/dispatcher.go:285-299 | The object moves as the specification says, map and list in agreement |
| `DispatcherCache.Cache.PruneLocked` | runtime/command/dispatcher.go:301-310 | The loop drops records from the front while they have aged out |
| `DispatcherCache.Cache.EvictLocked` | runtime/command/dispatcher.go:296-298 | The loop drops the oldest records until the rest fits |
| `Transfers.AccountsBalance` | feature/file/file.go:222-556 | In every run, whatever the size limit, the reserved bytes are exactly those of the active transfers, and bytes, active count and history stay within their limits |
| `Transfers.FilesHoldTheirChunks` | feature/file/file.go:277-386 | In every run, whatever the size limit, each file holds the accepted chunks one after another; its length is the received boundary and within its announced size, unless that boundary wrapped around, which no file does whose size plus chunk size is a 64-bit number; a completed one has the announced size and checksum |
| `Transfers.WritesStayInside` | feature/file/file.go:292-313 | In every run, whatever the size limit, a written chunk starts at the received boundary, and it ends inside the file if and only if its end is a 64-bit number |
| `TransferBounds.BoundIsExact` | feature/file/file.go:292-294 | In every run every chunk written to files of that size and chunk size ends inside them, if and only if their sum is a 64-bit number |
| `Transfers.StepKeeps` | feature/file/file.go:222-488 | Every call keeps the accounts and the files in order, whatever the size limit |
| `Transfers.TrimIs` | feature/file/file.go:541-556 | Trimming forgets finished transfers only, and always far enough |
| `Transfers.ExpireKeeps` | feature/file/file.go:468-488 | Expiry keeps the accounts: it gives back exactly the bytes of what it ends |
| `Transfers.OfferKeeps` | feature/file/file.go:239-263 | A new transfer reserves its bytes, a failed publication leaves none behind, and the accounts balance either way |
| `TransferController.FileController.OfferFor` | feature/file/file.go:222-263 | The object moves as the specification says, and its accounts and files stay in order |
| `TransferController.FileController.ChunkFor` | feature/file/file.go:277-318 | The object moves as the specification says, wrap-around included, and its accounts and files stay in order |
| `TransferController.FileController.CompleteFor` | feature/file/file.go:332-386 | The object moves as the specification says, a completed file has the announced size and checksum, and the accounts stay in order |
| `TransferController.FileController.CancelFor` | feature/file/file.go:400-428 | Cancelling keeps accounts and files in order: the bytes of an active transfer are given back once, an ended one is left alone |
| `TransferController.FileController.AbortFor` | feature/file/file.go:430-441 | Aborting keeps accounts and files in order: only an active transfer of that owner ends and gives its bytes back |
| `TransferController.FileController.ExpireLocked` | feature/file/file.go:468-488 | The loop ends exactly the active transfers whose time is up, and accounts and files stay in order |
| `TransferController.FileController.ActiveCount` | feature/file/file.go:531-539 | The loop counts the active transfers |
| `TransferController.FileController.TrimLocked` | feature/file/file.go:541-556 | The loop forgets finished transfers in order until the history fits |
| `Link.BytesAreAccountedFor` | runtime/link/queue.go:25-47 | In every interleaving the counter is exactly the bytes reserved, queued and held, a positive budget is never exceeded, and frames keep their order |
| `Link.SwapStep` | runtime/link/queue.go:27-35 | A compare-and-swap keeps the accounts and the budget although the check was made on an earlier load |
| `Link.StepKeeps` | runtime/link/queue.go:25-47 | Every step of every sender and consumer keeps the accounts |
| `Link.DataIsNotStarved` | runtime/link/session.go:297-355 | In every run, over any stretch in which data waits and none is written, at most eight control frames are written |
| `Link.EightThenData` | runtime/link/session.go:309-319 | In every run, once eight control frames were written past waiting data, no further control frame is written before a data frame, and the writer's next check writes one |
| `JsonScan.ValidateEncoding` | protocol/schema_variable_json.go:171-206 | On every JSON text the scan stays inside the text and accepts exactly when every escaped surrogate in every string is part of a high-low pair |
| `JsonScan.Scan` | protocol/schema_variable_json.go:176-206 | The scan accepts exactly the texts whose escaped surrogates are paired |
| `JsonScan.ScanPair` | protocol/schema_variable_json.go:196-203 | After a high surrogate the scan demands a low one and skips it |
| `JsonScan.ValuePaired` | protocol/schema_variable_json.go:171-206 | Pairing of a text is pairing of every string of the value, keys included |
| `EnrollmentClock.GrantNeedsForwardClock` | runtime/auth/enrollment_authority.go:716-754 | What a grant adds to sound data can be loaded again if and only if the clock has not gone back behind the creation of its request |
| `EnrollmentClock.ApproveNeedsForwardClock` | runtime/auth/enrollment_authority.go:432-481 | Approving a pending request leaves a reloadable state if and only if the clock has not gone back behind the creation of that request |
| `EnrollmentClock.RejectOnBackwardClock` | runtime/auth/enrollment_authority.go:483-522 | A run of one submission and a rejection on an earlier clock that makes its state unloadable |
| `TransferBounds.NoLimitSlips` | feature/file/file.go:292-294 | With no limit but the largest 64-bit number, a run that writes past the end of a file |
| `EnrollmentAuthority.Authority.SubmitNew` | runtime/auth/enrollment_authority.go:383-413 | The object moves exactly as the specification says for a request it has not seen |
| `EnrollmentAuthority.Authority.AnswerExisting` | runtime/auth/enrollment_authority.go:756-777 | The object answers a known request exactly as the specification says |
| `EnrollmentAuthority.Authority.GrantOn` | runtime/auth/enrollment_authority.go:716-754 | The grant and the new records are those of the specification, and permits are untouched |
| `EnrollmentStore.LoadRecords` | runtime/auth/enrollment_authority.go:844-947 | The loading loop accepts exactly records with distinct keys that pass their checks, and gives the map of them |
| `EnrollmentStore.LoadUsed` | runtime/auth/enrollment_authority.go:844-947 | The loading loop accepts exactly distinct non-zero Node IDs |
| `EnrollmentStore.SortedValues` | runtime/auth/enrollment_authority.go:1134-1141 | The records come out in the order of their keys, each once |
| `RegistryObject.ResourceRegistry.InsertAll` | runtime/resource/resource.go:185-187 | The loop files every member of the batch |
| `TopologyPublisher.Publisher.Offer` | feature/management/topology.go:175-185 | A submission is dropped when not newer, left to the drainer, or taken up, as the specification says |
| `TopologySnapshot.Snapshot.EvictOldest` | feature/management/topology.go:387-390 | Evicting the oldest entry keeps order, map and byte count in agreement |
| `DispatcherCache.Cache.RemoveOldest` | runtime/command/dispatcher.go:312-319 | Removes the front of the list from list and map together |
| `PolicyState.DropSubject` | runtime/auth/policy_store.go:340-366 | The loop removes exactly the bindings of the subject |
| `PolicyState.DropExpired` | runtime/auth/policy_store.go:645-667 | The loop removes exactly the expired bindings |
| `TransferController.FileController.FailLocked` | feature/file/file.go:454-466 | Failing a transfer keeps accounts and files in order: its bytes are given back exactly when it still held them |
| `JsonScan.ScanEscape` | protocol/schema_variable_json.go:184-204 | One escape is accepted exactly as far as the pairing of its surrogates allows, and the scan stays inside the text |
| `EnrollmentClock.LoadableExactlyWhenClockFits` | runtime/auth/enrollment_authority.go:266-583 | A call of any kind on a sound authority leaves a state that loads if and only if it changes nothing or the timestamp it writes fits: not before the creation of the request it closes or grants, and positive where it dates a new request or a revocation |
| `EnrollmentClock.SubmitExact` | runtime/auth/enrollment_authority.go:325-413 | The same for a submission, with or without a permit, new, repeated or joined to a live request |
| `EnrollmentClock.PermitGrantExact` | runtime/auth/enrollment_authority.go:415-430 | A grant against a permit is loadable again if and only if it is not dated before its request |
| `EnrollmentClock.BackwardClockBreaks` | runtime/auth/enrollment_authority.go:483-522 | Whatever a fresh authority was asked first, rejecting it on a clock before its creation leaves a state that does not load |
| `VariableInvariant.OneWinnerPerRevision` | runtime/resource/variable.go:187-238 | Successes expect strictly rising revisions: of writers that expect the same one at most one wins |
| `RegistryObject.ResourceRegistry.Withdraw` | runtime/resource/resource.go:311-338 | Delete, publish, and on failure put back |
| `Catalog.FollowingCursorsFindsAll` | runtime/resource/catalog.go:74-125 | On a registry that stands as it is, with single descriptors fitting, following cursors with whatever limits ends after at most as many requests as there are members with exactly their sorted list |
| `RoutingNetwork.InjectedIsOk` | runtime/auth/policy.go:149-160 | Whatever a child sends its parent is a frame that child's own subtree might have sent, or it is doomed |
| `RoutingNetwork.DoomedIsDropped` | runtime/node/routing.go:14-48 | Handling a doomed frame takes it away and adds nothing: no frame, no reply, no act |
| `RoutingNetwork.LocalActsAreDecisions` | runtime/node/operations.go:43-48 | A node acts on its own judgement only in a step in which its policy said yes |
| `RoutingNetwork.TrackingIsADecision` | runtime/node/routing.go:86-98 | An interest is tracked only in a step in which that node let this subscription through by its policy |
| `Routing.UntrackUndoesTracking` | runtime/node/routing.go:127-130 | Untracking right after tracking leaves no trace, and untracking with other ends touches nothing |
| `Dispatcher.AdmittedAgainExactlyWhenForgotten` | runtime/command/dispatcher.go:259-277 | In every run a message that ever began is admitted again if and only if it is not being handled and its record aged out or was crowded out since |
| `Dispatcher.SecondHandlerExactlyWhenForgotten` | runtime/command/dispatcher.go:179-214 | In every run, while a handler of a message still runs, a repetition starts a second one if and only if the first call completed, its record was lost since, and a slot is free |
| `Dispatcher.HandlersRunApart` | runtime/command/dispatcher.go:192-214 | Two handlers of one message run side by side only if it began again after its record was lost |
| `Dispatcher.LateHandlerRunsTwice` | runtime/command/dispatcher.go:206-214 | A run in which a call ends at its deadline, its record ages out, and a second handler begins beside the first |
| `Dispatcher.KeptExactlyBehindALiveRecord` | runtime/command/dispatcher.go:301-310 | Pruning keeps a record if and only if it or some record in front of it has not reached its time |
| `Dispatcher.AnsweredExactlyBehindALiveRecord` | runtime/command/dispatcher.go:259-277 | In every run a remembered message is answered as a duplicate if and only if some remembered message used no later than it has not reached its time |
| `Dispatcher.RecordOutlivesItsTime` | runtime/command/dispatcher.go:266-273 | A run after which a record that expires at 10 still answers at 12 |
| `Dispatcher.GivenUpMayComeAgain` | runtime/command/dispatcher.go:279-283 | In every run a message that got no slot is admitted when it comes again, at any time |
| `PolicyRules.SortedRulesAre` | protocol/schema_policy.go:371-388 | Storing rules puts them in order and keeps each of them |
| `PolicyRules.OrderIsUnique` | protocol/schema_policy.go:375-387 | There is only one such order, so any way of sorting stores the same rules |
| `PolicyRules.StoredRulesMeanTheSame` | protocol/schema_policy.go:173-189 | Stored rules are as well formed as they were and match exactly what they matched |
| `Policy.ClosedStaysAsItIs` | runtime/auth/policy_store.go:589-611 | Once the store is closed no call changes it, and a call that would have changed it answers that it is closed |
| `Policy.NothingChangesAfterClose` | runtime/auth/policy_store.go:669-685 | Over a run nothing happens to a store after it was closed |
| `EnrollmentCodec.MessagesRoundTrip` | protocol/enrollment.go:76-130 | Enrollment frames written one after another are read back in order |
| `EnrollmentCodec.MessagesOfDecode` | protocol/enrollment.go:100-130 | Whatever bytes are read as enrollment frames are exactly the bytes those frames are written as |
| `EnrollmentCoherence.RunCoheres` | runtime/auth/enrollment_authority.go:170-583 | Every state of every run from an empty store, whatever the clock does and whichever saves fail, keeps identifiers, Node IDs and epochs unique, approved requests and enrollments paired, and every limit |
| `EnrollmentCoherence.StepCoheres` | runtime/auth/enrollment_authority.go:266-583 | One call of any kind, on any clock and whatever it answers, keeps that invariant |
| `EnrollmentCoherence.GrantCoheres` | runtime/auth/enrollment_authority.go:716-754 | A grant takes an unused Node ID, a fresh enrollment ID and a new epoch, and pairs its request with its enrollment |
| `EnrollmentCoherence.PermitGrantCoheres` | runtime/auth/enrollment_authority.go:415-430 | Consuming a permit and granting in one commit keeps the invariant on any clock |
| `EnrollmentCoherence.SubmitCoheres` | runtime/auth/enrollment_authority.go:325-413 | A submission of any kind keeps the invariant on any clock, among it the limits on pending requests |
| `EnrollmentCoherence.ApproveCoheres` | runtime/auth/enrollment_authority.go:432-481 | Approval keeps the invariant on any clock |
| `EnrollmentCoherence.ExpireDueCoheres` | runtime/auth/enrollment_authority.go:1115-1132 | Expiring whatever is due keeps the invariant: no approved request is touched and no more are pending |
| `VariableInvariant.InstanceStays` | runtime/resource/variable.go:187-238 | In every state of every interleaving the instance is the one the Variable was made with |
| `Transfers.AppendedFits` | feature/file/file.go:292-313 | Whatever the boundary check accepts keeps a file within its size, or beyond the largest 64-bit number where the end wrapped around |
| `TransferBounds.PartIsReceived` | feature/file/file.go:222-318 | Every part of every file that may be offered is received in some run |
| `TransferBounds.ChunkSlipsPast` | feature/file/file.go:292-313 | Whenever size plus chunk size is no 64-bit number, a run that offers the file, receives it up to the last chunk that does not wrap, and writes one past its end |
| `TransferBounds.LimitIsExact` | feature/file/file.go:292-313 | Every chunk of every file ends inside it in every run, if and only if the size limit leaves room for one largest chunk below the largest 64-bit number |
| `Routing.FailedPromotionLeavesInterest` | runtime/node/routing.go:103-109 | A subscription whose promotion fails leaves its interest behind, because the frame is cleared before it is untracked |
| `RoutingNetwork.PromotionNeverFails` | runtime/auth/policy.go:137-147 | In a tree no promotion fails: the epoch of a route downwards is that of a child, and that is never zero |
| `Policy.AnswersArePermissions` | runtime/auth/policy_store.go:205-255 | Whatever the scope resolver does, an answer that is not an error allows if and only if the request is permitted |
| `Codec.StreamOfDecode` | protocol/codec.go:72-129 | Whatever bytes are read as frames are exactly the bytes those frames are written as |
| `EnrollmentCauses.EveryChangeHasItsCause` | runtime/auth/enrollment_authority.go:266-583 | Whatever a call changes has its cause in that call: a new permit was commanded as it reads, a consumed one was presented by its device in time at a parent it is bound to, a request was filed, lapsed, rejected or approved by a call entitled to it, an enrollment was decided for its request or revoked by name, and nothing else is different or gone |
| `EnrollmentCauses.IssueCaused` | runtime/auth/enrollment_authority.go:266-323 | Issuing adds at most one active permit, signed, with exactly the fingerprint, target, profile and lifetime commanded |
| `EnrollmentCauses.PermitRedeems` | runtime/auth/enrollment_authority.go:415-430 | A grant against a permit happens only for an entitled submission, consumes exactly that permit, and enrolls exactly the request under the profile of the permit |
| `EnrollmentCauses.PermitEntitles` | runtime/auth/enrollment_authority.go:681-714 | A permit is consumable exactly when it is the stored one, signed, unused, in its time, and made out to the device and to this parent or, where it says so, to an ancestor of it |
| `EnrollmentCauses.SubmitCaused` | runtime/auth/enrollment_authority.go:325-413 | A submission lets overdue requests lapse, files its own, or redeems a permit for an undecided request of the same device at the same parent, and does nothing else |
| `EnrollmentCauses.ApproveCaused` | runtime/auth/enrollment_authority.go:432-481 | Approval closes an overdue request, or enrolls the named waiting one with the grant it answers, and does nothing else |
| `EnrollmentCauses.RejectCaused` | runtime/auth/enrollment_authority.go:483-522 | Rejection closes an overdue request, or rejects the named waiting one with the given reason, and does nothing else |
| `EnrollmentCauses.RevokePermitCaused` | runtime/auth/enrollment_authority.go:524-552 | Revoking a permit revokes exactly the named unused one with the given reason |
| `EnrollmentCauses.RevokeEnrollmentCaused` | runtime/auth/enrollment_authority.go:554-583 | Revoking an enrollment revokes exactly the named one with the given reason |
| `EnrollmentCauses.EveryPermitHasItsCause` | runtime/auth/enrollment_authority.go:266-583 | In every run every permit became what it is by a call that was entitled to it |
| `EnrollmentCauses.EveryRequestHasItsCause` | runtime/auth/enrollment_authority.go:325-522 | In every run every request became what it is by a call that was entitled to it |
| `EnrollmentCauses.EveryEnrollmentHasItsCause` | runtime/auth/enrollment_authority.go:415-583 | In every run every enrollment was decided for its request and is revoked only by name |
| `EnrollmentCauses.PermitIsUsedUpByItsHolder` | runtime/auth/enrollment_authority.go:681-714 | In every run a consumed permit was used up by a submission that carried that very permit, by the device it names, in its time, at a parent it is bound to, and that was granted its profile |
| `EnrollmentCauses.RunIdentified` | runtime/auth/enrollment_authority.go:325-413 | In every run keys have their size and fingerprints are those of the keys recorded |
| `EnrollmentAnswers.NodeDrawIsFirstFree` | runtime/auth/enrollment_authority.go:779-794 | Drawing a Node ID gives the first of 128 eight-byte numbers that is free, and fails exactly when there is none |
| `EnrollmentAnswers.IdDrawIsFirstFree` | runtime/auth/enrollment_authority.go:796-808 | Drawing an identifier gives the first of 128 that is free, and fails exactly when there is none |
| `EnrollmentAnswers.IssueAnswers` | runtime/auth/enrollment_authority.go:266-323 | Issuing answers a permit exactly when the same command with the same wishes was carried out before, or is new and there is room, an identifier, a clock after 1970 and a save for it |
| `EnrollmentAnswers.ApproveAnswers` | runtime/auth/enrollment_authority.go:432-481 | Approval answers a grant exactly for a waiting request that has not run out and can be enrolled and saved, or for one whose enrollment stands |
| `EnrollmentAnswers.RejectAnswers` | runtime/auth/enrollment_authority.go:483-522 | Rejection succeeds exactly for a rejected request, or a waiting one that has not run out and can be saved, and leaves it rejected |
| `EnrollmentAnswers.RevokePermitAnswers` | runtime/auth/enrollment_authority.go:524-552 | Revoking a permit succeeds exactly for a revoked one, or one that is not consumed and can be saved, and leaves it revoked |
| `EnrollmentAnswers.RevokeEnrollmentAnswers` | runtime/auth/enrollment_authority.go:554-583 | Revoking an enrollment succeeds exactly for a revoked one, or one that can be saved, and leaves it revoked |
| `EnrollmentAnswers.PermitIsRedeemedExactly` | runtime/auth/enrollment_authority.go:325-430 | A submission uses up a permit if and only if it is entitled to it, its request is undecided or can be added, and there is room, random bytes and a save |
| `EnrollmentAnswers.RequestIsFiledExactly` | runtime/auth/enrollment_authority.go:383-413 | A submission without a permit files a new request if and only if the device has no standing one at that parent, every limit leaves room and it can be saved |
| `EnrollmentAnswers.SubmitTellsTheTruth` | runtime/auth/enrollment_authority.go:325-413 | Every answer to a submission says what the records say afterwards: waiting, rejected with that reason, expired, or granted to this device at this parent and not revoked |
| `EnrollmentAnswers.KnownRequestIsAnswered` | runtime/auth/enrollment_authority.go:337-360 | A request on file is answered unless its enrollment was revoked or an expiry cannot be saved |
| `EnrollmentStore.LoadedIsGenuine` | runtime/auth/enrollment_authority.go:844-947 | Every loaded grant carries the signature of the authority's key over a used Node ID and belongs to an approved request that describes it alike, and every approved request has such a grant |
| `EnrollmentStore.LoadedPermitsAreGenuine` | runtime/auth/enrollment_authority.go:860-890 | Every loaded permit is signed by the authority's key, and its status agrees with what is recorded of its use |
| `VariableGate.CommitInstallsItsOwn` | runtime/resource/variable.go:176-341 | Whatever is committed in any interleaving was prepared in that same pass through the gate: a compare-and-set installs the next revision with the content its handler confirmed, or its own proposal where there is no handler; an unconditional write installs the revision and content it was given |
| `VariableGate.EveryWinInstallsWhatWasConfirmed` | runtime/resource/variable.go:187-238 | In every interleaving every won compare-and-set was committed by a step that installed what that very pass had confirmed |
| `VariableGate.CurrentIsInstalled` | runtime/resource/variable.go:329-341 | In every interleaving the current value is the one the Variable was made with, or the one installed last |
| `VariableGate.CompareAndSetSucceedsExactly` | runtime/resource/variable.go:187-238 | A compare-and-set nobody steps into commits if and only if the Variable stands, instance and revision are those expected, a revision is left, the queue has room and preparation and handler agree; otherwise nothing changes |
| `VariableGate.ProposalIsCommitted` | runtime/resource/variable.go:187-238 | The same where there is no handler, with the proposal itself |
| `VariableGate.WriteSucceedsExactly` | runtime/resource/variable.go:252-291 | An unconditional write nobody steps into commits if and only if the Variable stands, a revision is left, the one asked for is later, the queue has room and preparation succeeds; otherwise nothing changes |
| `VariableGate.WatchSucceedsExactly` | runtime/resource/variable.go:376-400 | Watching succeeds if and only if the Variable stands and is below its limit, under a number nobody had, and promises what is committed from here on |
| `VariableGate.RetireIsFinal` | runtime/resource/variable.go:430-450 | Retiring happens once: the value stays, the watchers are let go, and each of them is told so last |
| `VariableGate.DrainComesToRest` | runtime/resource/variable.go:357-375 | From every reachable state the drainer, left to itself, comes to rest in finitely many steps with everything delivered |
| `VariableGate.CancelledHearsAtMostOnce` | runtime/resource/variable.go:357-400 | In every interleaving a cancelled watcher hears at most the one notice whose delivery had been decided |
| `VariableGate.CancelFrees` | runtime/resource/variable.go:392-400 | Cancelling marks the watcher and gives its place to another, and changes nothing else |
| `RoutingProgress.AcceptsExactly` | runtime/auth/policy.go:149-177 | In a tree a link lets in exactly: from a child, anything but control that speaks for its own subtree; from the parent, control with the epoch of the link, and other frames that speak for nobody else, requests only of the parent itself |
| `RoutingProgress.PassedOnExactly` | runtime/node/routing.go:50-143 | In a tree a frame in its place is passed on if and only if it is cleared (admitted by policy where it turns, trackable, awaited if it is an event from below, not control going up) and the session is up; and then to the next node of its trail, promoted where it turns |
| `RoutingProgress.FrameArrives` | runtime/node/routing.go:50-143 | A frame whose way is free, handled once at every node of its trail, reaches its target as the same message, and nothing else in the network changes but what those nodes remember |
| `RoutingProgress.RequestIsActedUpon` | runtime/node/routing.go:50-143 | A request with sessions up and the node where it turns saying yes is acted upon at its target after as many handlings as its trail has nodes |
| `RoutingProgress.RequestReachesItsTarget` | runtime/node/routing.go:50-143 | The same from the making of the request on, in any network whatever |
| `RoutingProgress.DeliveredExactly` | runtime/node/routing.go:50-53 | A frame in its place is delivered at its target and nowhere else |
| `RoutingProgress.ActedUponExactly` | runtime/node/operations.go:43-48 | A delivered request is acted upon if and only if it needs authority and is control, the node's own, or allowed |
| `RoutingProgress.RemembersExactly` | runtime/node/routing.go:54-56 | A node remembers an interest exactly from a subscription it passes down for another until it passes down the unsubscription or passes on an error that answers it, and never changes one |
| `RoutingProgress.AnswersExactly` | runtime/node/routing.go:58-139 | An error goes back to the sender, about its message, if and only if a request has no way on or is not admitted where it turns, or the next session is down for a request or control that came over a link |
| `CodecLayout.BigEndian` | protocol/codec.go:43-59 | The numbers on the wire are the positional values of their bytes, the highest first |
| `CodecLayout.BeginsExactly` | protocol/codec.go:41-65 | A byte string begins with the encoding of an envelope if and only if every field lies at its offset: magic, version, phase, operation, five lengths, source, principal, target, epoch, deadline, message identifier at 58, correlation identifier at 74, owner, and the body parts in order from 98 |
| `CodecLayout.DecodesExactly` | protocol/codec.go:72-129 | Decoding accepts exactly the byte strings in which every field of a valid envelope lies at its offset, and gives that envelope and what follows |
| `CodecLayout.ValidByPhase` | protocol/types.go:167-248 | An envelope is valid if and only if it has version 2, message identifier, source and target, no negative deadline and no part too long, and its operation is one of its phase, with resource, capability and correlation exactly where that operation has them |
| `CodecLayout.MessageBeginsExactly` | protocol/enrollment.go:76-99 | A byte string begins with an enrollment frame if and only if every field of it lies at its offset |
| `CodecLayout.MessageDecodesExactly` | protocol/enrollment.go:100-130 | Decoding accepts exactly the byte strings in which every field of a well-formed message lies at its offset |
| `PolicyRules.UnderIsSegmentwise` | runtime/auth/policy_store.go:257-275 | A prefix selector matches exactly the names whose segments begin with its segments |
| `PolicyMeaning.GrantMeans` | runtime/auth/policy_store.go:307-323 | Granting succeeds if and only if the question is well formed and granted already or there is room and a save, and adds exactly that grant |
| `PolicyMeaning.GrantPermits` | runtime/auth/policy_store.go:307-323 | After a grant the question is permitted whatever the time and the topology, and no other answer is different |
| `PolicyMeaning.RevokeMeans` | runtime/auth/policy_store.go:325-338 | Revoking succeeds if and only if the question is well formed and not granted or there is a save, and takes out exactly that grant |
| `PolicyMeaning.RevokeForbids` | runtime/auth/policy_store.go:325-338 | After a revocation the question is permitted only by a binding, and no other answer is different |
| `PolicyMeaning.RevokeSubjectMeans` | runtime/auth/policy_store.go:340-366 | Revoking a subject takes out exactly its grants and bindings, and succeeds if and only if there are none or they can be saved |
| `PolicyMeaning.RevokedSubjectMayNothing` | runtime/auth/policy_store.go:340-366 | Nothing at all is permitted to a revoked subject, and no answer to any other is different |
| `PolicyMeaning.PutMeans` | runtime/auth/policy_store.go:368-411 | Putting a definition succeeds if and only if its rules are well formed, the expected revision is the one there, and it can be saved; it then has the next revision and matches exactly what the given rules match |
| `PolicyMeaning.DeleteMeans` | runtime/auth/policy_store.go:413-437 | Deleting succeeds if and only if the expected revision is the one there, it is not immutable, no binding refers to it and it can be saved |
| `PolicyMeaning.DeleteChangesNoAnswer` | runtime/auth/policy_store.go:413-437 | Deleting a definition changes no answer |
| `PolicyMeaning.CreateMeans` | runtime/auth/policy_store.go:439-477 | Creating succeeds if and only if the binding is there as wanted, or is well formed, new, of an existing definition, in time, and can be saved; exactly that binding is added |
| `PolicyMeaning.CreatePermits` | runtime/auth/policy_store.go:439-477 | A new binding permits exactly what its definition matches, to its subject, in its scope, until it expires |
| `PolicyMeaning.RevokeBindingMeans` | runtime/auth/policy_store.go:479-492 | Revoking a binding succeeds if and only if it is not there or can be saved, and takes out exactly that one |
| `PolicyMeaning.ExpireMeans` | runtime/auth/policy_store.go:645-667 | Expiring takes out exactly the bindings whose time is up, and succeeds if and only if the store is open and there are none or it can be saved |
| `PolicyMeaning.ExpireChangesNoAnswer` | runtime/auth/policy_store.go:645-667 | Expired bindings are forgotten without changing any answer from then on |
| `PolicyMeaning.GrantStandsExactly` | runtime/auth/policy_store.go:307-366 | In every run a question is granted if and only if it was granted once and not taken away since |
| `PolicyMeaning.BindingStandsExactly` | runtime/auth/policy_store.go:439-492 | In every run a binding is there if and only if it was made once and not revoked, swept with its subject or expired since |
| `RegistryMeaning.RegisterSucceedsExactly` | runtime/resource/resource.go:138-210 | An undisturbed registrable batch is registered if and only if the catalog can be published with it; then each of its names has its resource and every other is as it was |
| `RegistryMeaning.OtherBatchesAreRefused` | runtime/resource/resource.go:138-180 | A batch that is empty, too large, ill formed, not new or of retired resources is refused and changes nothing |
| `RegistryMeaning.RemoveSucceedsExactly` | runtime/resource/resource.go:297-343 | An undisturbed removal succeeds if and only if it names a member of this owner that is not the catalog, and the catalog can be published without it; then that name is gone and every other is as it was |
| `Catalog.PageIsWhatWasAskedFor` | runtime/resource/catalog.go:74-125 | Where everything fits, a request is answered if and only if it is well formed and continues this very catalog and revision, with as many descriptors as it asked for or as are left, and a cursor to the next |
| `Catalog.FullPageIfItFits` | runtime/resource/catalog.go:97-125 | A request whose full page fits gets its full page |
| `DispatcherMeaning.RecordsAreCompletions` | runtime/command/dispatcher.go:285-299 | In every run a record says how its message was completed last, and when that runs out |
| `DispatcherMeaning.DuplicateIsToldItsOutcome` | runtime/command/dispatcher.go:259-277 | In every run a repetition answered from the cache is told the failure, if any, its call completed with last |
| `DispatcherMeaning.CompletionIsAnswered` | runtime/command/dispatcher.go:285-299 | A completed command answers a repetition with its outcome until its record runs out |
| `DispatcherMeaning.NewMessageIsAdmitted` | runtime/command/dispatcher.go:259-277 | In every run a message that never began and does not wait is admitted |
| `DispatcherMeaning.CommandGetsThrough` | runtime/command/dispatcher.go:179-214 | A new command gets through: admitted, begun while a handler slot is free, completed, and from then on answered with its outcome |
| `TransferCauses.EveryChangeHasItsCause` | feature/file/file.go:222-488 | Whatever a call changes about a transfer has its cause: it ran out, or its owner continued it with an intact chunk, finished, cancelled or aborted it; a new one is what its owner offered, and only finished ones are forgotten |
| `TransferCauses.OfferAnswers` | feature/file/file.go:222-263 | An offer succeeds if and only if its owner made that very offer before, or it is new, within the limits of one transfer, the running ones leave room, and its file can be made and published |
| `TransferCauses.ChunkAnswers` | feature/file/file.go:277-318 | A chunk is accepted if and only if it comes intact from the owner of a running transfer, is no longer than its chunks, and begins where the file ends and stays within its size (or ends past the largest 64-bit number), or repeats what is there |
| `TransferCauses.FinishAnswers` | feature/file/file.go:332-386 | Completion succeeds if and only if the owner of a running transfer has sent all of the announced bytes with the announced checksum and the file can be put in place |
| `TransferCauses.CancelAnswers` | feature/file/file.go:400-428 | Cancelling succeeds if and only if the owner's transfer is cancelled already, or runs and can be published |
| `TransferCauses.AbortEnds` | feature/file/file.go:430-441 | Aborting ends exactly an active transfer of that owner, with the reason, and touches nothing else |
| `TransferCauses.TrimForgetsTheFirst` | feature/file/file.go:541-556 | Trimming forgets the finished transfers with the smallest identifiers, and no more than it has to |
| `TransferCauses.OfferForgetsTheFirst` | feature/file/file.go:222-263 | An offer forgets finished transfers only where the history is full, and those with the smallest identifiers |
| `TransferCauses.FilesAreWhatTheirOwnersSent` | feature/file/file.go:277-318 | In every run a file consists of nothing but chunks its owner sent for it, intact |
| `TransferCauses.TransfersBelongToTheirOfferers` | feature/file/file.go:222-452 | In every run a transfer belongs to the node that offered it, from its offer on and with that offer |
| `LinkMeaning.ChargedIsLengths` | runtime/link/queue.go:21-23 | Frames are charged 512 bytes each and everything they carry |
| `LinkMeaning.BudgetBoundsContents` | runtime/link/queue.go:25-48 | In every interleaving the counter is 512 bytes for each frame about to be queued, queued or held and all the bytes these carry, and with a positive budget never more than that |
| `LinkMeaning.PushSucceedsExactly` | runtime/link/queue.go:25-47 | An undisturbed push queues its frame behind the others if and only if the budget and the channel have room for it; otherwise it leaves no trace |
| `LinkMeaning.ControlGoesFirst` | runtime/link/session.go:307-329 | With control waiting the writer writes control next, unless its burst is used up and data waits |
| `LinkMeaning.WriterGetsOn` | runtime/link/session.go:307-355 | Left to itself the writer writes something within three moves whenever anything waits |
| `TopologySnapshot.AnswerIsTheRenderedSlice` | feature/management/topology.go:360-371 | The answer for a depth is the rendering of exactly the nodes within it, if neither is too large |

## Left out

- Signature schemes, hashing, random generation, base64 and the text of JSON: library code, present only as parameters.
- Files, directories, symbolic links, the keystore and its encryption: a save or a file operation either succeeds as a whole or fails.
- Real timers, heartbeats, the idle watchdog and reconnection: time is a parameter of each step.
- The order of errors within a single validation where only acceptance matters, and error texts.
- Changing trees: routing is proved for a fixed tree whose routes have been announced; announcement, withdrawal and re-parenting are not modelled.
- Link-local operations (join, heartbeat, route announcements) and the handling of a request after local authorisation.
- Topic, Stream, notification, audit and credential resources: easier versions of what is proved here.
- Loading the policy file and its migration from version 1; the evaluation of an authority-wide superadmin.
- The cursor text of the catalog: a cursor is a value that is present, undecodable or decoded.
- UTF-8 and the spelling rules of names, labels and capabilities: arbitrary predicates on texts.
- Dispatcher authorisation and the execution of a command handler: only admission, slots and the duplicate cache are modelled.
- The order in which children of one node are visited while a topology is built: the final sort by level and identifier decides the result.
- The check that a frame does not exceed the platform's largest length: it cannot fail where lengths are 64-bit numbers.
- The byte counter of a link queue without a budget is an unbounded number; with a budget it never exceeds the budget.
- The revision of the published transfer summaries: publishing succeeds or fails as a whole.
- The bytes a failed write may have left behind in a transfer's temporary file, which is removed.
- JsonScan.ValidateEncoding: accepts any text without quotes and backslashes in place of literals and numbers, so it covers every valid JSON text and more.
- VariableObject.SharedVariable.Drain: runs the drain loop with nobody stepping in; what holds under interleaving is stated by the theorems about runs.
- RegistryObject.ResourceRegistry.RegisterBatch: runs with no other thread between preparation and commit; the concurrent transaction is the subject of the registry theorems.
- TopologyPublisher.Publisher.Publish: takes the submissions that arrive during its work as a parameter; arbitrary interleaving is the subject of the run theorems.
- RegistryObject.ResourceRegistry.Transact: runs with no other thread between preparation and commit, like the registration it is part of.
- RegistryObject.ResourceRegistry.PublishCatalog: runs with no other thread between preparation and commit, like the transaction it is part of.
- RegistryObject.ResourceRegistry.Remove: runs with no other thread between preparation and commit; the concurrent transaction is the subject of the registry theorems.
- RegistryObject.ResourceRegistry.Withdraw: runs with no other thread between preparation and commit, like the removal it is part of.
- Hostile nodes are modelled towards their parents: a node trusts its own parent, as the protocol does, and what a hostile parent does to its subtree is not modelled.
- How the catalog is turned into the text of its Variable, including the notice that it is too large for one frame: an arbitrary function of revision and descriptors.
- RegistryMeaning.RegisterSucceedsExactly: says when a batch succeeds that no other transaction steps into; with others in between only what a success means is stated.
- RegistryMeaning.RemoveSucceedsExactly: says when a removal succeeds that no other transaction steps into; with others in between only what a success means is stated.
- VariableGate.CompareAndSetSucceedsExactly: says when a call succeeds that nobody steps into; what every success installs is stated for every interleaving.
- VariableGate.ProposalIsCommitted: says when a call succeeds that nobody steps into, like the one with a handler.
- VariableGate.WriteSucceedsExactly: says when a write succeeds that nobody steps into; what every success installs is stated for every interleaving.
- LinkMeaning.PushSucceedsExactly: says when a push succeeds that nobody steps into; the budget is kept in every interleaving.

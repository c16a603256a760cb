# peerhailer: retirement, sealing and routing

peerhailer is a peer directory with a routed-message layer on top. Several processes rewrite one state file; a daemon keeps a
second file of sealing keys discovered over relays; messages cross untrusted relays signed and sealed. This project models the
state machines that safety rests on and proves what they keep over whole runs, restarts and concurrent writers.

The files follow the program:

- `Tombstones`, `Generations`, `Protocol`, `ProtocolInvariant`, `ProtocolSafety`, `ProtocolEffects`: retiring an identity.
  Command-line processes, the daemon and crashes interleave as a transition system; each lock-protected write is one step; what is
  never lost, and what gets done. `HailDaemon` is the daemon's own code for the boot and for page changes, shown to take those steps.
- `Keys`, `Peers`, `PeerMerge`, `PeerRaces`, `ReconcilePersist`: the three-way merge of a writer's view with what is on disk, and
  runs of it. `Writers`, `ReachableWriters`: what a writer that changed nothing, or two that changed nothing in common, do to the
  file, and which of the files and processes a run reaches meet the conditions.
- `Directory`, `LiveDirectory`, `DirectoryLaws`, `SealingFloor`: the directory object, what each of its mutations leaves, and the
  sealing floor over every interleaving of writers.
- `KeyStore`, `KeyStoreProofs`, `KeyStoreLaws`, `RoutedKeyStore`: sealing keys learned from signed records, usable once a person approves them.
- `Routing`, `RoutingProofs`, `RoutingReach`, `FirstDelivery`, `RelayLimits`, `Readings`: the bounded relay search, and its limits
  under a clock that may be set back.
- `ReplayGuard`, `ReplayGuardProofs`, `ReplayRestart`, `RouteReplayGuard`: at most one delivery per signed message.
- `JsText`, `Json`, `JsonProofs`, `RouteManifest`: the canonical text signatures cover, and the signed header.
- `RoutedMessage`, `RoutedMessageProofs`, `RoutedObservation`, `RouteDelivery`, `RouteDeliveryProofs`, `MessageLaws`: wrapping,
  opening, answering, and why each refuses.
- `RoutePlugin`, `SendProofs`, `SendLaws`: what a sender lets out and lets back in.
- `CliArgs`, `CliArgsProofs`, `CliArgsLaws`: the argument grammar.

An object the program updates in place is a class whose methods are proved equal to a function on its old state; the theorems are
about those functions. The `...Laws` files say of each such function, in what a caller can observe and not in its own terms, when it
does what and what it leaves alone. Cryptography is symbolic: a signature names its signer and the exact text, a sealed block names its
recipient and the sender bound into it, a key id stands for the key's DER. Digests are a parameter, and the theorems that need it
ask that no bytes on the wire collide with what the origin committed to.

Ten promises turn out to hold only under a condition. For each, a failing input or run is given and the exact condition is proved:

- A rotation can be undone by an honest writer. Bumping the revision on every commit is not enough, because a merge of two writers
  keeps the revision each of them reached: `PeerMerge.RetiredKeyRestoredIff` for one write, `PeerRaces.ReturnsIff` and
  `PeerRaces.ThreeWritersRestoreARetiredKey` for runs.
- A conflict found by the writer is lost when disk changed its sealing posture too: `PeerMerge.ConflictLostIff`,
  `SealingFloor.ConflictLostByBinding`.
- A writer that changed nothing can still change the file, by a name forgotten and admitted anew with lower floors or by a
  tombstone from before generations: `Writers.IdleWriterLeavesDiskIff`, `ReachableWriters.LegacyReturns`.
- Writers that touched nothing in common need not commute, for those same two reasons: `Writers.DisjointWritersCommuteIff`,
  `Writers.ReaddingDoesNotCommute`, `Writers.RetirementsCommuteIff`.
- The lazily swept replay guard differs from an eager one for a lapsed slot recorded under another origin:
  `ReplayGuardProofs.VerdictsMatchIff`, `ReplayGuardProofs.ReloadedForeignSlot`.
- A restart is safe for replay exactly when its clock is not behind the old high-water mark: `ReplayRestart.SafeRestartIff`.
- A sealed body reaches its reader as given exactly when it is not misframed, which a send without a payload is:
  `RoutedMessageProofs.BodyArrivesIff`, `SendProofs.NoPayloadMisframes`.
- A sealed send shows its caller more than what the destination signed or sealed: a response that merely calls itself a refusal,
  and whatever stands in the record or receipt field of a delivered one, pass unchecked. `SendProofs.PromiseKeptIff`,
  `SendProofs.RelayContentExposed`, `SendProofs.UnsignedRecordExposed`.
- The relay rate holds exactly when the clock is not set back to near a reading that a later one was a window past:
  `RelayLimits.RateKeptIff`, `RelayLimits.SetBackExceeds`.
- The engine suppresses an id exactly while it is among the newest first deliveries and in its window, exactly when the clock is
  set back neither into a window it had left nor so that a later delivery lapses before an earlier one:
  `FirstDelivery.SuppressionIff`, `FirstDelivery.SweptTooSoon`, `FirstDelivery.LapsedYetSuppressed`.

A smaller one: an undeclared option named like a member every JavaScript object has is accepted (`CliArgsProofs.UnknownIff`).

## Model

| member | source | states |
|---|---|---|
| ProtocolSafety.NoResurrection | bin/hail.js:896-967 | Over any run with crashes and failed sidecar writes, a stamped Tier-1 entry survives the boot reconcile exactly when its last stamp came from a daemon that had loaded or adopted a state recording every retirement of that identity numbered before the boot |
| ProtocolSafety.NothingRetiredIsServed | bin/hail.js:896-967 | From then on, whatever that daemon tracks was stamped by someone who knew of every such retirement |
| ProtocolSafety.ConsumedStaysGone | src/routedKeyStore.js:375-405 | Once a retirement no longer has its tombstone on disk, the sidecar holds no entry of that identity stamped below it |
| ProtocolSafety.RetirementOrder | src/directory.js:301-378 | Nothing provisional is ever on disk, the counters never fall and bound every tombstone, numbers are unique and rising, and no daemon is ahead of the file |
| ProtocolSafety.StepKeeps | bin/hail.js:132-141 | Every step of every process, crashes included, keeps the retirement invariant |
| ProtocolInvariant.WriteFacts | src/directory.js:301-378 | What one locked write does to the file, from any draft built on what is on disk |
| HailDaemon.HailDaemon.ColdStart | bin/hail.js:896-967 | The boot code takes exactly the apply, write and consume steps of the protocol, in that order, whichever of its writes land; and when those that matter land, the file and the live directory have lost what was processed |
| HailDaemon.BootConsumes | bin/hail.js:935-967 | A boot with anything to process takes from the file every tombstone of an identity it loaded that is not numbered above its generation, and nothing else, and raises the applied mark, exactly when its state write lands and its sidecar write did or concerned nobody |
| HailDaemon.HailDaemon.ApplyChange | bin/hail.js:1197-1221 | A page change is one protocol write and adoption, and every identity it retires or gives a posture loses its Tier-1 key |
| HailDaemon.HailDaemon.SweepPostures | bin/hail.js:971-990 | After the boot sweep no identity with a Tier-0 posture has a Tier-1 entry |
| HailDaemon.StepsStaySafe | bin/hail.js:896-967 | So the daemon's own code keeps the retirement invariant and the order of retirements |
| HailDaemon.ChangeMints | src/directory.js:899-916 | A batch of directory mutations touches the retirement state by its retirements alone |
| ProtocolEffects.RetirementIsNumbered | bin/hail.js:132-141 | Whatever happens between, a process that retires an identity and later saves has it numbered above everything recorded before that save |
| ProtocolEffects.UnsavedLeavesNothing | bin/hail.js:132-141 | A process that leaves without saving leaves nothing |
| ProtocolEffects.PageRetirementIsKnown | bin/hail.js:1197-1221 | A page change numbers each identity it retires; its daemon knows every retirement then on file, has dropped what the change supersedes and nothing else |
| ProtocolEffects.ReloadKnows | bin/hail.js:1131-1151 | A reload teaches the daemon every retirement numbered when it read the file, however late it adopts it |
| ProtocolEffects.AdoptedReadIsFresh | bin/hail.js:1134-1144 | What it adopts was read since the last page change, adoption and crash |
| ProtocolEffects.BootAnswers | bin/hail.js:896-967 | A boot whose sidecar and state writes land answers every retirement numbered before it loaded the directory, whatever others write meanwhile: nothing claimed earlier is tracked or on disk, and no tombstone of that age is left |
| ProtocolEffects.CrashThenRestart | bin/hail.js:896-967 | From any state a crash and a restart run through, whichever writes land, and the daemon tracks exactly what the sidecar held and no tombstone on file outranks |
| ProtocolEffects.RetriedSaveIsLoaded | bin/hail.js:798-840 | What a retried save wrote, the boot after a crash loads |
| ProtocolEffects.DisputeReachesDisk | src/routedKeyStore.js:229-242 | A differing record leaves a serving daemon no usable key, under a stamp that says what it knew, on disk too once saved |
| ProtocolEffects.ApprovalIsStamped | src/routedKeyStore.js:248-275 | An approval makes the key usable under such a stamp |
| ProtocolEffects.DropIsSaved | src/routedKeyStore.js:339-346 | A forgotten identity is gone, from the sidecar too once saved |
| Tombstones.MergeIsKeywiseJoin | src/directory.js:145-181 | The tombstone merge is the join of its lists per key id, in the order legacy, finalized, provisional, and invents nothing |
| Tombstones.MergeIsASemilattice | src/directory.js:145-181 | Hence commutative, associative and idempotent on rank |
| Tombstones.MergeTombstones | src/directory.js:145-181 | The two loops over a map compute that merge |
| Tombstones.FinalizeIsWellAllocated | src/directory.js:346-378 | Finalization gives unique rising numbers above everything recorded, oldest retirement first, exactly when the counter has room below its ceiling |
| Tombstones.FinalizeRouteGens | src/directory.js:346-378 | The allocating loop computes that finalization |
| Generations.NewNumbersAreUnique | src/directory.js:325-344 | No two identities are given one number |
| PeerMerge.RetiredKeyRestoredIff | src/directory.js:605-649 | The merged record holds the baseline key again exactly when the side that rotated carries the baseline's revision while the other side is taken whole |
| PeerMerge.RotationSurvives | src/directory.js:605-649 | While each side descends from the baseline a rotation is never undone, and disk's own rotation always wins |
| PeerRaces.ReturnsIff | src/directory.js:723-767 | Over any interleaving of writers, each rotation to a key of its own, disk goes back to an identity it had left exactly when some write finds disk on another identity than it read at the revision it read, and carries one that disk held before |
| PeerRaces.ReturnsOnlyByStall | src/directory.js:723-767 | So behind every return there is such a stalled write |
| PeerRaces.ThreeWritersRestoreARetiredKey | src/directory.js:957-962 | Three honest writers, each bumping the revision by one, do bring a retired key back |
| PeerMerge.UsableSealIsInherited | src/directory.js:723-767 | A sealing key usable after a merge was usable on one side, under the same identity |
| PeerMerge.DisagreeingKeysConflict | src/directory.js:641-645 | Two differing sealing keys bound concurrently merge to a conflict holding both |
| PeerMerge.ConflictLostIff | src/directory.js:638-648 | A conflict the writer found is lost exactly when disk changed its sealing posture too, is not in conflict, and the keys do not disagree |
| PeerMerge.DiskConflictKept | src/directory.js:638-648 | A conflict new on disk survives the merge |
| PeerMerge.FloorsNeverFall | src/directory.js:741-766 | The binding version, the sealing floor and, when both moved, the revision never fall |
| PeerMerge.OneSidedFieldKept | src/directory.js:678-710 | A field one side changed keeps that side's value, and an untouched one its baseline |
| PeerMerge.ElevationMovesAsUnit | src/directory.js:678-684 | The elevation triple comes whole from one side |
| PeerMerge.RaisedNumbersTakeTheHigher | src/directory.js:696-700 | A sighting or version each side only raised comes out as the higher |
| PeerMerge.RivalRotationKeepsDisk | src/directory.js:622-634 | Rotations to different identities keep disk's identity and posture and list the losing key |
| PeerMerge.ConflictsFollowTheRotation | src/directory.js:656-667 | A lone rotation keeps its own conflicts, identity and seal |
| PeerMerge.OneSideIsTakenWhole | src/directory.js:723-745 | Unless both sides moved, the one that did is taken whole, floors raised |
| PeerMerge.ChangedIs | src/directory.js:782-790 | What counts as a change since the baseline, of identity, seal and elevation |
| PeerMerge.BothMovedMerge | src/directory.js:747-766 | When both moved: revision, floors and whose identity |
| PeerMerge.SealMovesAsUnit | src/directory.js:638-648 | The sealing key, mark and conflict are the writer's if it alone changed them, a conflict if the keys disagree, and disk's otherwise |
| PeerMerge.ContestedFieldIsDisks | src/directory.js:686-706 | Of a field both changed differently: addresses are united, sightings and versions take the higher, a note or an unknown field stays as committed |
| PeerMerge.AgreedFieldStands | src/directory.js:693-695 | A field both changed alike stands |
| PeerMerge.ContestedConflictsUnite | src/directory.js:656-667 | Conflicts both came to list are united, unless both rotated to one identity |
| Peers.MergeFields | src/directory.js:678-710 | The loop that edits the merged record computes the field-by-field merge |
| ReconcilePersist.Persist | src/directory.js:271-323 | A whole write is the three-way merge of keys, peers and retirement state |
| ReconcilePersist.MergeByRevision | src/directory.js:441-463 | The two loops compute the three-way merge of names and records |
| ReconcilePersist.NamesMergeThreeWay | src/directory.js:441-463 | A baseline name survives when disk and writer both hold it, a new one when either does |
| ReconcilePersist.RecordsMergeByName | src/directory.js:441-463 | Under a name stands the one record there is, or the merge of the two |
| ReconcilePersist.KeysMergeThreeWay | src/directory.js:271-300 | A top-level key the writer touched is as it left it, any other as on disk |
| Writers.IdleWriterLeavesDiskIff | src/directory.js:271-323 | A writer that changed nothing writes back what is on disk exactly when no floor of a name both hold is below the one it read, its counters are not ahead, disk is in written form, and every tombstone it read is answered or was consumed |
| Writers.IdlePeersIff | src/directory.js:441-463 | The same of the peers alone: exactly when no floor fell |
| SealingFloor.IdleProcessLeavesPeers | src/directory.js:441-463 | In every run, a process that opened the file and changed no peer saves the peers as they are, unless one it read was forgotten since or is about to be |
| ReachableWriters.IdleProcessLeavesGens | src/directory.js:301-317 | In every run that began with no tombstones, a process that retired nobody writes counters and tombstones back as they are, whatever the others did |
| ReachableWriters.OnlyLegacyGoesUnanswered | src/directory.js:301-317 | In any run, only a tombstone from before generations can be on either side of what disk no longer answers |
| ReachableWriters.LegacyReturns | bin/hail.js:935-967 | And such a run: boot consumes a legacy tombstone, and a process that read it before and changed nothing writes it back |
| Writers.DisjointWritersCommuteIff | src/directory.js:271-323 | Writers from any two baselines that touch no key and no peer in common reach the same keys, consumption mark and, exactly when neither adds anew a name the other holds with higher floors, the same peers |
| Writers.ReaddingDoesNotCommute | src/directory.js:441-463 | A failing input: one holds a peer with the sealing floor, the other admits it anew without |
| Writers.RetirementsCommuteIff | src/directory.js:301-317 | Of each identity both orders hold the same legacy time or number or none, or a new number where either retires it, exactly when no consumed number of one writer meets a legacy tombstone of the other |
| ReachableWriters.ReachableIsSound | src/directory.js:301-317 | The file and every process of every run are as that law asks |
| ReconcilePersist.NothingConsumedIsWritten | src/directory.js:308-317 | No write leaves a consumed or provisional tombstone, so a stale writer reintroduces none |
| ReconcilePersist.RetirementsAreKept | src/directory.js:301-317 | And none loses a numbered or pending retirement above the applied mark |
| LiveDirectory.PeerDirectory.Admit | src/directory.js:989-1062 | Admitting keeps floors, conflicts and keys, refuses a raise to nothing, and sets profile and raise |
| LiveDirectory.PeerDirectory.Forget | src/directory.js:1069-1077 | Forgetting removes the peer, reports its identity and buries it |
| LiveDirectory.PeerDirectory.LearnFrom | src/directory.js:1090-1120 | An introduction merges known peers and notes the rest, one by one |
| LiveDirectory.PeerDirectory.RotateKey | src/directory.js:1158-1172 | A rotation clears the sealing binding and conflicts, keeps the floor, buries the old identity |
| LiveDirectory.PeerDirectory.BindSealKey | src/directory.js:1269-1291 | Binding a verified sealing key, as the function the laws below are about |
| LiveDirectory.PeerDirectory.AcceptSealKey | src/directory.js:1302-1310 | A person's choice of sealing key |
| LiveDirectory.PeerDirectory.Adopt | src/directory.js:1640-1730 | Adoption swaps the state in, never lowers a counter, and reports every identity gone or given a posture |
| LiveDirectory.PeerDirectory.SealForIdentity | src/directory.js:1515-1539 | The worst alias decides, and a key is returned only if all verified aliases agree on it |
| DirectoryLaws.OnlyItsName | src/directory.js:957-962 | No mutation touches another name or a counter |
| DirectoryLaws.EveryChangeIsARevision | src/directory.js:957-962 | A changed record is one revision up |
| DirectoryLaws.RetirementIsBuried | src/directory.js:899-916 | A forgotten or replaced identity is buried provisionally with its reason, in place of any older tombstone; no other mutation buries anyone |
| DirectoryLaws.ListenerIsTold | src/directory.js:845-860 | The seal-posture listener hears of the identity held before, exactly on a retirement or a change of posture |
| DirectoryLaws.RotationDropsTheBinding | src/directory.js:1158-1172 | A rotation leaves the new key, no sealing key, mark or conflict, the floors and all else; the posture is `reverify` under the floor |
| DirectoryLaws.ForgettingRemoves | src/directory.js:1069-1077 | A forgotten name is gone |
| DirectoryLaws.FirstBindingIsUsable | src/directory.js:1269-1291 | A first sealing key proved for the held identity is usable and sets the floor |
| DirectoryLaws.LaterBindingsDoNotReplace | src/directory.js:1269-1291 | A second key is the pending conflict, a third nothing |
| DirectoryLaws.UnprovenBindingIsIgnored | src/directory.js:1269-1291 | A binding proved for another identity changes nothing |
| DirectoryLaws.AcceptanceSettles | src/directory.js:1302-1310 | The key named, else the pending, else the held one becomes usable and the dispute ends |
| DirectoryLaws.BindingVersionRises | src/directory.js:1365-1375 | A binding version only rises |
| DirectoryLaws.CompetingKeyIsListed | src/directory.js:1392-1415 | A competing key is listed unless it is the one held |
| DirectoryLaws.RebuildsKeepOurs | src/directory.js:1207-1234 | Introductions, stamped routes and first keys rebuild a record, keep what is ours and never replace a held identity |
| DirectoryLaws.HearsayAdmitsNobody | src/directory.js:1090-1120 | What is heard of an unknown name is noted and admits nobody |
| DirectoryLaws.AdmissionKeepsTrust | src/directory.js:989-1062 | Admission keeps posture, floors, conflicts and a held identity, refuses a raise to nothing, and starts a new peer unverified |
| DirectoryLaws.AdmissionSetsProfile | src/directory.js:1010-1040 | The profile asked for, else held, else where such a peer lands |
| DirectoryLaws.RaiseHasAnEnd | src/directory.js:1019-1028 | A raise ends when told, back to what it was raised from |
| DirectoryLaws.RaiseEndsOrRuns | src/directory.js:1028-1038 | A profile for good ends a raise, none asked for leaves it running |
| DirectoryLaws.ProfileInForce | src/directory.js:1188-1194 | The profile in force at a time |
| DirectoryLaws.WorstNameDecides | src/directory.js:1515-1539 | An identity is in the worst posture of its names, and has a key exactly when verified |
| DirectoryLaws.PostureOfOne | src/directory.js:1342-1349 | One name's posture |
| DirectoryLaws.AdoptionReports | src/directory.js:1640-1730 | Adoption takes the state, lowers no counter, and reports exactly the identities gone or sealing |
| SealingFloor.PostureIsUnique | src/directory.js:1515-1539 | That answer does not depend on the order of aliases |
| SealingFloor.FloorStands | src/directory.js:1342-1349 | Whatever floors of a peer are on disk while nobody is about to forget it, every interleaving of writers, daemon changes and reloads keeps them until a forget |
| SealingFloor.ConflictLostByBinding | src/directory.js:1269-1291 | A failing input of the seal merge: two processes bind one key, one of them then meets another, and the saved record is not in conflict |
| SealingFloor.SealedOnceNeverClear | src/directory.js:1207-1231 | Once a sealing key was usable in the file, the peer is never `unverified` again until forgotten, on disk or in the daemon |
| SealingFloor.BindingIsConservative | src/directory.js:1269-1291 | Binding never replaces a bound key, never touches a pending conflict, and only tightens the posture |
| SealingFloor.BindingChangesIff | src/directory.js:1269-1291 | When binding changes the record at all |
| SealingFloor.OnlyBindingMakesUsable | src/directory.js:1233-1310 | No other mutation makes a sealing key usable, and binding only for the identity it was verified against |
| SealingFloor.RaiseFallsBack | src/directory.js:1013-1034 | A temporary raise changes nothing once it is over, even over a running one |
| SealingFloor.GossipKeepsRaise | src/directory.js:1098-1107 | Gossip about a peer changes neither its raise, its posture nor a held key |
| KeyStoreProofs.UsableKeyIsSigned | src/routedKeyStore.js:183-285 | Over any history a usable key is the one named by the record the store holds, was shown for that destination, and the destination's own identity signed; and that very key was approved, or reloaded approved, and has been usable since |
| KeyStoreProofs.StoreIsBounded | src/routedKeyStore.js:162-243 | Over any history the store keeps to its size |
| KeyStoreProofs.ObservationsGrantNothing | src/routedKeyStore.js:183-243 | No run of observations makes a key usable that was not |
| KeyStoreProofs.EvictionTakesPendingOnly | src/routedKeyStore.js:162-170 | Eviction takes only what is neither approved nor in conflict, and only at capacity |
| KeyStoreProofs.ConflictIsSticky | src/routedKeyStore.js:183-243 | A conflict leaves only by forget or a tombstone |
| KeyStoreProofs.ApplyForgets | src/routedKeyStore.js:375-405 | A pass of tombstones drops exactly what some tombstone outranks |
| KeyStoreLaws.RetirementDropsIff | src/routedKeyStore.js:375-405 | Which entries a retirement drops, by number or, before numbers, by time |
| KeyStoreProofs.RestartKeepsTheStore | src/routedKeyStore.js:129-154 | Saving and reloading gives the store back up to display names |
| KeyStoreLaws.UselessRecordIsIgnored | src/routedKeyStore.js:183-195 | A record not signed by the target, or without a sealing key, changes nothing and is named for what it is |
| KeyStoreLaws.FirstRecordIsCarried | src/routedKeyStore.js:196-214 | A first record is carried and not usable, unless the store is full of what may not be evicted |
| KeyStoreLaws.OldestPendingMakesRoom | src/routedKeyStore.js:162-170 | At the ceiling the oldest pending entry goes, and no other |
| KeyStoreLaws.SameKeyIsConfirmed | src/routedKeyStore.js:215-228 | The same key again changes at most the floor and its record |
| KeyStoreLaws.OtherKeyIsAConflict | src/routedKeyStore.js:229-242 | A different key under the same identity leaves a conflict, nothing usable, no floor, and a restricting persist |
| KeyStoreLaws.UndisputedSinceGrant | src/routedKeyStore.js:183-285 | Over any history, a usable key has met no other signed sealing key of its destination since its grant |
| KeyStoreLaws.ApprovalIff | src/routedKeyStore.js:254-271 | Exactly when an approval is granted, and the only change it makes |
| KeyStoreLaws.ForgetDropsOne | src/routedKeyStore.js:340-372 | Forgetting drops that destination and no other |
| KeyStoreLaws.TombstonesOnlyDrop | src/routedKeyStore.js:375-405 | A pass of tombstones drops whole entries and changes none |
| RoutedKeyStore.RoutedKeyStore.constructor | src/routedKeyStore.js:129-154 | The rehydrating loop loads only what re-proves itself |
| RoutedKeyStore.RoutedKeyStore.Observe | src/routedKeyStore.js:183-243 | Every branch of an observation, its verdict and its persist |
| RoutedKeyStore.RoutedKeyStore.Approve | src/routedKeyStore.js:254-271 | Approval, pinned or not |
| RoutedKeyStore.RoutedKeyStore.ApplyTombstones | src/routedKeyStore.js:375-405 | The loop over tombstones and the ids it reports |
| Routing.RelayOverNetwork | src/routing.js:124-204 | The recursive relay with its loop, as a search over the network |
| RoutingProofs.BudgetHolds | src/routing.js:148-202 | Whatever children report, spent stays within the clamped budget, each forward accounts for its cost, and paths stay duplicate-free |
| RoutingProofs.RelayTriesUntil | src/routing.js:152-202 | Whatever children report, candidates are asked in order until one delivers, and short of that only their number, the fanout or the budget ends it; what each is handed and what is reported follow from their claims |
| RoutingProofs.RelayStopsHere | src/routing.js:135-147 | A message for this node is delivered here, one out of hops or budget goes nowhere |
| RoutingProofs.SendToSelf | src/routing.js:212-218 | A message to oneself never leaves |
| RoutingProofs.CandidatesKeepOrder | src/routing.js:149-155 | The policy is handed the neighbours in order, without sender, path and blocked |
| RoutingProofs.SpentIsTotalForwards | src/routing.js:148-202 | Among honest nodes the reported spent is the number of forwards in the whole recursion |
| RoutingProofs.DeliveredOnce | src/routing.js:135-138 | A search calls the consumer once if it delivers and never otherwise |
| RoutingReach.SendIsSound | src/routing.js:212-219 | Whenever a send delivers, `via` is a simple unblocked route to the destination within the ttl |
| RoutingReach.SendDeliversIff | src/routing.js:124-219 | When no clamp binds and the budget covers the exhaustive search, a send delivers exactly when a simple route exists |
| RoutingReach.ShippedPoliciesPermute | src/routing.js:230-247 | Both shipped policies only reorder, the greedy one by distance |
| FirstDelivery.SeenIds.FirstDelivery | src/routing.js:98-106 | The engine's duplicate map, swept from the front and trimmed |
| FirstDelivery.SuppressionIff | src/routing.js:86-106 | On given clock readings, whatever ids arrive and however many on each, an id is suppressed exactly while among the newest first deliveries and in its window, if and only if the store has room for fewer than two ids or no reading comes back into a window that another had left, nor between the ends of two windows that close out of order |
| FirstDelivery.SweptTooSoon | src/routing.js:98-106 | Set back the first way, an id still in its window is delivered again |
| FirstDelivery.LapsedYetSuppressed | src/routing.js:98-106 | Set back the second way, a lapsed id is suppressed |
| FirstDelivery.DuplicateIff | src/routing.js:86-106 | Under a clock that is not set back, the law holds outright |
| FirstDelivery.AnyClock | src/routing.js:86-106 | Whatever the clock does, an id among the newest first deliveries is suppressed while its window is open at every observed time, and only while its own or an older kept window is open |
| RelayLimits.RelayLimits.Enter | src/builtin/routePlugin.js:428-447 | A slot is granted exactly when neither ceiling is reached, and the counters are exactly the work under way |
| RelayLimits.RelayLimits.WithinLimit | src/builtin/routePlugin.js:626-636 | The per-caller window, other callers untouched |
| RelayLimits.RateKeptIff | src/builtin/routePlugin.js:626-636 | On given clock readings, however many calls fall on each and whatever was remembered before, one caller is let through at most sixty times in any window if and only if no reading comes within a window of one that a reading in between was a window past |
| RelayLimits.RateHoldsUnlessReentered | src/builtin/routePlugin.js:626-636 | Of calls whose readings do not, no one let through has sixty earlier ones within a window of it on either side |
| RelayLimits.RateHolds | src/builtin/routePlugin.js:626-636 | Under a clock that is not set back, the rate holds outright |
| RelayLimits.SetBackExceeds | src/builtin/routePlugin.js:626-636 | Three readings that do, and sixty-one calls let through at once |
| RouteReplayGuard.RouteReplayGuard.Assess | src/routeReplayGuard.js:174-212 | The decision over live maps, per-origin counts always exact |
| RouteReplayGuard.RouteReplayGuard.Rehydrate | src/routeReplayGuard.js:147-162 | Rebuilding from a snapshot |
| RouteReplayGuard.RouteReplayGuard.Snapshot | src/routeReplayGuard.js:245-248 | The live reservations, each once |
| ReplayGuardProofs.LazyRefinesEager | src/routeReplayGuard.js:95-212 | Over any run the lazily swept guard gives the verdicts of one that drops every expired slot first |
| ReplayGuardProofs.VerdictsMatchIff | src/routeReplayGuard.js:174-212 | For one decision, exactly when the two agree |
| ReplayGuardProofs.ReloadedForeignSlot | src/routeReplayGuard.js:147-212 | A failing input: a reloaded line puts the slot under another origin, and the lazy guard exceeds the origin's ceiling |
| ReplayGuardProofs.AssessKeepsCeilings | src/routeReplayGuard.js:184-205 | Both ceilings hold in every reachable state |
| ReplayGuardProofs.DecisionIs | src/routeReplayGuard.js:174-212 | A decision in full: the first reason that holds among the live reservations, the time observed, and the one reservation added |
| ReplayGuardProofs.SlotsAreDistinct | src/routeReplayGuard.js:174-180 | Another origin, id or block is another slot |
| ReplayGuardProofs.ReloadIsBounded | src/routeReplayGuard.js:147-162 | A reload takes only what a guard of these options could have written, within the ceilings |
| ReplayRestart.AtMostOnce | src/routeReplayGuard.js:87-212 | A later admission into a slot needs a strictly later expiry, under any clock and across restarts |
| ReplayRestart.SafeRestartIff | src/routeReplayGuard.js:147-162 | A restart re-admits nothing exactly when its clock is not behind the high-water mark |
| JsonProofs.ParseUndoesWrite | src/identity.js:203-210 | A parser undoes both printers, escapes and all |
| JsonProofs.CanonicalizeIsInjective | src/identity.js:203-210 | Two values sign alike exactly when they are one value up to entry order, `undefined` and the sign of zero |
| JsonProofs.CanonicalizeIsOrderBlind | src/identity.js:203-210 | Permuting an object's entries changes nothing |
| RouteManifest.BuildThenCheck | src/routeManifest.js:112-175 | Building and validating undo each other on exactly the well-formed manifests |
| MessageLaws.PassesIff | src/routeManifest.js:112-133 | A value passes as a manifest exactly when it is an object of that manifest's twelve fields, in any order and with nothing besides |
| MessageLaws.FirstProblemIsGiven | src/routeManifest.js:112-133 | Otherwise it is refused for the first thing wrong with it |
| RouteManifest.SignedTextDetermines | src/routeManifest.js:142-144 | One signed text, one manifest |
| RouteManifest.DomainsAreSeparate | src/routeManifest.js:26-27 | A signature over anything outside the manifest domain never verifies as one over a manifest |
| RoutedMessage.OpenRoutedMessage | src/routedMessage.js:319-496 | The gate sequence over the live guard, reason by reason |
| RoutedMessageProofs.Agreement | src/routedMessage.js:319-496 | A delivered message was wrapped by its origin for this destination under that id and mode, sealed to this machine's key, with that body |
| RoutedMessageProofs.BodyArrivesIff | src/routedMessage.js:181-229 | The destination gets the JSON reading of the body given to wrap exactly when it is not misframed |
| RoutedMessageProofs.WrapOpensIff | src/routedMessage.js:181-266 | What an honest origin wraps is opened exactly when the destination accepts it and its guard admits it |
| MessageLaws.NobodyIsNamed | src/routedMessage.js:319-380 | The reasons of a refusal that names no origin, in order, and when there is one |
| MessageLaws.EveryGateInOrder | src/routedMessage.js:380-496 | Past those: policy, guard, bytes, guard again, each with its reasons in order; what passes is delivered for what it says |
| MessageLaws.WrappedIff | src/routedMessage.js:181-266 | Why a body is not wrapped, in order, and what a wrapper carries |
| MessageLaws.TransportedIs | src/routedMessage.js:200-232 | What the bytes are, clear or sealed |
| RoutedMessageProofs.RefusalReservesNothing | src/routedMessage.js:480-483 | A refusal leaves the live reservations alone; a delivery adds its own and no other |
| RoutedMessageProofs.DeliveredAtMostOnce | src/routedMessage.js:268-318 | One signed manifest is delivered at most once, across wrappers, clocks and restarts |
| RoutedObservation.RoutedObservationStore.Observe | src/routedObservation.js:137-153 | Only an issued handle records; marks stay; a full store refuses newcomers |
| RoutedObservation.Issuer.Issue | src/routedObservation.js:64-72 | Issuing handles, for key ids only |
| RoutedObservation.MarkersOnlyGrow | src/routedObservation.js:137-153 | Nothing is cleared or evicted, and exactly a full store refuses |
| RoutedObservation.ReloadKeepsMarkers | src/routedObservation.js:118-124 | Loading the written markers brings back exactly them |
| RouteDelivery.Delivery.Deliver | src/builtin/routePlugin.js:153-244 | Open, mark, consume, answer, in that order |
| RouteDeliveryProofs.NoLaterClearDelivery | src/routedMessage.js:407-418 | After a recorded sealed delivery no later clear message from that origin is delivered: in the same process whatever the writes do, and across restarts once any write of the marker landed before the first |
| RouteDeliveryProofs.SealedDeliveryMarksIff | src/builtin/routePlugin.js:199-209 | When a sealed delivery is recorded and written |
| RouteDeliveryProofs.OnlySealedTeaches | src/builtin/routePlugin.js:199-209 | A refusal or a clear delivery records nothing of its origin |
| RouteDeliveryProofs.ReplyModeFollowsRequest | src/builtin/routePlugin.js:210-243 | A sealed request is answered sealed or not at all |
| MessageLaws.AnswerCarries | src/builtin/routePlugin.js:153-244 | Which answers carry a record and a receipt, and for whom the receipt is |
| MessageLaws.SealedAnswerIff | src/builtin/routePlugin.js:210-243 | When a sealed delivery is answered under seal, and with what block |
| MessageLaws.ReceiptVerifiesIff | src/builtin/routePlugin.js:295-317 | Which receipts verify |
| RouteDeliveryProofs.ReplyOpensIff | src/routedMessage.js:510-562 | A sealed reply opens, as the response given, exactly at its origin for its id |
| MessageLaws.ReplyRefusedIff | src/routedMessage.js:530-562 | Why a sealed reply is not let in, in order |
| RouteDeliveryProofs.ReplyAgreement | src/routedMessage.js:530-562 | Accepted reply content was sealed by the destination as the reply to that id, or is a request of its own that is a reply envelope |
| RouteDeliveryProofs.ReceiptProvesDelivery | src/builtin/routePlugin.js:308-317 | A verified `delivered` receipt proves that the destination delivered what was wrapped under that id |
| RoutePlugin.RouteSender.Send | src/builtin/routePlugin.js:476-555 | Decide, wrap, send to a network that may answer anything, learn, judge, settle |
| SendProofs.ConfidentialByDefault | src/routedSealResolver.js:42-77 | A send not marked public emits ciphertext for an entitled key, or nothing |
| SendProofs.ClearIff | src/builtin/routePlugin.js:490-515 | What goes out goes out clear exactly when public and not data for a destination asking for sealing |
| SendLaws.PlannedIs | src/builtin/routePlugin.js:476-535 | Every send: clear, sealed to the one key there is, or not at all and why |
| SendLaws.Tier0Supersedes | src/builtin/routePlugin.js:510-512 | What the directory knows drops what was discovered |
| SendLaws.ReplyTeaches | src/builtin/routePlugin.js:362-373 | A reply teaches by the record it carries and no other way |
| SendLaws.ReceiptIsJudged | src/builtin/routePlugin.js:298-317 | When a receipt counts |
| SendLaws.RefusalIsFinal | src/builtin/routePlugin.js:384-417 | How a refusal ends |
| SendLaws.ClearReplyIs | src/builtin/routePlugin.js:333-339 | After a clear send a sealed field is dropped unread and the rest stays |
| SendLaws.SealedReplyIs | src/builtin/routePlugin.js:340-361 | After a sealed send, what is withheld and why |
| SendLaws.WithheldKeepsAttachments | src/builtin/routePlugin.js:341-350 | A withheld reply keeps its record and receipt |
| SendLaws.CallerIsTold | src/builtin/routePlugin.js:540-555 | The caller is told of the refused or settled result and the receipt judged under both keys' names |
| SendLaws.UnknownIsRefused | src/routedSealResolver.js:42-77 | The resolver refuses what it has not been told |
| SendProofs.SealKeyProvenance | src/routedSealResolver.js:42-77 | Over any history, the key sealed to is agreed by every verified alias with none in conflict or reverify, or was approved for that very key id, is usable since, and is named in a record that identity signed and the store was shown |
| SendProofs.SealedPayloadArrivesIff | src/builtin/routePlugin.js:525-538 | A sealed send gives its reader the payload exactly when there is one |
| SendProofs.NoPayloadMisframes | src/routedMessage.js:181-229 | Sealed without a payload, the reader gets the response header as the body and no response key |
| SendProofs.PromiseKeptIff | src/builtin/routePlugin.js:330-361 | A sealed send shows its caller only attachments the destination signed and content it sealed exactly when the result does not call itself refused and its record and receipt, or all of an undelivered response, are signed |
| SendProofs.DeliveredReplyIffSealed | src/builtin/routePlugin.js:340-360 | A delivered reply is let in exactly when properly sealed |
| SendProofs.ClaimedRefusalPassesThrough | src/builtin/routePlugin.js:384-417 | A response that calls itself a refusal passes as it stands |
| SendProofs.RelayContentExposed | src/builtin/routePlugin.js:330-361 | A failing input: content of a relay's own beside a claimed refusal |
| SendProofs.UnsignedRecordExposed | src/builtin/routePlugin.js:340-347 | Another: an ordinary delivery with anything at all in the record's place |
| CliArgs.ParseArgs | src/cliArgs.js:356-397 | Leading globals, command, action, then the strict or the lenient loop |
| CliArgs.ParseStrict | src/cliArgs.js:277-347 | The strict index loop and the arity check |
| CliArgs.ParseLenient | src/cliArgs.js:240-266 | The lenient index loop |
| CliArgsProofs.PrintThenParse | src/cliArgs.js:277-397 | Printed settings and positionals parse back to exactly those flags and the positionals verbatim |
| CliArgsProofs.PrintThenStrict | src/cliArgs.js:277-347 | With the arity error when the positionals do not fit |
| CliArgsProofs.GlobalsThenCommand | src/cliArgs.js:356-397 | Globals may stand before the command, a later one wins |
| CliArgsProofs.TwoTokensAreOne | src/cliArgs.js:320-340 | `--k v` is `--k=v` whenever v is neither the terminator nor flag-shaped |
| CliArgsProofs.OtherwiseNoValue | src/cliArgs.js:320-340 | And otherwise a string option refuses and an optional one stands bare |
| CliArgsProofs.UnknownIff | src/cliArgs.js:305-310 | Exactly which options are refused as unknown |
| CliArgsProofs.UndeclaredYetAccepted | src/cliArgs.js:305-310 | Which undeclared ones are not |
| CliArgsProofs.LenientRoundTrip | src/cliArgs.js:240-266 | Without a schema, inline options and plain positionals come back as given |
| CliArgsLaws.OptionShapedIff | src/cliArgs.js:195-212 | What the parsers take for an option |
| CliArgsLaws.ItemsParse | src/cliArgs.js:284-342 | Settings in one token or two and words, mixed, are all taken |
| CliArgsLaws.LineIsDecided | src/cliArgs.js:277-347 | How any line ends: parsed, or refused for its arity, an unknown option or a missing value |
| CliArgsLaws.ArityIff | src/cliArgs.js:334-345 | When the count of words does not fit |
| CliArgsLaws.LeadingIs | src/cliArgs.js:360-380 | Which options may stand before the command, and how |
| CliArgsLaws.UnknownCommandIsLenient | src/cliArgs.js:222-231 | A command or action without a schema is parsed leniently |
| CliArgsLaws.InheritedWordIsStrict | src/cliArgs.js:222-231 | One named like a member every object has is parsed against a schema with nothing in it |
| CliArgsLaws.SetterKeySetsNothing | src/cliArgs.js:240-342 | The one key that is a setter is taken on every schema that does not declare it, and sets nothing |
| CliArgsLaws.LenientIs | src/cliArgs.js:240-266 | What the lenient parser makes of each token |

## Left out

- Real cryptography: signatures, sealing and key ids are symbolic, digests a parameter with no collision among the bytes at hand.
- The lock file: each locked write is atomic. The program itself degrades to best effort after stealing or giving up on a lock.
- Power loss: a crash loses memory, not a write that returned. The program's fsync of the sidecar is what makes that so.
- The clamp ceiling in the protocol: a write is a step only while the counter has room below it; `Tombstones.FinalizeIsWellAllocated` says exactly what happens at the ceiling.
- Legacy tombstones without a number: carried and ordered by wall clock, but the retirement theorems are about numbered ones. A boot takes them from the file and leaves them in the live directory, as the program does.
- Malformed lines in a tombstone list or counters that are not numbers: the model starts from what loading accepts.
- PeerMerge: address ranking, conflict lists and their timestamps are parameters of the merge, since no law here depends on them.
- ReconcilePersist: an absent key and an empty list of peers or tombstones are one; the order of the admitted list is not modelled.
- Directory: where a candidate was heard of, the blocklist, the profile set and trust models are not modelled.
- SealingFloor: adopting is modelled on the admitted peers alone; the counters are in the protocol.
- ReplayGuard.Options: negative and non-finite options, which the constructor refuses, are outside the types.
- Numbers are integers: fractional and non-finite values, and the worklist that refuses non-finite ones in a body, do not arise.
- Json.Parse: reads what `JSON.stringify` writes, with no white space, exponents or other spellings; where a message is opened the platform's reader is a parameter that is only asked to read what `JSON.stringify` writes.
- RoutedMessage.Open: base64, UTF-8 and PEM are not spelled out; a payload is the bytes it decodes to and whether its spelling was canonical.
- RoutePlugin: exceptions thrown by wrapping are a plan, and concurrent sends are one after another.
- Routing: a policy is assumed to return a permutation of what it is given, as both shipped ones do; payloads ride along unread.
- CliArgs: usage text and the wording of errors.
- HTTP, sockets, the page, the composer, gates, shells, tunnels, files and chat: plumbing around these parts.

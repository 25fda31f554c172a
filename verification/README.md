# wireMesh in Dafny

A model of the parts of wireMesh, a mesh of WireGuard gateways under one
controller, whose correctness spans many steps or many inputs, with proofs.
`dafny verify dfyconfig.toml` checks everything.

- **Policy to verdict.** `Nets` (IPv4 prefixes), `PolicyIr` (the compiled policy
  and its meaning as plain first match), `Flatten` and `FlattenMeaning` (the flat
  rule list), `LpmMatcher` (cumulative-bitset tries and the kernel scan),
  `NftChain` (the nftables chain). The thread: every packet gets the verdict the
  policy gives it, by either backend.
- **Replacing a policy under traffic.** `Generations` (two slots, one atomic flip,
  packets in flight), `RuleCounters` (counters that survive re-homing),
  `PolicyWorker` (the latest-wins worker with deadlines, failures and rotations
  racing it).
- **Key rotation.** `EpochTable` (guarded transactions under any interleaving),
  `RotationDriver` (decision, tracker, sweep), `KeyStore` (the gateway's keys with
  crashes), `RotationSystem` (both sides and the messages between them).
- **Controller state.** `PunchBroker`, `Fabric`, `Enrollment`, `Projection`.

Objects the program updates in place are classes whose methods are proved against
functions on values; what the design promises is then proved of those functions
over all inputs or all runs. Concurrent parts are state machines whose every
enabled step may happen next. Clocks, fresh keys, database answers, full channels,
failing applies and the policy compiler are parameters.

## Where the code does not do what one might expect

Each of these is shown by a concrete run or input, next to the exact condition.

- A port range of (0, 0) from the wire means "any port" to both backends
  (`ExplicitZeroRangeWidens`; exact: `SingleRuleExact`, `NftSingleRuleExact`).
- A rule with ports that can meet icmp is read differently by the two backends
  (`AnyWithPortsSplitsBackends`; exact: `BackendsAgreeOnRule`).
- A hit that lands after its position was folded and before the flip is not lost, as
  the comment in crates/wiremesh-enforcer/src/ebpf.rs says, but credited to whichever
  rule the new list has there (`SwapMiscredits`, in general `WindowHitGoesToNewRule`;
  exact: `WindowHitExact`).
- Two rotations in flight can lower the active epoch (`TwoBeginsLowerActive`, at the
  table `StalePromoteLowers`; exact: `BeginSafeIff`, `ActiveFallsIff`) and then wedge
  the gateway's mint (`TwoBeginsWedgeMint`; exact: `MintSafeIff`).
- The check that turns away keys of earlier gateway processes is open from a controller
  restart until the gateway reconnects; in that window a key the gateway no longer
  holds can be accepted (`StaleKeyAccepted`; exact: `MintAgreesThroughRestartsIff`,
  and with the check in force `MintAgreesIff`).
- Other content published under a version already in force is reported as installed
  and never written (`OtherContentIsNotWritten`; exact: `InstallWritesExactly`). The
  controller numbers versions by content (`VersionsGrowByFingerprint`).
- A packet that outlives the grace can read two generations although every apply
  waited (`PacketCanStraddle`; exact: `NoStraddleIff`).
- An apply can leave a segment without CIDRs although creation refuses that
  (`EmptySegmentStored`; exact: `EmptyAfterApplyIff`). The services in front of the
  database reject such a declaration.
- Re-running an apply that names a segment twice with different CIDRs writes again
  (`RerunWrites`; exact: `RerunIsNoOpIff`).

## Model

| member | source | states |
|---|---|---|
| Nets.SharedAddressNests | crates/wiremesh-enforcer/src/ebpf.rs:612-625 | two networks that share an address nest: the longer prefix lies inside the shorter (section 3.1 of RFC 4632) |
| Nets.CoversIsInclusion | crates/wiremesh-enforcer/src/ebpf.rs:631-644 | the containment test on prefixes is inclusion of their address sets |
| Nets.OverlapsIffShare | crates/wiremesh-controller/src/db.rs:437-476 | the two-way network-containment test holds iff the CIDRs share an address |
| Nets.HoldsIffMaskEqual | crates/wiremesh-enforcer/src/ebpf.rs:656-668 | an address is in a network iff masking it gives the trie key's network |
| Flatten.DistinctSideCidrs.Observe | crates/wiremesh-enforcer/src/flatten.rs:61-78 | adds unseen CIDRs in order of first appearance; set and order stay in step, no duplicates |
| Flatten.DistinctSideCidrs.Check | crates/wiremesh-enforcer/src/flatten.rs:87-98 | passes iff at most 1024 distinct CIDRs were observed |
| Flatten.ParseCidrs | crates/wiremesh-enforcer/src/flatten.rs:121-129 | succeeds iff every string parses, with the networks in order |
| Flatten.ResolveSide | crates/wiremesh-enforcer/src/flatten.rs:171-180 | a rule's own CIDR list, or the block's when it has none |
| Flatten.FlattenRule | crates/wiremesh-enforcer/src/flatten.rs:170-238 | one entry per port range, both sides counted toward capacity; an error names a defect the rule has |
| Flatten.CountExpanded | crates/wiremesh-enforcer/src/flatten.rs:142-147 | the expanded size is the sum over rules of max(1, ports) |
| Flatten.FlattenBlock | crates/wiremesh-enforcer/src/flatten.rs:166-239 | all rules of a block, in order, with the capacity counts carried along |
| Flatten.FlattenBlocks | crates/wiremesh-enforcer/src/flatten.rs:155-239 | all blocks, in order; success implies both sides fit the tries |
| Flatten.FillPositions | crates/wiremesh-enforcer/src/flatten.rs:250-252 | each entry's idx is its position |
| Flatten.FlattenPolicy | crates/wiremesh-enforcer/src/flatten.rs:133-255 | succeeds iff the policy is within all limits and well-formed; the result is the full expansion with positions; each error is one the policy really has |
| FlattenMeaning.FlatteningPreservesMeaning | crates/wiremesh-enforcer/src/flatten.rs:133-255 | first match over blocks, rules and port lists gives every packet the same action and rule id as first match over the flat list |
| FlattenMeaning.SingleRuleExact | crates/wiremesh-enforcer/src/flatten.rs:213-237 | for one rule, agreement on all packets holds iff its port list is one the flat encoding can express |
| FlattenMeaning.PortsAgree | crates/wiremesh-enforcer-ebpf/program/src/main.rs:710-721 | the kernel's port test on the flattened ranges is the policy's port list |
| FlattenMeaning.PortsDisagree | crates/wiremesh-enforcer-ebpf/program/src/main.rs:710-721 | outside that condition there is a packet the two judge differently |
| FlattenMeaning.CompiledIsFaithful | crates/wiremesh-policy/src/validate.rs:204-262 | every policy the compiler admits meets the condition |
| FlattenMeaning.ExplicitZeroRangeWidens | crates/wiremesh-enforcer/src/flatten.rs:213-237 | a (0, 0) range off the wire is accepted and widens to every port |
| LpmMatcher.BitSetGet | crates/wiremesh-enforcer-ebpf/common/src/lib.rs:88-104 | setting a bit sets exactly that bit; out-of-range positions are inert |
| LpmMatcher.AndBitsGet | crates/wiremesh-enforcer-ebpf/program/src/main.rs:641-646 | the word-wise AND is the intersection of the two rule sets |
| LpmMatcher.AccumulateSide | crates/wiremesh-enforcer/src/ebpf.rs:566-581 | the distinct CIDRs of one side of the list, in order of first appearance |
| LpmMatcher.CheckLpmCapacity | crates/wiremesh-enforcer/src/ebpf.rs:605-610 | passes iff both sides have at most 1024 distinct CIDRs |
| LpmMatcher.FlattenedNetsAreThePolicys | crates/wiremesh-enforcer/src/ebpf.rs:575-610 | a flat list has exactly the CIDRs counted while flattening, so the later capacity check cannot fail |
| LpmMatcher.CoverBits | crates/wiremesh-enforcer/src/ebpf.rs:631-644 | bit k is set iff some CIDR of rule k covers the entry's prefix |
| LpmMatcher.BuildLpmEntries | crates/wiremesh-enforcer/src/ebpf.rs:631-644 | one entry per distinct CIDR, each with its cumulative bitset |
| LpmMatcher.BuildTrie | crates/wiremesh-enforcer/src/ebpf.rs:656-668 | inserts in order, never fails within capacity |
| LpmMatcher.CollidingEntriesAgree | crates/wiremesh-enforcer/src/ebpf.rs:656-668 | CIDRs that mask to the same key want the same bits |
| LpmMatcher.AnyOrderBuildsTheTrie | crates/wiremesh-enforcer/src/ebpf.rs:631-668 | any permutation of the entries builds a trie with the same keys and bits |
| LpmMatcher.LongestMatchIsCumulative | crates/wiremesh-enforcer/src/ebpf.rs:612-644 | the longest match carries rule k's bit iff one of rule k's own CIDRs contains the address |
| LpmMatcher.LookupIsExact | crates/wiremesh-enforcer-ebpf/program/src/main.rs:627-639 | same for the kernel's lookup, a missing entry reading as no bits |
| LpmMatcher.BuildRules | crates/wiremesh-enforcer/src/ebpf.rs:526-543 | per-position metadata and rule ids |
| LpmMatcher.ScanGeneration | crates/wiremesh-enforcer-ebpf/program/src/main.rs:624-695 | charges the lowest position in both bitsets whose metadata admits the packet, else default deny |
| LpmMatcher.Classify | crates/wiremesh-enforcer/src/ebpf.rs:526-668 | tries, AND and scan decide every packet as linear first match over the rules' own CIDRs does |
| LpmMatcher.EnforceEbpf | crates/wiremesh-enforcer/src/ebpf.rs:330-336 | end to end: every packet gets the policy's action, charged to the rule the policy names |
| NftChain.WriteRuleLines | crates/wiremesh-enforcer/src/nft.rs:160-185 | one line per concrete protocol, `any` expanding to three, icmp never with ports |
| NftChain.Ruleset | crates/wiremesh-enforcer/src/nft.rs:54-113 | the declared counters are exactly the distinct rule ids, none is the default-deny one, every line names a declared one |
| NftChain.ChainIsFirstMatch | crates/wiremesh-enforcer/src/nft.rs:93-101 | the chain charges and obeys the first rule that accepts the packet |
| NftChain.ChainLoads | crates/wiremesh-enforcer/src/nft.rs:145-153 | nft loads the chain iff no ported rule has its range backwards |
| NftChain.BackendsAgreeOnRule | crates/wiremesh-enforcer/src/nft.rs:145-185 | a rule means the same to nftables and eBPF on all packets iff it cannot meet icmp or its range starts at zero |
| NftChain.BackendsAgree | crates/wiremesh-enforcer/src/nft.rs:54-185 | lists of such rules: same verdict and rule for every new packet |
| NftChain.NftEnforcesPolicy | crates/wiremesh-enforcer/src/nft.rs:54-185 | the chain decides every new packet as the policy does and charges the counter of the policy's rule |
| NftChain.NftSingleRuleExact | crates/wiremesh-enforcer/src/nft.rs:145-153 | for one rule, agreement with the policy holds iff it has no effective (0, 0) range |
| NftChain.CompiledBackendsAgree | crates/wiremesh-enforcer/src/nft.rs:54-185 | for compiler output both backends and the policy give one verdict |
| NftChain.AnyWithPortsSplitsBackends | crates/wiremesh-enforcer/src/nft.rs:160-185 | a rule for any protocol with ports takes icmp under nftables and not under eBPF |
| RuleCounters.GenerationState.FoldAndResetCounters | crates/wiremesh-enforcer/src/ebpf.rs:787-822 | moves every position of either generation into the totals by rule id and zeroes it |
| RuleCounters.GenerationState.PruneRetiredCounters | crates/wiremesh-enforcer/src/ebpf.rs:850-855 | the survivors are exactly the ids of the new list that had a total, each with its total unchanged |
| RuleCounters.GenerationState.Publish | crates/wiremesh-enforcer/src/ebpf.rs:919-934 | fold, prune, flip and publish as one step; a failed flip leaves the old ids |
| RuleCounters.GenerationState.Counters | crates/wiremesh-enforcer/src/ebpf.rs:371-395 | the report combines totals and live positions |
| RuleCounters.FoldConserves | crates/wiremesh-enforcer/src/ebpf.rs:798-813 | folding changes no reported count, wherever it stops |
| RuleCounters.ReportIsHistory | crates/wiremesh-enforcer/src/ebpf.rs:353-395 | over any run of hits and applies, failed ones included, each rule reports its hits since it was last missing from a list that reached the flip; default deny is conserved; an entry exists iff it is positive |
| RuleCounters.RemovedRuleForgotten | crates/wiremesh-enforcer/src/ebpf.rs:824-855 | a rule dropped by an apply vanishes from the report |
| RuleCounters.NothingAboveLive | crates/wiremesh-enforcer/src/ebpf.rs:743-750 | no count is ever left above the live positions, so the dropped-stale branch loses nothing |
| RuleCounters.ApplyBoundsTotals | crates/wiremesh-enforcer/src/ebpf.rs:845-849 | the totals never outgrow the rule list |
| RuleCounters.HitDuringFoldIs | crates/wiremesh-enforcer/src/ebpf.rs:774-822 | a hit landing at any moment of the fold counts as one before the apply if its position was still to be folded, else as one after the whole fold |
| RuleCounters.WindowHitGoesToNewRule | crates/wiremesh-enforcer/src/ebpf.rs:774-786 | a hit after its own position was folded, at any moment up to the flip, is reported for the rule the new list has at that position |
| RuleCounters.WindowHitExact | crates/wiremesh-enforcer/src/ebpf.rs:774-786 | a hit at any moment of the fold is reported rightly iff its position was still to be folded, or the rule keeps its position, or both it and the position go |
| RuleCounters.SwapMiscredits | crates/wiremesh-enforcer/src/ebpf.rs:774-786 | the run: two rules are swapped and a hit on the first, just folded, is reported for the second |
| Generations.NoPacketStraddles | crates/wiremesh-enforcer-ebpf/program/src/main.rs:606-645 | over any run where applies honour the deadline and no packet outlives the grace, every map a packet reads is of the generation active when it arrived |
| Generations.NoStraddleIff | crates/wiremesh-enforcer/src/ebpf.rs:338-351 | no run that honours the deadline ever shows a packet two generations iff no packet outlives the grace |
| Generations.HonourIsSpacing | crates/wiremesh-gateway/src/policy_apply.rs:79-113 | a run honours the deadline iff every apply in it, failed ones included, starts a grace or more after the flip before it |
| Generations.ActiveIsWhole | crates/wiremesh-enforcer/src/ebpf.rs:675-717 | after any run at all, partial installs and applies that ignore the deadline included, the active slot's four maps come from one successful apply and the pending-reap slot is the next target |
| Generations.DeadlineDrainsSlot | crates/wiremesh-enforcer/src/ebpf.rs:338-351 | when the published deadline has passed, no packet is left in the slot about to be overwritten |
| Generations.PacketCanStraddle | crates/wiremesh-enforcer/src/ebpf.rs:863-881 | a run in which a packet reads two generations, whenever applies ignore the deadline or packets may outlive the grace |
| PolicyWorker.EnforcerApplyTarget.ReadyAt | crates/wiremesh-gateway/src/main.rs:96-102 | the furthest deadline among the entries the install would write |
| PolicyWorker.EnforcerApplyTarget.Install | crates/wiremesh-gateway/src/main.rs:129-270 | skip, defer, write or stop at a failure, entry by entry; the gauge moves only on full success, to the highest live version |
| PolicyWorker.VisitEffect | crates/wiremesh-gateway/src/policy_apply.rs:166-173 | an entry is untouched, or written because it needed it and was past its grace; on success none needs a write |
| PolicyWorker.DeadlineIsExact | crates/wiremesh-gateway/src/policy_apply.rs:79-113 | with nothing failing in between, the install completes iff the deadline read has passed |
| PolicyWorker.ParkedMeansConverged | crates/wiremesh-gateway/src/policy_apply.rs:317-520 | in every interleaving, a parked worker with nothing unseen last completed an install of exactly the mailbox's value, and every enforcer is at its version, rollbacks and rotation inserts included |
| PolicyWorker.InstallWritesExactly | crates/wiremesh-gateway/src/main.rs:129-270 | a completed install leaves each enforcer with the whole desired value, except where the version was already equal: there nothing is written |
| PolicyWorker.ParkedPolicyIsPublished | crates/wiremesh-gateway/src/policy_apply.rs:317-520 | if no two publishes give one version different policies, a parked worker with nothing unseen has every enforcer running the mailbox's policy |
| PolicyWorker.ReusedVersionIsNotWritten | crates/wiremesh-gateway/src/main.rs:129-270 | from any converged state, publishing other content under the same version is taken, installed and parked on without any enforcer changing |
| PolicyWorker.OtherContentIsNotWritten | crates/wiremesh-gateway/src/main.rs:129-270 | the run from the start: one tunnel, two values under one version, the second reported installed and the first in force |
| PolicyWorker.PublishedIsTaken | crates/wiremesh-gateway/src/policy_apply.rs:209-217 | a publish that is not yet in force always wakes the parked worker |
| PolicyWorker.WritesWaitOutGrace | crates/wiremesh-gateway/src/policy_apply.rs:79-113 | over any run every write to a two-slot enforcer, failed attempts included, starts at least one grace after the flip before it, which is what `Generations` asks of applies |
| PolicyWorker.OnlyRollbacksLower | crates/wiremesh-gateway/src/policy_apply.rs:140-173 | a version goes down only on a sample that saw nothing newer; while that holds, it is a rollback the controller asked for |
| PolicyWorker.SampleCanGoStale | crates/wiremesh-gateway/src/policy_apply.rs:458-478 | a publish and an insert between sample and write leave a tunnel one version behind until the next round |
| EpochTable.EpochStore.RotateKey | crates/wiremesh-controller/src/db.rs:2026-2083 | a sentinel row one above the highest epoch, for active gateways only |
| EpochTable.EpochStore.SetEpochPubkey | crates/wiremesh-controller/src/db.rs:2111-2137 | fills the sentinel of a pending row, applied iff it was there |
| EpochTable.EpochStore.PromoteEpoch | crates/wiremesh-controller/src/db.rs:2153-2183 | promotes a real-keyed pending row and demotes the active one, or nothing |
| EpochTable.EpochStore.RetireEpoch | crates/wiremesh-controller/src/db.rs:2193-2209 | deletes a retiring row, or nothing |
| EpochTable.EpochStore.DropPendingEpoch | crates/wiremesh-controller/src/db.rs:2239-2267 | deletes a pending row; otherwise says exactly whether the row is absent or which state it is in |
| EpochTable.AlwaysOneActive | crates/wiremesh-controller/src/db.rs:2026-2267 | after any sequence of transactions, however stale, an enrolled gateway has exactly one active epoch, with a real key |
| EpochTable.RevisionCountsApplied | crates/wiremesh-controller/src/db.rs:123-134 | the revision equals the number of transactions that applied |
| EpochTable.ChangesIffMatches | crates/wiremesh-controller/src/db.rs:2093-2110 | a transaction changes the table iff its guard matched, and only its own gateway's rows |
| EpochTable.DropOnlyPending | crates/wiremesh-controller/src/db.rs:2211-2238 | dropping never touches an active or retiring row |
| EpochTable.RetiringIsTerminal | crates/wiremesh-controller/src/db.rs:2185-2209 | a retiring row changes only by being retired |
| EpochTable.PromoteMovesActive | crates/wiremesh-controller/src/db.rs:2171-2178 | the promoted epoch becomes the one active row, the old one retiring |
| EpochTable.ActiveFallsIff | crates/wiremesh-controller/src/db.rs:2153-2183 | after any transactions, the next one lowers a gateway's active epoch iff it promotes a keyed pending epoch below the active one |
| EpochTable.StalePromoteLowers | crates/wiremesh-controller/src/db.rs:2153-2183 | with two stacked rotations a late promote takes the active epoch down |
| RotationDriver.OldKeyKeepsItsGrace | crates/wiremesh-controller/src/services/sync.rs:1018-1372 | however rotations stack, a demoted key is deleted no earlier than 30s later unless the controller restarted since |
| RotationDriver.SeedTracks | crates/wiremesh-controller/src/services/sync.rs:1018-1080 | a drive that meets a pending row no tracker speaks for starts its clock at that moment and does nothing else |
| RotationDriver.SentinelDeadline | crates/wiremesh-controller/src/rotation.rs:91-100 | from then, through any sweeps, drives, acks and other keys, a row still without a key survives every step before 300s; a sweep leaves it iff 300s have not passed |
| RotationDriver.KeyedDeadline | crates/wiremesh-controller/src/rotation.rs:104-135 | likewise a keyed row has become the active one by the first sweep at or after 90s, and is pending no longer |
| RotationDriver.KeyedNotBefore | crates/wiremesh-controller/src/rotation.rs:104-135 | while some expected peer withholds its ack a keyed row stays pending through every step before 90s |
| RotationDriver.SentinelAbortsExactly | crates/wiremesh-controller/src/rotation.rs:91-100 | one drive: a rotation without a key is dropped iff 300s have passed, and otherwise nothing changes |
| RotationDriver.KeyedPromotesExactly | crates/wiremesh-controller/src/rotation.rs:104-135 | one drive: a keyed rotation is promoted iff all connected peers acknowledged or 90s passed, and otherwise nothing changes |
| RotationDriver.EveryRotationEnds | crates/wiremesh-controller/src/services/sync.rs:1444-1593 | from any reachable state, whatever sweeps, drives, keys, acks and restarts come and at whatever spacing, every rotation has ended once the run holds two sweeps 300s apart per pending row and two more, plus one per restart |
| RotationDriver.ActiveOnlyRises | crates/wiremesh-controller/src/services/sync.rs:1609-1660 | if each rotation was begun with none pending, retiring rows allowed, then no step, restarts, aborts and stale messages included, lowers the active epoch |
| RotationDriver.LiveIsNewest | crates/wiremesh-controller/src/services/sync.rs:343-354 | the live rotation is the newest pending row |
| RotationDriver.RunIsSound | crates/wiremesh-controller/src/services/sync.rs:381-396 | a tracker always speaks for a row that exists, and without one every retiring row is past its grace or orphaned by a restart |
| RotationDriver.StackedRotationLowersActive | crates/wiremesh-controller/src/services/sync.rs:343-354 | from any sound state with a row pending, beginning another and keying it and the newest of those promotes the new one, then the older, and the active epoch falls; the other pending rows are left as they were |
| RotationDriver.TwoBeginsLowerActive | crates/wiremesh-controller/src/services/sync.rs:343-354 | the run from enrollment: two begins, both keys, and the active epoch goes to two and back to one |
| RotationDriver.BeginSafeIff | crates/wiremesh-controller/src/services/sync.rs:343-354 | from any sound state, after a begin no continuation lowers the active epoch iff no row was pending at that begin |
| KeyStore.EpochKeys.GenerateNextAt | crates/wiremesh-gateway/src/epochkeys.rs:125-161 | replaces a pending occupant, refuses a live one and then changes nothing |
| KeyStore.EpochKeys.Promote | crates/wiremesh-gateway/src/epochkeys.rs:276-298 | pending to active, the old active to retiring; refusal changes nothing |
| KeyStore.EpochKeys.Retire | crates/wiremesh-gateway/src/epochkeys.rs:304-316 | removes a retiring epoch; refusal changes nothing |
| KeyStore.EpochKeys.DiscardPending | crates/wiremesh-gateway/src/epochkeys.rs:339-351 | removes a pending epoch; refusal changes nothing |
| KeyStore.EpochKeys.SelectBootKey | crates/wiremesh-gateway/src/epochkeys.rs:246-261 | the stored active key, else the enrollment key |
| KeyStore.RunIsGood | crates/wiremesh-gateway/src/epochkeys.rs:43-61 | through any edits, persists and crashes: one entry per epoch and exactly one active key, in memory and on disk |
| KeyStore.RemovesExactly | crates/wiremesh-gateway/src/epochkeys.rs:80-161 | a private key leaves the store by retiring, discarding or minting over it, and in no other way |
| KeyStore.GoneForGood | crates/wiremesh-gateway/src/epochkeys.rs:1-24 | a key in neither memory nor file never comes back |
| KeyStore.ScrubIsFinal | crates/wiremesh-gateway/src/epochkeys.rs:299-316 | a removal followed by a persist destroys the key through any further run; through any run without a persist, a crash brings it back iff it was on disk |
| KeyStore.BootsOnLastPersistedActive | crates/wiremesh-gateway/src/epochkeys.rs:214-261 | a reboot runs on the key that was active at the last persist, never on a pending one |
| RotationSystem.CurrentMintNeverRefused | crates/wiremesh-gateway/src/epochkeys.rs:104-136 | in every run with crashes, restarts, aborts, lost and repeated messages in which each rotation begins with none alive (pending with a key, a directive or a submission out), a mint at the epoch the controller waits for is accepted |
| RotationSystem.MintSafeIff | crates/wiremesh-gateway/src/epochkeys.rs:104-136 | after a begin no continuation leaves an awaited epoch refused iff no other rotation was alive at that begin |
| RotationSystem.DirectiveIsCurrent | crates/wiremesh-controller/src/broker.rs:513-570 | a directive names the newest row, awaiting its key, above every key accepted before |
| RotationSystem.AwaitingIsAbove | crates/wiremesh-controller/src/db.rs:2047-2059 | an epoch that awaits its key and can still get it lies above every row and every key ever accepted |
| RotationSystem.RefusedMeansStale | crates/wiremesh-gateway/src/main.rs:4834-4887 | a refused mint convicts the directive: its row is keyed or gone, and its epoch was accepted before or is the enrolled one |
| RotationSystem.StackedRotationWedgesMint | crates/wiremesh-gateway/src/epochkeys.rs:125-136 | from any sound state with a rotation alive, a begin and a run after it end with the controller awaiting an epoch the gateway refuses to mint |
| RotationSystem.TwoBeginsWedgeMint | crates/wiremesh-gateway/src/epochkeys.rs:125-136 | the same from enrollment: one rotation begun and its directive sent, another begun on top |
| RotationSystem.AcceptedIsHeld | crates/wiremesh-controller/src/services/sync.rs:2284-2307 | what the session check buys: in every run in which the controller stays up and no gateway process mints twice at one epoch, with gateway crashes, aborts, re-issued numbers and late keys of dead processes, the public key accepted for an epoch is that of the private key the gateway holds for it |
| RotationSystem.AcceptedIsHeldThroughRestarts | crates/wiremesh-controller/src/services/sync.rs:2284-2307 | if no number is minted at twice at all, the same holds through controller restarts |
| RotationSystem.MintAgreesIff | crates/wiremesh-controller/src/services/sync.rs:644-667 | with the check in force, after a mint at an awaited epoch the two sides agree on that epoch through every continuation iff this process sent no other key for it |
| RotationSystem.RestartOpensTheCheck | crates/wiremesh-controller/src/services/sync.rs:620-631 | right after a controller restart the key of an earlier process is taken, and the controller advertises one the gateway does not hold |
| RotationSystem.StaleKeyAccepted | crates/wiremesh-controller/src/services/sync.rs:620-631 | the run from enrollment: mint, gateway crash, second directive, second mint, controller restart, and the first key is taken |
| RotationSystem.MintAgreesThroughRestartsIff | crates/wiremesh-controller/src/services/sync.rs:595-667 | with controller restarts, they agree on that epoch through every continuation that mints nowhere twice iff no process ever sent another key for it |
| PunchBroker.Broker.OnReport | crates/wiremesh-controller/src/broker.rs:327-413 | stores the report and serves the settled-to-unsettled edges in ascending order |
| PunchBroker.Broker.Emit | crates/wiremesh-controller/src/broker.rs:740-815 | both directives iff both are connected, have candidates and are not settled |
| PunchBroker.Broker.EmitOnBudget | crates/wiremesh-controller/src/broker.rs:824-840 | within the budget, one attempt charged per full success |
| PunchBroker.Broker.PunchPeers | crates/wiremesh-controller/src/broker.rs:666-681 | reset and punch each peer in turn |
| PunchBroker.Broker.PeriodicSweep | crates/wiremesh-controller/src/broker.rs:684-703 | each connected pair once, from its lower id |
| PunchBroker.Broker.OnGatewayConnected | crates/wiremesh-controller/src/broker.rs:580-583 | forgets what the gateway reported, then punches its peers |
| PunchBroker.Broker.RegisterChannel | crates/wiremesh-controller/src/broker.rs:444-457 | the newest channel owns the entry and no other gateway's entry moves |
| PunchBroker.Broker.GuardDropped | crates/wiremesh-controller/src/broker.rs:901-912 | an owner's guard takes its entry away; a superseded guard leaves the newer channel in place; no other gateway's entry moves |
| PunchBroker.EdgesExact | crates/wiremesh-controller/src/broker.rs:340-392 | over all peers, the edge list is exactly those whose pair went from settled to unsettled |
| PunchBroker.OnlyAffectedChange | crates/wiremesh-controller/src/broker.rs:345-360 | no pair outside the reporter and its affected peers changes status |
| PunchBroker.TrackedAlwaysUpdated | crates/wiremesh-controller/src/broker.rs:374-383 | a tracked peer always gets its last reported state, cap or not |
| PunchBroker.PutCapped | crates/wiremesh-controller/src/broker.rs:374-383 | never more than 4096 peers per reporter; below that all are stored |
| PunchBroker.SettledGetNothing | crates/wiremesh-controller/src/broker.rs:740-770 | whatever the event, no directive and no charge goes to a settled pair |
| PunchBroker.EdgeIsPunched | crates/wiremesh-controller/src/broker.rs:394-413 | a pair that falls off settled is punched both ways at once and gets its budget back |
| PunchBroker.BudgetHolds | crates/wiremesh-controller/src/broker.rs:824-849 | over any run a pair's count is its periodic successes since its last reset, never above five |
| PunchBroker.RegistryIsLatestLive | crates/wiremesh-controller/src/broker.rs:437-457 | a gateway is registered iff its most recent registration's guard lives |
| Fabric.InsertCidrs | crates/wiremesh-controller/src/db.rs:429-482 | succeeds iff no CIDR overlaps a sibling or another segment; the error names a segment truly in the way |
| Fabric.Db.CreateSegment | crates/wiremesh-controller/src/db.rs:895-928 | a new, non-empty, non-overlapping segment, or no change |
| Fabric.Db.DeleteSegment | crates/wiremesh-controller/src/db.rs:2645-2690 | only an existing segment without gateways, else no change |
| Fabric.Db.ApplySegment | crates/wiremesh-controller/src/db.rs:1016-1106 | unchanged, replaced or created, as declared |
| Fabric.Db.ApplyFabric | crates/wiremesh-controller/src/db.rs:992-1277 | the whole apply or nothing: any error leaves every table and the revision as they were |
| Fabric.DisjointIffOwnedOnce | crates/wiremesh-controller/src/db.rs:416-428 | pairwise non-overlap is exactly one owner per address |
| Fabric.RunKeepsDisjoint | crates/wiremesh-controller/src/db.rs:429-499 | after any run of creates, deletes and applies each address is in at most one registered CIDR |
| Fabric.RerunIsNoOpIff | crates/wiremesh-controller/src/db.rs:930-991 | re-running a successful apply writes nothing iff entries that share a name agree |
| Fabric.RerunWrites | crates/wiremesh-controller/src/db.rs:1016-1106 | the run: a segment named twice with different CIDRs is accepted, and the same apply again writes twice more |
| Fabric.VersionsGrowByFingerprint | crates/wiremesh-controller/src/db.rs:1118-1238 | one new version iff the compiled fingerprint differs from the latest, carrying that fingerprint |
| Fabric.RevisionMovesIffChanged | crates/wiremesh-controller/src/db.rs:1239-1275 | revision and audit log move iff something changed |
| Fabric.EmptyAfterApplyIff | crates/wiremesh-controller/src/db.rs:1058-1077 | after an apply a segment has no CIDRs iff its last declaration says so, or it had none and was not declared |
| Fabric.EmptySegmentStored | crates/wiremesh-controller/src/db.rs:484-499 | one create and one apply store a segment without CIDRs |
| Enrollment.ResolveSegment | crates/wiremesh-controller/src/db.rs:1566-1588 | a segment iff one owns every declared CIDR |
| Enrollment.Store.SelectToken | crates/wiremesh-controller/src/db.rs:1498-1522 | the first unused, unexpired token of the right kind |
| Enrollment.Store.EnrollGateway | crates/wiremesh-controller/src/db.rs:1481-1741 | the full transaction and its exact error; the serials returned are exactly those newly revoked |
| Enrollment.Store.EnrollRelay | crates/wiremesh-controller/src/db.rs:1780-1850 | spends a relay token for one relay and its certificate, or nothing |
| Enrollment.Store.DrainGateway | crates/wiremesh-controller/src/db.rs:2328-2384 | marks the gateway removed and revokes what it still holds |
| Enrollment.Store.RevokeCert | crates/wiremesh-controller/src/db.rs:2397-2435 | revokes once, keeping the first time stamp |
| Enrollment.OneTokenPerEnrollment | crates/wiremesh-controller/src/db.rs:1464-1472 | over any run the tokens spent number exactly the gateways and relays admitted |
| Enrollment.SpentStaysSpent | crates/wiremesh-controller/src/db.rs:1698-1711 | a spent token is never redeemed again |
| Enrollment.GatewaysStaySound | crates/wiremesh-controller/src/db.rs:1595-1660 | at most one active gateway per segment; replaced and removed gateways hold only revoked certificates |
| Enrollment.RevocationIsPermanent | crates/wiremesh-controller/src/db.rs:2386-2410 | a revoked certificate stays revoked, down to its time stamp |
| Enrollment.TokenScope | crates/wiremesh-controller/src/db.rs:1524-1660 | a gateway token enters with exactly its bound CIDRs on a free segment; a rebind token only its own segment |
| Enrollment.RebindTouchesOwnSegmentOnly | crates/wiremesh-controller/src/db.rs:1595-1646 | a rebind changes no gateway or certificate of another segment |
| Enrollment.RebindReplacesOccupant | crates/wiremesh-controller/src/db.rs:1618-1652 | the occupant is replaced and all its certificates revoked |
| Projection.AdvertisesExactly | crates/wiremesh-controller/src/projection.rs:43-55 | advertised are exactly the rows not awaiting a key |
| Projection.NoAwaitedKeyAdvertised | crates/wiremesh-controller/src/projection.rs:256-432 | no delta of any kind carries a key still awaited |
| Projection.RelaySeesOnlyRevocations | crates/wiremesh-controller/src/projection.rs:600-634 | a relay is sent the gateway delta with all but the revocations erased, or nothing |
| Projection.AnnouncedCarries | crates/wiremesh-controller/src/projection.rs:570-599 | the unrevoked certificates of the gateways that leave are exactly what the transaction newly revokes and what its broadcast carries, plus the serial a repeated revoke names again |
| Projection.DenylistIsRevokedSet | crates/wiremesh-controller/src/services/sync.rs:1881-1960 | over any interleaving, a drained live stream leaves the relay with exactly the revoked set, less only skipped broadcasts; it never denies what is not revoked |

## Left out

- Machine integers: counters, revisions, epochs and versions are unbounded; 64-bit and 32-bit wrap-around is not modelled, except the signed reading of peer ids in reports.
- Flow table, conntrack, idle timeouts, rate caps and deny-event sampling: the verdict is for a packet of a new flow.
- nftables text: the chain is a list of matches; the established/related shortcut line, table replacement and counter pruning are not modelled.
- gRPC, TLS, sockets, SQLite, bpffs, process spawning and file permissions: each transaction and each map write is one atomic step.
- The YAML policy parser and compiler: an arbitrary function of source and segment table; only the port checks it enforces are stated (`CompilerPorts`).
- PolicyWorker: the retry backoff and channel close are not modelled; a pause may end at any time, which allows more behaviour than the code has. An install is one step under the map lock in which the clock stands still, and a rotation insert applies the mailbox's current value, as the gateway's sync loop does.
- RotationDriver: decision, transaction and tracker update are one step, and the driver is a function on values; races between concurrent drivers are covered for the table only (`AlwaysOneActive`), not for the tracker's grace.
- RotationSystem: gateways without a process nonce, for which the session check is always open, are not modelled; nonces are taken to be distinct. Submitted keys may arrive at any time and more than once.
- PunchBroker: checking and sending a directive pair is one step, so a pair that settles between the check and the send is not modelled.
- RuleCounters.ReportIsHistory: fold, prune and flip are one step with respect to hits; `WindowHitExact` says what the window between them does.
- KeyStore: the public half of a key appears only in `RotationSystem`, as a function of the private one, and the enrollment key's own file is not modelled.
- Enrollment: token secrets and hashes are opaque; a stored bound-CIDR list that does not parse is not modelled; name and serial clashes are one error.
- Fabric: segment ids and the order of rows are not modelled; the error for an overlap names some segment in the way, the code names the first it reads.
- Gateway snapshots versus deltas: `GatewayEnrolled` deliberately carries no keys, so their equality is not promised and not claimed.
- Interface names, hex helpers, metrics, version checks, CLI text: they would add only easy members.

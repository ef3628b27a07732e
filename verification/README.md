# A verification model of rust-cardano

This project models, in Dafny, the parts of rust-cardano that carry the most state and arithmetic, and proves what
they promise: block storage with fast links, transaction building with change, the garbage-collected set of ledger
states, chain states stored as deltas, key derivation, storage files, the mock ledger, the hash array mapped trie and
the Merkle tree.

`dafny verify dfyconfig.toml` checks everything.

| part | files | main results |
|---|---|---|
| block store | `SkipLinks.dfy`, `BlockStore.dfy` | every back link of distance d is the d-th ancestor; ancestor walks equal the parent walk; logarithmic number of hops below distance 2^31 - 1 and a bound for every distance; a range iterator yields each block of the range once, in order |
| change | `Coin.dfy`, `TxBuild.dfy`, `LinearChange.dfy` | the search for the change ends for every fee, and its outcome is characterised for every fee that never falls; with the default fee, exactly when it gives up although a change was affordable |
| multiverse | `GcPlan.dfy`, `Multiverse.dfy` | indices agree and roots stay present over every call; what a collection keeps is logarithmic, near everything dropped, and stable under a second collection; when reconstruction from storage is a replay |
| chain states | `EpochTree.dfy`, `MapDiff.dfy`, `ChainStates.dfy` | every epoch reads back as written, from popcount + 1 files; restoring equals replaying from genesis, whatever is on disk |
| keys | `Bytes.dfy`, `HdWallet.dfy` | byte loops compute sums modulo 2^256; scalars stay in range on paths of up to 2^26 steps; public and private derivation commute |
| files | `Records.dfy`, `Files.dfy`, `Bloom.dfy`, `IndexFile.dfy`, `PackFile.dfy`, `Storage.dfy` | records read back, cut files read as a prefix, the bloom filter has no false negatives, an index lookup finds the first append or nothing, packs and loose blocks together return the first block of a hash |
| ledger | `MapSum.dfy`, `Accounts.dfy`, `Utxos.dfy`, `SpendingMessages.dfy`, `Ledger.dfy`, `Genesis.dfy`, `LedgerLaws.dfy`, `LedgerSafety.dfy` | the first ledger holds exactly the outputs and accounts that block 0 declares; total value changes by outputs minus inputs over every run; no output is consumed twice; counters run 0, 1, 2, … and no signed message is accepted twice; which inputs are accepted and which should be |
| trie | `SparseArray.dfy`, `HashLevels.dfy`, `LeafContent.dfy`, `Hamt.dfy`, `HamtIteration.dfy` | insert, update, remove, replace, lookup and size refine the operations of a finite map, for every hash function; iteration yields each pair once |
| Merkle tree | `Merkle.dfy` | equal roots come from equal lists or exhibit a hash collision; heights and perfect left parts |

`Wrappers.dfy`, `Powers.dfy` and `Sets.dfy` hold shared definitions. Automatic induction is switched off for all
lemmas, so that every induction is written out.

Hashes, signatures, curve points, CBOR encodings of unmodelled types and block verification are parameters. A panic
of the source is an error value of its own where callers can reach it. Where fixed-width arithmetic can overflow in
the fee, the collector and the fanout, a build with overflow checks and a build that wraps around are both modelled.

## Where the code differs from what it promises

- The search for the change (`cardano/src/txbuild.rs`) reports a negative coin for some small leftovers although a
  change was affordable, and an amount out of bounds for some inputs near the maximal supply.
  `LinearChange.DefaultFeeOvershoots` says exactly for which, `LinearChange.SearchFailsOnSmallLeftover` gives a leftover
  for every transaction, `LinearChange.SmallLeftoverExample` and `LinearChange.AllCoinsExample` one of each in numbers.
- Fast links (`chain-storage/src/store.rs`) are at most 2^31 - 1 long, so the logarithmic bound of the design holds
  below that distance only: `SkipLinks.HopsAtLeast` is the linear lower bound, `SkipLinks.HopsAtMost` the upper one,
  and `SkipLinks.LogarithmicBoundFails` a distance past the logarithmic one.
- `diff_maps` compares keys only, so a stored delta reads back exactly when common outputs agree
  (`MapDiff.PatchRoundTrip`, `ChainStates.DeltaReadsBack`).
- `parent_for_epoch` reaches its unreachable end at epoch 2^63 and nowhere else (`EpochTree.ParentForEpoch`).
- `Multiverse::insert` keeps its two indices in agreement exactly when the chain length it is given is that of the
  state it leaves (`Multiverse.InsertKeepsAgreement`, with the input of `Multiverse.MismatchedInsert`).
- The milli arithmetic of the fee wraps: `Fee.ExactMilli` says exactly for which sizes it gives the affine fee. The
  estimate is monotone there and can fall elsewhere (`Fee.EstimateMonotone`, `Fee.EstimateCanFall`). Overflow checks
  turn some of the other sizes into panics, but not those where only the product is cut (`Fee.ChecksMissTheCast`).
- `Multiverse::get_from_storage` records the requested block at every step back, and so applies it as often as blocks
  are missing. With the blocks of the ledger, and an update that changes some settings, this is right whatever the
  blocks contain exactly when at most one is missing
  (`LedgerReplay.RightIffOneBlock`, with the input of `LedgerReplay.LostUpdateExample`).
- The scan of the collector adds 50 to a 32-bit chain length. It overflows exactly when no length lies within the
  suffix of the longest chain and below 2^32 - 50 (`Multiverse.Multiverse.FindGarbage`, `GcPlan.ScanFits`); without
  overflow checks no suffix is then left alone, and it can be thinned (`GcPlan.WrappedScanThinsSuffix`).
- `dump_file` lists the hashes of an index from byte 1032 on, inside the fanout, instead of from the hash table
  (`IndexFile.DumpIsRightIff`, `IndexFile.DumpIsWrong`).
- The second hash of the bloom filter starts again at every byte, so it depends on the last byte only
  (`Bloom.SecondPositionIsLastByte`). The filter still has no false negatives (`Bloom.FilterFinds`).
- The balance check of the ledger sums the inputs on both sides, so unequal sums are accepted
  (`LedgerAccounting.NeverUnbalanced`, `LedgerAccounting.ValueFromNothing`), and value is conserved exactly when the
  sums are equal (`LedgerAccounting.ConservedIffBalanced`).
- The message that an account witness signs is built by writing into an empty vector, which panics
  (`SpendingMessages.AsWrittenPanics`). So no transaction that spends from an account is accepted
  (`SpendingCounters.NoAccountInput`, with the input of `SpendingCounters.AccountInputPanics`). The ledger is modelled
  with this message and with the intended one; what the counters are for is proved with the intended one
  (`SpendingCounters.NoReplay`, `SpendingCounters.NoReplayInRun`).
- The legacy public key check rejects a key that does match the address (`chain-impl-mockchain/src/ledger.rs`, line
  477). `DoubleSpend.LegacyAcceptedIff` says which legacy inputs are accepted, `DoubleSpend.OwnerRefused` and
  `DoubleSpend.StrangerAccepted` are inputs, and `DoubleSpend.AcceptedIffAuthorised` shows that, with the intended
  message for account inputs, no other verdict on an input is wrong.
- The writer of a pack file accepts blocks that its reader refuses: `PackFile.BlockAtItsOffset` has both cases.

## Model

| member | source | states |
|---|---|---|
| `SkipLinks.ComputeFastLink` | chain-storage/src/store.rs:292-300 | the fast link skips the jump of depth modulo 32, and is 0 exactly when that jump would pass the first block |
| `SkipLinks.HopOnce` | chain-storage/src/store.rs:164-177 | one hop of the walk never overshoots and leaves a walk that costs one hop less |
| `SkipLinks.LogarithmicHops` | chain-storage/src/store.rs:144-181 | a walk over a distance n below 2^31 - 1 follows at most 61 + 4·log2(n + 1) links, from any depth |
| `SkipLinks.HopsAtMost` | chain-storage/src/store.rs:144-181 | a walk over any distance n follows at most 207 + 2·(n / 2^31) links |
| `SkipLinks.HopsAtLeast` | chain-storage/src/store.rs:292-300 | no walk follows fewer than n / (2^31 - 1) links |
| `SkipLinks.LogarithmicBoundFails` | chain-storage/src/store.rs:144-181 | at distance 2^39 the walk takes more than 61 + 4·log2(n + 1) links, from every depth |
| `BlockStore.BackLinksPointAtAncestors` | chain-storage/src/store.rs:5-37 | a back link of distance d names the d-th parent of its block |
| `BlockStore.NewInfoIsValid` | chain-storage/src/store.rs:49-92 | adding a block keeps the store valid and puts the new block one step after its parent |
| `BlockStore.BestLinkHop` | chain-storage/src/store.rs:164-177 | the greedy choice among the back links is the hop of the skip-link walk |
| `BlockStore.StepsBackUnique` | chain-storage/src/store.rs:186-220 | an ancestor is at one distance only |
| `BlockStore.MemoryBlockStore.constructor` | chain-storage/src/memory.rs:18-23 | a new store is empty and valid |
| `BlockStore.MemoryBlockStore.PutBlock` | chain-storage/src/store.rs:49-92 | known blocks change nothing, a missing parent is an error, any other block is added one step after its parent; the store stays valid exactly when no block is stored under the zero hash |
| `BlockStore.MemoryBlockStore.GetPathToNthAncestor` | chain-storage/src/store.rs:144-181 | the result is the information of the n-th parent; the visited blocks lie on the parent walk; their number has the two bounds above |
| `BlockStore.MemoryBlockStore.IsAncestor` | chain-storage/src/store.rs:186-220 | returns n exactly when the ancestor is n parent steps back; errors exactly on unknown blocks |
| `BlockStore.MemoryBlockStore.IterateRange` | chain-storage/src/store.rs:225-244 | succeeds exactly when the start is an ancestor of the end, and gives an iterator over that distance |
| `BlockStore.OnWalkElements` | chain-storage/src/store.rs:256-287 | the blocks pushed by a walk are ancestors of its start, with strictly decreasing depths |
| `BlockStore.StackPop` | chain-storage/src/store.rs:259-286 | the pending stack keeps its shape when the next block is popped, and that block is the next one of the range |
| `BlockStore.StackPush` | chain-storage/src/store.rs:259-286 | the pending stack keeps its shape when the visited path is pushed |
| `BlockStore.BlockIterator.constructor` | chain-storage/src/store.rs:225-254 | starts the given distance before the end of the range |
| `BlockStore.BlockIterator.Next` | chain-storage/src/store.rs:256-287 | yields the block one deeper than the last one, or nothing after the end; never an error |
| `BlockStore.BlockIterator.SearchBack` | chain-storage/src/store.rs:267-283 | walking back from the top of the stack finds the next block of the range |
| `BlockStore.CollectRange` | chain-storage-sqlite/examples/import.rs:107-116 | iterating yields exactly the blocks of (from, to], once each, in increasing depth |
| `Coin.Add` | cardano/src/coin.rs:145-150 | the sum, or an error exactly when it is too large |
| `Coin.AddSubRoundTrip` | cardano/src/coin.rs:145-166 | subtraction undoes exactly the additions that stay within the maximal supply |
| `Coin.DifferentialLeadsBack` | cardano/src/coin.rs:108-166 | adding or subtracting the difference, as its sign says, succeeds and gives back the first amount; exchanging the amounts exchanges the sign |
| `Coin.SumCoins` | cardano/src/coin.rs:203-208 | the total, or an error exactly when the total is too large |
| `Fee.ToIntegral` | cardano/src/fee.rs:70-77 | rounds up to the next whole unit |
| `Fee.ExactMilli` | cardano/src/fee.rs:62-132 | the 64-bit milli arithmetic gives constant + coefficient · size exactly when that fits, and the size in thousandths too unless the coefficient is zero |
| `Fee.EstimateMonotone` | cardano/src/fee.rs:127-132 | where nothing wraps, a larger transaction never costs less |
| `Fee.EstimateCanFall` | cardano/src/fee.rs:86-132 | where the product is cut, a larger transaction can cost less, also with overflow checks |
| `Fee.CheckedIsSame` | cardano/src/fee.rs:62-132 | in a build with overflow checks, a fee that is not a panic is the same |
| `Fee.ChecksMissTheCast` | cardano/src/fee.rs:62-132 | such a fee is exact exactly when the product fits in 64 bits, because its cast is not checked |
| `TxBuild.BalanceIsSlack` | cardano/src/txbuild.rs:250-257 | the balance succeeds exactly when no total overflows, and is inputs minus outputs minus fee |
| `TxBuild.Search.SlackFalls` | cardano/src/txbuild.rs:146-213 | a greater change leaves less, by at least the difference, for every fee that never falls |
| `TxBuild.Search.GreatestBelow` | cardano/src/txbuild.rs:155-210 | an affordable change whose successor is not affordable is the greatest one |
| `TxBuild.Search.GreatestExact` | cardano/src/txbuild.rs:155-210 | a change that leaves nothing is the greatest one |
| `TxBuild.SearchChange` | cardano/src/txbuild.rs:175-210 | the loop ends for every fee, and a change it finds is affordable and exact, one below the leftover, or one below a value that is too much; for a fee that never falls, the exact outcome: the greatest affordable change, one coin below it in the stated case, or the error of the stated case |
| `TxBuild.TxBuilder.ApplyPolicyWith` | cardano/src/txbuild.rs:122-135 | appends one output with the leftover to the change address |
| `TxBuild.TxBuilder.AddOutputPolicy` | cardano/src/txbuild.rs:146-213 | for every fee, every outcome by the balance: the errors, no change when nothing is left, or what the search finds; outputs change only on success |
| `LinearChange.UintLengthIsShortest` | cardano/src/coin.rs:135-137 | the encoding of an amount is the shortest of section 2.1 of RFC 7049 that holds it |
| `LinearChange.LinearFeeGrows` | cardano/src/fee.rs:143-161 | the linear fee of the encoded size meets the condition of the search, where nothing wraps |
| `LinearChange.ProbeFailsIff` | cardano/src/txbuild.rs:155-210 | the greatest value tried fails exactly when the inputs and the fee step of its encoded length pass the maximal supply |
| `LinearChange.DefaultFeeOvershoots` | cardano/src/txbuild.rs:155-210 | with the default fee, the search gives up exactly for leftovers from 23 to three below the price of a byte, and for inputs so close to the maximal supply that the greatest value tried passes it with its fee |
| `LinearChange.AffordableDespiteError` | cardano/src/txbuild.rs:155-210 | in all cases where the search gives up, a change of 23 coins was affordable |
| `LinearChange.DefaultFindsChange` | cardano/src/txbuild.rs:155-210 | a change is found exactly outside these two cases |
| `LinearChange.DefaultChangeIsExact` | cardano/src/txbuild.rs:155-210 | with the default fee, a change that is found is the greatest one, and uses up everything unless one coin more takes more bytes |
| `LinearChange.SearchFailsOnSmallLeftover` | cardano/src/txbuild.rs:146-213 | for all outputs, every change address and every size of the rest, the search gives up on the input that leaves 23 coins, although a change of 23 was affordable |
| `LinearChange.SmallLeftoverExample` | cardano/src/txbuild.rs:146-213 | for a change address of 43 bytes and 200 further bytes, that input is 166172 coins |
| `LinearChange.AllCoinsExample` | cardano/src/txbuild.rs:146-213 | with one input of the maximal supply and a change address of 43 bytes the greatest value tried is out of bounds, although 23 coins were affordable |
| `GcPlan.ThinnedIsNearKept` | chain-impl-mockchain/src/multiverse.rs:161-199 | a dropped length c has a kept length d < c with c - d < longest - c |
| `GcPlan.KeptHalves` | chain-impl-mockchain/src/multiverse.rs:161-199 | each length kept before the suffix halves the distance to the longest chain |
| `GcPlan.KeptIsLogarithmic` | chain-impl-mockchain/src/multiverse.rs:161-199 | the lengths kept before the suffix are at most log2(longest) - 4 |
| `GcPlan.ToKeepAfter` | chain-impl-mockchain/src/multiverse.rs:161-199 | dropping thinned lengths does not change the plan |
| `GcPlan.ScanFits` | chain-impl-mockchain/src/multiverse.rs:171-178 | the 32-bit addition of the scan does not overflow while the longest chain is below 2^32 - 50 |
| `GcPlan.WrappedScanThinsSuffix` | chain-impl-mockchain/src/multiverse.rs:171-190 | three lengths for which the addition wraps around and one 39 below the longest is thinned |
| `Multiverse.AgreeDetermines` | chain-impl-mockchain/src/multiverse.rs:35-47 | the index by hash determines the index by chain length |
| `Multiverse.InsertKeepsAgreement` | chain-impl-mockchain/src/multiverse.rs:122-129 | insertion keeps the indices in agreement exactly when the chain length given is that of the state it leaves: the one already there, or the new one |
| `Multiverse.MismatchedInsert` | chain-impl-mockchain/src/multiverse.rs:122-155 | a new block under length 7 with a state of length 3 is listed where deletion does not look |
| `Multiverse.RemoveKeepsAgreement` | chain-impl-mockchain/src/multiverse.rs:139-156 | deletion keeps the indices in agreement |
| `Multiverse.GCRoot.constructor` | chain-impl-mockchain/src/multiverse.rs:57-64 | one more live root, and counts that still match the live roots |
| `Multiverse.GCRoot.Drop` | chain-impl-mockchain/src/multiverse.rs:74-89 | one live root less, and counts that still match; the unreachable arms are not reached |
| `Multiverse.Multiverse.constructor` | chain-impl-mockchain/src/multiverse.rs:92-99 | a new multiverse is empty and valid |
| `Multiverse.Multiverse.MakeRoot` | chain-impl-mockchain/src/multiverse.rs:101-104 | a live root for a state that is present |
| `Multiverse.Multiverse.GetFromRoot` | chain-impl-mockchain/src/multiverse.rs:110-114 | the state of every live root is present |
| `Multiverse.Multiverse.Insert` | chain-impl-mockchain/src/multiverse.rs:122-129 | the block is listed under the length given, its state kept unless it has one, and pinned by a new root; the multiverse stays valid exactly when the length is that of the state kept |
| `Multiverse.Multiverse.Add` | chain-impl-mockchain/src/multiverse.rs:132-137 | the state is inserted under its own chain length and pinned; the multiverse stays valid exactly when a known block keeps its chain length |
| `Multiverse.Multiverse.Delete` | chain-impl-mockchain/src/multiverse.rs:139-156 | takes out that state and keeps the indices in agreement; its assertions hold |
| `Multiverse.Multiverse.FindGarbage` | chain-impl-mockchain/src/multiverse.rs:162-192 | the loop gathers exactly the unpinned states of the dropped lengths, once each, with and without overflow checks; with checks it panics exactly when no length lies within the suffix of the longest and below 2^32 - 50 |
| `Multiverse.Multiverse.Gc` | chain-impl-mockchain/src/multiverse.rs:161-199 | removes exactly the garbage, and every pinned state stays; where the 32-bit addition overflows, a build with overflow checks panics with everything in place, and one without leaves no suffix alone |
| `Multiverse.Unpinned` | chain-impl-mockchain/src/multiverse.rs:184-189 | the hashes of a length without a root, once each |
| `Multiverse.SecondGcRemovesNothing` | chain-impl-mockchain/src/multiverse.rs:161-199 | collecting again right away removes nothing |
| `Multiverse.SuffixAfterGc` | chain-impl-mockchain/src/multiverse.rs:161-199 | the suffix that is left alone is the same for the second collection |
| `Multiverse.LengthsAfterGc` | chain-impl-mockchain/src/multiverse.rs:161-199 | the longest chain stays, and only thinned lengths disappear |
| `Multiverse.GarbageIsNearKept` | chain-impl-mockchain/src/multiverse.rs:161-199 | every removed state has a wholly kept length nearer to it than the longest chain is |
| `Multiverse.UnpinnedIsLogarithmic` | chain-impl-mockchain/src/multiverse.rs:161-199 | after a collection the unpinned lengths before the suffix are at most log2(longest) - 4 |
| `Multiverse.SingleTimelineSize` | chain-impl-mockchain/src/multiverse.rs:277-345 | on a single timeline at most 50 + log2(longest) states are left |
| `FromStorage.WalkBack` | chain-impl-mockchain/src/multiverse.rs:219-235 | the walk ends at the nearest ancestor in memory, with the requested block recorded once for every block passed |
| `FromStorage.GetFromStorage` | chain-impl-mockchain/src/multiverse.rs:204-252 | the root is for the requested block, whose state is the one in memory or the requested block applied as often as blocks were missing; the multiverse stays valid |
| `FromStorage.RightForOneBlock` | chain-impl-mockchain/src/multiverse.rs:204-252 | with at most one missing block this is the replay of the missing blocks, whatever applying a block does |
| `LedgerReplay.UpdateIsLost` | chain-impl-mockchain/src/multiverse.rs:204-252 | where two blocks or more are missing, an update of the settings in the first one is lost |
| `LedgerReplay.LostUpdateExample` | chain-impl-mockchain/src/multiverse.rs:204-252 | the same for block 1 with an update and block 2 without messages, at any ledger |
| `LedgerReplay.ExamplePath` | chain-impl-mockchain/src/multiverse.rs:219-235 | these are the missing blocks where their parent is the one block in memory |
| `LedgerReplay.RightIffOneBlock` | chain-impl-mockchain/src/multiverse.rs:204-252 | with the blocks of the ledger it is the replay, for every base state and all contents of the missing blocks, exactly when at most one block is missing, given that some update changes some settings |
| `EpochTree.ParentForEpoch` | storage/src/chain_state.rs:237-247 | the parent of an epoch is the epoch without its lowest bit, and the end of the loop is reached at 2^63 only |
| `EpochTree.ClearLowestPopCount` | storage/src/chain_state.rs:237-247 | one step towards the root of the epoch tree takes away one bit |
| `MapDiff.DiffMaps` | cardano/src/util/diff_maps.rs:6-53 | the merge finds exactly the keys only in the first map and the pairs only in the second |
| `MapDiff.PatchRoundTrip` | cardano/src/util/diff_maps.rs:6-53 | applying the difference gives the second map exactly when common keys carry equal values |
| `ChainStates.DateRoundTrip` | storage/src/chain_state.rs:64-110 | the stored slot number gives back the date of the last block |
| `ChainStates.DeltaApplies` | storage/src/chain_state.rs:64-181 | applying a stored delta never panics, and gives the target exactly when common outputs agree |
| `ChainStates.FilesReadIsPopCount` | storage/src/chain_state.rs:144-181 | reading a state opens as many files as its epoch has bits, and one more |
| `ChainStates.DoGetFrame` | storage/src/chain_state.rs:144-181 | a file that is new, or that reads as the one it replaces, does not change what any other file reads as |
| `ChainStates.DeltaReadsBack` | storage/src/chain_state.rs:64-181 | a written state reads back exactly when its outputs agree with those of its base |
| `ChainStates.RemoveOutputs` | storage/src/chain_state.rs:161-165 | removes the listed outputs, or reports one that is missing |
| `ChainStates.AddOutputs` | storage/src/chain_state.rs:167-171 | adds the outputs, or reports one that is there already |
| `ChainStates.Storage.DoGetChainState` | storage/src/chain_state.rs:144-181 | the recursion through the parents ends with the patched state |
| `ChainStates.Storage.ReadChainState` | storage/src/chain_state.rs:114-142 | what the files add up to, with the configuration of the genesis state and the date, last block and boundary block of the file; nothing is found exactly without a file |
| `ChainStates.Storage.ParentHash` | storage/src/chain_state.rs:24-62 | the last block of the parent epoch, with its failures |
| `ChainStates.Storage.WriteChainState` | storage/src/chain_state.rs:24-110 | when a write succeeds, what it adds, that it reads back exactly when outputs agree, and that other states read as before unless it replaces a file that reads differently |
| `ChainStates.Storage.WriteEpochs` | storage/src/chain_state.rs:24-181 | after writing the epochs in order, each reads back as written, from popcount + 1 files |
| `ChainStates.ReplayStep` | storage/src/chain_state.rs:301-307 | replaying one block more is verifying it against the state before |
| `ChainStates.OnDiskIsReplay` | storage/src/chain_state.rs:263-291 | a stored state that is a fold of verification is the replay of its prefix of the chain |
| `ChainStates.Storage.SeekBack` | storage/src/chain_state.rs:270-291 | going back stops at the latest stored state: no later block of the chain has one, and the remaining blocks are in order |
| `ChainStates.Storage.ApplyForward` | storage/src/chain_state.rs:299-311 | going forward ends with the replay, or the first verification error |
| `ChainStates.Storage.RestoreChainState` | storage/src/chain_state.rs:263-313 | equals replaying the chain from genesis, whatever subset of states is on disk |
| `HdWallet.Add256` | cardano/src/hdwallet.rs:846-858 | the byte loop computes the sum modulo 2^256, every intermediate sum fitting 16 bits |
| `HdWallet.Add28Mul8` | cardano/src/hdwallet.rs:897-915 | the byte loops compute x plus eight times the low 28 bytes of y modulo 2^256, every intermediate sum fitting 16 bits |
| `HdWallet.CutIsModulo` | cardano/src/hdwallet.rs:846-915 | the 32 bytes of the sums stand for the remainder modulo 2^256 |
| `HdWallet.NormalizedIsVerified` | cardano/src/hdwallet.rs:251-284 | normalised bytes are accepted, and exactly the accepted bytes are left unchanged |
| `HdWallet.VerifiedIsInRange` | cardano/src/hdwallet.rs:271-284 | the bit checks accept exactly the multiples of 8 from 2^254 to 2^254 + 2^253 |
| `HdWallet.StepInRange` | cardano/src/hdwallet.rs:924-983 | one derivation step adds without wrapping and stays in range |
| `HdWallet.PathInRange` | cardano/src/hdwallet.rs:924-983 | along any path, hard or soft, the scalar stays in the range of its number of steps |
| `HdWallet.DerivedScalar` | cardano/src/hdwallet.rs:271-284 | after up to 2^26 derivations from an accepted key, the scalar is a multiple of 8 in [2^254, 2^255) |
| `HdWallet.IndexRoundTrip` | cardano/src/hdwallet.rs:805-814 | the four bytes of an index give the index back |
| `HdWallet.MessagesSeparate` | cardano/src/hdwallet.rs:924-983 | for any two keys and indices, the message for the scalar never equals the one for the chain code, and equal messages of one kind come from the same index and the same key material |
| `HdWallet.DerivePrivate` | cardano/src/hdwallet.rs:924-983 | the private child by its formula: new scalar, right part and chain code, from the hard or the soft message |
| `HdWallet.PointOfTrunc28Mul8` | cardano/src/hdwallet.rs:985-990 | the point of eight times the low 28 bytes, without wrapping |
| `HdWallet.DerivePublic` | cardano/src/hdwallet.rs:1011-1051 | the public child by its formula, refused for hard indices and undecodable points |
| `HdWallet.NotTheIdentity` | cardano/src/hdwallet.rs:992-1009 | no scalar in range is a multiple of the group order, so flipping the sign bit gives the encoding of the sum |
| `HdWallet.SumOfPoints` | cardano/src/hdwallet.rs:992-1009 | adding two encoded points gives the encoding of the sum of their scalars |
| `HdWallet.SoftStepCommutes` | cardano/src/hdwallet.rs:924-1051 | for a soft index, the public child of the public key is the public key of the private child |
| `HdWallet.PathCommutes` | cardano/src/hdwallet.rs:924-1051 | along every path from a key in range: soft paths commute, a hard index makes public derivation refuse |
| `HdWallet.VerifiedPathCommutes` | cardano/src/hdwallet.rs:271-1051 | the same for every accepted key and every path of up to 2^26 steps |
| `Records.SizeRoundTrip` | storage-units/src/utils/serialize.rs:18-29 | a 32-bit size is read back from its big-endian bytes |
| `Records.OffsetRoundTrip` | storage-units/src/utils/serialize.rs:31-51 | a 64-bit offset is read back from its big-endian bytes |
| `Records.ParseRecord` | storage-units/src/packfile.rs:81-95 | a record followed by anything is read back, or refused exactly when its block reaches the limit |
| `Records.ParseCutRecord` | storage-units/src/packfile.rs:81-109 | a record cut at any byte is never read as a block |
| `Records.WholeIsGreatest` | storage-units/src/packfile.rs:111-133 | the records counted as whole are the most leading records that fit before the cut |
| `Records.CutFileReadsPrefix` | storage-units/src/packfile.rs:81-133 | records cut at any byte read as the records wholly before the cut |
| `Header.WriteHeader` | storage-units/src/utils/magic.rs:16-26 | appends the 16 bytes of magic, type and version |
| `Header.CheckHeader` | storage-units/src/utils/magic.rs:30-59 | the outcome of the check for every file: too short, no magic, another type, a version out of range, or accepted |
| `Header.HeaderReadsBack` | storage-units/src/utils/magic.rs:16-59 | a written header is accepted exactly for its type and a version in range, with the error of each other case |
| `PackFile.WriteLengthPrefixed` | storage-units/src/utils/serialize.rs:137-179 | appends the record of the data and returns its length; a length over 32 bits is refused and nothing is written |
| `PackFile.ReadNextBlock` | storage-units/src/packfile.rs:81-95 | reads one record and moves past it, with the error of each other case |
| `PackFile.ReadNextBlockOrEof` | storage-units/src/packfile.rs:98-109 | an end of file inside or before a record counts as the end |
| `PackFile.Reader.NextBlock` | storage-units/src/packfile.rs:117-133 | yields the next block, counts its position from the end of the header and hashes its content |
| `PackFile.ReadPack` | exe-common/src/utils.rs:40-45 | reading to the end yields all records, and stops exactly at one over the limit; the hash covers the contents read |
| `PackFile.CutPackReadsPrefix` | storage-units/src/packfile.rs:81-133 | a file cut at any byte after its header reads as the blocks wholly written |
| `PackFile.Writer.constructor` | storage-units/src/packfile.rs:170-181 | a new file holds its header and no block |
| `PackFile.Writer.Append` | storage-units/src/packfile.rs:187-194 | appends the record and records where it starts, for every block whose length fits its field |
| `PackFile.BlockAtItsOffset` | storage-units/src/packfile.rs:81-148 | a recorded offset reads back its block exactly when the block is below the limit of the reader |
| `PackFile.Seeker.BlockAtOffset` | storage-units/src/packfile.rs:145-148 | the record that starts at the offset, whatever was read before |
| `PackFile.FirstOfAppends` | storage-units/src/indexfile.rs:135-138 | the first offset of a hash is that of its first append |
| `Storage.MakePack` | storage/src/pack.rs:9-59 | appending blocks and writing the index gives a pack that holds exactly these blocks under these hashes |
| `Storage.LocatePacked` | storage/src/lib.rs:170-213 | lookup in memory, search in the index file and offset after opening it again: the first offset appended for a hash, or nothing |
| `Storage.ReadPacked` | storage/src/lib.rs:170-223 | lookup, bloom filter, index file opened twice and pack file together return the first block appended for a hash, or the refusal of a block over the limit, and nothing exactly when the hash is not in the pack |
| `Storage.InPacksIff` | storage/src/lib.rs:170-188 | the packs have an answer exactly when the hash was appended to one of them |
| `Storage.LooseRoundTrip` | storage/src/lib.rs:257-278 | a loose block is read back |
| `Storage.Storage.ReadBlock` | storage/src/lib.rs:170-229 | the first pack that has the hash answers, then the loose blocks, else the block is not found |
| `Storage.WriteThenRead` | storage/src/lib.rs:170-278 | a block written loose is read back unless a pack has its hash, which then still answers |
| `AppendFile.Writer.AppendBytes` | storage-units/src/append.rs:98-104 | appends the record of the bytes; nothing for an empty string |
| `AppendFile.Reader.ReadBlockRawNext` | storage-units/src/append.rs:156-168 | reads one record of any length |
| `AppendFile.Reader.Next` | storage-units/src/append.rs:147-153 | the next entry, or nothing at the end of the file |
| `AppendFile.ReadEntries` | storage-units/src/append.rs:147-168 | reading to the end yields all entries, in order |
| `AppendFile.CutAppendFileReadsPrefix` | storage-units/src/append.rs:147-168 | a file cut at any byte reads as the entries wholly written |
| `Bloom.SetBitGet` | storage-units/src/utils/bitmap.rs:57-70 | setting a bit sets that bit and no other |
| `Bloom.HashContent` | storage-units/src/utils/bloom.rs:7-20 | the loop gives the first hash over all bytes and the second one over the last byte |
| `Bloom.SecondPositionIsLastByte` | storage-units/src/utils/bloom.rs:7-29 | contents that end with the same byte share their second position |
| `Bloom.InsertBits` | storage-units/src/utils/bloom.rs:31-37 | an insertion sets exactly the three positions of its content |
| `Bloom.InsertKeeps` | storage-units/src/utils/bloom.rs:31-42 | what was inserted is found, and what was found before still is |
| `Bloom.FilterFinds` | storage-units/src/utils/bloom.rs:31-42 | the filter of a list finds everything in the list |
| `Bloom.BuildFilter` | storage-units/src/indexfile.rs:179-182 | the loop that fills the filter in place gives the filter of the list |
| `Entries.SortSorted` | storage-units/src/indexfile.rs:186-190 | the entries are written in the order of their hashes |
| `Entries.SortOffsets` | storage-units/src/indexfile.rs:186-190 | sorting keeps all entries, and the order of those with the same hash |
| `Entries.CountSplits` | storage-units/src/indexfile.rs:16-19 | among sorted entries, those whose first byte is at most c come first |
| `IndexLayout.TablesWritten` | storage-units/src/indexfile.rs:47-55 | every hash and every offset is at the place the reader computes |
| `IndexFile.ComputeFanout` | storage-units/src/indexfile.rs:157-169 | the two loops give, for each byte, the number of hashes whose first byte is at most that; from 2^32 hashes on they panic or cut the numbers to 32 bits, depending on overflow checks |
| `IndexFile.HeadBuffer` | storage-units/src/indexfile.rs:143-177 | the header buffer holds bloom size, padding and fanout at their offsets |
| `IndexFile.Index.WriteToTmpfile` | storage-units/src/indexfile.rs:140-206 | the file has the layout of the format, for the sorted entries, their fanout and a filter that covers them; from 2^32 entries on it fails or cuts the fanout, depending on overflow checks |
| `IndexFile.ReadFromFile` | storage-units/src/indexfile.rs:210-233 | the outcome for every file: the error of its header, an early end, or the lookup in its first bytes |
| `IndexFile.LookupReadsBack` | storage-units/src/indexfile.rs:140-233 | a written index is read back as the lookup that was written |
| `IndexFile.WindowHolds` | storage-units/src/indexfile.rs:76-89 | an entry lies in the window of a byte exactly when its hash starts with that byte |
| `IndexFile.Reader.Search` | storage-units/src/indexfile.rs:300-351 | the first entry of the hash in the window, or none exactly when there is none |
| `IndexFile.Reader.ResolveIndexOffset` | storage-units/src/indexfile.rs:353-359 | the offset stored for an entry |
| `IndexFile.SearchIsComplete` | storage-units/src/indexfile.rs:300-351 | searching the window of the first byte misses no entry |
| `IndexFile.ExcludedIsAbsent` | storage/src/lib.rs:170-180 | a hash with an empty window, or that the filter does not have, was never appended |
| `IndexFile.Reader.Locate` | storage-units/src/indexfile.rs:76-359 | fanout, filter and search together: the first offset appended for a hash, and nothing exactly when it was never appended |
| `IndexFile.DumpFile` | storage-units/src/indexfile.rs:248-261 | for every file: the lookup, and as many 32-byte cells from byte 1032 on as it counts |
| `IndexFile.DumpIsRightIff` | storage-units/src/indexfile.rs:248-261 | for a written index these are its hashes exactly when the bytes from the last four counts on are those of the hash table |
| `IndexFile.DumpIsWrong` | storage-units/src/indexfile.rs:248-261 | they are not for any index whose least hash does not start with the count up to byte 252 |
| `Values.SumValues` | chain-impl-mockchain/src/value.rs:15-20 | the plain sum, or an overflow exactly when the plain sum is too large |
| `Accounts.AddAccountTotal` | chain-impl-mockchain/src/account.rs:165-174 | creating an account adds its initial value to the total |
| `Accounts.RemoveAccountTotal` | chain-impl-mockchain/src/account.rs:179-190 | removing an account does not change the total |
| `Accounts.AddValueTotal` | chain-impl-mockchain/src/account.rs:195-200 | adding value adds it to the total |
| `Accounts.RemoveValueTotal` | chain-impl-mockchain/src/account.rs:205-219 | removing value takes it from the total, also when the account disappears |
| `Accounts.DeletedWhenExhausted` | chain-impl-mockchain/src/account.rs:93-108 | spending deletes an account exactly at its last counter, and then it is emptied |
| `Utxos.FromOutputs` | chain-impl-mockchain/src/utxo.rs:56-65 | the outputs by index, later ones replacing earlier ones |
| `Utxos.RemoveMultiple` | chain-impl-mockchain/src/utxo.rs:225-249 | takes all the outputs, or none with the error of the case; each index must be unspent and given once |
| `Utxos.RemoveEachIsMultiple` | chain-impl-mockchain/src/utxo.rs:208-249 | removing several outputs at once is removing them one after the other |
| `Utxos.RemoveTotal` | chain-impl-mockchain/src/utxo.rs:208-223 | removing an output takes its value from the total |
| `Utxos.AddTotal` | chain-impl-mockchain/src/utxo.rs:195-204 | adding the outputs of a transaction adds their values to the total |
| `Utxos.RemoveSpends` | chain-impl-mockchain/src/utxo.rs:208-223 | removal succeeds exactly on an unspent output, returns it, and leaves all others |
| `Utxos.AddHolds` | chain-impl-mockchain/src/utxo.rs:195-204 | adding a transaction adds exactly the outputs given, and leaves all others |
| `Utxos.Iter.Next` | chain-impl-mockchain/src/utxo.rs:159-184 | yields the next output of the two nested traversals, skipping transactions without outputs |
| `Utxos.RowsTotal` | chain-impl-mockchain/src/utxo.rs:136-184 | the values met in any traversal order add up to the total |
| `Utxos.Collect` | chain-impl-mockchain/src/utxo.rs:105-111 | iterating yields exactly the unspent outputs, each once, in whatever order |
| `Genesis.ValidateUtxoTotalValue` | chain-impl-mockchain/src/ledger.rs:314-326 | passes exactly when all outputs and balances together fit in a value |
| `Genesis.ApplyOldDeclaration` | chain-impl-mockchain/src/ledger.rs:329-345 | the loop numbers the declared outputs and adds them under the id of the declaration, or panics from 255 outputs on |
| `Genesis.Block0Transfer` | chain-impl-mockchain/src/ledger.rs:173-191 | a transaction of block 0 is the fold of its outputs; it is an error when it has inputs or witnesses, and a panic from 255 outputs on |
| `Genesis.ApplyBlock0Message` | chain-impl-mockchain/src/ledger.rs:165-211 | each kind of message with its errors, and whether accounts may be created afterwards |
| `Genesis.NewLedger` | chain-impl-mockchain/src/ledger.rs:129-215 | the loops give the ledger of block 0, whose contents the next five rows state |
| `Genesis.Block0Total` | chain-impl-mockchain/src/ledger.rs:129-215 | its total is what block 0 declares and fits in a value; too large a total is the only cause of that error |
| `Genesis.Block0HoldsOld` | chain-impl-mockchain/src/ledger.rs:129-345 | its legacy outputs are exactly those that the declarations list, at their positions |
| `Genesis.Block0HoldsNew` | chain-impl-mockchain/src/ledger.rs:129-454 | its new outputs are exactly those of the transactions that do not go to an account, at their positions |
| `Genesis.Block0HoldsAccount` | chain-impl-mockchain/src/ledger.rs:129-454 | its accounts are exactly those paid to, each with the sum of what it was paid and counter zero |
| `Genesis.Block0Counters` | chain-impl-mockchain/src/account.rs:205-219 | over every run from block 0, the counters of its accounts run 0, 1, 2, … |
| `Ledger.InternalApplyTransactionOutput` | chain-impl-mockchain/src/ledger.rs:414-454 | the output loop is the fold of single outputs, followed by one insertion under the transaction id |
| `Ledger.CheckBalance` | chain-impl-mockchain/src/ledger.rs:391-397 | comparing two sums reports overflow or inequality of exactly these sums |
| `Ledger.InternalApplyTransaction` | chain-impl-mockchain/src/ledger.rs:348-412 | the loops are the fold of single inputs, the balance check on the inputs twice, and the outputs |
| `Ledger.ApplyBlock` | chain-impl-mockchain/src/ledger.rs:218-247 | the loop is the fold of single messages, on a chain one block longer |
| `LedgerAccounting.InputsTakeTheirValues` | chain-impl-mockchain/src/ledger.rs:372-387 | accepted inputs take their declared values from the total |
| `LedgerAccounting.TransactionOutputTotal` | chain-impl-mockchain/src/ledger.rs:414-454 | accepted outputs add their values to the total |
| `LedgerAccounting.TransactionAccounting` | chain-impl-mockchain/src/ledger.rs:348-412 | an accepted transaction changes the total by outputs minus inputs |
| `LedgerAccounting.BlockAccounting` | chain-impl-mockchain/src/ledger.rs:218-247 | the same for an accepted block |
| `LedgerAccounting.RunAccounting` | chain-impl-mockchain/src/ledger.rs:218-550 | the same for every run of blocks |
| `LedgerAccounting.NeverUnbalanced` | chain-impl-mockchain/src/ledger.rs:391-397 | the error for unbalanced sums is never reported |
| `LedgerAccounting.ConservedIffBalanced` | chain-impl-mockchain/src/ledger.rs:348-412 | an accepted transaction conserves value exactly when its sums are equal |
| `LedgerAccounting.ValueFromNothing` | chain-impl-mockchain/src/ledger.rs:391-397 | a concrete accepted transaction that adds four coins, under any two ids |
| `DoubleSpend.LegacyAcceptedIff` | chain-impl-mockchain/src/ledger.rs:464-494 | an unspent legacy output with its declared value and a valid signature is accepted exactly when the address was not made from the key |
| `DoubleSpend.AcceptedIffAuthorised` | chain-impl-mockchain/src/ledger.rs:456-550 | an input is accepted exactly when it is unspent or covered and signed by the key of its address or account, with one exact exception: signed legacy inputs, for which it is always the other way round |
| `DoubleSpend.OwnerRefused` | chain-impl-mockchain/src/ledger.rs:477-483 | at a concrete ledger, the key of the address is refused |
| `DoubleSpend.StrangerAccepted` | chain-impl-mockchain/src/ledger.rs:477-494 | at the same ledger, another key with a valid signature takes the output |
| `DoubleSpend.Compose` | chain-impl-mockchain/src/ledger.rs:372-412 | what is consumed stays consumed when later transactions use new ids |
| `DoubleSpend.TransactionEffect` | chain-impl-mockchain/src/ledger.rs:348-412 | within one transaction no output is consumed twice, and only its own id gets outputs |
| `DoubleSpend.RunEffect` | chain-impl-mockchain/src/ledger.rs:218-550 | over a run with new ids, which outputs are left and which were consumed |
| `DoubleSpend.NoDoubleSpend` | chain-impl-mockchain/src/ledger.rs:372-387 | over a run with new and distinct ids, every output is consumed at most once and is gone afterwards |
| `SpendingMessages.AsWrittenPanics` | chain-impl-mockchain/src/transaction/witness.rs:44-53 | the code writes the tag into an empty vector, so it panics for every transaction and counter |
| `SpendingMessages.CounterRoundTrip` | chain-impl-mockchain/src/account.rs:132-134 | the four little-endian bytes give the counter back |
| `SpendingMessages.MessageInjective` | chain-impl-mockchain/src/transaction/witness.rs:44-53 | with the tag put in front, equal messages are for the same transaction and the same counter |
| `SpendingCounters.CountersFromZero` | chain-impl-mockchain/src/account.rs:115-130 | fitting events consume the counters 0, 1, 2, … after each creation, until a deletion |
| `SpendingCounters.TransactionFollows` | chain-impl-mockchain/src/ledger.rs:348-550 | the events of one transaction lead from the account before to the account after |
| `SpendingCounters.RunFollows` | chain-impl-mockchain/src/ledger.rs:218-550 | the events of every run fit together, for every account |
| `SpendingCounters.RunCountersFromZero` | chain-impl-mockchain/src/account.rs:205-219 | in every run an account consumes the counters 0, 1, 2, … without repeats between its creation and its deletion |
| `SpendingCounters.RunCountersContinue` | chain-impl-mockchain/src/account.rs:205-219 | an account that is there when a run starts goes on from its counter, one by one |
| `SpendingCounters.LoggedIsSigned` | chain-impl-mockchain/src/ledger.rs:524-550 | with the intended message, an accepted account input carries a signature of the owner for the transaction and counter that the log records |
| `SpendingCounters.NoReplay` | chain-impl-mockchain/src/account.rs:115-130 | within one lifetime of an account, no run accepts the same message twice |
| `SpendingCounters.NoReplayInRun` | chain-impl-mockchain/src/account.rs:115-130 | with new and distinct transaction ids, no run accepts the same message twice, across all lifetimes of an account |
| `SpendingCounters.NoAccountInput` | chain-impl-mockchain/src/ledger.rs:524-550 | with the message as the code builds it, no transaction that spends from an account is accepted |
| `SpendingCounters.NoAccountInputInRun` | chain-impl-mockchain/src/ledger.rs:218-550 | so no run spends from an account |
| `SpendingCounters.AccountInputPanics` | chain-impl-mockchain/src/transaction/witness.rs:44-53 | a concrete transaction of an owner, which is refused, and accepted with the intended message |
| `SparseArray.MaskNumbers` | imhamt/src/hash.rs:37-42 | the two masks are the words 2^s and 2^s - 1 |
| `SparseArray.IsSet` | imhamt/src/bitmap.rs:110-113 | a slot counts as taken exactly when its bit is set |
| `SparseArray.GetIndexSparse` | imhamt/src/bitmap.rs:80-95 | the number of slots taken before a taken slot, always below the length; the marker exactly for an empty slot |
| `SparseArray.GetSparsePos` | imhamt/src/bitmap.rs:97-108 | where the element of a slot belongs in the vector |
| `SparseArray.CloneArrayAndInsertAtPos` | imhamt/src/helper.rs:2-9 | the vector with one element more at the position |
| `SparseArray.CloneArrayAndSetAtPos` | imhamt/src/helper.rs:12-23 | the vector with the element at the position replaced |
| `SparseArray.SetAtAt` | imhamt/src/node/reference.rs:49-59 | filling an empty slot keeps length and popcount equal and changes that slot only |
| `SparseArray.ReplaceAtAt` | imhamt/src/node/reference.rs:88-99 | replacing the element of a taken slot changes that slot only |
| `SparseArray.ClearAtAt` | imhamt/src/node/reference.rs:70-86 | clearing a taken slot changes that slot only, and leaves nothing exactly when it was the last |
| `HashLevels.SamePathSameHash` | imhamt/src/hash.rs:22-28 | unequal 64-bit hashes differ at one of the levels 0 to 12 |
| `LeafContent.AddMeaning` | imhamt/src/content.rs:60-88 | adding a pair fails exactly on a key that is there, and changes that key only |
| `LeafContent.UpdateMeaning` | imhamt/src/content.rs:148-226 | an update calls back exactly on a key that is there, deletes or replaces it, and leaves the others |
| `LeafContent.RemoveIsUpdate` | imhamt/src/content.rs:270-318 | removal is an update to nothing |
| `LeafContent.ReplaceIsUpdate` | imhamt/src/content.rs:230-266 | replacement is an update to the new value, and returns the old one, although it does not compare hashes |
| `Hamt.Lookup` | imhamt/src/hamt.rs:111-125 | the loop ends within thirteen levels with what the key is mapped to |
| `Hamt.PushedOk` | imhamt/src/node/reference.rs:148-152 | moving a leaf one level down changes no lookup |
| `Hamt.InsertMeaning` | imhamt/src/node/reference.rs:126-180 | insertion fails exactly on a key that is there, keeps the trie well-formed and maps just that key anew |
| `Hamt.UpdateNodeMeaning` | imhamt/src/node/reference.rs:271-301 | an update fails exactly on a missing key or a failing callback, keeps the trie well-formed and changes that key only |
| `Hamt.RemoveRecIsUpdate` | imhamt/src/node/reference.rs:240-266 | removal is an update to nothing |
| `Hamt.ReplaceRecIsUpdate` | imhamt/src/node/reference.rs:306-331 | replacement is an update to the new value, and returns the old one |
| `Hamt.NewRepresents` | imhamt/src/hamt.rs:25-30 | a new trie is the empty map |
| `Hamt.InsertRepresents` | imhamt/src/hamt.rs:38-46 | insertion is map insertion, refused exactly for present keys |
| `Hamt.UpdateKeyRepresents` | imhamt/src/hamt.rs:94-107 | update is a change or deletion of that key in the map |
| `Hamt.RemoveKeyRepresents` | imhamt/src/hamt.rs:64-74 | removal is map removal, refused exactly for missing keys |
| `Hamt.ReplaceKeyRepresents` | imhamt/src/hamt.rs:80-90 | replacement is a map update that returns the old value |
| `Hamt.FromIter` | imhamt/src/hamt.rs:170-181 | a trie built from pairs maps each key to its first value |
| `Hamt.SizeRec` | imhamt/src/node/reference.rs:333-342 | adds up the pairs of all leaves |
| `Hamt.SizeRepresents` | imhamt/src/hamt.rs:32-34 | the size of a trie is the number of keys it maps |
| `HamtIteration.HamtIter.constructor` | imhamt/src/hamt.rs:130-135 | an iterator starts before all pairs of the trie |
| `HamtIteration.HamtIter.Next` | imhamt/src/hamt.rs:138-168 | yields the next pair in slot order, or nothing after the last; the loop ends |
| `HamtIteration.HamtIter.Step` | imhamt/src/hamt.rs:153-164 | moving on the stack of nodes changes nothing of what is still to come, and makes progress |
| `HamtIteration.PairsRepresent` | imhamt/src/hamt.rs:130-168 | the pairs of a trie are exactly those of its map, with each key once |
| `HamtIteration.Collect` | imhamt/src/hamt.rs:130-168 | iterating to the end yields exactly the pairs of the map, each key once |
| `Merkle.SplitPointBounds` | cardano/src/merkle.rs:49-51 | the left part is a power of two, shorter than the list and at least as long as the right part |
| `Merkle.TreeHashes` | cardano/src/merkle.rs:37-57 | the leaves are the hashes of the items in order, and every branch hashes its two parts |
| `Merkle.PerfectTree` | cardano/src/merkle.rs:37-57 | a list of 2^k items gives a perfect tree of height k |
| `Merkle.TreeShape` | cardano/src/merkle.rs:37-57 | the height is the rounded-up logarithm of the size, and every left part is perfect |
| `Merkle.RootDetermines` | cardano/src/merkle.rs:17-65 | lists of any lengths with equal roots are equal, or two different strings with the same hash are produced |

## Left out

- Cryptography: hashing, signatures and group operations are parameters with the laws that are used; the laws of the curve are asked for scalars below 2^255 only.
- Derivation scheme V1: its additions drop carries and are kept for old keys only.
- Files: read and write failures other than the end of the file, temporary files, locks and renaming.
- IndexFile.Reader.Search: asks that the window lies inside the table, because the source panics on reading past the end of the file.
- BlockStore.MemoryBlockStore.PutBlock: depths are unbounded, not 64-bit; what a store does after a block was stored under the zero hash is not modelled.
- Multiverse.Multiverse.Gc: asks for at least one state, as the source unwraps the greatest length; the lock around the root counts is not modelled.
- Ledger.ApplyBlock: the chain length is unbounded; delegation, settings and certificate checks are parameters.
- Hamt.InsertMeaning: is about well-formed tries, which every operation yields; the level of other tries could grow past the last one.
- The iterator over the values of the unspent outputs and `remove_match` of the trie: they repeat the iterator over entries and the update.
- SQLite store, networking, command line tools, C bindings, CBOR and address codecs, paper wallets, time: plumbing or easy members.

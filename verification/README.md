# Verified models of node components

A Dafny model of self-contained algorithms of the node, with proofs of what their comments, tests
and callers rely on:

* **Cluster linearization** (`src/cluster_linearize.h`): ordering a graph of dependent transactions
  so that high-feerate sets come first. The model covers the dependency graph, chunking, the two
  candidate finders with the branch-and-bound search, `Linearize`, `PostLinearize` on its linked
  entries, and `MergeLinearizations`; also `CompareChunks` (`src/util/feefrac.cpp`).
* **The coin cache stack** (`src/coins.cpp`): write-back caches with DIRTY, FRESH and PEGIN flags
  over a database, as a stack of any height.
* **The parallel check queue** (`src/checkqueue.h`): all interleavings of one master and any number
  of workers.
* **Multi-party blinding** (`src/blindpsbt.cpp`): parties that blind their own outputs and publish
  scalar offsets until the last one balances the sum.
* **The address manager** (`src/addrman.cpp`): six indexes over the same entries that every
  operation keeps in step, saving them, and loading any file.
* **Big integers and block work** (`src/arith_uint256.cpp`, `src/chain.cpp`): arithmetic on 32-bit
  digits of any width, the compact target format, and the work of a block.
* **The block tree and the active chain** (`src/chain.cpp`): skip pointers, common ancestors, `CChain`.
* **Address encodings** (`src/bech32.cpp`, `src/blech32.cpp`, `src/base58.cpp`): checksums as
  remainders of polynomials over GF(32), encoding and decoding.

`dafny verify dfyconfig.toml` verifies everything.

## How the linearization results are stated

A linearization's *feerate diagram* is the least concave curve above the points (cumulative size,
cumulative fee) of its prefixes. `Diagrams.Peak` is the height of a diagram above a line of a given
slope, and `Diagrams.AsGood(g, a, b)` says that the diagram of `a` is at least as high as that of
`b` for every real slope. `Diagrams.Optimal` says that no topologically valid set of transactions
rises above a diagram. `DiagramOrder.AsGoodIsCompared` proves that this order is the one that
`CompareChunks` decides from the chunk feerates, as the project's fuzz tests use it.

Sets of transactions are `set<nat>`, a graph is a value with one entry per position, and `Linearizes`
means: every transaction once, each after all its ancestors.

## How the other results are stated

* Coin caches: a stack is a list of maps over a database; `View(level)` is what a level shows, and
  every operation is stated as a map operation on views.
* Check queue: a step relation over critical sections; results are about every state of every run.
* Blinding: `Blinding.Succeeds` and `Blinding.Result` give the status and the effect of a call in terms
  of the state before it; balance is a congruence modulo the group order.
* Address manager: `AddrMans.Consistent` is what holds between operations. The new and tried tables
  determine all counters, flags and reference counts in a consistent state, so the operations state
  the tables exactly. Hashes are uninterpreted functions with their ranges.
* Big integers: `Number()` is the value of the digits; every operator is an equation on numbers.
* Encodings: `Decoded` says exactly which strings decode and to what, `Encoded` what is produced; the
  two are inverse to each other, in both directions.

Where code and documentation differ, the model follows the code. Four documented or expected
properties do not hold in general; each has its exact condition:

* a cache stays in order after `AddCoin` without `possible_overwrite` exactly if no unspent version
  is hidden below a cache without an entry of its own (`CoinsStacks.CoinsStack.AddCoin`); where one
  is, a coin that is added and then spent shows the old one again (`CoinsStacks.AddThenSpend`,
  `CoinsStacks.HiddenCoin`);
* `SanityCheck` accepts a well-formed cache exactly if no peg-in entry has both or neither of DIRTY
  and FRESH (`CoinsStacks.SanityExact`, `CoinsStacks.SanityFails`);
* a successful `BlindPSBT` call keeps the transaction balanced exactly if the caller's outputs complete
  the blinding, or their sum is not zero and its difference to the inputs is not published yet, or
  both sums are zero; all of it known before the call (`BlindingRuns.CallBalances`,
  `BlindingRuns.RunBalanced`). A party with inputs but no output loses the balance
  (`BlindingRuns.SilentParty`, `BlindingRuns.SilentCall`);
* adding a scalar offset to a non-zero sum of valid scalars fails exactly if the offset itself is zero
  modulo the group order (`Scalars.AddableExact`, `Scalars.ZeroOffsetFails`).

## Model

| member | source | states |
|---|---|---|
| FeeFracs.NotHigherTrans | src/util/feefrac.h:113-131 | feerate comparison by cross-multiplication is transitive through a non-empty pair |
| FeeFracs.Mediant | src/util/feefrac.h:95-131 | the feerate of a sum lies strictly between those of its parts exactly when they differ |
| FeeFracs.Order | src/util/feefrac.h:134-139 | how the tie-breaking total comparison relates to the plain feerate comparison |
| DepGraphs.DepGraph.AddTransaction | src/cluster_linearize.h:133-146 | the lowest free position is used, the graph stays reflexive, transitive and mutually inverse, nothing else changes |
| DepGraphs.DepGraph.RemoveTransactions | src/cluster_linearize.h:157-171 | removal restricts both relations to the remaining transactions and keeps the graph valid |
| DepGraphs.DepGraph.AddDependencies | src/cluster_linearize.h:177-198 | the graph becomes exactly `Linked`, and stays valid |
| DepGraphs.LinkedIsLeast | src/cluster_linearize.h:173-198 | `Linked` is the least transitive relation that holds the old ancestors and the new parent edges |
| DepGraphs.LinkedValid | src/cluster_linearize.h:177-198 | closing under new edges keeps ancestors and descendants reflexive, transitive and mutually inverse |
| DepGraphs.DepGraph.Remap | src/cluster_linearize.h:74-111 | rebuilding a graph from its reduced parents under a mapping gives the same relation renumbered |
| DepGraphs.GetReducedParents | src/cluster_linearize.h:208-219 | an antichain whose ancestors are all proper ancestors: the direct parents |
| DepGraphs.ReducedCoverIsParents | src/cluster_linearize.h:200-219 | any such antichain cover is the set of direct parents, so the result does not depend on the order of removal |
| DepGraphs.GetReducedChildren | src/cluster_linearize.h:229-240 | the same for descendants |
| DepGraphs.FeeRateOf | src/cluster_linearize.h:246-251 | the sum over a set of transactions |
| DepGraphs.FindConnectedComponent | src/cluster_linearize.h:253-280 | a connected component: connected, and apart from the rest of the set |
| DepGraphs.IsConnected | src/cluster_linearize.h:282-295 | true exactly if no proper part is apart from the rest |
| DepGraphs.AppendTopo | src/cluster_linearize.h:297-311 | appends the set as a topologically ordered list |
| Chunkings.ChunkLinearization | src/cluster_linearize.h:373-389 | the feerates of the chunking of the list |
| Chunkings.ChunksAreChunking | src/cluster_linearize.h:373-436 | chunks partition the list, never increase in feerate, and no proper prefix of one reaches its feerate |
| Diagrams.ChunkingUnique | src/cluster_linearize.h:373-389 | a list has exactly one such chunking |
| Diagrams.FirstChunkBest | src/cluster_linearize.h:411-436 | no prefix of a list has a higher feerate than its first chunk, and shorter ones a lower one |
| Chunkings.ChunksRest | src/cluster_linearize.h:461-481 | the chunks after the first are the chunking of the rest |
| Chunkings.LinearizationChunking.constructor | src/cluster_linearize.h:440-448 | starts with the chunks of the whole list |
| Chunkings.LinearizationChunking.BuildChunks | src/cluster_linearize.h:411-436 | rebuilds the chunks of the remaining transactions |
| Chunkings.LinearizationChunking.MarkDone | src/cluster_linearize.h:461-481 | afterwards, also on the fast path, the chunks are those of the list restricted to what is left |
| Chunkings.FirstChunkDone | src/cluster_linearize.h:466-478 | dropping the first chunk instead of rechunking, and skipping as many positions, is sound |
| Chunkings.LinearizationChunking.IntersectPrefixes | src/cluster_linearize.h:483-516 | the intersection of the set with the shortest chunk prefix for which it is not empty and not below the set in feerate |
| Improvements.FrontImproves | src/cluster_linearize.h:483-492 | moving a set to the front that lifts the chunks of a list gives a list at least as good |
| Improvements.IntersectionLifts | src/cluster_linearize.h:483-516 | the result of IntersectPrefixes lifts the chunks |
| Improvements.BestFrontOptimal | src/cluster_linearize.h:1019-1094 | a best candidate followed by an optimal rest is optimal |
| Improvements.OptimalBeatsAll | src/cluster_linearize.h:1010-1014 | an optimal list is at least as good as every linearization |
| AncestorFinders.AncestorCandidateFinder.constructor | src/cluster_linearize.h:539-567 | every stored feerate is that of the remaining ancestors |
| AncestorFinders.AncestorCandidateFinder.MarkDone | src/cluster_linearize.h:569-586 | stored feerates stay those of the remaining ancestors |
| AncestorFinders.AncestorCandidateFinder.FindCandidateSet | src/cluster_linearize.h:600-618 | a remaining ancestor set that no other remaining ancestor set beats |
| SearchBounds.PotBound | src/cluster_linearize.h:800-813 | no set that can still be reached and beats the best has a feerate above the potential set |
| SearchBounds.JumpAheadImproves | src/cluster_linearize.h:815-835 | adding the ancestors found inside the potential set loses no better set |
| SearchBounds.DiscardNoImproving | src/cluster_linearize.h:885-887 | a branch without improving transactions can be dropped |
| SearchBounds.DiscardLowPotential | src/cluster_linearize.h:888-890 | a branch whose potential is not above the best can be dropped |
| SearchBounds.DiscardLowFirst | src/cluster_linearize.h:891-894 | so can one whose first undecided transaction is too low |
| Searches.ImproveBranch | src/cluster_linearize.h:797-858 | growing the potential set, jumping ahead and updating the best: every better set is still covered |
| Searches.ChooseSplit | src/cluster_linearize.h:896-930 | an undecided ancestor of the first undecided one, minimal in the two counts |
| Searches.SplitBranches | src/cluster_linearize.h:932-940 | the two branches together hold every compatible set, and both have fewer undecided transactions |
| Searches.Search.AddItem | src/cluster_linearize.h:790-867 | the queue has room below its reserved capacity, and every better set of the branch is covered |
| Searches.Search.MaybeSwap | src/cluster_linearize.h:959-962 | swapping the first two items, or not, keeps the capacity and what is covered |
| Searches.Search.Run | src/cluster_linearize.h:946-980 | terminates; one iteration is spent per processed item, and an empty queue means that nothing better exists |
| Searches.StartQueue | src/cluster_linearize.h:758-777 | one item per connected component covers every candidate |
| SearchFinders.SearchCandidateFinder.constructor | src/cluster_linearize.h:662-692 | the internal graph is the given one sorted by feerate |
| SearchFinders.SearchCandidateFinder.FindCandidateSet | src/cluster_linearize.h:700-986 | a closed set no worse than the given one, at most 2^n - 1 iterations, and a best candidate whenever the budget is not used up |
| SearchFinders.SearchCandidateFinder.MarkDone | src/cluster_linearize.h:988-998 | the finder stays in step with the remaining transactions |
| Linearizers.Linearize | src/cluster_linearize.h:1001-1094 | a linearization at least as good as the old one; optimal when reported so, and always with a large enough budget |
| PostPasses.PassCorrect | src/cluster_linearize.h:1115-1122 | one pass: topological, at least as good, its groups are the connected chunks of the result |
| PostTrees.PassOptimal | src/cluster_linearize.h:1119-1121 | one pass is optimal when every transaction has at most one child |
| PostGuarantees.PostCorrect | src/cluster_linearize.h:1102-1122 | both passes: a linearization at least as good, whose chunks are the final groups and connected |
| PostGuarantees.PostOptimalOnTrees | src/cluster_linearize.h:1104-1105 | optimal when every transaction has at most one child, or every one at most one parent |
| PostGuarantees.MovedLeaf | src/cluster_linearize.h:1106-1110 | moving a leaf to the end first, then post-processing, is at least as good as the original |
| PostGuarantees.ReplacedLeaf | src/cluster_linearize.h:1106-1110 | the same when the leaf's fee is raised as well |
| PostLinearization.SettleTx | src/cluster_linearize.h:1216-1270 | the merge and swap cycle on linked entries computes `Settle` on groups |
| PostLinearization.BuildGroups | src/cluster_linearize.h:1207-1271 | a whole pass over the linearization computes `Pass` |
| PostLinearization.WriteGroups | src/cluster_linearize.h:1273-1293 | the linked groups are written back completely, in the order of the pass |
| PostLinearization.PostLinearize | src/cluster_linearize.h:1096-1295 | the array becomes `Post`: at least as good, connected chunks, optimal on trees |
| Merging.MergeLinearizations | src/cluster_linearize.h:1297-1337 | a linearization at least as good as both inputs |
| ChunkCompare.CompareChunks | src/util/feefrac.cpp:10-73 | which of the two diagrams is above the other somewhere, over all real sizes |
| DiagramOrder.AsGoodIsCompared | src/util/feefrac.cpp:10-73 | for linearizations of equal total, at least as good means that CompareChunks finds the other nowhere above |
| DiagramOrder.OptimalCompared | src/util/feefrac.h:149-157 | CompareChunks never ranks a linearization above an optimal one, and finds all optimal ones equivalent |
| CheckQueues.RunBatch | src/checkqueue.h:125-136 | the first failure of the batch, or the old local result when no work is to be done |
| CheckQueues.CheckQueue.CleanUp | src/checkqueue.h:83-96 | the accounting at the start of the critical section |
| CheckQueues.CheckQueue.Decide | src/checkqueue.h:97-126 | returns, waits, or takes between 1 and the batch size of checks off the back of the queue |
| CheckQueues.CheckQueue.Add | src/checkqueue.h:173-190 | checks are appended and counted; whom to notify |
| CheckQueueRuns.RunSafe | src/checkqueue.h:72-138 | in every state of every run: unfinished checks are counted exactly, none is lost, all verdicts so far are right, and no wake-up is lost |
| CheckQueueRuns.VerdictCorrect | src/checkqueue.h:98-106 | Complete returns None exactly if all checks of its session pass, else a failure of one of them |
| CheckQueueRuns.SomeoneCanStep | src/checkqueue.h:84-110 | while the master is in Complete some thread can proceed; a blocked master has a worker with unfinished checks |
| CheckQueueRuns.CompleteEnds | src/checkqueue.h:72-138 | not counting spurious wake-ups, Complete returns within a bound known in advance |
| Coins.MergedOk | src/coins.cpp:250-328 | writing a dirty entry down shows the child's data, keeps FRESH right, and never finds it misapplied |
| Coins.SyncedOk | src/coins.h:295-310 | what the cursor leaves of an entry agrees with the view below |
| CoinsFlush.BatchWrite | src/coins.cpp:250-331 | every dirty entry is merged; the logic error is thrown exactly if FRESH is misapplied to one |
| CoinsFlush.BatchWriteDb | src/txdb.cpp:105-177 | every dirty key is written or erased, other keys stay |
| CoinsFlush.SyncChild | src/coins.h:295-310 | spent entries go, the others are clean, and no entry stays linked |
| CoinsStacks.CoinsStack.FetchCoin | src/coins.cpp:58-74 | finds what the view shows, filling caches without changing any view |
| CoinsStacks.CoinsStack.GetCoin | src/coins.cpp:76-80 | the unspent coin that the level shows, if any |
| CoinsStacks.CoinsStack.AddCoin | src/coins.cpp:82-122 | puts the coin into the topmost view; throws exactly on an unspent entry; the stack stays in order if and only if the caller's promise holds |
| CoinsStacks.CoinsStack.SpendCoin | src/coins.cpp:141-161 | removes the coin from the topmost view only, and hands it out; what it does to an entry that is there, in order or not |
| CoinsStacks.AddThenSpend | src/coins.cpp:82-161 | a coin added without announcing an overwrite and then spent is gone if and only if the addition was allowed; else the old coin is shown again |
| CoinsStacks.HiddenCoin | src/coins.cpp:82-161 | a database and an empty cache where that happens |
| CoinsStacks.CoinsStack.IsPeginSpent | src/coins.cpp:196-209 | whether the level shows the peg-in as used, changing no view |
| CoinsStacks.CoinsStack.SetPeginSpent | src/coins.cpp:211-235 | sets the peg-in in the topmost view only |
| CoinsStacks.CoinsStack.GetBestBlock | src/coins.cpp:240-244 | the nearest known best block, remembered without changing any level's answer |
| CoinsStacks.CoinsStack.Flush | src/coins.cpp:333-342 | the level below then shows what this level showed; no other view changes, nothing is thrown, the stack stays in order |
| CoinsStacks.CoinsStack.Sync | src/coins.cpp:344-355 | the same, keeping exactly the unspent coins, with no flagged entry left |
| CoinsStacks.CoinsStack.Uncache | src/coins.cpp:357-370 | drops an unmodified entry without changing any view |
| CoinsStacks.CoinsStack.Push | src/coins.cpp:41-46 | a new cache shows what its base shows |
| CoinsStacks.CoinsStack.Pop | src/coins.h:461-475 | destroying a cache forgets its own changes only |
| CoinsStacks.FlushBestBlock | src/coins.cpp:329-342 | a flush hands the best block down if and only if the cache knows it, or the parent knew none of its own |
| CoinsStacks.SanityExact | src/coins.cpp:401-432 | the exact condition under which SanityCheck accepts a cache of a well-formed stack |
| CoinsStacks.SanityFails | src/coins.cpp:401-432 | a well-formed cache that SanityCheck rejects |
| Scalars.SubtractScalars | src/blindpsbt.cpp:309-328 | the difference modulo the group order, and exactly when it fails |
| Scalars.CalculateScalarOffset | src/blindpsbt.cpp:330-365 | value * asset blinder + value blinder modulo the group order, and exactly when it fails |
| Scalars.ComputeAndAddToScalarOffset | src/blindpsbt.cpp:367-393 | on success, that offset added to the given one; fails exactly on an operand out of range or an offset that is zero |
| Scalars.AddableExact | src/blindpsbt.cpp:367-393 | with all scalars in range, adding fails if and only if the offset is zero modulo the group order |
| Scalars.ZeroOffsetFails | src/blindpsbt.cpp:367-393 | scalars in range for which it does |
| Blinding.SumInputs | src/blindpsbt.cpp:441-445 | the sum over the party's inputs modulo the group order, and exactly when it fails |
| Blinding.BalanceBlinder | src/blindpsbt.cpp:549-568 | the random blinder less everything that is not balanced yet, and exactly when it fails |
| Blinding.BlindOutput | src/blindpsbt.cpp:508-634 | exactly when the output is blinded, and with which blinders; the running sums stay right; the closing one empties the offsets |
| Blinding.Psbt.BlindPSBT | src/blindpsbt.cpp:395-650 | exactly when a call succeeds or finds nothing to blind, and its whole effect: the party's outputs get their random blinders, only the closing one an adjusted one, nothing else changes |
| BlindingRuns.CallBalances | src/blindpsbt.cpp:636-642 | a successful call keeps the balance if and only if it is accounted for, which is known before the call |
| BlindingRuns.SilentParty | src/blindpsbt.cpp:510-517 | a state where a party without outputs succeeds and the balance is lost |
| BlindingRuns.SilentCall | src/blindpsbt.cpp:395-650 | two calls on such a transaction, both reported as successful |
| BlindingRuns.RunBalanced | src/blindpsbt.cpp:395-650 | over any run of successful calls, all states are balanced if and only if all calls are accounted for |
| BlindingRuns.BlindingBalances | src/blindpsbt.cpp:309-650 | after accounted calls of all parties, outputs and inputs have the same sum of value * asset blinder + value blinder |
| Chains.LowestOneCleared | src/chain.cpp:105-106 | clearing the lowest one bit removes exactly that bit |
| Chains.GetSkipHeight | src/chain.cpp:108-117 | a skip pointer always leads lower |
| Chains.BlockTree.GetAncestor | src/chain.cpp:119-144 | following skip pointers finds what walking from parent to parent finds, and terminates |
| Chains.BlockTree.AddBlock | src/chain.cpp:151-155 | a new block's skip pointer leads to its ancestor at the skip height; no other ancestor changes |
| Chains.BlockTree.LastCommonAncestor | src/chain.cpp:194-211 | the highest block that is an ancestor of both, if they have a common one |
| Chains.Chain.SetTip | src/chain.cpp:26-34 | the chain is exactly the path to the tip, in spite of the early stop |
| Chains.Chain.FindFork | src/chain.cpp:86-95 | the highest ancestor of the block that is on the chain |
| Chains.ContainsIsAncestor | src/chain.h:796-800 | the chain contains a block exactly if it is an ancestor of the tip |
| Chains.PathGrows | src/chain.cpp:26-34 | the chain stays a path when the tree grows |
| AddrMans.AddrMan.Find | src/addrman.cpp:401-414 | the entry of an address, and none exactly if it is unknown |
| AddrMans.AddrMan.Create | src/addrman.cpp:416-430 | a new entry with its place in the map, the random order and the counts |
| AddrMans.AddrMan.SwapRandom | src/addrman.cpp:432-454 | two places of the random order change, and nothing else |
| AddrMans.AddrMan.Delete | src/addrman.cpp:456-471 | the entry is gone from all indexes, the others stay |
| AddrMans.AddrMan.ClearNew | src/addrman.cpp:473-489 | the slot is empty; its entry is deleted with its last reference |
| AddrMans.AddrMan.Unlist | src/addrman.cpp:495-509 | going round the buckets removes all references of an entry and no other, so its count is zero |
| AddrMans.AddrMan.EvictTried | src/addrman.cpp:515-542 | the old entry of a tried slot goes to its home slot of the new table |
| AddrMans.AddrMan.MakeTried | src/addrman.cpp:491-548 | the tables afterwards: the entry in its tried slot, without references, and the evicted entry at home |
| AddrMans.AddrMan.PlaceNew | src/addrman.cpp:599-623 | a slot is given exactly if it is free or may be overwritten; an entry left without slots is deleted |
| AddrMans.AddrMan.AddSingle | src/addrman.cpp:550-624 | exactly when an announcement is inserted, where, and with which time; the tables stay consistent |
| AddrMans.AddrMan.Good | src/addrman.cpp:626-679 | exactly when an entry moves to the tried table or starts waiting, the tables and times afterwards |
| AddrMans.AddrMan.Attempt | src/addrman.cpp:693-711 | the last try of the entry is set, and nothing else |
| AddrMans.AddrMan.Connected | src/addrman.cpp:877-894 | the time of the entry is set if it is older than 20 minutes |
| AddrMans.AddrMan.ResolveOne | src/addrman.cpp:917-965 | drop, wait or replace, as `Judge` says; on replace the waiting entry takes the slot, and nothing else moves but the one it displaces |
| AddrMans.AddrMan.ResolveCollisions | src/addrman.cpp:912-973 | each waiting entry is resolved once, in ascending order, each in the state the ones before it left; the tables stay consistent |
| AddrMans.KeptWaiting | src/addrman.cpp:912-973 | an entry still waits after such a chain if and only if its own step says so |
| AddrMans.AddrMan.SelectTriedCollision | src/addrman.cpp:975-1001 | the slot is never empty: a tried entry with the same slot as the picked one is returned |
| AddrMans.CollidingKeeps | src/addrman.cpp:995-1000 | a waiting entry's tried slot stays taken, because no operation ever empties one |
| AddrChecks.CheckSucceeds | src/addrman.cpp:1063-1166 | what every operation keeps implies all conditions of the consistency check |
| AddrFiles.Serialize | src/addrman.cpp:133-228 | what is written for every entry and every bucket, for any order of the map |
| AddrFiles.LoadTables | src/addrman.cpp:278-377 | the tables that a file is loaded to before pruning, with or without restored buckets |
| AddrLoads.LoadedPlaced | src/addrman.cpp:278-377 | those tables are consistent but for new entries that found no place |
| AddrLoads.Prune | src/addrman.cpp:379-389 | exactly the entries without place are deleted, and the tables are consistent |
| AddrLoads.Unserialize | src/addrman.cpp:231-399 | any file with distinct addresses loads to a consistent state, restored or rebucketed; exactly the unplaced entries are dropped |
| AddrLoads.Reload | src/addrman.cpp:133-399 | saving and loading gives a consistent state with the same contents: nothing is dropped |
| AddrFiles.RoundTrip | src/addrman.cpp:133-399 | what was saved loads to tables that are consistent already and have the same entries, tables, reference counts and counts, up to identifiers |
| Base58.EncodeFits | src/base58.cpp:99-100 | 138/100 digits per byte and one more always suffice |
| Base58.DecodeFits | src/base58.cpp:54-55 | 733/1000 bytes per digit and one more always suffice |
| Base58.MulAdd | src/base58.cpp:64-68 | the in-place digit loop multiplies and adds exactly, but for the carry left over |
| Base58.EncodeBase58 | src/base58.cpp:89-127 | a 1 for each leading zero byte, then the digits of the rest; the carry is always zero |
| Base58.DecodeBase58 | src/base58.cpp:40-135 | exactly which strings decode, and to what; the carry is always zero |
| Base58.RoundTrip | src/base58.cpp:40-127 | decoding an encoded byte string gives it back, exactly if it is empty or within the length limit |
| Base58.Canonical | src/base58.cpp:40-127 | a string that decodes is, but for spaces around it, the encoding of the result |
| Checksums.PolyMod | src/bech32.cpp:174-213 | the loop computes the remainder state `Run` |
| Polynomials.Remainder | src/bech32.cpp:127-140 | the 5-bit groups of that state are the coefficients of v(x) mod g(x) over GF(32): v(x) = q(x) * g(x) + their polynomial, which is shorter than g |
| Polynomials.StepDivides | src/bech32.cpp:176-211 | one step is one step of the long division by the generator |
| Polynomials.ReductionScales | src/blech32.cpp:90-117 | the masked constants together are the multiple of the generator by the leading coefficient |
| Checksums.StepLinear | src/bech32.cpp:175-211 | one step is linear in state and symbol |
| Checksums.StepInjective | src/blech32.cpp:90-117 | with a zero symbol only the zero state leads to the zero state |
| Checksums.ChecksumExact | src/bech32.cpp:338-350 | exactly one checksum makes a list of symbols valid: the one that is created |
| Checksums.ChangeDetected | src/bech32.cpp:127-213 | changes within a window as long as the checksum always change the remainder |
| Bech32s.PreparePolynomialCoefficients | src/bech32.cpp:308-321 | the prefix's high bits, a zero, its low bits, then the values |
| Bech32s.ExpandHRP | src/blech32.cpp:127-140 | the same expansion, written by index |
| Bech32s.VerifyChecksum | src/bech32.cpp:323-336 | the encoding under which the symbols verify, if any |
| Bech32s.CreateChecksum | src/blech32.cpp:155-167 | the symbols of the remainder, first symbol highest |
| Bech32s.VerifiesExactly | src/blech32.cpp:142-167 | values with a checksum verify under an encoding if and only if it is the one created for it |
| Bech32s.ChangeNoticed | src/bech32.cpp:323-336 | changing one symbol, or any within a window of 6 (12), never verifies under the same constant |
| Bech32s.CheckCharacters | src/bech32.cpp:283-306 | the places of all characters that are not printable or of the wrong case; accepts exactly one-case printable strings |
| Bech32s.CheckCase | src/blech32.cpp:187-194 | accepts exactly the same strings |
| Bech32s.Encode | src/bech32.cpp:352-366 | prefix, separator, and the characters of values and checksum |
| Bech32s.Decode | src/bech32.cpp:368-395 | exactly which strings decode, and to what |
| Bech32s.DecodeEncode | src/blech32.cpp:169-216 | decoding gives back encoding, prefix and values, exactly if the prefix is printable and not empty and the string not too long |
| Bech32s.EncodeDecode | src/bech32.cpp:352-395 | a string that decodes is, but for its case, the encoding of the result |
| ArithUints.BaseUint.ShiftLeft | src/arith_uint256.cpp:13-28 | multiplication by a power of two modulo 2^BITS |
| ArithUints.BaseUint.ShiftRight | src/arith_uint256.cpp:30-45 | the floor of the quotient by a power of two |
| ArithUints.BaseUint.Scale | src/arith_uint256.cpp:47-57 | the product with one digit modulo 2^BITS |
| ArithUints.BaseUint.Multiply | src/arith_uint256.cpp:59-73 | the product modulo 2^BITS |
| ArithUints.BaseUint.Divide | src/arith_uint256.cpp:75-99 | the exact floor quotient; fails exactly on zero |
| ArithUints.BaseUint.CompareTo | src/arith_uint256.cpp:101-111 | the order of the numbers |
| ArithUints.BaseUint.EqualTo | src/arith_uint256.cpp:113-125 | equality with a 64-bit number |
| ArithUints.BaseUint.Bits | src/arith_uint256.cpp:155-168 | the position of the highest bit plus one |
| ArithUints.BaseUint.Add | src/arith_uint256.h:128-138 | the sum modulo 2^BITS, also when both operands are the same object |
| ArithUints.BaseUint.Subtract | src/arith_uint256.h:140-144 | the difference modulo 2^BITS |
| ArithUints.BaseUint.Negate | src/arith_uint256.h:70-77 | the negative modulo 2^BITS |
| ArithUints.BaseUint.Increment | src/arith_uint256.h:166-173 | one more, modulo 2^BITS |
| ArithUints.BaseUint.Decrement | src/arith_uint256.h:183-190 | one less, modulo 2^BITS |
| ArithUints.SetBit | src/arith_uint256.cpp:92-92 | or-ing a bit into a quotient that has none up to it adds its power of two |
| BlockProofs.SetCompact | src/arith_uint256.cpp:175-193 | the value modulo 2^256; overflow is reported exactly if it does not fit |
| BlockProofs.GetCompact | src/arith_uint256.cpp:195-216 | the compact form of the number |
| BlockProofs.CompactDenotes | src/arith_uint256.cpp:175-216 | a compact form denotes the number with its lowest bytes dropped |
| BlockProofs.CompactAgain | src/arith_uint256.cpp:175-216 | and that number has the same compact form |
| BlockProofs.GetBlockProof | src/chain.cpp:157-175 | floor(2^256 / (target + 1)) for every valid target, zero for every other; never divides by zero |

## Left out

- Integer widths of fees, sizes and iteration budgets (`int64_t`, `int32_t`, `uint64_t`): all numbers are unbounded; the sources guarantee that sums do not overflow.
- The bit-set representation, `VecDeque`, pool allocation and memory accounting (`cachedCoinsUsage`): sets, sequences and maps take their place.
- Random choices: the search order of `SearchCandidateFinder` is nondeterministic, blinders are parameters.
- `std::sort` is specified by `Sorting.SortBy`: a sorted permutation.
- `const DepGraph&` arguments are values: aliasing of a graph with one that is being changed is not modelled.
- The interleaving of writing to the parent and cleaning the child within one loop of `BatchWrite`: they touch different caches, and the model does one after the other.
- The exact pointers of the doubly linked list of flagged entries: the list is a sequence of keys.
- `EmplaceCoinInternalDANGER`, database failures and partial writes after a crash.
- Stopping a check queue in its destructor.
- Commitments, range proofs and surjection proofs, UTXO lookup and issuances in `BlindPSBT`: an output records what its commitments open to, and whether proofs succeed is a parameter. A commitment at infinity and amounts that are missing or negative are left out.
- Scalars.AddableExact: takes it that a product of two non-zero scalars is not zero modulo the group order, which is prime; primality is not proved.
- Address manager: services, attempt counters, `Select_`, `GetAddr_`, `IsTerrible` and other chance or clock driven parts; whether an entry is terrible or valid is a parameter.
- AddrFiles.RoundTrip: file formats, versions and checksums are not modelled, nor is the guard against a lost key.
- AddrLoads.Unserialize: files with an address twice among the new entries or in both lists, or with a time of last success that cannot be, are not modelled; refusing them is what the consistency check at the end of loading is for.
- AddrMans.AddrMan.ResolveOne: the branch for a tried slot that is empty is left out, because the slot of a waiting entry is always taken.
- Bech32s.Encode: prefix characters are bytes from 0 to 255; the sign of `char` on prefixes that `Decode` rejects anyway is not modelled.
- `LocateErrors` and its tables in `src/bech32.cpp`; only the positions that `CheckCharacters` reports are modelled.
- `getdouble`, `GetHex` and the bitwise operators of `base_uint`; `GetBlockProofEquivalentTime`.
- `EncodeBase58Check` and `DecodeBase58Check`, which add a hash.

# A verified model of Bf-Tree

Bf-Tree is a concurrent B-tree whose leaves live as disk base pages, as in-memory mini pages (a record cache
and write buffer over a base page) or as in-memory full pages.  This project models its hard core in Dafny and
proves what that core is for.

| part | files |
|---|---|
| keys, prefix lengths, preview bytes | `Bytes` |
| the tree as one value; what writes and splits do to it | `TreeShape`, `TreeEffects`, `TreeSplits`, `EffectFrames` |
| optimistic lock coupling: any number of threads, one atomic action a step | `LockCoupling`, `LockCouplingProof`, `CoupledHistory`, `LocksHeld`, `LocksAlone` |
| inner nodes as they are searched, grown and halved | `InnerNode` |
| a leaf as mini page or full page over base page | `LeafCache` |
| the slotted leaf page on bytes, with fences and prefix compression | `LeafImage`, `LeafImageProof`, `LeafPage` |
| filling, splitting, consolidating and merging leaf pages | `LeafFill`, `LeafSplit`, `LeafMerge`, `LeafOps` |
| the merge that has to split, and the page size classes | `MergeSplitKey`, `MergeSplitFits`, `MergeSplitExact`, `MergeSplitOps`, `MergeSplitOverflow`, `SizeClasses` |
| the phase handshake of the CPR (concurrent prefix recovery) snapshot | `Handshake` |
| the snapshot: transactions, page versions, captures, sweep | `Snapshot`, `SnapshotStore`, `SnapshotProof`, `SnapshotRuns`, `SnapshotTheorems`, `SnapshotSteps`, `SnapshotFinishes`, `VersionWitness` |
| walking the inner nodes, the capture lists, finalizing, recovering | `InnerWalk`, `SnapshotWalk`, `SnapshotLogs`, `SnapshotFinalize`, `Recovery`, `RecoveryTheorem` |
| the circular buffer and its free lists | `Ring`, `RingProof`, `RingTheorems`, `RingLives`, `FreeList` |
| the write-ahead log and its reader | `WalFormat`, `Wal` |
| range scans, with the reorganisations and splits they make on the way | `Scan`, `ScanStore`, `ScanTree` |

Concurrent protocols (lock coupling, handshake, snapshot, circular buffer) are state machines: a state, an
enabling condition and an effect per atomic load, store, compare-and-swap or critical section, and theorems over
every run: what no run can do, and, so that these do not hold of a protocol that merely stands still, what every
reachable state can go on to do (`LocksAlone`, `SnapshotSteps`, `SnapshotFinishes`, `RingLives`).  Code that works on one page, one list or one buffer under a lock is imperative Dafny: classes over
arrays and loops, each method proved against a function on values, with the properties proved about that
function.

How the parts meet: `TreeSplits.ApplyKeepsWF` is the semantics of every tree change, and both the lock-coupling
machine and the snapshot machine take their tree changes from it.  A thread of the lock-coupling machine checks
only what the code checks before it changes a page; that the change is then the right one for the tree is
`LockCouplingProof.StepInPlace`, and `CoupledHistory.RunIsHistory` makes every run of it a history of the kind the
snapshot machine replays.  `LeafMerge` and `MergeSplitOps` show that the
byte page does what `LeafCache` says a merge does, and `InnerNode` that its nodes are those of `TreeShape`.
`SnapshotWalk.SweepInner` is the walk that the snapshot machine takes in one step.  `SnapshotLogs.LogsFollow` gives
every run its per-worker capture lists, and `RecoveryTheorem.Recover` goes from those lists, through finalizing and
rewiring, to the tree that `SnapshotTheorems.ConsistentCut` describes.

## Findings

- Page versions *can* fall.  A read that caches a record at version `v` over an older base page marks nothing
  changed; dropping that mini page clean goes back to the base page's version.  `LeafCache.VersionCanFall` shows it;
  `VersionWitness.VersionsDoFall` reaches it by a run from any initial state with a page behind the current version,
  and `SnapshotTheorems.VersionsFallOnlyByDropping` says it happens in exactly this way.  The consistent cut does
  not depend on it.
- The fence reserve *can* break.  A record that grows checks the free space only, not the reserve
  (`src/nodes/leaf_node.rs:1131-1133`).  `LeafMerge.ReserveCanBreak` shows it; `LeafMerge.InsertKeepsReserve` gives the
  exact condition.  Splits are proved for pages that honour the reserve.
- A merge with one split does *not* always fit, though the size classes are there to make it fit
  (`src/tree.rs:121-126`).  The split key is chosen by the weight of whole keys, and a half stores its keys without the
  prefix.  `MergeSplitOverflow.PrefixCanOverflow` gives an accepted configuration (4096-byte pages, keys of 500 bytes)
  and two pages for which the only key the chooser can take leaves a half too small, so that the assertion on the
  insert fails.  `MergeSplitExact.HalfExact` gives the exact condition for every prefix, and with an empty prefix it
  always holds (`MergeSplitFits.HalfFits`).
- The first log entry is not waited for.  `flushed_lsn` starts at 0, the LSN of the first entry
  (`src/wal/mod.rs:139-140`).  `Wal.FirstAppendReturnsEarly` shows it; `Wal.ReturnedIsDurable` gives the exact condition.
- A logged key or value of 65536 bytes or more does not survive its 16-bit length: `WalFormat.LongKeyWraps`,
  with the exact condition in `WalFormat.WriteOpExact`.

## What is assumed

- Sequential consistency; reading one inner node under its version is atomic, and a stale read may return any child.
- What an operation does while it holds the locks of its pages is one step of the snapshot machine.
- Disk mode.  Cache-only pages carry no version, so the consistent cut does not hold for them.
- The sizes compared when a merge has to split are below 2^15: the source subtracts them in 16 bits
  (`src/nodes/leaf_node.rs:790-797`), counting keys without compression (`src/nodes/leaf_node.rs:683-686`).
- The weak compare-and-swap that reuses a free-listed block does not fail spuriously (`src/circular_buffer/mod.rs:555`).
- Base pages can always be loaded; a merge with nothing to write returns before it loads one
  (`src/mini_page_op.rs:1214-1216`).
- A logged operation is not empty; the smallest one the source writes has five bytes.
- Page identifiers, block addresses, versions and LSNs do not run out.

## Model

| member | source | states |
|---|---|---|
| `Bytes.CommonPrefixLen` | src/nodes/leaf_node.rs:61-71 | the loop computes the length of the longest common prefix of the two fences |
| `TreeShape.Slot` | src/nodes/inner_node.rs:320-358 | the slot chosen for a key is bounded by the separators on either side of it |
| `TreeShape.Route` | src/tree.rs:935-990 | a descent ends in a leaf, and stays inside the range of the node it started from |
| `TreeShape.RouteOwns` | src/tree.rs:935-990 | in every well-formed tree the descent for a key ends at a leaf whose range holds the key |
| `TreeShape.OwnerReads` | src/tree.rs:1428-1526 | the leaf whose range holds a key is the one the descent finds, so reading there is reading the tree |
| `TreeShape.AllReachable` | src/utils/mod.rs:190-249 | every inner node of a well-formed tree lies on a path of child pointers from the root |
| `TreeEffects.HalvesRoute` | src/nodes/inner_node.rs:454-486 | for every key, choosing a half by the split key and searching it names the child that searching the whole node named |
| `TreeSplits.ApplyKeepsWF` | src/tree.rs:472-933 | every write, leaf split, root-leaf split, inner split and root split keeps the tree well formed; a write changes the tree's map at its key only and a split not at all |
| `LockCoupling.WordIsRaw` | src/utils/inner_lock.rs:26-104 | the epoch and lock flag are the version word: unlocking and locking each add 2, bit 1 is the lock, and later words are larger |
| `LockCouplingProof.RunKeepsInv` | src/tree.rs:472-933 | every reachable state of any number of threads that descend, lock, split and write keeps the tree well formed and every thread's locks and validated pointers good |
| `LockCouplingProof.StepInPlace` | src/tree.rs:472-1076 | a change made by a thread that has checked only what the code checks (page, version, room) is always in place: a write hits the leaf that owns the key, and a split's parent slot is the node split |
| `LockCouplingProof.InLeafIsRightLeaf` | src/tree.rs:935-1000 | a thread that locked a leaf and passed the parent check holds, in that and every later state until it unlocks, the leaf whose range holds its key, and reads the tree's value there |
| `LockCouplingProof.StepActsAsMap` | src/tree.rs:995-1076 | one step of any thread changes the tree's map only if it is a write, and then at the writer's key only |
| `LockCouplingProof.StepsActAsMap` | src/tree.rs:995-1076 | the same at every step of every run |
| `CoupledHistory.RunIsHistory` | src/tree.rs:472-1076 | at every moment of every run the tree is the replay, in order, of the in-place changes made so far |
| `LocksHeld.LocksAreHeld` | src/utils/inner_lock.rs:79-104 | in every reachable state a locked inner node is write-held by a thread that has yet to unlock it, and whoever has a leaf lock knows of it |
| `LocksHeld.IdleMeansUnlocked` | src/utils/inner_lock.rs:98-104 | when all threads are idle, no inner node and no leaf is locked |
| `LocksHeld.CanLeave` | src/utils/inner_lock.rs:98-104 | any thread can let go of all it holds on its own, in at most two steps, whatever the others hold |
| `LocksHeld.LeafLockExactly` | src/utils/rw_lock.rs:30-132 | with no writer waiting, a leaf can be locked for reading unless someone writes there, and for writing if and only if no one is there |
| `LocksAlone.AloneFinds` | src/tree.rs:935-1000 | from every reachable state with all threads idle, a thread alone gets to the leaf of any key, to read or to write |
| `LocksAlone.AloneUpgrades` | src/utils/rw_lock.rs:155-190 | and, alone as a reader, can become the writer |
| `LocksAlone.AloneChanges` | src/tree.rs:472-1076 | and can make every change the tree allows (write, delete, leaf split, inner split, either root split) and is idle again afterwards |
| `LockCouplingProof.LeafSplitReady` | src/tree.rs:528-720 | a thread holding the leaf and its validated parent may split the leaf at any key inside it: the parent's slot for that key is the leaf |
| `LockCouplingProof.InnerSplitReady` | src/tree.rs:728-933 | a thread holding an inner node and its validated parent may split it: the parent's slot for the split key is that node |
| `EffectFrames.AlikeEnabled` | src/tree.rs:472-933 | a tree that agrees with another on the nodes a change touches allows the same change |
| `EffectFrames.AlikeApply` | src/tree.rs:472-933 | and the two agree on those nodes, and on the new root, afterwards |
| `InnerNode.InnerNode.LowerBound` | src/nodes/inner_node.rs:320-358 | the binary search over slots with preview bytes returns the slot the tree's routing uses |
| `InnerNode.InnerNode.Insert` | src/nodes/inner_node.rs:360-426 | refused if and only if the key bytes behind the first four, plus 16, exceed the room left; otherwise the child of an equal key is replaced, or the separator goes in; separators stay sorted, and the room left plus what the slots store is the capacity |
| `InnerNode.InnerNode.HaveSpaceFor` | src/nodes/inner_node.rs:488-496 | the answer given before a split goes ahead is whether the insert will be taken |
| `InnerNode.NeedIsStored` | src/nodes/inner_node.rs:361-364 | what is asked for a separator is what it will occupy: its bytes behind the look-ahead, the child id and the slot |
| `InnerNode.InnerNode.UpdateAt` | src/nodes/inner_node.rs:498-515 | exactly one child pointer changes |
| `InnerNode.InnerNode.GetSplitKey` | src/nodes/inner_node.rs:448-452 | the key named before the split is the separator the split will push up |
| `InnerNode.InnerNode.Split` | src/nodes/inner_node.rs:454-486 | the node keeps the first half of its slots, the sibling gets the rest with its first separator moved up; both are valid nodes |
| `InnerNode.InsertedIsInsertSep` | src/nodes/inner_node.rs:360-426 | inserting into the slot array is inserting the separator into the tree's node |
| `InnerNode.SplitIsHalves` | src/nodes/inner_node.rs:454-486 | splitting the slot array gives the two halves, and the split key, of the tree's node |
| `LeafCache.WriteSetsKey` | src/mini_page_op.rs:499-1041 | wherever a write lands (base, new or existing mini page, full page), reads of its key return it and reads of every other key are unchanged; a cached read changes no read |
| `LeafCache.WriteKeepsOk` | src/mini_page_op.rs:499-1041 | a write at the page's version or above keeps clean cached records equal to the base page and the base version at most the cached one |
| `LeafCache.ReorgKeepsReads` | src/mini_page_op.rs:1117-1238 | moving to the tail with cold records dropped, merging, writing back, evicting and promoting to a full page leave every read unchanged |
| `LeafCache.ReorgKeepsOk` | src/nodes/leaf_node.rs:1528-1565 | and keep clean records in agreement with the base page |
| `LeafCache.ReorgLowersVersion` | src/mini_page_op.rs:1205-1216 | a reorganisation lowers a leaf's version if and only if it drops a clean, unchanged cached page over an older base page |
| `LeafCache.VersionCanFall` | src/mini_page_op.rs:1214-1216 | caching a read at a newer version and then merging does lower the version |
| `LeafCache.WriteMarks` | src/nodes/leaf_node.rs:1528-1565 | a new mini page has the asked size and version and is unchanged; a grown one loses exactly its cold records and stays as changed as it was; nothing else moves |
| `LeafCache.ReorgMarks` | src/mini_page_op.rs:1117-1238 | a moved page loses exactly its cold records, a merged or written-back one is no longer cached, a promoted one is a clean copy, a consolidated base page has its live records only |
| `LeafCache.HalfReads` | src/mini_page_op.rs:1336-1401 | splitting a leaf through its cache: each half reads as the leaf did on its side of the key, and as nothing on the other |
| `LeafImageProof.InsertFinds` | src/nodes/leaf_node.rs:1075-1212 | insert on bytes: refused with the page unchanged, or the key reads as the write says (deleting, overwriting, growing or adding) while every other key reads as before; slots stay sorted, payloads in bounds and disjoint, and 8·count + remaining the lowest offset |
| `LeafImageProof.InsertIsWrite` | src/nodes/leaf_node.rs:1075-1212 | a page that implements a map implements, after insert, the map that the base-page or mini-page write of `LeafCache` gives |
| `LeafImageProof.CompressionExact` | src/nodes/leaf_node.rs:346-394 | keys with the page's prefix are recovered exactly from their tails, and ordered and compared for equality as their tails are |
| `LeafImageProof.PreviewBytes` | src/nodes/leaf_node.rs:983-1000 | a slot previews the first two bytes of its key's tail, or all of a shorter one |
| `LeafPage.LeafPage.CompareAt` | src/nodes/leaf_node.rs:983-1000 | the preview comparison gives the order of the stored key and the search key |
| `LeafPage.LeafPage.LowerBoundOf` | src/nodes/leaf_node.rs:1027-1073 | binary search returns the first slot not below the key |
| `LeafPage.LeafPage.LinearLowerBoundOf` | src/nodes/leaf_node.rs:1002-1025 | linear search returns the same slot |
| `LeafPage.LeafPage.ReadByKey` | src/nodes/leaf_node.rs:1656-1704 | for the map the page holds, with either search: found with a value if and only if the map reads that value, deleted if and only if the key is there and reads nothing, missing if and only if it is not there |
| `LeafPage.LeafPage.InsertRecord` | src/nodes/leaf_node.rs:1075-1212 | the in-place insert is the insert on values of `InsertFinds`, bytes and slots alike, and reports the same success |
| `LeafPage.LeafPage.Initialize` | src/nodes/leaf_node.rs:1569-1609 | the page becomes the empty page between the two fences, whatever bytes it held |
| `LeafFill.FencedOk` | src/nodes/leaf_node.rs:396-446 | that page is laid out soundly, has exactly those fences and finds no key |
| `LeafFill.InsertKeepsFences` | src/nodes/leaf_node.rs:1075-1212 | no insert changes the fences or the prefix |
| `LeafFill.RoomIsEnough` | src/nodes/leaf_node.rs:1798-1824 | an insert with room for its record beside the fence reserve succeeds |
| `LeafFill.InsertExactly` | src/nodes/leaf_node.rs:1075-1212 | exactly when an insert is taken, by what the key reads and the room there is, and how much room it takes |
| `LeafSplit.KeysCarryPrefix` | src/nodes/leaf_node.rs:385-394 | every key between the fences, an infinite high fence included, starts with the page's prefix, so the prefix and the stored tail give it back whole |
| `LeafSplit.FillFits` | src/nodes/leaf_node.rs:1397-1465 | a list of records that costs no more than the free space goes in record by record |
| `LeafSplit.RebuiltHolds` | src/nodes/leaf_node.rs:1397-1465 | initializing with fences and inserting the records of a map gives a page that holds exactly that map |
| `LeafMerge.SplitPreserves` | src/nodes/leaf_node.rs:1222-1465 | given the fence reserve, each half takes all its records and holds exactly the live records on its side of the split key; the key becomes the left high fence and the right low fence |
| `LeafMerge.ConsolidatePreserves` | src/nodes/leaf_node.rs:1397-1480 | consolidating keeps the live records, the fences and nothing else, and always fits |
| `LeafMerge.MergeAllOrNothing` | src/nodes/leaf_node.rs:1783-1851 | a mini page merge is refused exactly when key, value and slot of its Insert records do not fit, leaving the base page alone; otherwise every insert succeeds and the page becomes exactly the overlay |
| `LeafMerge.EstimateIsInserts` | src/nodes/leaf_node.rs:1783-1794 | the estimate is the sum of key, value and slot over the Insert records of the mini page's map |
| `LeafMerge.InsertKeepsReserve` | src/nodes/leaf_node.rs:1098-1157 | a successful insert keeps the fence reserve unless it grows an existing record into it, and then it does not |
| `LeafMerge.ReserveCanBreak` | src/nodes/leaf_node.rs:1131-1133 | a page with the reserve and an insert that succeeds and breaks it |
| `LeafOps.MergeMiniPage` | src/nodes/leaf_node.rs:1826-1851 | the merge as it runs on two pages: refused and untouched, or the overlay |
| `LeafOps.SplitWithKey` | src/nodes/leaf_node.rs:1309-1395 | the split as it runs: the live records divide at the key between the page and its sibling, fences included |
| `LeafOps.InsertAll` | src/nodes/leaf_node.rs:1397-1465 | records with room go in one after the other, none refused |
| `MergeSplitKey.MergeWalk` | src/nodes/leaf_node.rs:695-760 | the interleaved walk over both pages visits the merged records in key order and finds exactly the base records that are replaced |
| `MergeSplitKey.PickSplit` | src/nodes/leaf_node.rs:762-870 | the place taken leaves records on both sides, neither side above half of the bytes by more than half a record, and no other place is more even |
| `MergeSplitKey.GetMergeSplitKey` | src/nodes/leaf_node.rs:680-920 | the same of the chosen key, by weight of the records below and from it, and exactly the replaced base records are found |
| `MergeSplitKey.NotLowFence` | src/nodes/leaf_node.rs:893-905 | the chosen key is above the low fence, so the branch that replaces it is never taken |
| `MergeSplitKey.MergeWeight` | src/nodes/leaf_node.rs:695-760 | the merged order weighs, below any bound, what the mini records and the base records they do not replace weigh |
| `MergeSplitFits.ChosenKeyBetween` | src/nodes/leaf_node.rs:893-917 | the chosen key lies strictly between the page's fences |
| `MergeSplitFits.HalfFits` | src/mini_page_op.rs:1336-1401 | with an empty prefix, the reserve kept and the gap between the last two size classes, every mini record fits its half |
| `MergeSplitExact.FillExact` | src/nodes/leaf_node.rs:1075-1212 | a list of new records goes in, each insert asking for the reserve, if and only if their stored bytes fit, and leaves exactly that much less room |
| `MergeSplitExact.HalfExact` | src/mini_page_op.rs:1336-1401 | for any prefix, a half takes its base records and all its mini records if and only if their stored bytes fit between the new fences beside the reserve |
| `MergeSplitExact.MergeSplitReads` | src/mini_page_op.rs:1336-1401 | a half that takes its records reads as the mini page over the base page did on that side |
| `MergeSplitOverflow.PrefixCanOverflow` | src/tree.rs:121-126 | an accepted configuration, a base page that honours the reserve, a mini page of one of its classes, one possible split key, and a left half that refuses a record |
| `MergeSplitOps.MiniIsLight` | src/tree.rs:115-133 | the dirty records of a mini page weigh no more than its size class |
| `MergeSplitOps.Distribute` | src/mini_page_op.rs:1358-1401 | the merge loop sends every dirty record to its side, and gets to its end if and only if each side takes all of its records |
| `MergeSplitOps.MergeSplit` | src/mini_page_op.rs:1254-1401 | the whole step on three pages: weigh, choose the most even key, mark, split and insert; no insert is refused if and only if both halves have room for what they store, which an empty prefix guarantees; both halves then lie between their new fences and read as the overlay did |
| `SizeClasses.CreateSizeClasses` | src/tree.rs:134-278 | the classes are, in strictly ascending order, exactly the aligned doubling sizes up to the largest mini page, that page and the leaf page; the largest mini page is the largest aligned size that leaves the gap the merge relies on (C1 to C3), and holds the largest record |
| `SizeClasses.ClassesHold` | src/tree.rs:115-121 | every class is cache-line aligned and holds the smallest record |
| `SizeClasses.ClassSizes` | src/tree.rs:215-240 | class i is the least multiple of 64 that holds a header and 2^i smallest records with their slots |
| `Handshake.RankOrders` | src/snapshot.rs:308-336 | phases and versions advance in one order, one at a time |
| `Handshake.NextKeepsInv` | src/snapshot.rs:339-354 | every step of the manager, its slot-by-slot scan, and the workers keeps the handshake's invariant |
| `Handshake.NoEarlierGuard` | src/snapshot.rs:339-354 | once a scan has finished, no guard of an earlier state is held then or ever after |
| `Handshake.GuardsAreAdjacent` | src/snapshot.rs:411-471 | guards held at the same time are for the same state or adjacent ones |
| `Handshake.SweepAndFinalizeGuards` | src/snapshot.rs:1073-1144 | while pages are swept and while the snapshot is finalized every guard is for the current state, and none is held while the tree is frozen |
| `Handshake.FrozenHasNoGuards` | src/snapshot.rs:570-683 | from the drained check until the pause flag is cleared no guard is held or granted |
| `Handshake.FlagIsTaken` | src/snapshot.rs:475-484 | a slot being released is still taken and holds no state |
| `SnapshotStore.CommitKeepsStore` | src/mini_page_op.rs:505-547 | a transaction under a guard that passes the version checks keeps every page showing its leaf, with versions in bounds |
| `SnapshotProof.NewCommit` | src/mini_page_op.rs:663-734 | a transaction of the new version captures what it takes past the cut and leaves the cut's images whole |
| `SnapshotProof.OldCommit` | src/mini_page_op.rs:1257-1334 | a transaction of the old version captures nothing, and happens to the cut as it happens to the tree |
| `SnapshotRuns.NextKeepsInv` | src/snapshot.rs:551-785 | every step of workers, evictions, walk, sweep and manager keeps the snapshot's invariant |
| `SnapshotTheorems.ConsistentCut` | src/snapshot.rs:551-905 | in every run, the finished snapshot of version v is the image of one well-formed tree: the replay, in order, of exactly the transactions of version v and below; every node of it is kept, nothing else is, and its root is the recorded one |
| `SnapshotTheorems.FinalShotOk` | src/snapshot.rs:799-889 | taking the mini page from one capture and the base page from another still reads as the leaf |
| `SnapshotTheorems.FinalizeTakesNothing` | src/snapshot.rs:1073-1144 | while the snapshot is finalized no step of any worker or eviction changes the recorded images, the root or the cut |
| `SnapshotTheorems.FrozenTreeIsFixed` | src/snapshot.rs:570-683 | while the manager walks the inner nodes neither the tree nor any version in it changes |
| `SnapshotTheorems.SnapshotClosed` | src/snapshot.rs:644-671 | every child a captured inner node names is captured, and exactly the recorded root carries the root flag |
| `SnapshotTheorems.VersionOrder` | src/mini_page_op.rs:572-582 | base version ≤ cached version ≤ global version in every reachable state |
| `SnapshotTheorems.GuardsNeverGoBack` | src/mini_page_op.rs:710-713 | no guard changes, caches into or passes a leaf or inner node of a newer version, and a captured mini page has an older base page, as asserted |
| `SnapshotTheorems.CapturesAreFirst` | src/snapshot.rs:540-547 | a worker's capture of a page is the only one by a worker, and roots recorded twice agree, as asserted |
| `SnapshotTheorems.MiniSizesAgree` | src/snapshot.rs:799-889 | a mini page captured twice was captured at one size, as asserted |
| `SnapshotTheorems.VersionsFallOnlyByDropping` | src/nodes/leaf_node.rs:1833-1834 | a step of a run lowers a leaf's version if and only if it drops a clean, unchanged cached page over an older base page |
| `VersionWitness.VersionsDoFall` | src/mini_page_op.rs:1205-1216 | from every initial state with a page behind the current version, a run of nine states (manager prepares, worker takes a guard and caches a read, the page is merged) in which the page's version falls |
| `VersionWitness.ExampleIsStale` | src/mini_page_op.rs:1205-1216 | there is such an initial state |
| `SnapshotSteps.TurnedAwayExactly` | src/mini_page_op.rs:505-547 | a guard is turned away from a page or node if and only if that is newer than the guard, and only in the PREPARE phase |
| `SnapshotSteps.CanAlwaysCommit` | src/mini_page_op.rs:499-1041 | in every reachable state a guard can carry out every change the tree allows on pages no newer than itself |
| `SnapshotSteps.EveryLanding` | src/mini_page_op.rs:499-1041 | a write may land in every place its page has for it, a mini page grown to any size at least its own included |
| `SnapshotSteps.CanAlwaysTouch` | src/mini_page_op.rs:663-734 | a guard may touch any page or node that is no newer, to no avail |
| `SnapshotSteps.CanAlwaysTidy` | src/mini_page_op.rs:1117-1238 | a page may be reorganised at any time in every way its place allows |
| `SnapshotSteps.ChangesAreStamped` | src/mini_page_op.rs:572-582 | what a transaction touches ends with the guard's version (in PREPARE possibly older), what it splits or creates has exactly it, and everything else is untouched |
| `SnapshotSteps.AttemptsAreStamped` | src/mini_page_op.rs:1257-1334 | an operation that fails after capturing, or only caches a read, leaves its page raised (after a failed merge the base page too) and no read changed |
| `SnapshotSteps.OnlyTransactionsDirty` | src/mini_page_op.rs:1501-1525 | no read, failed attempt, reorganisation or snapshot step makes a cached record dirty |
| `SnapshotFinishes.CanAlwaysFinish` | src/snapshot.rs:1029-1160 | from every reachable state with no snapshot running and no one in the tree, the manager alone gets to a finalized snapshot of the tree as it stands, and is then ready for the next |
| `SnapshotFinishes.RunningCanFinish` | src/snapshot.rs:358-410 | from every reachable state with a snapshot running, whatever guards are out, the workers can leave on their own and that snapshot can be finished |
| `SnapshotFinishes.CanAlwaysEnter` | src/snapshot.rs:411-484 | unless the tree is paused, a worker with a free slot gets a guard for the current state on its own, and gives it back |
| `InnerWalk.VisitInner` | src/utils/mod.rs:190-249 | the breadth-first walk visits every inner node exactly once |
| `SnapshotWalk.SweepInner` | src/snapshot.rs:644-671 | the walk over the frozen tree captures each inner node that is not newer exactly once: its list spells the map that the snapshot machine takes in one step |
| `SnapshotLogs.PushSpells` | src/snapshot.rs:509-538 | appending the first captures of pages to any slot's list keeps the lists spelling a map |
| `SnapshotLogs.LogsFollow` | src/snapshot.rs:509-547 | in every run, the lists that workers and the sweep append to spell, at every moment, exactly the captured inner nodes, mini pages and base pages |
| `SnapshotFinalize.Collect` | src/snapshot.rs:799-889 | concatenating the slots' lists gives that map |
| `SnapshotFinalize.AddSwept` | src/snapshot.rs:799-889 | the sweep's images are taken only where no worker captured the page |
| `SnapshotFinalize.Finalize` | src/snapshot.rs:789-905 | the three maps built are the inner nodes, mini pages and base pages of the images `ConsistentCut` speaks of |
| `Recovery.Rewire` | src/snapshot.rs:1256-1306 | the queue loop over the finalized map ends, finds every child it looks up, and leaves every copied inner node pointing at copies of the right children |
| `Recovery.RecoveredRoutes` | src/snapshot.rs:1256-1306 | the rewired tree routes every key to the leaf page the captured tree routed it to |
| `Recovery.DenseTable` | src/snapshot.rs:1335-1363 | from the sorted list of base pages, the dense table up to the largest identifier has exactly the listed pages at their identifiers and holes elsewhere |
| `RecoveryTheorem.RecoveredReads` | src/snapshot.rs:1256-1363 | for every run and key, descending the recovered tree and reading the kept image gives the value after the transactions of version v and below |
| `RecoveryTheorem.RecoveredRootLeafReads` | src/snapshot.rs:1256-1363 | the same when the tree was a single leaf |
| `RecoveryTheorem.Recover` | src/snapshot.rs:789-1306 | for every run with its lists: concatenating, finalizing and rewiring them gives a tree that reads, at every key, as the replay of the transactions of version v and below |
| `Ring.Smaller` | src/circular_buffer/freelist.rs:111-116 | the first class a block is large enough for |
| `Ring.Larger` | src/circular_buffer/freelist.rs:118-126 | the smallest class that holds a request |
| `RingTheorems.RingSafety` | src/circular_buffer/mod.rs:529-604 | in every reachable state head ≤ evicting ≤ tail ≤ head + capacity, each address between head and tail lies in exactly one block, blocks are 8-aligned and none crosses the physical end |
| `RingTheorems.PhysicallyDisjoint` | src/circular_buffer/mod.rs:606-609 | distinct blocks occupy disjoint physical bytes |
| `RingTheorems.DistanceIsLogical` | src/circular_buffer/mod.rs:626-636 | the distance computed from physical offsets is the logical distance to the tail |
| `RingTheorems.HeadPassesEvicted` | src/circular_buffer/mod.rs:834-856 | a block leaves the ring only at the head, by the head bump, in state Evicted |
| `RingTheorems.NoPanic` | src/circular_buffer/mod.rs:54-207 | no state-transition panic is reachable, and a block popped for a size is at least that size |
| `RingTheorems.OnOneList` | src/circular_buffer/mod.rs:675-694 | a block is on at most one free list, once, and only when FreeListed or while its list lock is held |
| `RingTheorems.OneHandle` | src/circular_buffer/mod.rs:891-969 | BeginTombstone means exactly one owner (client, free-list insertion or evictor), NotReady exactly one guard, and only blocks behind the evicting address have an evictor |
| `RingLives.GuardedIsAllocated` | src/circular_buffer/mod.rs:529-604 | a block gets a guard only at the end of an allocation that was asked for; it is at least as large as the request, and if new less than eight bytes larger, with the tail moved just past it |
| `RingLives.AllocationEnds` | src/circular_buffer/mod.rs:556-604 | a bump and a reuse both hand out such a block |
| `RingLives.FullMeansFull` | src/circular_buffer/mod.rs:570-578 | an allocation gives up only if the aligned request with its header exceeds all unused memory |
| `RingLives.LivesUntilFreed` | src/circular_buffer/mod.rs:43-50 | a block in use stays in the ring and in use until its eviction callback succeeds or a client frees it |
| `RingLives.DroppedThenFreed` | src/circular_buffer/mod.rs:278-284 | dropping the guard makes the block ready, and if the head passes it later, one of those happened in between |
| `RingLives.LifeCycle` | src/circular_buffer/mod.rs:54-207 | every change of a state byte is one of the life cycle's, by the party entitled to it and from the state it expects |
| `RingLives.NeverStuck` | src/circular_buffer/mod.rs:891-969 | in every reachable state with a block to evict, a step that brings it or the allocation in its way further can be taken |
| `RingLives.HeadAlwaysGetsOn` | src/circular_buffer/mod.rs:834-969 | and at most twenty-one such steps take the head past it |
| `RingLives.HoldersChoose` | src/circular_buffer/mod.rs:286-311 | a client, the evictor and the allocation can each let go of a block they have, or free it |
| `RingLives.FreedIsReused` | src/circular_buffer/freelist.rs:130-171 | a block given back and asked for again by a request of its class is the one handed out, and the tail does not move |
| `FreeList.FreeList.Remove` | src/circular_buffer/freelist.rs:130-141 | pops the head of the request's class, or finds the list empty |
| `FreeList.FreeList.TryAdd` | src/circular_buffer/freelist.rs:147-171 | refused exactly when too small or locked; otherwise one push, all lists well linked |
| `FreeList.FreeList.FindAndRemove` | src/circular_buffer/freelist.rs:177-200 | unlinks exactly the given block from its linked list and says whether it was there |
| `WalFormat.ReadsBack` | src/wal/mod.rs:286-358 | reading a segment gives back exactly the entries written to it, whatever stale bytes follow the cleared header |
| `WalFormat.EntryLayout` | src/wal/mod.rs:360-395 | where an entry's length, LSN, page offset and payload are, byte by byte, lowest first |
| `WalFormat.WriteOpRoundTrip` | src/wal/operations.rs:32-73 | a logged write is read back with key, value and kind |
| `WalFormat.WriteOpLayout` | src/wal/operations.rs:47-59 | where a write's lengths, kind, key and value are, and which byte stands for which kind |
| `WalFormat.WriteOpExact` | src/wal/operations.rs:32-73 | that holds if and only if key and value fit 16-bit lengths |
| `WalFormat.LongKeyWraps` | src/wal/operations.rs:47-59 | a key of 65536 bytes does not |
| `Wal.AppendOk` | src/wal/mod.rs:196-229 | an append that fits adds one entry to the buffer and nothing to the file |
| `Wal.FlushOk` | src/wal/mod.rs:72-119 | a flush, in place or advancing to a new segment, makes the file read back every entry appended so far |
| `Wal.RunReadsBack` | src/wal/mod.rs:72-119 | in every run of appends and flushes the reader decodes exactly the entries of the last flush, in LSN order, and every append with LSN at least 1 that may have returned is among them |
| `Wal.ReturnedIsDurable` | src/wal/mod.rs:196-229 | an append that may return is in the file if and only if its LSN is at least 1 or a flush has happened |
| `Wal.WriteAheadLog.Append` | src/wal/mod.rs:196-229 | the in-place append takes the next LSN and adds exactly its entry |
| `Wal.WriteAheadLog.Flush` | src/wal/mod.rs:72-119 | after it the file reads back every entry; the segment is kept open if and only if it is less than half full, and otherwise the next one begins |
| `Wal.FirstAppendReturnsEarly` | src/wal/mod.rs:131-152 | a new log lets its first append return with nothing in the file |
| `Scan.ViewFromTree` | src/range_scan.rs:506-559 | the leaf a landing reaches, however cached, is a faithful view of the live keys of its range |
| `ScanStore.TidyHolds` | src/range_scan.rs:389-470 | a reorganisation made on the way keeps every live record where a scan finds it, and adds no work to the scan |
| `ScanStore.LeafCutHolds` | src/range_scan.rs:389-470 | so does a leaf split made on the way, which also leaves fewer mini pages |
| `ScanStore.SettledView` | src/range_scan.rs:506-559 | the leaf the descent for a key finds, once it is no mini page, shows exactly the live records of its range, and the key is in the range |
| `ScanTree.StoredTree.MergeMini` | src/range_scan.rs:418-468 | merging the mini page met, splitting the leaf if it must, ends with no mini page there or with fewer in the tree |
| `ScanTree.StoredTree.Settle` | src/range_scan.rs:389-559 | descending, with any other reorganisations and splits before each attempt, ends at a faithful view of the leaf of the key, with less left to visit |
| `ScanTree.ScanIter.Step` | src/range_scan.rs:307-386 | each step yields the least live key not yet yielded, or finishes only at its count, its end key or the end of the tree, or asks to move to the leaf at the high fence |
| `ScanTree.ScanIter.Land` | src/range_scan.rs:506-559 | moving on, whatever becomes of the tree's shape on the way, keeps what was yielded a complete prefix of the live keys |
| `ScanTree.ScanIter.Next` | src/range_scan.rs:307-386 | one call moves over as many leaves as it must, ends, and yields the next live pair, or finishes with all of them or at its count |
| `ScanTree.ScanIter.PassDeleted` | src/nodes/leaf_node.rs:1896-1961 | skipping deleted records loses no live key |
| `ScanTree.ScanAll` | src/range_scan.rs:307-386 | a scan from any tree returns the least live pairs from the start key, in order: all of them up to the end key or the end, or as many as its count |

## Left out

- The file backends, and their asynchronous I/O: storage is a map from page to content.
- The leaf reader-writer lock, waiting and backoff: the lock is taken as correct, with sole-reader upgrade.
- Weak memory, and torn reads inside one inner node.
- Fairness: it is proved what can always be done next, not that a scheduler does it; and the branch of
  `append_and_wait` that waits for room is not modelled.
- `are_all_threads_in_next_version`: it can answer true too early (`src/snapshot.rs:214-221`), so nothing rests on it.
- `BfTree::recovery`, `LogEntry` and `SplitOp`: unfinished in the source.
- How often reads and scans promote pages: any choice is allowed.
- Cache-only mode.
- The mapping table and page identifiers: a plain table and a tagged union.
- Bit packing of leaf slots and reference bits; slots are records, payload bytes are bytes.
- The byte layout of inner nodes: keys and children are kept as values, space as a count.
- The on-disk layout of the snapshot file; the model ends at the images and tables written to it.
- `split` chooses the middle record's key; the split is proved for every key, so the choice is not modelled.
- Configuration, metrics, tracing, statistics and tools.
- LeafOps.SplitWithKey: needs the fence reserve, which a growing record can break (see above).
- Wal.WriteAheadLog.Append: takes an entry that fits the segment; waiting for room is left out.
- ScanTree.ScanIter.Step: the scan's own reorganisations and splits are there; writes of other threads during the
  scan are not.

# Verified models of the collective schedules and the plan container

The library runs collective operations (allgatherv, allreduce, scatterv, gatherv, ...) over point-to-point messages
and selects, for every message size, one of several registered plans.  This project models the parts whose
correctness is hardest to see and proves what they are for.

**Schedules.**  Every rank runs a loop that computes a partner and a block, posts a send and a receive, waits, and
moves on.  All messages of one operation carry the same tag and the sender's rank, so on a directed pair of ranks the
k-th send meets the k-th posted receive.  `Network.dfy` is that machine: programs of steps, one first-in first-out
channel and one queue of posted receives per directed pair, and three events (post a step, deliver a message, leave a
step) in any order.  Data travels: a buffer maps slots to contents, and a message delivers what the sender held when
it posted.  Two facts about a schedule decide everything: it is `Sound` (every edge's sends are its receives, one by
one, and a step sends only what is held) and `Live` (a clock shows that no wait is circular).  Then every run can go on
until all ranks are done, takes the same number of events whatever the interleaving, and ends with the right content in
every slot the programs ask for.  Progress is proved for sends that wait for their receive, and safety for sends that
do not wait; a run of the real transport lies between the two.

For each algorithm there is a program per rank, a proof that it is sound and live for every group size, and an
imperative model of the code that posts exactly this program: iterator classes, progress loops whose completion test
succeeds any number of times before it reports requests under way, blocking kernels, array-filling loops.  Of
recursive halving only the iterator and the computation of the windows are modelled.

| file | content |
|---|---|
| `Network.dfy`, `LockStep.dfy` | the machine; a simple way to show that a schedule is matched and live |
| `Cyclic.dfy`, `Exchange.dfy` | positions on a ring; schedules in which a step is an exchange with one partner |
| `Rolling.dfy`, `RollingOp.dfy` | the rolling exchange and its iterator and progress loops |
| `Topology.dfy`, `NodeAware.dfy`, `NodeAwareOp.dfy` | node numbers and placements; the two rolling phases composed |
| `RingHpl.dfy`, `Neighbor.dfy`, `Bruck.dfy` | the other allgatherv algorithms over asynchronous messages |
| `Rendezvous.dfy`, `HcclRings.dfy` | scripts of blocking calls; the two blocking rings |
| `Kntree.dfy`, `KntreeIter.dfy`, `TreeOrder.dfy` | the k-nomial tree and its iterator |
| `Items.dfy`, `TreeScatter.dfy`, `TreeGather.dfy` | scatterv and gatherv over the tree as scripts of calls |
| `TreeMemory.dfy`, `TreePlaces.dfy`, `TreeKernels.dfy` | the memory of one rank, where it keeps the blocks, and the two routines |
| `Bits.dfy`, `Doubling.dfy`, `RdRhIter.dfy`, `RdOp.dfy`, `HalvingWindows.dfy` | recursive doubling with its progress routine, recursive halving, halving windows |
| `Plans.dfy`, `PlanList.dfy`, `PlanContainer.dfy`, `Selection.dfy` | the plan container |

**The plan container.**  A list of plans means one thing: for every message size, the stack of plans to try.  `Plans.dfy`
gives that meaning; `PlanList.dfy` and `PlanContainer.dfy` change lists in place as the code does (cutting, interleaving,
demoting, joining, with memory that may run out at any copy) and are proved against it.  `Selection.dfy` is the routine
that picks a plan.

**Conventions.**  A slot of an allgatherv network is a rank's block, except in Bruck, where it is an element of the
receive buffer; in the tree algorithms it is an element of a rank's block; in recursive doubling it stands for the
combined values of an interval of ranks, and the current one of a rank's two buffers holds the slot of the interval
that it has combined so far.  Specifications use `Wrap` where the code takes remainders; the imperative models take the remainders and are
proved equal.  The exclusive or with a single bit is `Bits.Toggle`, defined on the binary digits.

## Three places where the code does not do what it is meant to

* **Tree scatterv and gatherv, root other than rank 0.**  The ranks that forward blocks take the counts from the first
  entry of an all-to-all exchange of counts, that is, from what rank 0 contributed, and only the root fills in its
  contribution (`src/planc/hccl/scatterv/scatterv_kntree.c:73-86`, `src/planc/hccl/gatherv/gatherv_kntree.c:68-81`).  The
  model has this table of counts as a parameter.  The calls match exactly if the table is right about the forwarded
  blocks (`TreeScatter.MatchedIffTableRight`, `TreeGather.MatchedIffTableRight`); whatever uninitialised memory holds,
  they match exactly if the root is rank 0 or there are at most three ranks (`TreeScatter.AlwaysMatchedIff`,
  `TreeGather.AlwaysMatchedIff`).  `TreeScatter.WrongTable` gives a table that breaks every other case.  Delivery is
  proved under the condition that the table is right.
* **Plan selection.**  Fallbacks that share the owner's prepare routine are passed over even if they come from another
  group, so an accepting plan can be missed (`src/core/ucg_plan.c:902-904`).  `Selection.HiddenExample` is such a list,
  one that adding two plans produces, and
  `Selection.FaithfulIff` says exactly when selection agrees with the bag of plans for a size: if no fallback for that
  size has the owner's routine with another group.
* **K-nomial tree of one rank, leftmost order.**  A given degree of two or more is cut down to the size, that is, to
  one (`src/util/algo/ucg_kntree.c:72-75`), and the leftmost search for a child then goes round for ever with stride 1
  (`src/util/algo/ucg_kntree.c:9-30`).  `KntreeIter.OneRankSearches` is this search for degree two, and
  `KntreeIter.LeftSearchEndsIff` says for every size, degree and position that the search ends exactly if there are two
  ranks or more or the given degree is at most one.  The rightmost search ends always.  The iterator is modelled
  wherever its first search ends.

## Model

| member | source | states |
|---|---|---|
| `Network.EveryRunCompletes` | src/planc/ucx/allgatherv/allgatherv_na_rolling.c:147-187 | any schedule that is sound and live completes in every interleaving: no run gets stuck, all runs have the same length, and the final buffers are right |
| `Network.MessagesMeetTheirReceives` | src/planc/ucx/allgatherv/allgatherv_ring_hpl.c:73-93 | at any moment of any run the next message on an edge holds exactly the data that the receive it will meet was posted for |
| `Network.RunLength` | src/planc/ucx/allgatherv/allgatherv_na_rolling.c:147-187 | every event uses up one unit of work, so runs end |
| `LockStep.MatchedAndLive` | src/planc/ucx/allgatherv/allgatherv_na_rolling.c:147-187 | if exchanges happen at equal clock readings on every edge, sends and receives match one by one and no wait is circular |
| `Exchange.PlanGathers` | src/planc/ucx/allgatherv/allgatherv_ring_hpl.c:65-101 | any schedule of mutual exchanges that sends only held blocks and ends with all blocks gathers them in every run |
| `Rolling.XchgSymmetric` | src/planc/ucx/allgatherv/allgatherv_na_rolling.c:48-145 | in every odd and even step both partners see the same exchange: the block sent is the one the peer posted a receive for |
| `Rolling.PeersDiffer` | src/planc/ucx/allgatherv/allgatherv_na_rolling.c:60-92 | a rank has one exchange in a step; rank 0 of an odd group has two in odd steps, with different partners, and none in even ones |
| `Rolling.WindowGrows` | src/planc/ucx/allgatherv/allgatherv_na_rolling.c:147-187 | a step adds exactly the blocks it takes to the cyclic window, all of them new, and gives only blocks of the window |
| `Rolling.WindowEnds` | src/util/algo/ucg_rolling.h:68-74 | the window starts as the own block and is everything after the last step |
| `Rolling.RankHolds` | src/planc/ucx/allgatherv/allgatherv_na_rolling.c:147-187 | before every step a rank holds exactly the blocks from the left to the right end of its window |
| `Rolling.RollingAllgather` | src/planc/ucx/allgatherv/allgatherv_na_rolling.c:48-187 | rolling allgather works for every group size and every interleaving |
| `RollingOp.RollingIter.constructor` | src/util/algo/ucg_rolling.c:8-17 | the window starts at the own rank with the flags down, and the first step is an odd one |
| `RollingOp.RollingIter.LeftInc` | src/util/algo/ucg_rolling.h:79-83 | the left end moves one position back on the ring |
| `RollingOp.RollingIter.RightInc` | src/util/algo/ucg_rolling.h:88-92 | the right end moves one position forward on the ring |
| `RollingOp.FullAtEnd` | src/util/algo/ucg_rolling.h:68-74 | the test for a full window is true exactly after the last step |
| `RollingOp.EndsMove` | src/planc/ucx/allgatherv/allgatherv_na_rolling.c:174-182 | which ends of the window move after an odd and an even step |
| `RollingOp.PostOdd` | src/planc/ucx/allgatherv/allgatherv_na_rolling.c:253-301 | the requests and flags of an odd step are those of the exchange pattern |
| `RollingOp.PostEven` | src/planc/ucx/allgatherv/allgatherv_na_rolling.c:303-351 | the requests and flags of an even step; rank 0 of an odd group posts none |
| `RollingOp.RollingOp.PostSlices` | src/planc/ucx/allgatherv/allgatherv_na_rolling.c:372-382 | one step posts its exchanges once per node slice, with the displacement pointer shifted and restored |
| `RollingOp.RollingOp.Progress` | src/planc/ucx/allgatherv/allgatherv_na_rolling.c:353-399 | however often it is called and whenever requests complete, the progress loop posts exactly the program that the theorem is about, each step once, and reports success exactly when it has posted all of it |
| `Topology.IdsDense` | src/core/ucg_topo.c:457-485 | node numbers are distinct per node and are exactly 0 up to the number of nodes |
| `Topology.FillIdHash` | src/core/ucg_topo.c:457-485 | numbers are given in the order of first appearance and never overwritten |
| `Topology.FirstAppearance` | src/core/ucg_topo.c:457-485 | the number of a node is the number of different nodes before its first rank |
| `Topology.SameNode` | src/core/ucg_topo.c:514-529 | two ranks have the same node number exactly if they are on the same node |
| `Topology.InitDetail` | src/core/ucg_topo.c:487-553 | node count, node number of every rank, and whether every node's ranks are consecutive |
| `Topology.ScanContinuous` | src/core/ucg_topo.c:534-553 | the scan is positive exactly if of any three ranks in order the outer two are on one node only together with the middle one |
| `Topology.ContinuousIsOrdered` | src/planc/ucx/allgatherv/allgatherv_na_rolling.c:506-518 | on consecutive balanced placements the node order of the ranks is their own order, so the permutation may be skipped |
| `Topology.CalcPpn` | src/core/ucg_topo.c:575-610 | a number exactly if all nodes that have ranks have equally many; unbalanced if two differ; unknown without nodes |
| `Topology.PpnOf` | src/core/ucg_topo.c:575-610 | for real ranks a number is the ranks per node of a balanced placement, and unbalanced means there is none |
| `Topology.CreateNodeGroup` | src/core/ucg_topo.c:304-393 | a node group lists the node's ranks in ascending order and finds the own place |
| `Topology.GetGlobalRanks` | src/planc/ucx/allgatherv/allgatherv_na_rolling.c:451-473 | the filled table lists node after node the ranks of the node in ascending order |
| `Topology.LeadersPartition` | src/planc/ucx/planc_ucx_group.c:160-253 | the groups of equal offset partition the ranks: each rank is in the group of its offset only, as the member of its node |
| `Topology.CreateLeaderGroup` | src/planc/ucx/planc_ucx_group.c:191-232 | the group found by walking the global order is the ranks with the own offset in node order, and the own place is the node number |
| `Topology.OrderForPhases` | src/planc/ucx/allgatherv/allgatherv_na_rolling.c:504-518 | the displacements are permuted into node order whether the table is looked up or not |
| `Topology.InterDispls` | src/planc/ucx/allgatherv/allgatherv_meta.c:46-62 | the displacements of the phase between nodes are those of the ranks with the own offset, one per node |
| `NodeAware.InterAgrees` | src/planc/ucx/allgatherv/allgatherv_na_rolling.c:48-145 | in the phase between nodes any two ranks agree in every step on what passes between them |
| `NodeAware.IntraAgrees` | src/planc/ucx/allgatherv/allgatherv_na_rolling.c:253-351 | the same in the phase inside the nodes, with one block per node in every step |
| `NodeAware.HeldBetween` | src/planc/ucx/allgatherv/allgatherv_na_rolling.c:147-187 | between the phases a rank holds the blocks of its equal-offset group |
| `NodeAware.PhasesJoin` | src/planc/ucx/allgatherv/allgatherv_na_rolling.c:475-549 | what the first phase leaves is what the second starts from: the own-offset block of every node slice |
| `NodeAware.NodeAwareAllgather` | src/planc/ucx/allgatherv/allgatherv_na_rolling.c:475-549 | for every balanced placement, consecutive or not, the composed operation leaves every rank with every rank's block in that rank's place, in every interleaving |
| `NodeAwareOp.NodeAwareOp.constructor` | src/planc/ucx/allgatherv/allgatherv_na_rolling.c:475-549 | the set-up gives the two operations the groups, ranks and permuted displacements that the composed program needs |
| `NodeAwareOp.NodeAwareOp.Progress` | src/core/ucg_plan.c:59-87 | only the current sub-operation progresses, the next starts after it is complete, and the requests posted are the composed program |
| `RingHpl.Partners` | src/planc/ucx/allgatherv/allgatherv_ring_hpl.c:65-93 | every step is one side of a mutual exchange; at odd sizes the two ends of the wrap edge are one step apart |
| `RingHpl.WindowStep` | src/planc/ucx/allgatherv/allgatherv_ring_hpl.c:71-93 | the block sent is held, and the block received is new and extends the window by one |
| `RingHpl.RingHplAllgather` | src/planc/ucx/allgatherv/allgatherv_ring_hpl.c:46-106 | Ring-HPL gathers all blocks for every group size, even and odd, in every interleaving |
| `RingHpl.StepRequests` | src/planc/ucx/allgatherv/allgatherv_ring_hpl.c:67-92 | the loop computes the partner and the two blocks of the schedule |
| `RingHpl.RingHplOp.Progress` | src/planc/ucx/allgatherv/allgatherv_ring_hpl.c:46-106 | what the progress loop has posted is always the beginning of the program that gathers, and all of it when the loop is done, after n - 1 steps |
| `Neighbor.TermsMatch` | src/planc/ucx/allgatherv/allgatherv_neighbor.c:91-119 | the pair a rank passes on is the pair its partner computed for its receive |
| `Neighbor.RoundGrows` | src/planc/ucx/allgatherv/allgatherv_neighbor.c:91-122 | a round adds exactly two new blocks and sends two held ones: each block is received once |
| `Neighbor.NeighborAllgather` | src/planc/ucx/allgatherv/allgatherv_neighbor.c:24-189 | neighbour exchange gathers all blocks for every even group size, in every interleaving |
| `Neighbor.NextPair` | src/planc/ucx/allgatherv/allgatherv_neighbor.c:107-114 | moving on by two keeps the first block of a pair even and the second one in range |
| `Neighbor.NeighborOp.constructor` | src/planc/ucx/allgatherv/allgatherv_neighbor.c:191-218 | the reset establishes neighbours, offsets and starting pairs of both parities |
| `Neighbor.NeighborOp.Progress` | src/planc/ucx/allgatherv/allgatherv_neighbor.c:68-189 | what has been posted is always the beginning of the program that gathers, and all of it when the operation is done, after n / 2 steps |
| `Bruck.MergedElems` | src/planc/ucx/allgatherv/allgatherv_bruck.c:96-119 | coalesced segments cover the same elements in the same order |
| `Bruck.MergedFully` | src/planc/ucx/allgatherv/allgatherv_bruck.c:101-119 | no two neighbouring coalesced segments could be joined |
| `Bruck.Coalesce` | src/planc/ucx/allgatherv/allgatherv_bruck.c:96-119 | the in-place loop computes the coalesced segments |
| `Bruck.RoundAgrees` | src/planc/ucx/allgatherv/allgatherv_bruck.c:78-134 | sender and receiver have the same segments message by message |
| `Bruck.WindowDoubles` | src/planc/ucx/allgatherv/allgatherv_bruck.c:78-137 | a round extends the blocks held from the distance to twice the distance, or to all, with no block received twice |
| `Bruck.HeldIs` | src/planc/ucx/allgatherv/allgatherv_bruck.c:78-137 | before every round a rank has exactly the elements of the blocks less than the distance in front of it |
| `Bruck.BruckAllgatherv` | src/planc/ucx/allgatherv/allgatherv_bruck.c:59-142 | Bruck gathers all elements for every group size, every layout and every interleaving |
| `Bruck.BruckOp.Progress` | src/planc/ucx/allgatherv/allgatherv_bruck.c:59-142 | what the progress loop has posted is always the beginning of the program that gathers, and all of it when the loop is done; the distance doubles until it reaches the size |
| `Rendezvous.ScriptDelivers` | src/planc/hccl/allgatherv/allgatherv_ring.c:34-43 | scripts of blocking calls whose messages pair up by a clock never get stuck and deliver their data |
| `HcclRings.RingAllgather` | src/planc/hccl/allgatherv/allgatherv_ring.c:44-77 | the blocking ring, rank 0 sending first and the others receiving first, completes on every size and gathers all blocks |
| `HcclRings.RingKernel` | src/planc/hccl/allgatherv/allgatherv_ring.c:44-77 | the kernel makes exactly these calls in this order |
| `HcclRings.OneIsLeft` | src/planc/hccl/allgatherv/allgatherv_ring_hpl.c:69-75 | of the two partners of a step exactly one sends first, for two ranks as for more |
| `HcclRings.HplAllgather` | src/planc/hccl/allgatherv/allgatherv_ring_hpl.c:69-118 | blocking Ring-HPL completes on every size, odd ones included, and gathers all blocks |
| `HcclRings.HplKernel` | src/planc/hccl/allgatherv/allgatherv_ring_hpl.c:66-118 | the kernel makes exactly these calls in this order |
| `Kntree.TopIs` | src/util/algo/ucg_kntree.c:85-100 | the loop for the parent finds the largest block of the tree that a rank heads |
| `Kntree.ChildIsOwn` | src/util/algo/ucg_kntree.c:9-30 | an enumerated child has the enumerating rank as parent and a subtree of the size of its stride |
| `Kntree.ChildIffParent` | src/util/algo/ucg_kntree.c:9-105 | a rank enumerates exactly the ranks whose parent it is, for any degree |
| `Kntree.SubtreeIsInterval` | src/util/algo/ucg_kntree.c:9-105 | the subtree of a rank is one contiguous interval that starts with the rank |
| `Kntree.Spanning` | src/util/algo/ucg_kntree.c:85-97 | the parents form a spanning tree rooted at the root |
| `KntreeIter.KidsAreChildren` | src/util/algo/ucg_kntree.c:9-30 | leftmost enumeration yields c exactly if c's parent is the rank |
| `KntreeIter.RightIsReversed` | src/util/algo/ucg_kntree.c:9-54 | rightmost enumeration is the reverse of leftmost enumeration |
| `KntreeIter.LeftmostOrder` | src/util/algo/ucg_kntree.c:9-30 | leftmost enumeration gives large blocks first and blocks of one size in ascending order |
| `KntreeIter.AllCounted` | src/util/algo/ucg_kntree.c:123-136 | a rank and the subtrees of its children make up its subtree |
| `KntreeIter.NextLeft` | src/util/algo/ucg_kntree.c:9-30 | the leftmost search stops at the next child or finds that none is left; it is the search of `LeftSearchEndsIff`, round by round |
| `KntreeIter.NextRight` | src/util/algo/ucg_kntree.c:32-54 | the rightmost search stops at the next child or finds that none is left |
| `KntreeIter.FindParent` | src/util/algo/ucg_kntree.c:83-98 | the loop returns the parent and the block size of the specification |
| `KntreeIter.LeftSearchEndsIff` | src/util/algo/ucg_kntree.c:9-75 | the leftmost search for a child ends exactly if there are two ranks or more or the given degree is at most one |
| `KntreeIter.OneRankSearches` | src/util/algo/ucg_kntree.c:9-75 | with one rank and degree two every round leaves the leftmost search at stride 1 |
| `KntreeIter.VirtualIs` | src/util/algo/ucg_kntree.c:78 | the virtual rank is the distance behind the root around the ring |
| `KntreeIter.Iterator.constructor` | src/util/algo/ucg_kntree.c:66-105 | wherever the first search ends: the degree is two at least and the lesser of degree and size otherwise, parent and first child are found, and the children left are all children |
| `KntreeIter.Iterator.ChildInc` | src/util/algo/ucg_kntree.c:116-121 | drops exactly the current child |
| `KntreeIter.GetSubtreeSize` | src/util/algo/ucg_kntree.c:123-136 | the recursive count is the length of the subtree's interval |
| `TreeScatter.EndsAgree` | src/planc/hccl/scatterv/scatterv_kntree.c:134-196 | a receive and the parent's send are the same message if the table of counts is right |
| `TreeScatter.ScatterInTime` | src/planc/hccl/scatterv/scatterv_kntree.c:134-196 | a rank's calls come in the order of one global time |
| `TreeScatter.ScatterHasBefore` | src/planc/hccl/scatterv/scatterv_kntree.c:134-196 | a rank sends only blocks of the root or blocks it has received before |
| `TreeScatter.TreeScatterDelivers` | src/planc/hccl/scatterv/scatterv_kntree.c:88-196 | with a right table no run gets stuck and every rank ends with exactly its own block |
| `TreeScatter.MatchedIffTableRight` | src/planc/hccl/scatterv/scatterv_kntree.c:73-86 | the two ends of every edge agree exactly if the table is right about the forwarded blocks |
| `TreeScatter.AlwaysMatchedIff` | src/planc/hccl/scatterv/scatterv_kntree.c:73-86 | whatever rank 0's buffer holds, they agree exactly if rank 0 is the root or there are at most three ranks |
| `TreeScatter.WrongTable` | src/planc/hccl/scatterv/scatterv_kntree.c:73-86 | a table that is wrong for any other root and four ranks or more |
| `TreeGather.GatherInTime` | src/planc/hccl/gatherv/gatherv_kntree.c:112-197 | a rank's calls come in the order of one global time although children are served largest subtree first |
| `TreeGather.TreeGatherDelivers` | src/planc/hccl/gatherv/gatherv_kntree.c:83-197 | with a right table no run gets stuck and the root ends with every rank's block; empty blocks are skipped at both ends |
| `TreeGather.GatherAfterScatter` | src/planc/hccl/gatherv/gatherv_kntree.c:83-197 | gathering what was scattered gives the root its blocks back |
| `TreeGather.MatchedIffTableRight` | src/planc/hccl/gatherv/gatherv_kntree.c:68-81 | the two ends of every edge agree exactly if the table is right about the forwarded blocks |
| `TreeGather.AlwaysMatchedIff` | src/planc/hccl/gatherv/gatherv_kntree.c:68-81 | whatever rank 0's buffer holds, they agree exactly if rank 0 is the root or there are at most three ranks |
| `TreePlaces.StagingApart` | src/planc/hccl/scatterv/scatterv_kntree.c:95-106 | staged blocks do not overlap and follow one another |
| `TreePlaces.ScatterMemoryOk` | src/planc/hccl/scatterv/scatterv_kntree.c:124-196 | for the calls of any rank: if the root's buffer holds all blocks at the caller's displacements, every send reads the elements of the block that it is to send; different blocks use disjoint memory; a rank other than the root ends with its own block in its own buffer |
| `TreePlaces.GatherMemoryOk` | src/planc/hccl/gatherv/gatherv_kntree.c:112-197 | for the calls of any rank: every send reads the elements of its block, different blocks use disjoint memory, and the root ends with every block at the caller's displacement for it |
| `TreeKernels.StagingIndex` | src/planc/hccl/scatterv/scatterv_kntree.c:181-184 | the index computed from rank and block is the block's distance behind the rank, less one |
| `TreeKernels.StagingDispls` | src/planc/hccl/scatterv/scatterv_kntree.c:95-106 | the displacement table holds the offsets of the blocks behind the rank |
| `TreeKernels.ScattervKntree` | src/planc/hccl/scatterv/scatterv_kntree.c:88-196 | the routine makes the calls of the script in order; at the root every block is read at its own displacement; in the memory that the calls produce every send reads exactly the elements of its block, and the own block ends in the own buffer |
| `TreeKernels.GathervKntree` | src/planc/hccl/gatherv/gatherv_kntree.c:83-197 | the routine makes the calls of the script in order, empty blocks passed over; in the memory that the calls produce every send reads exactly the elements of its block, and the root ends with every block at its own displacement |
| `Doubling.Partners` | src/util/algo/ucg_rd.c:16-31 | partners of a base step are mutual, and the lower rank is the one with the lower interval |
| `Doubling.Halves` | src/planc/ucx/allreduce/allreduce_rd.c:44-73 | the two sides of a base step are neighbouring rank intervals, disjoint, that make up the next one |
| `Doubling.FoldRight` | src/planc/ucx/allreduce/allreduce_rd.c:60-70 | both partners combine the lower interval on the left |
| `Doubling.AllCombined` | src/planc/ucx/allreduce/allreduce_rd.c:44-73 | after all base steps the interval is the whole group |
| `Doubling.EdgesMatch` | src/planc/ucx/allreduce/allreduce_rd.c:82-151 | the sends and receives of extra, proxy and base ranks pair up in order on every edge |
| `Doubling.EdgesLive` | src/planc/ucx/allreduce/allreduce_rd.c:82-151 | no wait is circular although extra ranks wait for both their messages at once |
| `Doubling.RdAllreduce` | src/planc/ucx/allreduce/allreduce_rd.c:31-169 | for every size and associative operator every rank ends with each rank's value combined exactly once, in rank order |
| `RdRhIter.PeersAreMutual` | src/util/algo/ucg_rd.c:21-31 | base partners are each other's partners and never extra ranks |
| `RdRhIter.ProgramFollowsPeers` | src/planc/ucx/allreduce/allreduce_rd.c:44-56 | the program's partners are the iterator's values in order |
| `RdRhIter.RdIter.constructor` | src/util/algo/ucg_rd.c:41-68 | type, number of steps and first partner of a rank |
| `RdRhIter.RdIter.Type` | src/util/algo/ucg_rd.h:98-101 | of the first ranks, twice as many as exceed the power of two, the even ones are extra and the odd ones proxies |
| `RdRhIter.RdIter.Inc` | src/util/algo/ucg_rd.c:77-81 | the iterator runs through the partners in order and ends behind the last |
| `RdOp.CourseIsRight` | src/planc/ucx/allreduce/allreduce_rd.c:31-151 | the program of an extra, proxy or base rank, with the value of the right interval arriving in every step, amounts to sending the result so far and combining it with the arrival, the lower rank's on the left, from the own value up to the combination of all ranks |
| `RdOp.Combine` | src/planc/ucx/allreduce/allreduce_rd.c:60-70 | whichever buffer is the current one, afterwards the current one holds the two values combined in rank order |
| `RdOp.RdOp.Progress` | src/planc/ucx/allreduce/allreduce_rd.c:31-169 | however often it is called and whenever requests complete, the flags post every step of the program once and in order, the current one of the two swapped buffers holds the result so far, and at the end the caller's buffer holds the combination of all ranks |
| `RdRhIter.RhClasses` | src/util/algo/ucg_rh.c:59-66 | after t steps of halving a base rank has combined exactly the ranks that agree with it in the remaining lower bits |
| `RdRhIter.RhDisjoint` | src/util/algo/ucg_rh.c:59-66 | in every step partners are mutual and have combined disjoint sets of ranks |
| `RdRhIter.RhComplete` | src/util/algo/ucg_rh.c:59-66 | after the last step every base rank has combined every rank |
| `RdRhIter.RhIter.constructor` | src/util/algo/ucg_rh.c:20-39 | base, proxy and extra ranks of a group of any size |
| `RdRhIter.RhIter.GetExtra` | src/util/algo/ucg_rh.c:41-48 | proxies, and only they, get the extra rank that they answer for, one power of two behind them |
| `RdRhIter.RhIter.GetProxy` | src/util/algo/ucg_rh.c:50-57 | extra ranks, and only they, get their proxy, one power of two in front of them |
| `RdRhIter.RhIter.GetNextBase` | src/util/algo/ucg_rh.c:59-66 | base ranks get their partners, highest bit first, and then none |
| `HalvingWindows.PartnersShare` | src/planc/ucx/allreduce/allreduce_meta.c:264-283 | partners start from the same window, one keeps what the other sends, the two parts split the window, and the lower of the two keeps the first half, rounded down |
| `HalvingWindows.WindowsPartition` | src/planc/ucx/allreduce/allreduce_meta.c:264-289 | the final windows of the active ranks partition the elements, for any count |
| `HalvingWindows.GetRdArgs` | src/planc/ucx/allreduce/allreduce_meta.c:229-289 | for every rank the index and count arrays record the kept and the sent window of every step, and the result is the final window; a rank that takes no part has number -1 and goes through the windows of the last active rank |
| `Plans.SplitAtKeeps` | src/core/ucg_plan.c:384-406 | splitting a plan changes no lookup and keeps the list well formed |
| `Plans.DemotedIsGood` | src/core/ucg_plan.c:222-246 | flattening the loser and its fallbacks into the winner joins the two bags, keeps the fallbacks sorted by score and none above the owner |
| `Plans.DemotedOrder` | src/core/ucg_plan.c:222-246 | among fallbacks of one score the winner's come first, then the loser's, then the loser itself |
| `Plans.InsertPos` | src/core/ucg_plan.c:236-243 | a fallback goes behind all that score at least as much and before the first that scores less |
| `Plans.CompactedKeeps` | src/core/ucg_plan.c:484-506 | compaction keeps every lookup, down to the order of the stack, and the list well formed |
| `Plans.CompactedFully` | src/core/ucg_plan.c:484-506 | afterwards no two neighbours can be joined |
| `Plans.CompactibleIff` | src/core/ucg_plan.c:408-446 | two plans are joined exactly if their ranges adjoin and they mean the same stack |
| `Plans.CompactedUnique` | src/core/ucg_plan.c:484-506 | a compacted list is determined by its lookups: two of them with the same lookups have the same ranges and stacks |
| `Plans.CompactedTwice` | src/core/ucg_plan.c:484-506 | compacting twice is compacting once |
| `PlanList.CutPlan` | src/core/ucg_plan.c:533-541 | cutting an existing plan leaves all settled pieces equal to or apart from the plans |
| `PlanList.CutPiece` | src/core/ucg_plan.c:543-553 | cutting the new plan does too |
| `PlanList.PlanList.NormaliseOne` | src/core/ucg_plan.c:511-566 | terminates although it revisits plans; afterwards ranges are equal or disjoint and the pieces tile the new plan; lookups never change, and it fails exactly if memory runs out |
| `PlanList.IsCompactible` | src/core/ucg_plan.c:408-446 | two plans can be joined exactly if all keys agree pairwise and all ranges adjoin, that is, if their ranges adjoin and their stacks are equal |
| `PlanList.AddFallback` | src/core/ucg_plan.c:222-246 | the loop computes the flattened and sorted fallback list |
| `PlanList.PlanList.AddOne` | src/core/ucg_plan.c:568-618 | for every message size the bag gains exactly the new plan and its fallbacks if the size is in its range; an old owner stays if it scores at least as much, otherwise the new plan takes over; the fallbacks of each score are the winner's, the loser's and the loser, in this order; other sizes keep their stacks, and without memory no lookup changes |
| `PlanList.PlanList.CompactOne` | src/core/ucg_plan.c:484-506 | the in-place loop computes the compacted list: no lookup changes, and where one range ends and the next begins the stack changes |
| `PlanList.PlanList.MergeOne` | src/core/ucg_plan.c:634-653 | for every message size the bag gains exactly the plans of the other list, the better owner stays, the old one on a draw, and the result is compacted: adjoining ranges have different stacks |
| `PlanContainer.Container.Add` | src/core/ucg_plan.c:717-746 | plans without routine, name or domain, with an empty range or for no slot are refused; refusals, deprecated plans and lack of memory change no lookup; success adds the plan to its own slot only, by the rule for owners, and leaves adjoining ranges with different stacks |
| `PlanContainer.Merge` | src/core/ucg_plan.c:748-789 | the result is the pointwise union of bags in every slot, with the better owner, that of the destination on a draw; on failure the destination is untouched; self-merge does nothing |
| `Selection.Lookup` | src/core/ucg_plan.c:868-882 | the search with early exit finds the stack of the message size |
| `Selection.SelectIsFirst` | src/core/ucg_plan.c:884-915 | a selection takes the first plan of the stack that is tried and accepts, and fails exactly if all that are tried refuse |
| `Selection.Prepare` | src/core/ucg_plan.c:847-916 | for a size the first plan of its stack that is tried and accepts is chosen, and if no fallback is hidden some plan is chosen exactly if one of the bag accepts; with reselection an owner that accepts is chosen, and otherwise the same holds at size 0; candidates are tried by non-increasing score |
| `Selection.FaithfulIff` | src/core/ucg_plan.c:884-915 | selection agrees with the bag for all prepare routines exactly if no fallback has the owner's routine with another group |
| `Selection.HiddenExample` | src/core/ucg_plan.c:900-912 | a well-formed list, one that adding two plans produces, for which an accepting plan is missed |
| `Selection.StackDescends` | src/core/ucg_plan.c:899-912 | the stack for a size has non-increasing scores |

## Left out

- Transport, registration, device memory, streams, completion objects and error statuses of the transport: messages are first-in first-out channels, and a completion test succeeds or reports requests under way.
- Byte addresses and datatypes: one element type, and offsets count elements; the local copy of the own block into the receive buffer is the initial state of a network or of a rank's memory.
- TreeKernels.ScattervKntree and TreeKernels.GathervKntree: the caller's displacements are given to every rank, but only the root uses them; a receive stores the elements that the delivery theorems prove it brings.
- Ranks whose location is unknown: the topology models take a node for every rank, and the statuses for missing groups and failed allocations in the set-up of the node-aware operation are not modelled.
- The test that refuses a single node and one rank per node: the composed theorem covers these placements as well.
- KntreeIter.Iterator.constructor: excludes one rank with a degree of two or more in leftmost order, the case in which the first search does not end (`KntreeIter.LeftSearchEndsIff`), so it has no end state to describe.
- Tree scatterv and gatherv of one rank: both kernels ask for degree two in leftmost order, so this is that case.
- TreeScatter.TreeScatterDelivers: delivery is stated for a right table of counts; the exact condition for that is stated separately.
- TreeGather.TreeGatherDelivers: the same.
- Plan identifiers, names, domains and vgroup sizes in selection; attribute strings and policies.
- Selection.Prepare: a prepare routine is a function of the routine and the group, the same for every call within one selection.
- Bruck.BruckOp.Progress: send and receive segments are coalesced one after the other instead of in one loop, and a segment is one array element instead of two.
- Lists are sequences that the methods reassign, so the link fields of the plan lists and the release of plans are not modelled; a copy of a plan fails as a whole and then leaves nothing behind.
- Machine integer overflow, logging, locks, memory pools, profiling, configuration and plug-in loading.
- Socket-aware leader groups, the blocking broadcast ring, linear scatterv and gatherv: they add nothing harder.

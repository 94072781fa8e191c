# b-jvm: verified models

Dafny models of the parts of b-jvm, a Java virtual machine in C, whose correctness is least obvious from the code, with
proofs of what those parts guarantee.

* **Collector** (`Memory`, `Mark`, `PointerSort`, `Slide`, `Relocate`, `Collector`, `HeapGraph`, `PendingReferences`,
  `RawHeap`, `HeapUpdates`, `Survival`, `JavaHeap`, `RepeatedRoots`). Memory is an array of eight-byte words, each of
  which can hold a pointer; in the wasm32 build pointers have four bytes, which is not modelled. `MajorGc` marks,
  sorts, slides and rewrites in place as the source does; its contract says what every word holds afterwards, also
  when a root slot is listed several times. From that follow the isomorphism of the reachable graph, and the survival
  of identity hashes and of the pending-reference list. `JavaHeap.Heap` puts allocation, monitor inflation, hashing,
  stores and collections together: the empty heap has, and every operation keeps, one invariant, so it holds in every
  reachable state. That invariant contains what the slide silently relies on: a monitor record lies above its object.
* **Control flow** (`Cfg`, `DepthFirst`, `Semidominators`, `Dominance`, `ImmediateDominators`, `DominatorTree`,
  `Reducibility`, `Stackifier`, `StackifierOrder`, `CodeOrder`). Depth-first numbering, the semidominator loop with path
  halving, the last dominator phase, interval ancestor queries, the reducibility test, and the emission order with its
  wasm blocks and loops; `CodeOrder` composes them all.
* **One-slot values** (`TwoSlot`, `WidthAnalysis`, `LocalSwizzle`, `WidthCollapse`, `StackHandlers`, `CompiledCode`). The
  reference is the Java Virtual Machine Specification, sections 2.6.1, 2.6.2, 2.11.1 and the `dup*`, `pop*` and `swap`
  entries of section 6.5. `CompiledCode` goes from the analysis of a method to the state its handlers end in.
* **Type refinement** without a StackMapTable (`TypeRefinement`) and **field layout** (`FieldLayout`, `FieldAccess`).
* **Concurrency** (`ClassInit`, `ClassInitExample`, `Monitors`): transition systems whose steps are the pieces of code
  between yields.
* **Hash table** (`HashTable`), refining a finite map, and the **thread stack scan** (`ThreadScan`).

Where the code and its comments disagree, the model follows the code:

* The last dominator phase minimises the preorder number, not the semidominator (`vm/analysis.c:1351-1356`). The block
  it settles on for w is right exactly when no block on the tree path below it down to w has a semidominator numbered
  before it, and the emitted order is right exactly when that holds for every block and the graph is accepted as
  reducible. `ComputedCanBeWrong` gives a graph where it fails. That graph is accepted all the same, and its blocks are
  ordered 0, 1, 3, 4, 2 although there is a forward edge from 2 to 4 (`CodeOrder.WrongOrder`).
* A loop requested at a position is opened before the blocks requested there, because it ends later; the comment at
  `vm/dumb_jit.c:1788` says blocks come first.
* `hash_table_reserve` multiplies by the load factor instead of dividing, so the table it makes grows again
  while the announced entries are inserted, exactly if there are more than two (`vm/adt.c:295-299`).
* The comment at `vm/bjvm.c:1729-1730` says that the local `error` is not used across awaits. It is: a `<clinit>` that is
  suspended, and then throws something that is no Error, reaches `vm/bjvm.c:1816` with `error` unassigned, because the
  resumed function jumps past its declaration (`vm/async.h:187-202`). The class may then become erroneous. In every
  other case a `<clinit>`, even one that throws, leaves its class INITIALIZED.
* Running out of memory at `vm/bjvm.c:1774-1778` leaves a class INITIALIZING for ever; other threads that need it spin.
* `vm/gc.c:66-67` pushes both members of a union as roots, so the slot is rewritten twice. That is right exactly when the
  new address of its target is not also the old address of a live object that moves (`RepeatedRightIff`).
* Reference slots are stored as 16-bit word indices, which is exact if and only if every reference field lies below 512 KiB.
* A monitor's hold count is a 32-bit number: the 2^32-th nested acquire makes it zero while the monitor is owned.
* `dup2` on a float continues with the integer table (`vm/interpreter2.c:2449-2456`).
* The analysis accepts some stack instructions that split a long or double (`WidthAnalysis.Lenient`).

## Model

| member | source | states |
|---|---|---|
| `Mark.Visit` | vm/gc.c:260-265 | A reference that points into the heap to an unmarked object marks exactly that object, wherever its mark word lies, and queues it; anything else changes nothing. |
| `Mark.VisitSlots` | vm/gc.c:251-277 | After the fields or elements of an object have been visited, every object it refers to strongly is marked, and only those have been added. |
| `Mark.MarkReachable` | vm/gc.c:245-278 | One step of the worklist: the object and its monitor are listed once more, its strong targets are marked, and the marked set stays the finished objects plus the worklist. |
| `Mark.VisitRoots` | vm/gc.c:421-427 | The targets of all roots, and nothing else, are marked and queued, each once. |
| `Mark.MarkPhase` | vm/gc.c:421-434 | Marking ends with a list of every object strongly reachable from the roots exactly once, one tagged entry for each of their monitors, and nothing else; no memory but the mark bits has changed. |
| `Mark.LiveIsReachable` | vm/gc.c:421-434 | A set of objects that contains the root targets and is closed under strong references contains everything reachable. |
| `Mark.FlagMeansMarked` | vm/gc.c:240-243 | Reading the mark bit through a header or a monitor tells exactly whether the object has been marked. |
| `PointerSort.Partition` | vm/gc.c:311-327 | Splits a segment around a pivot by in-place swaps: a permutation, with nothing above the pivot left of the split and nothing below it right of it. |
| `PointerSort.Quicksort` | vm/gc.c:307-330 | Sorts a segment in place: a permutation of the old contents, in order, with the rest of the array untouched. |
| `PointerSort.SortedDistinct` | vm/gc.c:437-438 | Sorting a list without repetitions gives a strictly increasing list of the same elements. |
| `PointerSort.BinarySearch` | vm/gc.c:290-304 | In a strictly increasing list, finds the position of a key if and only if the key is there. |
| `Slide.LocBelow` | vm/gc.c:449-458 | The write pointer never passes the next live block, and never the old end of the heap. |
| `Slide.ClearReachable` | vm/gc.c:466-468 | Clears the mark bit of exactly one object that has not been moved, through its monitor if it has one. |
| `Slide.MemMove` | vm/gc.c:469 | Copies a possibly overlapping range of words as it was before the copy. |
| `Slide.MoveBlock` | vm/gc.c:459-472 | One iteration of the slide: the block arrives with the contents it had before marking, and no block that is still to be moved is touched. |
| `Slide.SlideDown` | vm/gc.c:449-473 | Every live block ends at the sum of the sizes of the live blocks before it, with the contents it had before marking; words outside the heap are unchanged. |
| `Relocate.RelocateSlot` | vm/gc.c:333-350 | Rewrites one slot to the new address of its target if the target is live, leaves it alone otherwise, and reports which. |
| `Relocate.RelocateReferent` | vm/gc.c:383-396 | The referent becomes the forwarded one or null; a Reference whose referent died and that is on no list becomes the new head of the pending list. |
| `Relocate.RelocateHeader` | vm/gc.c:359-369 | The header of an object with a monitor points to the monitor's new place; a mark word stays. |
| `Relocate.RelocateStrong` | vm/gc.c:371-404 | Exactly the strong slots of an object are forwarded, each once. |
| `Relocate.RelocateObject` | vm/gc.c:352-406 | The whole new contents of one object, and of the pending-list head. |
| `Collector.EnumerateRoots` | vm/gc.c:32-39 | The root slots that hold a pointer into the heap, in order and as often as they are listed. |
| `Collector.RelocateRoots` | vm/gc.c:478-481 | A slot that is listed n times is forwarded n times, and no other word changes. |
| `Collector.RelocateFields` | vm/gc.c:352-406 | Every live block has the contents that forwarding prescribes, whatever the order in which References are put on the pending list. |
| `Collector.MajorGc` | vm/gc.c:414-495 | For every well-formed heap and every list of root slots: the blocks kept are exactly those reachable, and every word of the result is given by the old heap and the forwarding. |
| `RawHeap.KeptIffReachable` | vm/gc.c:245-278 | Read off memory words and class descriptors alone: the objects kept are exactly those that can be reached from a root slot along listed reference fields, but for the referent of a Reference, and elements of reference arrays. |
| `RawHeap.EdgeIff` | vm/gc.c:251-277 | An object holds a reference in the sense of the mark phase if and only if it does in this reading. |
| `RawHeap.ReferencesFollowed` | vm/gc.c:352-406 | In this reading: every target in the heap of a listed field or array element of a live object is live, and the same word of the new object holds its new address; other pointers are kept, but for the link of a Reference that is put on the pending list. |
| `RawHeap.DataKept` | vm/gc.c:469 | The class, the length and every byte of a field or element that is no reference are kept. |
| `RawHeap.ObjectsApart` | vm/gc.c:449-473 | The bytes of different new objects, counted from their class and length, do not overlap. |
| `RawHeap.NoGaps` | vm/gc.c:449-473 | Every word of the new heap belongs to a live object or to the monitor of one. |
| `RawHeap.PendingExactly` | vm/gc.c:383-396 | The references pending afterwards are exactly those pending before and the live ones whose referent is not null and not live and whose link was null. |
| `Collector.CollectedOnce` | vm/gc.c:478-481 | If no slot is listed twice, every root holds its forwarded target. |
| `Collector.ForwardingDown` | vm/gc.c:449-458 | Every live block moves down or stays. |
| `Collector.RepeatedRightIff` | vm/gc.c:66-67 | Forwarding a slot two or more times is right if and only if the new address of its target is not the old address of another live block that moves. |
| `RepeatedRoots.HeapIsFine` | vm/gc.c:66-67 | A well-formed heap of three objects with a root slot listed twice. |
| `RepeatedRoots.RepeatedRootGoesWrong` | vm/gc.c:478-481 | Collecting that heap leaves the slot pointing to another object than before. |
| `HeapGraph.CollectionWellFormed` | vm/gc.c:414-495 | The collected heap is well formed again; in particular monitors still lie above their objects and are not shared. |
| `HeapGraph.ShapeKept` | vm/gc.c:469-472 | A live object keeps its class, length, size and slots. |
| `HeapGraph.WordForwarded` | vm/gc.c:352-406 | Every strong field or element holds the forwarded old target, every word that is no reference is unchanged, a referent is forwarded or null. |
| `HeapGraph.EdgeKept` | vm/gc.c:352-406 | No strong edge between live objects is lost. |
| `HeapGraph.EdgeFromOld` | vm/gc.c:352-406 | Every strong edge of the new heap comes from an old one, except the link that puts a cleared Reference on the pending list. |
| `HeapGraph.RootsForwarded` | vm/gc.c:478-481 | Root slots hold the forwarded targets, and distinct objects stay distinct and in order. |
| `HeapGraph.HeapIsomorphic` | vm/gc.c:414-495 | The new heap is isomorphic to the reachable part of the old one: forwarding is one-to-one and onto the new objects, keeps shapes, strong edges both ways (but for the pending link) and root targets. |
| `HeapGraph.MarkWordKept` | vm/gc.c:359-369 | A collection keeps the mark word, and so the identity hash, of every live object, with or without a monitor. |
| `PendingReferences.ReferentAfter` | vm/gc.c:383-396 | After a collection a live Reference's referent is the forwarded old one if that was strongly reachable and null otherwise. |
| `PendingReferences.PendingListKept` | vm/gc.c:383-396 | A pending list that is acyclic, free of repetitions and made of cleared References stays so: the new ones are put in front of the old list. |
| `HeapUpdates.AddObject` | vm/bjvm.c:1628-1644 | A new block above all others keeps the heap well formed. |
| `HeapUpdates.AddMonitor` | vm/monitors.c:28-47 | Moving a mark word into a new record above all blocks and pointing the header to it keeps the heap well formed. |
| `HeapUpdates.HashesMoved` | vm/objects.c:219-227 | Hashes stay with the objects' identities through a collection. |
| `Survival.SurvivesCollection` | vm/gc.c:414-495 | Every live object survives a collection as one object with the same identity, class, length, mark word and plain words, whose references lead to the same identities. |
| `Survival.SurvivesWrites` | vm/bjvm.c:1628-1644 | So do all objects when memory changes only above them or outside the heap. |
| `Survival.SurvivesInflation` | vm/monitors.c:28-47 | So do all objects when one of them gets a monitor record, the mark word moving into it. |
| `JavaHeap.Heap.constructor` | vm/bjvm.c:1628-1644 | The empty heap has the invariant. |
| `JavaHeap.Heap.Collect` | vm/gc.c:414-495 | Keeps the invariant; every root but the pending head refers to the same identity, with the same header unless that points to a monitor; everything reachable survives; the pending references are still pending, in order, behind the new ones. |
| `JavaHeap.Heap.BumpAllocate` | vm/bjvm.c:1628-1644 | Returns zeroed words directly above the old top, after a collection if needed; null only if they do not fit even then. Roots, everything reachable and the pending references survive. |
| `JavaHeap.Heap.NewObject` | vm/objects.h:38-49 | A new identity with the requested class and length, the initial mark word, and zero in every other word; roots, everything reachable and the pending references survive. |
| `JavaHeap.Heap.InflateMonitor` | vm/monitors.c:12-47 | The object in a handle has a monitor afterwards, even if the allocation moved it; a new one has thread id -1 and count 0 and takes over the mark word, and if there was one already nothing changes. Everything reachable keeps identity, mark word and contents, every other root refers to the same identity, and the pending references survive. |
| `JavaHeap.Heap.HashCode` | vm/objects.c:219-227 | The hash is nonzero; a new one is a number drawn and changes only the upper half of the mark word; once given it is returned again for ever and nothing is written. |
| `JavaHeap.Heap.FirstNonzero` | vm/objects.c:221-225 | The first number drawn that is not zero. |
| `JavaHeap.Heap.StoreField` | vm/interpreter2.c:1107-1115 | Storing a reference to any object or out of the heap, in any reference field or element of any object, keeps the invariant; only of a Reference that is already pending may the link not be stored and the referent only be cleared. |
| `JavaHeap.Heap.StoreRoot` | vm/interpreter2.c:2228-2233 | The same for a root slot. |
| `JavaHeap.Heap.TakePending` | natives/share/java/lang/ref/Finalizer.c:30-34 | Hands out the whole pending list and leaves an empty one. |
| `DepthFirst.Dfs.Visit` | vm/analysis.c:1264-1276 | Numbers the unvisited blocks reachable from a block: contiguous preorder and postorder segments, nested subtrees, tree edges, successors seen before a block is left; what was numbered before is unchanged. |
| `DepthFirst.DepthFirstSearch` | vm/analysis.c:1296-1308 | For a graph whose blocks are all reachable: mutually inverse numberings and a spanning tree. |
| `Semidominators.CandidateSound` | vm/analysis.c:1321-1337 | Every number that the loop minimises over belongs to a block with a semidominator path. |
| `Semidominators.CandidateComplete` | vm/analysis.c:1321-1337 | For every semidominator path the loop considers a number that is not larger than that of its start. |
| `Semidominators.FindRoot` | vm/analysis.c:1329-1331 | Path halving finds the lowest linked ancestor and keeps the forest a compression of the tree. |
| `Semidominators.WalkUp` | vm/analysis.c:1333-1337 | The walk takes the least semidominator number on the tree path below the root found. |
| `Semidominators.SemidominatorOf` | vm/analysis.c:1316-1339 | Once all later blocks have their semidominators, this is the one of the current block. |
| `Semidominators.ComputeSemidominators` | vm/analysis.c:1309-1343 | Every non-entry block gets the block of least preorder number that reaches it by a path whose interior is numbered after it. |
| `Dominance.DominatorIsAncestor` | vm/analysis.c:1264-1276 | A dominator is an ancestor in every depth-first tree. |
| `Dominance.SemidominatorAncestor` | vm/analysis.c:1309-1343 | A semidominator is a proper ancestor. |
| `ImmediateDominators.WalkToSemidominator` | vm/analysis.c:1351-1359 | Minimising the preorder number always picks the child of the semidominator on the tree path. |
| `ImmediateDominators.RelativeDominators` | vm/analysis.c:1345-1361 | The relative dominators of all blocks; those with the entry as semidominator keep zero. |
| `ImmediateDominators.ComputeImmediateDominators` | vm/analysis.c:1362-1370 | The preorder loop computes the recursively defined block for every block, and lists of children that match. |
| `ImmediateDominators.ComputeDominatorTree` | vm/analysis.c:1291-1370 | For every graph the phases together yield a tree. |
| `ImmediateDominators.DominatorsAbove` | vm/analysis.c:1345-1370 | The computed block is never too high: every proper dominator is an ancestor of it in the depth-first tree. |
| `ImmediateDominators.DominatesIffClear` | vm/analysis.c:1345-1370 | A proper tree ancestor d of w dominates w if and only if no block on the tree path below d down to w has a semidominator numbered before d. |
| `ImmediateDominators.RightIffClear` | vm/analysis.c:1345-1370 | The computed block is the immediate dominator if and only if that holds of it. |
| `ImmediateDominators.TreeRightIffClear` | vm/analysis.c:1291-1370 | The computed tree is the dominator tree if and only if that holds for every block. |
| `ImmediateDominators.ComputedCanBeWrong` | vm/analysis.c:1351-1356 | A graph of five blocks where the computed block is not a dominator. |
| `DominatorTree.IntervalNumbering.Visit` | vm/analysis.c:1278-1288 | The intervals of a subtree nest exactly as the subtree does, and the rest is unchanged. |
| `DominatorTree.NumberTree` | vm/analysis.c:1376-1387 | For every tree, one interval contains another if and only if its block is an ancestor or the same. |
| `Reducibility.MarkBackEdges` | vm/analysis.c:1411-1419 | An edge is a back edge exactly when its target is an ancestor-or-self of its source; loop headers are exactly the targets of back edges. |
| `Reducibility.CycleTest.Search` | vm/analysis.c:1390-1408 | The three-colour search reports a cycle only if one is reachable, and otherwise blackens everything reachable with edges going to earlier finished blocks. |
| `Reducibility.ForwardEdgesFormACycle` | vm/analysis.c:1390-1408 | The answer is exact. |
| `Reducibility.AttemptReduceCfg` | vm/analysis.c:1410-1425 | Zero if and only if the non-back edges form no cycle reachable from block 0. |
| `Stackifier.SortChildren` | vm/dumb_jit.c:1614-1622 | The insertion sort permutes the children into descending postorder. |
| `Stackifier.TopoWalk.Walk` | vm/dumb_jit.c:1602-1636 | The subtree of a block is placed contiguously from the block on, siblings by descending postorder, with mutually inverse maps, its loop depths, and one loop request per header up to the end of its subtree. |
| `Stackifier.BlockRequestsAre` | vm/dumb_jit.c:1583-1600 | Which wasm blocks are requested at a position. |
| `Stackifier.FindBlockInsertionPoints` | vm/dumb_jit.c:1583-1600 | A block is requested once, at its immediate dominator, if and only if some predecessor is placed before the position just before it. |
| `Stackifier.MakeTopo` | vm/dumb_jit.c:1638-1664 | For every tree: a bijective order with contiguous subtrees, loop depths equal to the number of enclosing headers, and exactly the requests above. |
| `StackifierOrder.ForwardPost` | vm/dumb_jit.c:1612-1613 | In a reducible graph, with a tree in which every branch starts below its target's parent, a forward edge leads to a block that the search leaves earlier. |
| `StackifierOrder.ForwardEdgesGoForward` | vm/dumb_jit.c:1602-1636 | With such a tree, the source of every non-back edge is placed before its target and not before the target's parent. |
| `StackifierOrder.EveryBranchOk` | vm/dumb_jit.c:1583-1600 | With such a tree, every branch goes to the next block, to the end of an open wasm block, or to the head of an open loop; it goes backwards exactly when it is a back edge. |
| `StackifierOrder.IntervalsNest` | vm/dumb_jit.c:1583-1636 | For every tree, two requested intervals are nested or disjoint. |
| `StackifierOrder.RequestsDistinct` | vm/dumb_jit.c:1583-1600 | No interval is requested twice. |
| `StackifierOrder.RequestUsed` | vm/dumb_jit.c:1583-1600 | Every loop requested is entered by a back edge, and every block is left by a branch that is no fall-through. |
| `StackifierOrder.DescendingOpensOuterFirst` | vm/dumb_jit.c:1789-1800 | The descending encoded order opens, at one position, strictly outer intervals first. |
| `StackifierOrder.BranchBelowParent` | vm/dumb_jit.c:1583-1636 | Conversely, a branch that can be expressed starts below its target's parent, and if it goes backwards, below its target. |
| `StackifierOrder.AncestorsDominate` | vm/dumb_jit.c:1583-1600 | In a tree in which every branch starts below its target's parent, ancestors dominate. |
| `StackifierOrder.BelowIffDominatorTree` | vm/dumb_jit.c:1583-1600 | Among the trees in which every dominator is an ancestor, that property singles out the dominator tree. |
| `StackifierOrder.FlatTreeIsEnough` | vm/dumb_jit.c:1583-1600 | Among all trees it does not: for three blocks in a row a tree of depth one has the property too, and is not the dominator tree. |
| `StackifierOrder.OrderBlocks` | vm/dumb_jit.c:1638-1664 | For every graph and every tree: a bijective order and nested blocks and loops. Every branch can be expressed and forward edges go forward if and only if the graph is accepted as reducible and every branch starts below its target's parent in the tree. |
| `CodeOrder.OrderCode` | vm/dumb_jit.c:1716-1729 | The whole way from the graph, with the tree that the code computes: the order is right if and only if the graph is accepted as reducible and every tree path is clear as above. |
| `CodeOrder.BelowIffClear` | vm/analysis.c:1345-1370 | In the computed tree every branch starts below its target's parent if and only if every tree path is clear. |
| `CodeOrder.WrongGraphAccepted` | vm/analysis.c:1410-1425 | The graph with the wrong block is accepted as reducible, whichever edges are flagged. |
| `CodeOrder.WrongOrder` | vm/dumb_jit.c:1602-1636 | With the tree computed for that graph the order is 0, 1, 3, 4, 2: the forward edge from 2 to 4 leads backwards, so whatever is requested, the order is not right. |
| `TwoSlot.CollapseCommutes` | vm/analysis.c:349-434 | Shuffling two-slot values slot by slot is shuffling one-slot values with the collapsed instruction. |
| `TwoSlot.CategoryIs` | vm/analysis.c:349-434 | A long or double takes two slots in the specification, any other value one. |
| `TwoSlot.FormIsCollapsed` | vm/analysis.c:349-434 | A form of section 6.5 applies exactly when no long or double is split, and its result is that of the collapsed instruction. |
| `WidthAnalysis.StackAnalyzer.AnalyzeStackOp` | vm/analysis.c:349-434 | Every category-correct stack instruction is accepted exactly when its result fits, and rewritten to its collapsed form; of the incorrect ones exactly the listed ones are accepted, under the stated bound, as the stated instruction; the recorded kinds are always those the rewritten instruction leaves. |
| `WidthAnalysis.StackAnalyzer.AnalyzePop2` | vm/analysis.c:564-578 | `pop2` of a long or double becomes `pop`; two narrow values stay `pop2`; a narrow value above a wide one is rejected. |
| `WidthAnalysis.StackAnalyzer.AnalyzeSwap` | vm/analysis.c:579-584 | `swap` is accepted exactly for two narrow values. |
| `WidthAnalysis.StackAnalyzer.AnalyzeDup2X2` | vm/analysis.c:403-434 | Each of the four forms of `dup2_x2` gets its own collapsed form. |
| `LocalSwizzle.LocalsOnMethodEntry` | vm/analysis.c:69-116 | Fails exactly when the parameters do not fit; otherwise the renumbering is a permutation that sends the k-th parameter to index k, with its kind recorded. |
| `LocalSwizzle.EntryAgrees` | vm/analysis.c:84-103 | On entry the one-slot locals hold what the two-slot locals hold. |
| `LocalSwizzle.StoreAgrees` | vm/analysis.c:678-719 | A store to the renumbered index keeps the agreement, even where it destroys half of another value. |
| `WidthCollapse.ExpandCommutes` | vm/analysis.c:349-434 | Expanding to two slots commutes with executing a stack instruction. |
| `WidthCollapse.StepSimulates` | vm/analysis.c:349-434 | One rewritten instruction does on one-slot state what the specification's instruction does on two-slot state. |
| `WidthCollapse.RunSimulates` | vm/analysis.c:349-434 | The same for every straight-line program: its rewriting computes the image of the specification's result. |
| `StackHandlers.Frame.PopHandler` | vm/interpreter2.c:2375-2387 | `pop` and `pop2` with a cached top of stack drop one and two values. |
| `StackHandlers.Frame.SwapHandler` | vm/interpreter2.c:2390-2397 | `swap` exchanges the top two values. |
| `StackHandlers.Frame.DupHandler` | vm/interpreter2.c:2421-2437 | `dup` copies the top value for every kind of register. |
| `StackHandlers.Frame.Dup2Handler` | vm/interpreter2.c:2440-2465 | `dup2` leaves the right handler table if and only if the top value is no float or double, and copies the top two values if and only if it is none, or its conversion to an integer keeps its bits. |
| `StackHandlers.RegisterClasses` | vm/analysis.c:190-208 | Two kinds share a handler table if and only if they are equal or neither is a float or double. |
| `StackHandlers.Frame.DupX1Handler` | vm/interpreter2.c:2471-2480 | `dup_x1` puts a copy of the top value beneath the second. |
| `StackHandlers.Frame.DupX2Handler` | vm/interpreter2.c:2483-2493 | `dup_x2` puts it beneath the third. |
| `StackHandlers.Frame.Dup2X1Handler` | vm/interpreter2.c:2496-2507 | `dup2_x1` puts a copy of the top two values beneath the third. |
| `StackHandlers.Frame.Dup2X2Handler` | vm/interpreter2.c:2510-2522 | `dup2_x2` puts it beneath the fourth. |
| `StackHandlers.Frame.SaveHandler` | vm/interpreter2.c:2235-2262 | A store writes exactly one local and pops the value. |
| `StackHandlers.Frame.Run` | vm/interpreter2.c:347-361 | Executing a rewritten program with the recorded handler tables computes the one-slot result. |
| `StackHandlers.RewrittenRunnable` | vm/analysis.c:190-208 | A program that the specification runs within `max_stack`, with no float-topped `dup2`, is rewritten to one that the handlers can execute. |
| `CompiledCode.AnalyzeProgram` | vm/analysis.c:1029-1105 | The analyzer, run over a program whose instructions find the kinds they name and whose stack fits, accepts it, produces its rewriting and records for each instruction the handler table of the analysed top of stack. |
| `CompiledCode.FitsChecks` | vm/analysis.c:349-434 | Whatever the specification runs within `max_stack` slots is such a program. |
| `CompiledCode.TablesRecorded` | vm/analysis.c:190-208 | The tables recorded from analysed kinds are the tables of the values at run time. |
| `CompiledCode.RunMethod` | vm/interpreter2.c:347-361 | For every method code that the specification runs from its parameters within `max_stack`, without a float-topped `dup2`: renumbering locals, analysing, rewriting and running the handlers ends in the image of the specification's final state. |
| `TypeRefinement.AgreedLowers` | vm/analysis.c:158-170 | Intersecting never adds a type, and loses one if some type disagrees. |
| `TypeRefinement.AgreedCovers` | vm/analysis.c:158-170 | The intersection holds nothing that one of the states does not confirm; if no type disagrees it is a prefix of the first. |
| `TypeRefinement.AgreedGreatest` | vm/analysis.c:158-170 | It is the greatest such state. |
| `TypeRefinement.Refinement.Intersect` | vm/analysis.c:148-170 | The flag is set exactly when a state becomes known or a type is lost, and then the measure is lower. |
| `TypeRefinement.Refinement.IntersectHandlers` | vm/analysis.c:970-980 | Afterwards the locals known at every handler that covers the instruction hold nothing that the current ones do not confirm; the measure is lower if anything changed. |
| `TypeRefinement.Refinement.Pass` | vm/analysis.c:1032-1092 | After a pass without failure every instruction has been accepted with some input state: the entry state, the output of the instruction before it, or the known state; its branches and handlers are accounted for by what is known. A pass that sets the flag lowers the pair (unknown points, typed entries). |
| `TypeRefinement.Refinement.Refine` | vm/analysis.c:1029-1105 | The repeated passes end for every method. In the end every branch, handler and fall-through is confirmed by what is known at its target, and where nothing falls through, the known state is a prefix of the one that the instruction was analysed with. |
| `FieldLayout.AllocateField` | vm/linkage.c:14-54 | The next multiple of the field's size, and the running offset after the field. |
| `FieldLayout.ReorderFields` | vm/linkage.c:102-120 | A permutation of the fields, largest first and in declaration order within a size. |
| `FieldLayout.AssignOffsets` | vm/linkage.c:195-214 | Every field gets the next aligned offset of its storage in allocation order. |
| `FieldLayout.FieldsDisjoint` | vm/linkage.c:195-214 | Fields of the same storage do not overlap. |
| `FieldLayout.OwnTidy` | vm/linkage.c:195-214 | A class's own instance fields are aligned, pairwise disjoint and above everything inherited. |
| `FieldLayout.LinkLayout` | vm/linkage.c:196-243 | All instance fields, own and inherited, are aligned and pairwise disjoint, and the reference list extends the superclass's as a prefix; the static references are listed, as many as there are. |
| `FieldLayout.LinkChain` | vm/linkage.c:196-243 | The same for every chain of subclasses: each class extends the fields and the reference list of every class above it. |
| `FieldAccess.SizeIsWidth` | vm/linkage.c:14-54 | The values of each kind, as the specification counts them, fit exactly in the bytes reserved. |
| `FieldAccess.FieldsIndependent` | vm/linkage.c:195-214 | Storing any value of its kind to an instance field reads back from that field and changes no other field, nor the header, nor anything outside the object. |
| `FieldAccess.StaticsIndependent` | vm/linkage.c:195-214 | The same for static fields. |
| `FieldLayout.RefsExact` | vm/linkage.c:232-243 | The list names every reference field exactly once and nothing else if and only if every reference field has a word index that fits in 16 bits. |
| `FieldLayout.ListsTheHeader` | vm/linkage.c:232-243 | With 65535 reference fields the last one is listed as word 0, the object header. |
| `FieldLayout.LayoutForCollector` | vm/linkage.c:196-243 | A linked class whose reference fields fit in that range is one that the collector can work with. |
| `FieldLayout.ReferenceClass` | vm/natives_gen.h:278-285 | java.lang.ref.Reference has its referent first in the list, in word 2, and its discovered link in word 5. |
| `FieldLayout.ReferenceSubclass` | vm/gc.c:254-258 | In every chain through java.lang.ref.Reference, the slot skipped by the marker is the referent in every subclass too. |
| `ClassInit.LinkClass` | vm/linkage.c:139-189 | Only classes that were merely loaded change, to linked or erroneous; afterwards the class is not merely loaded, and if linking succeeded neither are its supers. |
| `ClassInit.LinkFailsIff` | vm/linkage.c:139-189 | Linking fails if and only if the class, or a super reached through classes that are not linked yet, is not linked yet and fails verification. |
| `ClassInit.StepKeeps` | vm/bjvm.c:1720-1827 | Every step of every thread keeps the invariant and changes only classes that its thread may change. |
| `ClassInit.RequestAnswered` | vm/bjvm.c:1732-1778 | In every run, a request for a class either starts an activation for it, or the class is initialized or erroneous, or the same thread is at it already, or there was no memory. |
| `ClassInit.RequestReturns` | vm/bjvm.c:1746-1827 | When the thread is back at the stack from which it asked, and an activation had been started, the class is initialized or erroneous. |
| `ClassInit.PopFinishes` | vm/bjvm.c:1816-1827 | An activation that returns leaves its class initialized or erroneous, and the one waiting for it learns which, unless it only waited for another thread. |
| `ClassInit.AnsweredAtOnce` | vm/bjvm.c:1732-1778 | Without an activation a waiting one learns success, unless there was no memory. |
| `ClassInit.InitializedRan` | vm/bjvm.c:1802-1817 | In every run, a class that has become initialized has had its `<clinit>` started, if it has one. |
| `ClassInit.ClinitRunsOnce` | vm/bjvm.c:1802-1805 | In every run, over every interleaving, `<clinit>` of a class starts at most once. |
| `ClassInit.OnlyEntererLeaves` | vm/bjvm.c:1771-1817 | Only the activation that took a class into INITIALIZING takes it out again. |
| `ClassInit.SupersSettledFirst` | vm/bjvm.c:1780-1796 | When `<clinit>` starts, no direct superclass or superinterface is being initialized by another thread, nor still uninitialized. |
| `ClassInit.IndirectSupers` | vm/bjvm.c:1732-1796 | If an indirect super is then being initialized by another thread u, some class between is initialized and owned by u, or erroneous, or still waiting for its own supers. |
| `ClassInit.AllSupersSettled` | vm/bjvm.c:1780-1796 | If no class between is any of these with another thread as owner, all supers, direct and indirect, are initialized, erroneous or busy on the same thread. |
| `ClassInitExample.IndirectSuperStillBusy` | vm/bjvm.c:1732-1736 | A run in which an indirect superclass is still being initialized by another thread, behind an initialized class. |
| `ClassInitExample.SuperBehindUnfinishedSupers` | vm/bjvm.c:1746-1796 | A run in which the class between is still waiting for its own supers on the same thread. |
| `ClassInit.Forward` | vm/bjvm.c:1720-1827 | Along a run a class only moves forward, and its owner does not change while it is being initialized. |
| `ClassInit.LeavesAs` | vm/bjvm.c:1816-1817 | How a class leaves INITIALIZING: erroneous exactly when a super's activation returned an error, constant fields could not be set, or `<clinit>` was suspended, threw something that is no Error, and the unassigned local happens to be nonzero. |
| `ClassInit.InitializedIsCertain` | vm/bjvm.c:1804-1817 | When `<clinit>` ends, INITIALIZED is certain if and only if it did not throw a non-Error after having been suspended. |
| `ClassInit.SuspendedIff` | vm/async.h:187-202 | In every run, a `<clinit>` counts as suspended if and only if its thread has given up control since it was started. |
| `ClassInit.ErroneousAfterClinit` | vm/async.h:187-202 | In every run a class whose `<clinit>` has started is erroneous if and only if that happened. |
| `ClassInitExample.ErroneousAfterSuspension` | vm/bjvm.c:1804-1817 | A run of four steps in which it happens. |
| `ClassInit.LostForever` | vm/bjvm.c:1774-1778 | Once the activation of a class has run out of memory, the class stays in INITIALIZING. |
| `ClassInit.StrandedIff` | vm/bjvm.c:1774-1778 | In every run a class is INITIALIZING without an activation that could finish it if and only if an earlier step entered it, not yet initialized and linkable, without memory. |
| `ClassInit.SpinsForEver` | vm/bjvm.c:1754-1759 | A thread that waits for such a class waits for ever. |
| `ClassInitExample.GivenUpAndWaitedFor` | vm/bjvm.c:1774-1778 | A run of two steps to such a thread. |
| `ClassInit.NeverWaitsForItself` | vm/bjvm.c:1746-1759 | A thread never spins on a class that it is initializing itself. |
| `ClassInit.NoDeadlock` | vm/bjvm.c:1754-1796 | As long as no static initializer is running, waiting threads cannot deadlock: some thread can move. |
| `Monitors.MonitorTable.Acquire` | vm/monitors.c:10-79 | One attempt to enter: it waits exactly if another thread owns the monitor, fails exactly if a record is needed and there is no memory, and else leaves the thread as owner with one hold more, modulo 2^32; only this object changes, and it keeps its mark word. |
| `Monitors.MonitorTable.Reacquire` | vm/monitors.c:81-127 | One attempt to reenter: it succeeds exactly if the monitor is free, and then the thread owns it with the given count; it waits exactly if another thread owns it. |
| `Monitors.MonitorTable.MonitorReleaseAll` | vm/monitors.c:144-169 | The caller gets the count it saw; if that is not zero the monitor is free afterwards, else nothing has changed. |
| `Monitors.MonitorTable.MonitorRelease` | vm/monitors.c:171-198 | Succeeds exactly for a thread that sees a hold, which then sees one less; after the last one the monitor is free, and before it the owner is the same; a failure changes nothing. |
| `Monitors.StepKeeps` | vm/monitors.c:10-198 | Every step of every thread keeps the invariant. |
| `Monitors.ExactUnlessOverflow` | vm/monitors.c:65-69 | A step keeps "the count is the owner's unmatched acquires, and zero exactly when there is no owner" if and only if it is not the 2^32-th nested acquire. |
| `Monitors.NestedEnters` | vm/monitors.c:65-69 | For every n below 2^32 there is a run of n nested acquires that ends with hold count n. |
| `Monitors.OverflowReached` | vm/monitors.c:65-69 | One more leads to an owned monitor with hold count zero. |
| `Monitors.OwnerCounts` | vm/monitors.c:10-198 | In every run without such a step, over every interleaving: the owner is exactly the thread with unmatched acquires, the count is their number, and the thread id is -1 exactly when the count is 0. |
| `Monitors.OneOwner` | vm/monitors.c:10-198 | At most one thread has unmatched acquires. |
| `Monitors.EnteredOwns` | vm/monitors.c:52-79 | In every run, an attempt to enter leaves the thread waiting if and only if another thread owns the monitor; if it goes on, it owns the monitor with one more acquire, unless the object had none and there was no memory. |
| `Monitors.WaitGivesUp` | natives/share/java/lang/Object.c:98-115 | In every run, waiting leaves the thread waiting, the monitor free and the count remembered, if it saw a hold, and else changes nothing. |
| `Monitors.ReenteredOwns` | vm/monitors.c:81-127 | In every run, a notified thread goes on if and only if nobody owns the monitor, and then owns it with the count it gave up. |
| `Monitors.ExitGivesUpOne` | vm/monitors.c:171-198 | In every run, leaving takes away one hold, if the thread saw any, and frees the monitor with the last one. |
| `Monitors.CountModulo` | vm/monitors.c:129-142 | In every run at all, the count that a thread sees is its unmatched acquires modulo 2^32. |
| `Monitors.ReleaseNeedsHold` | vm/monitors.c:144-198 | In every run, leaving or waiting on a monitor changes nothing at all if and only if the thread's unmatched acquires are zero modulo 2^32. |
| `Monitors.WaitRestores` | natives/share/java/lang/Object.c:98-115 | A wait holds nothing while it lasts and comes back with the same count. |
| `Monitors.MarkWordKept` | vm/monitors.c:40-47 | Inflation keeps the mark word. |
| `HashTable.StringHashTable.Find` | vm/adt.c:148-175 | The entry of the key if there is one, else the last of its bucket. |
| `HashTable.InItsBucket` | vm/adt.c:148-175 | Every entry lies in the bucket that its hash selects. |
| `HashTable.StringHashTable.Insert` | vm/adt.c:221-255 | Updates the map and the count, returns the old value, and grows the table at most once. |
| `HashTable.StringHashTable.Delete` | vm/adt.c:177-195 | Removes the key from the map and returns the old value; a chain moves up when its inline head goes. |
| `HashTable.StringHashTable.Lookup` | vm/adt.c:261-274 | The value in the map. |
| `HashTable.StringHashTable.Rehash` | vm/adt.c:201-218 | Same map, same count, count below 0.75 times capacity; the capacity is exactly the requested one if that leaves room and larger otherwise, so growth inside an insert triggers no other. |
| `HashTable.StringHashTable.Reserve` | vm/adt.c:295-299 | Same map, whatever capacity is asked for. |
| `HashTable.StringHashTable.ReserveAndFill` | vm/classpath.c:117-158 | Reserving for the number of entries to come and then inserting them, all with new keys, adds exactly those entries; the table keeps the reserved capacity if and only if there are at most two entries, and grows otherwise. |
| `HashTable.GetIterator` | vm/adt.c:92-102 | Starts with all entries to be visited. |
| `HashTable.HasNext` | vm/adt.c:104-115 | The first entry that remains, if any. |
| `HashTable.Next` | vm/adt.c:117-129 | Drops exactly that entry from those that remain. |
| `HashTable.IterationVisitsAll` | vm/adt.c:92-129 | The entries visited are the associations of the map, each once, and as many as the count. |
| `ThreadScan.ThreadStack.PushPlainFrame` | vm/bjvm.c:272-300 | The callee's locals start at its arguments, on the caller's operand stack or above everything the caller uses; fails exactly when the frame does not fit. |
| `ThreadScan.ThreadStack.PushNativeFrame` | vm/bjvm.c:221-252 | A native frame copies its arguments above themselves. |
| `ThreadScan.BelowLowest` | vm/gc.c:139-147 | The comparison with the lowest address scanned leaves out exactly the operands that have become a callee's locals. |
| `ThreadScan.PushThreadRoots` | vm/gc.c:106-157 | No address is delivered twice, and the addresses delivered are exactly those of the reference slots except operands passed on to a callee. |
| `ThreadScan.PassedOnIsLocal` | vm/gc.c:122-134 | An operand that was passed on is the callee's local at the same address. |

## Left out

- Root enumeration outside thread stacks (`vm/gc.c:52-104`, `vm/gc.c:169-238`): taken as a list of slots outside the heap.
- JavaHeap.Heap.Collect: runs with distinct root slots; what happens otherwise is what MajorGc and RepeatedRightIff state.
- The build variant that copies to a new heap on every collection (`vm/gc.c:408-412`): the in-place variant is modelled.
- Arrays of primitive arrays as a separate case (`vm/gc.c:268`): such arrays are ordinary arrays when they are created, so the case does not arise.
- JavaHeap.Heap.HashCode: the numbers drawn by the generator are a parameter that ends with a nonzero one; that the generator ever draws one is not modelled.
- JavaHeap.Heap.StoreField: overwriting the link, or setting the referent again, of a Reference that is already pending; this would cut or falsify the pending list.
- JavaHeap.Heap.TakePending: what the reference handler thread does with the list is not modelled.
- The scan that builds basic blocks (`vm/analysis.c:1167-1262`): its edges are the given graph, all of whose blocks are reachable.
- JIT lowering, expression assembly and most interpreter handlers: large case lists.
- HashTable.StringHashTable.Insert: chains are sequences, not linked nodes, so allocation and freeing of nodes and keys are not modelled; the hash function is a parameter; the load factor is the 0.75 that all callers use; capacity 0, for which the source reads uninitialized results, is excluded by the constructor.
- WidthAnalysis.StackAnalyzer.AnalyzeStackOp: entries of kind VOID, which a merge without a StackMapTable can leave on the stack, are not modelled.
- CompiledCode.AnalyzeProgram: what the analyzer does with a program that the specification cannot run is stated instruction by instruction only.
- StackHandlers.Frame.Run: floating-point values and sign extension of ints are opaque bit patterns; branches, calls and `iinc` are not modelled.
- TypeRefinement.Refinement.Refine: a fall-through merge continues with the unmerged state, so an instruction may be analysed with more types than are known for it in the end; soundness of the types is not claimed.
- ClassInit.SupersSettledFirst: states of array classes, which are copied from their component, are not modelled; which classes pass method analysis, and whether memory suffices, is decided by the environment.
- Monitors.MonitorTable.Acquire: wakeups by the scheduler are abstract, a suspended thread may retry at any time; the debug-only extra yields are not modelled.
- ThreadScan.PushThreadRoots: handles and the thread's other fixed slots (`vm/gc.c:159-166`) are left out.
- Class-file, descriptor and archive parsing, string interning, method handles, reflection, natives, the scheduler and the debugger: wrappers, decoding or input and output.

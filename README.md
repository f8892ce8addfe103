# MCF_Greedy in Dafny

MCF_Greedy works on a network of pipes between facilities numbered `0 .. n`, read from `m` records. The first `n - 1` records are pipes that already exist (active); the rest would have to be built (inactive). A discount `d` applies to the single most expensive pipe of the chosen tree. The program returns the number of inactive pipes in a cheapest spanning tree. It works in four steps:

1. Build a minimum spanning tree with Kruskal's algorithm, putting active pipes first among pipes of equal cost.
2. Discount the most expensive tree edge.
3. Count the inactive tree edges.
4. If the most expensive edge is inactive, look for an alternative tree of the same size and the same adjusted cost whose most expensive edge is active. Finding one saves a day.

This project models `MCF_Greedy/main.swift` in five modules. The console input and output are left out.

- **UnionFind** (`union_find.dfy`) models the `UF` struct as a class over two arrays, `parent` and `size`.
  - `find` keeps its exact write `parent[p] = parent[parent[p]]`. That write targets the start element `p`, not the walking `node`.
  - The proofs show that this write never changes any element's root, and that on exit `p` points straight at its root.
  - Termination uses no ghost rank. It rests on the `size` array itself: a non-root's size is strictly below its parent's, because of union-by-size.
  - `union` is proved to merge exactly the two classes, picking the surviving root as the source does (`j` under `i` on a tie).
  - Every root's size is proved to equal the number of elements in its tree.
- **Edges** (`edges.dfy`) covers the records and edges.
  - It holds the positional activity rule and the bucketing of records into the adjacency lists `pipes`, together with their flattening.
  - It holds the sort comparator and a sort that stands in for Swift's: any ordered result has non-decreasing weights, with the active edges of a weight first.
- **Kruskal** (`kruskal.dfy`) covers Kruskal's pass and the rebuild with a skip list.
  - The pass is specified by a pure function, `Run`. `Run` tracks components with a labelling rather than a union-find.
  - The method using the real union-find is proved to yield exactly `Run`'s forest. So running the pass twice on the same input gives the same edges.
  - The lemmas prove the following:
    - the forest is acyclic;
    - its labels are the components of its own edges;
    - its size plus the number of components is the number of nodes;
    - with no skip list it spans every component of the input;
    - it is a subsequence of the input, so a sorted input gives a sorted forest;
    - it never contains a skipped edge.
- **Costs** (`costs.dfy`) covers the strict-`>` scan for the most expensive edge, the discount, and the count of inactive edges.
- **Mcf** (`mcf.dfy`) covers `startMCF` and `kruskalMST`.
  - `Search` is the specification of the search loop, with `m - (k - 1 + |skip|)` as its measure.
  - `Outcome` is the value `kruskalMST` returns.
  - The methods are proved to compute these, and lemmas give their meaning: when a day is saved and why, and the bounds `0 <= result <= tree size <= n`.

Source and documented intent differ in two places. In both, the model follows the code:

- `count` is documented as the number of components (main.swift:15). It is set to `n` by the initializer and never updated: `union` does not decrement it. The model keeps it constant. The rest of the program never reads it.
- The comparator at main.swift:136 is not a strict weak order: two active edges of equal weight are each "less" than the other. The model therefore only uses the order's one-sided cases (`Edges.InOrder`).

## Model

| member | source | states |
|---|---|---|
| UnionFind.UF.constructor | MCF_Greedy/main.swift:22-29 | every `parent[i] == i`, every `size[i] == 1`, `count == n`, and the arrays form a well-formed forest whose sizes count their trees |
| UnionFind.SingletonClasses | MCF_Greedy/main.swift:22-29 | when every element is its own root with size 1, each size counts its (singleton) class |
| UnionFind.UF.Find | MCF_Greedy/main.swift:34-41 | the loop terminates (size strictly grows along the walk); the result is the root of `p` (a fixed point of `parent`); afterwards only `parent[p]` has changed, and it is the root; no element's root changes |
| UnionFind.HalvingStepKeepsRoots | MCF_Greedy/main.swift:37 | one write `parent[p] := parent[parent[p]]` on a non-root keeps the forest well formed, strictly raises the size above `p`, keeps every element's root and keeps the sizes counting their classes |
| UnionFind.ReparentKeepsRoot | MCF_Greedy/main.swift:37 | pointing `p` at a larger element of its own tree keeps the forest well formed and changes no element's root |
| UnionFind.FindLoopStep | MCF_Greedy/main.swift:36-39 | one iteration of `find`'s loop keeps its invariant: only `parent[p]` differs from the start, all roots are unchanged, `node` stays in `p`'s tree, `parent[p] == node` once `node` has moved; and the size at `node` strictly increases |
| UnionFind.UF.Connected | MCF_Greedy/main.swift:48-50 | the answer is true iff `p` and `q` have the same root; exactly `parent[p]` and `parent[q]` are pointed at their roots; no root changes |
| UnionFind.UF.Union | MCF_Greedy/main.swift:57-68 | the new arrays are exactly the two compressions followed by: no change if the roots are equal, else the strictly smaller root under the other (`j` under `i` on a tie) with the surviving size the sum; the classes of `p` and `q` merge, every other class is untouched, `p` and `q` end connected, the merged root's size is the sum of the two |
| UnionFind.UnionOutcome | MCF_Greedy/main.swift:57-68 | the arrays `union` leaves are a well-formed forest with class-counting sizes in which the classes of `p` and `q` are one, all others unchanged |
| UnionFind.LinkOutcome | MCF_Greedy/main.swift:61-67 | linking one of two distinct roots under the other merges exactly the classes of `p` and `q` |
| UnionFind.LinkMergesClasses | MCF_Greedy/main.swift:61-67 | after linking root `lo` under root `hi`, the elements whose root was `lo` have root `hi`, all others keep theirs, and `size[hi]` counts the merged class |
| UnionFind.LinkKeepsForest | MCF_Greedy/main.swift:61-67 | linking a root under another root with summed size keeps every non-root's size strictly below its parent's |
| UnionFind.LinkRoot | MCF_Greedy/main.swift:61-67 | after the link, the root of each element is `hi` if it was `lo`, else unchanged |
| UnionFind.UF.SizeRoot | MCF_Greedy/main.swift:70-72 | the result is the root's size, which is the number of elements in `p`'s class; the compression of `p` changes no root |
| UnionFind.Root | MCF_Greedy/main.swift:34-41 | defines the element `find` reaches by following `parent`; the `size` measure makes it total, and `UF.Find` proves the loop returns it |
| UnionFind.Roots | MCF_Greedy/main.swift:10-73 | defines the partition the arrays stand for, as every element's root; `HalvingStepKeepsRoots` and `UF.Find` prove that compression leaves it unchanged |
| UnionFind.FindLoop | MCF_Greedy/main.swift:36-39 | defines the invariant of `find`'s loop; `FindLoopStep` proves each iteration keeps it |
| UnionFind.UnionArrays | MCF_Greedy/main.swift:57-68 | defines the arrays `union` leaves, from the roots and sizes before the call; `UF.Union` proves it produces them and `UnionOutcome` what they mean |
| UnionFind.MergedClasses | MCF_Greedy/main.swift:57-68 | defines the promise of `union` on the partition: the two classes become one, all others are unchanged, and the root's size is the sum; `UnionOutcome` proves `UnionArrays` meets it |
| UnionFind.MaxOf | MCF_Greedy/main.swift:34-41 | the termination bound of `find`: the result bounds every size and is attained |
| Edges.Less | MCF_Greedy/main.swift:136 | defines the closure passed to `sort`: lighter first, or equal weight with the left edge active |
| Edges.InOrder | MCF_Greedy/main.swift:136 | defines when `x` may stand before `y`: the closure does not put `y` strictly first |
| Edges.Ordered | MCF_Greedy/main.swift:136 | defines a list sorted by the closure; `OrderedMeaning` states what it means for weights and flags |
| Edges.OrderedMeaning | MCF_Greedy/main.swift:136 | a list sorted by the comparator has non-decreasing weights, and within one weight every active edge stands before every inactive one |
| Edges.SortEdges | MCF_Greedy/main.swift:136 | the result is sorted by the comparator and is a permutation of the input |
| Edges.Insert | MCF_Greedy/main.swift:136 | inserting into a sorted list gives a sorted list with exactly one more occurrence of the edge |
| Edges.Prepare | MCF_Greedy/main.swift:112-117 | defines the edge each record stands for, active iff its position is below `n - 1`; `PrepareSnoc` states the rule for one record |
| Edges.AtNode | MCF_Greedy/main.swift:117 | defines the adjacency list of one node, the entries of the records starting there in input order; `BucketsSnoc` and `AtNodeIn` state its properties |
| Edges.Buckets | MCF_Greedy/main.swift:101-119 | defines `pipes`, one list per node; `Mcf.BuildPipes` proves the loop builds it and `FlattenBuckets` that it holds every record once |
| Edges.Expand | MCF_Greedy/main.swift:131-133 | defines one node's list as edges starting at that node; its ensures keeps the length |
| Edges.Flatten | MCF_Greedy/main.swift:130-134 | defines `allEdges` before sorting; `Mcf.FlattenGraph` proves the loops build it and `FlattenAppendAt` and `FlattenBuckets` state its properties |
| Edges.PrepareSnoc | MCF_Greedy/main.swift:112-115 | record `i` becomes the edge `(a, b, c)` that is active iff `i < n - 1` |
| Edges.BucketsSnoc | MCF_Greedy/main.swift:117 | one more record appends exactly one entry `(b, c, act)`, at the end of the list of node `a` |
| Edges.AtNodeIn | MCF_Greedy/main.swift:101-119 | every adjacency entry names a node in range when every record does |
| Edges.FlattenAppendAt | MCF_Greedy/main.swift:130-134 | appending an entry to one list adds exactly that edge to the flattened edges |
| Edges.FlattenBuckets | MCF_Greedy/main.swift:101-134 | bucketing edges by start node and flattening gives back every edge exactly once (a permutation) |
| Edges.PreparedPermutation | MCF_Greedy/main.swift:101-134 | `allEdges` before sorting is a permutation of the prepared records |
| Mcf.AllEdges | MCF_Greedy/main.swift:101-136 | after flattening and sorting, `allEdges` is a permutation of all `m` records (with their activity flags) and is ordered by the comparator |
| Mcf.FlattenGraph | MCF_Greedy/main.swift:130-134 | the nested loops produce every adjacency entry as an edge `(u, v, w, act)`, node after node, each list in order |
| Mcf.FlattenEndpoints | MCF_Greedy/main.swift:130-134 | when every entry names a node, every flattened edge has both ends among the nodes |
| Mcf.EndpointsPermutation | MCF_Greedy/main.swift:136 | sorting keeps every edge's ends in range |
| Mcf.ProperPermutation | MCF_Greedy/main.swift:136 | sorting keeps an edge between two different nodes |
| Kruskal.Partition | MCF_Greedy/main.swift:138-143 | defines the components of a list of edges as a labelling; `RunLabels` proves the pass's labels are those of its tree, and `RunSpans` those of its input |
| Kruskal.IsForest | MCF_Greedy/main.swift:138-143 | defines "no edge closes a cycle"; `RunIsForest` proves the pass's tree is one |
| Kruskal.Run | MCF_Greedy/main.swift:138-143 | defines the pass (the rebuild of main.swift:174-181 with a skip list) with labels for the components; `BuildForest` proves the union-find pass computes it, and the `Run...` lemmas state its properties |
| Kruskal.Embeds | MCF_Greedy/main.swift:138-143 | defines "`f` is the subsequence of `es` at the strictly increasing positions `idx`" |
| Kruskal.RunSubsequence | MCF_Greedy/main.swift:138-143 | the accepted edges are a subsequence of the input: they stand at strictly increasing positions of it |
| Kruskal.Offer | MCF_Greedy/main.swift:176-180 | one step of the pass: the edge is taken iff its ends are in different components and it is not on the skip list; afterwards the union-find's partition equals the labelling, merged when the edge was taken |
| Kruskal.BuildForest | MCF_Greedy/main.swift:138-143 | the union-find pass (and its rebuild at main.swift:173-181) yields exactly the specification `Run`'s forest, an acyclic forest with ends in range and no skipped edge |
| Kruskal.MergeMatchesUnion | MCF_Greedy/main.swift:141 | merging two different classes in the union-find and in the labelling keeps the two partitions equal |
| Kruskal.InitialClasses | MCF_Greedy/main.swift:138 | a fresh union-find has the partition of singletons |
| Kruskal.RunStep | MCF_Greedy/main.swift:139-142 | the pass over one more edge skips it when its ends are connected, then when it is on the skip list, and otherwise takes it and merges |
| Kruskal.RunLabels | MCF_Greedy/main.swift:138-143 | the pass's components are exactly the components of the edges it accepted |
| Kruskal.RunIsForest | MCF_Greedy/main.swift:138-143 | every accepted edge joined two nodes that the edges accepted before it left unconnected: the accepted edges form a forest |
| Kruskal.ForestComponents | MCF_Greedy/main.swift:138-143 | a forest's edge count plus its component count is the number of nodes |
| Kruskal.RunEdgeCount | MCF_Greedy/main.swift:138-143 | accepted edges plus components equal the node count, so `mstEdges.count <= graph.count - 1` |
| Kruskal.RunSpans | MCF_Greedy/main.swift:138-143 | without a skip list the pass's components are those of the whole input, so it spans: `|forest| == nodes - components` |
| Kruskal.RunFromInput | MCF_Greedy/main.swift:138-143 | the accepted edges are a sub-multiset of the input |
| Kruskal.RunOrdered | MCF_Greedy/main.swift:136-143 | a sorted input gives a sorted tree: the order of `allEdges` carries over to `mstEdges` |
| Kruskal.RunAvoidsSkip | MCF_Greedy/main.swift:176-180 | a rebuild never contains a member of the skip list |
| Kruskal.RunNonEmpty | MCF_Greedy/main.swift:138-143 | if some edge joins two different nodes, the tree is non-empty (so `mstEdges[index]` exists) |
| Kruskal.MergeClasses | MCF_Greedy/main.swift:141 | joining two different components removes exactly one component |
| Kruskal.IdentityClasses | MCF_Greedy/main.swift:138 | a fresh partition has one component per node |
| Costs.SumW | MCF_Greedy/main.swift:148-155 | defines the total weight `sumCosts` sums up; `Cost` proves the loop computes it |
| Costs.Scan | MCF_Greedy/main.swift:145-156 | defines the pair `(index, largest)` after the scan; `ScanMeaning` states what it is |
| Costs.MaxPos | MCF_Greedy/main.swift:145-156 | defines the position the scan picks; `MaxPosFirstMax` proves it is the first maximal position, or 0 |
| Costs.Adjusted | MCF_Greedy/main.swift:158-162 | defines the adjusted cost of a tree; `Cost` proves the method computes it and `AdjustedBounds` bounds it |
| Costs.Cost | MCF_Greedy/main.swift:145-162 | the loop's `index` is the scan position `MaxPos` (a valid position), and the cost is the total weight less the discount on that edge |
| Costs.ScanMeaning | MCF_Greedy/main.swift:145-156 | the scan ends with `largest >= 0` bounding every weight, every earlier position strictly lighter, `(0, 0)` when no weight is positive, and otherwise `largest` the weight at `index` |
| Costs.MaxPosFirstMax | MCF_Greedy/main.swift:145-156 | `index` is the first occurrence of the maximum weight when that maximum is positive, and 0 otherwise |
| Costs.Discounted | MCF_Greedy/main.swift:158-162 | the result is `cost - d` or `cost - w`, whichever is larger: the discount is `min(d, w)` |
| Costs.AdjustedBounds | MCF_Greedy/main.swift:158-162 | with `d >= 0` and non-negative weights the adjusted cost lies in `[sum - d, sum]` |
| Costs.Inactive | MCF_Greedy/main.swift:225 | the count lies in `0 .. |es|`, is 0 iff every edge is active and is `|es|` iff none is |
| Mcf.InGraph | MCF_Greedy/main.swift:117 | defines adjacency lists whose entries all name a node; `FlattenEndpoints` proves their edges stay in range |
| Mcf.SortedFrom | MCF_Greedy/main.swift:136-143 | defines "`all` is a sorted permutation of `es` whose tree is not empty", the lists `sort` may leave; `SortedFromSame` and `TieOrderMatters` state its properties |
| Mcf.SortedFromSame | MCF_Greedy/main.swift:136 | a sorted permutation of one list is a sorted permutation of any permutation of it |
| Mcf.AltMatch | MCF_Greedy/main.swift:183-209 | defines the rebuild that ends the search: same size, active most expensive edge, same adjusted cost; `SearchSound` and `OutcomeReduction` state what follows from it |
| Mcf.Outcome | MCF_Greedy/main.swift:164-230 | defines the value `kruskalMST` returns from a sorted list; `OutcomeBounds` and `OutcomeReduction` state its meaning |
| Mcf.Search | MCF_Greedy/main.swift:171-221 | the search terminates (measure `m - (k - 1 + |skip|)`) with a day reduction of 0 or 1 |
| Mcf.SearchSound | MCF_Greedy/main.swift:171-221 | a reduction of 1 means some skip list extending the current one, shorter than `m - k + 1`, rebuilds a tree of the same size whose most expensive edge is active and whose adjusted cost is the primary one |
| Mcf.NextSkipFresh | MCF_Greedy/main.swift:210-214 | the edge a failed rebuild appends to `edgeSkip` is not already on it |
| Mcf.AltSearch | MCF_Greedy/main.swift:168-221 | the search loop computes `Search` from `[mstEdges[index]]`; its invariants keep `edgeSkip` starting with that edge and free of repeats, and its measure decreases each round |
| Mcf.OutcomeBounds | MCF_Greedy/main.swift:225-230 | the result is the number of inactive tree edges or one less, and `0 <= result <= mstEdges.count <= nodes - 1` |
| Mcf.OutcomeReduction | MCF_Greedy/main.swift:164-230 | an active most expensive edge leaves the count unreduced; a reduction implies that edge is inactive and a skip list starting with it rebuilds a same-size tree with active most expensive edge and equal adjusted cost |
| Mcf.KruskalMST | MCF_Greedy/main.swift:126-230 | the result is `Outcome` of some sorted permutation of the flattened graph, with a non-empty tree, and `0 <= days < graph.count` |
| Mcf.PipesStep | MCF_Greedy/main.swift:112-117 | one more record appends its entry, with the positional activity flag, to the list of its node `a` |
| Mcf.PipesReady | MCF_Greedy/main.swift:101-121 | the `pipes` built from valid records name only nodes, hold every record once, and contain an edge between two different nodes |
| Mcf.BuildPipes | MCF_Greedy/main.swift:101-119 | the loop over the records builds exactly `Buckets` of the prepared records |
| Mcf.StartMCF | MCF_Greedy/main.swift:92-124 | the result is `Outcome` of some sorted permutation of the prepared records (positional activity rule), with a non-empty tree, and `0 <= days <= n` |
| Mcf.TieMerges | MCF_Greedy/main.swift:141 | the labellings the tie example passes through |
| Mcf.TieFirstPasses | MCF_Greedy/main.swift:138-143 | on `[x, y, w]` the first pass keeps `[x, y]`, and the rebuild skipping `x` keeps `[y, w]` |
| Mcf.TieSecondPasses | MCF_Greedy/main.swift:138-143 | on `[y, x, w]` the first pass keeps `[y, x]`, and the rebuild skipping `y` keeps only `[x]` |
| Mcf.TieCosts | MCF_Greedy/main.swift:145-162 | the scan positions and adjusted costs of the three trees of the tie example |
| Mcf.TieFirst | MCF_Greedy/main.swift:164-230 | `kruskalMST` gives 1 on `[x, y, w]` |
| Mcf.TieSecond | MCF_Greedy/main.swift:164-230 | `kruskalMST` gives 2 on `[y, x, w]` |
| Mcf.TieOrdered | MCF_Greedy/main.swift:136 | both orders of the tie example are sorted by the closure and are permutations of each other |
| Mcf.TieOrderMatters | MCF_Greedy/main.swift:136 | two sorted permutations of one edge list can give different results: the order `sort` leaves among ties decides the count |

## Left out

- Console input and output: the `readLine`/`Int(...)!` parsing, the `print`, and the top-level call (main.swift:94-99, 105-110, 122, 234). The input is the parameters `n`, `m`, `d` and a sequence of records.
- The commented-out file-based test harness (main.swift:237-281).
- Crashing inputs are excluded by preconditions rather than modelled:
  - a record that names a node outside `0 .. n` (an index out of range in Swift);
  - an input whose every record joins a node to itself. Its tree is empty, and `mstEdges[index]` fails (main.swift:158).
- Swift's `sort` algorithm and its order among ties. `Edges.SortEdges`, an insertion sort, stands in for it.
  - `Mcf.KruskalMST` and `Mcf.StartMCF` promise `Outcome` of some sorted permutation of the edges, not of one fixed order.
  - Every lemma about `Outcome` and `Run` holds for any list that is ordered by the comparator.
  - Edges sharing both weight and flag may come out in another order under Swift's sort. That can change the tree the program picks and the count it returns: `Mcf.TieOrderMatters` gives two sorted orders of three pipes on which the result is 1 and 2.
- Integer widths: `Int` is modelled as an unbounded integer, so sums of weights cannot overflow.
- Hashing of `CompPipe` and the cost of `edgeSkip.contains` (main.swift:88, 177). The skip list is a sequence with structural membership.
- `Mcf.KruskalMST`: its unused parameter `n` is dropped.
- The model does not prove that the tree has minimum weight, or that the result is the true minimum number of days.
- The copying of the `UF` value struct is not modelled. Each pass allocates a fresh `UnionFind.UF` object, as `UF(graph.count)` does.

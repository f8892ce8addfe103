/**
  `startMCF` and `kruskalMST` of MCF_Greedy/main.swift without the console:
  the records become adjacency lists, the lists are flattened and sorted,
  Kruskal's pass builds the primary tree, and when the tree's most expensive
  edge is not active yet, the alternative-tree search looks for a tree of the
  same size and the same adjusted cost whose most expensive edge is active,
  which saves one day.

  `Outcome` is the value `kruskalMST` returns for a given sorted edge list;
  the methods are proved to compute it, and the lemmas say what it is.
*/
module Mcf {
  import opened Edges
  import opened Kruskal
  import opened Costs

  /** Every adjacency entry names a node of the graph, as `UF(graph.count)` requires. */
  predicate InGraph(graph: seq<seq<Adj>>)
  {
    forall u, k :: 0 <= u < |graph| && 0 <= k < |graph[u]| ==> 0 <= graph[u][k].v < |graph|
  }

  /** The flattened edges of lists whose entries name nodes below `nodes` have both ends below `nodes`. */
  lemma {:induction false} FlattenEndpoints(graph: seq<seq<Adj>>, nodes: int)
    requires |graph| <= nodes
    requires forall u, k :: 0 <= u < |graph| && 0 <= k < |graph[u]| ==> 0 <= graph[u][k].v < nodes
    ensures EndpointsIn(Flatten(graph), nodes)
    decreases |graph|
  {
    if graph != [] {
      var init := graph[..|graph| - 1];
      assert forall u :: 0 <= u < |init| ==> init[u] == graph[u];
      FlattenEndpoints(init, nodes);
    }
  }

  /** Reordering edges keeps their ends in range. */
  lemma EndpointsPermutation(a: seq<Edge>, b: seq<Edge>, nodes: int)
    requires EndpointsIn(a, nodes) && multiset(a) == multiset(b)
    ensures EndpointsIn(b, nodes)
  {
    forall i | 0 <= i < |b| ensures 0 <= b[i].u < nodes && 0 <= b[i].v < nodes {
      assert b[i] in multiset(a);
      var j :| 0 <= j < |a| && a[j] == b[i];
    }
  }

  /** Reordering edges keeps an edge between two different nodes. */
  lemma ProperPermutation(a: seq<Edge>, b: seq<Edge>)
    requires multiset(a) == multiset(b)
    requires exists i :: 0 <= i < |a| && a[i].u != a[i].v
    ensures exists i :: 0 <= i < |b| && b[i].u != b[i].v
  {
    var i :| 0 <= i < |a| && a[i].u != a[i].v;
    assert a[i] in multiset(b);
    var j :| 0 <= j < |b| && b[j] == a[i];
  }

  /**
    `all` is a way `allEdges.sort` (main.swift:136) may order the edges
    `es`: sorted by the comparator, a permutation of `es`, with ends among
    the nodes and a non-empty tree.
  */
  predicate SortedFrom(all: seq<Edge>, es: seq<Edge>, nodes: nat)
  {
    Ordered(all) && multiset(all) == multiset(es) && EndpointsIn(all, nodes) && Run(all, nodes, []).forest != []
  }

  /** Orderings of one edge list are orderings of any permutation of it. */
  lemma SortedFromSame(all: seq<Edge>, a: seq<Edge>, b: seq<Edge>, nodes: nat)
    requires SortedFrom(all, a, nodes) && multiset(a) == multiset(b)
    ensures SortedFrom(all, b, nodes)
  {
  }

  /**
    `allEdges` after flattening and sorting (main.swift:101-136): every record
    exactly once, with its positional activity flag, in the comparator's order.
  */
  lemma AllEdges(records: seq<Record>, n: int)
    requires n >= 0 && forall i :: 0 <= i < |records| ==> 0 <= records[i].a <= n
    ensures var all := SortEdges(Flatten(Buckets(Prepare(records, n), n + 1)));
            multiset(all) == multiset(Prepare(records, n)) && |all| == |records| && Ordered(all)
  {
    var all := SortEdges(Flatten(Buckets(Prepare(records, n), n + 1)));
    PreparedPermutation(records, n);
    assert |all| == |multiset(all)| == |Prepare(records, n)|;
  }

  /**
    A rebuild with skip list `skip` yields a tree of `k` edges whose most
    expensive edge is active and whose adjusted cost is `cost` (the success
    case of main.swift:183-208).
  */
  predicate AltMatch(all: seq<Edge>, nodes: nat, d: int, k: int, cost: int, skip: seq<Edge>)
    requires EndpointsIn(all, nodes)
  {
    var f := Run(all, nodes, skip).forest;
    |f| == k && f != [] &&
    (MaxPosFirstMax(f);
     f[MaxPos(f)].act && Adjusted(f, d) == cost)
  }

  /**
    The search loop (main.swift:171-221) from skip list `skip`, for a primary
    tree of `k` edges with adjusted cost `cost`: the day reduction it ends
    with. A rebuild of another size stops the search; a rebuild whose most
    expensive edge is active and whose adjusted cost is `cost` ends it with 1;
    any other rebuild puts its most expensive edge on the skip list.
  */
  function Search(all: seq<Edge>, nodes: nat, m: int, d: int, k: int, cost: int, skip: seq<Edge>): (r: int)
    requires EndpointsIn(all, nodes) && k >= 1
    ensures r == 0 || r == 1
    decreases m - (k - 1 + |skip|)
  {
    if m <= k - 1 + |skip| then 0
    else
      var f := Run(all, nodes, skip).forest;
      if k != |f| then 0
      else
        MaxPosFirstMax(f);
        var i := MaxPos(f);
        if f[i].act && Adjusted(f, d) == cost then 1
        else Search(all, nodes, m, d, k, cost, skip + [f[i]])
  }

  /**
    The search saves a day only if some skip list that starts with the
    current one, and is no longer than `m - k + 1`, gives a matching
    alternative tree.
  */
  lemma {:induction false} SearchSound(all: seq<Edge>, nodes: nat, m: int, d: int, k: int, cost: int, skip: seq<Edge>)
    requires EndpointsIn(all, nodes) && k >= 1
    requires Search(all, nodes, m, d, k, cost, skip) == 1
    ensures exists s :: |skip| <= |s| < m - k + 1 && s[..|skip|] == skip && AltMatch(all, nodes, d, k, cost, s)
    decreases m - (k - 1 + |skip|)
  {
    var f := Run(all, nodes, skip).forest;
    MaxPosFirstMax(f);
    var i := MaxPos(f);
    if f[i].act && Adjusted(f, d) == cost {
      assert skip[..|skip|] == skip;
      assert AltMatch(all, nodes, d, k, cost, skip);
    } else {
      var next := skip + [f[i]];
      SearchSound(all, nodes, m, d, k, cost, next);
      var s :| |next| <= |s| < m - k + 1 && s[..|next|] == next && AltMatch(all, nodes, d, k, cost, s);
      assert s[..|skip|] == next[..|skip|] == skip;
    }
  }

  /** The edge a failed rebuild adds to the skip list is not on it yet, so the list never repeats an edge. */
  lemma NextSkipFresh(all: seq<Edge>, nodes: nat, skip: seq<Edge>)
    requires EndpointsIn(all, nodes) && Run(all, nodes, skip).forest != []
    ensures 0 <= MaxPos(Run(all, nodes, skip).forest) < |Run(all, nodes, skip).forest|
    ensures Run(all, nodes, skip).forest[MaxPos(Run(all, nodes, skip).forest)] !in skip
  {
    MaxPosFirstMax(Run(all, nodes, skip).forest);
    RunAvoidsSkip(all, nodes, skip);
  }

  /**
    The value of `kruskalMST` (main.swift:126-230) on the sorted edge list
    `all` over `nodes` nodes: the inactive edges of the primary tree, less one
    when its most expensive edge is inactive and the search succeeds.
  */
  function Outcome(all: seq<Edge>, nodes: nat, m: int, d: int): int
    requires EndpointsIn(all, nodes) && Run(all, nodes, []).forest != []
  {
    var mst := Run(all, nodes, []).forest;
    MaxPosFirstMax(mst);
    var i := MaxPos(mst);
    var dayReduction := if mst[i].act then 0 else Search(all, nodes, m, d, |mst|, Adjusted(mst, d), [mst[i]]);
    Inactive(mst) - dayReduction
  }

  /** The result is the number of inactive tree edges, or one less; never negative, never more than the tree's size. */
  lemma OutcomeBounds(all: seq<Edge>, nodes: nat, m: int, d: int)
    requires EndpointsIn(all, nodes) && Run(all, nodes, []).forest != []
    ensures var mst := Run(all, nodes, []).forest;
            Outcome(all, nodes, m, d) == Inactive(mst) || Outcome(all, nodes, m, d) == Inactive(mst) - 1
    ensures 0 <= Outcome(all, nodes, m, d) <= |Run(all, nodes, []).forest| <= nodes - 1
  {
    var mst := Run(all, nodes, []).forest;
    MaxPosFirstMax(mst);
    RunEdgeCount(all, nodes, []);
    if !mst[MaxPos(mst)].act {
      assert Inactive(mst) != 0;
    }
  }

  /**
    One day is saved only when the primary tree's most expensive edge is
    inactive and a rebuild that skips it (and possibly further edges) finds
    a tree of the same size and adjusted cost whose most expensive edge is
    active; when that edge is active, nothing is saved.
  */
  lemma OutcomeReduction(all: seq<Edge>, nodes: nat, m: int, d: int)
    requires EndpointsIn(all, nodes) && Run(all, nodes, []).forest != []
    ensures var mst := Run(all, nodes, []).forest;
            0 <= MaxPos(mst) < |mst| &&
            (mst[MaxPos(mst)].act ==> Outcome(all, nodes, m, d) == Inactive(mst))
    ensures var mst := Run(all, nodes, []).forest;
            Outcome(all, nodes, m, d) != Inactive(mst) ==>
              0 <= MaxPos(mst) < |mst| && !mst[MaxPos(mst)].act &&
              exists s :: 1 <= |s| < m - |mst| + 1 && s[0] == mst[MaxPos(mst)] &&
                          AltMatch(all, nodes, d, |mst|, Adjusted(mst, d), s)
  {
    var mst := Run(all, nodes, []).forest;
    MaxPosFirstMax(mst);
    var i := MaxPos(mst);
    if !mst[i].act && Outcome(all, nodes, m, d) != Inactive(mst) {
      SearchSound(all, nodes, m, d, |mst|, Adjusted(mst, d), [mst[i]]);
      var s :| 1 <= |s| < m - |mst| + 1 && s[..1] == [mst[i]] && AltMatch(all, nodes, d, |mst|, Adjusted(mst, d), s);
      assert s[0] == s[..1][0];
    }
  }

  /** The nested loops of main.swift:130-134: every list's entries, node after node. */
  method FlattenGraph(graph: seq<seq<Adj>>) returns (allEdges: seq<Edge>)
    ensures allEdges == Flatten(graph)
  {
    allEdges := [];
    for u := 0 to |graph|
      invariant allEdges == Flatten(graph[..u])
    {
      assert graph[..u + 1][..u] == graph[..u];
      var node := graph[u];
      for k := 0 to |node|
        invariant allEdges == Flatten(graph[..u]) + Expand(u, node[..k])
      {
        assert node[..k + 1] == node[..k] + [node[k]];
        ExpandAppend(u, node[..k], node[k]);
        allEdges := allEdges + [Edge(u, node[k].v, node[k].w, node[k].act)];
      }
      assert node[..|node|] == node;
    }
    assert graph[..|graph|] == graph;
  }

  /**
    The search loop of main.swift:168-221 for a primary tree of `k` edges
    with adjusted cost `cost` whose most expensive edge `first` is inactive:
    each round rebuilds the tree from `all` avoiding `edgeSkip`. The skip
    list only grows, never repeats an edge, and the loop ends because
    `m - (k - 1 + |edgeSkip|)` decreases.
  */
  method AltSearch(all: seq<Edge>, nodes: nat, m: int, d: int, k: int, cost: int, first: Edge) returns (dayReduction: int)
    requires EndpointsIn(all, nodes) && k >= 1
    ensures dayReduction == Search(all, nodes, m, d, k, cost, [first])
  {
    dayReduction := 0;
    var edgeSkip := [first];
    while m > k - 1 + |edgeSkip|
      invariant Search(all, nodes, m, d, k, cost, edgeSkip) == Search(all, nodes, m, d, k, cost, [first])
      invariant dayReduction == 0
      invariant |edgeSkip| >= 1 && edgeSkip[0] == first
      invariant forall a, b :: 0 <= a < b < |edgeSkip| ==> edgeSkip[a] != edgeSkip[b]
      decreases m - (k - 1 + |edgeSkip|)
    {
      var mstEdges2 := BuildForest(all, nodes, edgeSkip);
      if k == |mstEdges2| {
        var index2, sumCosts2 := Cost(mstEdges2, d);
        NextSkipFresh(all, nodes, edgeSkip);
        if mstEdges2[index2].act {
          if cost == sumCosts2 {
            dayReduction := 1;
            break;
          } else {
            edgeSkip := edgeSkip + [mstEdges2[index2]];
          }
        } else {
          edgeSkip := edgeSkip + [mstEdges2[index2]];
        }
      } else {
        break;
      }
    }
  }

  /**
    `kruskalMST` (main.swift:126-230). Its unused parameter `n` is dropped.
    Swift's `sort` is modelled by `SortEdges`, but the result is promised
    only for some ordered permutation of the edges, since the order among
    edges with equal weight and flag is not fixed. A graph without a pipe between
    two different nodes is excluded: its tree is empty and `mstEdges[index]`
    fails.
  */
  method KruskalMST(graph: seq<seq<Adj>>, m: int, d: int) returns (days: int)
    requires InGraph(graph)
    requires exists i :: 0 <= i < |Flatten(graph)| && Flatten(graph)[i].u != Flatten(graph)[i].v
    ensures exists all :: SortedFrom(all, Flatten(graph), |graph|) && days == Outcome(all, |graph|, m, d)
    ensures 0 <= days < |graph|
  {
    var allEdges := FlattenGraph(graph);
    FlattenEndpoints(graph, |graph|);
    ghost var flat := allEdges;
    allEdges := SortEdges(allEdges);
    EndpointsPermutation(flat, allEdges, |graph|);
    ProperPermutation(flat, allEdges);
    RunNonEmpty(allEdges, |graph|);

    var mstEdges := BuildForest(allEdges, |graph|, []);
    var index, sumCosts := Cost(mstEdges, d);
    var dayReduction := 0;
    if !mstEdges[index].act {
      dayReduction := AltSearch(allEdges, |graph|, m, d, |mstEdges|, sumCosts, mstEdges[index]);
    }
    var num := Inactive(mstEdges);
    num := num - dayReduction;
    days := num;
    OutcomeBounds(allEdges, |graph|, m, d);
    assert SortedFrom(allEdges, Flatten(graph), |graph|);
  }

  /** Record `i` lands, with its positional flag, at the end of the list of its node `a` (main.swift:112-117). */
  lemma PipesStep(records: seq<Record>, i: int, n: int)
    requires 0 <= i < |records| && 0 <= records[i].a <= n
    ensures var r, before := records[i], Buckets(Prepare(records[..i], n), n + 1);
            Buckets(Prepare(records[..i + 1], n), n + 1) == before[r.a := before[r.a] + [Adj(r.b, r.c, i < n - 1)]]
  {
    PrepareSnoc(records, i, n);
    BucketsSnoc(Prepare(records[..i], n), Edge(records[i].a, records[i].b, records[i].c, i < n - 1), n + 1);
  }

  /**
    The lists `pipes` that main.swift:101-119 builds from valid records name
    only nodes 0 .. n, hold every record once, and hold a pipe between two
    different nodes when some record joins two different nodes.
  */
  lemma PipesReady(records: seq<Record>, n: int)
    requires n >= 0
    requires forall i :: 0 <= i < |records| ==> 0 <= records[i].a <= n && 0 <= records[i].b <= n
    requires exists i :: 0 <= i < |records| && records[i].a != records[i].b
    ensures var pipes := Buckets(Prepare(records, n), n + 1);
            InGraph(pipes) && multiset(Flatten(pipes)) == multiset(Prepare(records, n)) &&
            exists i :: 0 <= i < |Flatten(pipes)| && Flatten(pipes)[i].u != Flatten(pipes)[i].v
  {
    var es: seq<Edge> := Prepare(records, n);
    var pipes: seq<seq<Adj>> := Buckets(es, n + 1);
    forall u | 0 <= u < n + 1 ensures forall k :: 0 <= k < |pipes[u]| ==> 0 <= pipes[u][k].v < n + 1 {
      AtNodeIn(es, u, n + 1);
    }
    PreparedPermutation(records, n);
    var i :| 0 <= i < |records| && records[i].a != records[i].b;
    assert es[i].u != es[i].v;
    ProperPermutation(es, Flatten(pipes));
  }

  /**
    The input loop of `startMCF` (main.swift:101-119) without the reading:
    record `i` is active iff `i < n - 1` and is appended to the list of its
    node `a`.
  */
  method BuildPipes(n: int, m: int, records: seq<Record>) returns (pipes: seq<seq<Adj>>)
    requires n >= 0 && |records| == m
    requires forall i :: 0 <= i < m ==> 0 <= records[i].a <= n
    ensures pipes == Buckets(Prepare(records, n), n + 1)
  {
    pipes := seq(n + 1, _ => []);
    assert pipes == Buckets(Prepare(records[..0], n), n + 1);
    for i := 0 to m
      invariant pipes == Buckets(Prepare(records[..i], n), n + 1)
    {
      var a, b, c := records[i].a, records[i].b, records[i].c;
      var active := false;
      if i < n - 1 {
        active := true;
      }
      PipesStep(records, i, n);
      pipes := pipes[a := pipes[a] + [Adj(b, c, active)]];
    }
    assert records[..m] == records;
  }

  /**
    `startMCF` (main.swift:92-124) on the parsed input: `n` nodes numbered
    0 .. n (the lists are `n + 1` long), `m` records, discount `d`. The
    records' position decides activity: the first `n - 1` pipes are active.
    A record naming a node outside 0 .. n makes the Swift code fail, and is
    excluded, as is an input where every record joins a node to itself.
  */
  method StartMCF(n: int, m: int, d: int, records: seq<Record>) returns (days: int)
    requires n >= 0 && |records| == m
    requires forall i :: 0 <= i < m ==> 0 <= records[i].a <= n && 0 <= records[i].b <= n
    requires exists i :: 0 <= i < m && records[i].a != records[i].b
    ensures exists all {:trigger Outcome(all, n + 1, m, d)} :: SortedFrom(all, Prepare(records, n), n + 1) && days == Outcome(all, n + 1, m, d)
    ensures 0 <= days <= n
  {
    var pipes := BuildPipes(n, m, records);
    PipesReady(records, n);
    days := KruskalMST(pipes, m, d);
    var all :| SortedFrom(all, Flatten(pipes), n + 1) && days == Outcome(all, n + 1, m, d);
    SortedFromSame(all, Flatten(pipes), Prepare(records, n), n + 1);
  }

  /** The pipes of the tie example: two inactive pipes of weight 5, and an active one of weight 6 parallel to the first. */
  function TieX(): Edge { Edge(0, 1, 5, false) }
  function TieY(): Edge { Edge(1, 2, 5, false) }
  function TieW(): Edge { Edge(0, 1, 6, true) }

  /** Merging the classes of the tie example, step by step. */
  lemma TieMerges()
    ensures Identity(3) == [0, 1, 2]
    ensures Merge([0, 1, 2], 0, 1) == [0, 0, 2] && Merge([0, 0, 2], 1, 2) == [0, 0, 0]
    ensures Merge([0, 1, 2], 1, 2) == [0, 1, 1] && Merge([0, 1, 1], 0, 1) == [0, 0, 0]
  {
  }

  /** The passes over `[x, y, w]`: the primary one takes x and y; skipping x, the rebuild takes y and w. */
  lemma TieFirstPasses()
    ensures EndpointsIn([TieX(), TieY(), TieW()], 3)
    ensures Run([TieX(), TieY(), TieW()], 3, []).forest == [TieX(), TieY()]
    ensures Run([TieX(), TieY(), TieW()], 3, [TieX()]).forest == [TieY(), TieW()]
  {
    var x, y, w := TieX(), TieY(), TieW();
    var a := [x, y, w];
    TieMerges();
    assert [x][..0] == [] && [x, y][..1] == [x] && a[..2] == [x, y];
    assert Run([x], 3, []) == Pass([x], [0, 0, 2]);
    assert Run([x, y], 3, []) == Pass([x, y], [0, 0, 0]);
    assert Run([x], 3, [x]) == Pass([], [0, 1, 2]);
    assert Run([x, y], 3, [x]) == Pass([y], [0, 1, 1]);
  }

  /** The passes over `[y, x, w]`: the primary one takes y and x; skipping y, the rebuild takes only x. */
  lemma TieSecondPasses()
    ensures EndpointsIn([TieY(), TieX(), TieW()], 3)
    ensures Run([TieY(), TieX(), TieW()], 3, []).forest == [TieY(), TieX()]
    ensures Run([TieY(), TieX(), TieW()], 3, [TieY()]).forest == [TieX()]
  {
    var x, y, w := TieX(), TieY(), TieW();
    var b := [y, x, w];
    TieMerges();
    assert [y][..0] == [] && [y, x][..1] == [y] && b[..2] == [y, x];
    assert Run([y], 3, []) == Pass([y], [0, 1, 1]);
    assert Run([y, x], 3, []) == Pass([y, x], [0, 0, 0]);
    assert Run([y], 3, [y]) == Pass([], [0, 1, 2]);
    assert Run([y, x], 3, [y]) == Pass([x], [0, 0, 2]);
  }

  /** The scans and costs of the trees of the tie example. */
  lemma TieCosts()
    ensures MaxPos([TieX(), TieY()]) == 0 && Adjusted([TieX(), TieY()], 10) == 5
    ensures MaxPos([TieY(), TieX()]) == 0 && Adjusted([TieY(), TieX()], 10) == 5
    ensures MaxPos([TieY(), TieW()]) == 1 && Adjusted([TieY(), TieW()], 10) == 5
  {
    var x, y, w := TieX(), TieY(), TieW();
    assert [x][..0] == [] && [y][..0] == [];
    assert Scan([x]) == (0, 5) && Scan([y]) == (0, 5);
    assert Scan([x, y]) == (0, 5) by { assert [x, y][..1] == [x] && !(y.w > Scan([x]).1); }
    assert Scan([y, x]) == (0, 5) by { assert [y, x][..1] == [y] && !(x.w > Scan([y]).1); }
    assert Scan([y, w]) == (1, 6) by { assert [y, w][..1] == [y]; }
    assert SumW([x]) == 5 && SumW([y]) == 5;
    assert SumW([x, y]) == SumW([x]) + 5 == 10 by { assert [x, y][..1] == [x]; }
    assert SumW([y, x]) == SumW([y]) + 5 == 10 by { assert [y, x][..1] == [y]; }
    assert SumW([y, w]) == SumW([y]) + 6 == 11 by { assert [y, w][..1] == [y]; }
  }

  /** On `[x, y, w]` the tree is `[x, y]` with inactive maximum x; skipping x gives `[y, w]` at the same cost, so one day is saved. */
  lemma TieFirst()
    ensures EndpointsIn([TieX(), TieY(), TieW()], 3) && Run([TieX(), TieY(), TieW()], 3, []).forest != []
    ensures Outcome([TieX(), TieY(), TieW()], 3, 3, 10) == 1
  {
    TieFirstPasses();
    TieCosts();
    var a := [TieX(), TieY(), TieW()];
    assert Search(a, 3, 3, 10, 2, 5, [TieX()]) == 1;
    assert Inactive([TieX(), TieY()]) == 2;
  }

  /** On `[y, x, w]` the tree is `[y, x]` with inactive maximum y; skipping y leaves only `[x]`, which ends the search. */
  lemma TieSecond()
    ensures EndpointsIn([TieY(), TieX(), TieW()], 3) && Run([TieY(), TieX(), TieW()], 3, []).forest != []
    ensures Outcome([TieY(), TieX(), TieW()], 3, 3, 10) == 2
  {
    TieSecondPasses();
    TieCosts();
    var b := [TieY(), TieX(), TieW()];
    assert Search(b, 3, 3, 10, 2, 5, [TieY()]) == 0;
    assert Inactive([TieY(), TieX()]) == 2;
  }

  /**
    The value depends on the order of edges that share weight and flag: both
    lists are sorted by the comparator and are permutations of each other,
    and `kruskalMST` gives 1 on the first and 2 on the second.
  */
  lemma TieOrderMatters()
    ensures var a, b := [TieX(), TieY(), TieW()], [TieY(), TieX(), TieW()];
            SortedFrom(a, a, 3) && SortedFrom(b, a, 3) && Outcome(a, 3, 3, 10) != Outcome(b, 3, 3, 10)
  {
    TieFirst();
    TieSecond();
    TieOrdered();
  }

  /** Both orders of the tie example are sorted by the comparator and hold the same pipes. */
  lemma TieOrdered()
    ensures Ordered([TieX(), TieY(), TieW()]) && Ordered([TieY(), TieX(), TieW()])
    ensures multiset([TieX(), TieY(), TieW()]) == multiset([TieY(), TieX(), TieW()])
  {
  }
}

/**
  Kruskal's pass of `kruskalMST` (MCF_Greedy/main.swift:138-143), and the
  rebuild of the alternative-tree search (main.swift:173-181): walk the sorted
  edges once with a fresh `UF`, skip an edge whose endpoints are already
  connected, skip an edge that is on the skip list, and otherwise union its
  endpoints and append it to the forest. The primary pass is the rebuild with
  an empty skip list: its `contains` test never succeeds.

  The pass is specified by `Run`, which tracks the components with a labelling
  instead of a union-find: every node carries a label, and accepting an edge
  relabels the class of its second endpoint with the label of its first. The
  labelling is an independent account of the partition; the method keeps the
  union-find's partition equal to it.
*/
module Kruskal {
  import opened Edges
  import opened UnionFind

  /** Every endpoint is a node of the forest 0 .. nodes-1. */
  predicate EndpointsIn(es: seq<Edge>, nodes: int)
  {
    forall i :: 0 <= i < |es| ==> 0 <= es[i].u < nodes && 0 <= es[i].v < nodes
  }

  /** Every node in a class of its own. */
  function Identity(nodes: nat): (lab: seq<int>)
    ensures |lab| == nodes
  {
    seq(nodes, x => x)
  }

  /** Joins the classes of `u` and `v`: every node labelled like `v` takes `u`'s label. */
  function Merge(lab: seq<int>, u: int, v: int): (r: seq<int>)
    requires 0 <= u < |lab| && 0 <= v < |lab|
    ensures |r| == |lab|
  {
    seq(|lab|, x requires 0 <= x < |lab| => if lab[x] == lab[v] then lab[u] else lab[x])
  }

  /** The components of the graph with nodes 0 .. nodes-1 and edges `es`, as a labelling. */
  function Partition(es: seq<Edge>, nodes: nat): (lab: seq<int>)
    requires EndpointsIn(es, nodes)
    ensures |lab| == nodes
    decreases |es|
  {
    if es == [] then Identity(nodes)
    else
      var e := es[|es| - 1];
      Merge(Partition(es[..|es| - 1], nodes), e.u, e.v)
  }

  /** Each edge joins two nodes that the edges before it leave in different components: no edge closes a cycle. */
  predicate IsForest(es: seq<Edge>, nodes: nat)
    requires EndpointsIn(es, nodes)
    decreases |es|
  {
    es == [] ||
    var init, e := es[..|es| - 1], es[|es| - 1];
    IsForest(init, nodes) && Partition(init, nodes)[e.u] != Partition(init, nodes)[e.v]
  }

  /** The labels in use, one per component. */
  function Classes(lab: seq<int>): set<int>
  {
    set x | 0 <= x < |lab| :: lab[x]
  }

  /** Two labellings describe the same partition. */
  ghost predicate SameClasses(r: seq<int>, lab: seq<int>)
  {
    |r| == |lab| &&
    forall x, y :: 0 <= x < |r| && 0 <= y < |r| ==> (r[x] == r[y] <==> lab[x] == lab[y])
  }

  /** The state of a pass: the accepted edges and the current components. */
  datatype Pass = Pass(forest: seq<Edge>, lab: seq<int>)

  /** The pass over `edges` with skip list `skip` (main.swift:138-143 when `skip` is empty, 174-181 otherwise). */
  function Run(edges: seq<Edge>, nodes: nat, skip: seq<Edge>): (st: Pass)
    requires EndpointsIn(edges, nodes)
    ensures |st.lab| == nodes
    decreases |edges|
  {
    if edges == [] then Pass([], Identity(nodes))
    else
      var st := Run(edges[..|edges| - 1], nodes, skip);
      var e := edges[|edges| - 1];
      if st.lab[e.u] == st.lab[e.v] then st
      else if e in skip then st
      else Pass(st.forest + [e], Merge(st.lab, e.u, e.v))
  }

  /** Merging a class with itself changes nothing. */
  lemma MergeSame(lab: seq<int>, u: int, v: int)
    requires 0 <= u < |lab| && 0 <= v < |lab| && lab[u] == lab[v]
    ensures Merge(lab, u, v) == lab
  {
  }

  /** Merging two different classes removes exactly the label of `v`'s class. */
  lemma MergeClasses(lab: seq<int>, u: int, v: int)
    requires 0 <= u < |lab| && 0 <= v < |lab| && lab[u] != lab[v]
    ensures Classes(Merge(lab, u, v)) == Classes(lab) - {lab[v]}
    ensures |Classes(Merge(lab, u, v))| == |Classes(lab)| - 1
  {
    var m := Merge(lab, u, v);
    forall l | l in Classes(lab) - {lab[v]} ensures l in Classes(m) {
      var x :| 0 <= x < |lab| && lab[x] == l;
      assert m[x] == l;
    }
    forall l | l in Classes(m) ensures l in Classes(lab) - {lab[v]} {
      var x :| 0 <= x < |m| && m[x] == l;
      if lab[x] == lab[v] { assert l == lab[u]; } else { assert lab[x] == l; }
    }
    assert Classes(m) == Classes(lab) - {lab[v]};
    assert lab[v] in Classes(lab);
    assert Classes(lab) == Classes(m) + {lab[v]};
  }

  /** The numbers 0 .. n-1. */
  function Range(n: nat): (r: set<int>)
    ensures |r| == n
    ensures forall x :: x in r <==> 0 <= x < n
  {
    if n == 0 then {} else Range(n - 1) + {n - 1}
  }

  /** Without edges there are as many components as nodes. */
  lemma IdentityClasses(nodes: nat)
    ensures |Classes(Identity(nodes))| == nodes
  {
    assert Classes(Identity(nodes)) == Range(nodes) by {
      forall l | l in Classes(Identity(nodes)) ensures l in Range(nodes) {
        var x :| 0 <= x < nodes && Identity(nodes)[x] == l;
      }
      forall l | l in Range(nodes) ensures l in Classes(Identity(nodes)) {
        assert Identity(nodes)[l] == l;
      }
    }
  }

  /** A forest with k edges over `nodes` nodes leaves exactly nodes - k components. */
  lemma {:induction false} ForestComponents(es: seq<Edge>, nodes: nat)
    requires EndpointsIn(es, nodes) && IsForest(es, nodes)
    ensures |es| + |Classes(Partition(es, nodes))| == nodes
    decreases |es|
  {
    if es == [] {
      IdentityClasses(nodes);
    } else {
      var init, e := es[..|es| - 1], es[|es| - 1];
      ForestComponents(init, nodes);
      MergeClasses(Partition(init, nodes), e.u, e.v);
    }
  }

  /** Every accepted edge is one of the input edges, taken at most as often as it occurs there. */
  lemma {:induction false} RunFromInput(edges: seq<Edge>, nodes: nat, skip: seq<Edge>)
    requires EndpointsIn(edges, nodes)
    ensures multiset(Run(edges, nodes, skip).forest) <= multiset(edges)
    ensures EndpointsIn(Run(edges, nodes, skip).forest, nodes)
    decreases |edges|
  {
    if edges != [] {
      var init, e := edges[..|edges| - 1], edges[|edges| - 1];
      RunFromInput(init, nodes, skip);
      var st0 := Run(init, nodes, skip);
      assert edges == init + [e];
      assert multiset(edges) == multiset(init) + multiset{e};
      var f := Run(edges, nodes, skip).forest;
      assert f == st0.forest || f == st0.forest + [e];
      forall k | 0 <= k < |f| ensures 0 <= f[k].u < nodes && 0 <= f[k].v < nodes {
        if k == |st0.forest| { assert f[k] == e; } else { assert f[k] == st0.forest[k]; }
      }
    }
  }

  /** The labels of a pass are the components of the edges it has accepted. */
  lemma {:induction false} RunLabels(edges: seq<Edge>, nodes: nat, skip: seq<Edge>)
    requires EndpointsIn(edges, nodes)
    ensures EndpointsIn(Run(edges, nodes, skip).forest, nodes)
    ensures Run(edges, nodes, skip).lab == Partition(Run(edges, nodes, skip).forest, nodes)
    decreases |edges|
  {
    RunFromInput(edges, nodes, skip);
    if edges != [] {
      var init, e := edges[..|edges| - 1], edges[|edges| - 1];
      RunLabels(init, nodes, skip);
      var st0 := Run(init, nodes, skip);
      if st0.lab[e.u] != st0.lab[e.v] && e !in skip {
        var f := st0.forest + [e];
        assert f[..|f| - 1] == st0.forest;
      }
    }
  }

  /** The accepted edges form a forest: each joined two different components when it was accepted. */
  lemma {:induction false} RunIsForest(edges: seq<Edge>, nodes: nat, skip: seq<Edge>)
    requires EndpointsIn(edges, nodes)
    ensures EndpointsIn(Run(edges, nodes, skip).forest, nodes)
    ensures IsForest(Run(edges, nodes, skip).forest, nodes)
    decreases |edges|
  {
    RunLabels(edges, nodes, skip);
    if edges != [] {
      var init := edges[..|edges| - 1];
      RunIsForest(init, nodes, skip);
      RunLabels(init, nodes, skip);
      var f := Run(edges, nodes, skip).forest;
      if f != Run(init, nodes, skip).forest {
        assert f[..|f| - 1] == Run(init, nodes, skip).forest;
      }
    }
  }

  /** A pass accepts at most nodes - 1 edges, and accepted edges plus remaining components always make `nodes`. */
  lemma RunEdgeCount(edges: seq<Edge>, nodes: nat, skip: seq<Edge>)
    requires EndpointsIn(edges, nodes)
    ensures |Run(edges, nodes, skip).forest| + |Classes(Run(edges, nodes, skip).lab)| == nodes
    ensures nodes >= 1 ==> |Run(edges, nodes, skip).forest| <= nodes - 1
  {
    RunIsForest(edges, nodes, skip);
    RunLabels(edges, nodes, skip);
    ForestComponents(Run(edges, nodes, skip).forest, nodes);
    if nodes >= 1 {
      assert Run(edges, nodes, skip).lab[0] in Classes(Run(edges, nodes, skip).lab);
    }
  }

  /**
    Without a skip list the pass ends with the components of the whole graph,
    so it accepts exactly nodes minus the number of components of the graph.
  */
  lemma {:induction false} RunSpans(edges: seq<Edge>, nodes: nat)
    requires EndpointsIn(edges, nodes)
    ensures Run(edges, nodes, []).lab == Partition(edges, nodes)
    ensures |Run(edges, nodes, []).forest| == nodes - |Classes(Partition(edges, nodes))|
    decreases |edges|
  {
    if edges != [] {
      var init, e := edges[..|edges| - 1], edges[|edges| - 1];
      RunSpans(init, nodes);
      var lab := Run(init, nodes, []).lab;
      if lab[e.u] == lab[e.v] {
        MergeSame(lab, e.u, e.v);
      }
    }
    RunEdgeCount(edges, nodes, []);
  }

  /** No edge of the skip list is ever accepted. */
  lemma {:induction false} RunAvoidsSkip(edges: seq<Edge>, nodes: nat, skip: seq<Edge>)
    requires EndpointsIn(edges, nodes)
    ensures forall k :: 0 <= k < |Run(edges, nodes, skip).forest| ==> Run(edges, nodes, skip).forest[k] !in skip
    decreases |edges|
  {
    if edges != [] {
      RunAvoidsSkip(edges[..|edges| - 1], nodes, skip);
    }
  }

  /** `idx` picks the elements of `f` out of `es` at strictly increasing positions. */
  predicate Embeds(f: seq<Edge>, es: seq<Edge>, idx: seq<int>)
  {
    && |idx| == |f|
    && (forall k :: 0 <= k < |f| ==> 0 <= idx[k] < |es| && f[k] == es[idx[k]])
    && (forall k, l :: 0 <= k < l < |f| ==> idx[k] < idx[l])
  }

  /** The accepted edges are a subsequence of the input: they appear in `edges`, in the same order. */
  lemma {:induction false} RunSubsequence(edges: seq<Edge>, nodes: nat, skip: seq<Edge>)
    requires EndpointsIn(edges, nodes)
    ensures exists idx :: Embeds(Run(edges, nodes, skip).forest, edges, idx)
    decreases |edges|
  {
    if edges == [] {
      assert Run(edges, nodes, skip).forest == [];
      assert Embeds([], edges, []);
    } else {
      var init, e := edges[..|edges| - 1], edges[|edges| - 1];
      RunSubsequence(init, nodes, skip);
      var f0 := Run(init, nodes, skip).forest;
      var idx0 :| Embeds(f0, init, idx0);
      assert Embeds(f0, edges, idx0);
      if Run(edges, nodes, skip).forest != f0 {
        var idx := idx0 + [|edges| - 1];
        assert Embeds(f0 + [e], edges, idx);
      }
    }
  }

  /** A sorted input gives a sorted forest. */
  lemma {:induction false} RunOrdered(edges: seq<Edge>, nodes: nat, skip: seq<Edge>)
    requires EndpointsIn(edges, nodes) && Ordered(edges)
    ensures Ordered(Run(edges, nodes, skip).forest)
    decreases |edges|
  {
    if edges != [] {
      var init, e := edges[..|edges| - 1], edges[|edges| - 1];
      assert Ordered(init);
      RunOrdered(init, nodes, skip);
      RunFromInput(init, nodes, skip);
      var f0 := Run(init, nodes, skip).forest;
      if Run(edges, nodes, skip).forest != f0 {
        forall k | 0 <= k < |f0| ensures InOrder(f0[k], e) {
          assert f0[k] in multiset(f0);
          assert f0[k] in multiset(init);
          var m :| 0 <= m < |init| && init[m] == f0[k];
          assert edges[m] == f0[k];
        }
        OrderedSnoc(f0, e);
      }
    }
  }

  /** If some edge joins two different nodes, the pass without a skip list accepts at least one edge. */
  lemma {:induction false} RunNonEmpty(edges: seq<Edge>, nodes: nat)
    requires EndpointsIn(edges, nodes)
    requires exists i :: 0 <= i < |edges| && edges[i].u != edges[i].v
    ensures Run(edges, nodes, []).forest != []
    decreases |edges|
  {
    var init, e := edges[..|edges| - 1], edges[|edges| - 1];
    if exists i :: 0 <= i < |init| && init[i].u != init[i].v {
      RunNonEmpty(init, nodes);
    } else {
      RunLabels(init, nodes, []);
      if Run(init, nodes, []).forest == [] {
        assert e.u != e.v;
      }
    }
  }

  /** Taking one more input edge: the pass over `edges[..i + 1]` from the pass over `edges[..i]`. */
  lemma RunStep(edges: seq<Edge>, nodes: nat, skip: seq<Edge>, i: int)
    requires EndpointsIn(edges, nodes) && 0 <= i < |edges|
    ensures var st, e := Run(edges[..i], nodes, skip), edges[i];
            Run(edges[..i + 1], nodes, skip)
            == if st.lab[e.u] == st.lab[e.v] || e in skip then st else Pass(st.forest + [e], Merge(st.lab, e.u, e.v))
  {
    assert edges[..i + 1][..i] == edges[..i];
  }

  /** The partition of a union-find in which every element is its own parent is the identity labelling. */
  lemma InitialClasses(parent: seq<int>, size: seq<int>)
    requires Forest(parent, size) && forall i :: 0 <= i < |parent| ==> parent[i] == i
    ensures SameClasses(Roots(parent, size), Identity(|parent|))
  {
  }

  /**
    Merging the classes of `u` and `v` in the union-find (as `union` does,
    keeping one of the two roots) and in the labelling keeps the two partitions equal.
  */
  lemma MergeMatchesUnion(r: seq<int>, r2: seq<int>, lab: seq<int>, u: int, v: int, c: int)
    requires SameClasses(r, lab) && 0 <= u < |r| && 0 <= v < |r| && r[u] != r[v]
    requires |r2| == |r| && (c == r[u] || c == r[v])
    requires forall x :: 0 <= x < |r| ==> r2[x] == if r[x] == r[u] || r[x] == r[v] then c else r[x]
    ensures SameClasses(r2, Merge(lab, u, v))
  {
    var m := Merge(lab, u, v);
    forall x, y | 0 <= x < |r| && 0 <= y < |r| ensures r2[x] == r2[y] <==> m[x] == m[y] {
      assert (r[x] == r[u]) == (lab[x] == lab[u]) && (r[x] == r[v]) == (lab[x] == lab[v]);
      assert (r[y] == r[u]) == (lab[y] == lab[u]) && (r[y] == r[v]) == (lab[y] == lab[v]);
      assert (r[x] == r[y]) == (lab[x] == lab[y]);
    }
  }

  /**
    One step of the pass (main.swift:139-142 and 174-180): an edge whose ends
    are already connected, or that is on the skip list, is passed over;
    otherwise the two classes are united and the edge is taken.
  */
  method Offer(uf: UF, e: Edge, skip: seq<Edge>, ghost lab: seq<int>) returns (taken: bool)
    requires uf.Valid() && 0 <= e.u < uf.n && 0 <= e.v < uf.n
    requires SameClasses(Roots(uf.parent[..], uf.size[..]), lab)
    modifies uf.parent, uf.size
    ensures uf.Valid()
    ensures taken <==> lab[e.u] != lab[e.v] && e !in skip
    ensures SameClasses(Roots(uf.parent[..], uf.size[..]), if taken then Merge(lab, e.u, e.v) else lab)
  {
    ghost var P := uf.parent[..];
    ghost var r := Roots(P, uf.size[..]);
    var c := uf.Connected(e.u, e.v);
    assert c <==> lab[e.u] == lab[e.v] by {
      assert r[e.u] == Root(P, uf.size[..], e.u) && r[e.v] == Root(P, uf.size[..], e.v);
    }
    if c || e in skip {
      return false;
    }
    uf.Union(e.u, e.v);
    MergeMatchesUnion(r, Roots(uf.parent[..], uf.size[..]), lab, e.u, e.v, Root(uf.parent[..], uf.size[..], e.u));
    taken := true;
  }

  /**
    The pass itself (main.swift:138-143 and 173-181): a fresh union-find over
    `nodes` elements; the connected test comes before the skip-list test.
  */
  method BuildForest(edges: seq<Edge>, nodes: nat, skip: seq<Edge>) returns (forest: seq<Edge>)
    requires EndpointsIn(edges, nodes)
    ensures forest == Run(edges, nodes, skip).forest
    ensures EndpointsIn(forest, nodes) && IsForest(forest, nodes)
    ensures forall k :: 0 <= k < |forest| ==> forest[k] !in skip
  {
    var uf := new UF(nodes);
    forest := [];
    ghost var lab := Identity(nodes);
    InitialClasses(uf.parent[..], uf.size[..]);
    for i := 0 to |edges|
      invariant uf.Valid() && uf.n == nodes && fresh(uf.parent) && fresh(uf.size)
      invariant Run(edges[..i], nodes, skip) == Pass(forest, lab)
      invariant SameClasses(Roots(uf.parent[..], uf.size[..]), lab)
    {
      var e := edges[i];
      RunStep(edges, nodes, skip, i);
      var taken := Offer(uf, e, skip, lab);
      if taken {
        forest := forest + [e];
        lab := Merge(lab, e.u, e.v);
      }
    }
    assert edges[..|edges|] == edges;
    RunIsForest(edges, nodes, skip);
    RunAvoidsSkip(edges, nodes, skip);
  }
}

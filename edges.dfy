/**
  The records of MCF_Greedy/main.swift: the input lines `(a, b, c)`, the
  adjacency entries `(v, w, act)` of `pipes`, and the edges `(u, v, w, act)`
  of `allEdges`, `mstEdges` and the skip list (`CompPipe`, whose equality and
  hashing are structural, is the same value as the edge tuple).

  It also holds the order `allEdges` is sorted into (main.swift:136), the
  positional activity rule (main.swift:112-115), the bucketing of records into
  adjacency lists (main.swift:101-119) and their flattening (main.swift:130-134).
*/
module Edges {

  /** One input line: a pipe between `a` and `b` costing `c`. */
  datatype Record = Record(a: int, b: int, c: int)

  /** An entry of the adjacency list of some node: neighbour, weight, and whether the pipe already exists. */
  datatype Adj = Adj(v: int, w: int, act: bool)

  /** A pipe from `u` to `v` of weight `w`; `act` marks a pipe that is already active. */
  datatype Edge = Edge(u: int, v: int, w: int, act: bool)

  /** The closure passed to `allEdges.sort` (main.swift:136). */
  predicate Less(x: Edge, y: Edge)
  {
    x.w < y.w || (x.w == y.w && x.act)
  }

  /**
    `x` may stand before `y` in the sorted list: the comparator does not put `y`
    strictly before `x`. The comparator is not a strict weak order (two active
    edges of equal weight are each "less" than the other), so the order it is
    meant to produce is read from its one-sided cases.
  */
  predicate InOrder(x: Edge, y: Edge)
  {
    !(Less(y, x) && !Less(x, y))
  }

  /** A list sorted by the comparator. */
  predicate Ordered(s: seq<Edge>)
  {
    forall i, j :: 0 <= i < j < |s| ==> InOrder(s[i], s[j])
  }

  /** A sorted list has non-decreasing weights and, within one weight, every active edge before every inactive one. */
  lemma OrderedMeaning(s: seq<Edge>)
    requires Ordered(s)
    ensures forall i, j :: 0 <= i < j < |s| ==> s[i].w <= s[j].w
    ensures forall i, j :: 0 <= i < |s| && 0 <= j < |s| && s[i].w == s[j].w && s[i].act && !s[j].act ==> i < j
  {
  }

  /** Putting in front of a sorted list an edge that may precede each of its elements keeps it sorted. */
  lemma OrderedCons(y: Edge, t: seq<Edge>)
    requires Ordered(t) && forall k :: 0 <= k < |t| ==> InOrder(y, t[k])
    ensures Ordered([y] + t)
  {
    var r := [y] + t;
    forall i, j | 0 <= i < j < |r| ensures InOrder(r[i], r[j]) {
      if i > 0 {
        assert r[i] == t[i - 1] && r[j] == t[j - 1];
      } else {
        assert r[j] == t[j - 1];
      }
    }
  }

  /** Appending to a sorted list an edge that may follow each of its elements keeps it sorted. */
  lemma OrderedSnoc(t: seq<Edge>, y: Edge)
    requires Ordered(t) && forall k :: 0 <= k < |t| ==> InOrder(t[k], y)
    ensures Ordered(t + [y])
  {
  }

  /** Inserts `x` into a sorted list. */
  function Insert(x: Edge, s: seq<Edge>): (r: seq<Edge>)
    requires Ordered(s)
    ensures Ordered(r) && multiset(r) == multiset(s) + multiset{x}
  {
    if s == [] then [x]
    else if InOrder(x, s[0]) then
      OrderedCons(x, s);
      [x] + s
    else
      var t := Insert(x, s[1..]);
      assert s == [s[0]] + s[1..];
      InsertBelowHead(x, s, t);
      [s[0]] + t
  }

  /** The elements of the recursive insertion into the tail of `s` may all follow the head of `s`. */
  lemma InsertBelowHead(x: Edge, s: seq<Edge>, t: seq<Edge>)
    requires Ordered(s) && s != [] && !InOrder(x, s[0])
    requires Ordered(t) && multiset(t) == multiset(s[1..]) + multiset{x}
    ensures Ordered([s[0]] + t)
  {
    forall k | 0 <= k < |t| ensures InOrder(s[0], t[k]) {
      assert t[k] in multiset(t);
      if t[k] != x {
        assert t[k] in multiset(s[1..]);
        var m :| 0 <= m < |s[1..]| && s[1..][m] == t[k];
        assert s[m + 1] == t[k];
      }
    }
    OrderedCons(s[0], t);
  }

  /**
    A sorted permutation of `s`. Swift's library sort is not modelled: this
    insertion sort stands for it, and every property that matters downstream
    is stated for any list that is `Ordered` and a permutation.
  */
  function SortEdges(s: seq<Edge>): (r: seq<Edge>)
    ensures Ordered(r) && multiset(r) == multiset(s)
  {
    if s == [] then []
    else
      assert s == [s[0]] + s[1..];
      Insert(s[0], SortEdges(s[1..]))
  }

  /** The edge input record `i` stands for: record `i` is active iff `i < n - 1` (main.swift:112-115). */
  function Prepare(records: seq<Record>, n: int): (es: seq<Edge>)
  {
    seq(|records|, i requires 0 <= i < |records| =>
      Edge(records[i].a, records[i].b, records[i].c, i < n - 1))
  }

  /** The adjacency entries, in input order, of the edges in `es` that start at `u`. */
  function AtNode(es: seq<Edge>, u: int): seq<Adj>
  {
    if es == [] then []
    else
      var e := es[|es| - 1];
      AtNode(es[..|es| - 1], u) + if e.u == u then [Adj(e.v, e.w, e.act)] else []
  }

  /** The entries of node `u`'s adjacency list as edges starting at `u`. */
  function Expand(u: int, adj: seq<Adj>): (es: seq<Edge>)
    ensures |es| == |adj|
  {
    seq(|adj|, k requires 0 <= k < |adj| => Edge(u, adj[k].v, adj[k].w, adj[k].act))
  }

  /** All edges of the adjacency lists, node after node, each list in order (main.swift:130-134). */
  function Flatten(graph: seq<seq<Adj>>): seq<Edge>
  {
    if graph == [] then []
    else Flatten(graph[..|graph| - 1]) + Expand(|graph| - 1, graph[|graph| - 1])
  }

  /** The adjacency lists `pipes` that main.swift:101-119 builds from the edges `es`, one list per node 0 .. nodes-1. */
  function Buckets(es: seq<Edge>, nodes: nat): (g: seq<seq<Adj>>)
    ensures |g| == nodes
  {
    seq(nodes, u requires 0 <= u < nodes => AtNode(es, u))
  }

  lemma ExpandAppend(u: int, adj: seq<Adj>, x: Adj)
    ensures Expand(u, adj + [x]) == Expand(u, adj) + [Edge(u, x.v, x.w, x.act)]
  {
  }

  /** Appending an entry to one adjacency list adds exactly that edge to the flattened edges. */
  lemma {:induction false} FlattenAppendAt(graph: seq<seq<Adj>>, a: int, x: Adj)
    requires 0 <= a < |graph|
    ensures multiset(Flatten(graph[a := graph[a] + [x]]))
            == multiset(Flatten(graph)) + multiset{Edge(a, x.v, x.w, x.act)}
    decreases |graph|
  {
    var g := graph[a := graph[a] + [x]];
    var last := |graph| - 1;
    assert g[..last] == if a == last then graph[..last] else graph[..last][a := graph[a] + [x]];
    ExpandAppend(last, graph[last], x);
    if a < last {
      FlattenAppendAt(graph[..last], a, x);
    }
  }

  /** Lists that are all empty flatten to nothing. */
  lemma {:induction false} FlattenEmpty(nodes: nat)
    ensures Flatten(Buckets([], nodes)) == []
  {
    if nodes > 0 {
      assert Buckets([], nodes)[..nodes - 1] == Buckets([], nodes - 1);
      FlattenEmpty(nodes - 1);
    }
  }

  /** One more edge lands at the end of the list of its start node (main.swift:117). */
  lemma BucketsSnoc(es: seq<Edge>, e: Edge, nodes: nat)
    requires 0 <= e.u < nodes
    ensures Buckets(es + [e], nodes) == Buckets(es, nodes)[e.u := Buckets(es, nodes)[e.u] + [Adj(e.v, e.w, e.act)]]
  {
    assert (es + [e])[..|es + [e]| - 1] == es;
    forall u | 0 <= u < nodes
      ensures Buckets(es + [e], nodes)[u] == Buckets(es, nodes)[e.u := Buckets(es, nodes)[e.u] + [Adj(e.v, e.w, e.act)]][u]
    {
      assert AtNode(es + [e], u) == AtNode(es, u) + if e.u == u then [Adj(e.v, e.w, e.act)] else [];
    }
  }

  /** Every entry of a list built from edges whose ends lie in 0 .. nodes-1 names such a node. */
  lemma {:induction false} AtNodeIn(es: seq<Edge>, u: int, nodes: int)
    requires forall i :: 0 <= i < |es| ==> 0 <= es[i].v < nodes
    ensures forall k :: 0 <= k < |AtNode(es, u)| ==> 0 <= AtNode(es, u)[k].v < nodes
    decreases |es|
  {
    if es != [] {
      AtNodeIn(es[..|es| - 1], u, nodes);
    }
  }

  /** Preparing one more record appends its edge; the activity flag depends only on the record's position. */
  lemma PrepareSnoc(records: seq<Record>, i: int, n: int)
    requires 0 <= i < |records|
    ensures Prepare(records[..i + 1], n)
            == Prepare(records[..i], n) + [Edge(records[i].a, records[i].b, records[i].c, i < n - 1)]
  {
  }

  /**
    Bucketing edges whose start lies in 0 .. nodes-1 by start node and
    flattening the buckets gives back every edge exactly once.
  */
  lemma {:induction false} FlattenBuckets(es: seq<Edge>, nodes: nat)
    requires forall i :: 0 <= i < |es| ==> 0 <= es[i].u < nodes
    ensures multiset(Flatten(Buckets(es, nodes))) == multiset(es)
    decreases |es|
  {
    if es == [] {
      FlattenEmpty(nodes);
    } else {
      var init, e := es[..|es| - 1], es[|es| - 1];
      FlattenBuckets(init, nodes);
      var x := Adj(e.v, e.w, e.act);
      assert es == init + [e];
      BucketsSnoc(init, e, nodes);
      FlattenAppendAt(Buckets(init, nodes), e.u, x);
    }
  }

  /** The flattened adjacency lists built from the records are a permutation of the prepared records. */
  lemma PreparedPermutation(records: seq<Record>, n: int)
    requires n >= 0 && forall i :: 0 <= i < |records| ==> 0 <= records[i].a <= n
    ensures multiset(Flatten(Buckets(Prepare(records, n), n + 1))) == multiset(Prepare(records, n))
  {
    FlattenBuckets(Prepare(records, n), n + 1);
  }
}

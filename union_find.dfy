/**
  The disjoint-set forest `UF` of MCF_Greedy/main.swift: a `parent` array and a
  `size` array over the elements 0 .. n-1, with `find`, `connected`, `union` and
  `sizeRoot`.

  The pure part of this module describes a forest by two sequences. A forest is
  well formed when every parent pointer stays in range, every size is positive,
  and the size of a non-root element is strictly smaller than the size of its
  parent. Union by size keeps this true, and it is what makes every walk towards
  a root finite: the measure `MaxOf(size) - size[x]` drops at every step.
*/
module UnionFind {

  /** The largest element of `s` (0 for the empty sequence), an upper bound of every element. */
  function MaxOf(s: seq<int>): (r: int)
    ensures forall k :: 0 <= k < |s| ==> s[k] <= r
    ensures s != [] ==> exists k :: 0 <= k < |s| && s[k] == r
  {
    if s == [] then 0
    else
      var m := MaxOf(s[..|s| - 1]);
      if |s| == 1 || s[|s| - 1] > m then s[|s| - 1] else m
  }

  /** Well-formed parent/size arrays of a union-find forest. */
  ghost predicate Forest(parent: seq<int>, size: seq<int>)
  {
    |parent| == |size| &&
    forall x :: 0 <= x < |parent| ==>
      0 <= parent[x] < |parent| && 1 <= size[x] &&
      (parent[x] != x ==> size[x] < size[parent[x]])
  }

  /** The root reached from `x` by following parent pointers. */
  ghost function Root(parent: seq<int>, size: seq<int>, x: int): (r: int)
    requires Forest(parent, size) && 0 <= x < |parent|
    ensures 0 <= r < |parent| && parent[r] == r
    ensures size[x] <= size[r]
    decreases MaxOf(size) - size[x]
  {
    if parent[x] == x then x else Root(parent, size, parent[x])
  }

  /** The root of every element, as one sequence: the partition the forest stands for. */
  ghost function Roots(parent: seq<int>, size: seq<int>): (rs: seq<int>)
    requires Forest(parent, size)
    ensures |rs| == |parent|
    ensures forall x :: 0 <= x < |parent| ==> rs[x] == Root(parent, size, x)
  {
    seq(|parent|, x requires 0 <= x < |parent| => Root(parent, size, x))
  }

  /** The elements whose root is `r`. */
  ghost function ClassOf(parent: seq<int>, size: seq<int>, r: int): set<int>
    requires Forest(parent, size)
  {
    set x | 0 <= x < |parent| && Root(parent, size, x) == r
  }

  /** Every root's size is the number of elements in its tree (the comment on `size`, main.swift:13). */
  ghost predicate SizesCount(parent: seq<int>, size: seq<int>)
    requires Forest(parent, size)
  {
    forall r :: 0 <= r < |parent| && parent[r] == r ==> size[r] == |ClassOf(parent, size, r)|
  }

  /**
    Redirecting a non-root `p` to an element `a` of its own tree that has a
    larger size keeps the forest well formed and changes no element's root.
  */
  lemma {:induction false} ReparentKeepsRoot(parent: seq<int>, size: seq<int>, p: int, a: int, x: int)
    requires Forest(parent, size) && 0 <= p < |parent| && 0 <= a < |parent| && 0 <= x < |parent|
    requires size[p] < size[a] && Root(parent, size, a) == Root(parent, size, p)
    ensures Forest(parent[p := a], size)
    ensures Root(parent[p := a], size, x) == Root(parent, size, x)
    decreases MaxOf(size) - size[x]
  {
    var q := parent[p := a];
    assert Forest(q, size) by {
      forall y | 0 <= y < |q|
        ensures 0 <= q[y] < |q| && 1 <= size[y] && (q[y] != y ==> size[y] < size[q[y]])
      {
        if y == p { } else { assert q[y] == parent[y]; }
      }
    }
    if x == p {
      ReparentKeepsRoot(parent, size, p, a, a);
    } else if parent[x] != x {
      ReparentKeepsRoot(parent, size, p, a, parent[x]);
    }
  }

  /**
    One step of the loop in `find` (main.swift:37): `parent[p] := parent[parent[p]]`
    for a non-root `p` moves `p` to an element of its own tree with a larger size,
    so the forest stays well formed and the root of every element is unchanged.
  */
  lemma HalvingStepKeepsRoots(parent: seq<int>, size: seq<int>, p: int)
    requires Forest(parent, size) && 0 <= p < |parent| && parent[p] != p
    ensures parent[parent[p]] != p && size[p] < size[parent[parent[p]]]
    ensures Forest(parent[p := parent[parent[p]]], size)
    ensures Roots(parent[p := parent[parent[p]]], size) == Roots(parent, size)
    ensures SizesCount(parent, size) ==> SizesCount(parent[p := parent[parent[p]]], size)
  {
    var a := parent[parent[p]];
    assert Root(parent, size, a) == Root(parent, size, p);
    ReparentKeepsRoot(parent, size, p, a, p);
    var q := parent[p := a];
    forall x | 0 <= x < |parent| ensures Root(q, size, x) == Root(parent, size, x) {
      ReparentKeepsRoot(parent, size, p, a, x);
    }
    assert Roots(q, size) == Roots(parent, size);
    forall r | 0 <= r < |parent| ensures ClassOf(q, size, r) == ClassOf(parent, size, r) {
    }
  }

  /** Attaching root `lo` under root `hi` keeps the arrays well formed (the two branches of main.swift:61-67). */
  lemma LinkKeepsForest(parent: seq<int>, size: seq<int>, lo: int, hi: int)
    requires Forest(parent, size) && 0 <= lo < |parent| && 0 <= hi < |parent|
    requires parent[lo] == lo && parent[hi] == hi && lo != hi
    ensures Forest(parent[lo := hi], size[hi := size[hi] + size[lo]])
  {
    var q, t := parent[lo := hi], size[hi := size[hi] + size[lo]];
    forall y | 0 <= y < |q|
      ensures 0 <= q[y] < |q| && 1 <= t[y] && (q[y] != y ==> t[y] < t[q[y]])
    {
      if y == lo {
      } else if y == hi {
      } else {
        assert q[y] == parent[y] && t[y] == size[y];
      }
    }
  }

  /** After attaching root `lo` under root `hi`, the elements of `lo`'s tree have root `hi`; all others keep theirs. */
  lemma {:induction false} LinkRoot(parent: seq<int>, size: seq<int>, lo: int, hi: int, x: int)
    requires Forest(parent, size) && 0 <= lo < |parent| && 0 <= hi < |parent| && 0 <= x < |parent|
    requires parent[lo] == lo && parent[hi] == hi && lo != hi
    ensures Forest(parent[lo := hi], size[hi := size[hi] + size[lo]])
    ensures Root(parent[lo := hi], size[hi := size[hi] + size[lo]], x)
            == if Root(parent, size, x) == lo then hi else Root(parent, size, x)
    decreases MaxOf(size) - size[x]
  {
    LinkKeepsForest(parent, size, lo, hi);
    if parent[x] != x {
      LinkRoot(parent, size, lo, hi, parent[x]);
    }
  }

  /** Linking two roots merges exactly their two classes, and the surviving root's size counts the merged class. */
  lemma LinkMergesClasses(parent: seq<int>, size: seq<int>, lo: int, hi: int)
    requires Forest(parent, size) && 0 <= lo < |parent| && 0 <= hi < |parent|
    requires parent[lo] == lo && parent[hi] == hi && lo != hi
    ensures Forest(parent[lo := hi], size[hi := size[hi] + size[lo]])
    ensures forall x :: 0 <= x < |parent| ==>
      Roots(parent[lo := hi], size[hi := size[hi] + size[lo]])[x]
      == if Roots(parent, size)[x] == lo then hi else Roots(parent, size)[x]
    ensures SizesCount(parent, size) ==> SizesCount(parent[lo := hi], size[hi := size[hi] + size[lo]])
  {
    var q, t := parent[lo := hi], size[hi := size[hi] + size[lo]];
    LinkKeepsForest(parent, size, lo, hi);
    forall x | 0 <= x < |parent|
      ensures Root(q, t, x) == if Root(parent, size, x) == lo then hi else Root(parent, size, x)
    {
      LinkRoot(parent, size, lo, hi, x);
    }
    if SizesCount(parent, size) {
      forall r | 0 <= r < |q| && q[r] == r ensures t[r] == |ClassOf(q, t, r)| {
        if r == hi {
          assert ClassOf(q, t, hi) == ClassOf(parent, size, hi) + ClassOf(parent, size, lo);
          assert ClassOf(parent, size, hi) * ClassOf(parent, size, lo) == {};
        } else {
          assert ClassOf(q, t, r) == ClassOf(parent, size, r);
        }
      }
    }
  }

  /**
    The invariant of the loop in `find` (main.swift:36-39), started at `p` on
    the arrays `parent0`: only `parent[p]` has changed, no root has changed,
    `node` lies in `p`'s tree, and once `node` has left `p`, `parent[p]` is `node`.
  */
  ghost predicate FindLoop(parent0: seq<int>, size: seq<int>, p: int, parent: seq<int>, node: int)
  {
    && Forest(parent0, size) && SizesCount(parent0, size)
    && Forest(parent, size) && SizesCount(parent, size)
    && 0 <= p < |parent| && 0 <= node < |parent| && |parent| == |parent0|
    && parent == parent0[p := parent[p]]
    && Roots(parent, size) == Roots(parent0, size)
    && Root(parent, size, node) == Root(parent0, size, p)
    && (node == p ==> parent[p] == parent0[p])
    && (node != p ==> parent[p] == node)
  }

  /** One iteration of the loop in `find` keeps its invariant and climbs to a larger size. */
  lemma FindLoopStep(parent0: seq<int>, size: seq<int>, p: int, parent: seq<int>, node: int)
    requires FindLoop(parent0, size, p, parent, node) && parent[node] != node
    ensures var next := parent[p := parent[parent[p]]];
            FindLoop(parent0, size, p, next, next[node]) && size[node] < size[next[node]]
  {
    HalvingStepKeepsRoots(parent, size, p);
    var next := parent[p := parent[parent[p]]];
    assert next == parent0[p := next[p]];
    assert Root(next, size, next[node]) == Root(next, size, node);
  }

  /**
    The arrays after `union(p, q)` (main.swift:57-68), from the arrays before:
    the two finds point `p` and `q` at their roots `i` and `j`; then, if the
    roots differ, the root of strictly smaller size is attached under the other
    (`j` under `i` on a tie) and the surviving root's size becomes the sum.
  */
  ghost function UnionArrays(parent0: seq<int>, size0: seq<int>, p: int, q: int): (seq<int>, seq<int>)
    requires Forest(parent0, size0) && 0 <= p < |parent0| && 0 <= q < |parent0|
  {
    var i, j := Root(parent0, size0, p), Root(parent0, size0, q);
    var parent2 := parent0[p := i][q := j];
    if i == j then (parent2, size0)
    else if size0[i] < size0[j] then (parent2[i := j], size0[j := size0[j] + size0[i]])
    else (parent2[j := i], size0[i := size0[i] + size0[j]])
  }

  /**
    What `union(p, q)` promises about the partition, from the arrays before
    (`parent0`, `size0`) to the arrays after (`parent`, `size`): the classes of
    `p` and `q` become one class whose root is one of the two old roots, every
    other class is untouched, and the root's size counts both old classes.
  */
  ghost predicate MergedClasses(parent0: seq<int>, size0: seq<int>, p: int, q: int, parent: seq<int>, size: seq<int>)
    requires Forest(parent0, size0) && 0 <= p < |parent0| && 0 <= q < |parent0|
  {
    var i, j := Root(parent0, size0, p), Root(parent0, size0, q);
    && Forest(parent, size) && |parent| == |parent0|
    && var c := Root(parent, size, p);
    && (c == i || c == j)
    && Root(parent, size, q) == c
    && (forall x :: 0 <= x < |parent0| ==>
         Roots(parent, size)[x]
         == if Roots(parent0, size0)[x] == i || Roots(parent0, size0)[x] == j then c else Roots(parent0, size0)[x])
    && size[c] == if i == j then size0[i] else size0[i] + size0[j]
  }

  /**
    After the two finds of `union` (arrays `parent2`, same roots as `parent0`),
    linking one of the two distinct roots under the other merges the two classes.
  */
  lemma LinkOutcome(parent0: seq<int>, size0: seq<int>, p: int, q: int, parent2: seq<int>, lo: int, hi: int)
    requires Forest(parent0, size0) && 0 <= p < |parent0| && 0 <= q < |parent0|
    requires Forest(parent2, size0) && Roots(parent2, size0) == Roots(parent0, size0)
    requires var i, j := Root(parent0, size0, p), Root(parent0, size0, q);
             i != j && ((lo == i && hi == j) || (lo == j && hi == i))
    ensures MergedClasses(parent0, size0, p, q, parent2[lo := hi], size0[hi := size0[hi] + size0[lo]])
    ensures SizesCount(parent2, size0) ==> SizesCount(parent2[lo := hi], size0[hi := size0[hi] + size0[lo]])
  {
    assert Roots(parent2, size0)[p] == Roots(parent0, size0)[p];
    assert Roots(parent2, size0)[q] == Roots(parent0, size0)[q];
    LinkMergesClasses(parent2, size0, lo, hi);
    var P, S := parent2[lo := hi], size0[hi := size0[hi] + size0[lo]];
    assert Roots(P, S)[p] == hi && Roots(P, S)[q] == hi;
  }

  /**
    The whole of `union(p, q)` on the arrays: given the arrays `parent2` left by
    its two finds, the arrays `UnionArrays` describes are a well-formed forest
    with counted sizes in which the classes of `p` and `q` are merged.
  */
  lemma UnionOutcome(parent0: seq<int>, size0: seq<int>, p: int, q: int, parent2: seq<int>)
    requires Forest(parent0, size0) && SizesCount(parent0, size0) && 0 <= p < |parent0| && 0 <= q < |parent0|
    requires Forest(parent2, size0) && SizesCount(parent2, size0) && Roots(parent2, size0) == Roots(parent0, size0)
    requires parent2 == parent0[p := Root(parent0, size0, p)][q := Root(parent0, size0, q)]
    ensures var (parent, size) := UnionArrays(parent0, size0, p, q);
            Forest(parent, size) && SizesCount(parent, size) && MergedClasses(parent0, size0, p, q, parent, size)
  {
    var i, j := Root(parent0, size0, p), Root(parent0, size0, q);
    if i == j {
      assert Roots(parent2, size0)[p] == Roots(parent0, size0)[p];
      assert Roots(parent2, size0)[q] == Roots(parent0, size0)[q];
    } else if size0[i] < size0[j] {
      LinkOutcome(parent0, size0, p, q, parent2, i, j);
    } else {
      LinkOutcome(parent0, size0, p, q, parent2, j, i);
    }
  }

  /** In a forest where every element is its own root, each class is a singleton. */
  lemma SingletonClasses(parent: seq<int>, size: seq<int>)
    requires Forest(parent, size)
    requires forall i :: 0 <= i < |parent| ==> parent[i] == i && size[i] == 1
    ensures SizesCount(parent, size)
  {
    forall r | 0 <= r < |parent| ensures size[r] == |ClassOf(parent, size, r)| {
      assert ClassOf(parent, size, r) == {r};
    }
  }

  class UF {
    /** The number of elements. */
    const n: nat
    /** The element each element points to; a root points to itself. */
    const parent: array<int>
    /** For a root, how many elements its tree holds. */
    const size: array<int>
    /** Set to n by the initializer and never changed afterwards (main.swift:16, 23). */
    var count: int

    ghost predicate Valid()
      reads this, parent, size
    {
      parent.Length == n && size.Length == n && parent != size &&
      Forest(parent[..], size[..]) && SizesCount(parent[..], size[..])
    }

    /** `UF(n)`: n singleton sets (main.swift:22-29). */
    constructor (n: nat)
      ensures Valid() && fresh(parent) && fresh(size) && this.n == n
      ensures count == n
      ensures forall i :: 0 <= i < n ==> parent[i] == i && size[i] == 1
    {
      var pa := new int[n](_ => 0);
      for i := 0 to n
        invariant forall k :: 0 <= k < i ==> pa[k] == k
        invariant forall k :: i <= k < n ==> pa[k] == 0
      {
        pa[i] := i;
      }
      var sz := new int[n](_ => 1);
      this.n := n;
      count := n;
      size := sz;
      parent := pa;
      new;
      assert forall k :: 0 <= k < n ==> parent[..][k] == k && size[..][k] == 1;
      assert Forest(parent[..], size[..]);
      SingletonClasses(parent[..], size[..]);
    }

    /**
      `find(p)` (main.swift:34-41). The loop writes to `parent[p]`, the start
      element, while `node` walks upwards; after every iteration `parent[p]`
      and `node` coincide, so on exit `p` points straight at its root.
    */
    method Find(p: int) returns (r: int)
      requires Valid() && 0 <= p < n
      modifies parent
      ensures Valid()
      ensures r == Root(old(parent[..]), size[..], p)
      ensures parent[..] == old(parent[..])[p := r]
      ensures Roots(parent[..], size[..]) == Roots(old(parent[..]), size[..])
    {
      var node := p;
      while node != parent[node]
        invariant parent.Length == n && size.Length == n && parent != size
        invariant FindLoop(old(parent[..]), size[..], p, parent[..], node)
        decreases MaxOf(size[..]) - size[node]
      {
        ghost var P := parent[..];
        FindLoopStep(old(parent[..]), size[..], p, P, node);
        parent[p] := parent[parent[p]];
        assert parent[..] == P[p := P[P[p]]];
        node := parent[node];
      }
      r := node;
      assert parent[..] == old(parent[..])[p := r];
    }

    /** `connected(p, q)` (main.swift:48-50): whether `p` and `q` have the same root. */
    method Connected(p: int, q: int) returns (b: bool)
      requires Valid() && 0 <= p < n && 0 <= q < n
      modifies parent
      ensures Valid()
      ensures b <==> Root(old(parent[..]), size[..], p) == Root(old(parent[..]), size[..], q)
      ensures parent[..] == old(parent[..])[p := Root(old(parent[..]), size[..], p)]
                                           [q := Root(old(parent[..]), size[..], q)]
      ensures Roots(parent[..], size[..]) == Roots(old(parent[..]), size[..])
    {
      var i := Find(p);
      var j := Find(q);
      b := i == j;
    }

    /**
      `union(p, q)` (main.swift:57-68): nothing changes beyond the compression
      done by the two finds when `p` and `q` share a root; otherwise the root of
      strictly smaller size goes under the other (`q`'s root under `p`'s on a
      tie) and the surviving root's size becomes the sum.
    */
    method Union(p: int, q: int)
      requires Valid() && 0 <= p < n && 0 <= q < n
      modifies parent, size
      ensures Valid()
      ensures (parent[..], size[..]) == UnionArrays(old(parent[..]), old(size[..]), p, q)
      ensures Forest(old(parent[..]), old(size[..]))
      ensures MergedClasses(old(parent[..]), old(size[..]), p, q, parent[..], size[..])
    {
      ghost var P0, S0 := parent[..], size[..];
      var i := Find(p);
      var j := Find(q);
      ghost var P2 := parent[..];
      UnionOutcome(P0, S0, p, q, P2);
      assert i == Root(P0, S0, p) && j == Root(P0, S0, q) && size[..] == S0;
      ghost var want := UnionArrays(P0, S0, p, q);
      assert want == if i == j then (P2, S0)
                     else if S0[i] < S0[j] then (P2[i := j], S0[j := S0[j] + S0[i]])
                     else (P2[j := i], S0[i := S0[i] + S0[j]]);
      if i == j {
        return;
      }
      if size[i] < size[j] {
        parent[i] := j;
        size[j] := size[j] + size[i];
        assert parent[..] == P2[i := j] && size[..] == S0[j := S0[j] + S0[i]] by {
          assert forall k :: 0 <= k < n ==> size[k] == S0[j := S0[j] + S0[i]][k];
        }
      } else {
        parent[j] := i;
        size[i] := size[i] + size[j];
        assert parent[..] == P2[j := i] && size[..] == S0[i := S0[i] + S0[j]] by {
          assert forall k :: 0 <= k < n ==> size[k] == S0[i := S0[i] + S0[j]][k];
        }
      }
    }

    /** `sizeRoot(p)` (main.swift:70-72): the size stored at `p`'s root, which is the number of elements of `p`'s set. */
    method SizeRoot(p: int) returns (s: int)
      requires Valid() && 0 <= p < n
      modifies parent
      ensures Valid()
      ensures s == size[Root(old(parent[..]), size[..], p)]
      ensures s == |ClassOf(old(parent[..]), size[..], Root(old(parent[..]), size[..], p))|
      ensures parent[..] == old(parent[..])[p := Root(old(parent[..]), size[..], p)]
      ensures Roots(parent[..], size[..]) == Roots(old(parent[..]), size[..])
    {
      var r := Find(p);
      s := size[r];
    }
  }
}

/**
  The cost side of `kruskalMST` (MCF_Greedy/main.swift:145-162 and 225): the
  scan for the most expensive tree edge, the total weight, the discount `d` on
  one edge, and the count of tree edges that are not active yet.
*/
module Costs {
  import opened Edges

  /** The total weight of `es`. */
  function SumW(es: seq<Edge>): int
  {
    if es == [] then 0 else SumW(es[..|es| - 1]) + es[|es| - 1].w
  }

  /**
    The pair `(index, largest)` that the scan of main.swift:145-156 holds
    after the elements of `es`: `largest` starts at 0 and an element replaces
    it only when its weight is strictly greater.
  */
  function Scan(es: seq<Edge>): (r: (int, int))
  {
    if es == [] then (0, 0)
    else
      var (i, l) := Scan(es[..|es| - 1]);
      if es[|es| - 1].w > l then (|es| - 1, es[|es| - 1].w) else (i, l)
  }

  /** The position the scan picks. */
  function MaxPos(es: seq<Edge>): int
  {
    Scan(es).0
  }

  /**
    What the scan computes: a position of `es` (0 for an empty list); 0 when
    no weight is positive; otherwise the first position of the largest
    weight, and that weight is what `largest` ends as.
  */
  lemma {:induction false} ScanMeaning(es: seq<Edge>)
    ensures 0 <= Scan(es).0 && (es != [] ==> Scan(es).0 < |es|)
    ensures Scan(es).1 >= 0
    ensures (forall k :: 0 <= k < |es| ==> es[k].w <= 0) ==> Scan(es) == (0, 0)
    ensures (exists k :: 0 <= k < |es| && es[k].w > 0) ==>
              Scan(es).1 == es[Scan(es).0].w && Scan(es).1 > 0
    ensures forall k :: 0 <= k < |es| ==> es[k].w <= Scan(es).1
    ensures forall k :: 0 <= k < Scan(es).0 ==> es[k].w < Scan(es).1
  {
    if es != [] {
      var init, p := es[..|es| - 1], es[|es| - 1];
      ScanMeaning(init);
      assert forall k :: 0 <= k < |init| ==> init[k] == es[k];
    }
  }

  /**
    The position the scan picks is the first occurrence of the maximum weight
    when that maximum is positive, and 0 otherwise.
  */
  lemma MaxPosFirstMax(es: seq<Edge>)
    requires es != []
    ensures 0 <= MaxPos(es) < |es|
    ensures (forall k :: 0 <= k < |es| ==> es[k].w <= 0) ==> MaxPos(es) == 0
    ensures (exists k :: 0 <= k < |es| && es[k].w > 0) ==>
              (forall k :: 0 <= k < |es| ==> es[k].w <= es[MaxPos(es)].w) &&
              (forall k :: 0 <= k < MaxPos(es) ==> es[k].w < es[MaxPos(es)].w)
  {
    ScanMeaning(es);
  }

  /** `cost` less the discount on edge `w`: the whole of `d` when `w >= d`, otherwise `w` (main.swift:158-162). */
  function Discounted(cost: int, w: int, d: int): (r: int)
    ensures r >= cost - d && r >= cost - w && (r == cost - d || r == cost - w)
  {
    if w >= d then cost - d else cost - w
  }

  /** The adjusted cost of a non-empty tree: its total weight less the discount on the edge the scan picks. */
  function Adjusted(es: seq<Edge>, d: int): int
    requires es != []
  {
    MaxPosFirstMax(es);
    Discounted(SumW(es), es[MaxPos(es)].w, d)
  }

  /** With a discount `d >= 0` and weights that are not negative, the adjusted cost lies between the total less `d` and the total. */
  lemma AdjustedBounds(es: seq<Edge>, d: int)
    requires es != [] && d >= 0
    requires forall k :: 0 <= k < |es| ==> es[k].w >= 0
    ensures SumW(es) - d <= Adjusted(es, d) <= SumW(es)
  {
    MaxPosFirstMax(es);
  }

  /**
    The scan loop and the discount (main.swift:145-162): `index` is the
    scan's position and `cost` the adjusted cost. An empty tree is excluded,
    because `mstEdges[index]` fails there.
  */
  method Cost(es: seq<Edge>, d: int) returns (index: int, cost: int)
    requires es != []
    ensures 0 <= index < |es| && index == MaxPos(es)
    ensures cost == Adjusted(es, d)
  {
    var largest := 0;
    index := 0;
    var count := 0;
    var sumCosts := 0;
    for i := 0 to |es|
      invariant count == i
      invariant (index, largest) == Scan(es[..i])
      invariant sumCosts == SumW(es[..i])
    {
      assert es[..i + 1][..i] == es[..i];
      var p := es[i];
      if p.w > largest {
        index := count;
        largest := p.w;
      }
      count := count + 1;
      sumCosts := sumCosts + p.w;
    }
    assert es[..|es|] == es;
    MaxPosFirstMax(es);
    if es[index].w >= d {
      sumCosts := sumCosts - d;
    } else {
      sumCosts := sumCosts - es[index].w;
    }
    cost := sumCosts;
  }

  /** The number of edges of `es` that are not active (the `map`/`reduce` of main.swift:225). */
  function Inactive(es: seq<Edge>): (r: int)
    ensures 0 <= r <= |es|
    ensures r == 0 <==> forall k :: 0 <= k < |es| ==> es[k].act
    ensures r == |es| <==> forall k :: 0 <= k < |es| ==> !es[k].act
  {
    if es == [] then 0
    else
      var init := es[..|es| - 1];
      assert forall k :: 0 <= k < |init| ==> init[k] == es[k];
      Inactive(init) + if es[|es| - 1].act then 0 else 1
  }
}

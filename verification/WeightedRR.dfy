/** The weighted round-robin balancer over its list of nodes. */
module WeightedRoundRobin {
  import opened Words
  import opened SmoothWeights

  /** Position of the first node called `id`, or the length when there is none. */
  function Find(ns: seq<Node>, id: string): (i: nat)
    ensures i <= |ns|
    ensures i < |ns| ==> ns[i].id == id
    ensures forall j :: 0 <= j < i ==> ns[j].id != id
  {
    if ns == [] || ns[0].id == id then 0 else 1 + Find(ns[1..], id)
  }

  function Ids(ns: seq<Node>): set<string> {
    set n | n in ns :: n.id
  }

  /** The node at `at` is the first called `id`. */
  predicate IsFirst(ns: seq<Node>, at: nat, id: string) {
    at < |ns| && ns[at].id == id && forall j :: 0 <= j < at ==> ns[j].id != id
  }

  /** Only the first node of that name goes, and the others keep their order. */
  lemma RemovedKeepsTheOthers(ns: seq<Node>, id: string)
    ensures id !in Ids(ns) ==> Removed(ns, id) == ns
    ensures forall at: nat :: IsFirst(ns, at, id) ==> Removed(ns, id) == ns[..at] + ns[at + 1..]
  {
    var found := Find(ns, id);
    if found < |ns| {
      assert ns[found] in ns && ns[found].id in Ids(ns);
      forall at: nat | IsFirst(ns, at, id) ensures at == found {
      }
    } else {
      forall at: nat | at < |ns| ensures ns[at].id != id {
      }
    }
  }

  function Without<T>(s: seq<T>, i: nat): (r: seq<T>)
    requires i < |s|
    ensures |r| == |s| - 1
  {
    s[..i] + s[i + 1..]
  }

  /** The list without its first node called `id`. */
  function Removed(ns: seq<Node>, id: string): seq<Node> {
    var at := Find(ns, id);
    if at < |ns| then Without(ns, at) else ns
  }

  /** The share of a debt that a node keeps when its weight changes. */
  function Rescaled(n: Node, weight: int): (r: Node)
    requires n.weight != 0
  {
    n.(weight := weight, cur := I64(Quotient(I64(n.cur * weight), n.weight)))
  }

  class WeightedRR {
    var nodes: seq<Node>
    var totalWeight: int

    ghost predicate Valid()
      reads this
    {
      totalWeight == I64(SumWeights(nodes))
    }

    constructor ()
      ensures Valid() && nodes == []
    {
      nodes, totalWeight := [], 0;
    }

    method Add(serverId: string, weight: int)
      requires Valid()
      modifies this
      ensures Valid() && nodes == old(nodes) + [Node(serverId, weight, 0)]
    {
      AddedTotal(nodes, Node(serverId, weight, 0), totalWeight);
      nodes := nodes + [Node(serverId, weight, 0)];
      totalWeight := I64(totalWeight + weight);
    }

    method Search(serverId: string) returns (i: nat)
      ensures i == Find(nodes, serverId)
    {
      i := 0;
      while i < |nodes| && nodes[i].id != serverId
        invariant i <= |nodes|
        invariant i + Find(nodes[i..], serverId) == Find(nodes, serverId)
      {
        assert nodes[i..][1..] == nodes[i + 1..];
        i := i + 1;
      }
    }

    method Remove(serverId: string)
      requires Valid()
      modifies this
      ensures Valid() && nodes == Removed(old(nodes), serverId)
      ensures serverId !in Ids(old(nodes)) ==> nodes == old(nodes)
      ensures forall at: nat :: IsFirst(old(nodes), at, serverId) ==> nodes == old(nodes)[..at] + old(nodes)[at + 1..]
    {
      var i := Search(serverId);
      RemovedKeepsTheOthers(nodes, serverId);
      if i < |nodes| {
        RemovedTotal(nodes, i, totalWeight);
        totalWeight := I64(totalWeight - nodes[i].weight);
        nodes := nodes[..i] + nodes[i + 1..];
      }
    }

    /** `ok` is false where Go divides by a zero weight, with the total already changed. */
    method UpdateWeight(serverId: string, weight: int) returns (ok: bool)
      requires Valid()
      modifies this
      ensures var was, at := old(nodes), Find(old(nodes), serverId);
        && ok == !(at < |was| && was[at].weight == 0)
        && (ok ==> Valid() && nodes == if at < |was| then was[at := Rescaled(was[at], weight)] else was)
        && (ok && at < |was| ==> nodes[at].weight == weight && nodes[at].id == serverId)
        && (!ok ==> nodes == was && totalWeight == I64(SumWeights(was) + weight))
    {
      var i := Search(serverId);
      if i == |nodes| {
        return true;
      }
      var node := nodes[i];
      UpdatedTotal(nodes, i, totalWeight, weight);
      totalWeight := I64(I64(totalWeight - node.weight) + weight);
      if node.weight == 0 {
        return false;
      }
      SumWeightsUpdate(nodes, i, Rescaled(node, weight));
      node := node.(cur := I64(Quotient(I64(node.cur * weight), node.weight)));
      nodes := nodes[i := node.(weight := weight)];
      return true;
    }

    /** Every node is owed its weight, and the one owed most is found on the way. */
    method RaiseAll() returns (best: nat)
      requires nodes != []
      modifies `nodes
      ensures nodes == Raised(old(nodes)) && best == BestOf(nodes, |nodes|)
    {
      ghost var was, up := nodes, Raised(nodes);
      best := 0;
      for i := 0 to |nodes|
        invariant |nodes| == |was|
        invariant forall j :: 0 <= j < i ==> nodes[j] == up[j]
        invariant forall j :: i <= j < |was| ==> nodes[j] == was[j]
        invariant best == if i == 0 then 0 else BestOf(up, i)
      {
        var node := nodes[i].(cur := I64(nodes[i].cur + nodes[i].weight));
        assert node == up[i];
        nodes := nodes[i := node];
        if i == 0 || nodes[i].cur > nodes[best].cur {
          best := i;
        }
      }
      assert nodes == up;
    }

    /** The index of the node returned, or nothing when the list is empty. */
    method Next() returns (found: bool, best: nat)
      requires Valid()
      modifies `nodes
      ensures Valid()
      ensures nodes == Step(old(nodes), totalWeight)
      ensures found == (old(nodes) != []) && best == Pick(old(nodes))
    {
      if nodes == [] {
        return false, 0;
      }
      best := RaiseAll();
      nodes := nodes[best := nodes[best].(cur := I64(nodes[best].cur - totalWeight))];
      SumWeightsSame(old(nodes), nodes);
      found := true;
    }
  }

  lemma AddedTotal(ns: seq<Node>, n: Node, total: int)
    requires total == I64(SumWeights(ns))
    ensures I64(total + n.weight) == I64(SumWeights(ns + [n]))
  {
    assert (ns + [n])[..|ns|] == ns;
    I64Absorbs(SumWeights(ns), n.weight);
  }

  lemma RemovedTotal(ns: seq<Node>, i: nat, total: int)
    requires i < |ns| && total == I64(SumWeights(ns))
    ensures I64(total - ns[i].weight) == I64(SumWeights(Without(ns, i)))
  {
    SumWeightsRemove(ns, i);
    I64Absorbs(SumWeights(ns), -ns[i].weight);
  }

  lemma UpdatedTotal(ns: seq<Node>, i: nat, total: int, w: int)
    requires i < |ns| && total == I64(SumWeights(ns))
    ensures I64(I64(total - ns[i].weight) + w) == I64(SumWeights(ns) - ns[i].weight + w)
  {
    I64Absorbs(SumWeights(ns), -ns[i].weight);
    I64Absorbs(SumWeights(ns) - ns[i].weight, w);
  }

  lemma {:induction false} SumWeightsUpdate(ns: seq<Node>, i: nat, n: Node)
    requires i < |ns|
    ensures SumWeights(ns[i := n]) == SumWeights(ns) - ns[i].weight + n.weight
  {
    var k := |ns| - 1;
    if i == k {
      assert ns[i := n][..k] == ns[..k];
    } else {
      SumWeightsUpdate(ns[..k], i, n);
      assert ns[i := n][..k] == ns[..k][i := n];
    }
  }

  lemma {:induction false} SumWeightsRemove(ns: seq<Node>, i: nat)
    requires i < |ns|
    ensures SumWeights(Without(ns, i)) == SumWeights(ns) - ns[i].weight
  {
    var k := |ns| - 1;
    if i == k {
      assert Without(ns, i) == ns[..k];
    } else {
      SumWeightsRemove(ns[..k], i);
      assert Without(ns, i)[..k - 1] == Without(ns[..k], i);
    }
  }

  lemma {:induction false} SumCurRemove(ns: seq<Node>, i: nat)
    requires i < |ns|
    ensures SumCur(Without(ns, i)) == SumCur(ns) - ns[i].cur
  {
    var k := |ns| - 1;
    if i == k {
      assert Without(ns, i) == ns[..k];
    } else {
      SumCurRemove(ns[..k], i);
      assert Without(ns, i)[..k - 1] == Without(ns[..k], i);
    }
  }

  // ------------------------------------------------- changing the list mid-run

  /** Adding a node of positive weight while the list is in use keeps the balance. */
  lemma AddKeepsBalance(ns: seq<Node>, total: int, id: string, weight: int)
    requires (ns == [] && total == 0) || Balanced(ns, total)
    requires weight >= 1 && (|ns| + 1) * (total + weight) <= MAX_INT64
    ensures Balanced(ns + [Node(id, weight, 0)], total + weight)
  {
    var r := ns + [Node(id, weight, 0)];
    assert r[..|ns|] == ns;
    if ns != [] {
      SumWeightsAtLeast(ns, 0);
    }
  }

  /**
   Removing a node leaves the others with the debts they had towards it, so the
   debts still cancel out exactly when the removed node was owed nothing.
   */
  lemma RemoveKeepsZeroSumIff(ns: seq<Node>, total: int, id: string)
    requires Balanced(ns, total) && Find(ns, id) < |ns|
    ensures SumCur(Removed(ns, id)) == 0 <==> ns[Find(ns, id)].cur == 0
  {
    SumCurRemove(ns, Find(ns, id));
  }

  /** A change of weight never grows a debt beyond the change of the weight itself. */
  lemma RescaledWithinRatio(n: Node, weight: int)
    requires n.weight >= 1 && weight >= 0
    requires MIN_INT64 <= n.cur * weight <= MAX_INT64
    ensures n.weight * Abs(Rescaled(n, weight).cur) <= Abs(n.cur) * weight
    ensures Abs(n.cur) * weight < n.weight * (Abs(Rescaled(n, weight).cur) + 1)
    ensures n.cur >= 0 ==> Rescaled(n, weight).cur >= 0
    ensures n.cur <= 0 ==> Rescaled(n, weight).cur <= 0
  {
    SignOfProduct(n.cur, weight);
    QuotientWithin(n.cur * weight, n.weight);
  }

  lemma QuotientWithin(x: int, d: int)
    requires d >= 1
    ensures var q := Quotient(x, d);
      && d * Abs(q) <= Abs(x) < d * (Abs(q) + 1) && Abs(q) <= Abs(x)
      && (x >= 0 ==> q >= 0) && (x <= 0 ==> q <= 0)
  {
    DivisionBounds(Abs(x), d);
  }

  lemma SignOfProduct(a: int, b: int)
    requires b >= 0
    ensures Abs(a * b) == Abs(a) * b
    ensures a >= 0 ==> a * b >= 0
    ensures a <= 0 ==> a * b <= 0
  {
    if a >= 0 {
      assert a * b >= 0;
    } else {
      assert (-a) * b >= 0;
      assert a * b == -((-a) * b);
    }
  }

  lemma AtMostMultiple(d: nat, q: nat)
    requires d > 0
    ensures q <= d * q
  {
  }

  lemma DivisionBounds(x: nat, d: nat)
    requires d > 0
    ensures 0 <= d * (x / d) <= x < d * (x / d + 1)
    ensures x / d <= x
  {
    var q := x / d;
    assert x == d * q + x % d;
    assert d * (q + 1) == d * q + d;
    assert q >= 0;
    AtMostMultiple(d, q);
  }
}

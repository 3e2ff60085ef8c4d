/**
 * High and low volume nodes of src/alpha/features/volume_profile.py: strict
 * local extremes, merged when they are close, and the assembled profile.
 * A node's price is its bin index, and `gap` the merge distance in whole bins.
 */
module ProfileNodes {
  import opened Arithmetic
  import opened Sorting

  datatype Node = Node(price: int, vol: int)

  function SumVol(ns: seq<Node>): int {
    if ns == [] then 0 else SumVol(ns[..|ns| - 1]) + ns[|ns| - 1].vol
  }

  /** sum(p * v) */
  function Weighted(ns: seq<Node>): int {
    if ns == [] then 0 else Weighted(ns[..|ns| - 1]) + ns[|ns| - 1].price * ns[|ns| - 1].vol
  }

  lemma {:induction false} SumVolConcat(a: seq<Node>, b: seq<Node>)
    ensures SumVol(a + b) == SumVol(a) + SumVol(b)
    decreases |b|
  {
    if b == [] {
      assert a + b == a;
    } else {
      assert (a + b)[..|a + b| - 1] == a + b[..|b| - 1];
      SumVolConcat(a, b[..|b| - 1]);
    }
  }

  lemma {:induction false} SumVolInsert(s: seq<Node>, x: Node, key: Node -> int)
    ensures SumVol(Insert(s, x, key)) == SumVol(s) + x.vol
  {
    if s == [] || key(s[|s| - 1]) <= key(x) {
      assert (s + [x])[..|s|] == s;
    } else {
      var r := Insert(s[..|s| - 1], x, key);
      SumVolInsert(s[..|s| - 1], x, key);
      assert (r + [s[|s| - 1]])[..|r|] == r;
    }
  }

  lemma {:induction false} SumVolSort(s: seq<Node>, key: Node -> int)
    ensures SumVol(Sort(s, key)) == SumVol(s)
  {
    if s != [] {
      SumVolSort(s[..|s| - 1], key);
      SumVolInsert(Sort(s[..|s| - 1], key), s[|s| - 1], key);
    }
  }

  // ---- Rounding -----------------------------------------------------------------------

  /** Python's round of w / d: to the nearest, ties to the even one. */
  function RoundHalfEven(w: int, d: int): int
    requires 0 < d
  {
    var q, r := w / d, w % d;
    if 2 * r < d || (2 * r == d && q % 2 == 0) then q else q + 1
  }

  /** Rounding to the grid never leaves an interval with ends on the grid. */
  lemma RoundStays(w: int, d: int, lo: int, hi: int)
    requires 0 < d && lo * d <= w <= hi * d
    ensures lo <= RoundHalfEven(w, d) <= hi
  {
    var q, r := w / d, w % d;
    assert w == q * d + r && (q + 1) * d == q * d + d;
    MulCancel(lo, q + 1, d);
    MulCancel(q, hi, d);
  }

  lemma MulCancel(a: int, b: int, d: int)
    requires 0 < d
    ensures a * d < b * d ==> a < b
    ensures a * d <= b * d ==> a <= b
  {
    MulMono(b, a, d);
    if b < a {
      MulMono(b + 1, a, d);
      assert (b + 1) * d == b * d + d;
    }
  }

  /** A distance in price units and in whole bins. */
  lemma GapInBins(k: int, binSize: int, minMerge: int)
    requires 0 < binSize
    ensures k * binSize <= minMerge <==> k <= minMerge / binSize
  {
    var q, r := minMerge / binSize, minMerge % binSize;
    assert minMerge == q * binSize + r && (q + 1) * binSize == q * binSize + binSize;
    MulCancel(k, q + 1, binSize);
    MulMono(k, q, binSize);
  }

  // ---- Clusters -----------------------------------------------------------------------

  ghost predicate ByPrice(ns: seq<Node>) {
    forall i, j :: 0 <= i < j < |ns| ==> ns[i].price <= ns[j].price
  }

  predicate Near(gap: int, a: Node, b: Node) {
    b.price - a.price <= gap
  }

  function Flatten(cs: seq<seq<Node>>): seq<Node> {
    if cs == [] then [] else Flatten(cs[..|cs| - 1]) + cs[|cs| - 1]
  }

  ghost predicate Chained(gap: int, ns: seq<Node>) {
    ns != [] && forall i, j :: 0 <= i && j == i + 1 && j < |ns| ==> Near(gap, ns[i], ns[j])
  }

  /** Consecutive clusters are further apart than the merge distance. */
  ghost predicate Apart(gap: int, cs: seq<seq<Node>>) {
    forall i, j :: 0 <= i && j == i + 1 && j < |cs| ==>
      cs[i] != [] && cs[j] != [] && !Near(gap, cs[i][|cs[i]| - 1], cs[j][0])
  }

  /** cs cuts ns exactly at the gaps wider than the merge distance. */
  ghost predicate Clustering(gap: int, ns: seq<Node>, cs: seq<seq<Node>>) {
    && Flatten(cs) == ns
    && (forall i :: 0 <= i < |cs| ==> Chained(gap, cs[i]))
    && Apart(gap, cs)
  }

  /** Each node joins the last cluster or starts a new one. */
  function Clusters(gap: int, ns: seq<Node>): (cs: seq<seq<Node>>)
    ensures ns != [] ==> cs != [] && cs[|cs| - 1] != [] && cs[|cs| - 1][|cs[|cs| - 1]| - 1] == ns[|ns| - 1]
  {
    if ns == [] then []
    else
      var n := |ns| - 1;
      var cs := Clusters(gap, ns[..n]);
      if n == 0 || !Near(gap, ns[n - 1], ns[n]) then cs + [[ns[n]]]
      else cs[..|cs| - 1] + [cs[|cs| - 1] + [ns[n]]]
  }

  lemma StartCluster(gap: int, ns: seq<Node>, cs: seq<seq<Node>>, x: Node)
    requires Clustering(gap, ns, cs)
    requires cs != [] ==> cs[|cs| - 1] != [] && !Near(gap, cs[|cs| - 1][|cs[|cs| - 1]| - 1], x)
    ensures Clustering(gap, ns + [x], cs + [[x]])
  {
    assert (cs + [[x]])[..|cs|] == cs;
  }

  lemma ExtendCluster(gap: int, ns: seq<Node>, cs: seq<seq<Node>>, x: Node)
    requires Clustering(gap, ns, cs)
    requires cs != [] && cs[|cs| - 1] != [] && Near(gap, cs[|cs| - 1][|cs[|cs| - 1]| - 1], x)
    ensures Clustering(gap, ns + [x], cs[..|cs| - 1] + [cs[|cs| - 1] + [x]])
  {
    var init, last := cs[..|cs| - 1], cs[|cs| - 1];
    var r := init + [last + [x]];
    assert r[..|r| - 1] == init;
    assert Flatten(r) == Flatten(init) + last + [x];
    assert Chained(gap, last);
  }

  /** The clusters cut the list exactly at its wide gaps. */
  lemma {:induction false} ClustersCut(gap: int, ns: seq<Node>)
    ensures Clustering(gap, ns, Clusters(gap, ns))
  {
    if ns != [] {
      var n := |ns| - 1;
      var cs := Clusters(gap, ns[..n]);
      ClustersCut(gap, ns[..n]);
      assert ns == ns[..n] + [ns[n]];
      hide Clustering, Flatten;
      if n == 0 || !Near(gap, ns[n - 1], ns[n]) {
        StartCluster(gap, ns[..n], cs, ns[n]);
      } else {
        ExtendCluster(gap, ns[..n], cs, ns[n]);
      }
    }
  }

  lemma NextCluster(gap: int, ns: seq<Node>, k: nat)
    requires 0 < k < |ns|
    ensures var cs := Clusters(gap, ns[..k]);
            && cs != [] && cs[|cs| - 1] != [] && cs[|cs| - 1][|cs[|cs| - 1]| - 1] == ns[k - 1]
            && Clusters(gap, ns[..k + 1])
               == if Near(gap, ns[k - 1], ns[k]) then cs[..|cs| - 1] + [cs[|cs| - 1] + [ns[k]]] else cs + [[ns[k]]]
  {
    assert ns[..k + 1][..k] == ns[..k];
  }

  lemma FirstCluster(gap: int, ns: seq<Node>)
    requires ns != []
    ensures Clusters(gap, ns[..1]) == [[ns[0]]]
  {
    assert ns[..1][..0] == [];
  }

  /** The loop of _merge_nodes over the sorted nodes. */
  method BuildClusters(gap: int, byPrice: seq<Node>) returns (clusters: seq<seq<Node>>)
    requires byPrice != []
    ensures clusters == Clusters(gap, byPrice)
  {
    hide Clusters;
    clusters := [[byPrice[0]]];
    FirstCluster(gap, byPrice);
    var k := 1;
    while k < |byPrice|
      invariant 1 <= k <= |byPrice|
      invariant clusters == Clusters(gap, byPrice[..k])
    {
      NextCluster(gap, byPrice, k);
      var node, last := byPrice[k], clusters[|clusters| - 1];
      if node.price - last[|last| - 1].price <= gap {
        clusters := clusters[..|clusters| - 1] + [last + [node]];
      } else {
        clusters := clusters + [[node]];
      }
      k := k + 1;
    }
    assert byPrice[..k] == byPrice;
  }

  // ---- Merging ------------------------------------------------------------------------

  datatype Merge = Merged(nodes: seq<Node>) | DividedByZero

  function Center(ns: seq<Node>): Node
    requires 0 < SumVol(ns)
  {
    Node(RoundHalfEven(Weighted(ns), SumVol(ns)), SumVol(ns))
  }

  ghost predicate Positive(ns: seq<Node>) { forall n :: n in ns ==> 0 <= n.vol }

  lemma {:induction false} WeightedBetween(ns: seq<Node>, lo: int, hi: int)
    requires Positive(ns) && forall n :: n in ns ==> lo <= n.price <= hi
    ensures lo * SumVol(ns) <= Weighted(ns) <= hi * SumVol(ns)
    ensures 0 <= SumVol(ns)
  {
    if ns != [] {
      var rest, x := ns[..|ns| - 1], ns[|ns| - 1];
      assert ns == rest + [x];
      assert x in ns;
      WeightedBetween(rest, lo, hi);
      MulMono(lo, x.price, x.vol);
      MulMono(x.price, hi, x.vol);
      Distribute(lo, SumVol(rest), x.vol);
      Distribute(hi, SumVol(rest), x.vol);
    }
  }

  /** The volume-weighted centre, rounded to the grid, stays between the lowest
      and the highest price of its cluster. */
  lemma CenterInRange(ns: seq<Node>)
    requires ns != [] && ByPrice(ns) && Positive(ns) && 0 < SumVol(ns)
    ensures ns[0].price <= Center(ns).price <= ns[|ns| - 1].price
  {
    WeightedBetween(ns, ns[0].price, ns[|ns| - 1].price);
    RoundStays(Weighted(ns), SumVol(ns), ns[0].price, ns[|ns| - 1].price);
  }

  /** The volume-weighted mean of ns rounds to p: it is less than half a bin away,
      or exactly half a bin and p is even. */
  predicate CentredOn(ns: seq<Node>, p: int) {
    var vol := SumVol(ns);
    var d := Weighted(ns) - p * vol;
    -vol < 2 * d < vol || ((2 * d == vol || 2 * d == -vol) && p % 2 == 0)
  }

  lemma CenterIsExactly(ns: seq<Node>, p: int)
    requires 0 < SumVol(ns)
    ensures Center(ns).price == p <==> CentredOn(ns, p)
  {
    RoundsTo(Weighted(ns), SumVol(ns), p);
  }

  lemma RoundsTo(w: int, vol: int, p: int)
    requires 0 < vol
    ensures var d := w - p * vol;
            RoundHalfEven(w, vol) == p <==> -vol < 2 * d < vol || ((2 * d == vol || 2 * d == -vol) && p % 2 == 0)
  {
    hide RoundHalfEven;
    var k := w / vol - p;
    QuotientSplit(w, vol, p);
    RoundCases(w, vol);
    Multiples(k, vol);
    HalfWay(k, k * vol, w % vol, vol, p);
  }

  /** x stands for k times vol. */
  lemma HalfWay(k: int, x: int, r: int, vol: int, p: int)
    requires 0 <= r < vol && (k == 0 ==> x == 0) && (k == -1 ==> x == -vol) && (0 < k ==> vol <= x) && (k < -1 ==> x <= -2 * vol)
    ensures var q, d := k + p, x + r;
            (if 2 * r < vol || (2 * r == vol && q % 2 == 0) then q else q + 1) == p <==>
              -vol < 2 * d < vol || ((2 * d == vol || 2 * d == -vol) && p % 2 == 0)
  {
  }

  lemma Multiples(k: int, vol: int)
    requires 0 < vol
    ensures k == 0 ==> k * vol == 0
    ensures k == -1 ==> k * vol == -vol
    ensures 0 < k ==> vol <= k * vol
    ensures k < -1 ==> k * vol <= -2 * vol
  {
    MulMono(1, k, vol);
    MulMono(k, -2, vol);
  }

  lemma QuotientSplit(w: int, vol: int, p: int)
    requires 0 < vol
    ensures w - p * vol == (w / vol - p) * vol + w % vol && 0 <= w % vol < vol
  {
    assert w == w / vol * vol + w % vol;
  }

  lemma RoundCases(w: int, vol: int)
    requires 0 < vol
    ensures var q, r := w / vol, w % vol;
            RoundHalfEven(w, vol) == if 2 * r < vol || (2 * r == vol && q % 2 == 0) then q else q + 1
  {
  }

  lemma ByPriceParts(a: seq<Node>, b: seq<Node>)
    requires ByPrice(a + b)
    ensures ByPrice(a) && ByPrice(b)
    ensures forall x, y :: x in a && y in b ==> x.price <= y.price
  {
    forall i, j | 0 <= i < j < |b|
      ensures b[i].price <= b[j].price
    {
      assert (a + b)[|a| + i] == b[i] && (a + b)[|a| + j] == b[j];
    }
    forall i, j | 0 <= i < |a| && 0 <= j < |b|
      ensures a[i].price <= b[j].price
    {
      assert (a + b)[i] == a[i] && (a + b)[|a| + j] == b[j];
    }
    assert forall i :: 0 <= i < |a| ==> (a + b)[i] == a[i];
  }

  lemma {:induction false} FlattenHas(cs: seq<seq<Node>>, i: int, x: Node)
    requires 0 <= i < |cs| && x in cs[i]
    ensures x in Flatten(cs)
    decreases |cs|
  {
    if i < |cs| - 1 {
      FlattenHas(cs[..|cs| - 1], i, x);
    }
  }

  /** Clusters of a sorted list are sorted, and follow each other. */
  lemma {:induction false} FlattenOrder(cs: seq<seq<Node>>, i: int, k: int)
    requires 0 <= i <= k < |cs| && ByPrice(Flatten(cs))
    ensures ByPrice(cs[i])
    ensures i < k ==> forall a, b :: a in cs[i] && b in cs[k] ==> a.price <= b.price
    decreases |cs|
  {
    var n := |cs| - 1;
    ByPriceParts(Flatten(cs[..n]), cs[n]);
    if k < n {
      FlattenOrder(cs[..n], i, k);
    } else if i < k {
      FlattenOrder(cs[..n], i, i);
      forall a | a in cs[i]
        ensures a in Flatten(cs[..n])
      {
        FlattenHas(cs[..n], i, a);
      }
    }
  }

  /** Different clusters are further apart than the merge distance. */
  lemma ClustersApart(gap: int, ns: seq<Node>, i: int, k: int)
    requires ByPrice(ns) && 0 <= i < k < |Clusters(gap, ns)|
    ensures var cs := Clusters(gap, ns);
            cs[i] != [] && cs[k] != [] && gap < cs[k][0].price - cs[i][|cs[i]| - 1].price
  {
    var cs := Clusters(gap, ns);
    ClustersCut(gap, ns);
    assert Chained(gap, cs[i]) && Chained(gap, cs[i + 1]) && Chained(gap, cs[k]);
    assert !Near(gap, cs[i][|cs[i]| - 1], cs[i + 1][0]);
    if i + 1 < k {
      FlattenOrder(cs, i + 1, k);
      assert cs[i + 1][0] in cs[i + 1] && cs[k][0] in cs[k];
    }
  }

  /** The centres, in cluster order. A cluster without volume makes the division fail. */
  method MergeClusters(clusters: seq<seq<Node>>) returns (m: Merge)
    requires forall i :: 0 <= i < |clusters| ==> Positive(clusters[i])
    ensures m.DividedByZero? <==> exists i :: 0 <= i < |clusters| && SumVol(clusters[i]) <= 0
    ensures m.Merged? ==> m.nodes == Centers(clusters)
  {
    var merged: seq<Node> := [];
    var k := 0;
    while k < |clusters|
      invariant 0 <= k <= |clusters| && |merged| == k
      invariant forall i :: 0 <= i < k ==> 0 < SumVol(clusters[i]) && merged[i] == Center(clusters[i])
    {
      var totalVol := SumVol(clusters[k]);
      SumVolNonNegative(clusters[k]);
      if totalVol == 0 {
        return DividedByZero;
      }
      merged := merged + [Node(RoundHalfEven(Weighted(clusters[k]), totalVol), totalVol)];
      k := k + 1;
    }
    m := Merged(merged);
  }

  lemma {:induction false} SumVolNonNegative(ns: seq<Node>)
    requires Positive(ns)
    ensures 0 <= SumVol(ns)
    ensures SumVol(ns) == 0 <==> forall n :: n in ns ==> n.vol == 0
  {
    if ns != [] {
      var rest, x := ns[..|ns| - 1], ns[|ns| - 1];
      assert ns == rest + [x];
      assert x in ns;
      SumVolNonNegative(rest);
    }
  }

  function Centers(cs: seq<seq<Node>>): seq<Node>
    requires forall i :: 0 <= i < |cs| ==> 0 < SumVol(cs[i])
  {
    seq(|cs|, i requires 0 <= i < |cs| => Center(cs[i]))
  }

  // ---- What merging guarantees ----------------------------------------------------------

  /** More than the merge distance between the two prices. */
  predicate FarApart(gap: int, a: Node, b: Node) {
    gap < b.price - a.price || gap < a.price - b.price
  }

  /** The clusters of the nodes, in price order. */
  function NodeClusters(gap: int, nodes: seq<Node>): seq<seq<Node>> {
    Clusters(gap, Sort(nodes, (n: Node) => n.price))
  }

  lemma SortedNodes(nodes: seq<Node>)
    requires Positive(nodes)
    ensures ByPrice(Sort(nodes, (n: Node) => n.price)) && Positive(Sort(nodes, (n: Node) => n.price))
    ensures SumVol(Sort(nodes, (n: Node) => n.price)) == SumVol(nodes)
  {
    var key := (n: Node) => n.price;
    var s := Sort(nodes, key);
    SortIsSorted(nodes, key);
    SumVolSort(nodes, key);
    assert forall i, j :: 0 <= i < j < |s| ==> key(s[i]) <= key(s[j]);
  }

  /** A cluster is sorted and made of the given nodes. */
  lemma ClusterOf(gap: int, nodes: seq<Node>, i: int)
    requires Positive(nodes) && 0 <= i < |NodeClusters(gap, nodes)|
    ensures var c := NodeClusters(gap, nodes)[i];
            c != [] && ByPrice(c) && Positive(c) && (forall n :: n in c ==> n in nodes)
  {
    var key := (n: Node) => n.price;
    var s := Sort(nodes, key);
    var cs := Clusters(gap, s);
    SortedNodes(nodes);
    SortIsSorted(nodes, key);
    ClustersCut(gap, s);
    FlattenOrder(cs, i, i);
    assert Chained(gap, cs[i]);
    forall n | n in cs[i]
      ensures n in nodes
    {
      FlattenHas(cs, i, n);
    }
  }

  /** Two merged centres are more than the merge distance apart. */
  lemma CentersApart(gap: int, nodes: seq<Node>, i: int, k: int)
    requires Positive(nodes) && 0 <= i < k < |NodeClusters(gap, nodes)|
    requires 0 < SumVol(NodeClusters(gap, nodes)[i]) && 0 < SumVol(NodeClusters(gap, nodes)[k])
    ensures var cs := NodeClusters(gap, nodes); gap < Center(cs[k]).price - Center(cs[i]).price
  {
    var cs := NodeClusters(gap, nodes);
    SortedNodes(nodes);
    ClusterOf(gap, nodes, i);
    ClusterOf(gap, nodes, k);
    ClustersApart(gap, Sort(nodes, (n: Node) => n.price), i, k);
    CenterInRange(cs[i]);
    CenterInRange(cs[k]);
  }

  lemma {:induction false} CentersConserve(cs: seq<seq<Node>>)
    requires forall i :: 0 <= i < |cs| ==> 0 < SumVol(cs[i])
    ensures SumVol(Centers(cs)) == SumVol(Flatten(cs))
  {
    if cs != [] {
      var init := cs[..|cs| - 1];
      CentersConserve(init);
      assert Centers(cs)[..|cs| - 1] == Centers(init);
      SumVolConcat(Flatten(init), cs[|cs| - 1]);
    }
  }

  /** _merge_nodes on nodes with volumes that are not negative. */
  function MergeSpec(nodes: seq<Node>, binSize: int, minMerge: int, descending: bool): Merge
    requires 0 < binSize
  {
    var byVolume := (n: Node) => if descending then -n.vol else n.vol;
    if nodes == [] || minMerge <= 0 then Merged(Sort(nodes, byVolume))
    else
      var cs := NodeClusters(minMerge / binSize, nodes);
      if exists i :: 0 <= i < |cs| && SumVol(cs[i]) <= 0 then DividedByZero
      else Merged(Sort(Centers(cs), byVolume))
  }

  ghost predicate Weighty(cs: seq<seq<Node>>) {
    forall i :: 0 <= i < |cs| ==> 0 < SumVol(cs[i])
  }

  /** m lies between two of the nodes. */
  ghost predicate Bracketed(m: Node, nodes: seq<Node>) {
    exists a, b :: a in nodes && b in nodes && a.price <= m.price <= b.price
  }

  lemma CentersVolume(gap: int, nodes: seq<Node>)
    requires Positive(nodes) && Weighty(NodeClusters(gap, nodes))
    ensures SumVol(Centers(NodeClusters(gap, nodes))) == SumVol(nodes)
  {
    SortedNodes(nodes);
    ClustersCut(gap, Sort(nodes, (n: Node) => n.price));
    CentersConserve(NodeClusters(gap, nodes));
  }

  lemma CentersPairwise(gap: int, nodes: seq<Node>)
    requires Positive(nodes) && Weighty(NodeClusters(gap, nodes))
    ensures Pairwise(Centers(NodeClusters(gap, nodes)), (a: Node, b: Node) => FarApart(gap, a, b))
  {
    var ms := Centers(NodeClusters(gap, nodes));
    forall i, j | 0 <= i < j < |ms|
      ensures FarApart(gap, ms[i], ms[j]) && FarApart(gap, ms[j], ms[i])
    {
      CentersApart(gap, nodes, i, j);
    }
  }

  lemma CenterBracketed(gap: int, nodes: seq<Node>, i: int)
    requires Positive(nodes) && 0 <= i < |NodeClusters(gap, nodes)| && 0 < SumVol(NodeClusters(gap, nodes)[i])
    ensures Bracketed(Center(NodeClusters(gap, nodes)[i]), nodes)
  {
    var c := NodeClusters(gap, nodes)[i];
    ClusterOf(gap, nodes, i);
    CenterInRange(c);
    assert c[0] in c && c[|c| - 1] in c;
  }

  lemma CentersBracketed(gap: int, nodes: seq<Node>)
    requires Positive(nodes) && Weighty(NodeClusters(gap, nodes))
    ensures forall m :: m in Centers(NodeClusters(gap, nodes)) ==> Bracketed(m, nodes)
  {
    var cs := NodeClusters(gap, nodes);
    forall i | 0 <= i < |cs|
      ensures Bracketed(Centers(cs)[i], nodes)
    {
      CenterBracketed(gap, nodes, i);
    }
  }

  lemma PlainBracketed(nodes: seq<Node>)
    ensures forall m :: m in nodes ==> Bracketed(m, nodes)
  {
  }

  /** Ranked by volume, equal volumes by rising price. */
  ghost predicate Ranked(ms: seq<Node>, descending: bool) {
    forall i, j :: 0 <= i < j < |ms| ==>
      (if descending then ms[j].vol < ms[i].vol else ms[i].vol < ms[j].vol)
      || (ms[i].vol == ms[j].vol && ms[i].price <= ms[j].price)
  }

  lemma CentersByPrice(gap: int, nodes: seq<Node>)
    requires Positive(nodes) && Weighty(NodeClusters(gap, nodes)) && 0 <= gap
    ensures ByPrice(Centers(NodeClusters(gap, nodes)))
  {
    var ms := Centers(NodeClusters(gap, nodes));
    forall i, j | 0 <= i < j < |ms|
      ensures ms[i].price <= ms[j].price
    {
      CentersApart(gap, nodes, i, j);
    }
  }

  lemma SortRanks(ms: seq<Node>, descending: bool)
    requires ByPrice(ms)
    ensures Ranked(Sort(ms, (n: Node) => if descending then -n.vol else n.vol), descending)
  {
    var byVolume, byPrice := (n: Node) => if descending then -n.vol else n.vol, (n: Node) => n.price;
    SortStable(ms, byVolume, byPrice);
  }

  /**
   * The ranking is total: nodes of equal volume come by rising price, if they
   * were given so, as the extremes of a profile are.
   */
  lemma MergeRanks(nodes: seq<Node>, binSize: int, minMerge: int, descending: bool)
    requires 0 < binSize && Positive(nodes) && ByPrice(nodes)
    requires MergeSpec(nodes, binSize, minMerge, descending).Merged?
    ensures Ranked(MergeSpec(nodes, binSize, minMerge, descending).nodes, descending)
  {
    hide Sort, NodeClusters, Ranked;
    if nodes == [] || minMerge <= 0 {
      SortRanks(nodes, descending);
    } else {
      CentersByPrice(minMerge / binSize, nodes);
      SortRanks(Centers(NodeClusters(minMerge / binSize, nodes)), descending);
    }
  }

  /** Without a merge distance every node stays as it is. */
  lemma UnmergedNodesStay(nodes: seq<Node>, binSize: int, minMerge: int, descending: bool)
    requires 0 < binSize && minMerge <= 0
    ensures var m := MergeSpec(nodes, binSize, minMerge, descending); m.Merged? && multiset(m.nodes) == multiset(nodes)
  {
    SortIsSorted(nodes, (n: Node) => if descending then -n.vol else n.vol);
  }

  /** With one, every merged node is the centre of a cluster, and every cluster has one. */
  lemma MergedAreCenters(nodes: seq<Node>, binSize: int, minMerge: int, descending: bool)
    requires 0 < binSize && nodes != [] && 0 < minMerge && Weighty(NodeClusters(minMerge / binSize, nodes))
    ensures var m := MergeSpec(nodes, binSize, minMerge, descending);
            m.Merged? && multiset(m.nodes) == multiset(Centers(NodeClusters(minMerge / binSize, nodes)))
  {
    hide NodeClusters;
    SortIsSorted(Centers(NodeClusters(minMerge / binSize, nodes)), (n: Node) => if descending then -n.vol else n.vol);
  }

  /**
   * Merging keeps the total volume, leaves any two centres more than
   * min_merge_distance apart, puts every centre between two of the merged
   * nodes, and ranks them by volume.
   */
  lemma MergeGuarantees(nodes: seq<Node>, binSize: int, minMerge: int, descending: bool)
    requires 0 < binSize && Positive(nodes) && MergeSpec(nodes, binSize, minMerge, descending).Merged?
    ensures var ms := MergeSpec(nodes, binSize, minMerge, descending).nodes;
            && SumVol(ms) == SumVol(nodes)
            && SortedBy(ms, (n: Node) => if descending then -n.vol else n.vol)
            && (0 < minMerge ==> Pairwise(ms, (a: Node, b: Node) => FarApart(minMerge / binSize, a, b)))
            && (forall m :: m in ms ==> Bracketed(m, nodes))
  {
    var byVolume := (n: Node) => if descending then -n.vol else n.vol;
    var gap := minMerge / binSize;
    if nodes == [] || minMerge <= 0 {
      SortIsSorted(nodes, byVolume);
      SumVolSort(nodes, byVolume);
      PlainBracketed(nodes);
    } else {
      var centers := Centers(NodeClusters(gap, nodes));
      CentersVolume(gap, nodes);
      CentersPairwise(gap, nodes);
      CentersBracketed(gap, nodes);
      SortIsSorted(centers, byVolume);
      SumVolSort(centers, byVolume);
      SortPairwise(centers, byVolume, (a: Node, b: Node) => FarApart(gap, a, b));
    }
  }

  /** Far apart in bins is more than min_merge_distance in price units. */
  lemma FarApartInPrice(a: Node, b: Node, binSize: int, minMerge: int)
    requires 0 < binSize
    ensures FarApart(minMerge / binSize, a, b) <==>
              minMerge < (b.price - a.price) * binSize || minMerge < (a.price - b.price) * binSize
  {
    GapInBins(b.price - a.price, binSize, minMerge);
    GapInBins(a.price - b.price, binSize, minMerge);
  }

  ghost predicate AllEmpty(c: seq<Node>) { forall n :: n in c ==> n.vol == 0 }

  /** The division fails exactly when some cluster has only empty bins. */
  lemma FailsExactlyOnEmptyCluster(nodes: seq<Node>, binSize: int, minMerge: int, descending: bool)
    requires 0 < binSize && Positive(nodes)
    ensures var cs := NodeClusters(minMerge / binSize, nodes);
            MergeSpec(nodes, binSize, minMerge, descending).DividedByZero? <==>
              nodes != [] && 0 < minMerge && exists i :: 0 <= i < |cs| && AllEmpty(cs[i])
  {
    var cs := NodeClusters(minMerge / binSize, nodes);
    forall i | 0 <= i < |cs|
      ensures SumVol(cs[i]) <= 0 <==> AllEmpty(cs[i])
    {
      ClusterOf(minMerge / binSize, nodes, i);
      SumVolNonNegative(cs[i]);
    }
  }

  method MergeNodes(nodes: seq<Node>, binSize: int, minMerge: int, descending: bool) returns (m: Merge)
    requires 0 < binSize && Positive(nodes)
    ensures m == MergeSpec(nodes, binSize, minMerge, descending)
  {
    var byVolume := (n: Node) => if descending then -n.vol else n.vol;
    if nodes == [] || minMerge <= 0 {
      return Merged(Sort(nodes, byVolume));
    }
    var gap := minMerge / binSize;
    var byPrice := Sort(nodes, (n: Node) => n.price);
    var clusters := BuildClusters(gap, byPrice);
    forall i | 0 <= i < |clusters|
      ensures Positive(clusters[i])
    {
      ClusterOf(gap, nodes, i);
    }
    m := MergeClusters(clusters);
    if m.Merged? {
      m := Merged(Sort(m.nodes, byVolume));
    }
  }
}

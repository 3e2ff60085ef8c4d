/** VolumeProfileBuilder._finalize: from a distribution to the profile. */
module VolumeProfile {
  import opened Sorting
  import ValueArea
  import opened ProfileNodes
  import PD = ProfileDistribution

  datatype Settings = Settings(binSize: int, minMerge: int, maxHvn: nat, maxLvn: nat)

  datatype Profile = Profile(poc: int, vah: int, val: int, totalVolume: int, valueAreaVolume: int,
                             hvn: seq<int>, lvn: seq<int>)

  datatype Result = Ok(profile: Profile) | NoBins | DividedByZero

  /** value_area_pct is 70 percent; the target is rounded up. */
  function Target(total: int): int { -((-7 * total) / 10) }

  lemma TargetIsCeiling(total: int)
    ensures 7 * total <= 10 * Target(total) < 7 * total + 10
    ensures 0 <= total ==> Target(total) <= total
  {
  }

  // ---- Extremes --------------------------------------------------------------------

  predicate Peak(v: seq<int>, i: int) {
    0 < i < |v| - 1 && v[i - 1] < v[i] && v[i + 1] < v[i]
  }

  predicate Trough(v: seq<int>, i: int) {
    0 < i < |v| - 1 && v[i] < v[i - 1] && v[i] < v[i + 1]
  }

  /** The nodes at the first n positions that `keep` selects, by rising price. */
  function Select(levels: seq<int>, v: seq<int>, keep: int -> bool, n: nat): seq<Node>
    requires |levels| == |v| && n <= |v|
  {
    if n == 0 then []
    else Select(levels, v, keep, n - 1) + (if keep(n - 1) then [Node(levels[n - 1], v[n - 1])] else [])
  }

  lemma {:induction false} SelectExactly(levels: seq<int>, v: seq<int>, keep: int -> bool, n: nat, x: Node)
    requires |levels| == |v| && n <= |v|
    ensures x in Select(levels, v, keep, n) <==> exists i :: 0 <= i < n && keep(i) && x == Node(levels[i], v[i])
  {
    if 0 < n {
      SelectExactly(levels, v, keep, n - 1, x);
    }
  }

  method RawPeaks(levels: seq<int>, v: seq<int>, poc: int) returns (raw: seq<Node>)
    requires |levels| == |v|
    ensures raw == Select(levels, v, (i: int) => Peak(v, i) && levels[i] != poc, |v|)
  {
    var keep := (i: int) => Peak(v, i) && levels[i] != poc;
    raw := [];
    var i := 1;
    assert 0 < |v| ==> Select(levels, v, keep, 1) == Select(levels, v, keep, 0) == [];
    while i < |levels| - 1
      invariant 1 <= i && (0 < |v| ==> i <= |v|) && (1 < |v| ==> i <= |v| - 1)
      invariant 0 < |v| ==> raw == Select(levels, v, keep, i)
      invariant |v| == 0 ==> raw == []
    {
      if levels[i] != poc && v[i] > v[i - 1] && v[i] > v[i + 1] {
        raw := raw + [Node(levels[i], v[i])];
      }
      i := i + 1;
    }
  }

  method RawTroughs(levels: seq<int>, v: seq<int>) returns (raw: seq<Node>)
    requires |levels| == |v|
    ensures raw == Select(levels, v, (i: int) => Trough(v, i), |v|)
  {
    var keep := (i: int) => Trough(v, i);
    raw := [];
    var i := 1;
    assert 0 < |v| ==> Select(levels, v, keep, 1) == Select(levels, v, keep, 0) == [];
    while i < |levels| - 1
      invariant 1 <= i && (0 < |v| ==> i <= |v|) && (1 < |v| ==> i <= |v| - 1)
      invariant 0 < |v| ==> raw == Select(levels, v, keep, i)
      invariant |v| == 0 ==> raw == []
    {
      if v[i] < v[i - 1] && v[i] < v[i + 1] {
        raw := raw + [Node(levels[i], v[i])];
      }
      i := i + 1;
    }
  }

  // ---- Assembly --------------------------------------------------------------------------

  function Levels(dist: map<int, int>): seq<int> { SortedSeq(dist.Keys) }

  function Volumes(dist: map<int, int>): (v: seq<int>)
    ensures |v| == |Levels(dist)| && forall i :: 0 <= i < |v| ==> Levels(dist)[i] in dist && v[i] == dist[Levels(dist)[i]]
  {
    var levels := Levels(dist);
    assert forall i :: 0 <= i < |levels| ==> levels[i] in levels;
    seq(|levels|, i requires 0 <= i < |levels| => dist[levels[i]])
  }

  ghost predicate NonNegative(dist: map<int, int>) { forall k :: k in dist ==> 0 <= dist[k] }

  /** p is the lowest level with the largest volume. */
  ghost predicate IsPoc(v: seq<int>, p: int) {
    && 0 <= p < |v|
    && (forall i :: 0 <= i < |v| ==> v[i] <= v[p])
    && (forall i :: 0 <= i < p ==> v[i] < v[p])
  }

  method FindPoc(v: seq<int>) returns (p: nat)
    requires v != []
    ensures IsPoc(v, p)
  {
    p := 0;
    for i := 1 to |v|
      invariant p < i && IsPoc(v[..i], p)
    {
      if v[p] < v[i] {
        p := i;
      }
    }
    assert v[..|v|] == v;
  }

  ghost function RangeKeys(levels: seq<int>, lo: nat, n: nat): set<int>
    requires lo <= n <= |levels|
  {
    if n == lo then {} else RangeKeys(levels, lo, n - 1) + {levels[n - 1]}
  }

  lemma {:induction false} RangeKeysIs(levels: seq<int>, lo: nat, n: nat, k: int)
    requires lo <= n <= |levels|
    ensures k in RangeKeys(levels, lo, n) <==> exists i :: lo <= i < n && levels[i] == k
  {
    if lo < n {
      RangeKeysIs(levels, lo, n - 1, k);
    }
  }

  lemma {:induction false} TotalOfRange(dist: map<int, int>, levels: seq<int>, v: seq<int>, lo: nat, n: nat)
    requires StrictlySorted(levels) && |v| == |levels| && lo <= n <= |v|
    requires forall i :: 0 <= i < |v| ==> levels[i] in dist && v[i] == dist[levels[i]]
    ensures RangeKeys(levels, lo, n) <= dist.Keys
    ensures PD.SumKeys(dist, RangeKeys(levels, lo, n)) == ValueArea.Sum(v, lo, n)
    decreases n
  {
    if lo < n {
      var last := levels[n - 1];
      TotalOfRange(dist, levels, v, lo, n - 1);
      assert last !in RangeKeys(levels, lo, n - 1) by {
        RangeKeysIs(levels, lo, n - 1, last);
      }
      assert RangeKeys(levels, lo, n) - {last} == RangeKeys(levels, lo, n - 1);
      PD.SumKeysPick(dist, RangeKeys(levels, lo, n), last);
    }
  }

  /** sum(dist.values()), taken by rising price. */
  lemma TotalIsSum(dist: map<int, int>)
    ensures PD.Total(dist) == ValueArea.Sum(Volumes(dist), 0, |Volumes(dist)|)
  {
    var levels := Levels(dist);
    TotalOfRange(dist, levels, Volumes(dist), 0, |levels|);
    forall k | k in dist.Keys
      ensures k in RangeKeys(levels, 0, |levels|)
    {
      assert k in levels;
      RangeKeysIs(levels, 0, |levels|, k);
    }
    assert RangeKeys(levels, 0, |levels|) == dist.Keys;
  }

  function Prices(ns: seq<Node>): (r: seq<int>)
    ensures |r| == |ns| && forall i :: 0 <= i < |r| ==> r[i] == ns[i].price
  {
    seq(|ns|, i requires 0 <= i < |ns| => ns[i].price)
  }

  function Without(xs: seq<int>, ys: seq<int>): (r: seq<int>)
    ensures forall x :: x in r <==> x in xs && x !in ys
  {
    if xs == [] then []
    else Without(xs[..|xs| - 1], ys) + (if xs[|xs| - 1] in ys then [] else [xs[|xs| - 1]])
  }

  lemma WithoutOneMore(xs: seq<int>, y: int, zs: seq<int>)
    ensures Without(xs + [y], zs) == Without(xs, zs) + if y in zs then [] else [y]
  {
    assert (xs + [y])[..|xs|] == xs;
  }

  /** The others keep their order. */
  lemma {:induction false} WithoutSplits(xs: seq<int>, ys: seq<int>, zs: seq<int>)
    ensures Without(xs + ys, zs) == Without(xs, zs) + Without(ys, zs)
  {
    hide Without;
    if ys == [] {
      WithoutNothing(xs, ys, zs);
    } else {
      var n := |ys| - 1;
      var init, last := ys[..n], ys[n];
      WithoutSplits(xs, init, zs);
      WithoutOneMore(xs + init, last, zs);
      WithoutOneMore(init, last, zs);
      assert ys == init + [last];
      Associates(xs, init, [last]);
      Associates(Without(xs, zs), Without(init, zs), if last in zs then [] else [last]);
    }
  }

  lemma WithoutNothing(xs: seq<int>, ys: seq<int>, zs: seq<int>)
    requires ys == []
    ensures Without(xs + ys, zs) == Without(xs, zs) + Without(ys, zs)
  {
    assert xs + ys == xs;
  }

  lemma Associates(a: seq<int>, b: seq<int>, c: seq<int>)
    ensures a + (b + c) == (a + b) + c
  {
  }

  /** xs[:n] */
  function Take(xs: seq<int>, n: nat): (r: seq<int>)
    ensures r <= xs && |r| == (if |xs| < n then |xs| else n) && forall x :: x in r ==> x in xs
  {
    if |xs| <= n then xs else xs[..n]
  }

  /** Any two prices are more than gap bins apart. */
  ghost predicate SpacedOut(gap: int, xs: seq<int>) {
    forall i, j :: 0 <= i < j < |xs| ==> gap < xs[j] - xs[i] || gap < xs[i] - xs[j]
  }

  function Peaks(dist: map<int, int>, poc: int): seq<Node> {
    var levels, v := Levels(dist), Volumes(dist);
    Select(levels, v, (i: int) => Peak(v, i) && levels[i] != poc, |v|)
  }

  function Troughs(dist: map<int, int>): seq<Node> {
    var v := Volumes(dist);
    Select(Levels(dist), v, (i: int) => Trough(v, i), |v|)
  }

  /** The peaks are the traded levels above both neighbours, the POC excepted. */
  lemma PeaksExactly(dist: map<int, int>, poc: int, n: Node)
    ensures var levels, v := Levels(dist), Volumes(dist);
            n in Peaks(dist, poc) <==>
              exists i :: 0 < i < |v| - 1 && v[i - 1] < v[i] && v[i + 1] < v[i] && levels[i] != poc && n == Node(levels[i], v[i])
  {
    var levels, v := Levels(dist), Volumes(dist);
    hide Levels, Volumes;
    SelectExactly(levels, v, (i: int) => Peak(v, i) && levels[i] != poc, |v|, n);
  }

  /** The troughs are those below both neighbours. */
  lemma TroughsExactly(dist: map<int, int>, n: Node)
    ensures var levels, v := Levels(dist), Volumes(dist);
            n in Troughs(dist) <==>
              exists i :: 0 < i < |v| - 1 && v[i] < v[i - 1] && v[i] < v[i + 1] && n == Node(levels[i], v[i])
  {
    var levels, v := Levels(dist), Volumes(dist);
    hide Levels, Volumes;
    SelectExactly(levels, v, (i: int) => Trough(v, i), |v|, n);
  }

  lemma RawPositive(dist: map<int, int>, poc: int)
    requires NonNegative(dist)
    ensures Positive(Troughs(dist))
    ensures forall n :: n in Peaks(dist, poc) ==> 0 < n.vol
  {
    var levels, v := Levels(dist), Volumes(dist);
    forall n | n in Troughs(dist)
      ensures 0 <= n.vol
    {
      SelectExactly(levels, v, (i: int) => Trough(v, i), |v|, n);
    }
    forall n | n in Peaks(dist, poc)
      ensures 0 < n.vol
    {
      SelectExactly(levels, v, (i: int) => Peak(v, i) && levels[i] != poc, |v|, n);
    }
  }

  function NodesOf(m: Merge): seq<Node> { if m.Merged? then m.nodes else [] }

  /** The merged peaks, by falling volume. */
  function HighNodes(dist: map<int, int>, poc: int, s: Settings): seq<Node>
    requires 0 < s.binSize
  {
    NodesOf(MergeSpec(Peaks(dist, poc), s.binSize, s.minMerge, true))
  }

  /** The merged troughs, by rising volume. */
  function LowNodes(dist: map<int, int>, s: Settings): seq<Node>
    requires 0 < s.binSize
  {
    NodesOf(MergeSpec(Troughs(dist), s.binSize, s.minMerge, false))
  }

  function Hvn(dist: map<int, int>, poc: int, s: Settings): seq<int>
    requires 0 < s.binSize
  {
    Take(Prices(HighNodes(dist, poc, s)), s.maxHvn)
  }

  function Lvn(dist: map<int, int>, poc: int, s: Settings): seq<int>
    requires 0 < s.binSize
  {
    Take(Without(Prices(LowNodes(dist, s)), Hvn(dist, poc, s)), s.maxLvn)
  }

  /** A peak has volume, so merging the high nodes never divides by zero. */
  lemma PeaksNeverFail(dist: map<int, int>, poc: int, s: Settings)
    requires 0 < s.binSize && NonNegative(dist)
    ensures Positive(Peaks(dist, poc)) && MergeSpec(Peaks(dist, poc), s.binSize, s.minMerge, true).Merged?
  {
    var peaks := Peaks(dist, poc);
    RawPositive(dist, poc);
    FailsExactlyOnEmptyCluster(peaks, s.binSize, s.minMerge, true);
    var cs := NodeClusters(s.minMerge / s.binSize, peaks);
    forall i | 0 <= i < |cs|
      ensures !AllEmpty(cs[i])
    {
      ClusterOf(s.minMerge / s.binSize, peaks, i);
      assert cs[i][0] in cs[i];
    }
  }

  /** Some group of neighbouring troughs has no volume at all. */
  ghost predicate EmptyTroughs(dist: map<int, int>, s: Settings)
    requires 0 < s.binSize
  {
    var troughs := Troughs(dist);
    var cs := NodeClusters(s.minMerge / s.binSize, troughs);
    troughs != [] && 0 < s.minMerge && exists i :: 0 <= i < |cs| && AllEmpty(cs[i])
  }

  /** What a profile says about its distribution. */
  ghost predicate Describes(dist: map<int, int>, s: Settings, r: Profile)
    requires 0 < s.binSize && NonNegative(dist)
  {
    var levels, v := Levels(dist), Volumes(dist);
    && r.totalVolume == PD.Total(dist)
    && (exists p :: IsPoc(v, p) && r.poc == levels[p] && ValueAreaOf(v, p, levels, r))
    && r.hvn == Hvn(dist, r.poc, s) && r.lvn == Lvn(dist, r.poc, s)
    && |r.hvn| <= s.maxHvn && |r.lvn| <= s.maxLvn
    && (forall x :: x in r.lvn ==> x !in r.hvn)
    && (0 < s.minMerge ==> SpacedOut(s.minMerge / s.binSize, r.hvn) && SpacedOut(s.minMerge / s.binSize, r.lvn))
  }

  ghost predicate ValueAreaOf(v: seq<int>, p: int, levels: seq<int>, r: Profile)
    requires |levels| == |v|
  {
    && ValueArea.NonNegative(v) && 0 <= p < |v|
    && var (lo, hi) := ValueArea.Expand(v, p, p, Target(r.totalVolume));
       r.val == levels[lo] && r.vah == levels[hi] && r.valueAreaVolume == ValueArea.Sum(v, lo, hi + 1)
  }

  /** Prices of merged nodes are spaced out. */
  lemma MergedSpaced(nodes: seq<Node>, s: Settings, descending: bool)
    requires 0 < s.binSize && 0 < s.minMerge && Positive(nodes)
    requires MergeSpec(nodes, s.binSize, s.minMerge, descending).Merged?
    ensures SpacedOut(s.minMerge / s.binSize, Prices(MergeSpec(nodes, s.binSize, s.minMerge, descending).nodes))
  {
    MergeGuarantees(nodes, s.binSize, s.minMerge, descending);
    PricesSpaced(s.minMerge / s.binSize, MergeSpec(nodes, s.binSize, s.minMerge, descending).nodes);
  }

  lemma PricesSpaced(gap: int, ms: seq<Node>)
    requires Pairwise(ms, (a: Node, b: Node) => FarApart(gap, a, b))
    ensures SpacedOut(gap, Prices(ms))
  {
    var far := (a: Node, b: Node) => FarApart(gap, a, b);
    assert forall i, j :: 0 <= i < j < |ms| ==> far(ms[i], ms[j]) && far(ms[j], ms[i]);
  }

  lemma {:induction false} WithoutSpaced(xs: seq<int>, ys: seq<int>, gap: int)
    requires SpacedOut(gap, xs)
    ensures SpacedOut(gap, Without(xs, ys))
  {
    if xs != [] {
      var rest := xs[..|xs| - 1];
      WithoutSpaced(rest, ys, gap);
      var w, last := Without(rest, ys), xs[|xs| - 1];
      forall k | 0 <= k < |w|
        ensures gap < last - w[k] || gap < w[k] - last
      {
        assert w[k] in w;
        assert w[k] in rest;
        var i :| 0 <= i < |rest| && rest[i] == w[k];
        assert xs[i] == w[k];
      }
      assert Without(xs, ys) == if last in ys then w else w + [last];
    }
  }

  lemma TakeSpaced(xs: seq<int>, n: nat, gap: int)
    ensures SpacedOut(gap, xs) ==> SpacedOut(gap, Take(xs, n))
  {
  }

  /** The nodes of a profile, unless the merge of the troughs divides by zero. */
  method FindNodes(dist: map<int, int>, poc: int, s: Settings) returns (ok: bool, hvn: seq<int>, lvn: seq<int>)
    requires 0 < s.binSize && NonNegative(dist)
    ensures !ok <==> EmptyTroughs(dist, s)
    ensures ok ==> hvn == Hvn(dist, poc, s) && lvn == Lvn(dist, poc, s)
    ensures |hvn| <= s.maxHvn && |lvn| <= s.maxLvn
    ensures forall x :: x in lvn ==> x !in hvn
    ensures 0 < s.minMerge ==> SpacedOut(s.minMerge / s.binSize, hvn) && SpacedOut(s.minMerge / s.binSize, lvn)
  {
    var levels, v := Levels(dist), Volumes(dist);
    var peaks := RawPeaks(levels, v, poc);
    PeaksNeverFail(dist, poc, s);
    var high := MergeNodes(peaks, s.binSize, s.minMerge, true);
    var troughs := RawTroughs(levels, v);
    RawPositive(dist, poc);
    FailsExactlyOnEmptyCluster(troughs, s.binSize, s.minMerge, false);
    var low := MergeNodes(troughs, s.binSize, s.minMerge, false);
    if low.DividedByZero? {
      return false, [], [];
    }
    ok := true;
    hvn := Take(Prices(high.nodes), s.maxHvn);
    lvn := Take(Without(Prices(low.nodes), hvn), s.maxLvn);
    assert hvn == Hvn(dist, poc, s) && lvn == Lvn(dist, poc, s);
    hide Levels, Volumes, MergeSpec, NodeClusters, SpacedOut;
    if 0 < s.minMerge {
      MergedSpaced(peaks, s, true);
      MergedSpaced(troughs, s, false);
      TakeSpaced(Prices(high.nodes), s.maxHvn, s.minMerge / s.binSize);
      TakeSpaced(Without(Prices(low.nodes), hvn), s.maxLvn, s.minMerge / s.binSize);
      WithoutSpaced(Prices(low.nodes), hvn, s.minMerge / s.binSize);
    }
  }

  /** The sum of the volumes, as the source adds them up. */
  method SumVolumes(dist: map<int, int>) returns (total: int)
    ensures total == PD.Total(dist)
  {
    var v := Volumes(dist);
    total := 0;
    for i := 0 to |v|
      invariant total == ValueArea.Sum(v, 0, i)
    {
      total := total + v[i];
    }
    TotalIsSum(dist);
  }

  lemma NoLevels(dist: map<int, int>)
    ensures Levels(dist) == [] <==> dist == map[]
  {
    if Levels(dist) == [] {
      assert forall k :: k in dist.Keys <==> k in Levels(dist);
    } else {
      assert Levels(dist)[0] in Levels(dist);
    }
  }

  /** What _finalize assembles describes the distribution. */
  lemma Assembled(dist: map<int, int>, s: Settings, p: int, r: Profile)
    requires 0 < s.binSize && NonNegative(dist) && IsPoc(Volumes(dist), p) && r.poc == Levels(dist)[p]
    requires r.totalVolume == PD.Total(dist) && ValueAreaOf(Volumes(dist), p, Levels(dist), r)
    requires r.hvn == Hvn(dist, r.poc, s) && r.lvn == Lvn(dist, r.poc, s) && forall x :: x in r.lvn ==> x !in r.hvn
    requires |r.hvn| <= s.maxHvn && |r.lvn| <= s.maxLvn
    requires 0 < s.minMerge ==> SpacedOut(s.minMerge / s.binSize, r.hvn) && SpacedOut(s.minMerge / s.binSize, r.lvn)
    ensures Describes(dist, s, r)
  {
    hide Levels, Volumes, NonNegative, IsPoc, PD.Total, ValueAreaOf, Hvn, Lvn, SpacedOut;
  }

  lemma AreaFound(v: seq<int>, p: int, levels: seq<int>, lo: int, hi: int, r: Profile)
    requires |levels| == |v| && 0 <= p < |v| && ValueArea.NonNegative(v) && 0 <= lo <= hi < |v|
    requires (lo, hi) == ValueArea.Expand(v, p, p, Target(r.totalVolume))
    requires r.val == levels[lo] && r.vah == levels[hi] && r.valueAreaVolume == ValueArea.Sum(v, lo, hi + 1)
    ensures ValueAreaOf(v, p, levels, r)
  {
    hide ValueArea.NonNegative, ValueArea.Expand, ValueArea.Sum, Target;
  }

  lemma VolumesNonNegative(dist: map<int, int>)
    requires NonNegative(dist)
    ensures ValueArea.NonNegative(Volumes(dist))
  {
  }

  method Finalize(dist: map<int, int>, s: Settings) returns (r: Result)
    requires 0 < s.binSize && NonNegative(dist)
    ensures r.NoBins? <==> dist == map[]
    ensures r.DividedByZero? <==> dist != map[] && EmptyTroughs(dist, s)
    ensures r.Ok? ==> Describes(dist, s, r.profile)
  {
    hide Levels, Volumes, NonNegative, PD.Total, ValueAreaOf, Hvn, Lvn, SpacedOut, EmptyTroughs, Describes,
      ValueArea.Expand, ValueArea.Sum, Target;
    var levels, v := Levels(dist), Volumes(dist);
    NoLevels(dist);
    VolumesNonNegative(dist);
    if |levels| == 0 {
      return NoBins;
    }
    var total := SumVolumes(dist);
    var p := FindPoc(v);
    var lo, hi, volume := ValueArea.ExpandFrom(v, p, Target(total));
    var ok, hvn, lvn := FindNodes(dist, levels[p], s);
    if !ok {
      return Result.DividedByZero;
    }
    r := Ok(Profile(levels[p], levels[hi], levels[lo], total, volume, hvn, lvn));
    AreaFound(v, p, levels, lo, hi, r.profile);
    Assembled(dist, s, p, r.profile);
  }

  /** build: the profile of the bars, and the distribution that it carries. */
  method Build(bars: seq<PD.Bar>, s: Settings) returns (r: Result, dist: map<int, int>)
    requires 0 < s.binSize && forall b :: b in bars ==> 0 <= b.volume
    ensures PD.Tallied(dist, bars, s.binSize) && NonNegative(dist)
    ensures r.NoBins? <==> forall b :: b in bars ==> PD.BinCount(b, s.binSize) <= 0
    ensures r.DividedByZero? <==> dist != map[] && EmptyTroughs(dist, s)
    ensures r.Ok? ==> Describes(dist, s, r.profile)
  {
    hide PD.Tallied, PD.BinCount, EmptyTroughs, Describes;
    dist := PD.BuildDistribution(bars, s.binSize);
    PD.TallyEmpty(dist, bars, s.binSize);
    PD.TallyNonNegative(dist, bars, s.binSize);
    r := Finalize(dist, s);
  }

  /** build_from_trades: every trade has a bin, so only an empty list has no profile. */
  method BuildFromTrades(trades: seq<PD.Trade>, s: Settings)
    returns (r: Result, vol: map<int, int>, delta: map<int, int>)
    requires 0 < s.binSize && forall t :: t in trades ==> 0 <= t.size
    ensures vol.Keys == PD.TradedBins(trades, s.binSize) && NonNegative(vol)
    ensures forall k :: PD.Get(vol, k) == PD.TradeVolumeAt(trades, s.binSize, k)
    ensures forall k :: PD.Get(delta, k) == PD.DeltaAt(trades, s.binSize, k)
    ensures r.NoBins? <==> trades == []
    ensures r.DividedByZero? <==> trades != [] && EmptyTroughs(vol, s)
    ensures r.Ok? ==> Describes(vol, s, r.profile) && r.profile.totalVolume == PD.SumSizes(trades)
  {
    hide PD.Bin, EmptyTroughs, PD.SumSizes, PD.Total, PD.DeltaAt, PD.TradeVolumeAt;
    vol, delta := PD.BuildFromTrades(trades, s.binSize);
    forall k | k in vol
      ensures 0 <= vol[k]
    {
      PD.DeltaBounded(trades, s.binSize, k);
    }
    if trades != [] {
      assert PD.Bin(trades[|trades| - 1].price, s.binSize) in vol;
    }
    hide PD.TradedBins;
    r := Finalize(vol, s);
  }

  lemma OnePoc(v: seq<int>, p: int, q: int)
    requires IsPoc(v, p) && IsPoc(v, q)
    ensures p == q
  {
    assert v[p] <= v[q] <= v[p];
  }

  lemma PlaceBetween(levels: seq<int>, lo: nat, hi: nat, i: nat)
    requires StrictlySorted(levels) && lo <= hi < |levels| && i < |levels|
    ensures levels[lo] <= levels[i] <= levels[hi] <==> lo <= i <= hi
  {
  }

  lemma KeysBetween(levels: seq<int>, lo: nat, hi: nat, k: int)
    requires StrictlySorted(levels) && lo <= hi < |levels|
    ensures k in RangeKeys(levels, lo, hi + 1) <==> k in levels && levels[lo] <= k <= levels[hi]
  {
    hide StrictlySorted;
    RangeKeysIs(levels, lo, hi + 1, k);
    if k in levels {
      var i :| 0 <= i < |levels| && levels[i] == k;
      PlaceBetween(levels, lo, hi, i);
    }
    if k in RangeKeys(levels, lo, hi + 1) {
      var i :| lo <= i < hi + 1 && levels[i] == k;
      assert levels[i] in levels;
      PlaceBetween(levels, lo, hi, i);
    }
  }

  lemma LevelsBetween(levels: seq<int>, lo: nat, hi: nat, dist: map<int, int>)
    requires StrictlySorted(levels) && lo <= hi < |levels| && forall k :: k in dist <==> k in levels
    ensures RangeKeys(levels, lo, hi + 1) == set k | k in dist && levels[lo] <= k <= levels[hi]
  {
    hide RangeKeys, StrictlySorted;
    var keys := set k | k in dist && levels[lo] <= k <= levels[hi];
    forall k
      ensures k in RangeKeys(levels, lo, hi + 1) <==> k in keys
    {
      KeysBetween(levels, lo, hi, k);
      assert k in keys <==> k in dist && levels[lo] <= k <= levels[hi];
    }
    assert RangeKeys(levels, lo, hi + 1) == keys;
  }

  /** The POC is the lowest of the largest bins. */
  lemma PocSays(dist: map<int, int>, p: int)
    requires IsPoc(Volumes(dist), p)
    ensures var poc := Levels(dist)[p];
            poc in dist && forall k :: k in dist ==> dist[k] <= dist[poc] && (dist[k] == dist[poc] ==> poc <= k)
  {
    var levels, v, poc := Levels(dist), Volumes(dist), Levels(dist)[p];
    forall k | k in dist
      ensures dist[k] <= dist[poc] && (dist[k] == dist[poc] ==> poc <= k)
    {
      assert k in levels;
      var i :| 0 <= i < |levels| && levels[i] == k;
      hide Levels, Volumes;
      assert v[i] == dist[k] && v[p] == dist[poc];
    }
  }

  lemma AreaSays(dist: map<int, int>, p: int, r: Profile)
    requires ValueAreaOf(Volumes(dist), p, Levels(dist), r)
    ensures r.val in dist && r.vah in dist && r.val <= Levels(dist)[p] <= r.vah
    ensures r.valueAreaVolume == PD.SumKeys(dist, set k | k in dist && r.val <= k <= r.vah)
  {
    hide PD.SumKeys, ValueArea.Expand, ValueArea.Sum, ValueArea.NonNegative, Target, RangeKeys;
    var levels, v := Levels(dist), Volumes(dist);
    var (lo, hi) := ValueArea.Expand(v, p, p, Target(r.totalVolume));
    TotalOfRange(dist, levels, v, lo, hi + 1);
    LevelsBetween(levels, lo, hi, dist);
    PlaceBetween(levels, lo, hi, p);
    hide Levels, Volumes, StrictlySorted;
  }

  /**
   * What a profile says in terms of its distribution alone: the POC is the lowest
   * of the largest bins, the value area lies around it, and its volume is that of
   * all bins from val to vah.
   */
  lemma ProfileSays(dist: map<int, int>, s: Settings, r: Profile)
    requires 0 < s.binSize && NonNegative(dist) && Describes(dist, s, r)
    ensures r.poc in dist && r.val in dist && r.vah in dist && r.val <= r.poc <= r.vah
    ensures forall k :: k in dist ==> dist[k] <= dist[r.poc] && (dist[k] == dist[r.poc] ==> r.poc <= k)
    ensures r.valueAreaVolume == PD.SumKeys(dist, set k | k in dist && r.val <= k <= r.vah)
  {
    hide PD.SumKeys, Hvn, Lvn, SpacedOut, PD.Total, ValueAreaOf, Levels, Volumes, NonNegative;
    var p :| IsPoc(Volumes(dist), p) && r.poc == Levels(dist)[p] && ValueAreaOf(Volumes(dist), p, Levels(dist), r);
    PocSays(dist, p);
    AreaSays(dist, p, r);
  }

  lemma TargetReached(total: int, volume: int)
    ensures Target(total) <= volume <==> 7 * total <= 10 * volume
  {
    TargetIsCeiling(total);
  }

  lemma AreaOfPoc(dist: map<int, int>, s: Settings, r: Profile, p: int)
    requires 0 < s.binSize && NonNegative(dist) && Describes(dist, s, r) && IsPoc(Volumes(dist), p)
    ensures ValueAreaOf(Volumes(dist), p, Levels(dist), r)
  {
    hide Levels, Volumes, ValueAreaOf, Hvn, Lvn, SpacedOut, NonNegative, PD.Total;
    var v := Volumes(dist);
    var q :| IsPoc(v, q) && r.poc == Levels(dist)[q] && ValueAreaOf(v, q, Levels(dist), r);
    OnePoc(v, p, q);
  }

  lemma AreaReachesSeventy(v: seq<int>, p: int, levels: seq<int>, r: Profile, a: int, b: int)
    requires |levels| == |v| && ValueAreaOf(v, p, levels, r) && ValueArea.TradedRun(v, p, a, b)
    ensures 7 * r.totalVolume <= 10 * r.valueAreaVolume <==> 7 * r.totalVolume <= 10 * ValueArea.Sum(v, a, b + 1)
  {
    hide ValueArea.Expand, ValueArea.Sum, Target, ValueArea.NonNegative;
    ValueArea.ReachesTarget(v, p, Target(r.totalVolume), a, b);
    TargetReached(r.totalVolume, r.valueAreaVolume);
    TargetReached(r.totalVolume, ValueArea.Sum(v, a, b + 1));
  }

  /**
   * The value area holds 70 percent of the total if and only if the unbroken
   * run of traded bins around the POC does.
   */
  lemma SeventyPercentExactly(dist: map<int, int>, s: Settings, r: Profile, p: int, a: int, b: int)
    requires 0 < s.binSize && NonNegative(dist) && Describes(dist, s, r)
    requires IsPoc(Volumes(dist), p) && ValueArea.TradedRun(Volumes(dist), p, a, b)
    ensures 7 * r.totalVolume <= 10 * r.valueAreaVolume <==>
              7 * r.totalVolume <= 10 * ValueArea.Sum(Volumes(dist), a, b + 1)
  {
    AreaOfPoc(dist, s, r, p);
    AreaReachesSeventy(Volumes(dist), p, Levels(dist), r, a, b);
    hide *;
  }

  /** Such a run exists whenever anything was traded. */
  lemma RunAroundPoc(v: seq<int>, p: int) returns (a: int, b: int)
    requires 0 <= p < |v| && 0 < v[p] && ValueArea.NonNegative(v)
    ensures ValueArea.TradedRun(v, p, a, b)
  {
    a, b := p, p;
    while 0 < a && 0 < v[a - 1]
      invariant 0 <= a <= p && forall i :: a <= i <= p ==> 0 < v[i]
    {
      a := a - 1;
    }
    while b + 1 < |v| && 0 < v[b + 1]
      invariant p <= b < |v| && forall i :: a <= i <= b ==> 0 < v[i]
      decreases |v| - b
    {
      b := b + 1;
    }
  }

  /**
   * The node lists of a profile are prices of merged extremes: the peaks by
   * falling volume, the troughs by rising volume, each between two of the
   * extremes merged, with their whole volume.
   */
  lemma NodesOfProfile(dist: map<int, int>, s: Settings, r: Profile)
    requires 0 < s.binSize && NonNegative(dist) && Describes(dist, s, r) && !EmptyTroughs(dist, s)
    ensures var high, low := HighNodes(dist, r.poc, s), LowNodes(dist, s);
            && r.hvn <= Prices(high) && (forall x :: x in r.lvn ==> x in Prices(low))
            && Ranked(high, true) && Ranked(low, false)
            && SortedBy(high, (n: Node) => -n.vol) && SortedBy(low, (n: Node) => n.vol)
            && SumVol(high) == SumVol(Peaks(dist, r.poc)) && SumVol(low) == SumVol(Troughs(dist))
            && (forall m :: m in high ==> Bracketed(m, Peaks(dist, r.poc)))
            && (forall m :: m in low ==> Bracketed(m, Troughs(dist)))
  {
    var peaks, troughs := Peaks(dist, r.poc), Troughs(dist);
    PeaksNeverFail(dist, r.poc, s);
    RawPositive(dist, r.poc);
    FailsExactlyOnEmptyCluster(troughs, s.binSize, s.minMerge, false);
    ExtremesByPrice(dist, r.poc);
    hide *;
    Guaranteed(peaks, s, true);
    Guaranteed(troughs, s, false);
    MergedLists(dist, s, r);
  }

  lemma MergedLists(dist: map<int, int>, s: Settings, r: Profile)
    requires 0 < s.binSize && NonNegative(dist) && Describes(dist, s, r)
    ensures var high, low := HighNodes(dist, r.poc, s), LowNodes(dist, s);
            && high == NodesOf(MergeSpec(Peaks(dist, r.poc), s.binSize, s.minMerge, true))
            && low == NodesOf(MergeSpec(Troughs(dist), s.binSize, s.minMerge, false))
            && r.hvn <= Prices(high) && (forall x :: x in r.lvn ==> x in Prices(low))
  {
    hide Peaks, Troughs, MergeSpec, Levels, Volumes, IsPoc, ValueAreaOf, SpacedOut, PD.Total, NonNegative, NodesOf;
  }

  lemma {:induction false} SelectByPrice(levels: seq<int>, v: seq<int>, keep: int -> bool, n: nat)
    requires StrictlySorted(levels) && |levels| == |v| && n <= |v|
    ensures ByPrice(Select(levels, v, keep, n))
    ensures n < |v| ==> forall x :: x in Select(levels, v, keep, n) ==> x.price < levels[n]
  {
    if 0 < n {
      SelectByPrice(levels, v, keep, n - 1);
    }
  }

  lemma ExtremesByPrice(dist: map<int, int>, poc: int)
    ensures ByPrice(Peaks(dist, poc)) && ByPrice(Troughs(dist))
  {
    var levels, v := Levels(dist), Volumes(dist);
    SelectByPrice(levels, v, (i: int) => Peak(v, i) && levels[i] != poc, |v|);
    SelectByPrice(levels, v, (i: int) => Trough(v, i), |v|);
    hide Select;
  }

  /**
   * How the lists are cut: the first max_hvn prices of the merged peaks, and the
   * first max_lvn of the merged troughs that are not among them.
   */
  lemma ListsOfProfile(dist: map<int, int>, s: Settings, r: Profile)
    requires 0 < s.binSize && NonNegative(dist) && Describes(dist, s, r)
    ensures var high, low := Prices(HighNodes(dist, r.poc, s)), Prices(LowNodes(dist, s));
            && r.hvn <= high && |r.hvn| == (if |high| < s.maxHvn then |high| else s.maxHvn)
            && r.lvn <= Without(low, r.hvn)
            && (|r.lvn| < s.maxLvn ==> forall x :: x in low && x !in r.hvn ==> x in r.lvn)
            && |r.lvn| <= s.maxLvn
  {
    hide HighNodes, LowNodes, Levels, Volumes, IsPoc, ValueAreaOf, SpacedOut, PD.Total, NonNegative;
  }

  lemma Guaranteed(nodes: seq<Node>, s: Settings, descending: bool)
    requires 0 < s.binSize && Positive(nodes) && ByPrice(nodes)
    requires MergeSpec(nodes, s.binSize, s.minMerge, descending).Merged?
    ensures var ms := NodesOf(MergeSpec(nodes, s.binSize, s.minMerge, descending));
            && (if descending then SortedBy(ms, (n: Node) => -n.vol) else SortedBy(ms, (n: Node) => n.vol))
            && Ranked(ms, descending)
            && SumVol(ms) == SumVol(nodes) && (forall m :: m in ms ==> Bracketed(m, nodes))
  {
    hide MergeSpec, Bracketed, SumVol, Ranked;
    MergeGuarantees(nodes, s.binSize, s.minMerge, descending);
    MergeRanks(nodes, s.binSize, s.minMerge, descending);
  }

  // ---- A centre on the POC -----------------------------------------------------------------

  /** c has nodes below p and nodes above it. */
  ghost predicate Straddles(c: seq<Node>, p: int) {
    exists a, b :: a in c && b in c && a.price < p < b.price
  }

  lemma PeaksExcludePoc(dist: map<int, int>, poc: int)
    ensures forall n :: n in Peaks(dist, poc) ==> n.price != poc
  {
    var levels, v := Levels(dist), Volumes(dist);
    forall n | n in Peaks(dist, poc)
      ensures n.price != poc
    {
      SelectExactly(levels, v, (i: int) => Peak(v, i) && levels[i] != poc, |v|, n);
    }
  }

  lemma CentredStraddles(nodes: seq<Node>, gap: int, i: int, p: int)
    requires Positive(nodes) && 0 <= i < |NodeClusters(gap, nodes)| && (forall n :: n in nodes ==> n.price != p)
    requires 0 < SumVol(NodeClusters(gap, nodes)[i]) && CentredOn(NodeClusters(gap, nodes)[i], p)
    ensures Straddles(NodeClusters(gap, nodes)[i], p)
  {
    var c := NodeClusters(gap, nodes)[i];
    ClusterOf(gap, nodes, i);
    CenterInRange(c);
    CenterIsExactly(c, p);
    hide NodeClusters, CentredOn, SumVol, Center, Positive, ByPrice;
    assert c[0] in c && c[|c| - 1] in c;
    assert c[0].price < p < c[|c| - 1].price;
  }

  /**
   * Although peaks exclude the POC, it is the price of a merged peak if and
   * only if merging is on and the mean of some cluster of peaks rounds to it;
   * that cluster then has peaks on both sides of the POC.
   */
  lemma PocAmongCentresExactly(dist: map<int, int>, poc: int, s: Settings)
    requires 0 < s.binSize && NonNegative(dist)
    ensures var cs := NodeClusters(s.minMerge / s.binSize, Peaks(dist, poc));
            && (poc in Prices(HighNodes(dist, poc, s)) <==>
                  0 < s.minMerge && exists i :: 0 <= i < |cs| && CentredOn(cs[i], poc))
            && (forall i :: 0 <= i < |cs| && CentredOn(cs[i], poc) ==> Straddles(cs[i], poc))
            && (poc in Hvn(dist, poc, s) ==> poc in Prices(HighNodes(dist, poc, s)))
            && (|HighNodes(dist, poc, s)| <= s.maxHvn && poc in Prices(HighNodes(dist, poc, s)) ==>
                  poc in Hvn(dist, poc, s))
  {
    var peaks, gap := Peaks(dist, poc), s.minMerge / s.binSize;
    PeaksNeverFail(dist, poc, s);
    RawPositive(dist, poc);
    PeaksExcludePoc(dist, poc);
    hide Peaks;
    var cs := NodeClusters(gap, peaks);
    forall i | 0 <= i < |cs|
      ensures 0 < SumVol(cs[i])
    {
      PeakClusterHasVolume(peaks, gap, i);
    }
    forall i | 0 <= i < |cs| && CentredOn(cs[i], poc)
      ensures Straddles(cs[i], poc)
    {
      CentredStraddles(peaks, gap, i, poc);
    }
    if peaks == [] || s.minMerge <= 0 {
      UnmergedPrices(peaks, s, poc);
    } else {
      MergedPrices(peaks, s, poc);
    }
    hide *;
  }

  lemma PeakClusterHasVolume(peaks: seq<Node>, gap: int, i: int)
    requires (forall n :: n in peaks ==> 0 < n.vol) && 0 <= i < |NodeClusters(gap, peaks)|
    ensures 0 < SumVol(NodeClusters(gap, peaks)[i])
  {
    var c := NodeClusters(gap, peaks)[i];
    ClusterOf(gap, peaks, i);
    SumVolNonNegative(c);
    hide NodeClusters;
    assert c[0] in c;
  }

  lemma UnmergedPrices(peaks: seq<Node>, s: Settings, poc: int)
    requires 0 < s.binSize && (peaks == [] || s.minMerge <= 0) && forall n :: n in peaks ==> n.price != poc
    ensures poc !in Prices(NodesOf(MergeSpec(peaks, s.binSize, s.minMerge, true)))
    ensures peaks == [] ==> NodeClusters(s.minMerge / s.binSize, peaks) == []
  {
    SortIsSorted(peaks, (n: Node) => -n.vol);
    SortIsSorted(peaks, (n: Node) => n.price);
    var byVolume := (n: Node) => if true then -n.vol else n.vol;
    SortIsSorted(peaks, byVolume);
    var ms := NodesOf(MergeSpec(peaks, s.binSize, s.minMerge, true));
    assert forall m :: m in ms ==> m in peaks;
    assert forall i :: 0 <= i < |ms| ==> ms[i] in ms;
  }

  lemma MergedPrices(peaks: seq<Node>, s: Settings, poc: int)
    requires 0 < s.binSize && peaks != [] && 0 < s.minMerge
    requires var cs := NodeClusters(s.minMerge / s.binSize, peaks); forall i :: 0 <= i < |cs| ==> 0 < SumVol(cs[i])
    ensures var cs := NodeClusters(s.minMerge / s.binSize, peaks);
            poc in Prices(NodesOf(MergeSpec(peaks, s.binSize, s.minMerge, true))) <==>
              exists i :: 0 <= i < |cs| && CentredOn(cs[i], poc)
  {
    hide NodeClusters, CentredOn, SumVol, Center, Sort;
    var cs := NodeClusters(s.minMerge / s.binSize, peaks);
    var ms := NodesOf(MergeSpec(peaks, s.binSize, s.minMerge, true));
    var byVolume := (n: Node) => if true then -n.vol else n.vol;
    SortIsSorted(Centers(cs), byVolume);
    assert ms == Sort(Centers(cs), byVolume);
    hide MergeSpec;
    PriceAmong(ms, Centers(cs), poc);
    CentresOn(cs, poc);
  }

  lemma CentresOn(cs: seq<seq<Node>>, p: int)
    requires forall i :: 0 <= i < |cs| ==> 0 < SumVol(cs[i])
    ensures (exists i :: 0 <= i < |Centers(cs)| && Centers(cs)[i].price == p)
            <==> (exists i :: 0 <= i < |cs| && CentredOn(cs[i], p))
  {
    hide CentredOn, SumVol, Center;
    forall i | 0 <= i < |cs|
      ensures Centers(cs)[i].price == p <==> CentredOn(cs[i], p)
    {
      CenterIsExactly(cs[i], p);
    }
    if exists i :: 0 <= i < |cs| && CentredOn(cs[i], p) {
      var i :| 0 <= i < |cs| && CentredOn(cs[i], p);
      assert Centers(cs)[i].price == p;
    }
  }

  lemma PriceAmong(ms: seq<Node>, ns: seq<Node>, price: int)
    requires forall m :: m in ms <==> m in ns
    ensures price in Prices(ms) <==> exists i :: 0 <= i < |ns| && ns[i].price == price
  {
    if price in Prices(ms) {
      var i :| 0 <= i < |ms| && Prices(ms)[i] == price;
      assert ms[i] in ns;
    }
    if exists i :: 0 <= i < |ns| && ns[i].price == price {
      var i :| 0 <= i < |ns| && ns[i].price == price;
      assert ns[i] in ms;
      var k :| 0 <= k < |ms| && ms[k] == ns[i];
      assert Prices(ms)[k] == price;
    }
  }

  // ---- Concrete profiles ----------------------------------------------------------------------

  lemma OneCluster(a: Node, b: Node, gap: int)
    requires b.price - a.price <= gap
    ensures Clusters(gap, [a, b]) == [[a, b]]
  {
    assert [a][..0] == [] && [a, b][..1] == [a];
    assert Clusters(gap, []) == [];
    assert Clusters(gap, [a]) == [[a]];
    assert [[a]][..0] == [] && [a] + [b] == [a, b];
  }

  lemma SumsOfTwo(a: Node, b: Node)
    ensures SumVol([a, b]) == a.vol + b.vol && Weighted([a, b]) == a.price * a.vol + b.price * b.vol
  {
    assert [a, b][..1] == [a] && [a][..0] == [];
    assert SumVol([a]) == a.vol && Weighted([a]) == a.price * a.vol;
  }

  lemma LevelsAre(dist: map<int, int>, levels: seq<int>, v: seq<int>)
    requires StrictlySorted(levels) && |v| == |levels| && (forall k :: k in dist <==> k in levels)
    requires forall i :: 0 <= i < |levels| ==> levels[i] in dist && dist[levels[i]] == v[i]
    ensures Levels(dist) == levels && Volumes(dist) == v
  {
    SortedSeqUnique(Levels(dist), levels);
  }

  /** Two humps around the POC. */
  const TWO_HUMPS := map[2 := 1, 3 := 5, 4 := 1, 5 := 9, 6 := 1, 7 := 5, 8 := 1]

  lemma KeysOfTwoHumps(levels: seq<int>)
    requires levels == [2, 3, 4, 5, 6, 7, 8]
    ensures StrictlySorted(levels) && forall k :: k in TWO_HUMPS <==> k in levels
  {
  }

  lemma VolumesOfTwoHumps()
    ensures {2, 3, 4, 5, 6, 7, 8} <= TWO_HUMPS.Keys
    ensures TWO_HUMPS[2] == 1 && TWO_HUMPS[3] == 5 && TWO_HUMPS[4] == 1 && TWO_HUMPS[5] == 9
    ensures TWO_HUMPS[6] == 1 && TWO_HUMPS[7] == 5 && TWO_HUMPS[8] == 1
  {
  }

  lemma TwoHumps()
    ensures Levels(TWO_HUMPS) == [2, 3, 4, 5, 6, 7, 8] && Volumes(TWO_HUMPS) == [1, 5, 1, 9, 1, 5, 1]
  {
    hide TWO_HUMPS, Levels, Volumes, StrictlySorted;
    KeysOfTwoHumps([2, 3, 4, 5, 6, 7, 8]);
    VolumesOfTwoHumps();
    LevelsAre(TWO_HUMPS, [2, 3, 4, 5, 6, 7, 8], [1, 5, 1, 9, 1, 5, 1]);
  }

  lemma PeaksOfTwoHumps()
    ensures IsPoc(Volumes(TWO_HUMPS), 3) && Levels(TWO_HUMPS)[3] == 5
    ensures Peaks(TWO_HUMPS, 5) == [Node(3, 5), Node(7, 5)]
  {
    TwoHumps();
    hide Levels, Volumes;
    var levels, v := Levels(TWO_HUMPS), Volumes(TWO_HUMPS);
    var keep := (i: int) => Peak(v, i) && levels[i] != 5;
    assert !keep(0) && keep(1) && !keep(2) && !keep(3) && !keep(4) && keep(5) && !keep(6);
    assert Peaks(TWO_HUMPS, 5) == Select(levels, v, keep, 7);
    SelectSeven(levels, v, keep);
  }

  lemma SelectSeven(levels: seq<int>, v: seq<int>, keep: int -> bool)
    requires |levels| == |v| == 7
    requires !keep(0) && keep(1) && !keep(2) && !keep(3) && !keep(4) && keep(5) && !keep(6)
    ensures Select(levels, v, keep, 7) == [Node(levels[1], v[1]), Node(levels[5], v[5])]
  {
    assert Select(levels, v, keep, 1) == [];
    assert Select(levels, v, keep, 2) == [Node(levels[1], v[1])];
    assert Select(levels, v, keep, 4) == [Node(levels[1], v[1])];
    assert Select(levels, v, keep, 5) == [Node(levels[1], v[1])];
  }

  lemma SumsOfTwoHumps()
    ensures var nodes := [Node(3, 5), Node(7, 5)]; SumVol(nodes) == 10 && Weighted(nodes) == 50
  {
    SumsOfTwo(Node(3, 5), Node(7, 5));
    hide SumVol, Weighted;
  }

  /** Two nodes within the merge distance whose mean is 5. */
  lemma TwoHumpsMerge(gap: int)
    requires 4 <= gap
    ensures var nodes := [Node(3, 5), Node(7, 5)];
            NodeClusters(gap, nodes) == [nodes] && CentredOn(nodes, 5)
  {
    var nodes := [Node(3, 5), Node(7, 5)];
    SortFixed(nodes, (n: Node) => n.price);
    OneCluster(nodes[0], nodes[1], gap);
    SumsOfTwoHumps();
    hide Clusters, SumVol, Weighted, Sort;
  }

  /** As many merged nodes as clusters. */
  lemma NodesPerCluster(nodes: seq<Node>, s: Settings, descending: bool)
    requires 0 < s.binSize && 0 < s.minMerge
    ensures |NodesOf(MergeSpec(nodes, s.binSize, s.minMerge, descending))|
            <= |NodeClusters(s.minMerge / s.binSize, nodes)| + |nodes|
  {
    hide NodeClusters, SumVol;
  }

  /** Two peaks on either side of the POC of a distribution merge onto the POC,
      which is then listed as a high volume node. */
  lemma CentreMayBeThePoc()
    ensures var s := Settings(1, 8, 5, 5);
            && IsPoc(Volumes(TWO_HUMPS), 3) && Levels(TWO_HUMPS)[3] == 5
            && Peaks(TWO_HUMPS, 5) == [Node(3, 5), Node(7, 5)]
            && 5 in Hvn(TWO_HUMPS, 5, s)
  {
    var s, nodes := Settings(1, 8, 5, 5), [Node(3, 5), Node(7, 5)];
    assert NonNegative(TWO_HUMPS);
    PeaksOfTwoHumps();
    PocAmongCentresExactly(TWO_HUMPS, 5, s);
    TwoHumpsMerge(8);
    NodesPerCluster(nodes, s, true);
    assert [nodes][0] == nodes;
    hide Peaks, Levels, Volumes, NodeClusters, CentredOn, IsPoc, Hvn, MergeSpec, Straddles;
    var cs := NodeClusters(s.minMerge / s.binSize, Peaks(TWO_HUMPS, 5));
    assert cs == [nodes] && CentredOn(cs[0], 5);
  }

  /** A single node is a cluster of its own. */
  lemma OneNode(gap: int, n: Node)
    ensures NodeClusters(gap, [n]) == [[n]]
  {
    SortFixed([n], (n: Node) => n.price);
    hide Sort;
    assert [n][..0] == [];
    assert Clusters(gap, []) == [];
  }

  /** The distribution of the three bars of EmptyTroughFails. */
  const GAP := map[0 := 3, 1 := 0, 2 := 3]

  lemma TroughsOfGap()
    ensures Troughs(GAP) == [Node(1, 0)]
  {
    hide Levels, Volumes;
    LevelsAre(GAP, [0, 1, 2], [3, 0, 3]);
    var levels, v := Levels(GAP), Volumes(GAP);
    var keep := (i: int) => Trough(v, i);
    assert !keep(0) && keep(1) && !keep(2);
    assert Select(levels, v, keep, 1) == [];
    assert Select(levels, v, keep, 2) == [Node(1, 0)];
    assert Troughs(GAP) == Select(levels, v, keep, 3);
  }

  lemma GapFails(s: Settings)
    requires 0 < s.binSize && 0 < s.minMerge
    ensures EmptyTroughs(GAP, s)
  {
    TroughsOfGap();
    var gap, nodes := s.minMerge / s.binSize, [Node(1, 0)];
    OneNode(gap, Node(1, 0));
    hide Troughs, NodeClusters;
    var cs := NodeClusters(gap, nodes);
    assert cs[0] == nodes && AllEmpty(nodes);
  }

  /** Three valid bars, one of them with a single contract over two bins. */
  function GapBars(z: int): seq<PD.Bar> {
    [PD.Bar(0, z, 1), PD.Bar(0, 0, 2), PD.Bar(2 * z, 2 * z, 3)]
  }

  lemma BinsOfGap(z: int)
    requires 0 < z
    ensures PD.Bin(0, z) == 0 && PD.Bin(z, z) == 1 && PD.Bin(2 * z, z) == 2
  {
    assert (2 * z) / z == 2;
  }

  lemma SharesOfGap(z: int, k: int)
    requires 0 < z
    ensures PD.Share(PD.Bar(0, z, 1), z, k) == if k == 0 then 1 else 0
    ensures PD.Share(PD.Bar(0, 0, 2), z, k) == if k == 0 then 2 else 0
    ensures PD.Share(PD.Bar(2 * z, 2 * z, 3), z, k) == if k == 2 then 3 else 0
  {
    BinsOfGap(z);
    hide PD.Bin;
  }

  lemma VolumesOfGap(z: int, k: int)
    requires 0 < z
    ensures PD.BarVolumeAt(GapBars(z), z, k) == if k == 0 || k == 2 then 3 else 0
  {
    hide PD.Share;
    SharesOfGap(z, k);
    var bars := GapBars(z);
    assert bars[..2][..1][..0] == [] && bars[..2][..1] == [bars[0]] && bars[..2] == [bars[0], bars[1]];
    assert PD.BarVolumeAt([bars[0]], z, k) == PD.Share(bars[0], z, k);
  }

  lemma SpansOfGap(z: int, k: int)
    requires 0 < z
    ensures (exists i :: 0 <= i < |GapBars(z)| && PD.Spans(GapBars(z)[i], z, k)) <==> 0 <= k <= 2
  {
    BinsOfGap(z);
    hide PD.Bin;
    var bars := GapBars(z);
    assert PD.Spans(bars[0], z, k) <==> 0 <= k <= 1;
    assert PD.Spans(bars[2], z, k) <==> k == 2;
  }

  lemma GapBarsGiveGap(dist: map<int, int>, z: int)
    requires 0 < z && PD.Tallied(dist, GapBars(z), z)
    ensures dist == GAP
  {
    hide PD.BarVolumeAt, PD.BarVolume, PD.Spans, PD.Total, GapBars;
    forall k
      ensures k in dist <==> k in GAP
      ensures k in dist ==> dist[k] == GAP[k]
    {
      SpansOfGap(z, k);
      VolumesOfGap(z, k);
      assert PD.Get(dist, k) == PD.BarVolumeAt(GapBars(z), z, k);
    }
  }

  lemma VolumesAre(dist: map<int, int>)
    requires dist == GAP
    ensures Levels(dist) == [0, 1, 2] && Volumes(dist) == [3, 0, 3] && NonNegative(dist) && IsPoc(Volumes(dist), 0)
  {
    hide Levels, Volumes;
    LevelsAre(dist, [0, 1, 2], [3, 0, 3]);
  }

  /** Without merging, these bars give a profile whose value area holds half of the volume. */
  lemma GapMissesSeventy(dist: map<int, int>, s: Settings, r: Profile)
    requires 0 < s.binSize && s.minMerge <= 0 && PD.Tallied(dist, GapBars(s.binSize), s.binSize)
    ensures NonNegative(dist) && !EmptyTroughs(dist, s)
    ensures Describes(dist, s, r) ==> r.totalVolume == 6 && r.valueAreaVolume == 3
  {
    hide PD.Tallied, PD.Total, GapBars, Describes, NodeClusters, Levels, Volumes, Hvn, Lvn, IsPoc;
    GapBarsGiveGap(dist, s.binSize);
    VolumesAre(dist);
    if Describes(dist, s, r) {
      TotalOf(dist, s, r);
      AreaOfPoc(dist, s, r, 0);
      ValueArea.GapStopsExpansion(Target(6));
    }
  }

  lemma TotalOf(dist: map<int, int>, s: Settings, r: Profile)
    requires 0 < s.binSize && NonNegative(dist) && Describes(dist, s, r)
    ensures r.totalVolume == ValueArea.Sum(Volumes(dist), 0, |Volumes(dist)|)
  {
    hide PD.Total, Levels, Volumes, Hvn, Lvn, IsPoc, ValueAreaOf, SpacedOut;
    TotalIsSum(dist);
  }

  /** Whatever the bin size, three valid bars leave an empty bin between two
      traded ones, which is enough to make the merge of the troughs fail. */
  lemma EmptyTroughFails(dist: map<int, int>, s: Settings)
    requires 0 < s.binSize && 0 < s.minMerge && PD.Tallied(dist, GapBars(s.binSize), s.binSize)
    ensures dist == map[0 := 3, 1 := 0, 2 := 3] && EmptyTroughs(dist, s)
  {
    hide EmptyTroughs, PD.Tallied, GapBars;
    GapBarsGiveGap(dist, s.binSize);
    GapFails(s);
  }
}

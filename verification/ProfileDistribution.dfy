/**
 * The distribution of src/alpha/features/volume_profile.py: bar volume spread
 * over price bins with floor and remainder, and trade volume placed exactly.
 *
 * Prices are integers in the smallest price unit and a bin is named by its
 * index: bin k is the price k * binSize.
 */
module ProfileDistribution {
  import opened Arithmetic
  import opened Wrappers

  datatype Bar = Bar(low: int, high: int, volume: int)

  datatype TakerSide = Buy | Sell | Unknown

  datatype Trade = Trade(price: int, size: int, side: TakerSide)

  /** Decimal's ROUND_DOWN: towards zero. */
  function Bin(price: int, binSize: int): int
    requires 0 < binSize
  {
    if price >= 0 then price / binSize else -((-price) / binSize)
  }

  function BinCount(b: Bar, binSize: int): int
    requires 0 < binSize
  {
    Bin(b.high, binSize) - Bin(b.low, binSize) + 1
  }

  /** What bin k gets of one bar. */
  function Share(b: Bar, binSize: int, k: int): int
    requires 0 < binSize
  {
    var lo, n := Bin(b.low, binSize), BinCount(b, binSize);
    if n <= 0 || k < lo || lo + n <= k then 0
    else b.volume / n + (if k - lo < b.volume % n then 1 else 0)
  }

  predicate Spans(b: Bar, binSize: int, k: int)
    requires 0 < binSize
  {
    Bin(b.low, binSize) <= k <= Bin(b.high, binSize)
  }

  /** Two bins of one bar differ by at most one lot, the lower bin has more, and
      no share is negative unless the volume is. */
  lemma SharesEven(b: Bar, binSize: int, j: int, k: int)
    requires 0 < binSize && j <= k && Spans(b, binSize, j) && Spans(b, binSize, k)
    ensures Share(b, binSize, k) <= Share(b, binSize, j) <= Share(b, binSize, k) + 1
    ensures 0 <= b.volume ==> 0 <= Share(b, binSize, k)
  {
  }

  /** A valid bar (low <= high) has at least one bin. */
  lemma BinMonotone(p: int, q: int, binSize: int)
    requires 0 < binSize && p <= q
    ensures Bin(p, binSize) <= Bin(q, binSize)
  {
    if 0 <= p {
      DivMonotone(p, q, binSize);
    } else if q < 0 {
      DivMonotone(-q, -p, binSize);
    } else {
      DivMonotone(0, -p, binSize);
      DivMonotone(0, q, binSize);
    }
  }

  lemma DivMonotone(a: int, b: int, d: int)
    requires 0 < d && 0 <= a <= b
    ensures a / d <= b / d
  {
    var x, y := a / d, b / d;
    QuotientBounds(a, d);
    QuotientBounds(b, d);
    if y < x {
      MulMono(y + 1, x, d);
      Distribute(d, y, 1);
    }
  }

  lemma QuotientBounds(a: int, d: int)
    requires 0 < d
    ensures d * (a / d) <= a < d * (a / d) + d
  {
  }

  /** Bin k holds the prices from k * binSize up to the next boundary away from zero. */
  predicate Holds(k: int, binSize: int, price: int) {
    if 0 < k then k * binSize <= price < (k + 1) * binSize
    else if k < 0 then (k - 1) * binSize < price <= k * binSize
    else -binSize < price < binSize
  }

  lemma QuotientIs(a: int, d: int, k: int)
    requires 0 < d && 0 <= a
    ensures a / d == k <==> 0 <= k && k * d <= a < (k + 1) * d
  {
    QuotientBounds(a, d);
    var q := a / d;
    if 0 <= k && k * d <= a < (k + 1) * d {
      if k < q {
        MulMono(k + 1, q, d);
      } else if q < k {
        MulMono(q + 1, k, d);
      }
    }
  }

  /** A price is in exactly one bin, the one that `_bin` gives. */
  lemma BinHolds(price: int, binSize: int, k: int)
    requires 0 < binSize
    ensures Bin(price, binSize) == k <==> Holds(k, binSize, price)
    ensures 0 <= price ==> Bin(price, binSize) * binSize <= price < (Bin(price, binSize) + 1) * binSize
  {
    if 0 <= price {
      QuotientIs(price, binSize, k);
      QuotientIs(price, binSize, price / binSize);
      Below(k, price, binSize);
    } else {
      QuotientIs(-price, binSize, -k);
      Below(-k, -price, binSize);
      Mirrored(k, binSize, price);
    }
  }

  /** A negative bin lies below every price from zero on. */
  lemma Below(k: int, price: int, binSize: int)
    requires 0 < binSize && 0 <= price
    ensures k < 0 ==> k * binSize < 0
    ensures k == 0 ==> k * binSize == 0 && (k + 1) * binSize == binSize
  {
  }

  lemma Mirrored(k: int, binSize: int, price: int)
    ensures Holds(k, binSize, price) <==> Holds(-k, binSize, -price)
  {
    assert (-k) * binSize == -(k * binSize) && (-k + 1) * binSize == -((k - 1) * binSize);
    assert (-k - 1) * binSize == -((k + 1) * binSize);
  }

  /** A bar spans exactly the bins that hold one of its prices. */
  lemma SpansExactly(b: Bar, binSize: int, k: int)
    requires 0 < binSize && b.low <= b.high
    ensures Spans(b, binSize, k) <==> exists price :: b.low <= price <= b.high && Holds(k, binSize, price)
  {
    hide Bin, Holds;
    if Spans(b, binSize, k) {
      var price := PriceIn(b.low, b.high, binSize, k);
      BinHolds(price, binSize, k);
    }
    forall price | b.low <= price <= b.high && Holds(k, binSize, price)
      ensures Spans(b, binSize, k)
    {
      BinHolds(price, binSize, k);
      BinMonotone(b.low, price, binSize);
      BinMonotone(price, b.high, binSize);
    }
  }

  lemma QuotientSteps(a: int, d: int)
    requires 0 < d && 0 <= a
    ensures (a + 1) / d <= a / d + 1
  {
    var q, r := a / d, (a + 1) / d;
    QuotientBounds(a, d);
    QuotientBounds(a + 1, d);
    if q + 2 <= r {
      MulMono(q + 2, r, d);
      Distribute(d, q, 2);
    }
  }

  /** Prices one apart are at most one bin apart. */
  lemma BinSteps(price: int, binSize: int)
    requires 0 < binSize
    ensures Bin(price + 1, binSize) <= Bin(price, binSize) + 1
  {
    if 0 <= price {
      QuotientSteps(price, binSize);
    } else {
      QuotientSteps(-price - 1, binSize);
    }
  }

  lemma {:induction false} PriceIn(low: int, high: int, binSize: int, k: int) returns (price: int)
    requires 0 < binSize && low <= high && Bin(low, binSize) <= k <= Bin(high, binSize)
    ensures low <= price <= high && Bin(price, binSize) == k
    decreases high - low
  {
    hide Bin;
    if Bin(low, binSize) == k {
      price := low;
    } else {
      BinSteps(low, binSize);
      price := PriceIn(low + 1, high, binSize, k);
    }
  }

  // ---- Sums over a map -----------------------------------------------------------

  function Get(m: map<int, int>, k: int): int { if k in m then m[k] else 0 }

  ghost function SumKeys(m: map<int, int>, ks: set<int>): int
    requires ks <= m.Keys
  {
    if ks == {} then 0 else var k := Pick(ks); m[k] + SumKeys(m, ks - {k})
  }

  /** sum(dist.values()) */
  ghost function Total(m: map<int, int>): int { SumKeys(m, m.Keys) }

  lemma {:induction false} SumKeysPick(m: map<int, int>, ks: set<int>, k: int)
    requires ks <= m.Keys && k in ks
    ensures SumKeys(m, ks) == m[k] + SumKeys(m, ks - {k})
    decreases ks
  {
    var p := Pick(ks);
    if p != k {
      SumKeysPick(m, ks - {p}, k);
      SumKeysPick(m, ks - {k}, p);
      assert ks - {p} - {k} == ks - {k} - {p};
    }
  }

  lemma {:induction false} SumKeysSame(m: map<int, int>, n: map<int, int>, ks: set<int>)
    requires ks <= m.Keys && ks <= n.Keys && forall k :: k in ks ==> m[k] == n[k]
    ensures SumKeys(m, ks) == SumKeys(n, ks)
    decreases ks
  {
    if ks != {} {
      var k := Pick(ks);
      SumKeysPick(m, ks, k);
      SumKeysPick(n, ks, k);
      SumKeysSame(m, n, ks - {k});
    }
  }

  /** `dist[k] = dist.get(k, 0) + x` adds x to the total. */
  lemma TotalAdd(m: map<int, int>, k: int, x: int)
    ensures Total(m[k := Get(m, k) + x]) == Total(m) + x
  {
    var n := m[k := Get(m, k) + x];
    SumKeysPick(n, n.Keys, k);
    SumKeysSame(n, m, m.Keys - {k});
    assert n.Keys - {k} == m.Keys - {k};
    if k in m {
      SumKeysPick(m, m.Keys, k);
    } else {
      assert m.Keys - {k} == m.Keys;
    }
  }

  // ---- Bars --------------------------------------------------------------------------

  /** Bin k's volume over all bars. */
  function BarVolumeAt(bars: seq<Bar>, binSize: int, k: int): int
    requires 0 < binSize
  {
    if bars == [] then 0
    else BarVolumeAt(bars[..|bars| - 1], binSize, k) + Share(bars[|bars| - 1], binSize, k)
  }

  /** The volume of the bars that have a bin at all. */
  function BarVolume(bars: seq<Bar>, binSize: int): int
    requires 0 < binSize
  {
    if bars == [] then 0
    else
      var b := bars[|bars| - 1];
      BarVolume(bars[..|bars| - 1], binSize) + (if 0 < BinCount(b, binSize) then b.volume else 0)
  }

  /** dist before bar b has reached bin next. */
  ghost predicate PartlySpread(dist: map<int, int>, was: map<int, int>, b: Bar, binSize: int, next: int)
    requires 0 < binSize
  {
    && (forall k :: k in dist <==> k in was || (Spans(b, binSize, k) && k < next))
    && (forall k :: k in dist ==> dist[k] == Get(was, k) + if k < next then Share(b, binSize, k) else 0)
  }

  lemma SpreadStart(was: map<int, int>, b: Bar, binSize: int)
    requires 0 < binSize
    ensures PartlySpread(was, was, b, binSize, Bin(b.low, binSize))
  {
    hide Bin;
  }

  lemma SpreadStep(dist: map<int, int>, was: map<int, int>, b: Bar, binSize: int, k: int)
    requires 0 < binSize && 0 < BinCount(b, binSize) && Spans(b, binSize, k) && PartlySpread(dist, was, b, binSize, k)
    ensures PartlySpread(dist[k := Get(dist, k) + Share(b, binSize, k)], was, b, binSize, k + 1)
  {
    hide Share;
  }

  lemma ShareAt(b: Bar, binSize: int, i: int)
    requires 0 < binSize && 0 <= i < BinCount(b, binSize)
    ensures var n := BinCount(b, binSize);
            Share(b, binSize, Bin(b.low, binSize) + i) == b.volume / n + if i < b.volume % n then 1 else 0
  {
  }

  /** What the first i bins of a bar get together. */
  function Given(volume: int, n: int, i: int): int
    requires 0 < n
  {
    volume / n * i + if i < volume % n then i else volume % n
  }

  lemma GivenStep(volume: int, n: int, i: int)
    requires 0 < n && 0 <= i
    ensures Given(volume, n, i + 1) == Given(volume, n, i) + volume / n + if i < volume % n then 1 else 0
  {
    Distribute(volume / n, i, 1);
  }

  lemma GivenAll(volume: int, n: int)
    requires 0 < n
    ensures Given(volume, n, 0) == 0 && Given(volume, n, n) == volume
    ensures volume - volume / n * n == volume % n
  {
  }

  /** The inner loop: floor shares, one more for the first `remainder` bins. */
  method SpreadBar(was: map<int, int>, b: Bar, binSize: int) returns (dist: map<int, int>)
    requires 0 < binSize && 0 < BinCount(b, binSize)
    ensures PartlySpread(dist, was, b, binSize, Bin(b.high, binSize) + 1)
    ensures Total(dist) == Total(was) + b.volume
  {
    hide PartlySpread, Total, Share, Get, Bin, Given;
    var lo, n := Bin(b.low, binSize), BinCount(b, binSize);
    var base := b.volume / n;
    var remainder := b.volume - base * n;
    GivenAll(b.volume, n);
    dist := was;
    SpreadStart(was, b, binSize);
    var i := 0;
    while i < n
      invariant 0 <= i <= n
      invariant PartlySpread(dist, was, b, binSize, lo + i)
      invariant Total(dist) == Total(was) + Given(b.volume, n, i)
    {
      var alloc := base + (if i < remainder then 1 else 0);
      ShareAt(b, binSize, i);
      TotalAdd(dist, lo + i, alloc);
      SpreadStep(dist, was, b, binSize, lo + i);
      dist := dist[lo + i := Get(dist, lo + i) + alloc];
      GivenStep(b.volume, n, i);
      i := i + 1;
    }
  }

  /** The distribution of the bars: each bin holds its shares and nothing is lost. */
  ghost predicate Tallied(dist: map<int, int>, bars: seq<Bar>, binSize: int)
    requires 0 < binSize
  {
    && (forall k :: k in dist <==> exists i :: 0 <= i < |bars| && Spans(bars[i], binSize, k))
    && (forall k :: Get(dist, k) == BarVolumeAt(bars, binSize, k))
    && Total(dist) == BarVolume(bars, binSize)
  }

  lemma SpansGrow(bars: seq<Bar>, b: Bar, binSize: int, k: int)
    requires 0 < binSize
    ensures (exists i :: 0 <= i < |bars + [b]| && Spans((bars + [b])[i], binSize, k))
            <==> (exists i :: 0 <= i < |bars| && Spans(bars[i], binSize, k)) || Spans(b, binSize, k)
  {
    hide Spans;
    var more := bars + [b];
    assert more[|bars|] == b;
    assert forall i :: 0 <= i < |bars| ==> more[i] == bars[i];
  }

  lemma SumsGrow(bars: seq<Bar>, b: Bar, binSize: int)
    requires 0 < binSize
    ensures forall k :: BarVolumeAt(bars + [b], binSize, k) == BarVolumeAt(bars, binSize, k) + Share(b, binSize, k)
    ensures BarVolume(bars + [b], binSize)
            == BarVolume(bars, binSize) + if 0 < BinCount(b, binSize) then b.volume else 0
  {
    hide Share;
    assert (bars + [b])[..|bars|] == bars;
  }

  /** dist is `was` with the shares of b, if b has bins at all. */
  ghost predicate BarAdded(was: map<int, int>, dist: map<int, int>, b: Bar, binSize: int)
    requires 0 < binSize
  {
    && (0 < BinCount(b, binSize) ==> PartlySpread(dist, was, b, binSize, Bin(b.high, binSize) + 1))
    && (BinCount(b, binSize) <= 0 ==> dist == was)
  }

  lemma TallyKey(was: map<int, int>, dist: map<int, int>, bars: seq<Bar>, b: Bar, binSize: int, k: int)
    requires 0 < binSize && Tallied(was, bars, binSize)
    requires BarAdded(was, dist, b, binSize)
    ensures k in dist <==> exists i :: 0 <= i < |bars + [b]| && Spans((bars + [b])[i], binSize, k)
  {
    hide BarVolumeAt, BarVolume, Total, Bin, Share;
    SpansGrow(bars, b, binSize, k);
    assert k in was <==> exists i :: 0 <= i < |bars| && Spans(bars[i], binSize, k);
  }

  lemma TallyVolume(was: map<int, int>, dist: map<int, int>, bars: seq<Bar>, b: Bar, binSize: int, k: int)
    requires 0 < binSize && Tallied(was, bars, binSize)
    requires BarAdded(was, dist, b, binSize)
    ensures Get(dist, k) == BarVolumeAt(bars, binSize, k) + Share(b, binSize, k)
  {
    hide BarVolumeAt, BarVolume, Total, Bin;
    assert Get(was, k) == BarVolumeAt(bars, binSize, k);
    ShareOutside(b, binSize, k);
    hide Share;
  }

  lemma ShareOutside(b: Bar, binSize: int, k: int)
    requires 0 < binSize
    ensures BinCount(b, binSize) <= 0 || !Spans(b, binSize, k) ==> Share(b, binSize, k) == 0
  {
    hide Bin;
  }

  lemma AddedBar(was: map<int, int>, dist: map<int, int>, b: Bar, binSize: int)
    requires 0 < binSize
    requires 0 < BinCount(b, binSize) ==> PartlySpread(dist, was, b, binSize, Bin(b.high, binSize) + 1)
    requires BinCount(b, binSize) <= 0 ==> dist == was
    ensures BarAdded(was, dist, b, binSize)
  {
  }

  lemma TallyBar(was: map<int, int>, dist: map<int, int>, bars: seq<Bar>, b: Bar, binSize: int)
    requires 0 < binSize && Tallied(was, bars, binSize)
    requires BarAdded(was, dist, b, binSize)
    requires Total(dist) == Total(was) + if 0 < BinCount(b, binSize) then b.volume else 0
    ensures Tallied(dist, bars + [b], binSize)
  {
    hide BarVolumeAt, BarVolume, Total, Bin, Share, Spans, BarAdded, Get, BinCount;
    SumsGrow(bars, b, binSize);
    forall k
      ensures k in dist <==> exists i :: 0 <= i < |bars + [b]| && Spans((bars + [b])[i], binSize, k)
    {
      TallyKey(was, dist, bars, b, binSize, k);
    }
    forall k
      ensures Get(dist, k) == BarVolumeAt(bars + [b], binSize, k)
    {
      TallyVolume(was, dist, bars, b, binSize, k);
    }
  }

  /**
   * Every bin some bar spans gets exactly its shares, and the distribution
   * neither inflates nor loses volume.
   */
  method BuildDistribution(bars: seq<Bar>, binSize: int) returns (dist: map<int, int>)
    requires 0 < binSize
    ensures forall k :: k in dist <==> exists i :: 0 <= i < |bars| && Spans(bars[i], binSize, k)
    ensures forall k :: k in dist ==> dist[k] == BarVolumeAt(bars, binSize, k)
    ensures Total(dist) == BarVolume(bars, binSize)
    ensures Tallied(dist, bars, binSize)
  {
    dist := map[];
    var j := 0;
    while j < |bars|
      invariant 0 <= j <= |bars|
      invariant Tallied(dist, bars[..j], binSize)
    {
      hide *;
      var b := bars[j];
      ghost var was := dist;
      assert bars[..j + 1] == bars[..j] + [b];
      if 0 < BinCount(b, binSize) {
        dist := SpreadBar(dist, b, binSize);
      }
      AddedBar(was, dist, b, binSize);
      TallyBar(was, dist, bars[..j], b, binSize);
      j := j + 1;
    }
    assert bars[..|bars|] == bars;
    hide Spans, BarVolumeAt, BarVolume, Total;
  }

  /** There is a bin exactly where some valid bar has a price. */
  lemma BinsOfBars(dist: map<int, int>, bars: seq<Bar>, binSize: int, k: int)
    requires 0 < binSize && Tallied(dist, bars, binSize) && forall b :: b in bars ==> b.low <= b.high
    ensures k in dist <==>
              exists i, price :: 0 <= i < |bars| && bars[i].low <= price <= bars[i].high && Holds(k, binSize, price)
  {
    hide Spans, BarVolumeAt, BarVolume, Total, Holds;
    if k in dist {
      var i :| 0 <= i < |bars| && Spans(bars[i], binSize, k);
      assert bars[i] in bars;
      SpansExactly(bars[i], binSize, k);
    }
    forall i, price | 0 <= i < |bars| && bars[i].low <= price <= bars[i].high && Holds(k, binSize, price)
      ensures k in dist
    {
      assert bars[i] in bars;
      SpansExactly(bars[i], binSize, k);
    }
  }

  /** Bars without negative volume leave none in any bin. */
  lemma TallyNonNegative(dist: map<int, int>, bars: seq<Bar>, binSize: int)
    requires 0 < binSize && Tallied(dist, bars, binSize) && forall b :: b in bars ==> 0 <= b.volume
    ensures forall k :: k in dist ==> 0 <= dist[k]
  {
    hide Spans, BarVolumeAt, BarVolume, Total;
    forall k | k in dist
      ensures 0 <= dist[k]
    {
      BarVolumeNonNegative(bars, binSize, k);
      assert Get(dist, k) == BarVolumeAt(bars, binSize, k);
    }
  }

  lemma {:induction false} BarVolumeNonNegative(bars: seq<Bar>, binSize: int, k: int)
    requires 0 < binSize && forall b :: b in bars ==> 0 <= b.volume
    ensures 0 <= BarVolumeAt(bars, binSize, k)
  {
    if bars != [] {
      var n := |bars| - 1;
      assert bars[n] in bars;
      BarVolumeNonNegative(bars[..n], binSize, k);
      ShareNonNegative(bars[n], binSize, k);
    }
  }

  lemma ShareNonNegative(b: Bar, binSize: int, k: int)
    requires 0 < binSize && 0 <= b.volume
    ensures 0 <= Share(b, binSize, k)
  {
    hide Bin;
  }

  /** There is a bin exactly when some bar has one. */
  lemma TallyEmpty(dist: map<int, int>, bars: seq<Bar>, binSize: int)
    requires 0 < binSize && Tallied(dist, bars, binSize)
    ensures dist == map[] <==> forall b :: b in bars ==> BinCount(b, binSize) <= 0
  {
    hide BarVolumeAt, BarVolume, Total, Bin;
    if dist == map[] {
      forall b | b in bars
        ensures BinCount(b, binSize) <= 0
      {
        var i :| 0 <= i < |bars| && bars[i] == b;
        var k := Bin(b.low, binSize);
        assert k !in dist;
        assert !Spans(bars[i], binSize, k);
      }
    }
    if exists k :: k in dist {
      var k :| k in dist;
      var i :| 0 <= i < |bars| && Spans(bars[i], binSize, k);
      assert bars[i] in bars && 0 < BinCount(bars[i], binSize);
    }
  }

  /** For valid bars nothing is left out: the total is the sum of the volumes. */
  lemma {:induction false} ValidBarsKeepVolume(bars: seq<Bar>, binSize: int)
    requires 0 < binSize && forall b :: b in bars ==> b.low <= b.high
    ensures BarVolume(bars, binSize) == SumVolumes(bars)
  {
    if bars != [] {
      var b := bars[|bars| - 1];
      assert b in bars;
      BinMonotone(b.low, b.high, binSize);
      ValidBarsKeepVolume(bars[..|bars| - 1], binSize);
    }
  }

  function SumVolumes(bars: seq<Bar>): int {
    if bars == [] then 0 else SumVolumes(bars[..|bars| - 1]) + bars[|bars| - 1].volume
  }

  // ---- Trades --------------------------------------------------------------------------

  function SumSizes(trades: seq<Trade>): int {
    if trades == [] then 0 else SumSizes(trades[..|trades| - 1]) + trades[|trades| - 1].size
  }

  ghost function TradedBins(trades: seq<Trade>, binSize: int): set<int>
    requires 0 < binSize
  {
    if trades == [] then {}
    else TradedBins(trades[..|trades| - 1], binSize) + {Bin(trades[|trades| - 1].price, binSize)}
  }

  /** Volume of the trades in bin k, and buys minus sells. */
  function TradeVolumeAt(trades: seq<Trade>, binSize: int, k: int): int
    requires 0 < binSize
  {
    if trades == [] then 0
    else
      var t := trades[|trades| - 1];
      TradeVolumeAt(trades[..|trades| - 1], binSize, k) + (if Bin(t.price, binSize) == k then t.size else 0)
  }

  function DeltaAt(trades: seq<Trade>, binSize: int, k: int): int
    requires 0 < binSize
  {
    if trades == [] then 0
    else
      var t := trades[|trades| - 1];
      DeltaAt(trades[..|trades| - 1], binSize, k)
      + (if Bin(t.price, binSize) != k || t.side.Unknown? then 0 else if t.side.Buy? then t.size else -t.size)
  }

  /** The sizes of the trades on the given sides at the prices that bin k holds. */
  function SizeIn(trades: seq<Trade>, binSize: int, k: int, sides: set<TakerSide>): int {
    if trades == [] then 0
    else
      var t := trades[|trades| - 1];
      SizeIn(trades[..|trades| - 1], binSize, k, sides)
      + (if Holds(k, binSize, t.price) && t.side in sides then t.size else 0)
  }

  /** A bin's volume is what was traded in its price range, its delta what was bought there less what was sold. */
  lemma {:induction false} TradesByPrice(trades: seq<Trade>, binSize: int, k: int)
    requires 0 < binSize
    ensures TradeVolumeAt(trades, binSize, k) == SizeIn(trades, binSize, k, {Buy, Sell, Unknown})
    ensures DeltaAt(trades, binSize, k) == SizeIn(trades, binSize, k, {Buy}) - SizeIn(trades, binSize, k, {Sell})
  {
    hide Bin, Holds;
    if trades != [] {
      var t := trades[|trades| - 1];
      TradesByPrice(trades[..|trades| - 1], binSize, k);
      BinHolds(t.price, binSize, k);
      match t.side
      case Buy =>
      case Sell =>
      case Unknown =>
    }
  }

  /** The dictionaries after the trades ts. */
  ghost predicate VolumeTally(vol: map<int, int>, ts: seq<Trade>, binSize: int)
    requires 0 < binSize
  {
    && vol.Keys == TradedBins(ts, binSize)
    && (forall k :: Get(vol, k) == TradeVolumeAt(ts, binSize, k))
    && Total(vol) == SumSizes(ts)
  }

  ghost predicate DeltaTally(delta: map<int, int>, ts: seq<Trade>, binSize: int)
    requires 0 < binSize
  {
    && delta.Keys <= TradedBins(ts, binSize)
    && (forall k :: Get(delta, k) == DeltaAt(ts, binSize, k))
  }

  function AddDelta(delta: map<int, int>, b: int, t: Trade): map<int, int> {
    match t.side
    case Buy => delta[b := Get(delta, b) + t.size]
    case Sell => delta[b := Get(delta, b) - t.size]
    case Unknown => delta
  }

  lemma VolumeAdd(vol: map<int, int>, ts: seq<Trade>, t: Trade, binSize: int)
    requires 0 < binSize && VolumeTally(vol, ts, binSize)
    ensures var b := Bin(t.price, binSize);
            VolumeTally(vol[b := Get(vol, b) + t.size], ts + [t], binSize)
  {
    var b := Bin(t.price, binSize);
    OneMoreTrade(ts, t, binSize);
    TotalAdd(vol, b, t.size);
    var v := vol[b := Get(vol, b) + t.size];
    hide TradedBins, TradeVolumeAt, Total, SumSizes, Bin;
    assert v.Keys == vol.Keys + {b};
    forall k
      ensures Get(v, k) == TradeVolumeAt(ts + [t], binSize, k)
    {
      assert Get(vol, k) == TradeVolumeAt(ts, binSize, k);
    }
  }

  lemma OneMoreTrade(ts: seq<Trade>, t: Trade, binSize: int)
    requires 0 < binSize
    ensures var more, b := ts + [t], Bin(t.price, binSize);
            && TradedBins(more, binSize) == TradedBins(ts, binSize) + {b}
            && SumSizes(more) == SumSizes(ts) + t.size
            && forall k :: TradeVolumeAt(more, binSize, k)
                           == TradeVolumeAt(ts, binSize, k) + if k == b then t.size else 0
  {
    assert (ts + [t])[..|ts|] == ts;
    hide Bin;
  }

  lemma DeltaAdd(delta: map<int, int>, ts: seq<Trade>, t: Trade, binSize: int)
    requires 0 < binSize && DeltaTally(delta, ts, binSize)
    ensures DeltaTally(AddDelta(delta, Bin(t.price, binSize), t), ts + [t], binSize)
  {
    assert (ts + [t])[..|ts + [t]| - 1] == ts;
  }

  /** Every trade is in the bin of its price; delta is buys minus sells. */
  method BuildFromTrades(trades: seq<Trade>, binSize: int) returns (vol: map<int, int>, delta: map<int, int>)
    requires 0 < binSize
    ensures vol.Keys == TradedBins(trades, binSize) && delta.Keys <= vol.Keys
    ensures forall k :: Get(vol, k) == TradeVolumeAt(trades, binSize, k)
    ensures forall k :: Get(delta, k) == DeltaAt(trades, binSize, k)
    ensures Total(vol) == SumSizes(trades)
    ensures forall k :: Get(vol, k) == SizeIn(trades, binSize, k, {Buy, Sell, Unknown})
    ensures forall k :: Get(delta, k) == SizeIn(trades, binSize, k, {Buy}) - SizeIn(trades, binSize, k, {Sell})
  {
    vol, delta := map[], map[];
    var j := 0;
    while j < |trades|
      invariant 0 <= j <= |trades|
      invariant VolumeTally(vol, trades[..j], binSize) && DeltaTally(delta, trades[..j], binSize)
    {
      var t := trades[j];
      var b := Bin(t.price, binSize);
      VolumeAdd(vol, trades[..j], t, binSize);
      DeltaAdd(delta, trades[..j], t, binSize);
      assert trades[..j] + [t] == trades[..j + 1];
      vol := vol[b := Get(vol, b) + t.size];
      if t.side == Buy {
        delta := delta[b := Get(delta, b) + t.size];
      } else if t.side == Sell {
        delta := delta[b := Get(delta, b) - t.size];
      }
      j := j + 1;
    }
    assert trades[..|trades|] == trades;
    forall k
      ensures Get(vol, k) == SizeIn(trades, binSize, k, {Buy, Sell, Unknown})
      ensures Get(delta, k) == SizeIn(trades, binSize, k, {Buy}) - SizeIn(trades, binSize, k, {Sell})
    {
      TradesByPrice(trades, binSize, k);
    }
  }

  /** In every bin the delta is at most the volume, and equals it (up to sign)
      exactly when all of it was taken on one side. */
  lemma {:induction false} DeltaBounded(trades: seq<Trade>, binSize: int, k: int)
    requires 0 < binSize && forall t :: t in trades ==> 0 <= t.size
    ensures -TradeVolumeAt(trades, binSize, k) <= DeltaAt(trades, binSize, k) <= TradeVolumeAt(trades, binSize, k)
    ensures DeltaAt(trades, binSize, k) == TradeVolumeAt(trades, binSize, k) <==>
              forall t :: t in trades && Bin(t.price, binSize) == k && 0 < t.size ==> t.side.Buy?
  {
    if trades != [] {
      var rest, t := trades[..|trades| - 1], trades[|trades| - 1];
      assert trades == rest + [t];
      assert t in trades;
      DeltaBounded(rest, binSize, k);
    }
  }
}

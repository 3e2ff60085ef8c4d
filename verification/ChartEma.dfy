/** One EMA line: buildEmaData, and the two cached states of the live branch. */
module ChartEma {
  import opened Wrappers
  import opened Arithmetic
  import opened ChartSeries

  datatype State = State(value: real, index: nat)

  function Alpha(period: nat): real { 2.0 / (period as real + 1.0) }

  function Smooth(period: nat, close: real, previous: real): real {
    close * Alpha(period) + previous * (1.0 - Alpha(period))
  }

  /** The average after all bars; the first close starts it. */
  function Ema(bars: seq<Bar>, period: nat): real
    requires bars != []
  {
    var last := bars[|bars| - 1];
    if |bars| == 1 then last.close else Smooth(period, last.close, Ema(bars[..|bars| - 1], period))
  }

  /** The line starts with bar number `period`. */
  function Line(bars: seq<Bar>, period: nat): (r: seq<Point>)
    ensures r != [] ==> bars != [] && r[|r| - 1].time == bars[|bars| - 1].t
    ensures r == [] <==> bars == [] || |bars| < period
  {
    if bars == [] || |bars| < period then []
    else Line(bars[..|bars| - 1], period) + [Point(bars[|bars| - 1].t, Ema(bars, period))]
  }

  function LastState(bars: seq<Bar>, period: nat): Option<State> {
    if bars == [] then None else Some(State(Ema(bars, period), |bars| - 1))
  }

  lemma PrefixStep(items: seq<Bar>, i: nat, period: nat)
    requires i < |items| && 0 < period
    ensures var next := Ema(items[..i + 1], period);
            && next == (if i == 0 then items[0].close else Smooth(period, items[i].close, Ema(items[..i], period)))
            && Line(items[..i + 1], period)
               == Line(items[..i], period) + if i >= period - 1 then [Point(items[i].t, next)] else []
  {
    assert items[..i + 1][..i] == items[..i];
    hide Smooth;
  }

  /** The loop of buildEmaData. */
  method BuildEmaData(bars: seq<Bar>, period: nat) returns (data: seq<Point>, preLast: Option<State>, last: Option<State>)
    requires 0 < period
    ensures var items := SortedDeduped(bars);
            && data == Line(items, period)
            && last == LastState(items, period)
            && preLast == if |items| < 2 then None else LastState(items[..|items| - 1], period)
  {
    var items := SortedDeduped(bars);
    if |items| == 0 {
      return [], None, None;
    }
    assert Line(items[..0], period) == [];
    hide Ema, Line, Smooth, SortedDeduped, Increasing;
    var ema := items[0].close;
    data, preLast := [], None;
    var i := 0;
    while i < |items|
      invariant 0 <= i <= |items|
      invariant ema == if i == 0 then items[0].close else Ema(items[..i], period)
      invariant data == Line(items[..i], period)
      invariant preLast == if i < |items| || i < 2 then None else LastState(items[..|items| - 1], period)
    {
      PrefixStep(items, i, period);
      if i == |items| - 1 && i > 0 {
        preLast := Some(State(ema, i - 1));
      }
      ema := if i == 0 then items[i].close else Smooth(period, items[i].close, ema);
      if i >= period - 1 {
        data := data + [Point(items[i].t, ema)];
      }
      i := i + 1;
    }
    assert items[..i] == items;
    last := Some(State(ema, |items| - 1));
  }

  // ---- What the average is ------------------------------------------------------------------

  function Power(x: real, n: nat): real { if n == 0 then 1.0 else x * Power(x, n - 1) }

  /** What is left of a weight one bar later. */
  function Decay(period: nat): real { (period as real - 1.0) / (period as real + 1.0) }

  /** What a bar's close counts for `age` bars later. */
  function Weight(period: nat, age: nat): real { 2.0 / (period as real + 1.0) * Power(Decay(period), age) }

  /** The closes of the bars from number i on, weighted by their age at the end. */
  function WeightedCloses(bars: seq<Bar>, period: nat, i: nat): real
    requires i <= |bars|
    decreases |bars| - i
  {
    if i == |bars| then 0.0
    else Weight(period, |bars| - 1 - i) * bars[i].close + WeightedCloses(bars, period, i + 1)
  }

  lemma DecayIs(period: nat)
    ensures Decay(period) == 1.0 - Alpha(period)
  {
    var x := period as real + 1.0;
    assert 1.0 == x / x;
  }

  lemma WeightAges(period: nat, age: nat)
    ensures Weight(period, age + 1) == Weight(period, age) * Decay(period)
    ensures Weight(period, 0) == Alpha(period)
  {
    hide Decay;
    var r, a := Decay(period), Alpha(period);
    assert Power(r, 0) == 1.0;
    assert a * (r * Power(r, age)) == a * Power(r, age) * r;
  }

  /** A further bar makes all others one bar older. */
  lemma {:induction false} WeightedAges(init: seq<Bar>, b: Bar, period: nat, i: nat)
    requires i <= |init|
    ensures WeightedCloses(init + [b], period, i)
            == WeightedCloses(init, period, i) * Decay(period) + b.close * Alpha(period)
    decreases |init| - i
  {
    hide Alpha, Weight, Decay;
    var bars := init + [b];
    if i == |init| {
      WeightAges(period, 0);
      assert WeightedCloses(bars, period, i + 1) == 0.0;
    } else {
      WeightedAges(init, b, period, i + 1);
      WeightAges(period, |init| - 1 - i);
      assert bars[i] == init[i];
      Rearranged(Weight(period, |init| - 1 - i), init[i].close, WeightedCloses(init, period, i + 1), Decay(period));
    }
  }

  lemma Rearranged(w: real, x: real, rest: real, d: real)
    ensures (w * x + rest) * d == w * d * x + rest * d
  {
  }

  lemma EmaStep(init: seq<Bar>, b: Bar, period: nat)
    requires init != []
    ensures Ema(init + [b], period) == b.close * Alpha(period) + Ema(init, period) * Decay(period)
  {
    LastOfEma(init, b, period);
    DecayIs(period);
    hide Ema, Alpha, Decay;
  }

  lemma Combined(before: real, power: real, first: real, rest: real, gain: real, r: real, next: real)
    requires before == power * first + rest && next == r * power
    ensures gain + before * r == next * first + (rest * r + gain)
  {
    Rearranged(power, first, rest, r);
  }

  /**
   * The average is the first close times the decay to the power of its age, plus
   * every later close times 2 / (period + 1) times that power of its own age.
   */
  lemma {:induction false} EmaIsWeightedMean(bars: seq<Bar>, period: nat)
    requires bars != []
    ensures Ema(bars, period)
            == Power(Decay(period), |bars| - 1) * bars[0].close + WeightedCloses(bars, period, 1)
  {
    hide *;
    var n := |bars| - 1;
    if n == 0 {
      EmaOfOne(bars, period);
    } else {
      EmaIsWeightedMean(bars[..n], period);
      assert bars == bars[..n] + [bars[n]];
      EmaOfMore(bars[..n], bars[n], period);
    }
  }

  lemma EmaOfOne(bars: seq<Bar>, period: nat)
    requires |bars| == 1
    ensures Ema(bars, period) == Power(Decay(period), 0) * bars[0].close + WeightedCloses(bars, period, 1)
  {
    hide Decay, Weight, Smooth;
  }

  lemma EmaOfMore(init: seq<Bar>, b: Bar, period: nat)
    requires init != []
    requires Ema(init, period) == Power(Decay(period), |init| - 1) * init[0].close + WeightedCloses(init, period, 1)
    ensures var bars := init + [b];
            Ema(bars, period) == Power(Decay(period), |bars| - 1) * bars[0].close + WeightedCloses(bars, period, 1)
  {
    hide Alpha, Decay, WeightedCloses, Ema;
    var r, n := Decay(period), |init|;
    WeightedAges(init, b, period, 1);
    EmaStep(init, b, period);
    assert Power(r, n) == r * Power(r, n - 1);
    hide Power;
    Combined(Ema(init, period), Power(r, n - 1), init[0].close, WeightedCloses(init, period, 1),
             b.close * Alpha(period), r, Power(r, n));
  }

  /** It never leaves the range of the closes. */
  lemma {:induction false} EmaBetween(bars: seq<Bar>, period: nat, lo: real, hi: real)
    requires bars != [] && 0 < period && forall b :: b in bars ==> lo <= b.close <= hi
    ensures lo <= Ema(bars, period) <= hi
  {
    var n := |bars| - 1;
    assert bars[n] in bars;
    if n > 0 {
      EmaBetween(bars[..n], period, lo, hi);
      AlphaPositive(period);
      Between(Alpha(period), bars[n].close, Ema(bars[..n], period), lo, hi);
    }
    hide Alpha;
  }

  lemma Between(a: real, x: real, y: real, lo: real, hi: real)
    requires 0.0 <= a <= 1.0 && lo <= x <= hi && lo <= y <= hi
    ensures lo <= x * a + y * (1.0 - a) <= hi
  {
    var d := 1.0 - a;
    assert (x - lo) * a >= 0.0 && (y - lo) * d >= 0.0;
    assert (hi - x) * a >= 0.0 && (hi - y) * d >= 0.0;
    assert lo * a + lo * d == lo && hi * a + hi * d == hi;
  }

  /** And the line holds it from bar number `period` on. */
  lemma {:induction false} LineIsEma(bars: seq<Bar>, period: nat, i: nat)
    requires 0 < period && period - 1 <= i < |bars|
    ensures |Line(bars, period)| == |bars| - period + 1
    ensures Line(bars, period)[i - period + 1] == Point(bars[i].t, Ema(bars[..i + 1], period))
    decreases |bars|
  {
    hide Ema;
    var n := |bars| - 1;
    var init := bars[..n];
    if period <= n {
      LineIsEma(init, period, if i < n then i else n - 1);
    } else {
      assert Line(init, period) == [];
    }
    if i < n {
      assert init[..i + 1] == bars[..i + 1];
    } else {
      assert bars[..i + 1] == bars;
    }
  }

  // ---- The cache ------------------------------------------------------------------------

  datatype Cache = Cache(prevBars: seq<Bar>, preLast: Option<State>, last: Option<State>, shown: Shown)

  const FRESH := Cache([], None, None, Shown([]))

  /** A rebuild keeps an old cached state where it has no new one. */
  function Rebuild(c: Cache, bars: seq<Bar>, period: nat): Cache {
    var items := SortedDeduped(bars);
    Cache(bars,
          if |items| < 2 then c.preLast else LastState(items[..|items| - 1], period),
          if |items| == 0 then c.last else LastState(items, period),
          Shown(Line(items, period)))
  }

  /** The live branch: without a state, or before warm-up, nothing happens. */
  function Live(c: Cache, bars: seq<Bar>, period: nat): Cache
    requires bars != []
  {
    var b := bars[|bars| - 1];
    var isNew := |bars| == |c.prevBars| + 1;
    var from := if isNew then c.last else c.preLast;
    if from.None? || from.value.index < period - 2 then c.(prevBars := bars)
    else
      var next := State(Smooth(period, b.close, from.value.value), from.value.index + 1);
      Cache(bars, if isNew then c.last else c.preLast, Some(next),
            if next.index >= period - 1 then Update(c.shown, Point(b.t, next.value)) else c.shown)
  }

  function Effect(c: Cache, bars: seq<Bar>, viewportChange: bool, period: nat): Cache {
    if IsLive(c.prevBars, bars, viewportChange) then Live(c, bars, period) else Rebuild(c, bars, period)
  }

  /** The refs of the component for one period and the effect that updates them. */
  class EmaLine {
    const period: nat
    var prevBars: seq<Bar>
    var preLast: Option<State>
    var last: Option<State>
    var shown: Shown

    ghost function View(): Cache
      reads this
    {
      Cache(prevBars, preLast, last, shown)
    }

    constructor (period: nat)
      ensures this.period == period && View() == FRESH
    {
      this.period := period;
      prevBars, preLast, last, shown := [], None, None, Shown([]);
    }

    method BarsChanged(bars: seq<Bar>, viewportChange: bool)
      requires 0 < period
      modifies this
      ensures View() == Effect(old(View()), bars, viewportChange, period)
    {
      if IsLive(prevBars, bars, viewportChange) {
        var b := bars[|bars| - 1];
        var isNew := |bars| == |prevBars| + 1;
        var from := if isNew then last else preLast;
        if from.Some? && from.value.index >= period - 2 {
          var next := State(Smooth(period, b.close, from.value.value), from.value.index + 1);
          if next.index >= period - 1 {
            shown := Update(shown, Point(b.t, next.value));
          }
          if isNew {
            preLast := last;
          }
          last := Some(next);
        }
      } else {
        var data, pre, full := BuildEmaData(bars, period);
        shown := Shown(data);
        if pre.Some? {
          preLast := pre;
        }
        if full.Some? {
          last := full;
        }
      }
      prevBars := bars;
    }
  }

  function AfterOps(c: Cache, bars: seq<Bar>, ops: seq<Op>, period: nat): Cache
    requires bars != []
    decreases |ops|
  {
    if ops == [] then c
    else
      var next := ApplyOp(bars, ops[0]);
      AfterOps(Effect(c, next, false, period), next, ops[1..], period)
  }

  // ---- Refinement -------------------------------------------------------------------------

  /** Both states and the line are those of a rebuild. */
  ghost predicate InSync(c: Cache, bars: seq<Bar>, period: nat) {
    && |bars| >= 2 && |bars| >= period && c.prevBars == bars
    && c.preLast == LastState(bars[..|bars| - 1], period)
    && c.last == LastState(bars, period)
    && c.shown == Shown(Line(bars, period))
  }

  lemma LiveKeepsSync(c: Cache, bars: seq<Bar>, op: Op, period: nat)
    requires 0 < period && InSync(c, bars, period) && KeepsEpoch(bars, op) && Increasing(ApplyOp(bars, op))
    ensures InSync(Effect(c, ApplyOp(bars, op), false, period), ApplyOp(bars, op), period)
  {
    hide Live, Increasing, Line, LastState;
    OpsAreLive(bars, op);
    if op.Append? {
      AppendKeepsSync(c, bars, op.bar, period);
    } else {
      ReplaceKeepsSync(c, bars, op.bar, period);
    }
  }

  lemma LastOfLine(init: seq<Bar>, b: Bar, period: nat)
    ensures var bars := init + [b];
            Line(bars, period)
            == if |bars| < period then [] else Line(init, period) + [Point(b.t, Ema(bars, period))]
  {
    assert (init + [b])[..|init|] == init;
    hide Ema;
  }

  lemma AppendKeepsSync(c: Cache, bars: seq<Bar>, b: Bar, period: nat)
    requires 0 < period && InSync(c, bars, period) && Increasing(bars + [b])
    ensures InSync(Live(c, bars + [b], period), bars + [b], period)
  {
    var next, n := bars + [b], |bars|;
    assert next[..n] == bars && next[n] == b && next[n - 1] == bars[n - 1];
    assert bars[n - 1].t < b.t;
    LastOfEma(bars, b, period);
    LastOfLine(bars, b, period);
    hide Ema, Line, Smooth, Increasing;
  }

  /** The live branch for a replaced bar, spelled out. */
  lemma ReplaceLive(c: Cache, init: seq<Bar>, last: Bar, b: Bar, period: nat)
    requires 0 < period && init != [] && InSync(c, init + [last], period)
    ensures var next := Smooth(period, b.close, Ema(init, period));
            Live(c, init + [b], period)
            == Cache(init + [b], LastState(init, period), Some(State(next, |init|)),
                     Update(Shown(Line(init + [last], period)), Point(b.t, next)))
  {
    hide Ema, Line, Smooth, Update;
    assert (init + [last])[..|init|] == init;
  }

  lemma ReplaceKeepsSync(c: Cache, bars: seq<Bar>, b: Bar, period: nat)
    requires 0 < period && InSync(c, bars, period) && b.t == bars[|bars| - 1].t
    ensures InSync(Live(c, bars[..|bars| - 1] + [b], period), bars[..|bars| - 1] + [b], period)
  {
    hide Ema, Line, Smooth, Live, Update;
    var n := |bars| - 1;
    var init, last := bars[..n], bars[n];
    var next := init + [b];
    assert bars == init + [last] && next[..n] == init;
    ReplaceLive(c, init, last, b, period);
    LastOfEma(init, b, period);
    LastOfLine(init, last, period);
    LastOfLine(init, b, period);
    UpdateSameTime(Line(init, period), Point(last.t, Ema(bars, period)), Point(b.t, Ema(next, period)));
  }

  lemma {:induction false} OpsKeepSync(c: Cache, bars: seq<Bar>, ops: seq<Op>, period: nat)
    requires 0 < period && InSync(c, bars, period) && StaysIncreasing(bars, ops) && KeepsEpochs(bars, ops)
    ensures InSync(AfterOps(c, bars, ops, period), ApplyOps(bars, ops), period)
    decreases |ops|
  {
    if ops != [] {
      var next := ApplyOp(bars, ops[0]);
      LiveKeepsSync(c, bars, ops[0], period);
      OpsKeepSync(Effect(c, next, false, period), next, ops[1..], period);
    }
  }

  /** The promise of the cache for every run of epoch-keeping updates that starts
      with a rebuild from bars; c holds what earlier viewports have left. */
  ghost predicate AlwaysInSync(c: Cache, bars: seq<Bar>, period: nat)
    requires bars != []
  {
    forall ops :: StaysIncreasing(bars, ops) && KeepsEpochs(bars, ops) ==>
      AfterOps(Rebuild(c, bars, period), bars, ops, period).shown == Shown(Line(ApplyOps(bars, ops), period))
  }

  // ---- Below warm-up the line freezes ---------------------------------------------------------

  function NextBar(bars: seq<Bar>): Bar
    requires bars != []
  {
    Bar(bars[|bars| - 1].t + 1, 0.0, 0.0, 0.0, None, None)
  }

  function Appends(bars: seq<Bar>, k: nat): (ops: seq<Op>)
    requires bars != []
    ensures |ops| == k
    decreases k
  {
    if k == 0 then [] else [Append(NextBar(bars))] + Appends(bars + [NextBar(bars)], k - 1)
  }

  lemma AppendIncreasing(bars: seq<Bar>)
    requires bars != [] && Increasing(bars)
    ensures Increasing(bars + [NextBar(bars)])
  {
  }

  /** Far below warm-up every appended bar is skipped. */
  lemma {:induction false} Frozen(c: Cache, bars: seq<Bar>, k: nat, period: nat)
    requires bars != [] && Increasing(bars) && c.prevBars == bars
    requires c.last.Some? && c.last.value.index < period - 2
    ensures var ops := Appends(bars, k);
            && StaysIncreasing(bars, ops) && KeepsEpochs(bars, ops)
            && AfterOps(c, bars, ops, period).shown == c.shown
            && |ApplyOps(bars, ops)| == |bars| + k
    decreases k
  {
    if 0 < k {
      var b := NextBar(bars);
      AppendIncreasing(bars);
      OpsAreLive(bars, Append(b));
      assert Appends(bars, k)[1..] == Appends(bars + [b], k - 1);
      Frozen(c.(prevBars := bars + [b]), bars + [b], k - 1, period);
    }
  }

  /** What a rebuild leaves, without the sorting. */
  lemma RebuildOf(c: Cache, bars: seq<Bar>, period: nat)
    requires bars != [] && Increasing(bars)
    ensures Rebuild(c, bars, period)
            == Cache(bars, if |bars| < 2 then c.preLast else LastState(bars[..|bars| - 1], period),
                     LastState(bars, period), Shown(Line(bars, period)))
  {
    IncreasingIsItself(bars);
    hide SortedDeduped, Increasing, Line, LastState;
  }

  /** Short of warm-up no state is old enough to replace the last bar from. */
  lemma SkippedReplace(bars: seq<Bar>, swapped: Bar, period: nat)
    requires Increasing(bars) && 1 <= |bars| && (|bars| < period || |bars| == 1) && swapped.t == bars[|bars| - 1].t
    ensures Effect(Rebuild(FRESH, bars, period), bars[..|bars| - 1] + [swapped], false, period)
            == Rebuild(FRESH, bars, period).(prevBars := bars[..|bars| - 1] + [swapped])
  {
    hide Rebuild, Increasing, Line, Ema, Smooth, Update;
    RebuildOf(FRESH, bars, period);
    OpsAreLive(bars, Replace(swapped));
  }

  /** The bar that completes warm-up is smoothed from the cached average. */
  lemma FirstPoint(c: Cache, bars: seq<Bar>, period: nat)
    requires |bars| == period - 1 && bars != [] && Increasing(bars)
    requires c.prevBars == bars && c.shown == Shown([]) && c.last.Some? && c.last.value.index == period - 2
    ensures var b := NextBar(bars);
            Effect(c, bars + [b], false, period).shown
            == Shown([Point(b.t, Smooth(period, b.close, c.last.value.value))])
  {
    AppendIncreasing(bars);
    OpsAreLive(bars, Append(NextBar(bars)));
  }

  lemma TwoOps(c: Cache, bars: seq<Bar>, first: Op, second: Op, period: nat)
    requires bars != []
    ensures var next := ApplyOp(bars, first);
            && ApplyOps(bars, [first, second]) == ApplyOp(next, second)
            && AfterOps(c, bars, [first, second], period)
               == Effect(Effect(c, next, false, period), ApplyOp(next, second), false, period)
  {
    var ops := [first, second];
    assert ops[1..] == [second] && [second][1..] == [];
    var next := ApplyOp(bars, first);
    var last := ApplyOp(next, second);
    var c1 := Effect(c, next, false, period);
    var c2 := Effect(c1, last, false, period);
    hide Effect, ApplyOp;
    assert ApplyOps(last, []) == last && AfterOps(c2, last, [], period) == c2;
    assert ApplyOps(next, [second]) == last && AfterOps(c1, next, [second], period) == c2;
  }

  lemma TwoAllowed(bars: seq<Bar>, first: Op, second: Op)
    requires bars != [] && Increasing(bars) && Increasing(ApplyOp(bars, first)) && KeepsEpoch(bars, first)
    requires Increasing(ApplyOp(ApplyOp(bars, first), second)) && KeepsEpoch(ApplyOp(bars, first), second)
    ensures StaysIncreasing(bars, [first, second]) && KeepsEpochs(bars, [first, second])
  {
    hide Increasing, KeepsEpoch;
    var next := ApplyOp(bars, first);
    assert [first, second][1..] == [second] && [second][1..] == [];
    assert StaysIncreasing(ApplyOp(next, second), []) && KeepsEpochs(ApplyOp(next, second), []);
    assert StaysIncreasing(next, [second]) && KeepsEpochs(next, [second]);
  }

  lemma SwapIsAllowed(bars: seq<Bar>, swapped: Bar)
    requires bars != [] && Increasing(bars) && swapped.t == bars[|bars| - 1].t
    ensures var second := bars[..|bars| - 1] + [swapped];
            var ops := [Replace(swapped), Append(NextBar(second))];
            StaysIncreasing(bars, ops) && KeepsEpochs(bars, ops)
  {
    hide StaysIncreasing, KeepsEpochs, Increasing;
    var second := bars[..|bars| - 1] + [swapped];
    SwapIsIncreasing(bars, swapped);
    AppendIncreasing(second);
    TwoAllowed(bars, Replace(swapped), Append(NextBar(second)));
  }

  lemma ColdStart(bars: seq<Bar>, period: nat)
    requires Increasing(bars) && 1 <= |bars| == period - 1
    ensures var c := Rebuild(FRESH, bars, period);
            c.shown == Shown([]) && c.last == Some(State(Ema(bars, period), period - 2))
  {
    RebuildOf(FRESH, bars, period);
    hide Rebuild, Increasing, Ema;
  }

  lemma FirstOfLine(bars: seq<Bar>, b: Bar, period: nat)
    requires 1 <= |bars| == period - 1
    ensures Line(bars + [b], period) == [Point(b.t, Smooth(period, b.close, Ema(bars, period)))]
  {
    assert (bars + [b])[..|bars|] == bars;
    assert Line(bars, period) == [];
  }

  /** The line shown after ops is not the rebuild's. */
  lemma Refutes(c: Cache, bars: seq<Bar>, ops: seq<Op>, period: nat)
    requires bars != [] && StaysIncreasing(bars, ops) && KeepsEpochs(bars, ops)
    requires AfterOps(Rebuild(c, bars, period), bars, ops, period).shown != Shown(Line(ApplyOps(bars, ops), period))
    ensures !AlwaysInSync(c, bars, period)
  {
    hide StaysIncreasing, KeepsEpochs, AfterOps, Rebuild, Line, ApplyOps;
  }

  lemma OtherPoint(p: Point, q: Point)
    requires p.value != q.value
    ensures Shown([p]) != Shown([q])
  {
    assert [p][0] != [q][0];
  }

  /** A skipped replacement, then the bar that completes warm-up. */
  lemma SwapThenAppend(bars: seq<Bar>, swapped: Bar, period: nat)
    requires Increasing(bars) && 1 <= |bars| == period - 1 && swapped.t == bars[|bars| - 1].t
    ensures var second := bars[..|bars| - 1] + [swapped];
            var b := NextBar(second);
            var ops := [Replace(swapped), Append(b)];
            && AfterOps(Rebuild(FRESH, bars, period), bars, ops, period).shown
               == Shown([Point(b.t, Smooth(period, b.close, Ema(bars, period)))])
            && ApplyOps(bars, ops) == second + [b]
  {
    hide Rebuild, Effect, AfterOps, ApplyOps, Smooth, Ema, Increasing;
    var second := bars[..|bars| - 1] + [swapped];
    var c := Rebuild(FRESH, bars, period);
    SwapIsIncreasing(bars, swapped);
    ColdStart(bars, period);
    SkippedReplace(bars, swapped, period);
    TwoOps(c, bars, Replace(swapped), Append(NextBar(second)), period);
    FirstPoint(c.(prevBars := second), second, period);
  }

  lemma SwapIsIncreasing(bars: seq<Bar>, swapped: Bar)
    requires bars != [] && Increasing(bars) && swapped.t == bars[|bars| - 1].t
    ensures Increasing(bars[..|bars| - 1] + [swapped])
  {
  }

  /** One bar short of warm-up a replaced bar is skipped, and the next one is
      smoothed from the stale average. */
  lemma AlmostWarm(bars: seq<Bar>, period: nat)
    requires Increasing(bars) && 1 <= |bars| == period - 1
    ensures !AlwaysInSync(FRESH, bars, period)
  {
    hide *;
    var n := |bars| - 1;
    var swapped := bars[n].(close := bars[n].close + 1.0);
    var second := bars[..n] + [swapped];
    var b := NextBar(second);
    var ops := [Replace(swapped), Append(b)];
    SwapIsAllowed(bars, swapped);
    SwapThenAppend(bars, swapped, period);
    FirstOfLine(second, b, period);
    SwappedEma(bars, swapped, period);
    SmoothDiffers(period, b.close, Ema(bars, period), Ema(second, period));
    OtherPoint(Point(b.t, Smooth(period, b.close, Ema(bars, period))),
               Point(b.t, Smooth(period, b.close, Ema(second, period))));
    Refutes(FRESH, bars, ops, period);
  }

  lemma AlphaPositive(period: nat)
    requires 0 < period
    ensures 0.0 < Alpha(period) <= 1.0
    ensures 1 < period ==> Alpha(period) < 1.0
  {
    var a, x := Alpha(period), period as real + 1.0;
    assert a * x == 2.0;
    var y := 1.0 - a;
    assert y * x == x - a * x;
    SignTimes(a, x);
    SignTimes(y, x);
  }

  lemma LastOfEma(init: seq<Bar>, last: Bar, period: nat)
    ensures Ema(init + [last], period)
            == if init == [] then last.close else Smooth(period, last.close, Ema(init, period))
  {
    assert (init + [last])[..|init|] == init;
    hide Smooth;
  }

  lemma SwappedEma(bars: seq<Bar>, swapped: Bar, period: nat)
    requires bars != [] && 0 < period && swapped.close == bars[|bars| - 1].close + 1.0
    ensures Ema(bars[..|bars| - 1] + [swapped], period) != Ema(bars, period)
  {
    var init, last := bars[..|bars| - 1], bars[|bars| - 1];
    assert bars == init + [last];
    LastOfEma(init, last, period);
    LastOfEma(init, swapped, period);
    if init != [] {
      SmoothMoves(period, last.close, Ema(init, period));
    }
    hide Ema, Smooth;
  }

  lemma SmoothMoves(period: nat, close: real, previous: real)
    requires 0 < period
    ensures Smooth(period, close + 1.0, previous) != Smooth(period, close, previous)
  {
    AlphaPositive(period);
    var a := Alpha(period);
    assert (close + 1.0) * a == close * a + a;
  }

  lemma SmoothDiffers(period: nat, close: real, x: real, y: real)
    requires 1 < period && x != y
    ensures Smooth(period, close, x) != Smooth(period, close, y)
  {
    AlphaPositive(period);
    var r := 1.0 - Alpha(period);
    assert x * r - y * r == (x - y) * r;
    assert (x - y) * r != 0.0;
  }

  lemma OneOp(c: Cache, bars: seq<Bar>, op: Op, period: nat)
    requires bars != []
    ensures ApplyOps(bars, [op]) == ApplyOp(bars, op)
    ensures AfterOps(c, bars, [op], period) == Effect(c, ApplyOp(bars, op), false, period)
    ensures Increasing(bars) && Increasing(ApplyOp(bars, op)) ==> StaysIncreasing(bars, [op])
    ensures KeepsEpoch(bars, op) ==> KeepsEpochs(bars, [op])
  {
    var next := ApplyOp(bars, op);
    var c1 := Effect(c, next, false, period);
    hide Effect, ApplyOp, Increasing, KeepsEpoch;
    assert [op][1..] == [];
    assert ApplyOps(next, []) == next && AfterOps(c1, next, [], period) == c1;
    assert KeepsEpochs(next, []);
    assert Increasing(next) ==> StaysIncreasing(next, []);
  }

  /** With a single bar there is no cached state to replace it from. */
  lemma SingleBar(bars: seq<Bar>)
    requires |bars| == 1
    ensures !AlwaysInSync(FRESH, bars, 1)
  {
    hide Rebuild, Effect, AfterOps, ApplyOps, StaysIncreasing, KeepsEpochs, Line, AlwaysInSync;
    var swapped := bars[0].(close := bars[0].close + 1.0);
    var op := Replace(swapped);
    var c := Rebuild(FRESH, bars, 1);
    assert bars[..0] + [swapped] == [swapped] && bars == [bars[0]];
    OneOp(c, bars, op, 1);
    SkippedReplace(bars, swapped, 1);
    RebuildOf(FRESH, bars, 1);
    OneBarLine(bars[0]);
    OneBarLine(swapped);
    OtherPoint(Point(bars[0].t, bars[0].close), Point(swapped.t, swapped.close));
    Refutes(FRESH, bars, [op], 1);
  }

  lemma OneBarLine(b: Bar)
    ensures Line([b], 1) == [Point(b.t, b.close)]
  {
    assert [b][..0] == [];
  }

  lemma FarFromWarm(c: Cache, bars: seq<Bar>, period: nat)
    requires bars != [] && Increasing(bars) && |bars| < period - 1
    ensures !AlwaysInSync(c, bars, period)
  {
    RebuildOf(c, bars, period);
    var k := period - |bars|;
    var ops := Appends(bars, k);
    Frozen(Rebuild(c, bars, period), bars, k, period);
    assert Line(bars, period) == [];
    assert Line(ApplyOps(bars, ops), period) != [];
    hide Rebuild, Line, Ema, AfterOps, ApplyOps, StaysIncreasing, KeepsEpochs, Appends;
  }

  /** No update is skipped any more. */
  predicate Warm(c: Cache, period: nat) {
    c.preLast.Some? && c.preLast.value.index >= period - 2 && c.last.Some? && c.last.value.index >= period - 1
  }

  lemma WarmIsLive(c: Cache, bars: seq<Bar>, op: Op, period: nat)
    requires bars != [] && c.prevBars == bars && Warm(c, period)
    ensures var r := Effect(c, ApplyOp(bars, op), false, period);
            && Warm(r, period) && r.prevBars == ApplyOp(bars, op) && r.last.Some?
            && r.shown == Update(c.shown, Point(op.bar.t, r.last.value.value))
  {
    OpsAreLive(bars, op);
    var next := ApplyOp(bars, op);
    assert next[|next| - 1] == op.bar;
    hide Smooth, Update;
  }

  // ---- What an earlier viewport leaves behind -----------------------------------------------

  /** From two bars on, or without an old state, a rebuild starts afresh. */
  lemma RebuildForgets(c: Cache, bars: seq<Bar>, period: nat)
    requires bars != [] && Increasing(bars) && (|bars| >= 2 || c.preLast.None?)
    ensures Rebuild(c, bars, period) == Rebuild(FRESH, bars, period)
    ensures AlwaysInSync(c, bars, period) <==> AlwaysInSync(FRESH, bars, period)
  {
    RebuildOf(c, bars, period);
    RebuildOf(FRESH, bars, period);
    hide Rebuild, Line, LastState, Increasing;
  }

  lemma SameBarAgain(bars: seq<Bar>)
    requires |bars| == 1
    ensures ApplyOp(bars, Replace(bars[0])) == bars && Increasing(bars)
  {
  }

  /** For period 2, a single bar and an old state, replacing the bar draws a point
      smoothed from the old viewport's average, where a rebuild draws none. */
  lemma LeakedPoint(c: Cache, bars: seq<Bar>)
    requires |bars| == 1 && c.preLast.Some?
    ensures Effect(Rebuild(c, bars, 2), bars, false, 2).shown
            == Shown([Point(bars[0].t, Smooth(2, bars[0].close, c.preLast.value.value))])
    ensures Line(bars, 2) == []
  {
    hide Smooth, Rebuild, Ema;
    SameBarAgain(bars);
    RebuildOf(c, bars, 2);
    OpsAreLive(bars, Replace(bars[0]));
  }

  /** Such a state is there: a viewport of two bars leaves it, and a change to one bar keeps it. */
  lemma LeakFromOldViewport(c: Cache, former: seq<Bar>, bars: seq<Bar>)
    requires |former| >= 2 && Increasing(former) && |bars| == 1
    ensures var changed := Effect(Rebuild(c, former, 2), bars, true, 2);
            && changed == Rebuild(Rebuild(c, former, 2), bars, 2)
            && Effect(changed, bars, false, 2).shown
               == Shown([Point(bars[0].t, Smooth(2, bars[0].close, Ema(former[..|former| - 1], 2)))])
  {
    RebuildOf(c, former, 2);
    LeakedPoint(Rebuild(c, former, 2), bars);
    hide Smooth, Rebuild, Ema, Increasing, Line, Live;
  }

  lemma LeakRefutes(c: Cache, bars: seq<Bar>)
    requires |bars| == 1 && c.preLast.Some?
    ensures !AlwaysInSync(c, bars, 2)
  {
    hide *;
    var op := Replace(bars[0]);
    LeakedPoint(c, bars);
    SameBarAgain(bars);
    OneOp(Rebuild(c, bars, 2), bars, op, 2);
    SameEpoch(bars, bars[0]);
    Refutes(c, bars, [op], 2);
  }

  lemma SameEpoch(bars: seq<Bar>, b: Bar)
    requires bars != [] && b.t == bars[|bars| - 1].t
    ensures KeepsEpoch(bars, Replace(b))
  {
  }

  /** With period 1 the average is the close, so any cached state will do. */
  ghost predicate HasStates(c: Cache, bars: seq<Bar>) {
    c.prevBars == bars && bars != [] && c.preLast.Some? && c.last.Some? && c.shown == Shown(Line(bars, 1))
  }

  lemma SmoothOne(close: real, previous: real)
    ensures Smooth(1, close, previous) == close
  {
    assert Alpha(1) == 1.0;
  }

  lemma LineOne(init: seq<Bar>, b: Bar)
    ensures Line(init + [b], 1) == Line(init, 1) + [Point(b.t, b.close)]
  {
    LastOfLine(init, b, 1);
    LastOfEma(init, b, 1);
    if init != [] {
      SmoothOne(b.close, Ema(init, 1));
    }
    hide Line, Ema, Smooth;
  }

  lemma LiveValueOne(c: Cache, bars: seq<Bar>, op: Op)
    requires bars != [] && c.prevBars == bars && Warm(c, 1)
    ensures var r := Effect(c, ApplyOp(bars, op), false, 1);
            r.last.Some? && r.last.value.value == op.bar.close
  {
    OpsAreLive(bars, op);
    var next := ApplyOp(bars, op);
    assert next[|next| - 1] == op.bar;
    SmoothOne(op.bar.close, c.last.value.value);
    SmoothOne(op.bar.close, c.preLast.value.value);
    hide Smooth, Update;
  }

  lemma ShownOne(bars: seq<Bar>, op: Op)
    requires bars != [] && KeepsEpoch(bars, op) && Increasing(ApplyOp(bars, op))
    ensures Update(Shown(Line(bars, 1)), Point(op.bar.t, op.bar.close)) == Shown(Line(ApplyOp(bars, op), 1))
  {
    var n, b := |bars| - 1, op.bar;
    var init, last := bars[..n], bars[n];
    assert bars == init + [last];
    LineOne(init, last);
    if op.Append? {
      LineOne(bars, b);
      assert last.t < b.t by {
        assert (bars + [b])[n] == last && (bars + [b])[n + 1] == b;
      }
      hide Line;
    } else {
      LineOne(init, b);
      hide Line;
      UpdateSameTime(Line(init, 1), Point(last.t, last.close), Point(b.t, b.close));
    }
  }

  lemma LiveKeepsStates(c: Cache, bars: seq<Bar>, op: Op)
    requires HasStates(c, bars) && KeepsEpoch(bars, op) && Increasing(ApplyOp(bars, op))
    ensures HasStates(Effect(c, ApplyOp(bars, op), false, 1), ApplyOp(bars, op))
  {
    assert Warm(c, 1);
    hide Effect, Line, Increasing, Update, KeepsEpoch;
    WarmIsLive(c, bars, op, 1);
    LiveValueOne(c, bars, op);
    ShownOne(bars, op);
  }

  lemma {:induction false} OpsKeepStates(c: Cache, bars: seq<Bar>, ops: seq<Op>)
    requires HasStates(c, bars) && StaysIncreasing(bars, ops) && KeepsEpochs(bars, ops)
    ensures HasStates(AfterOps(c, bars, ops, 1), ApplyOps(bars, ops))
    decreases |ops|
  {
    if ops != [] {
      LiveKeepsStates(c, bars, ops[0]);
      hide HasStates, Effect, ApplyOp, Increasing;
      OpsKeepStates(Effect(c, ApplyOp(bars, ops[0]), false, 1), ApplyOp(bars, ops[0]), ops[1..]);
    }
  }

  lemma OldStateHelps(c: Cache, bars: seq<Bar>)
    requires |bars| == 1 && c.preLast.Some?
    ensures AlwaysInSync(c, bars, 1)
  {
    SameBarAgain(bars);
    RebuildOf(c, bars, 1);
    hide Rebuild, Line, Ema, Increasing;
    forall ops | StaysIncreasing(bars, ops) && KeepsEpochs(bars, ops)
      ensures AfterOps(Rebuild(c, bars, 1), bars, ops, 1).shown == Shown(Line(ApplyOps(bars, ops), 1))
    {
      OpsKeepStates(Rebuild(c, bars, 1), bars, ops);
    }
  }

  // ---- Main results ---------------------------------------------------------------------------

  lemma FirstRebuild(bars: seq<Bar>, period: nat)
    requires bars != [] && Increasing(bars) && 0 < period
    ensures AlwaysInSync(FRESH, bars, period) <==> |bars| >= period && |bars| >= 2
  {
    RebuildOf(FRESH, bars, period);
    hide Increasing, Rebuild, Ema, Line, AfterOps, ApplyOps, StaysIncreasing, KeepsEpochs;
    if |bars| >= period && |bars| >= 2 {
      forall ops | StaysIncreasing(bars, ops) && KeepsEpochs(bars, ops)
        ensures InSync(AfterOps(Rebuild(FRESH, bars, period), bars, ops, period), ApplyOps(bars, ops), period)
      {
        OpsKeepSync(Rebuild(FRESH, bars, period), bars, ops, period);
      }
    } else if period == 1 {
      SingleBar(bars);
    } else if |bars| == period - 1 {
      AlmostWarm(bars, period);
    } else {
      FarFromWarm(FRESH, bars, period);
    }
  }

  /**
   * After any rebuild, with whatever states earlier viewports have left, the line
   * on the chart equals a rebuild's for every later sequence of epoch-keeping
   * updates if and only if the rebuild saw at least `period` bars, and two; or,
   * for period 1, a single bar while an old state was there to replace it from.
   */
  lemma LiveLineIsRebuild(c: Cache, bars: seq<Bar>, period: nat)
    requires bars != [] && Increasing(bars) && 0 < period
    ensures AlwaysInSync(c, bars, period) <==>
              (|bars| >= 2 && |bars| >= period) || (|bars| == 1 && period == 1 && c.preLast.Some?)
  {
    hide *;
    if |bars| >= 2 || c.preLast.None? {
      RebuildForgets(c, bars, period);
      FirstRebuild(bars, period);
    } else if period == 1 {
      OldStateHelps(c, bars);
    } else if period == 2 {
      LeakRefutes(c, bars);
    } else {
      FarFromWarm(c, bars, period);
    }
  }

  // ---- Sequences that change an epoch ---------------------------------------------------------

  lemma {:induction false} PointsAreBars(bars: seq<Bar>, period: nat, i: int)
    requires 0 <= i < |Line(bars, period)|
    ensures exists k :: 0 <= k < |bars| && bars[k].t == Line(bars, period)[i].time
  {
    hide Ema;
    var n := |bars| - 1;
    var init := bars[..n];
    if i < |Line(init, period)| {
      PointsAreBars(init, period, i);
      var k :| 0 <= k < n && init[k].t == Line(init, period)[i].time;
      assert bars[k].t == Line(bars, period)[i].time;
    } else {
      assert bars[n].t == Line(bars, period)[i].time;
    }
  }

  lemma StaleIsWrong(s: Shown, bars: seq<Bar>, period: nat)
    requires Stale(s, bars)
    ensures s != Shown(Line(bars, period))
  {
    hide Line;
    if s == Shown(Line(bars, period)) {
      var i :| 0 <= i < |s.points| && forall k :: 0 <= k < |bars| ==> bars[k].t != s.points[i].time;
      PointsAreBars(bars, period, i);
    }
  }

  lemma ChangedEpochGoesStale(c: Cache, bars: seq<Bar>, op: Op, period: nat)
    requires InSync(c, bars, period) && Warm(c, period) && !KeepsEpoch(bars, op) && Increasing(bars)
    ensures Stale(Effect(c, ApplyOp(bars, op), false, period).shown, ApplyOp(bars, op))
  {
    WarmIsLive(c, bars, op, period);
    hide Effect, Ema, Warm, Line;
    LastPointStale(Line(bars, period), bars, op.bar, Effect(c, ApplyOp(bars, op), false, period).last.value.value);
  }

  lemma {:induction false} StaleForGood(c: Cache, bars: seq<Bar>, ops: seq<Op>, period: nat)
    requires bars != [] && c.prevBars == bars && Warm(c, period) && Stale(c.shown, bars) && StaysIncreasing(bars, ops)
    ensures Stale(AfterOps(c, bars, ops, period).shown, ApplyOps(bars, ops))
    decreases |ops|
  {
    if ops != [] {
      var next := ApplyOp(bars, ops[0]);
      var r := Effect(c, next, false, period);
      WarmIsLive(c, bars, ops[0], period);
      StaleStays(c.shown, bars, ops[0], r.last.value.value);
      hide Effect, Stale, Warm, Update, Increasing;
      StaleForGood(r, next, ops[1..], period);
    }
  }

  lemma {:induction false} OpsInSyncIff(c: Cache, bars: seq<Bar>, ops: seq<Op>, period: nat)
    requires 0 < period && InSync(c, bars, period) && Warm(c, period) && StaysIncreasing(bars, ops)
    ensures KeepsEpochs(bars, ops) ==> InSync(AfterOps(c, bars, ops, period), ApplyOps(bars, ops), period)
    ensures !KeepsEpochs(bars, ops) ==> Stale(AfterOps(c, bars, ops, period).shown, ApplyOps(bars, ops))
    decreases |ops|
  {
    if ops != [] {
      var next := ApplyOp(bars, ops[0]);
      var r := Effect(c, next, false, period);
      WarmIsLive(c, bars, ops[0], period);
      if KeepsEpoch(bars, ops[0]) {
        LiveKeepsSync(c, bars, ops[0], period);
        hide Effect, InSync, Stale, Warm, Update, Increasing;
        OpsInSyncIff(r, next, ops[1..], period);
      } else {
        ChangedEpochGoesStale(c, bars, ops[0], period);
        hide Effect, InSync, Stale, Warm, Update, Increasing;
        StaleForGood(r, next, ops[1..], period);
      }
    }
  }

  lemma WarmRebuild(c: Cache, bars: seq<Bar>, period: nat)
    requires Increasing(bars) && |bars| >= 2 && |bars| >= period
    ensures InSync(Rebuild(c, bars, period), bars, period) && Warm(Rebuild(c, bars, period), period)
  {
    RebuildOf(c, bars, period);
    hide Rebuild, Line, Ema, Increasing;
  }

  /**
   * After a rebuild from at least `period` bars, and two, a sequence of updates
   * leaves the line and both states as a rebuild of the final bars would if and
   * only if no update of the last bar changed its epoch.
   */
  lemma WarmLineIsRebuild(c: Cache, bars: seq<Bar>, ops: seq<Op>, period: nat)
    requires 0 < period && |bars| >= 2 && |bars| >= period && StaysIncreasing(bars, ops)
    ensures var r, final := AfterOps(Rebuild(c, bars, period), bars, ops, period), ApplyOps(bars, ops);
            && (KeepsEpochs(bars, ops) <==> r.shown == Shown(Line(final, period)))
            && (KeepsEpochs(bars, ops) ==> InSync(r, final, period))
  {
    WarmRebuild(c, bars, period);
    OpsInSyncIff(Rebuild(c, bars, period), bars, ops, period);
    hide Rebuild, AfterOps, ApplyOps, StaysIncreasing, KeepsEpochs, Stale, Warm, Line, Ema, LastState;
    if !KeepsEpochs(bars, ops) {
      StaleIsWrong(AfterOps(Rebuild(c, bars, period), bars, ops, period).shown, ApplyOps(bars, ops), period);
    }
  }
}

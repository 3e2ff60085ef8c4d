/**
 * What the two indicator caches of web/components/candles-chart.tsx share: the
 * bars, the test for a live update, and the line series on the chart.
 * Prices are reals and a bar's timestamp is its epoch.
 */
module ChartSeries {
  import opened Wrappers
  import opened Sorting

  datatype Bar = Bar(t: int, high: real, low: real, close: real, volume: Option<real>, vwap: Option<real>)

  datatype Point = Point(time: int, value: real)

  /** A series, or what is left when the chart library has refused an update. */
  datatype Shown = Shown(points: seq<Point>) | Refused

  /** `series.update`: same time replaces the last point, a later one is
      appended, an earlier one is an error. */
  function Update(s: Shown, p: Point): Shown {
    if s.Refused? then s
    else
      var n := |s.points|;
      if n == 0 || s.points[n - 1].time < p.time then Shown(s.points + [p])
      else if s.points[n - 1].time == p.time then Shown(s.points[..n - 1] + [p])
      else Refused
  }

  lemma UpdateSameTime(line: seq<Point>, p: Point, q: Point)
    requires p.time == q.time
    ensures Update(Shown(line + [p]), q) == Shown(line + [q])
  {
    assert (line + [p])[..|line|] == line;
  }

  ghost predicate Increasing(bars: seq<Bar>) {
    forall i, j :: 0 <= i < j < |bars| ==> bars[i].t < bars[j].t
  }

  // ---- buildSortedDeduped -------------------------------------------------------------

  /** The last bar of each epoch. */
  function ByEpoch(bars: seq<Bar>): (m: map<int, Bar>)
    ensures forall t :: t in m ==> m[t].t == t
    ensures forall b :: b in bars ==> b.t in m
    ensures forall t :: t in m ==> m[t] in bars
  {
    if bars == [] then map[] else ByEpoch(bars[..|bars| - 1])[bars[|bars| - 1].t := bars[|bars| - 1]]
  }

  function SortedDeduped(bars: seq<Bar>): (items: seq<Bar>)
    ensures Increasing(items)
  {
    var m := ByEpoch(bars);
    var ts := SortedSeq(m.Keys);
    assert forall i :: 0 <= i < |ts| ==> ts[i] in ts;
    seq(|ts|, i requires 0 <= i < |ts| => m[ts[i]])
  }

  ghost predicate Epochs(ts: seq<int>, bars: seq<Bar>) {
    |ts| == |bars| && forall i :: 0 <= i < |bars| ==> ts[i] == bars[i].t
  }

  lemma EpochsOfMap(bars: seq<Bar>, own: seq<int>, t: int)
    requires Epochs(own, bars)
    ensures t in own <==> t in ByEpoch(bars)
  {
    hide ByEpoch;
    if t in ByEpoch(bars) {
      assert ByEpoch(bars)[t] in bars;
      var i :| 0 <= i < |bars| && bars[i] == ByEpoch(bars)[t];
      assert own[i] == t;
    }
    if t in own {
      var i :| 0 <= i < |own| && own[i] == t;
      assert bars[i] in bars;
    }
  }

  lemma BarOfEpoch(bars: seq<Bar>, i: int)
    requires Increasing(bars) && 0 <= i < |bars|
    ensures bars[i].t in ByEpoch(bars) && ByEpoch(bars)[bars[i].t] == bars[i]
  {
    hide ByEpoch;
    assert bars[i] in bars;
    var b := ByEpoch(bars)[bars[i].t];
    assert b in bars;
    var k :| 0 <= k < |bars| && bars[k] == b;
  }

  lemma EpochsOfSorted(bars: seq<Bar>)
    requires Increasing(bars)
    ensures Epochs(SortedSeq(ByEpoch(bars).Keys), bars)
  {
    var own := seq(|bars|, i requires 0 <= i < |bars| => bars[i].t);
    assert StrictlySorted(own);
    hide ByEpoch, SortedSeq, Increasing;
    var ts := SortedSeq(ByEpoch(bars).Keys);
    forall t
      ensures t in own <==> t in ts
    {
      EpochsOfMap(bars, own, t);
    }
    hide StrictlySorted;
    SortedSeqUnique(own, ts);
  }

  lemma SortedDedupedAt(bars: seq<Bar>)
    ensures var items, ts := SortedDeduped(bars), SortedSeq(ByEpoch(bars).Keys);
            && |items| == |ts|
            && forall i :: 0 <= i < |ts| ==> ts[i] in ByEpoch(bars) && items[i] == ByEpoch(bars)[ts[i]]
  {
    hide ByEpoch, Increasing;
    var ts := SortedSeq(ByEpoch(bars).Keys);
    assert forall i :: 0 <= i < |ts| ==> ts[i] in ts;
  }

  /** A list with rising epochs is taken as it is. */
  lemma IncreasingIsItself(bars: seq<Bar>)
    requires Increasing(bars)
    ensures SortedDeduped(bars) == bars
  {
    hide ByEpoch, SortedSeq, SortedDeduped, Increasing;
    EpochsOfSorted(bars);
    SortedDedupedAt(bars);
    forall i | 0 <= i < |bars|
      ensures SortedDeduped(bars)[i] == bars[i]
    {
      BarOfEpoch(bars, i);
    }
  }

  /** b comes last among the bars of its epoch. */
  ghost predicate LastOfEpoch(bars: seq<Bar>, b: Bar) {
    exists i :: 0 <= i < |bars| && bars[i] == b && forall j :: i < j < |bars| ==> bars[j].t != b.t
  }

  lemma LastUnfolds(bars: seq<Bar>, b: Bar)
    requires bars != []
    ensures var n := |bars| - 1;
            LastOfEpoch(bars, b) <==> b == bars[n] || (b.t != bars[n].t && LastOfEpoch(bars[..n], b))
  {
    var n := |bars| - 1;
    var init := bars[..n];
    if LastOfEpoch(bars, b) && b != bars[n] {
      var i :| 0 <= i < |bars| && bars[i] == b && forall j :: i < j < |bars| ==> bars[j].t != b.t;
      assert init[i] == b;
    }
    if b.t != bars[n].t && LastOfEpoch(init, b) {
      var i :| 0 <= i < n && init[i] == b && forall j :: i < j < n ==> init[j].t != b.t;
      assert bars[i] == b;
    }
  }

  lemma {:induction false} ByEpochIsLast(bars: seq<Bar>, b: Bar)
    ensures LastOfEpoch(bars, b) <==> b.t in ByEpoch(bars) && ByEpoch(bars)[b.t] == b
  {
    if bars != [] {
      LastUnfolds(bars, b);
      ByEpochIsLast(bars[..|bars| - 1], b);
      hide LastOfEpoch;
    }
  }

  /** The rebuild sees, by rising epoch, exactly the bars that come last in theirs. */
  lemma SortedDedupedExactly(bars: seq<Bar>, b: Bar)
    ensures Increasing(SortedDeduped(bars))
    ensures b in SortedDeduped(bars) <==> LastOfEpoch(bars, b)
  {
    hide ByEpoch, SortedSeq, Increasing, LastOfEpoch;
    var items, ts := SortedDeduped(bars), SortedSeq(ByEpoch(bars).Keys);
    SortedDedupedAt(bars);
    ByEpochIsLast(bars, b);
    if b in items {
      var i :| 0 <= i < |items| && items[i] == b;
      assert b == ByEpoch(bars)[ts[i]] && b.t == ts[i];
    }
    if LastOfEpoch(bars, b) {
      assert b.t in ByEpoch(bars).Keys;
      assert b.t in ts;
      var i :| 0 <= i < |ts| && ts[i] == b.t;
      assert items[i] == b;
    }
  }

  // ---- Live updates --------------------------------------------------------------------

  /** isLiveUpdate: only the last bar seems to have changed, or one was added. */
  predicate IsLive(prev: seq<Bar>, bars: seq<Bar>, viewportChange: bool) {
    && !viewportChange && bars != [] && prev != []
    && (|bars| == |prev| || |bars| == |prev| + 1)
    && (|bars| < 2 || bars[|bars| - 2].t == prev[|prev| - (if |bars| == |prev| then 2 else 1)].t)
  }

  datatype Op = Replace(bar: Bar) | Append(bar: Bar)

  /** As far as the length and the last bar but one tell, the bars are those after an update. */
  ghost predicate LooksLike(bars: seq<Bar>, updated: seq<Bar>) {
    |bars| == |updated| && (2 <= |bars| ==> bars[|bars| - 2].t == updated[|bars| - 2].t)
  }

  /** Anything else, a change of the viewport or a list that was or is empty is rebuilt. */
  lemma IsLiveExactly(prev: seq<Bar>, bars: seq<Bar>, viewportChange: bool)
    ensures IsLive(prev, bars, viewportChange) <==>
              !viewportChange && prev != [] && bars != [] && exists op :: LooksLike(bars, ApplyOp(prev, op))
  {
    if IsLive(prev, bars, viewportChange) {
      var b := bars[|bars| - 1];
      assert LooksLike(bars, ApplyOp(prev, if |bars| == |prev| then Replace(b) else Append(b)));
    }
  }

  function ApplyOp(bars: seq<Bar>, op: Op): seq<Bar>
    requires bars != []
  {
    match op
    case Replace(b) => bars[..|bars| - 1] + [b]
    case Append(b) => bars + [b]
  }

  function ApplyOps(bars: seq<Bar>, ops: seq<Op>): (r: seq<Bar>)
    requires bars != []
    ensures r != []
    decreases |ops|
  {
    if ops == [] then bars else ApplyOps(ApplyOp(bars, ops[0]), ops[1..])
  }

  /** The bars have rising epochs after each update. */
  ghost predicate StaysIncreasing(bars: seq<Bar>, ops: seq<Op>)
    requires bars != []
    decreases |ops|
  {
    Increasing(bars) && (ops != [] ==> StaysIncreasing(ApplyOp(bars, ops[0]), ops[1..]))
  }

  predicate KeepsEpoch(bars: seq<Bar>, op: Op)
    requires bars != []
  {
    op.Replace? ==> op.bar.t == bars[|bars| - 1].t
  }

  /** Every replacement of the last bar has the epoch of the bar it replaces. */
  ghost predicate KeepsEpochs(bars: seq<Bar>, ops: seq<Op>)
    requires bars != []
    decreases |ops|
  {
    ops != [] ==> KeepsEpoch(bars, ops[0]) && KeepsEpochs(ApplyOp(bars, ops[0]), ops[1..])
  }

  /** An update that leaves the earlier bars alone takes the live branch. */
  lemma OpsAreLive(bars: seq<Bar>, op: Op)
    requires bars != []
    ensures IsLive(bars, ApplyOp(bars, op), false)
    ensures |ApplyOp(bars, op)| == |bars| + 1 <==> op.Append?
  {
  }

  /** And a live update with unchanged earlier bars is such an operation. */
  lemma LiveIsOp(prev: seq<Bar>, bars: seq<Bar>, viewportChange: bool) returns (op: Op)
    requires IsLive(prev, bars, viewportChange) && bars[..|bars| - 1] == prev[..|bars| - 1]
    ensures bars == ApplyOp(prev, op)
  {
    op := if |bars| == |prev| then Replace(bars[|bars| - 1]) else Append(bars[|bars| - 1]);
    assert bars == bars[..|bars| - 1] + [bars[|bars| - 1]];
  }

  /** A shown series with a point that no bar accounts for. */
  ghost predicate Stale(s: Shown, bars: seq<Bar>) {
    s.Refused?
    || (bars != [] && s.points != []
        && s.points[|s.points| - 1].time == bars[|bars| - 1].t
        && exists i :: 0 <= i < |s.points| && s.points[i].time < bars[|bars| - 1].t
                       && forall k :: 0 <= k < |bars| ==> bars[k].t != s.points[i].time)
  }

  /** An update at another epoch than the last bar's leaves that point behind. */
  lemma LastPointStale(line: seq<Point>, bars: seq<Bar>, b: Bar, value: real)
    requires bars != [] && Increasing(bars) && line != [] && line[|line| - 1].time == bars[|bars| - 1].t != b.t
    ensures Stale(Update(Shown(line), Point(b.t, value)), bars[..|bars| - 1] + [b])
  {
    var u, next, n := Update(Shown(line), Point(b.t, value)), bars[..|bars| - 1] + [b], |bars| - 1;
    if u.Shown? {
      assert u.points[|line| - 1] == line[|line| - 1];
      assert forall k :: 0 <= k < n ==> next[k] == bars[k];
      assert next[n] == b;
    }
  }

  lemma StaleStays(s: Shown, bars: seq<Bar>, op: Op, value: real)
    requires bars != [] && Stale(s, bars) && Increasing(ApplyOp(bars, op))
    ensures Stale(Update(s, Point(op.bar.t, value)), ApplyOp(bars, op))
  {
    var u := Update(s, Point(op.bar.t, value));
    var next := ApplyOp(bars, op);
    if u.Shown? {
      var i :| 0 <= i < |s.points| && s.points[i].time < bars[|bars| - 1].t
               && forall k :: 0 <= k < |bars| ==> bars[k].t != s.points[i].time;
      assert u.points[i] == s.points[i];
      assert next[|next| - 1] == op.bar;
    }
  }
}

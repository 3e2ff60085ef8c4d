/** The VWAP line: buildVwapData, and the two cached states of the live branch. */
module ChartVwap {
  import opened Wrappers
  import opened ChartSeries

  datatype State = State(cumTPV: real, cumVol: real, prevTime: Option<int>, session: Option<int>)

  const INIT := State(0.0, 0.0, None, None)

  /** Sessions roll at 18:00 on the wall clock the epoch carries. */
  function CmeSessionId(t: int): int {
    var day, hour := t / 86400, t % 86400 / 3600;
    if hour >= 18 then day + 1 else day
  }

  lemma SessionIsSixHoursAhead(t: int)
    ensures CmeSessionId(t) == (t + 21600) / 86400
  {
  }

  predicate ShouldReset(prevTime: Option<int>, t: int, is24h: bool) {
    prevTime.Some? &&
    if is24h then CmeSessionId(t) != CmeSessionId(prevTime.value) else t - prevTime.value > 3600
  }

  function Zeroed(s: State): State { s.(cumTPV := 0.0, cumVol := 0.0) }

  function Volume(b: Bar): real { if b.volume.Some? then b.volume.value else 0.0 }

  /** The typical price times the volume. */
  function Turnover(b: Bar): real { (b.high + b.low + b.close) / 3.0 * Volume(b) }

  /** vwapPointFromState */
  function PointFrom(s: State, b: Bar, is24h: bool): (real, State) {
    var base := if ShouldReset(s.prevTime, b.t, is24h) then Zeroed(s) else s;
    var cumTPV := base.cumTPV + Turnover(b);
    var cumVol := base.cumVol + Volume(b);
    var fallback := if b.vwap.Some? then b.vwap.value else b.close;
    (if cumVol > 0.0 then cumTPV / cumVol else fallback,
     State(cumTPV, cumVol, Some(b.t), Some(CmeSessionId(b.t))))
  }

  /** The state and the line after all bars. */
  function Fold(bars: seq<Bar>, is24h: bool): State {
    if bars == [] then INIT else PointFrom(Fold(bars[..|bars| - 1], is24h), bars[|bars| - 1], is24h).1
  }

  function Line(bars: seq<Bar>, is24h: bool): (r: seq<Point>)
    ensures |r| == |bars| && forall i :: 0 <= i < |r| ==> r[i].time == bars[i].t
  {
    if bars == [] then []
    else
      var init, last := bars[..|bars| - 1], bars[|bars| - 1];
      Line(init, is24h) + [Point(last.t, PointFrom(Fold(init, is24h), last, is24h).0)]
  }

  /** The rebuild's statePreLast: a reset at the last bar has already been applied. */
  function PreLast(bars: seq<Bar>, is24h: bool): State {
    if bars == [] then INIT
    else
      var s := Fold(bars[..|bars| - 1], is24h);
      if ShouldReset(s.prevTime, bars[|bars| - 1].t, is24h) then Zeroed(s) else s
  }

  lemma PrefixStep(items: seq<Bar>, i: nat, is24h: bool)
    requires i < |items|
    ensures var s := Fold(items[..i], is24h);
            && Fold(items[..i + 1], is24h) == PointFrom(s, items[i], is24h).1
            && Line(items[..i + 1], is24h) == Line(items[..i], is24h) + [Point(items[i].t, PointFrom(s, items[i], is24h).0)]
            && (i == |items| - 1 ==>
                  PreLast(items, is24h) == if ShouldReset(s.prevTime, items[i].t, is24h) then Zeroed(s) else s)
  {
    assert items[..i + 1][..i] == items[..i];
  }

  lemma NoBars(is24h: bool)
    ensures Fold([], is24h) == INIT && Line([], is24h) == [] && PreLast([], is24h) == INIT
  {
  }

  function SessionOf(prevTime: Option<int>): Option<int> {
    if prevTime.Some? then Some(CmeSessionId(prevTime.value)) else None
  }

  /** The accumulators of the loop after one bar, and the value to draw. */
  method Accumulate(s: State, b: Bar, is24h: bool) returns (cumTPV: real, cumVol: real, value: real)
    ensures PointFrom(s, b, is24h) == (value, State(cumTPV, cumVol, Some(b.t), SessionOf(Some(b.t))))
  {
    cumTPV, cumVol := s.cumTPV, s.cumVol;
    if ShouldReset(s.prevTime, b.t, is24h) {
      cumTPV, cumVol := 0.0, 0.0;
    }
    cumTPV := cumTPV + Turnover(b);
    cumVol := cumVol + Volume(b);
    value := if cumVol > 0.0 then cumTPV / cumVol else if b.vwap.Some? then b.vwap.value else b.close;
  }

  /** The loop of buildVwapData. */
  method BuildVwapData(bars: seq<Bar>, is24h: bool) returns (data: seq<Point>, preLast: State, last: State)
    ensures var items := SortedDeduped(bars);
            data == Line(items, is24h) && preLast == PreLast(items, is24h) && last == Fold(items, is24h)
  {
    var items := SortedDeduped(bars);
    NoBars(is24h);
    hide Fold, Line, PreLast, PointFrom, ShouldReset, SortedDeduped, Increasing;
    assert items[..0] == [] && (|items| == 0 ==> items == []);
    var cumTPV, cumVol, prevTime: Option<int> := 0.0, 0.0, None;
    data, preLast := [], INIT;
    var i := 0;
    while i < |items|
      invariant 0 <= i <= |items|
      invariant data == Line(items[..i], is24h)
      invariant Fold(items[..i], is24h) == State(cumTPV, cumVol, prevTime, SessionOf(prevTime))
      invariant preLast == if i == |items| then PreLast(items, is24h) else INIT
    {
      var b := items[i];
      PrefixStep(items, i, is24h);
      var s := State(cumTPV, cumVol, prevTime, SessionOf(prevTime));
      if i == |items| - 1 {
        preLast := s;
        if ShouldReset(prevTime, b.t, is24h) {
          preLast := State(0.0, 0.0, prevTime, SessionOf(prevTime));
        }
      }
      var value;
      cumTPV, cumVol, value := Accumulate(s, b, is24h);
      prevTime := Some(b.t);
      data := data + [Point(b.t, value)];
      i := i + 1;
    }
    assert items[..i] == items;
    last := State(cumTPV, cumVol, prevTime, SessionOf(prevTime));
  }

  // ---- What the line shows ----------------------------------------------------------------------

  /** Bar k starts a session: its date, six hours ahead, is not that of the bar before,
      or, outside 24h markets, more than an hour lies between them. */
  predicate StartsSession(bars: seq<Bar>, k: nat, is24h: bool)
    requires k < |bars|
  {
    k == 0 ||
    if is24h then (bars[k].t + 21600) / 86400 != (bars[k - 1].t + 21600) / 86400
    else bars[k].t - bars[k - 1].t > 3600
  }

  /** Volume, and typical price times volume, of the bars k to i. */
  function VolumeOf(bars: seq<Bar>, k: nat, i: nat): real
    requires k <= i < |bars|
  {
    var volume := if bars[i].volume.Some? then bars[i].volume.value else 0.0;
    if i == k then volume else VolumeOf(bars, k, i - 1) + volume
  }

  function TypicalTurnover(bars: seq<Bar>, k: nat, i: nat): real
    requires k <= i < |bars|
  {
    var b := bars[i];
    var volume := if b.volume.Some? then b.volume.value else 0.0;
    var x := (b.high + b.low + b.close) / 3.0 * volume;
    if i == k then x else TypicalTurnover(bars, k, i - 1) + x
  }

  /** The session of bar i began with bar k. */
  ghost predicate SessionFrom(bars: seq<Bar>, k: nat, i: nat, is24h: bool) {
    k <= i < |bars| && StartsSession(bars, k, is24h) && forall j :: k < j <= i ==> !StartsSession(bars, j, is24h)
  }

  lemma ResetIsStart(bars: seq<Bar>, i: nat, is24h: bool)
    requires 0 < i < |bars|
    ensures ShouldReset(Some(bars[i - 1].t), bars[i].t, is24h) <==> StartsSession(bars, i, is24h)
  {
    SessionIsSixHoursAhead(bars[i].t);
    SessionIsSixHoursAhead(bars[i - 1].t);
    hide CmeSessionId;
  }

  /** The state holds the sums of the bars k to i. */
  ghost predicate Sums(s: State, bars: seq<Bar>, k: nat, i: nat) {
    && k <= i < |bars| && s.prevTime == Some(bars[i].t)
    && s.cumVol == VolumeOf(bars, k, i) && s.cumTPV == TypicalTurnover(bars, k, i)
  }

  lemma SumsStep(s: State, bars: seq<Bar>, k: nat, i: nat, is24h: bool)
    requires 0 < i < |bars| && Sums(s, bars, k, i - 1)
    ensures Sums(PointFrom(s, bars[i], is24h).1, bars, if StartsSession(bars, i, is24h) then i else k, i)
  {
    ResetIsStart(bars, i, is24h);
    hide ShouldReset, StartsSession, CmeSessionId;
  }

  lemma SumsStart(bars: seq<Bar>, is24h: bool)
    requires bars != []
    ensures Sums(Fold(bars[..1], is24h), bars, 0, 0)
  {
    NeverAtFirst(bars[0].t, is24h);
    hide ShouldReset, CmeSessionId;
    assert bars[..1][..0] == [];
    assert Fold(bars[..0], is24h) == INIT;
  }

  lemma {:induction false} FoldSums(bars: seq<Bar>, k: nat, i: nat, is24h: bool)
    requires SessionFrom(bars, k, i, is24h)
    ensures Sums(Fold(bars[..i + 1], is24h), bars, k, i)
    decreases i
  {
    hide StartsSession, Sums, PointFrom;
    if i == 0 {
      SumsStart(bars, is24h);
    } else {
      var start := StartOf(bars, i - 1, is24h);
      FoldSums(bars, start, i - 1, is24h);
      assert bars[..i + 1][..i] == bars[..i];
      SumsStep(Fold(bars[..i], is24h), bars, start, i, is24h);
      if k < i {
        OneStart(bars, k, start, i - 1, is24h);
      }
    }
  }

  lemma NeverAtFirst(t: int, is24h: bool)
    ensures !ShouldReset(None, t, is24h)
  {
  }

  lemma {:induction false} StartOf(bars: seq<Bar>, i: nat, is24h: bool) returns (k: nat)
    requires i < |bars|
    ensures SessionFrom(bars, k, i, is24h)
  {
    if StartsSession(bars, i, is24h) {
      k := i;
    } else {
      k := StartOf(bars, i - 1, is24h);
    }
  }

  lemma OneStart(bars: seq<Bar>, k: nat, l: nat, i: nat, is24h: bool)
    requires k <= i < |bars| && StartsSession(bars, k, is24h) && SessionFrom(bars, l, i, is24h)
    requires forall j :: k < j <= i ==> !StartsSession(bars, j, is24h)
    ensures k == l
  {
    hide StartsSession;
  }

  lemma {:induction false} LineAt(bars: seq<Bar>, i: nat, is24h: bool)
    requires i < |bars|
    ensures Line(bars, is24h)[i] == Point(bars[i].t, PointFrom(Fold(bars[..i], is24h), bars[i], is24h).0)
    decreases |bars|
  {
    hide PointFrom;
    var n := |bars| - 1;
    if i < n {
      LineAt(bars[..n], i, is24h);
      assert bars[..n][..i] == bars[..i];
    }
  }

  lemma Quotient(value: real, a: real, b: real)
    requires b > 0.0 && value == a / b
    ensures value * b == a
  {
  }

  /**
   * The line is the volume-weighted mean of (high + low + close) / 3 over the bars
   * of the session so far; without any volume it is the bar's own vwap, or its close.
   */
  lemma LineIsVwap(bars: seq<Bar>, k: nat, i: nat, is24h: bool)
    requires SessionFrom(bars, k, i, is24h)
    ensures var value := Line(bars, is24h)[i].value;
            if VolumeOf(bars, k, i) > 0.0 then value * VolumeOf(bars, k, i) == TypicalTurnover(bars, k, i)
            else value == if bars[i].vwap.Some? then bars[i].vwap.value else bars[i].close
  {
    hide VolumeOf, TypicalTurnover, StartsSession, ShouldReset, Turnover, Volume, Line;
    LineAt(bars, i, is24h);
    FoldSums(bars, k, i, is24h);
    assert bars[..i + 1][..i] == bars[..i];
    var s := Fold(bars[..i + 1], is24h);
    if s.cumVol > 0.0 {
      Quotient(Line(bars, is24h)[i].value, s.cumTPV, s.cumVol);
    }
  }

  // ---- The cache ---------------------------------------------------------------------------

  datatype Cache = Cache(prevBars: seq<Bar>, preLast: State, last: State, shown: Shown)

  function Rebuilt(bars: seq<Bar>, is24h: bool): Cache {
    var items := SortedDeduped(bars);
    Cache(bars, PreLast(items, is24h), Fold(items, is24h), Shown(Line(items, is24h)))
  }

  /** The live branch. */
  function Live(c: Cache, bars: seq<Bar>, is24h: bool): Cache
    requires bars != []
  {
    var b := bars[|bars| - 1];
    var isNew := |bars| == |c.prevBars| + 1;
    var (value, next) := PointFrom(if isNew then c.last else c.preLast, b, is24h);
    Cache(bars, if isNew then c.last else c.preLast, next, Update(c.shown, Point(b.t, value)))
  }

  function Effect(c: Cache, bars: seq<Bar>, viewportChange: bool, is24h: bool): Cache {
    if IsLive(c.prevBars, bars, viewportChange) then Live(c, bars, is24h) else Rebuilt(bars, is24h)
  }

  /** The refs of the component and the bar-data effect that updates them. */
  class VwapLine {
    const is24h: bool
    var prevBars: seq<Bar>
    var preLast: State
    var last: State
    var shown: Shown

    ghost function View(): Cache
      reads this
    {
      Cache(prevBars, preLast, last, shown)
    }

    constructor (is24h: bool)
      ensures this.is24h == is24h && View() == Cache([], INIT, INIT, Shown([]))
    {
      this.is24h := is24h;
      prevBars, preLast, last, shown := [], INIT, INIT, Shown([]);
    }

    method BarsChanged(bars: seq<Bar>, viewportChange: bool)
      modifies this
      ensures View() == Effect(old(View()), bars, viewportChange, is24h)
    {
      if IsLive(prevBars, bars, viewportChange) {
        var b := bars[|bars| - 1];
        var isNew := |bars| == |prevBars| + 1;
        var (value, next) := PointFrom(if isNew then last else preLast, b, is24h);
        shown := Update(shown, Point(b.t, value));
        if isNew {
          preLast := last;
        }
        last := next;
      } else {
        var data;
        data, preLast, last := BuildVwapData(bars, is24h);
        shown := Shown(data);
      }
      prevBars := bars;
    }
  }

  /** The cache after a rebuild from bars and the given live updates. */
  function AfterOps(c: Cache, bars: seq<Bar>, ops: seq<Op>, is24h: bool): Cache
    requires bars != []
    decreases |ops|
  {
    if ops == [] then c
    else
      var next := ApplyOp(bars, ops[0]);
      AfterOps(Effect(c, next, false, is24h), next, ops[1..], is24h)
  }

  // ---- Refinement ----------------------------------------------------------------------------

  /** The cached preLast is the fold before the last bar, up to a reset that the
      last bar triggers anyway. */
  ghost predicate SamePreLast(pre: State, bars: seq<Bar>, is24h: bool)
    requires bars != []
  {
    var s := Fold(bars[..|bars| - 1], is24h);
    pre == s || (pre == Zeroed(s) && ShouldReset(s.prevTime, bars[|bars| - 1].t, is24h))
  }

  ghost predicate InSync(c: Cache, bars: seq<Bar>, is24h: bool) {
    && bars != [] && c.prevBars == bars
    && SamePreLast(c.preLast, bars, is24h)
    && c.last == Fold(bars, is24h)
    && c.shown == Shown(Line(bars, is24h))
  }

  /** A live update that keeps the epoch of the last bar stays in sync. */
  lemma LiveKeepsSync(c: Cache, bars: seq<Bar>, op: Op, is24h: bool)
    requires InSync(c, bars, is24h) && KeepsEpoch(bars, op) && Increasing(ApplyOp(bars, op))
    ensures InSync(Effect(c, ApplyOp(bars, op), false, is24h), ApplyOp(bars, op), is24h)
  {
    OpsAreLive(bars, op);
    if op.Append? {
      AppendKeepsSync(c, bars, op.bar, is24h);
    } else {
      ReplaceKeepsSync(c, bars, op.bar, is24h);
    }
  }

  lemma AppendKeepsSync(c: Cache, bars: seq<Bar>, b: Bar, is24h: bool)
    requires InSync(c, bars, is24h) && Increasing(bars + [b])
    ensures InSync(Live(c, bars + [b], is24h), bars + [b], is24h)
  {
    var next, n := bars + [b], |bars|;
    assert next[..n] == bars && next[n] == b;
    assert bars[n - 1].t < b.t by {
      assert next[n - 1] == bars[n - 1];
    }
    LastPoint(bars, b, is24h);
    assert SamePreLast(c.last, next, is24h);
    hide Increasing, PointFrom, ShouldReset, Fold, Zeroed, Line, SamePreLast;
  }

  /** A bar that starts a session does not see the sums before it. */
  lemma ResetForgets(pre: State, s: State, b: Bar, is24h: bool)
    requires pre == s || (pre == Zeroed(s) && ShouldReset(s.prevTime, b.t, is24h))
    ensures PointFrom(pre, b, is24h) == PointFrom(s, b, is24h)
  {
    hide Turnover, Volume, CmeSessionId;
  }

  lemma LastPoint(init: seq<Bar>, b: Bar, is24h: bool)
    ensures var bars := init + [b];
            var (value, s) := PointFrom(Fold(init, is24h), b, is24h);
            Fold(bars, is24h) == s && Line(bars, is24h) == Line(init, is24h) + [Point(b.t, value)]
  {
    assert (init + [b])[..|init|] == init;
    hide PointFrom;
  }

  lemma ReplaceKeepsSync(c: Cache, bars: seq<Bar>, b: Bar, is24h: bool)
    requires InSync(c, bars, is24h) && b.t == bars[|bars| - 1].t
    ensures InSync(Live(c, bars[..|bars| - 1] + [b], is24h), bars[..|bars| - 1] + [b], is24h)
  {
    var n := |bars| - 1;
    var init, last := bars[..n], bars[n];
    var next := init + [b];
    assert bars == init + [last] && next[..n] == init && next[n] == b;
    LastPoint(init, last, is24h);
    LastPoint(init, b, is24h);
    ResetForgets(c.preLast, Fold(init, is24h), b, is24h);
    assert SamePreLast(c.preLast, next, is24h);
    var line := Line(init, is24h);
    var value := PointFrom(Fold(init, is24h), b, is24h).0;
    UpdateSameTime(line, Point(last.t, PointFrom(Fold(init, is24h), last, is24h).0), Point(b.t, value));
    hide Fold, PointFrom, ShouldReset, Zeroed, Line, Update, SamePreLast;
  }

  /** One that changes it leaves a stale point on the chart, or is refused. */
  lemma ChangedEpochGoesStale(c: Cache, bars: seq<Bar>, op: Op, is24h: bool)
    requires bars != [] && c.prevBars == bars && c.shown == Shown(Line(bars, is24h))
    requires op.Replace? && op.bar.t != bars[|bars| - 1].t && Increasing(bars)
    ensures Stale(Effect(c, ApplyOp(bars, op), false, is24h).shown, ApplyOp(bars, op))
  {
    OpsAreLive(bars, op);
    var value := PointFrom(c.preLast, op.bar, is24h).0;
    assert Line(bars, is24h)[|bars| - 1].time == bars[|bars| - 1].t;
    hide Stale, Line, PointFrom, Increasing;
    LastPointStale(Line(bars, is24h), bars, op.bar, value);
  }

  lemma {:induction false} StaleForGood(c: Cache, bars: seq<Bar>, ops: seq<Op>, is24h: bool)
    requires bars != [] && c.prevBars == bars && Stale(c.shown, bars) && StaysIncreasing(bars, ops)
    ensures Stale(AfterOps(c, bars, ops, is24h).shown, ApplyOps(bars, ops))
    decreases |ops|
  {
    if ops != [] {
      OpsAreLive(bars, ops[0]);
      var next := ApplyOp(bars, ops[0]);
      var n := Effect(c, next, false, is24h);
      var value := PointFrom(if |next| == |bars| + 1 then c.last else c.preLast, ops[0].bar, is24h).0;
      assert next[|next| - 1] == ops[0].bar;
      assert n.shown == Update(c.shown, Point(ops[0].bar.t, value));
      StaleStays(c.shown, bars, ops[0], value);
      StaleForGood(n, next, ops[1..], is24h);
    }
  }

  lemma StaleIsWrong(s: Shown, bars: seq<Bar>, is24h: bool)
    requires Stale(s, bars)
    ensures s != Shown(Line(bars, is24h))
  {
    if s.Shown? {
      var i :| 0 <= i < |s.points| && forall k :: 0 <= k < |bars| ==> bars[k].t != s.points[i].time;
      assert i < |bars| ==> Line(bars, is24h)[i].time == bars[i].t;
    }
  }

  lemma {:induction false} OpsInSyncIff(c: Cache, bars: seq<Bar>, ops: seq<Op>, is24h: bool)
    requires InSync(c, bars, is24h) && StaysIncreasing(bars, ops)
    ensures KeepsEpochs(bars, ops) ==> InSync(AfterOps(c, bars, ops, is24h), ApplyOps(bars, ops), is24h)
    ensures !KeepsEpochs(bars, ops) ==> Stale(AfterOps(c, bars, ops, is24h).shown, ApplyOps(bars, ops))
    decreases |ops|
  {
    if ops != [] {
      var next := ApplyOp(bars, ops[0]);
      var n := Effect(c, next, false, is24h);
      OpsAreLive(bars, ops[0]);
      if KeepsEpoch(bars, ops[0]) {
        LiveKeepsSync(c, bars, ops[0], is24h);
        OpsInSyncIff(n, next, ops[1..], is24h);
      } else {
        ChangedEpochGoesStale(c, bars, ops[0], is24h);
        StaleForGood(n, next, ops[1..], is24h);
      }
    }
  }

  lemma RebuiltInSync(bars: seq<Bar>, is24h: bool)
    requires bars != [] && Increasing(bars)
    ensures InSync(Rebuilt(bars, is24h), bars, is24h)
  {
    IncreasingIsItself(bars);
  }

  /**
   * After a rebuild and any live updates that leave the earlier bars alone, the
   * line on the chart is the line a rebuild of the final bars would draw,
   * session resets included, if and only if no update of the last bar changed
   * its epoch.
   */
  lemma LiveLineIsRebuild(bars: seq<Bar>, ops: seq<Op>, is24h: bool)
    requires bars != [] && StaysIncreasing(bars, ops)
    ensures KeepsEpochs(bars, ops) <==>
              AfterOps(Rebuilt(bars, is24h), bars, ops, is24h).shown == Rebuilt(ApplyOps(bars, ops), is24h).shown
    ensures KeepsEpochs(bars, ops) ==>
              AfterOps(Rebuilt(bars, is24h), bars, ops, is24h).last == Rebuilt(ApplyOps(bars, ops), is24h).last
  {
    RebuiltInSync(bars, is24h);
    OpsInSyncIff(Rebuilt(bars, is24h), bars, ops, is24h);
    FinalIncreasing(bars, ops);
    IncreasingIsItself(ApplyOps(bars, ops));
    if !KeepsEpochs(bars, ops) {
      StaleIsWrong(AfterOps(Rebuilt(bars, is24h), bars, ops, is24h).shown, ApplyOps(bars, ops), is24h);
    }
  }

  lemma {:induction false} FinalIncreasing(bars: seq<Bar>, ops: seq<Op>)
    requires bars != [] && StaysIncreasing(bars, ops)
    ensures Increasing(ApplyOps(bars, ops))
    decreases |ops|
  {
    if ops != [] {
      FinalIncreasing(ApplyOp(bars, ops[0]), ops[1..]);
    }
  }

  // ---- The cached previous state ---------------------------------------------------------

  function HasAppend(ops: seq<Op>): bool {
    ops != [] && (ops[0].Append? || HasAppend(ops[1..]))
  }

  /** Once something was appended, preLast is the fold before the last bar; until
      then it is what the rebuild left. */
  ghost predicate PreLastIs(c: Cache, bars: seq<Bar>, appended: bool, is24h: bool)
    requires bars != []
  {
    c.preLast == if appended then Fold(bars[..|bars| - 1], is24h) else PreLast(bars, is24h)
  }

  lemma AppendShiftsPreLast(c: Cache, bars: seq<Bar>, b: Bar, is24h: bool)
    requires InSync(c, bars, is24h)
    ensures PreLastIs(Live(c, bars + [b], is24h), bars + [b], true, is24h)
  {
    assert (bars + [b])[..|bars|] == bars;
    hide Fold, Line, PointFrom, SamePreLast, Update, PreLast;
  }

  lemma ReplaceKeepsPreLast(c: Cache, bars: seq<Bar>, b: Bar, appended: bool, is24h: bool)
    requires bars != [] && c.prevBars == bars && PreLastIs(c, bars, appended, is24h) && b.t == bars[|bars| - 1].t
    ensures var next := bars[..|bars| - 1] + [b];
            PreLastIs(Live(c, next, is24h), next, appended, is24h)
  {
    var n := |bars| - 1;
    var next := bars[..n] + [b];
    assert next[..n] == bars[..n] && next[n] == b && |next| == |bars|;
    hide Fold, PointFrom, Update, ShouldReset, Zeroed;
  }

  lemma {:induction false} PreLastOfOps(c: Cache, bars: seq<Bar>, ops: seq<Op>, appended: bool, is24h: bool)
    requires InSync(c, bars, is24h) && PreLastIs(c, bars, appended, is24h)
    requires StaysIncreasing(bars, ops) && KeepsEpochs(bars, ops)
    ensures PreLastIs(AfterOps(c, bars, ops, is24h), ApplyOps(bars, ops), appended || HasAppend(ops), is24h)
    decreases |ops|
  {
    if ops != [] {
      var next := ApplyOp(bars, ops[0]);
      var n := Effect(c, next, false, is24h);
      OpsAreLive(bars, ops[0]);
      LiveKeepsSync(c, bars, ops[0], is24h);
      if ops[0].Append? {
        AppendShiftsPreLast(c, bars, ops[0].bar, is24h);
      } else {
        ReplaceKeepsPreLast(c, bars, ops[0].bar, appended, is24h);
      }
      hide InSync, PreLastIs, IsLive, Live, Increasing;
      PreLastOfOps(n, next, ops[1..], appended || ops[0].Append?, is24h);
    }
  }

  /**
   * After any live updates that keep the last bar's epoch, the cached previous
   * state is the one a rebuild of the final bars would leave if and only if
   * nothing was appended, or the final bar starts no session, or no sums are
   * left before it: only a rebuild clears them there.
   */
  lemma PreLastIsRebuild(bars: seq<Bar>, ops: seq<Op>, is24h: bool)
    requires bars != [] && StaysIncreasing(bars, ops) && KeepsEpochs(bars, ops)
    ensures var final := ApplyOps(bars, ops);
            var s := Fold(final[..|final| - 1], is24h);
            AfterOps(Rebuilt(bars, is24h), bars, ops, is24h).preLast == Rebuilt(final, is24h).preLast <==>
              || !HasAppend(ops)
              || !ShouldReset(s.prevTime, final[|final| - 1].t, is24h)
              || (s.cumTPV == 0.0 && s.cumVol == 0.0)
  {
    var final := ApplyOps(bars, ops);
    RebuiltInSync(bars, is24h);
    RebuiltPreLast(bars, is24h);
    PreLastOfOps(Rebuilt(bars, is24h), bars, ops, false, is24h);
    FinalIncreasing(bars, ops);
    RebuiltPreLast(final, is24h);
    hide Fold, AfterOps, ApplyOps, Rebuilt, InSync, ShouldReset, HasAppend, StaysIncreasing, KeepsEpochs, Increasing;
  }

  lemma RebuiltPreLast(bars: seq<Bar>, is24h: bool)
    requires bars != [] && Increasing(bars)
    ensures Rebuilt(bars, is24h).preLast == PreLast(bars, is24h)
    ensures PreLastIs(Rebuilt(bars, is24h), bars, false, is24h)
  {
    IncreasingIsItself(bars);
    hide SortedDeduped, Increasing, PreLast, Fold, Line;
  }
}

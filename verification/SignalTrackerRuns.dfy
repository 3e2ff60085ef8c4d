/** Whole days of the simulated tracker: any mix of bars and pipeline outputs, then the close. */
module SignalTrackerRuns {
  import opened Wrappers
  import opened SignalTracker

  datatype Event = Tick(bar: Bar) | Output(setups: seq<Setup>)

  function Bars(events: seq<Event>): seq<Bar> {
    if events == [] then []
    else
      var n := |events| - 1;
      if events[n].Tick? then Bars(events[..n]) + [events[n].bar] else Bars(events[..n])
  }

  function Step(s: State, e: Event, c: Config): State {
    match e
    case Tick(bar) => PreBar(s, bar, c.maxHold)
    case Output(setups) => s.(pending := Pending(setups, c.minGrade))
  }

  function Exec(events: seq<Event>, c: Config): State {
    if events == [] then FRESH else Step(Exec(events[..|events| - 1], c), events[|events| - 1], c)
  }

  /** _feed_session_day. */
  function Day(events: seq<Event>, c: Config): State {
    var bars := Bars(events);
    if bars == [] then Exec(events, c) else CloseRemaining(Exec(events, c), bars[|bars| - 1])
  }

  // ---- Openings and closings, seen from outside ------------------------------------------------

  /** A position opened on bar number `bar` of the day. */
  datatype Opening = Opening(bar: int, order: Order)

  /** Every change from flat to in position. */
  function Openings(events: seq<Event>, c: Config): seq<Opening> {
    if events == [] then []
    else
      var n := |events| - 1;
      var before, now := Exec(events[..n], c), Exec(events, c);
      Openings(events[..n], c)
      + if before.open.None? && now.open.Some? then [Opening(|Bars(events)| - 1, now.open.value.order)] else []
  }

  /** The bars that closed a position, the end of the day excluded. */
  function ExitBars(events: seq<Event>, c: Config): seq<int> {
    if events == [] then []
    else
      var n := |events| - 1;
      ExitBars(events[..n], c)
      + if |Exec(events[..n], c).signals| < |Exec(events, c).signals| then [|Bars(events)| - 1] else []
  }

  function DayExits(events: seq<Event>, c: Config): seq<int> {
    ExitBars(events, c) + if Exec(events, c).open.Some? then [|Bars(events)| - 1] else []
  }

  /** Entered on bar e, and no bar after it up to number `until` met an exit. */
  ghost predicate Held(o: Order, entryTs: int, e: int, until: int, bars: seq<Bar>, maxHold: int) {
    && 0 <= e <= until < |bars|
    && bars[e].ts == entryTs && Triggered(o, bars[e])
    && forall k :: e < k <= until ==> Exit(o, k - e, bars[k], maxHold).None?
  }

  /** r closed on bar x, the first with an exit after its entry on bar e. */
  ghost predicate FirstExit(r: Record, e: int, x: int, bars: seq<Bar>, maxHold: int) {
    && e < x < |bars| && r.hold == x - e
    && Held(r.order, r.entryTs, e, x - 1, bars, maxHold)
    && var f := Exit(r.order, x - e, bars[x], maxHold);
       f.Some? && r == RecordOf(Position(r.order, r.entryTs, r.hold), bars[x].ts, f.value)
  }

  /** r was still held on the last bar and closed there. */
  ghost predicate ClosedAtEnd(r: Record, e: int, x: int, bars: seq<Bar>, maxHold: int) {
    && x == |bars| - 1 && 0 <= e && r.hold == x - e
    && Held(r.order, r.entryTs, e, x, bars, maxHold)
    && r == RecordOf(Position(r.order, r.entryTs, r.hold), bars[x].ts, Fill(bars[x].close, SessionEnd))
  }

  // ---- The invariant ---------------------------------------------------------------------------

  ghost predicate Ledger(signals: seq<Record>, os: seq<Opening>, xs: seq<int>, bars: seq<Bar>, maxHold: int) {
    && |signals| == |xs| <= |os|
    && (forall i :: 0 <= i < |xs| ==>
          os[i].order == signals[i].order && FirstExit(signals[i], os[i].bar, xs[i], bars, maxHold))
    && (forall i, j :: 0 <= i < |xs| && i < j < |os| ==> xs[i] < os[j].bar)
  }

  ghost predicate Current(open: Option<Position>, os: seq<Opening>, xs: seq<int>, bars: seq<Bar>, maxHold: int) {
    match open
    case None => |os| == |xs|
    case Some(p) =>
      && |os| == |xs| + 1
      && os[|xs|] == Opening(|bars| - 1 - p.held, p.order)
      && Held(p.order, p.entryTs, |bars| - 1 - p.held, |bars| - 1, bars, maxHold)
  }

  ghost predicate Inv(events: seq<Event>, c: Config) {
    var s, os, xs, bars := Exec(events, c), Openings(events, c), ExitBars(events, c), Bars(events);
    Ledger(s.signals, os, xs, bars, c.maxHold) && Current(s.open, os, xs, bars, c.maxHold)
  }

  lemma MoreBars(r: Record, e: int, x: int, bars: seq<Bar>, bar: Bar, maxHold: int)
    requires FirstExit(r, e, x, bars, maxHold)
    ensures FirstExit(r, e, x, bars + [bar], maxHold)
  {
    hide Exit, Triggered, RecordOf;
    var more := bars + [bar];
    assert forall k :: 0 <= k < |bars| ==> more[k] == bars[k];
  }

  lemma LedgerMoreBars(signals: seq<Record>, os: seq<Opening>, xs: seq<int>, bars: seq<Bar>, bar: Bar, maxHold: int)
    requires Ledger(signals, os, xs, bars, maxHold)
    ensures Ledger(signals, os, xs, bars + [bar], maxHold)
  {
    forall i | 0 <= i < |xs|
      ensures FirstExit(signals[i], os[i].bar, xs[i], bars + [bar], maxHold)
    {
      MoreBars(signals[i], os[i].bar, xs[i], bars, bar, maxHold);
    }
    hide FirstExit;
  }

  lemma ExitBeforeNow(signals: seq<Record>, os: seq<Opening>, xs: seq<int>, bars: seq<Bar>, maxHold: int, i: int)
    requires Ledger(signals, os, xs, bars, maxHold) && 0 <= i < |xs|
    ensures xs[i] < |bars|
  {
  }

  /** A bar that finds the tracker flat. */
  lemma FlatBar(s: State, os: seq<Opening>, xs: seq<int>, bars: seq<Bar>, bar: Bar, maxHold: int)
    requires Ledger(s.signals, os, xs, bars, maxHold) && Current(s.open, os, xs, bars, maxHold) && s.open.None?
    ensures var t := PreBar(s, bar, maxHold);
            var ps := os + if t.open.Some? then [Opening(|bars|, t.open.value.order)] else [];
            && t.signals == s.signals
            && Ledger(s.signals, ps, xs, bars + [bar], maxHold) && Current(t.open, ps, xs, bars + [bar], maxHold)
  {
    LedgerMoreBars(s.signals, os, xs, bars, bar, maxHold);
    FirstTouches(s.pending, bar);
    forall i | 0 <= i < |xs|
      ensures xs[i] < |bars|
    {
      ExitBeforeNow(s.signals, os, xs, bars, maxHold, i);
    }
    hide FirstExit, Exit;
  }

  lemma {:induction false} FirstTouches(pending: seq<Order>, bar: Bar)
    ensures var o := FirstTriggered(pending, bar);
            o.Some? ==> Triggered(o.value, bar) && o.value in pending
  {
    if pending != [] {
      FirstTouches(pending[1..], bar);
    }
  }

  /** A bar that finds a position open. */
  lemma HeldBar(s: State, os: seq<Opening>, xs: seq<int>, bars: seq<Bar>, bar: Bar, maxHold: int)
    requires Ledger(s.signals, os, xs, bars, maxHold) && Current(s.open, os, xs, bars, maxHold) && s.open.Some?
    ensures var t := PreBar(s, bar, maxHold);
            var ys := xs + if t.open.None? then [|bars|] else [];
            && |t.signals| == |s.signals| + (if t.open.None? then 1 else 0)
            && Ledger(t.signals, os, ys, bars + [bar], maxHold) && Current(t.open, os, ys, bars + [bar], maxHold)
  {
    LedgerMoreBars(s.signals, os, xs, bars, bar, maxHold);
    var p := s.open.value;
    var more := bars + [bar];
    var e := |bars| - 1 - p.held;
    assert forall k :: 0 <= k < |bars| ==> more[k] == bars[k];
    assert Held(p.order, p.entryTs, e, |bars| - 1, more, maxHold);
    hide RecordOf, Exit;
    var f := Exit(p.order, p.held + 1, bar, maxHold);
    if f.Some? {
      var r := RecordOf(p.(held := p.held + 1), bar.ts, f.value);
      RecordKeeps(p.(held := p.held + 1), bar.ts, f.value);
      assert FirstExit(r, e, |bars|, more, maxHold);
    } else {
      assert Held(p.order, p.entryTs, e, |bars|, more, maxHold);
    }
  }

  lemma RecordKeeps(p: Position, ts: int, f: Fill)
    ensures var r := RecordOf(p, ts, f);
            r.order == p.order && r.entryTs == p.entryTs && r.hold == p.held && p == Position(r.order, r.entryTs, r.hold)
  {
  }

  /** How one bar changes the four lists. */
  lemma TickUnfolds(events: seq<Event>, c: Config)
    requires events != [] && events[|events| - 1].Tick?
    ensures var n := |events| - 1;
            var s, t, bars := Exec(events[..n], c), Exec(events, c), Bars(events[..n]);
            && t == PreBar(s, events[n].bar, c.maxHold) && Bars(events) == bars + [events[n].bar]
            && Openings(events, c) == Openings(events[..n], c)
               + (if s.open.None? && t.open.Some? then [Opening(|bars|, t.open.value.order)] else [])
            && ExitBars(events, c) == ExitBars(events[..n], c)
               + (if |s.signals| < |t.signals| then [|bars|] else [])
  {
  }

  lemma OutputUnfolds(events: seq<Event>, c: Config)
    requires events != [] && events[|events| - 1].Output?
    ensures var n := |events| - 1;
            var s, t := Exec(events[..n], c), Exec(events, c);
            && t.open == s.open && t.signals == s.signals && Bars(events) == Bars(events[..n])
            && Openings(events, c) == Openings(events[..n], c)
            && ExitBars(events, c) == ExitBars(events[..n], c)
  {
    hide Pending;
  }

  lemma TickKeeps(events: seq<Event>, c: Config)
    requires events != [] && events[|events| - 1].Tick? && Inv(events[..|events| - 1], c)
    ensures Inv(events, c)
  {
    TickUnfolds(events, c);
    var n := |events| - 1;
    var s, os, xs, bars := Exec(events[..n], c), Openings(events[..n], c), ExitBars(events[..n], c), Bars(events[..n]);
    if s.open.None? {
      FlatBar(s, os, xs, bars, events[n].bar, c.maxHold);
    } else {
      HeldBar(s, os, xs, bars, events[n].bar, c.maxHold);
    }
    hide Ledger, Current, PreBar, Exec, Openings, ExitBars, Bars;
    assert os + [] == os && xs + [] == xs;
  }

  /** The invariant holds in every reachable state. */
  lemma {:induction false} RunKeeps(events: seq<Event>, c: Config)
    ensures Inv(events, c)
  {
    if events != [] {
      RunKeeps(events[..|events| - 1], c);
      if events[|events| - 1].Tick? {
        TickKeeps(events, c);
      } else {
        OutputUnfolds(events, c);
        hide Ledger, Current, Exec, Openings, ExitBars, Bars;
      }
    }
  }

  // ---- Whole days ------------------------------------------------------------------------------

  /** Record r belongs to opening o and to the closing on bar x. */
  ghost predicate Trade(r: Record, o: Opening, x: int, bars: seq<Bar>, maxHold: int) {
    && r.order == o.order
    && (FirstExit(r, o.bar, x, bars, maxHold) || ClosedAtEnd(r, o.bar, x, bars, maxHold))
  }

  /**
   * Each opened position of a day yields exactly one record, in order; it is
   * closed on the first bar after the entry that meets an exit, or on the last
   * bar; the windows [entry, exit] are disjoint; and nobody is held longer
   * than max_hold_bars.
   */
  lemma DayTrades(events: seq<Event>, c: Config)
    ensures var day, os, xs, bars := Day(events, c), Openings(events, c), DayExits(events, c), Bars(events);
            && day.open.None?
            && |day.signals| == |os| == |xs|
            && (forall i :: 0 <= i < |os| ==> Trade(day.signals[i], os[i], xs[i], bars, c.maxHold))
            && (forall i, j :: 0 <= i < j < |os| ==> xs[i] < os[j].bar)
            && (1 <= c.maxHold ==> forall i :: 0 <= i < |os| ==> day.signals[i].hold <= c.maxHold)
  {
    hide Ledger, Current, Trade, Exec, Openings, ExitBars, Bars, CloseRemaining;
    RunKeeps(events, c);
    DayEnd(Exec(events, c), Openings(events, c), ExitBars(events, c), Bars(events), c.maxHold);
    if 1 <= c.maxHold {
      HoldsBounded(Day(events, c).signals, Openings(events, c), DayExits(events, c), Bars(events), c.maxHold);
    }
  }

  lemma HoldsBounded(signals: seq<Record>, os: seq<Opening>, xs: seq<int>, bars: seq<Bar>, maxHold: int)
    requires 1 <= maxHold && |signals| == |os| == |xs|
    requires forall i :: 0 <= i < |os| ==> Trade(signals[i], os[i], xs[i], bars, maxHold)
    ensures forall i :: 0 <= i < |os| ==> signals[i].hold <= maxHold
  {
    hide Trade;
    forall i | 0 <= i < |os|
      ensures signals[i].hold <= maxHold
    {
      HoldBound(signals[i], os[i], xs[i], bars, maxHold);
    }
  }

  lemma DayEnd(s: State, os: seq<Opening>, xs: seq<int>, bars: seq<Bar>, maxHold: int)
    requires Ledger(s.signals, os, xs, bars, maxHold) && Current(s.open, os, xs, bars, maxHold)
    ensures s.open.Some? ==> bars != []
    ensures var t := if bars == [] then s else CloseRemaining(s, bars[|bars| - 1]);
            var ys := xs + if s.open.Some? then [|bars| - 1] else [];
            && t.open.None? && |t.signals| == |os| == |ys|
            && (forall i :: 0 <= i < |os| ==> Trade(t.signals[i], os[i], ys[i], bars, maxHold))
            && (forall i, j :: 0 <= i < j < |os| ==> ys[i] < os[j].bar)
  {
    if s.open.Some? {
      var p := s.open.value;
      var last := bars[|bars| - 1];
      RecordKeeps(p, last.ts, Fill(last.close, SessionEnd));
      hide RecordOf, Exit;
      assert ClosedAtEnd(RecordOf(p, last.ts, Fill(last.close, SessionEnd)), os[|xs|].bar, |bars| - 1, bars, maxHold);
    }
    hide FirstExit, ClosedAtEnd;
  }

  lemma HoldBound(r: Record, o: Opening, x: int, bars: seq<Bar>, maxHold: int)
    requires 1 <= maxHold && Trade(r, o, x, bars, maxHold)
    ensures r.hold <= maxHold
  {
    if FirstExit(r, o.bar, x, bars, maxHold) {
      if r.hold > 1 {
        assert Exit(r.order, x - 1 - o.bar, bars[x - 1], maxHold).None?;
      }
    } else if r.hold > 0 {
      assert Exit(r.order, x - o.bar, bars[x], maxHold).None?;
    }
  }

  function LatestOutput(events: seq<Event>): seq<Setup> {
    if events == [] then []
    else
      var n := |events| - 1;
      if events[n].Output? then events[n].setups else LatestOutput(events[..n])
  }

  /** Setups of earlier outputs are forgotten. */
  lemma {:induction false} PendingIsLatest(events: seq<Event>, c: Config)
    ensures Exec(events, c).pending == Pending(LatestOutput(events), c.minGrade)
  {
    if events != [] {
      PendingIsLatest(events[..|events| - 1], c);
    } else {
      assert Candidates([]) == [];
    }
  }

  /**
   * On a bar that finds the tracker flat, a position opens if and only if the
   * latest output has a qualifying setup whose trigger the bar touches, and it
   * is one of best grade among those, ties going to the smallest id.
   */
  lemma OpensTheBestOfTheLatest(events: seq<Event>, bar: Bar, c: Config)
    requires Exec(events, c).open.None?
    ensures var setups, entered := LatestOutput(events), Exec(events + [Tick(bar)], c).open;
            if entered.None? then
              forall y :: y in setups && Wanted(y, c.minGrade) ==> !Reaches(OrderOf(y), bar)
            else
              exists x :: BestReached(x, setups, c.minGrade, bar) && entered == Some(Position(OrderOf(x), bar.ts, 0))
  {
    PendingIsLatest(events, c);
    EntersTheBest(Exec(events, c), LatestOutput(events), c, bar);
    assert (events + [Tick(bar)])[..|events|] == events;
    assert Exec(events + [Tick(bar)], c) == PreBar(Exec(events, c), bar, c.maxHold);
    hide PreBar, Pending, Reaches, BestReached, LatestOutput, Wanted;
  }

  // ---- Why a trade closes -------------------------------------------------------------------------

  /** The bar opens at the stop or beyond it. */
  predicate OpensAtStop(o: Order, b: Bar) {
    if o.side.Buy? then b.open <= o.stop else o.stop <= b.open
  }

  predicate TouchesStop(o: Order, b: Bar) {
    if o.side.Buy? then b.low <= o.stop else o.stop <= b.high
  }

  predicate TouchesTarget(o: Order, b: Bar) {
    if o.side.Buy? then o.target <= b.high else b.low <= o.target
  }

  /** Nothing on bar k closes a position entered on bar e. */
  predicate StaysOpen(o: Order, e: int, k: int, bar: Bar, maxHold: int) {
    !OpensAtStop(o, bar) && !TouchesStop(o, bar) && !TouchesTarget(o, bar) && k - e < maxHold
  }

  /**
   * Every reason to close, and the price, in terms of the exit bar alone: a gap
   * comes before the stop, the stop before the target, and all before the time limit.
   */
  lemma ClosesFor(r: Record, o: Opening, x: int, bars: seq<Bar>, maxHold: int)
    requires Trade(r, o, x, bars, maxHold)
    ensures var b, p := bars[x], r.order;
            if r.reason == SessionEnd then
              x == |bars| - 1 && r.exitPrice == b.close && (r.hold > 0 ==> StaysOpen(p, o.bar, x, b, maxHold))
            else
              && r.hold > 0
              && (r.reason == StopHitGap <==> OpensAtStop(p, b))
              && (r.reason == StopHit <==> !OpensAtStop(p, b) && TouchesStop(p, b))
              && (r.reason == TargetHit <==> !OpensAtStop(p, b) && !TouchesStop(p, b) && TouchesTarget(p, b))
              && (r.reason == Timeout <==>
                    !OpensAtStop(p, b) && !TouchesStop(p, b) && !TouchesTarget(p, b) && maxHold <= r.hold)
              && (r.exitPrice == match r.reason
                                 case StopHit => p.stop
                                 case TargetHit => p.target
                                 case StopHitGap => b.open
                                 case _ => b.close)
    ensures forall k :: o.bar < k < x ==> StaysOpen(r.order, o.bar, k, bars[k], maxHold)
  {
    forall k | o.bar < k < x
      ensures StaysOpen(r.order, o.bar, k, bars[k], maxHold)
    {
      assert Exit(r.order, k - o.bar, bars[k], maxHold).None?;
    }
    if !FirstExit(r, o.bar, x, bars, maxHold) && r.hold > 0 {
      assert Exit(r.order, x - o.bar, bars[x], maxHold).None?;
    }
  }

  /** The other fields of a record. */
  lemma RecordSays(r: Record, o: Opening, x: int, bars: seq<Bar>, maxHold: int)
    requires Trade(r, o, x, bars, maxHold)
    ensures r.entryTs == bars[o.bar].ts && r.exitTs == bars[x].ts && r.hold == x - o.bar
    ensures Reaches(r.order, bars[o.bar])
    ensures r.pnl == if r.order.side.Buy? then r.exitPrice - r.order.entry else r.order.entry - r.exitPrice
    ensures 0.0 <= r.risk && (r.risk == r.order.entry - r.order.stop || r.risk == r.order.stop - r.order.entry)
    ensures 0.0 <= r.reward && (r.reward == r.order.target - r.order.entry || r.reward == r.order.entry - r.order.target)
    ensures if 0.0 < r.risk then r.rr * r.risk == r.reward else r.rr == 0.0
    ensures r.outcome == Incomplete <==> r.reason == SessionEnd
    ensures r.reason != SessionEnd ==>
              (r.outcome == Win <==> 0.01 < r.pnl) && (r.outcome == Loss <==> r.pnl < -0.01)
  {
    hide Exit;
  }

  // ---- What a trade earns --------------------------------------------------------------------------

  predicate WellFormed(o: Order) {
    if o.side.Buy? then o.stop < o.entry < o.target else o.target < o.entry < o.stop
  }

  predicate WellFormedBar(b: Bar) {
    b.low <= b.open <= b.high && b.low <= b.close <= b.high
  }

  /**
   * The target earns exactly the reward, the stop loses exactly the risk, a gap
   * loses at least that, and every other close, except one on the entry bar
   * itself, is strictly between.
   */
  lemma TradeEarns(r: Record, o: Opening, x: int, bars: seq<Bar>, maxHold: int)
    requires Trade(r, o, x, bars, maxHold) && WellFormed(r.order)
    requires forall k :: 0 <= k < |bars| ==> WellFormedBar(bars[k])
    ensures 0.0 < r.risk && 0.0 < r.reward
    ensures r.reason == TargetHit ==> r.pnl == r.reward
    ensures r.reason == StopHit ==> r.pnl == -r.risk
    ensures r.reason == StopHitGap ==> r.pnl <= -r.risk
    ensures r.reason == Timeout || (r.reason == SessionEnd && 0 < r.hold) ==> -r.risk < r.pnl < r.reward
    ensures r.pnl < -r.risk ==> r.reason == StopHitGap || (r.reason == SessionEnd && r.hold == 0)
    ensures r.reason != SessionEnd ==> r.hold >= 1
  {
    assert WellFormedBar(bars[x]);
    if FirstExit(r, o.bar, x, bars, maxHold) {
      ExitEarns(r.order, x - o.bar, bars[x], maxHold);
    } else if r.hold > 0 {
      assert Exit(r.order, x - o.bar, bars[x], maxHold).None?;
    }
  }

  /** The price is on the far side of the stop. */
  predicate Beyond(o: Order, price: real) {
    if o.side.Buy? then price < o.stop else price > o.stop
  }

  /**
   * A trade held past its entry bar loses more than its risk if and only if
   * its exit bar opens beyond the stop; one closed on its entry bar, which is
   * never compared with the stop, if and only if that bar closes beyond it.
   */
  lemma LosesMoreExactly(r: Record, o: Opening, x: int, bars: seq<Bar>, maxHold: int)
    requires Trade(r, o, x, bars, maxHold) && WellFormed(r.order)
    requires forall k :: 0 <= k < |bars| ==> WellFormedBar(bars[k])
    ensures r.pnl < -r.risk <==> Beyond(r.order, if r.hold > 0 then bars[x].open else bars[x].close)
  {
    assert WellFormedBar(bars[x]);
    if FirstExit(r, o.bar, x, bars, maxHold) {
      ExitLoses(r.order, x - o.bar, bars[x], maxHold);
    } else if r.hold > 0 {
      assert Exit(r.order, x - o.bar, bars[x], maxHold).None?;
    }
  }

  lemma ExitLoses(o: Order, held: int, bar: Bar, maxHold: int)
    requires WellFormed(o) && WellFormedBar(bar) && Exit(o, held, bar, maxHold).Some?
    ensures Pnl(o, Exit(o, held, bar, maxHold).value.price) < -Abs(o.entry - o.stop) <==> Beyond(o, bar.open)
  {
  }

  function Pnl(o: Order, price: real): real {
    if o.side.Buy? then price - o.entry else o.entry - price
  }

  lemma ExitEarns(o: Order, held: int, bar: Bar, maxHold: int)
    requires WellFormed(o) && WellFormedBar(bar) && Exit(o, held, bar, maxHold).Some?
    ensures var f := Exit(o, held, bar, maxHold).value;
            var risk, reward := Abs(o.entry - o.stop), Abs(o.target - o.entry);
            match f.reason
            case TargetHit => Pnl(o, f.price) == reward
            case StopHit => Pnl(o, f.price) == -risk
            case StopHitGap => Pnl(o, f.price) <= -risk
            case Timeout => -risk < Pnl(o, f.price) < reward
            case SessionEnd => false
  {
  }

  /** The day loop hands a bar to the tracker before anything is published. */
  predicate StartsWithBar(events: seq<Event>) {
    events == [] || events[0].Tick?
  }

  lemma {:induction false} BarsBefore(events: seq<Event>)
    requires StartsWithBar(events) && events != []
    ensures Bars(events) != []
  {
    if |events| == 1 {
      assert Bars(events[..0]) == [];
    } else {
      BarsBefore(events[..|events| - 1]);
    }
  }

  /** So no position opens on the first bar of a day. */
  lemma {:induction false} NeverOnTheFirstBar(events: seq<Event>, c: Config)
    requires StartsWithBar(events)
    ensures forall i :: 0 <= i < |Openings(events, c)| ==> 1 <= Openings(events, c)[i].bar
  {
    if events != [] {
      var n := |events| - 1;
      NeverOnTheFirstBar(events[..n], c);
      if events[n].Output? {
        OutputUnfolds(events, c);
      } else {
        TickUnfolds(events, c);
        if n == 0 {
          assert Exec(events[..0], c) == FRESH;
        } else {
          BarsBefore(events[..n]);
        }
      }
    }
  }

  /** A day of two bars whose second one touches the trigger of the setup found after the first. */
  lemma TwoBarDay(first: Bar, setup: Setup, bar: Bar, c: Config)
    requires Qualifies(setup, c.minGrade) && Triggered(ToOrder(setup), bar)
    ensures Day([Tick(first), Output([setup]), Tick(bar)], c).signals
            == [RecordOf(Position(ToOrder(setup), bar.ts, 0), bar.ts, Fill(bar.close, SessionEnd))]
  {
    hide Pending, Triggered, RecordOf, Exit, GradeKey, GradeIndex;
    var events, o := [Tick(first), Output([setup]), Tick(bar)], ToOrder(setup);
    OnePending(setup, c.minGrade);
    assert events[..2] == [Tick(first), Output([setup])];
    assert events[..2][..1] == [Tick(first)] && events[..2][..1][..0] == [];
    assert Exec([], c) == FRESH && Bars([]) == [];
    assert Exec([Tick(first)], c) == FRESH && Bars([Tick(first)]) == [first];
    assert Exec(events[..2], c) == FRESH.(pending := [o]) && Bars(events[..2]) == [first];
    assert FirstTriggered([o], bar) == Some(o);
    hide FirstTriggered;
    assert Exec(events, c).open == Some(Position(o, bar.ts, 0)) && Exec(events, c).signals == [];
    assert Bars(events) == [first, bar];
    hide Exec, Bars, PreBar;
  }

  /** So whatever its first bar, a day that ends on the entry bar can lose any multiple of the risk. */
  lemma EntryBarCanLoseMore(first: Bar, multiple: real)
    requires multiple >= 0.0
    ensures var setup := Setup(1, Buy, Some(A), Some(100.0), Some(99.0), Some(102.0));
            var bar := Bar(first.ts + 1, 100.0, 100.0, 100.0 - multiple, 100.0 - multiple);
            var day := Day([Tick(first), Output([setup]), Tick(bar)], Config(C, 10));
            && WellFormed(ToOrder(setup)) && WellFormedBar(bar)
            && |day.signals| == 1 && day.signals[0].risk == 1.0 && day.signals[0].pnl == -multiple
  {
    hide Day;
    var setup := Setup(1, Buy, Some(A), Some(100.0), Some(99.0), Some(102.0));
    var bar := Bar(first.ts + 1, 100.0, 100.0, 100.0 - multiple, 100.0 - multiple);
    TwoBarDay(first, setup, bar, Config(C, 10));
  }

  lemma OnePending(setup: Setup, min: Grade)
    requires Qualifies(setup, min)
    ensures Pending([setup], min) == [ToOrder(setup)]
  {
    assert [setup][..0] == [];
    assert Candidates([setup]) == [setup];
    assert Qualifying([], min) == [];
  }
}

/** Longs and shorts of scripts/backtest.py are treated alike. */
module SignalTrackerMirror {
  import opened Wrappers
  import opened Sorting
  import opened SignalTracker
  import opened SignalTrackerRuns

  function Map<T, U>(f: T -> U, s: seq<T>): (r: seq<U>)
    ensures |r| == |s|
    ensures forall i :: 0 <= i < |s| ==> r[i] == f(s[i])
  {
    seq(|s|, i requires 0 <= i < |s| => f(s[i]))
  }

  // ---- Negated prices, flipped sides ---------------------------------------------------------

  function Flip(side: Side): Side { if side.Buy? then Sell else Buy }

  function Negate(price: Option<real>): Option<real> {
    if price.Some? then Some(-price.value) else None
  }

  function MirrorSetup(x: Setup): Setup {
    Setup(x.id, Flip(x.side), x.grade, Negate(x.entry), Negate(x.stop), Negate(x.target))
  }

  function MirrorOrder(o: Order): Order {
    Order(o.id, Flip(o.side), o.grade, -o.entry, -o.stop, -o.target)
  }

  /** The high of the mirrored bar is the negated low. */
  function MirrorBar(b: Bar): Bar {
    Bar(b.ts, -b.open, -b.low, -b.high, -b.close)
  }

  function MirrorEvent(e: Event): Event {
    match e
    case Tick(bar) => Tick(MirrorBar(bar))
    case Output(setups) => Output(Map(MirrorSetup, setups))
  }

  /** Entry time, exit time and reason, hold, risk, reward and P&L stay as they are. */
  function MirrorRecord(r: Record): Record {
    r.(order := MirrorOrder(r.order), exitPrice := -r.exitPrice)
  }

  function MirrorPosition(p: Position): Position {
    p.(order := MirrorOrder(p.order))
  }

  function MirrorState(s: State): State {
    State(if s.open.Some? then Some(MirrorPosition(s.open.value)) else None,
          Map(MirrorOrder, s.pending), Map(MirrorRecord, s.signals))
  }

  function MirrorFill(f: Option<Fill>): Option<Fill> {
    if f.Some? then Some(f.value.(price := -f.value.price)) else None
  }

  // ---- Each operation commutes with the mirror ---------------------------------------------------

  lemma ExitMirrors(o: Order, held: int, bar: Bar, maxHold: int)
    ensures Exit(MirrorOrder(o), held, MirrorBar(bar), maxHold) == MirrorFill(Exit(o, held, bar, maxHold))
  {
  }

  lemma RecordMirrors(p: Position, ts: int, f: Fill)
    ensures RecordOf(MirrorPosition(p), ts, f.(price := -f.price)) == MirrorRecord(RecordOf(p, ts, f))
  {
  }

  lemma {:induction false} FirstMirrors(pending: seq<Order>, bar: Bar)
    ensures var o := FirstTriggered(pending, bar);
            FirstTriggered(Map(MirrorOrder, pending), MirrorBar(bar))
            == if o.Some? then Some(MirrorOrder(o.value)) else None
  {
    if pending != [] {
      assert Map(MirrorOrder, pending)[1..] == Map(MirrorOrder, pending[1..]);
      FirstMirrors(pending[1..], bar);
    }
  }

  lemma BarMirrors(s: State, bar: Bar, maxHold: int)
    ensures PreBar(MirrorState(s), MirrorBar(bar), maxHold) == MirrorState(PreBar(s, bar, maxHold))
  {
    match s.open
    case Some(p) =>
      var q := p.(held := p.held + 1);
      ExitMirrors(p.order, q.held, bar, maxHold);
      var f := Exit(p.order, q.held, bar, maxHold);
      if f.Some? {
        RecordMirrors(q, bar.ts, f.value);
        var r := RecordOf(q, bar.ts, f.value);
        hide Exit, RecordOf, FirstTriggered;
        assert Map(MirrorRecord, s.signals + [r]) == Map(MirrorRecord, s.signals) + [MirrorRecord(r)];
      }
    case None =>
      FirstMirrors(s.pending, bar);
      hide Exit, RecordOf, FirstTriggered;
  }

  lemma CloseMirrors(s: State, last: Bar)
    ensures CloseRemaining(MirrorState(s), MirrorBar(last)) == MirrorState(CloseRemaining(s, last))
  {
    if s.open.Some? {
      var f := Fill(last.close, SessionEnd);
      RecordMirrors(s.open.value, last.ts, f);
      var r := RecordOf(s.open.value, last.ts, f);
      hide RecordOf;
      assert Map(MirrorRecord, s.signals + [r]) == Map(MirrorRecord, s.signals) + [MirrorRecord(r)];
    }
  }

  lemma {:induction false} InsertMirrors(s: seq<Setup>, x: Setup, key: Setup -> int)
    requires forall y :: key(MirrorSetup(y)) == key(y)
    ensures Insert(Map(MirrorSetup, s), MirrorSetup(x), key) == Map(MirrorSetup, Insert(s, x, key))
  {
    var t := Map(MirrorSetup, s);
    if s == [] || key(s[|s| - 1]) <= key(x) {
      assert Map(MirrorSetup, s + [x]) == t + [MirrorSetup(x)];
    } else {
      var n := |s| - 1;
      InsertMirrors(s[..n], x, key);
      assert t[..n] == Map(MirrorSetup, s[..n]);
      var rest := Insert(s[..n], x, key);
      assert Map(MirrorSetup, rest + [s[n]]) == Map(MirrorSetup, rest) + [MirrorSetup(s[n])];
    }
  }

  lemma {:induction false} SortMirrors(s: seq<Setup>, key: Setup -> int)
    requires forall y :: key(MirrorSetup(y)) == key(y)
    ensures Sort(Map(MirrorSetup, s), key) == Map(MirrorSetup, Sort(s, key))
  {
    if s != [] {
      var n := |s| - 1;
      SortMirrors(s[..n], key);
      assert Map(MirrorSetup, s)[..n] == Map(MirrorSetup, s[..n]);
      InsertMirrors(Sort(s[..n], key), s[n], key);
    }
  }

  lemma {:induction false} QualifyingMirrors(s: seq<Setup>, min: Grade)
    ensures Qualifying(Map(MirrorSetup, s), min) == Map(MirrorOrder, Qualifying(s, min))
  {
    if s != [] {
      var n := |s| - 1;
      QualifyingMirrors(s[..n], min);
      assert Map(MirrorSetup, s)[..n] == Map(MirrorSetup, s[..n]);
      assert Qualifies(MirrorSetup(s[n]), min) <==> Qualifies(s[n], min);
      if Qualifies(s[n], min) {
        assert ToOrder(MirrorSetup(s[n])) == MirrorOrder(ToOrder(s[n]));
        var rest := Qualifying(s[..n], min);
        assert Map(MirrorOrder, rest + [ToOrder(s[n])]) == Map(MirrorOrder, rest) + [MirrorOrder(ToOrder(s[n]))];
      }
    }
  }

  lemma PendingMirrors(setups: seq<Setup>, min: Grade)
    ensures Pending(Map(MirrorSetup, setups), min) == Map(MirrorOrder, Pending(setups, min))
  {
    SortMirrors(setups, IdKey);
    SortMirrors(Sort(setups, IdKey), GradeKey);
    QualifyingMirrors(Candidates(setups), min);
  }

  // ---- Whole days ------------------------------------------------------------------------------------

  lemma {:induction false} RunMirrors(events: seq<Event>, c: Config)
    ensures Exec(Map(MirrorEvent, events), c) == MirrorState(Exec(events, c))
  {
    if events != [] {
      var n := |events| - 1;
      var s := Exec(events[..n], c);
      RunMirrors(events[..n], c);
      assert Map(MirrorEvent, events)[..n] == Map(MirrorEvent, events[..n]);
      match events[n]
      case Tick(bar) =>
        BarMirrors(s, bar, c.maxHold);
        hide PreBar;
      case Output(setups) =>
        PendingMirrors(setups, c.minGrade);
        hide Pending;
    }
  }

  lemma {:induction false} BarsMirror(events: seq<Event>)
    ensures Bars(Map(MirrorEvent, events)) == Map(MirrorBar, Bars(events))
  {
    if events != [] {
      var n := |events| - 1;
      BarsMirror(events[..n]);
      assert Map(MirrorEvent, events)[..n] == Map(MirrorEvent, events[..n]);
      if events[n].Tick? {
        var b := events[n].bar;
        assert Map(MirrorBar, Bars(events[..n]) + [b]) == Map(MirrorBar, Bars(events[..n])) + [MirrorBar(b)];
      }
    }
  }

  lemma DayMirrors(events: seq<Event>, c: Config)
    ensures Day(Map(MirrorEvent, events), c) == MirrorState(Day(events, c))
  {
    hide MirrorState, CloseRemaining, Exec, Bars, MirrorBar, MirrorEvent;
    RunMirrors(events, c);
    BarsMirror(events);
    var bars := Bars(events);
    if bars != [] {
      CloseMirrors(Exec(events, c), bars[|bars| - 1]);
    }
  }

  /**
   * Negating all prices, with highs and lows swapped, and flipping every side
   * gives a day with the same number of records and, record by record, the same
   * setup, times, exit reason, hold count, risk, reward, P&L and outcome.
   */
  lemma MirroredDay(events: seq<Event>, c: Config)
    ensures var day, mirrored := Day(events, c), Day(Map(MirrorEvent, events), c);
            && |mirrored.signals| == |day.signals|
            && forall i :: 0 <= i < |day.signals| ==>
                 var r, m := day.signals[i], mirrored.signals[i];
                 && m.order == MirrorOrder(r.order) && m.exitPrice == -r.exitPrice
                 && (m.entryTs, m.exitTs, m.reason, m.hold) == (r.entryTs, r.exitTs, r.reason, r.hold)
                 && (m.risk, m.reward, m.rr, m.pnl, m.outcome) == (r.risk, r.reward, r.rr, r.pnl, r.outcome)
  {
    DayMirrors(events, c);
    hide Day;
  }
}

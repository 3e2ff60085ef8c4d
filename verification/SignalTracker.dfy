/**
 * The simulated trades of scripts/backtest.py: one day of bars and pipeline
 * outputs drives a tracker that holds at most one position. Prices are reals,
 * times are integers, and a setup's side stands for `_direction(setup_type)`.
 */
module SignalTracker {
  import opened Wrappers
  import opened Sorting

  datatype Side = Buy | Sell
  datatype Grade = SSS | APlus | A | B | C

  datatype Setup = Setup(id: int, side: Side, grade: Option<Grade>,
                         entry: Option<real>, stop: Option<real>, target: Option<real>)

  /** A setup that has a grade and all three prices. */
  datatype Order = Order(id: int, side: Side, grade: Grade, entry: real, stop: real, target: real)

  datatype Bar = Bar(ts: int, open: real, high: real, low: real, close: real)

  datatype Config = Config(minGrade: Grade, maxHold: int)

  datatype Reason = TargetHit | StopHit | StopHitGap | Timeout | SessionEnd
  datatype Outcome = Win | Loss | Breakeven | Incomplete

  datatype Position = Position(order: Order, entryTs: int, held: nat)

  datatype Record = Record(order: Order, entryTs: int, risk: real, reward: real, rr: real,
                           exitTs: int, exitPrice: real, reason: Reason, pnl: real, hold: nat, outcome: Outcome)

  datatype State = State(open: Option<Position>, pending: seq<Order>, signals: seq<Record>)

  const FRESH := State(None, [], [])

  function GradeIndex(g: Option<Grade>): int {
    match g
    case None => 5
    case Some(grade) =>
      match grade
      case SSS => 0
      case APlus => 1
      case A => 2
      case B => 3
      case C => 4
  }

  function IdKey(x: Setup): int { x.id }

  function GradeKey(x: Setup): int { GradeIndex(x.grade) }

  // ---- on_pipeline_output ---------------------------------------------------------------

  /** sorted() by the pair (grade index, id): a stable sort by the first after one by the second. */
  function Candidates(setups: seq<Setup>): seq<Setup> {
    Sort(Sort(setups, IdKey), GradeKey)
  }

  predicate Qualifies(x: Setup, min: Grade) {
    x.grade.Some? && GradeKey(x) <= GradeIndex(Some(min)) && x.entry.Some? && x.stop.Some? && x.target.Some?
  }

  function ToOrder(x: Setup): Order
    requires x.grade.Some? && x.entry.Some? && x.stop.Some? && x.target.Some?
  {
    Order(x.id, x.side, x.grade.value, x.entry.value, x.stop.value, x.target.value)
  }

  function Qualifying(setups: seq<Setup>, min: Grade): seq<Order> {
    if setups == [] then []
    else
      var n := |setups| - 1;
      Qualifying(setups[..n], min) + if Qualifies(setups[n], min) then [ToOrder(setups[n])] else []
  }

  function Pending(setups: seq<Setup>, min: Grade): seq<Order> {
    Qualifying(Candidates(setups), min)
  }

  // ---- pre_bar ----------------------------------------------------------------------------

  predicate Triggered(o: Order, bar: Bar) {
    if o.side.Buy? then bar.high >= o.entry else bar.low <= o.entry
  }

  function FirstTriggered(pending: seq<Order>, bar: Bar): Option<Order> {
    if pending == [] then None
    else if Triggered(pending[0], bar) then Some(pending[0])
    else FirstTriggered(pending[1..], bar)
  }

  datatype Fill = Fill(price: real, reason: Reason)

  /** _simulate_exit for a position held for `held` bars, the present one included. */
  function Exit(o: Order, held: int, bar: Bar, maxHold: int): Option<Fill> {
    if o.side.Buy? && bar.open <= o.stop then Some(Fill(bar.open, StopHitGap))
    else if o.side.Buy? && bar.low <= o.stop then Some(Fill(o.stop, StopHit))
    else if o.side.Buy? && bar.high >= o.target then Some(Fill(o.target, TargetHit))
    else if o.side.Sell? && bar.open >= o.stop then Some(Fill(bar.open, StopHitGap))
    else if o.side.Sell? && bar.high >= o.stop then Some(Fill(o.stop, StopHit))
    else if o.side.Sell? && bar.low <= o.target then Some(Fill(o.target, TargetHit))
    else if held >= maxHold then Some(Fill(bar.close, Timeout))
    else None
  }

  function Abs(x: real): real { if x < 0.0 then -x else x }

  function OutcomeOf(pnl: real, reason: Reason): Outcome {
    if reason.SessionEnd? then Incomplete
    else if pnl > 0.01 then Win
    else if pnl < -0.01 then Loss
    else Breakeven
  }

  function RecordOf(p: Position, ts: int, f: Fill): Record {
    var o := p.order;
    var risk, reward := Abs(o.entry - o.stop), Abs(o.target - o.entry);
    var pnl := if o.side.Buy? then f.price - o.entry else o.entry - f.price;
    Record(o, p.entryTs, risk, reward, if risk > 0.0 then reward / risk else 0.0,
           ts, f.price, f.reason, pnl, p.held, OutcomeOf(pnl, f.reason))
  }

  function PreBar(s: State, bar: Bar, maxHold: int): State {
    match s.open
    case Some(p) =>
      var q := p.(held := p.held + 1);
      (match Exit(p.order, q.held, bar, maxHold)
       case Some(f) => s.(open := None, signals := s.signals + [RecordOf(q, bar.ts, f)])
       case None => s.(open := Some(q)))
    case None =>
      match FirstTriggered(s.pending, bar)
      case Some(o) => s.(open := Some(Position(o, bar.ts, 0)))
      case None => s
  }

  function CloseRemaining(s: State, last: Bar): State {
    match s.open
    case Some(p) => s.(open := None, signals := s.signals + [RecordOf(p, last.ts, Fill(last.close, SessionEnd))])
    case None => s
  }

  // ---- The object ---------------------------------------------------------------------------

  class SignalTracker {
    const config: Config
    var position: Option<Position>
    var pending: seq<Order>
    var signals: seq<Record>

    ghost function View(): State
      reads this
    {
      State(position, pending, signals)
    }

    constructor (config: Config)
      ensures this.config == config && View() == FRESH
    {
      this.config := config;
      position, pending, signals := None, [], [];
    }

    method PreBarUpdate(bar: Bar)
      modifies this
      ensures View() == PreBar(old(View()), bar, config.maxHold)
    {
      if position.Some? {
        var p := position.value;
        p := p.(held := p.held + 1);
        position := Some(p);
        var exit := Exit(p.order, p.held, bar, config.maxHold);
        if exit.Some? {
          signals := signals + [RecordOf(p, bar.ts, exit.value)];
          position := None;
        }
      } else {
        var i := 0;
        while i < |pending|
          invariant 0 <= i <= |pending|
          invariant View() == old(View())
          invariant FirstTriggered(pending, bar) == FirstTriggered(pending[i..], bar)
        {
          assert pending[i..][1..] == pending[i + 1..];
          if Triggered(pending[i], bar) {
            position := Some(Position(pending[i], bar.ts, 0));
            break;
          }
          i := i + 1;
        }
      }
    }

    method OnPipelineOutput(setups: seq<Setup>)
      modifies this
      ensures View() == old(View()).(pending := Pending(setups, config.minGrade))
    {
      var candidates := Candidates(setups);
      var qualifying: seq<Order> := [];
      for i := 0 to |candidates|
        invariant qualifying == Qualifying(candidates[..i], config.minGrade)
        invariant View() == old(View())
      {
        assert candidates[..i + 1][..i] == candidates[..i];
        var setup := candidates[i];
        if setup.grade.None? {
          continue;
        }
        if GradeIndex(setup.grade) > GradeIndex(Some(config.minGrade)) {
          continue;
        }
        if setup.entry.None? || setup.stop.None? || setup.target.None? {
          continue;
        }
        qualifying := qualifying + [ToOrder(setup)];
      }
      assert candidates[..|candidates|] == candidates;
      pending := qualifying;
    }

    method CloseAtEnd(last: Bar)
      modifies this
      ensures View() == CloseRemaining(old(View()), last)
    {
      if position.Some? {
        signals := signals + [RecordOf(position.value, last.ts, Fill(last.close, SessionEnd))];
        position := None;
      }
    }
  }

  // ---- The entered setup is the best one ------------------------------------------------------

  /** _GRADE_ORDER, the best grade first. */
  const GRADES := [SSS, APlus, A, B, C]

  /** A grade's index is its place there; a missing grade comes after all. */
  lemma GradesInOrder(g: Grade)
    ensures 0 <= GradeIndex(Some(g)) < |GRADES| && GRADES[GradeIndex(Some(g))] == g
    ensures GradeIndex(None) == |GRADES|
  {
  }

  /** A setup with all three prices whose grade is `min` or one before it. */
  ghost predicate Wanted(x: Setup, min: Grade) {
    && x.entry.Some? && x.stop.Some? && x.target.Some? && x.grade.Some?
    && exists i, j :: 0 <= i <= j < |GRADES| && GRADES[i] == x.grade.value && GRADES[j] == min
  }

  lemma WantedQualifies(x: Setup, min: Grade)
    ensures Wanted(x, min) <==> Qualifies(x, min)
  {
    GradesInOrder(min);
    if x.grade.Some? {
      GradesInOrder(x.grade.value);
      if Wanted(x, min) {
        var i, j :| 0 <= i <= j < |GRADES| && GRADES[i] == x.grade.value && GRADES[j] == min;
        GradePlace(i);
        GradePlace(j);
      }
    }
  }

  lemma GradePlace(i: int)
    requires 0 <= i < |GRADES|
    ensures GradeIndex(Some(GRADES[i])) == i
  {
  }

  /** The bar's range goes at least as far as the entry price. */
  predicate Reaches(o: Order, bar: Bar) {
    match o.side
    case Buy => o.entry <= bar.high
    case Sell => bar.low <= o.entry
  }

  ghost predicate Better(x: Setup, y: Setup) {
    GradeKey(x) < GradeKey(y) || (GradeKey(x) == GradeKey(y) && x.id <= y.id)
  }

  ghost predicate Ranked(s: seq<Setup>) {
    forall i, j :: 0 <= i < j < |s| ==> Better(s[i], s[j])
  }

  lemma {:induction false} InsertRanked(s: seq<Setup>, x: Setup)
    requires Ranked(s) && forall y :: y in s ==> y.id <= x.id
    ensures Ranked(Insert(s, x, GradeKey))
  {
    if s != [] && GradeKey(x) < GradeKey(s[|s| - 1]) {
      var rest, last := s[..|s| - 1], s[|s| - 1];
      InsertRanked(rest, x);
      InsertElements(rest, x, GradeKey);
      forall y | y in Insert(rest, x, GradeKey)
        ensures Better(y, last)
      {
        if y != x {
          var i :| 0 <= i < |rest| && rest[i] == y;
          assert s[i] == y;
        }
      }
    } else {
      forall i | 0 <= i < |s|
        ensures Better(s[i], x)
      {
        assert s[i] in s;
        assert i < |s| - 1 ==> Better(s[i], s[|s| - 1]);
      }
    }
  }

  lemma {:induction false} SortRanked(s: seq<Setup>)
    requires SortedBy(s, IdKey)
    ensures Ranked(Sort(s, GradeKey))
  {
    if s != [] {
      var rest, last := s[..|s| - 1], s[|s| - 1];
      SortRanked(rest);
      SortIsSorted(rest, GradeKey);
      forall y | y in Sort(rest, GradeKey)
        ensures y.id <= last.id
      {
        var i :| 0 <= i < |rest| && rest[i] == y;
        assert IdKey(s[i]) <= IdKey(s[|s| - 1]);
      }
      InsertRanked(Sort(rest, GradeKey), last);
    }
  }

  /** The first qualifying triggered setup of a ranked list beats the others. */
  lemma {:induction false} FirstIsBest(s: seq<Setup>, min: Grade, bar: Bar) returns (k: int)
    requires Ranked(s)
    ensures var first := FirstTriggered(Qualifying(s, min), bar);
            && -1 <= k < |s|
            && (first.None? <==> k == -1)
            && (k == -1 ==> forall y :: y in s && Qualifies(y, min) ==> !Triggered(ToOrder(y), bar))
            && (0 <= k ==> Qualifies(s[k], min) && first == Some(ToOrder(s[k])) && Triggered(first.value, bar))
            && (0 <= k ==> forall y :: y in s && Qualifies(y, min) && Triggered(ToOrder(y), bar) ==> Better(s[k], y))
  {
    if s == [] {
      k := -1;
    } else {
      var n := |s| - 1;
      var rest := Qualifying(s[..n], min);
      k := FirstIsBest(s[..n], min, bar);
      FirstOfAppend(rest, if Qualifies(s[n], min) then [ToOrder(s[n])] else [], bar);
      assert forall y :: y in s ==> y == s[n] || y in s[..n];
      if k == -1 && Qualifies(s[n], min) && Triggered(ToOrder(s[n]), bar) {
        k := n;
      }
    }
  }

  lemma {:induction false} FirstOfAppend(s: seq<Order>, t: seq<Order>, bar: Bar)
    ensures FirstTriggered(s + t, bar)
            == if FirstTriggered(s, bar).Some? then FirstTriggered(s, bar) else FirstTriggered(t, bar)
  {
    if s == [] {
      assert s + t == t;
    } else {
      assert (s + t)[1..] == s[1..] + t;
      FirstOfAppend(s[1..], t, bar);
    }
  }

  lemma PicksTheBest(s: State, setups: seq<Setup>, c: Config, bar: Bar)
    requires s.open.None? && s.pending == Pending(setups, c.minGrade)
    ensures var entered := PreBar(s, bar, c.maxHold).open;
            if entered.None? then
              forall y :: y in setups && Qualifies(y, c.minGrade) ==> !Triggered(ToOrder(y), bar)
            else
              exists x :: x in setups && Qualifies(x, c.minGrade) && entered == Some(Position(ToOrder(x), bar.ts, 0))
                && Triggered(ToOrder(x), bar)
                && forall y :: y in setups && Qualifies(y, c.minGrade) && Triggered(ToOrder(y), bar) ==> Better(x, y)
  {
    var byId := Sort(setups, IdKey);
    SortIsSorted(setups, IdKey);
    SortIsSorted(byId, GradeKey);
    SortRanked(byId);
    var k := FirstIsBest(Candidates(setups), c.minGrade, bar);
    if 0 <= k {
      assert Candidates(setups)[k] in setups;
    }
  }

  /** The order a setup stands for, field by field. */
  function OrderOf(x: Setup): Order
    requires x.grade.Some? && x.entry.Some? && x.stop.Some? && x.target.Some?
  {
    Order(x.id, x.side, x.grade.value, x.entry.value, x.stop.value, x.target.value)
  }

  lemma SpelledOut(x: Setup, min: Grade, bar: Bar)
    ensures Wanted(x, min) <==> Qualifies(x, min)
    ensures Wanted(x, min) ==> ToOrder(x) == OrderOf(x) && (Triggered(ToOrder(x), bar) <==> Reaches(OrderOf(x), bar))
  {
    WantedQualifies(x, min);
  }

  /** x is wanted, reached by the bar, and no other such setup is better. */
  ghost predicate BestReached(x: Setup, setups: seq<Setup>, min: Grade, bar: Bar) {
    && x in setups && Wanted(x, min) && Reaches(OrderOf(x), bar)
    && forall y :: y in setups && Wanted(y, min) && Reaches(OrderOf(y), bar) ==> Better(x, y)
  }

  /**
   * While flat, a bar opens a position if and only if it touches the trigger
   * of a qualifying setup of the latest output, and the position then is one
   * of best grade among those, with ties going to the smallest id.
   */
  lemma EntersTheBest(s: State, setups: seq<Setup>, c: Config, bar: Bar)
    requires s.open.None? && s.pending == Pending(setups, c.minGrade)
    ensures var entered := PreBar(s, bar, c.maxHold).open;
            if entered.None? then
              forall y :: y in setups && Wanted(y, c.minGrade) ==> !Reaches(OrderOf(y), bar)
            else
              exists x :: BestReached(x, setups, c.minGrade, bar) && entered == Some(Position(OrderOf(x), bar.ts, 0))
  {
    hide PreBar, Pending, Reaches, Triggered, Better, GradeKey, GradeIndex;
    var entered := PreBar(s, bar, c.maxHold).open;
    PicksTheBest(s, setups, c, bar);
    forall y
      ensures Wanted(y, c.minGrade) <==> Qualifies(y, c.minGrade)
      ensures Wanted(y, c.minGrade) ==>
                ToOrder(y) == OrderOf(y) && (Triggered(ToOrder(y), bar) <==> Reaches(OrderOf(y), bar))
    {
      SpelledOut(y, c.minGrade, bar);
    }
    if entered.Some? {
      var x :| x in setups && Qualifies(x, c.minGrade) && entered == Some(Position(ToOrder(x), bar.ts, 0))
        && Triggered(ToOrder(x), bar)
        && forall y :: y in setups && Qualifies(y, c.minGrade) && Triggered(ToOrder(y), bar) ==> Better(x, y);
      assert BestReached(x, setups, c.minGrade, bar);
    }
  }
}

/**
 * The session time line of src/alpha/calendar/cme.py. An instant is the ET
 * wall clock in microseconds; a date is its number of days.
 */
module CmeCalendar {
  const MINUTE := 60_000_000
  const HOUR := 60 * MINUTE
  const DAY := 24 * HOUR

  ghost predicate HasLater(trading: int -> bool, d: int) {
    exists n :: d < n && trading(n)
  }

  ghost predicate HasEarlier(trading: int -> bool, d: int) {
    exists p :: p < d && trading(p)
  }

  /** There are trading days before and after every date. */
  ghost predicate Unbounded(trading: int -> bool) {
    forall d :: HasLater(trading, d) && HasEarlier(trading, d)
  }

  ghost predicate IsNext(trading: int -> bool, d: int, r: int) {
    d < r && trading(r) && forall x :: d < x < r ==> !trading(x)
  }

  ghost predicate IsPrev(trading: int -> bool, d: int, r: int) {
    r < d && trading(r) && forall x :: r < x < d ==> !trading(x)
  }

  method NextTradingDay(trading: int -> bool, d: int) returns (candidate: int)
    requires Unbounded(trading)
    ensures IsNext(trading, d, candidate)
  {
    assert HasLater(trading, d);
    ghost var above :| d < above && trading(above);
    candidate := d + 1;
    while !trading(candidate)
      invariant d < candidate <= above
      invariant forall x :: d < x < candidate ==> !trading(x)
      decreases above - candidate
    {
      candidate := candidate + 1;
    }
  }

  method PrevTradingDay(trading: int -> bool, d: int) returns (candidate: int)
    requires Unbounded(trading)
    ensures IsPrev(trading, d, candidate)
  {
    assert HasEarlier(trading, d);
    ghost var below :| below < d && trading(below);
    candidate := d - 1;
    while !trading(candidate)
      invariant below <= candidate < d
      invariant forall x :: candidate < x < d ==> !trading(x)
      decreases candidate - below
    {
      candidate := candidate - 1;
    }
  }

  ghost function NextFrom(trading: int -> bool, d: int, above: int): (r: int)
    requires d < above && trading(above)
    ensures IsNext(trading, d, r)
    decreases above - d
  {
    if trading(d + 1) then d + 1 else NextFrom(trading, d + 1, above)
  }

  ghost function PrevFrom(trading: int -> bool, d: int, below: int): (r: int)
    requires below < d && trading(below)
    ensures IsPrev(trading, d, r)
    decreases d - below
  {
    if trading(d - 1) then d - 1 else PrevFrom(trading, d - 1, below)
  }

  ghost function Next(trading: int -> bool, d: int): (r: int)
    requires Unbounded(trading)
    ensures IsNext(trading, d, r)
  {
    assert HasLater(trading, d);
    var above :| d < above && trading(above);
    NextFrom(trading, d, above)
  }

  ghost function Prev(trading: int -> bool, d: int): (r: int)
    requires Unbounded(trading)
    ensures IsPrev(trading, d, r)
  {
    assert HasEarlier(trading, d);
    var below :| below < d && trading(below);
    PrevFrom(trading, d, below)
  }

  /** The two searches undo each other exactly from a trading day. */
  lemma NextAndPrevAreInverse(trading: int -> bool, d: int)
    requires Unbounded(trading)
    ensures trading(d) <==> Prev(trading, Next(trading, d)) == d
    ensures trading(d) <==> Next(trading, Prev(trading, d)) == d
  {
    if trading(d) {
      var n, p := Next(trading, d), Prev(trading, d);
      var back, forth := Prev(trading, n), Next(trading, p);
      assert back >= d && forth <= d;
    }
  }

  // ---- Boundaries -------------------------------------------------------------------------

  function SessionOpen(d: int): int { d * DAY + 9 * HOUR + 30 * MINUTE }

  function SessionClose(d: int): int { d * DAY + 16 * HOUR }

  function PreMarketOpen(d: int): int { (d - 1) * DAY + 18 * HOUR }

  function AfterHoursClose(d: int): int { d * DAY + 17 * HOUR }

  // ---- session_date -----------------------------------------------------------------------

  /** The date whose evening-to-evening day [18:00, 18:00) holds t. */
  function Rolled(t: int): int {
    t / DAY + if t % DAY >= 18 * HOUR then 1 else 0
  }

  lemma RolledIsItsDay(t: int, d: int)
    ensures Rolled(t) == d <==> PreMarketOpen(d) <= t < PreMarketOpen(d + 1)
  {
  }

  method SessionDate(trading: int -> bool, t: int) returns (candidate: int)
    requires Unbounded(trading)
    ensures forall d :: InSession(trading, t, d) <==> d == candidate
  {
    SessionsTile(trading, t, t);
    candidate := t / DAY;
    if t % DAY >= 18 * HOUR {
      candidate := candidate + 1;
    }
    RolledIsItsDay(t, candidate);
    if !trading(candidate) {
      var next := NextTradingDay(trading, candidate);
      SkippedDays(trading, t, candidate, next);
      candidate := next;
    } else {
      TradingDay(trading, t, candidate);
    }
  }

  /** d is a trading day, and t lies between 18:00 of the one before and its own 18:00. */
  ghost predicate InSession(trading: int -> bool, t: int, d: int)
    requires Unbounded(trading)
  {
    trading(d) && Prev(trading, d) * DAY + 18 * HOUR <= t < d * DAY + 18 * HOUR
  }

  lemma DaysInOrder(a: int, b: int)
    ensures a <= b <==> a * DAY <= b * DAY
  {
  }

  lemma SkippedDays(trading: int -> bool, t: int, rolled: int, next: int)
    requires Unbounded(trading) && Rolled(t) == rolled && !trading(rolled) && IsNext(trading, rolled, next)
    ensures InSession(trading, t, next)
  {
    RolledIsItsDay(t, rolled);
    var p := Prev(trading, next);
    assert p < rolled;
    DaysInOrder(p, rolled - 1);
    DaysInOrder(rolled, next);
  }

  lemma TradingDay(trading: int -> bool, t: int, d: int)
    requires Unbounded(trading) && Rolled(t) == d && trading(d)
    ensures InSession(trading, t, d)
  {
    RolledIsItsDay(t, d);
    DaysInOrder(Prev(trading, d), d - 1);
  }

  lemma SessionsInOrder(trading: int -> bool, s: int, t: int, d: int, e: int)
    requires Unbounded(trading) && InSession(trading, s, d) && InSession(trading, t, e) && s <= t
    ensures d <= e
  {
    if e < d {
      var p := Prev(trading, d);
      assert e <= p;
      DaysInOrder(e, p);
    }
  }

  /**
   * The sessions tile the time line: each instant has exactly one session
   * date, the one session_date finds, and later instants have later or equal ones.
   */
  lemma SessionsTile(trading: int -> bool, s: int, t: int)
    requires Unbounded(trading)
    ensures exists d :: InSession(trading, t, d)
    ensures forall d, e :: InSession(trading, t, d) && InSession(trading, t, e) ==> d == e
    ensures s <= t ==> forall d, e :: InSession(trading, s, d) && InSession(trading, t, e) ==> d <= e
    ensures forall d :: InSession(trading, t, d) ==> (d == Rolled(t) <==> trading(Rolled(t)))
  {
    var r := Rolled(t);
    if trading(r) {
      TradingDay(trading, t, r);
    } else {
      SkippedDays(trading, t, r, Next(trading, r));
    }
    forall d, e | InSession(trading, t, d) && InSession(trading, t, e)
      ensures d == e
    {
      SessionsInOrder(trading, t, t, d, e);
      SessionsInOrder(trading, t, t, e, d);
    }
    forall d, e | s <= t && InSession(trading, s, d) && InSession(trading, t, e)
      ensures d <= e
    {
      SessionsInOrder(trading, s, t, d, e);
    }
  }

  // ---- session_phase ------------------------------------------------------------------------

  datatype Phase = Closed | PreMarket | OpeningRange | Early | Mid | PowerHour | Closing | AfterHours

  /** The branches of session_phase once the trade date is known. */
  function PhaseOn(t: int, tradeDate: int): Phase {
    var regOpen, regClose := SessionOpen(tradeDate), SessionClose(tradeDate);
    if t < PreMarketOpen(tradeDate) || t >= AfterHoursClose(tradeDate) then Closed
    else if t < regOpen then PreMarket
    else if t >= regClose then AfterHours
    else if t < regOpen + 5 * MINUTE then OpeningRange
    else if t < regOpen + HOUR then Early
    else if t < regOpen + 4 * HOUR + 30 * MINUTE then Mid
    else if t < regClose - 30 * MINUTE then PowerHour
    else Closing
  }

  method SessionPhase(trading: int -> bool, t: int) returns (phase: Phase)
    requires Unbounded(trading)
    ensures exists d :: InSession(trading, t, d) && phase == PhaseOn(t, d)
  {
    var tradeDate := SessionDate(trading, t);
    assert InSession(trading, t, tradeDate);
    phase := PhaseOn(t, tradeDate);
  }

  method IsOpen(trading: int -> bool, t: int) returns (open: bool)
    requires Unbounded(trading)
    ensures open <==> exists d :: trading(d) && PreMarketOpen(d) <= t < SessionClose(d)
  {
    var d := SessionDate(trading, t);
    assert InSession(trading, t, d);
    open := PhaseOn(t, d) !in {Closed, AfterHours};
    if exists e :: trading(e) && PreMarketOpen(e) <= t < SessionClose(e) {
      var e :| trading(e) && PreMarketOpen(e) <= t < SessionClose(e);
      RolledIsItsDay(t, e);
      TradingDay(trading, t, e);
      SessionsTile(trading, t, t);
    }
  }

  /** The phases of one session date in order, and the instants that separate them. */
  const ORDER := [Closed, PreMarket, OpeningRange, Early, Mid, PowerHour, Closing, AfterHours, Closed]

  function Cuts(d: int): seq<int> {
    [(d - 1) * DAY + 18 * HOUR,
     d * DAY + 9 * HOUR + 30 * MINUTE, d * DAY + 9 * HOUR + 35 * MINUTE, d * DAY + 10 * HOUR + 30 * MINUTE,
     d * DAY + 14 * HOUR, d * DAY + 15 * HOUR + 30 * MINUTE, d * DAY + 16 * HOUR, d * DAY + 17 * HOUR]
  }

  /** How many cuts lie at or before t. */
  function Passed(cuts: seq<int>, t: int): (n: nat)
    ensures n <= |cuts|
  {
    if cuts == [] then 0 else Passed(cuts[..|cuts| - 1], t) + if cuts[|cuts| - 1] <= t then 1 else 0
  }

  lemma {:induction false} PassedGrows(cuts: seq<int>, s: int, t: int)
    requires s <= t
    ensures Passed(cuts, s) <= Passed(cuts, t)
  {
    if cuts != [] {
      PassedGrows(cuts[..|cuts| - 1], s, t);
    }
  }

  lemma {:induction false} PassedPrefix(cuts: seq<int>, t: int, k: nat)
    requires forall i, j :: 0 <= i < j < |cuts| ==> cuts[i] < cuts[j]
    requires k <= |cuts|
    requires forall i :: 0 <= i < k ==> cuts[i] <= t
    requires forall i :: k <= i < |cuts| ==> t < cuts[i]
    ensures Passed(cuts, t) == k
  {
    if cuts != [] {
      var n := |cuts| - 1;
      PassedPrefix(cuts[..n], t, if k == |cuts| then n else k);
    }
  }

  /**
   * Within one session date the phase is the one whose number of cuts has been
   * passed, so phases only advance, in the order CLOSED, PRE_MARKET,
   * OPENING_RANGE, EARLY, MID, POWER_HOUR, CLOSING, AFTER_HOURS, CLOSED.
   */
  lemma PhasesAdvance(d: int, s: int, t: int)
    requires s <= t
    ensures PhaseOn(t, d) == ORDER[Passed(Cuts(d), t)]
    ensures Passed(Cuts(d), s) <= Passed(Cuts(d), t)
  {
    PassedGrows(Cuts(d), s, t);
    var cuts := Cuts(d);
    var k := if t < cuts[0] then 0 else if t < cuts[1] then 1 else if t < cuts[2] then 2 else if t < cuts[3] then 3
      else if t < cuts[4] then 4 else if t < cuts[5] then 5 else if t < cuts[6] then 6 else if t < cuts[7] then 7 else 8;
    PassedPrefix(cuts, t, k);
  }
}

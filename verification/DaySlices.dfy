/** How scripts/backtest.py cuts its bars into evening-to-evening days. */
module DaySlices {
  import opened CmeCalendar

  datatype Bar = Bar(ts: int, id: int)

  predicate Within(b: Bar, lo: int, hi: int) { lo <= b.ts < hi }

  /** [b for b in bars if lo <= b.timestamp < hi] */
  function Slice(bars: seq<Bar>, lo: int, hi: int): seq<Bar> {
    if bars == [] then []
    else
      var n := |bars| - 1;
      Slice(bars[..n], lo, hi) + if Within(bars[n], lo, hi) then [bars[n]] else []
  }

  ghost predicate ByTime(bars: seq<Bar>) {
    forall i, j :: 0 <= i < j < |bars| ==> bars[i].ts <= bars[j].ts
  }

  lemma {:induction false} SliceElements(bars: seq<Bar>, lo: int, hi: int)
    ensures forall b :: b in Slice(bars, lo, hi) <==> b in bars && Within(b, lo, hi)
  {
    if bars != [] {
      var n := |bars| - 1;
      SliceElements(bars[..n], lo, hi);
      assert bars == bars[..n] + [bars[n]];
    }
  }

  lemma {:induction false} EmptySlice(bars: seq<Bar>, lo: int, hi: int)
    requires hi <= lo || forall i :: 0 <= i < |bars| ==> hi <= bars[i].ts
    ensures Slice(bars, lo, hi) == []
  {
    if bars != [] {
      EmptySlice(bars[..|bars| - 1], lo, hi);
    }
  }

  /** Adjacent slices hold each bar of the joint range once. */
  lemma {:induction false} SlicesAdd(bars: seq<Bar>, a: int, b: int, c: int)
    requires a <= b <= c
    ensures multiset(Slice(bars, a, b)) + multiset(Slice(bars, b, c)) == multiset(Slice(bars, a, c))
  {
    if bars != [] {
      SlicesAdd(bars[..|bars| - 1], a, b, c);
    }
  }

  /** Of bars in time order they also keep the order. */
  lemma {:induction false} SlicesAppend(bars: seq<Bar>, a: int, b: int, c: int)
    requires a <= b <= c && ByTime(bars)
    ensures Slice(bars, a, b) + Slice(bars, b, c) == Slice(bars, a, c)
  {
    if bars == [] {
      assert Slice([], a, b) + Slice([], b, c) == [] == Slice([], a, c);
    } else {
      hide ByTime, Slice;
      PrefixByTime(bars);
      if bars[|bars| - 1].ts < b {
        EmptyAfter(bars, b, c);
      }
      SlicesAppend(bars[..|bars| - 1], a, b, c);
      SlicesAppendLast(bars, a, b, c);
    }
  }

  lemma PrefixByTime(bars: seq<Bar>)
    requires bars != [] && ByTime(bars)
    ensures ByTime(bars[..|bars| - 1])
  {
  }

  lemma SlicesAppendLast(bars: seq<Bar>, a: int, b: int, c: int)
    requires a <= b <= c && bars != []
    requires bars[|bars| - 1].ts < b ==> Slice(bars, b, c) == []
    requires var init := bars[..|bars| - 1]; Slice(init, a, b) + Slice(init, b, c) == Slice(init, a, c)
    ensures Slice(bars, a, b) + Slice(bars, b, c) == Slice(bars, a, c)
  {
    SliceLast(bars, a, b);
    SliceLast(bars, b, c);
    SliceLast(bars, a, c);
    hide Slice;
  }

  lemma SliceLast(bars: seq<Bar>, lo: int, hi: int)
    requires bars != []
    ensures var init, last := bars[..|bars| - 1], bars[|bars| - 1];
            Slice(bars, lo, hi) == if Within(last, lo, hi) then Slice(init, lo, hi) + [last] else Slice(init, lo, hi)
  {
  }

  lemma {:induction false} EmptyAfter(bars: seq<Bar>, b: int, c: int)
    requires ByTime(bars) && (bars != [] ==> bars[|bars| - 1].ts < b)
    ensures Slice(bars, b, c) == []
  {
    if bars != [] {
      EmptyAfter(bars[..|bars| - 1], b, c);
    }
  }

  /** [b for b in bars if b.timestamp < hi], the warmup of a run. */
  function Before(bars: seq<Bar>, hi: int): seq<Bar> {
    if bars == [] then []
    else
      var n := |bars| - 1;
      Before(bars[..n], hi) + if bars[n].ts < hi then [bars[n]] else []
  }

  lemma {:induction false} AllBefore(bars: seq<Bar>, hi: int)
    requires ByTime(bars) && (bars != [] ==> bars[|bars| - 1].ts < hi)
    ensures Before(bars, hi) == bars
  {
    if bars != [] {
      AllBefore(bars[..|bars| - 1], hi);
    }
  }

  lemma BeforeLast(bars: seq<Bar>, hi: int)
    requires bars != []
    ensures var init, last := bars[..|bars| - 1], bars[|bars| - 1];
            Before(bars, hi) == if last.ts < hi then Before(init, hi) + [last] else Before(init, hi)
  {
  }

  lemma WarmupThenLast(bars: seq<Bar>, first: int, last: int)
    requires first <= last && bars != [] && (bars[|bars| - 1].ts < first ==> Slice(bars, first, last) == [])
    requires bars[|bars| - 1].ts < last ==> Before(bars, last) == bars
    requires var init := bars[..|bars| - 1];
             Before(init, first) + Slice(init, first, last) == Before(init, last) && Before(init, last) <= init
    ensures Before(bars, first) + Slice(bars, first, last) == Before(bars, last)
    ensures Before(bars, last) <= bars
  {
    hide Before, Slice;
    BeforeLast(bars, first);
    BeforeLast(bars, last);
    SliceLast(bars, first, last);
  }

  /** Warmup and days together feed the bars in their order, without a gap. */
  lemma {:induction false} WarmupThenDays(bars: seq<Bar>, first: int, last: int)
    requires ByTime(bars) && first <= last
    ensures Before(bars, first) + Slice(bars, first, last) == Before(bars, last)
    ensures Before(bars, last) <= bars
  {
    if bars == [] {
      assert Before([], first) + Slice([], first, last) == [] == Before([], last);
    } else {
      hide ByTime, Before, Slice;
      PrefixByTime(bars);
      WarmupThenDays(bars[..|bars| - 1], first, last);
      if bars[|bars| - 1].ts < first {
        EmptyAfter(bars, first, last);
      }
      if bars[|bars| - 1].ts < last {
        AllBefore(bars, last);
      }
      WarmupThenLast(bars, first, last);
    }
  }

  method WarmupBars(bars: seq<Bar>, start: int) returns (warmup: seq<Bar>)
    ensures warmup == Before(bars, PreMarketOpen(start))
  {
    warmup := [];
    for i := 0 to |bars|
      invariant warmup == Before(bars[..i], PreMarketOpen(start))
    {
      assert bars[..i + 1][..i] == bars[..i];
      if bars[i].ts < PreMarketOpen(start) {
        warmup := warmup + [bars[i]];
      }
    }
    assert bars[..|bars|] == bars;
  }

  /**
   * The day loop of run(). Each bar of the requested range is fed in exactly
   * one day, bars in time order are fed in that order, and the sessions are the
   * dates on which some bar falls.
   */
  method FeedDays(bars: seq<Bar>, start: int, end: int) returns (fed: seq<Bar>, sessions: seq<int>)
    ensures start <= end + 1 ==> multiset(fed) == multiset(Slice(bars, PreMarketOpen(start), PreMarketOpen(end + 1)))
    ensures start <= end + 1 && ByTime(bars) ==> fed == Slice(bars, PreMarketOpen(start), PreMarketOpen(end + 1))
    ensures end < start ==> fed == []
    ensures forall d :: d in sessions <==> start <= d <= end && HasBar(bars, d)
    ensures forall i, j :: 0 <= i < j < |sessions| ==> sessions[i] < sessions[j]
  {
    hide *;
    fed, sessions := [], [];
    EmptySlice(bars, PreMarketOpen(start), PreMarketOpen(start));
    var d := start;
    while d <= end
      invariant start <= d && (d <= end + 1 || d == start) && (end < start ==> fed == [])
      invariant multiset(fed) == multiset(Slice(bars, PreMarketOpen(start), PreMarketOpen(d)))
      invariant ByTime(bars) ==> fed == Slice(bars, PreMarketOpen(start), PreMarketOpen(d))
      invariant forall e :: e in sessions <==> start <= e < d && HasBar(bars, e)
      invariant forall i, j :: 0 <= i < j < |sessions| ==> sessions[i] < sessions[j]
    {
      var day := Slice(bars, PreMarketOpen(d), PreMarketOpen(d + 1));
      NextDay(bars, start, d);
      DayHasBar(bars, d);
      if day != [] {
        assert forall i :: 0 <= i < |sessions| ==> sessions[i] in sessions;
        fed := fed + day;
        sessions := sessions + [d];
      }
      d := d + 1;
    }
    assert d == if start <= end + 1 then end + 1 else start;
  }

  ghost predicate HasBar(bars: seq<Bar>, d: int) {
    exists b :: b in bars && Rolled(b.ts) == d
  }

  lemma NextDay(bars: seq<Bar>, start: int, d: int)
    requires start <= d
    ensures var first, now, next := PreMarketOpen(start), PreMarketOpen(d), PreMarketOpen(d + 1);
            && multiset(Slice(bars, first, next)) == multiset(Slice(bars, first, now)) + multiset(Slice(bars, now, next))
            && (ByTime(bars) ==> Slice(bars, first, next) == Slice(bars, first, now) + Slice(bars, now, next))
  {
    var first, now, next := PreMarketOpen(start), PreMarketOpen(d), PreMarketOpen(d + 1);
    SlicesAdd(bars, first, now, next);
    if ByTime(bars) {
      SlicesAppend(bars, first, now, next);
    }
  }

  lemma DayHasBar(bars: seq<Bar>, d: int)
    ensures Slice(bars, PreMarketOpen(d), PreMarketOpen(d + 1)) != [] <==> HasBar(bars, d)
  {
    var lo, hi := PreMarketOpen(d), PreMarketOpen(d + 1);
    var day := Slice(bars, lo, hi);
    SliceElements(bars, lo, hi);
    forall b: Bar
      ensures Within(b, lo, hi) <==> Rolled(b.ts) == d
    {
      RolledIsItsDay(b.ts, d);
    }
    if day != [] {
      assert day[0] in day;
    }
    if HasBar(bars, d) {
      var b :| b in bars && Rolled(b.ts) == d;
      assert b in day;
    }
  }

  /** A bar of the slice for d has session date d if and only if d is a trading day. */
  lemma SliceIsSessionDate(trading: int -> bool, bars: seq<Bar>, d: int, b: Bar)
    requires Unbounded(trading) && b in Slice(bars, PreMarketOpen(d), PreMarketOpen(d + 1))
    ensures InSession(trading, b.ts, d) <==> trading(d)
  {
    SliceElements(bars, PreMarketOpen(d), PreMarketOpen(d + 1));
    RolledIsItsDay(b.ts, d);
    if trading(d) {
      TradingDay(trading, b.ts, d);
    }
  }
}

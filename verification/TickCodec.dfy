/**
 * Bar prices as signed tick distances from a level: the encoder of
 * src/alpha/research/level_observer.py and the decoders of
 * src/alpha/research/query.py and scripts/export_research_bundle.py.
 */
module TickCodec {
  import opened Arithmetic

  /** ROUND_HALF_UP of Python's decimals: to the nearest, ties away from zero. */
  function RoundHalfAway(x: real): int {
    if x >= 0.0 then (x + 0.5).Floor else -((-x + 0.5).Floor)
  }

  /** round(): to the nearest, ties to the even one. */
  function RoundHalfEven(x: real): int {
    var f := x.Floor;
    var r := x - f as real;
    if r < 0.5 || (r == 0.5 && f % 2 == 0) then f else f + 1
  }

  /** _distance_ticks; both of its paths round alike. */
  function Distance(price: real, level: real, tick: real): int
    requires tick > 0.0
  {
    RoundHalfAway((price - level) / tick)
  }

  /** price_at of _reconstruct_bars. */
  function Plain(level: real, distance: int, tick: real): real {
    level + distance as real * tick
  }

  /** _price of _build_m1_table. */
  function Snapped(level: real, distance: int, tick: real): real
    requires tick > 0.0
  {
    RoundHalfEven((level + distance as real * tick) / tick) as real * tick
  }

  // ---- Prices in ticks -------------------------------------------------------------------------

  lemma RealDistribute(a: real, b: real, t: real)
    ensures (a - b) * t == a * t - b * t
    ensures (a + b) * t == a * t + b * t
  {
  }

  /** x is the quotient a / tick when x * tick == a. */
  lemma QuotientIs(a: real, x: real, tick: real)
    requires tick > 0.0 && x * tick == a
    ensures a / tick == x
  {
  }

  lemma QuotientTimes(a: real, tick: real)
    requires tick > 0.0
    ensures a / tick * tick == a
  {
  }

  lemma DistanceInTicks(p: int, level: real, tick: real)
    requires tick > 0.0
    ensures Distance(p as real * tick, level, tick) == RoundHalfAway(p as real - level / tick)
  {
    hide RoundHalfAway;
    var x := p as real - level / tick;
    RealDistribute(p as real, level / tick, tick);
    QuotientTimes(level, tick);
    QuotientIs(p as real * tick - level, x, tick);
  }

  lemma SnappedInTicks(level: real, d: int, tick: real)
    requires tick > 0.0
    ensures Snapped(level, d, tick) == RoundHalfEven(level / tick + d as real) as real * tick
  {
    hide RoundHalfEven;
    var x := level / tick + d as real;
    RealDistribute(level / tick, d as real, tick);
    QuotientTimes(level, tick);
    QuotientIs(level + d as real * tick, x, tick);
  }

  lemma MulOrder(x: real, y: real, tick: real)
    requires tick > 0.0
    ensures x < y <==> x * tick < y * tick
    ensures x <= y <==> x * tick <= y * tick
  {
    var z := y - x;
    SignTimes(z, tick);
    assert z * tick == y * tick - x * tick;
  }

  lemma DivOrder(x: real, y: real, tick: real)
    requires tick > 0.0
    ensures x < y <==> x / tick < y / tick
    ensures x <= y <==> x / tick <= y / tick
  {
    MulOrder(x / tick, y / tick, tick);
    QuotientTimes(x, tick);
    QuotientTimes(y, tick);
  }

  // ---- Rounding -----------------------------------------------------------------------------------

  lemma AwayIsNearest(x: real)
    ensures var d := RoundHalfAway(x) as real; -0.5 <= x - d <= 0.5
    ensures x - RoundHalfAway(x) as real == 0.5 ==> x < 0.0
    ensures RoundHalfAway(x) as real - x == 0.5 ==> x > 0.0
  {
  }

  lemma AwayIsMonotone(x: real, y: real)
    requires x <= y
    ensures RoundHalfAway(x) <= RoundHalfAway(y)
  {
  }

  lemma EvenNear(n: int, x: real)
    ensures -0.5 < x - n as real < 0.5 ==> RoundHalfEven(x) == n
    ensures x - n as real == 0.5 ==> RoundHalfEven(x) == if n % 2 == 0 then n else n + 1
    ensures n as real - x == 0.5 ==> RoundHalfEven(x) == if n % 2 == 0 then n else n - 1
  {
    if -0.5 < x - n as real < 0.5 {
      assert x.Floor == n || x.Floor == n - 1;
    }
    if x - n as real == 0.5 {
      assert x.Floor == n;
    }
    if n as real - x == 0.5 {
      assert x.Floor == n - 1;
    }
  }

  // ---- Round trips ----------------------------------------------------------------------------------

  /** The level lies exactly between two ticks. */
  predicate MidTick(level: real, tick: real)
    requires tick > 0.0
  {
    level / tick - (level / tick).Floor as real == 0.5
  }

  lemma HalfTick(a: real, x: real, d: real, tick: real)
    requires tick > 0.0 && x * tick == a && -0.5 <= d - x <= 0.5
    ensures -0.5 * tick <= d * tick - a <= 0.5 * tick
  {
    var y, z := d - x + 0.5, x - d + 0.5;
    SignTimes(y, tick);
    SignTimes(z, tick);
    assert y * tick == d * tick - a + 0.5 * tick;
    assert z * tick == a - d * tick + 0.5 * tick;
  }

  /** Of any price, the plain decoder gives back one at most half a tick off. */
  lemma PlainWithinHalfTick(price: real, level: real, tick: real)
    requires tick > 0.0
    ensures -0.5 * tick <= Plain(level, Distance(price, level, tick), tick) - price <= 0.5 * tick
  {
    var x := (price - level) / tick;
    var d := RoundHalfAway(x) as real;
    AwayIsNearest(x);
    hide RoundHalfAway;
    QuotientTimes(price - level, tick);
    HalfTick(price - level, x, d, tick);
  }

  /** And it is exact when the level is as far off the grid as the price. */
  lemma PlainExactOnGrid(price: real, level: real, tick: real, n: int)
    requires tick > 0.0 && price - level == n as real * tick
    ensures Distance(price, level, tick) == n && Plain(level, n, tick) == price
  {
    QuotientIs(price - level, n as real, tick);
  }

  /** The snapping round trip with the tick as the unit. */
  lemma SnapInTicks(p: int, l: real)
    ensures var n := RoundHalfEven(l + RoundHalfAway(p as real - l) as real);
            && (n == p <==> l - l.Floor as real != 0.5 || p % 2 == 0)
            && (n != p ==> n == if p as real > l then p + 1 else p - 1)
  {
    var d := RoundHalfAway(p as real - l);
    AwayIsNearest(p as real - l);
    EvenNear(p, l + d as real);
    NotMid(p, d, l);
    hide RoundHalfEven, RoundHalfAway;
    assert l + d as real - p as real == -(p as real - l - d as real);
  }

  lemma SameMultiple(n: int, p: int, tick: real)
    requires tick > 0.0
    ensures n as real * tick == p as real * tick <==> n == p
  {
    MulOrder(n as real, p as real, tick);
    MulOrder(p as real, n as real, tick);
  }

  lemma InPrices(p: int, n: int, l: real, level: real, tick: real)
    requires tick > 0.0 && l == level / tick
    requires n != p ==> n == if p as real > l then p + 1 else p - 1
    ensures var price, back := p as real * tick, n as real * tick;
            && (n == p <==> back == price)
            && (back != price ==> back == if price > level then price + tick else price - tick)
  {
    SameMultiple(n, p, tick);
    QuotientTimes(level, tick);
    MulOrder(l, p as real, tick);
    Neighbours(p, tick);
  }

  /**
   * Of a price on the grid, the snapping decoder gives back that very price
   * unless the level is mid-tick and the price is an odd number of ticks; then
   * it is off by exactly one tick, away from the level.
   */
  lemma SnappedExactly(p: int, level: real, tick: real)
    requires tick > 0.0
    ensures var price := p as real * tick;
            var back := Snapped(level, Distance(price, level, tick), tick);
            && (back == price <==> !MidTick(level, tick) || p % 2 == 0)
            && (back != price ==> back == if price > level then price + tick else price - tick)
  {
    hide RoundHalfEven, RoundHalfAway, Distance, Snapped;
    var l := level / tick;
    var d := RoundHalfAway(p as real - l);
    var n := RoundHalfEven(l + d as real);
    DistanceInTicks(p, level, tick);
    SnappedInTicks(level, d, tick);
    SnapInTicks(p, l);
    InPrices(p, n, l, level, tick);
    assert n == p <==> !MidTick(level, tick) || p % 2 == 0;
    hide MidTick;
  }

  lemma Neighbours(p: int, tick: real)
    requires tick > 0.0
    ensures (p + 1) as real * tick == p as real * tick + tick
    ensures (p - 1) as real * tick == p as real * tick - tick
  {
    assert (p + 1) as real == p as real + 1.0 && (p - 1) as real == p as real - 1.0;
  }

  lemma NotMid(p: int, d: int, l: real)
    ensures var e := p as real - l - d as real;
            (e == 0.5 || e == -0.5) <==> -0.5 <= e <= 0.5 && l - l.Floor as real == 0.5
  {
    var f := l.Floor;
    var e := p as real - l - d as real;
    assert (p - d - f) as real == e + (l - f as real);
    if l - f as real == 0.5 && -0.5 <= e <= 0.5 {
      assert (p - d - f) as real == e + 0.5;
    }
  }

  // ---- Order, overlap and side --------------------------------------------------------------------

  lemma OrderIsKept(a: real, b: real, level: real, tick: real)
    requires tick > 0.0 && a <= b
    ensures Distance(a, level, tick) <= Distance(b, level, tick)
    ensures Plain(level, Distance(a, level, tick), tick) <= Plain(level, Distance(b, level, tick), tick)
  {
    DivOrder(a - level, b - level, tick);
    AwayIsMonotone((a - level) / tick, (b - level) / tick);
    hide RoundHalfAway;
    MulOrder(Distance(a, level, tick) as real, Distance(b, level, tick) as real, tick);
  }

  lemma AwaySign(x: real)
    ensures RoundHalfAway(x) <= 0 <==> x < 0.5
    ensures RoundHalfAway(x) >= 0 <==> -0.5 < x
  {
    assert x >= 0.5 ==> (x + 0.5).Floor >= 1;
    assert x <= -0.5 ==> (-x + 0.5).Floor >= 1;
  }

  lemma CompareHalf(a: real, x: real, tick: real)
    requires tick > 0.0 && x * tick == a
    ensures x < 0.5 <==> a < 0.5 * tick
    ensures -0.5 < x <==> -0.5 * tick < a
  {
    var y, z := x - 0.5, x + 0.5;
    SignTimes(y, tick);
    SignTimes(z, tick);
    assert y * tick == a - 0.5 * tick;
    assert z * tick == a + 0.5 * tick;
  }

  /** The sign of a distance. */
  lemma SignOfDistance(price: real, level: real, tick: real)
    requires tick > 0.0
    ensures Distance(price, level, tick) <= 0 <==> price - level < 0.5 * tick
    ensures Distance(price, level, tick) >= 0 <==> -0.5 * tick < price - level
  {
    var x := (price - level) / tick;
    QuotientTimes(price - level, tick);
    AwaySign(x);
    hide RoundHalfAway;
    CompareHalf(price - level, x, tick);
  }

  datatype PriceSide = Above | Below | On

  function Side(distance: int): PriceSide {
    if distance > 0 then Above else if distance < 0 then Below else On
  }

  datatype LevelType = Vwap | RthVwap | Orh | Orl

  datatype Bar = Bar(ts: int, open: real, high: real, low: real, close: real)

  /** A LevelBarObservation, as far as it depends on the bar and the level. */
  datatype Row = Row(ts: int, level: LevelType, value: real, tick: real,
                     open: int, high: int, low: int, close: int,
                     overlaps: bool, openSide: PriceSide, closeSide: PriceSide)

  function Encode(bar: Bar, level: LevelType, value: real, tick: real): Row
    requires tick > 0.0
  {
    var o, h := Distance(bar.open, value, tick), Distance(bar.high, value, tick);
    var l, c := Distance(bar.low, value, tick), Distance(bar.close, value, tick);
    Row(bar.ts, level, value, tick, o, h, l, c, l <= 0 <= h, Side(o), Side(c))
  }

  /**
   * The overlap flag says exactly that the level lies less than half a tick
   * outside the bar's range, so it is set whenever the level lies in the bar;
   * and the sides compare the price with the level up to half a tick.
   */
  lemma FlagsOfARow(bar: Bar, level: LevelType, value: real, tick: real)
    requires tick > 0.0
    ensures var r := Encode(bar, level, value, tick);
            && (r.overlaps <==> bar.low - 0.5 * tick < value < bar.high + 0.5 * tick)
            && (bar.low <= value <= bar.high ==> r.overlaps)
            && (r.closeSide == Above <==> bar.close - value >= 0.5 * tick)
            && (r.closeSide == Below <==> value - bar.close >= 0.5 * tick)
            && (r.openSide == Above <==> bar.open - value >= 0.5 * tick)
            && (r.openSide == Below <==> value - bar.open >= 0.5 * tick)
  {
    SignOfDistance(bar.low, value, tick);
    SignOfDistance(bar.high, value, tick);
    SignOfDistance(bar.open, value, tick);
    SignOfDistance(bar.close, value, tick);
    hide Distance;
  }

  /** low <= open, close <= high survives both the encoding and the plain decoding. */
  lemma ShapeIsKept(bar: Bar, level: LevelType, value: real, tick: real)
    requires tick > 0.0 && bar.low <= bar.open <= bar.high && bar.low <= bar.close <= bar.high
    ensures var r := Encode(bar, level, value, tick);
            && r.low <= r.open <= r.high && r.low <= r.close <= r.high
            && Plain(value, r.low, tick) <= Plain(value, r.open, tick) <= Plain(value, r.high, tick)
            && Plain(value, r.low, tick) <= Plain(value, r.close, tick) <= Plain(value, r.high, tick)
  {
    OrderIsKept(bar.low, bar.open, value, tick);
    OrderIsKept(bar.open, bar.high, value, tick);
    OrderIsKept(bar.low, bar.close, value, tick);
    OrderIsKept(bar.close, bar.high, value, tick);
    hide Distance, Plain;
  }
}

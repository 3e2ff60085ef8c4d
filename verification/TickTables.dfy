/**
 * Whole tables of level observations: what LevelObserver emits for a list of
 * snapshots, and the bars that _reconstruct_bars (plain decoder) and
 * _build_m1_table (snapping decoder) read back from them.
 */
module TickTables {
  import opened Wrappers
  import opened Sorting
  import opened TickCodec

  datatype Snapshot = Snapshot(bar: Bar, replay: bool, vwap: Option<real>, rthVwap: Option<real>, inRth: bool,
                               orHigh: Option<real>, orLow: Option<real>)

  predicate Positive(v: Option<real>) { v.Some? && v.value > 0.0 }

  function Level(present: bool, level: LevelType, v: Option<real>): (r: seq<(LevelType, real)>)
    requires present ==> v.Some?
  {
    if present then [(level, v.value)] else []
  }

  function Others(s: Snapshot): seq<(LevelType, real)> {
    Level(Positive(s.rthVwap) && s.inRth, RthVwap, s.rthVwap)
    + Level(s.orHigh.Some?, Orh, s.orHigh) + Level(s.orLow.Some?, Orl, s.orLow)
  }

  function Levels(s: Snapshot): seq<(LevelType, real)> {
    Level(Positive(s.vwap), Vwap, s.vwap) + Others(s)
  }

  function EncodeAll(bar: Bar, levels: seq<(LevelType, real)>, tick: real): (rows: seq<Row>)
    requires tick > 0.0
    ensures |rows| == |levels|
  {
    if levels == [] then []
    else
      var n := |levels| - 1;
      EncodeAll(bar, levels[..n], tick) + [Encode(bar, levels[n].0, levels[n].1, tick)]
  }

  /** The rows of one snapshot; replayed bars are not written. */
  function Observe(s: Snapshot, tick: real): seq<Row>
    requires tick > 0.0
  {
    if s.replay then [] else EncodeAll(s.bar, Levels(s), tick)
  }

  method EncodeLevels(bar: Bar, levels: seq<(LevelType, real)>, tick: real) returns (rows: seq<Row>)
    requires tick > 0.0
    ensures rows == EncodeAll(bar, levels, tick)
  {
    hide Encode;
    rows := [];
    for i := 0 to |levels|
      invariant rows == EncodeAll(bar, levels[..i], tick)
    {
      assert levels[..i + 1][..i] == levels[..i];
      rows := rows + [Encode(bar, levels[i].0, levels[i].1, tick)];
    }
    assert levels[..|levels|] == levels;
  }

  /** The list of levels the loop runs over. */
  method LevelsOf(s: Snapshot) returns (levels: seq<(LevelType, real)>)
    ensures levels == Levels(s)
  {
    levels := [];
    if s.vwap.Some? && s.vwap.value > 0.0 {
      levels := levels + [(Vwap, s.vwap.value)];
    }
    ghost var first := levels;
    assert first == Level(Positive(s.vwap), Vwap, s.vwap);
    if s.rthVwap.Some? && s.rthVwap.value > 0.0 && s.inRth {
      levels := levels + [(RthVwap, s.rthVwap.value)];
    }
    ghost var second := Level(Positive(s.rthVwap) && s.inRth, RthVwap, s.rthVwap);
    assert levels == first + second;
    if s.orHigh.Some? {
      levels := levels + [(Orh, s.orHigh.value)];
    }
    ghost var third := Level(s.orHigh.Some?, Orh, s.orHigh);
    assert levels == first + (second + third);
    if s.orLow.Some? {
      levels := levels + [(Orl, s.orLow.value)];
    }
    assert levels == first + (second + third + Level(s.orLow.Some?, Orl, s.orLow));
  }

  method Process(s: Snapshot, tick: real) returns (rows: seq<Row>)
    requires tick > 0.0
    ensures rows == Observe(s, tick)
  {
    hide EncodeAll, Levels;
    var levels := LevelsOf(s);
    if s.replay {
      return [];
    }
    rows := EncodeLevels(s.bar, levels, tick);
  }

  function Observed(snaps: seq<Snapshot>, tick: real): seq<Row>
    requires tick > 0.0
  {
    if snaps == [] then []
    else Observed(snaps[..|snaps| - 1], tick) + Observe(snaps[|snaps| - 1], tick)
  }

  // ---- The readers -----------------------------------------------------------------------------

  datatype Decoder = PlainDecoder | SnappingDecoder

  datatype OutBar = OutBar(ts: int, open: real, high: real, low: real, close: real, vwap: real)

  function Price(dec: Decoder, row: Row, distance: int): real
    requires dec.SnappingDecoder? ==> row.tick > 0.0
  {
    if dec.PlainDecoder? then Plain(row.value, distance, row.tick) else Snapped(row.value, distance, row.tick)
  }

  function Decode(dec: Decoder, row: Row): OutBar
    requires dec.SnappingDecoder? ==> row.tick > 0.0
  {
    OutBar(row.ts, Price(dec, row, row.open), Price(dec, row, row.high), Price(dec, row, row.low),
           Price(dec, row, row.close), row.value)
  }

  predicate Decodable(dec: Decoder, rows: seq<Row>) {
    dec.SnappingDecoder? ==> forall i :: 0 <= i < |rows| ==> rows[i].tick > 0.0
  }

  /** The last row for a time and a level. */
  function Last(rows: seq<Row>, ts: int, level: LevelType): (r: Option<Row>)
    ensures r.Some? ==> r.value in rows && r.value.ts == ts && r.value.level == level
    ensures r.None? ==> forall row :: row in rows ==> !(row.ts == ts && row.level == level)
  {
    if rows == [] then None
    else
      var row := rows[|rows| - 1];
      assert rows == rows[..|rows| - 1] + [row];
      if row.ts == ts && row.level == level then Some(row) else Last(rows[..|rows| - 1], ts, level)
  }

  ghost predicate Indexes(byTs: map<int, map<LevelType, Row>>, rows: seq<Row>) {
    && (forall ts, level :: (ts in byTs && level in byTs[ts]) <==> Last(rows, ts, level).Some?)
    && (forall ts, level :: ts in byTs && level in byTs[ts] ==> byTs[ts][level] == Last(rows, ts, level).value)
  }

  ghost predicate Rising(bars: seq<OutBar>) {
    forall i, j :: 0 <= i < j < |bars| ==> bars[i].ts < bars[j].ts
  }

  /**
   * One bar per time with a VWAP row, in time order, decoded from the last
   * such row.
   */
  ghost predicate Reconstructs(dec: Decoder, rows: seq<Row>, bars: seq<OutBar>)
    requires Decodable(dec, rows)
  {
    && Rising(bars)
    && (forall b :: b in bars ==> DecodedFrom(dec, rows, b))
    && (forall ts :: Last(rows, ts, Vwap).Some? ==> DecodedAt(dec, rows, bars, ts))
  }

  ghost predicate DecodedAt(dec: Decoder, rows: seq<Row>, bars: seq<OutBar>, ts: int)
    requires Decodable(dec, rows)
  {
    var last := Last(rows, ts, Vwap);
    last.Some? && Decode(dec, last.value) in bars
  }

  ghost predicate DecodedFrom(dec: Decoder, rows: seq<Row>, b: OutBar)
    requires Decodable(dec, rows)
  {
    var row := Last(rows, b.ts, Vwap);
    row.Some? && b == Decode(dec, row.value)
  }

  method IndexRows(rows: seq<Row>) returns (byTs: map<int, map<LevelType, Row>>)
    ensures Indexes(byTs, rows)
  {
    byTs := map[];
    for i := 0 to |rows|
      invariant Indexes(byTs, rows[..i])
    {
      var row := rows[i];
      assert rows[..i + 1][..i] == rows[..i];
      ghost var before := byTs;
      if row.ts !in byTs {
        byTs := byTs[row.ts := map[]];
      }
      byTs := byTs[row.ts := byTs[row.ts][row.level := row]];
      OneMoreRow(before, byTs, rows[..i], row);
      assert rows[..i] + [row] == rows[..i + 1];
    }
    assert rows[..|rows|] == rows;
  }

  lemma OneMoreRow(before: map<int, map<LevelType, Row>>, after: map<int, map<LevelType, Row>>, rows: seq<Row>, row: Row)
    requires Indexes(before, rows)
    requires after == before[row.ts := (if row.ts in before then before[row.ts] else map[])[row.level := row]]
    ensures Indexes(after, rows + [row])
  {
    assert (rows + [row])[..|rows|] == rows;
    forall ts, level
      ensures Last(rows + [row], ts, level)
              == if row.ts == ts && row.level == level then Some(row) else Last(rows, ts, level)
    {
    }
  }

  function BarsAt(dec: Decoder, rows: seq<Row>, times: seq<int>): seq<OutBar>
    requires Decodable(dec, rows)
  {
    if times == [] then []
    else
      var n := |times| - 1;
      var last := Last(rows, times[n], Vwap);
      BarsAt(dec, rows, times[..n]) + if last.Some? then [Decode(dec, last.value)] else []
  }

  lemma {:induction false} EachFromARow(dec: Decoder, rows: seq<Row>, times: seq<int>, b: OutBar)
    requires Decodable(dec, rows) && b in BarsAt(dec, rows, times)
    ensures DecodedFrom(dec, rows, b) && b.ts in times
  {
    var n := |times| - 1;
    if b in BarsAt(dec, rows, times[..n]) {
      EachFromARow(dec, rows, times[..n], b);
      assert b.ts in times[..n];
    } else {
      DecodeTime(dec, Last(rows, times[n], Vwap).value);
      hide Last, Decode;
      assert b == Decode(dec, Last(rows, times[n], Vwap).value);
    }
  }

  lemma {:induction false} EachTimeDecoded(dec: Decoder, rows: seq<Row>, times: seq<int>, k: int)
    requires Decodable(dec, rows) && 0 <= k < |times| && Last(rows, times[k], Vwap).Some?
    ensures DecodedAt(dec, rows, BarsAt(dec, rows, times), times[k])
  {
    hide Last, Decode;
    if k < |times| - 1 {
      EachTimeDecoded(dec, rows, times[..|times| - 1], k);
    }
  }

  lemma {:induction false} BarsRise(dec: Decoder, rows: seq<Row>, times: seq<int>)
    requires Decodable(dec, rows) && StrictlySorted(times)
    ensures Rising(BarsAt(dec, rows, times))
  {
    if times != [] {
      var n := |times| - 1;
      var before, last := BarsAt(dec, rows, times[..n]), Last(rows, times[n], Vwap);
      BarsRise(dec, rows, times[..n]);
      if last.Some? {
        DecodeTime(dec, last.value);
        forall i | 0 <= i < |before|
          ensures before[i].ts < times[n]
        {
          EachFromARow(dec, rows, times[..n], before[i]);
          var k :| 0 <= k < n && times[..n][k] == before[i].ts;
        }
      }
      hide Last, Decode, DecodedFrom;
    }
  }

  method Reconstruct(dec: Decoder, rows: seq<Row>) returns (bars: seq<OutBar>)
    requires Decodable(dec, rows)
    ensures Reconstructs(dec, rows, bars)
  {
    var byTs := IndexRows(rows);
    var times := SortedSeq(byTs.Keys);
    bars := ReadTimes(dec, rows, byTs, times);
    AllOfIndex(dec, rows, byTs, times);
    hide *;
  }

  method ReadTimes(dec: Decoder, rows: seq<Row>, byTs: map<int, map<LevelType, Row>>, times: seq<int>)
    returns (bars: seq<OutBar>)
    requires Decodable(dec, rows) && Indexes(byTs, rows) && forall k :: 0 <= k < |times| ==> times[k] in byTs
    ensures bars == BarsAt(dec, rows, times)
  {
    bars := [];
    for k := 0 to |times|
      invariant bars == BarsAt(dec, rows, times[..k])
    {
      assert times[..k + 1][..k] == times[..k];
      assert times[..k + 1][k] == times[k];
      LookUp(byTs, rows, times[k]);
      var levels := byTs[times[k]];
      hide Decode, Last, Indexes;
      if Vwap in levels {
        bars := bars + [Decode(dec, levels[Vwap])];
      }
    }
    assert times[..|times|] == times;
  }

  lemma LookUp(byTs: map<int, map<LevelType, Row>>, rows: seq<Row>, ts: int)
    requires Indexes(byTs, rows) && ts in byTs
    ensures Last(rows, ts, Vwap) == if Vwap in byTs[ts] then Some(byTs[ts][Vwap]) else None
    ensures Vwap in byTs[ts] ==> byTs[ts][Vwap] in rows
  {
  }

  lemma AllOfIndex(dec: Decoder, rows: seq<Row>, byTs: map<int, map<LevelType, Row>>, times: seq<int>)
    requires Decodable(dec, rows) && Indexes(byTs, rows) && StrictlySorted(times)
    requires forall t :: t in times <==> t in byTs
    ensures Reconstructs(dec, rows, BarsAt(dec, rows, times))
  {
    BarsRise(dec, rows, times);
    var bars := BarsAt(dec, rows, times);
    forall b | b in bars
      ensures DecodedFrom(dec, rows, b)
    {
      EachFromARow(dec, rows, times, b);
    }
    forall ts | Last(rows, ts, Vwap).Some?
      ensures DecodedAt(dec, rows, bars, ts)
    {
      assert ts in byTs;
      var k :| 0 <= k < |times| && times[k] == ts;
      EachTimeDecoded(dec, rows, times, k);
    }
    hide Last, DecodedFrom, DecodedAt, Rising, BarsAt, Indexes;
  }

  lemma DecodeTime(dec: Decoder, row: Row)
    requires dec.SnappingDecoder? ==> row.tick > 0.0
    ensures Decode(dec, row).ts == row.ts
  {
  }

  // ---- Round trip ---------------------------------------------------------------------------------

  predicate Recorded(s: Snapshot) { !s.replay && Positive(s.vwap) }

  ghost predicate DistinctTimes(snaps: seq<Snapshot>) {
    forall i, j :: 0 <= i < j < |snaps| ==> snaps[i].bar.ts != snaps[j].bar.ts
  }

  lemma {:induction false} RowsOfLevels(bar: Bar, levels: seq<(LevelType, real)>, tick: real)
    requires tick > 0.0
    ensures forall row :: row in EncodeAll(bar, levels, tick)
                          <==> exists i :: 0 <= i < |levels| && row == Encode(bar, levels[i].0, levels[i].1, tick)
  {
    hide Encode;
    if levels != [] {
      var n := |levels| - 1;
      RowsOfLevels(bar, levels[..n], tick);
      assert forall i :: 0 <= i < n ==> levels[..n][i] == levels[i];
    }
  }

  /** The value a snapshot has for a level, if it is to be recorded. */
  function ValueOf(s: Snapshot, level: LevelType): Option<real> {
    match level
    case Vwap => if s.vwap.Some? && 0.0 < s.vwap.value then s.vwap else None
    case RthVwap => if s.rthVwap.Some? && 0.0 < s.rthVwap.value && s.inRth then s.rthVwap else None
    case Orh => s.orHigh
    case Orl => s.orLow
  }

  lemma LevelIs(present: bool, level: LevelType, v: Option<real>, x: (LevelType, real))
    requires present ==> v.Some?
    ensures x in Level(present, level, v) <==> present && x == (level, v.value)
  {
  }

  /** A level is listed exactly when the snapshot has it. */
  lemma LevelsAre(s: Snapshot, x: (LevelType, real))
    ensures x in Levels(s) <==> ValueOf(s, x.0) == Some(x.1)
  {
    LevelIs(Positive(s.vwap), Vwap, s.vwap, x);
    LevelIs(Positive(s.rthVwap) && s.inRth, RthVwap, s.rthVwap, x);
    LevelIs(s.orHigh.Some?, Orh, s.orHigh, x);
    LevelIs(s.orLow.Some?, Orl, s.orLow, x);
    hide Level;
  }

  /** The rows of a snapshot, none for a replayed bar, are its levels, encoded. */
  lemma RowExactly(s: Snapshot, tick: real, row: Row)
    requires tick > 0.0
    ensures row in Observe(s, tick) <==>
              !s.replay && ValueOf(s, row.level).Some?
              && row == Encode(s.bar, row.level, ValueOf(s, row.level).value, tick)
    ensures row in Observe(s, tick) ==> row.ts == s.bar.ts && row.tick == tick
  {
    var levels := Levels(s);
    RowsOfLevels(s.bar, levels, tick);
    EncodedLevels(s.bar, levels, tick);
    hide Encode, EncodeAll, Levels, Positive, ValueOf;
    if row in Observe(s, tick) {
      var i :| 0 <= i < |levels| && row == Encode(s.bar, levels[i].0, levels[i].1, tick);
      assert levels[i] in levels;
      LevelsAre(s, levels[i]);
    }
    if !s.replay && ValueOf(s, row.level).Some? && row == Encode(s.bar, row.level, ValueOf(s, row.level).value, tick) {
      LevelsAre(s, (row.level, ValueOf(s, row.level).value));
      var i :| 0 <= i < |levels| && levels[i] == (row.level, ValueOf(s, row.level).value);
    }
  }

  /** No level is listed twice. */
  lemma LevelsDiffer(s: Snapshot)
    ensures forall i, j :: 0 <= i < j < |Levels(s)| ==> Levels(s)[i].0 != Levels(s)[j].0
  {
    var l1, l2 := Level(Positive(s.vwap), Vwap, s.vwap), Level(Positive(s.rthVwap) && s.inRth, RthVwap, s.rthVwap);
    var l3, l4 := Level(s.orHigh.Some?, Orh, s.orHigh), Level(s.orLow.Some?, Orl, s.orLow);
    assert Levels(s) == l1 + (l2 + l3 + l4);
  }

  lemma {:induction false} EncodeAllAt(bar: Bar, levels: seq<(LevelType, real)>, tick: real, i: nat)
    requires tick > 0.0 && i < |levels|
    ensures EncodeAll(bar, levels, tick)[i] == Encode(bar, levels[i].0, levels[i].1, tick)
  {
    hide Encode;
    if i < |levels| - 1 {
      EncodeAllAt(bar, levels[..|levels| - 1], tick, i);
    }
  }

  /** So a bar has at most one row for a level. */
  lemma OneRowEach(s: Snapshot, tick: real)
    requires tick > 0.0
    ensures forall i, j :: 0 <= i < j < |Observe(s, tick)| ==> Observe(s, tick)[i].level != Observe(s, tick)[j].level
  {
    var levels := Levels(s);
    LevelsDiffer(s);
    EncodedLevels(s.bar, levels, tick);
    hide Levels, Encode, EncodeAll;
    forall i, j | 0 <= i < j < |Observe(s, tick)|
      ensures Observe(s, tick)[i].level != Observe(s, tick)[j].level
    {
      EncodeAllAt(s.bar, levels, tick, i);
      EncodeAllAt(s.bar, levels, tick, j);
    }
  }

  lemma EncodedLevels(bar: Bar, levels: seq<(LevelType, real)>, tick: real)
    requires tick > 0.0
    ensures forall i :: 0 <= i < |levels| ==>
              var r := Encode(bar, levels[i].0, levels[i].1, tick);
              r.ts == bar.ts && r.level == levels[i].0 && r.tick == tick
  {
    hide Distance, Side;
  }

  lemma {:induction false} RowsOfTable(snaps: seq<Snapshot>, tick: real)
    requires tick > 0.0
    ensures forall row :: row in Observed(snaps, tick) <==> exists k :: 0 <= k < |snaps| && row in Observe(snaps[k], tick)
  {
    hide Observe;
    if snaps != [] {
      var n := |snaps| - 1;
      RowsOfTable(snaps[..n], tick);
      assert forall k :: 0 <= k < n ==> snaps[..n][k] == snaps[k];
    }
  }

  /** A table in any row order has one row for every recorded level of its snapshots. */
  lemma LastOfTable(snaps: seq<Snapshot>, tick: real, rows: seq<Row>, k: int, level: LevelType)
    requires tick > 0.0 && DistinctTimes(snaps) && 0 <= k < |snaps|
    requires forall row :: row in rows <==> row in Observed(snaps, tick)
    ensures var s := snaps[k];
            Last(rows, s.bar.ts, level)
            == if !s.replay && ValueOf(s, level).Some? then Some(Encode(s.bar, level, ValueOf(s, level).value, tick)) else None
  {
    RowsOfTable(snaps, tick);
    var s := snaps[k];
    var last := Last(rows, s.bar.ts, level);
    hide Observe, Observed, Encode, ValueOf;
    if !s.replay && ValueOf(s, level).Some? {
      var row := Encode(s.bar, level, ValueOf(s, level).value, tick);
      EncodeKeys(s.bar, level, ValueOf(s, level).value, tick);
      RowExactly(s, tick, row);
      assert row in rows;
    }
    if last.Some? {
      var j :| 0 <= j < |snaps| && last.value in Observe(snaps[j], tick);
      RowExactly(snaps[j], tick, last.value);
      assert j == k;
    }
  }

  lemma EncodeKeys(bar: Bar, level: LevelType, value: real, tick: real)
    requires tick > 0.0
    ensures var row := Encode(bar, level, value, tick);
            row.ts == bar.ts && row.level == level && row.value == value && row.tick == tick
  {
    hide Distance, Side;
  }

  lemma TableDecodable(snaps: seq<Snapshot>, tick: real, rows: seq<Row>, dec: Decoder)
    requires tick > 0.0 && forall row :: row in rows <==> row in Observed(snaps, tick)
    ensures Decodable(dec, rows)
  {
    RowsOfTable(snaps, tick);
    hide Observe, Observed;
    forall i | 0 <= i < |rows|
      ensures rows[i].tick > 0.0
    {
      assert rows[i] in rows;
      var k :| 0 <= k < |snaps| && rows[i] in Observe(snaps[k], tick);
      RowExactly(snaps[k], tick, rows[i]);
    }
  }

  predicate OnGrid(price: real, tick: real)
    requires tick > 0.0
  {
    (price / tick).Floor as real * tick == price
  }

  predicate BarOnGrid(b: Bar, tick: real)
    requires tick > 0.0
  {
    OnGrid(b.open, tick) && OnGrid(b.high, tick) && OnGrid(b.low, tick) && OnGrid(b.close, tick)
  }

  predicate Close(x: real, y: real, tick: real) { -0.5 * tick <= x - y <= 0.5 * tick }

  predicate AllClose(b: OutBar, bar: Bar, tick: real) {
    && Close(b.open, bar.open, tick) && Close(b.high, bar.high, tick)
    && Close(b.low, bar.low, tick) && Close(b.close, bar.close, tick)
  }

  /** What the snapping decoder makes of an on-grid price: the price itself, unless
      the level is mid-tick and the price an odd number of ticks; then the next
      tick away from the level. */
  predicate SnapsTo(back: real, price: real, level: real, tick: real)
    requires tick > 0.0
  {
    && (back == price <==> !MidTick(level, tick) || (price / tick).Floor % 2 == 0)
    && (back != price ==> back == if price > level then price + tick else price - tick)
  }

  predicate AllSnap(b: OutBar, bar: Bar, tick: real)
    requires tick > 0.0
  {
    && SnapsTo(b.open, bar.open, b.vwap, tick) && SnapsTo(b.high, bar.high, b.vwap, tick)
    && SnapsTo(b.low, bar.low, b.vwap, tick) && SnapsTo(b.close, bar.close, b.vwap, tick)
  }

  lemma PlainBar(bar: Bar, value: real, tick: real)
    requires tick > 0.0
    ensures AllClose(Decode(PlainDecoder, Encode(bar, Vwap, value, tick)), bar, tick)
  {
    PlainWithinHalfTick(bar.open, value, tick);
    PlainWithinHalfTick(bar.high, value, tick);
    PlainWithinHalfTick(bar.low, value, tick);
    PlainWithinHalfTick(bar.close, value, tick);
    hide Distance, Plain;
  }

  lemma SnappedPrice(price: real, value: real, tick: real)
    requires tick > 0.0 && OnGrid(price, tick)
    ensures SnapsTo(Snapped(value, Distance(price, value, tick), tick), price, value, tick)
  {
    hide Snapped, Distance, MidTick;
    var n := (price / tick).Floor;
    SnappedExactly(n, value, tick);
    assert n as real * tick == price;
  }

  lemma SnappedBar(bar: Bar, value: real, tick: real)
    requires tick > 0.0 && BarOnGrid(bar, tick)
    ensures AllSnap(Decode(SnappingDecoder, Encode(bar, Vwap, value, tick)), bar, tick)
  {
    hide Distance, Snapped, SnapsTo, OnGrid;
    SnappedPrice(bar.open, value, tick);
    SnappedPrice(bar.high, value, tick);
    SnappedPrice(bar.low, value, tick);
    SnappedPrice(bar.close, value, tick);
  }

  ghost predicate HasTime(bars: seq<OutBar>, ts: int) {
    exists b :: b in bars && b.ts == ts
  }

  /** b is what the reader dec returns for the snapshot s. */
  predicate ReadBack(dec: Decoder, s: Snapshot, b: OutBar, tick: real)
    requires tick > 0.0
  {
    && s.vwap == Some(b.vwap)
    && (dec.PlainDecoder? ==> AllClose(b, s.bar, tick))
    && (dec.SnappingDecoder? && BarOnGrid(s.bar, tick) ==> AllSnap(b, s.bar, tick))
  }

  lemma RowReadBack(dec: Decoder, s: Snapshot, tick: real)
    requires tick > 0.0 && Recorded(s)
    ensures ReadBack(dec, s, Decode(dec, Encode(s.bar, Vwap, s.vwap.value, tick)), tick)
  {
    var value := s.vwap.value;
    EncodeKeys(s.bar, Vwap, value, tick);
    assert Decode(dec, Encode(s.bar, Vwap, value, tick)).vwap == value;
    if dec.PlainDecoder? {
      PlainBar(s.bar, value, tick);
    } else if BarOnGrid(s.bar, tick) {
      SnappedBar(s.bar, value, tick);
    }
    hide Encode, Decode, AllClose, BarOnGrid, AllSnap;
  }

  lemma SnapshotReadBack(snaps: seq<Snapshot>, tick: real, rows: seq<Row>, dec: Decoder, bars: seq<OutBar>, k: int)
    requires tick > 0.0 && DistinctTimes(snaps) && 0 <= k < |snaps|
    requires forall row :: row in rows <==> row in Observed(snaps, tick)
    requires Decodable(dec, rows) && Reconstructs(dec, rows, bars)
    ensures Recorded(snaps[k]) <==> HasTime(bars, snaps[k].bar.ts)
    ensures forall b :: b in bars && b.ts == snaps[k].bar.ts ==> ReadBack(dec, snaps[k], b, tick)
  {
    var s := snaps[k];
    LastOfTable(snaps, tick, rows, k, Vwap);
    assert Recorded(s) <==> !s.replay && ValueOf(s, Vwap).Some?;
    hide Observed, Last, ReadBack, Encode, Positive;
    if Recorded(s) {
      var row := Encode(s.bar, Vwap, s.vwap.value, tick);
      RowReadBack(dec, s, tick);
      EncodeKeys(s.bar, Vwap, s.vwap.value, tick);
      DecodeTime(dec, row);
      hide Decode;
      assert DecodedAt(dec, rows, bars, s.bar.ts);
      assert Decode(dec, row) in bars;
      forall b | b in bars && b.ts == s.bar.ts
        ensures ReadBack(dec, s, b, tick)
      {
        assert DecodedFrom(dec, rows, b);
      }
    } else {
      forall b | b in bars
        ensures b.ts != s.bar.ts
      {
        assert DecodedFrom(dec, rows, b);
      }
    }
  }

  /** bars are the recorded snapshots, once each and in time order, as dec reads them. */
  ghost predicate Recovered(snaps: seq<Snapshot>, tick: real, dec: Decoder, bars: seq<OutBar>)
    requires tick > 0.0
  {
    && Rising(bars)
    && (forall k :: 0 <= k < |snaps| ==> (Recorded(snaps[k]) <==> HasTime(bars, snaps[k].bar.ts)))
    && (forall b :: b in bars ==>
          exists k :: 0 <= k < |snaps| && snaps[k].bar.ts == b.ts && ReadBack(dec, snaps[k], b, tick))
  }

  /**
   * Encoding snapshots with distinct times and reading the table back, its rows
   * in any order: exactly the recorded snapshots return, once each and in time
   * order, with their VWAP unchanged; the plain reader is at most half a tick
   * off in every price, and the snapping reader returns on-grid prices exactly,
   * or one tick further from a mid-tick VWAP when they are odd.
   */
  lemma TableRoundTrip(snaps: seq<Snapshot>, tick: real, rows: seq<Row>, dec: Decoder, bars: seq<OutBar>)
    requires tick > 0.0 && DistinctTimes(snaps)
    requires forall row :: row in rows <==> row in Observed(snaps, tick)
    ensures Decodable(dec, rows)
    ensures Reconstructs(dec, rows, bars) ==> Recovered(snaps, tick, dec, bars)
  {
    TableDecodable(snaps, tick, rows, dec);
    if Reconstructs(dec, rows, bars) {
      Recover(snaps, tick, rows, dec, bars);
    }
  }

  lemma Recover(snaps: seq<Snapshot>, tick: real, rows: seq<Row>, dec: Decoder, bars: seq<OutBar>)
    requires tick > 0.0 && DistinctTimes(snaps)
    requires forall row :: row in rows <==> row in Observed(snaps, tick)
    requires Decodable(dec, rows) && Reconstructs(dec, rows, bars)
    ensures Recovered(snaps, tick, dec, bars)
  {
    hide Observed, Rising, HasTime, ReadBack, Recorded, DecodedFrom, DecodedAt, Last, Decodable;
    forall k | 0 <= k < |snaps|
      ensures Recorded(snaps[k]) <==> HasTime(bars, snaps[k].bar.ts)
    {
      SnapshotReadBack(snaps, tick, rows, dec, bars, k);
    }
    forall b | b in bars
      ensures exists k :: 0 <= k < |snaps| && snaps[k].bar.ts == b.ts && ReadBack(dec, snaps[k], b, tick)
    {
      var k := SourceOf(snaps, tick, rows, dec, b);
      SnapshotReadBack(snaps, tick, rows, dec, bars, k);
    }
  }

  lemma SourceOf(snaps: seq<Snapshot>, tick: real, rows: seq<Row>, dec: Decoder, b: OutBar) returns (k: int)
    requires tick > 0.0 && Decodable(dec, rows) && DecodedFrom(dec, rows, b)
    requires forall row :: row in rows <==> row in Observed(snaps, tick)
    ensures 0 <= k < |snaps| && snaps[k].bar.ts == b.ts
  {
    RowsOfTable(snaps, tick);
    hide Observe, Observed, Decode;
    var row := Last(rows, b.ts, Vwap).value;
    k :| 0 <= k < |snaps| && row in Observe(snaps[k], tick);
    RowExactly(snaps[k], tick, row);
  }
}

/**
 * Merging live bars into the chart's list: bucketTimestamp, mergeLiveBar and
 * mergeHistoryWithLiveTail of web/components/dashboard.tsx. A timestamp is a
 * number of milliseconds (UTC) and a price a real.
 */
module LiveMerge {
  import opened Wrappers
  import opened Sorting

  datatype Timeframe = S1 | M1 | M5 | M15 | H1

  /** The optional vwap field of a row. */
  datatype Vwap = Absent | Null | Value(v: real)

  /** `native` is None for a row without a timeframe. */
  datatype Bar = Bar(native: Option<Timeframe>, ts: int, open: real, high: real, low: real, close: real,
                     volume: real, vwap: Vwap)

  const MINUTE := 60_000
  const HOUR := 60 * MINUTE

  function Minutes(tf: Timeframe): int {
    match tf
    case M5 => 5
    case M15 => 15
    case H1 => 60
    case _ => 1
  }

  /** setUTCSeconds and setUTCMinutes replace the fields below the hour. */
  function Bucket(ts: int, tf: Timeframe): int {
    var hour, minute := ts / HOUR * HOUR, ts % HOUR / MINUTE;
    match tf
    case S1 => ts
    case M1 => hour + minute * MINUTE
    case M5 => hour + minute / 5 * 5 * MINUTE
    case M15 => hour + minute / 15 * 15 * MINUTE
    case H1 => hour
  }

  lemma DivisionIsUnique(x: int, d: int, q: int, r: int)
    requires 0 < d && x == q * d + r && 0 <= r < d
    ensures x / d == q && x % d == r
  {
    var k := x / d - q;
    assert k * d == r - x % d;
    assert k >= 1 ==> k * d >= d;
    assert k <= -1 ==> k * d <= -d;
  }

  function Length(tf: Timeframe): int { Minutes(tf) * MINUTE }

  /** Hours, minutes and the rest of a timestamp. */
  lemma Fields(ts: int)
    ensures var h, m, s := ts / HOUR, ts % HOUR / MINUTE, ts % HOUR % MINUTE;
            ts == h * HOUR + m * MINUTE + s && 0 <= m < 60 && 0 <= s < MINUTE
  {
  }

  lemma BucketByDivision(ts: int, tf: Timeframe)
    requires tf != S1
    ensures Bucket(ts, tf) == ts / Length(tf) * Length(tf)
  {
    var h, m, s := ts / HOUR, ts % HOUR / MINUTE, ts % HOUR % MINUTE;
    Fields(ts);
    match tf
    case M1 => DivisionIsUnique(ts, 60_000, h * 60 + m, s);
    case M5 => FiveMinutes(ts, h, m, s);
    case M15 => DivisionIsUnique(ts, 900_000, h * 4 + m / 15, m % 15 * MINUTE + s);
    case H1 =>
  }

  lemma FiveMinutes(ts: int, h: int, m: int, s: int)
    requires ts == h * HOUR + m * MINUTE + s && 0 <= m < 60 && 0 <= s < MINUTE
    ensures ts / 300_000 == h * 12 + m / 5
  {
    DivisionIsUnique(ts, 300_000, h * 12 + m / 5, m % 5 * MINUTE + s);
  }

  /** The bucket is the latest multiple of the timeframe's length, and its own bucket. */
  lemma BucketIsFloor(ts: int, tf: Timeframe)
    requires tf != S1
    ensures var b := Bucket(ts, tf);
            b % Length(tf) == 0 && b <= ts < b + Length(tf) && Bucket(b, tf) == b
  {
    BucketByDivision(ts, tf);
    BucketByDivision(Bucket(ts, tf), tf);
    hide Bucket;
    DivisionIsUnique(Bucket(ts, tf), Length(tf), ts / Length(tf), 0);
  }

  // ---- mergeLiveBar --------------------------------------------------------------------------

  function Max(x: real, y: real): real { if x < y then y else x }

  function Min(x: real, y: real): real { if y < x then y else x }

  function NextBar(incoming: Bar, tf: Timeframe): Bar {
    incoming.(native := Some(tf), ts := Bucket(incoming.ts, tf))
  }

  predicate SameTimeframe(incoming: Bar, tf: Timeframe) {
    incoming.native == Some(tf) || incoming.native == None
  }

  function MergeInto(existing: Bar, incoming: Bar, tf: Timeframe): Bar {
    var next := NextBar(incoming, tf);
    if SameTimeframe(incoming, tf) then next.(open := existing.open)
    else
      next.(open := existing.open, high := Max(existing.high, next.high), low := Min(existing.low, next.low),
            vwap := if next.vwap.Absent? then existing.vwap else next.vwap)
  }

  /** Map.set: an existing key keeps its place. */
  function Put(entries: seq<Bar>, b: Bar): seq<Bar> {
    if entries == [] then [b]
    else if entries[0].ts == b.ts then [b] + entries[1..]
    else [entries[0]] + Put(entries[1..], b)
  }

  function MapOf(bars: seq<Bar>): seq<Bar> {
    if bars == [] then [] else Put(MapOf(bars[..|bars| - 1]), bars[|bars| - 1])
  }

  /** Map.get. */
  function At(entries: seq<Bar>, t: int): (r: Option<Bar>)
    ensures r.Some? ==> r.value in entries && r.value.ts == t
  {
    if entries == [] then None
    else if entries[0].ts == t then Some(entries[0])
    else At(entries[1..], t)
  }

  function TimeKey(b: Bar): int { b.ts }

  /** The value of a bucket once the incoming bar has been merged. */
  function Merged(existing: Option<Bar>, incoming: Bar, tf: Timeframe): Bar {
    if existing.Some? then MergeInto(existing.value, incoming, tf) else NextBar(incoming, tf)
  }

  function MergeLiveBar(bars: seq<Bar>, incoming: Bar, tf: Timeframe): seq<Bar> {
    var bucket, n := Bucket(incoming.ts, tf), |bars| - 1;
    if tf == S1 then bars
    else if bars == [] then [NextBar(incoming, tf)]
    else if bars[n].ts == bucket then bars[n := MergeInto(bars[n], incoming, tf)]
    else if bars[n].ts > bucket then
      var byTimestamp := MapOf(bars);
      Sort(Put(byTimestamp, Merged(At(byTimestamp, bucket), incoming, tf)), TimeKey)
    else bars + [NextBar(incoming, tf)]
  }

  // ---- Lists in bucket order ---------------------------------------------------------------------

  ghost predicate Increasing(bars: seq<Bar>) {
    forall i, j :: 0 <= i < j < |bars| ==> bars[i].ts < bars[j].ts
  }

  lemma {:induction false} AtIndex(bars: seq<Bar>, i: int)
    requires Increasing(bars) && 0 <= i < |bars|
    ensures At(bars, bars[i].ts) == Some(bars[i])
  {
    if i > 0 {
      AtIndex(bars[1..], i - 1);
      assert bars[1..][i - 1] == bars[i];
    }
  }

  lemma AtNothing(bars: seq<Bar>, t: int)
    requires forall i :: 0 <= i < |bars| ==> bars[i].ts != t
    ensures At(bars, t) == None
  {
  }

  lemma AtMember(bars: seq<Bar>, t: int)
    ensures At(bars, t).None? <==> forall b :: b in bars ==> b.ts != t
  {
    if forall b :: b in bars ==> b.ts != t {
      forall i | 0 <= i < |bars|
        ensures bars[i].ts != t
      {
        assert bars[i] in bars;
      }
      AtNothing(bars, t);
    } else {
      var b :| b in bars && b.ts == t;
      AtPresent(bars, b);
    }
  }

  lemma {:induction false} AtPresent(bars: seq<Bar>, b: Bar)
    requires b in bars
    ensures At(bars, b.ts).Some?
  {
    if bars[0].ts != b.ts {
      AtPresent(bars[1..], b);
    }
  }

  /** An increasing list is determined by the value of each bucket. */
  lemma {:induction false} SameBuckets(a: seq<Bar>, b: seq<Bar>)
    requires Increasing(a) && Increasing(b) && forall t :: At(a, t) == At(b, t)
    ensures a == b
    decreases |a|
  {
    if a == [] || b == [] {
      if a != [] {
        AtIndex(a, 0);
      }
      if b != [] {
        AtIndex(b, 0);
      }
    } else {
      FirstBucket(a, b);
      FirstBucket(b, a);
      AtIndex(a, 0);
      AtIndex(b, 0);
      assert a[0] == b[0];
      forall t
        ensures At(a[1..], t) == At(b[1..], t)
      {
        assert At(a, t) == At(b, t);
        if t == a[0].ts {
          AtNothing(a[1..], t);
          AtNothing(b[1..], t);
        }
      }
      SameBuckets(a[1..], b[1..]);
    }
  }

  lemma FirstBucket(a: seq<Bar>, b: seq<Bar>)
    requires Increasing(a) && Increasing(b) && a != [] && b != [] && forall t :: At(a, t) == At(b, t)
    ensures b[0].ts <= a[0].ts
  {
    AtIndex(a, 0);
    assert At(b, a[0].ts).Some?;
    AtMember(b, a[0].ts);
    var x :| x in b && x.ts == a[0].ts;
    var i :| 0 <= i < |b| && b[i] == x;
  }

  // ---- The branch for an earlier bucket --------------------------------------------------------------

  ghost predicate Distinct(bars: seq<Bar>) {
    forall i, j :: 0 <= i < j < |bars| ==> bars[i].ts != bars[j].ts
  }

  lemma {:induction false} PutNew(entries: seq<Bar>, b: Bar)
    requires forall i :: 0 <= i < |entries| ==> entries[i].ts != b.ts
    ensures Put(entries, b) == entries + [b]
  {
    if entries != [] {
      PutNew(entries[1..], b);
    }
  }

  lemma {:induction false} MapOfDistinct(bars: seq<Bar>)
    requires Distinct(bars)
    ensures MapOf(bars) == bars
  {
    if bars != [] {
      var n := |bars| - 1;
      MapOfDistinct(bars[..n]);
      PutNew(bars[..n], bars[n]);
    }
  }

  lemma {:induction false} PutAt(entries: seq<Bar>, b: Bar, t: int)
    ensures At(Put(entries, b), t) == if t == b.ts then Some(b) else At(entries, t)
  {
    if entries != [] {
      PutAt(entries[1..], b, t);
    }
  }

  lemma {:induction false} PutTimes(entries: seq<Bar>, b: Bar, x: Bar)
    requires x in Put(entries, b)
    ensures x == b || x in entries
  {
    if entries != [] && entries[0].ts != b.ts && x != entries[0] {
      assert x in Put(entries[1..], b);
      PutTimes(entries[1..], b, x);
    }
  }

  lemma {:induction false} PutDistinct(entries: seq<Bar>, b: Bar)
    requires Distinct(entries)
    ensures Distinct(Put(entries, b))
  {
    if entries != [] {
      var rest := entries[1..];
      assert forall x :: x in rest ==> x.ts != entries[0].ts;
      if entries[0].ts != b.ts {
        PutDistinct(rest, b);
        var r := Put(rest, b);
        forall i | 0 <= i < |r|
          ensures r[i].ts != entries[0].ts
        {
          PutTimes(rest, b, r[i]);
        }
      }
    }
  }

  predicate OtherTime(x: Bar, y: Bar) { x.ts != y.ts }

  lemma SortDistinct(bars: seq<Bar>)
    requires Distinct(bars)
    ensures Increasing(Sort(bars, TimeKey))
    ensures forall t :: At(Sort(bars, TimeKey), t) == At(bars, t)
  {
    var s := Sort(bars, TimeKey);
    SortIsSorted(bars, TimeKey);
    SortPairwise(bars, TimeKey, OtherTime);
    forall i, j | 0 <= i < j < |s|
      ensures s[i].ts < s[j].ts
    {
      assert TimeKey(s[i]) <= TimeKey(s[j]) && OtherTime(s[i], s[j]);
    }
    forall t
      ensures At(s, t) == At(bars, t)
    {
      SameElementsAt(s, bars, t);
    }
  }

  lemma SameElementsAt(a: seq<Bar>, b: seq<Bar>, t: int)
    requires Distinct(b) && forall x :: x in a <==> x in b
    ensures At(a, t) == At(b, t)
  {
    AtMember(a, t);
    AtMember(b, t);
    if At(a, t).Some? {
      var x, y := At(a, t).value, At(b, t).value;
      assert x in b && y in b;
      var i :| 0 <= i < |b| && b[i] == x;
      var j :| 0 <= j < |b| && b[j] == y;
      assert i == j;
    }
  }

  // ---- What one merge does ------------------------------------------------------------------------------

  /** a holds what b holds, except for the incoming bar's bucket. */
  ghost predicate OnlyBucketChanged(a: seq<Bar>, b: seq<Bar>, incoming: Bar, tf: Timeframe) {
    forall t :: At(a, t) == if t == Bucket(incoming.ts, tf) then Some(Merged(At(b, t), incoming, tf)) else At(b, t)
  }

  lemma AtAppend(bars: seq<Bar>, b: Bar, t: int)
    requires Increasing(bars + [b])
    ensures At(bars + [b], t) == if t == b.ts then Some(b) else At(bars, t)
  {
    assert forall i :: 0 <= i < |bars| ==> bars[i] == (bars + [b])[i];
    assert (bars + [b])[|bars|] == b;
    assert bars[..] == bars;
    PutNew(bars, b);
    PutAt(bars, b, t);
  }

  lemma AtReplaceLast(bars: seq<Bar>, b: Bar, t: int)
    requires bars != [] && Increasing(bars) && b.ts == bars[|bars| - 1].ts
    ensures At(bars[|bars| - 1 := b], t) == if t == b.ts then Some(b) else At(bars, t)
  {
    var n := |bars| - 1;
    var init := bars[..n];
    assert bars == init + [bars[n]] && bars[n := b] == init + [b];
    assert Increasing(init + [b]);
    AtAppend(init, bars[n], t);
    AtAppend(init, b, t);
  }

  lemma EarlierUnfolds(bars: seq<Bar>, incoming: Bar, tf: Timeframe)
    requires tf != S1 && Increasing(bars) && bars != [] && bars[|bars| - 1].ts > Bucket(incoming.ts, tf)
    ensures var b := Merged(At(bars, Bucket(incoming.ts, tf)), incoming, tf);
            && b.ts == Bucket(incoming.ts, tf) && Distinct(bars)
            && MergeLiveBar(bars, incoming, tf) == Sort(Put(bars, b), TimeKey)
  {
    IncreasingIsDistinct(bars);
    MapOfDistinct(bars);
    MergedTime(At(bars, Bucket(incoming.ts, tf)), incoming, tf);
    hide *;
    Earlier(bars, incoming, tf);
  }

  lemma Earlier(bars: seq<Bar>, incoming: Bar, tf: Timeframe)
    requires tf != S1 && bars != [] && bars[|bars| - 1].ts > Bucket(incoming.ts, tf)
    ensures MergeLiveBar(bars, incoming, tf)
            == Sort(Put(MapOf(bars), Merged(At(MapOf(bars), Bucket(incoming.ts, tf)), incoming, tf)), TimeKey)
  {
    hide Bucket, Sort, Put, MapOf, At, Merged;
  }

  lemma IncreasingIsDistinct(bars: seq<Bar>)
    requires Increasing(bars)
    ensures Distinct(bars)
  {
  }

  lemma MergedTime(e: Option<Bar>, incoming: Bar, tf: Timeframe)
    ensures Merged(e, incoming, tf).ts == Bucket(incoming.ts, tf)
  {
    hide Bucket;
  }

  lemma MergeEarlier(bars: seq<Bar>, incoming: Bar, tf: Timeframe)
    requires tf != S1 && Increasing(bars) && bars != [] && bars[|bars| - 1].ts > Bucket(incoming.ts, tf)
    ensures var r := MergeLiveBar(bars, incoming, tf);
            Increasing(r) && OnlyBucketChanged(r, bars, incoming, tf)
  {
    EarlierUnfolds(bars, incoming, tf);
    hide Bucket, Sort, Put, At, Merged, MapOf, Increasing, Distinct, MergeLiveBar;
    var b := Merged(At(bars, Bucket(incoming.ts, tf)), incoming, tf);
    PutDistinct(bars, b);
    SortDistinct(Put(bars, b));
    forall t
      ensures At(Put(bars, b), t) == if t == b.ts then Some(b) else At(bars, t)
    {
      PutAt(bars, b, t);
    }
  }

  /**
   * On a list in bucket order a merge keeps the order, changes the incoming
   * bar's bucket and no other, and merging the same bar again changes nothing.
   */
  lemma MergeChangesOneBucket(bars: seq<Bar>, incoming: Bar, tf: Timeframe)
    requires tf != S1 && Increasing(bars)
    ensures var r := MergeLiveBar(bars, incoming, tf);
            && Increasing(r) && OnlyBucketChanged(r, bars, incoming, tf)
            && MergeLiveBar(r, incoming, tf) == r
  {
    var r := MergeLiveBar(bars, incoming, tf);
    MergeOnce(bars, incoming, tf);
    MergeOnce(r, incoming, tf);
    var again := MergeLiveBar(r, incoming, tf);
    MergedTwice(At(bars, Bucket(incoming.ts, tf)), incoming, tf);
    hide MergeLiveBar, Bucket, At, Merged;
    SameBuckets(again, r);
  }

  lemma MergedTwice(e: Option<Bar>, incoming: Bar, tf: Timeframe)
    ensures Merged(Some(Merged(e, incoming, tf)), incoming, tf) == Merged(e, incoming, tf)
  {
  }

  lemma MergeLast(bars: seq<Bar>, incoming: Bar, tf: Timeframe)
    requires tf != S1 && Increasing(bars) && bars != [] && bars[|bars| - 1].ts == Bucket(incoming.ts, tf)
    ensures var r := MergeLiveBar(bars, incoming, tf);
            Increasing(r) && OnlyBucketChanged(r, bars, incoming, tf)
  {
    var n := |bars| - 1;
    AtIndex(bars, n);
    var b := MergeInto(bars[n], incoming, tf);
    assert b.ts == bars[n].ts;
    forall t
      ensures At(bars[n := b], t) == if t == bars[n].ts then Some(b) else At(bars, t)
    {
      AtReplaceLast(bars, b, t);
    }
    hide Bucket, At, MergeInto, MapOf, Put;
  }

  lemma MergeLater(bars: seq<Bar>, incoming: Bar, tf: Timeframe)
    requires tf != S1 && Increasing(bars) && (bars != [] ==> bars[|bars| - 1].ts < Bucket(incoming.ts, tf))
    ensures var r := MergeLiveBar(bars, incoming, tf);
            Increasing(r) && OnlyBucketChanged(r, bars, incoming, tf)
  {
    var b := NextBar(incoming, tf);
    assert bars == [] ==> bars + [b] == [b];
    assert Increasing(bars + [b]);
    AtNothing(bars, b.ts);
    forall t
      ensures At(bars + [b], t) == if t == b.ts then Some(b) else At(bars, t)
    {
      AtAppend(bars, b, t);
    }
    hide Bucket, At, MergeInto, MapOf, Put;
  }

  lemma MergeOnce(bars: seq<Bar>, incoming: Bar, tf: Timeframe)
    requires tf != S1 && Increasing(bars)
    ensures var r := MergeLiveBar(bars, incoming, tf);
            Increasing(r) && OnlyBucketChanged(r, bars, incoming, tf)
  {
    var bucket, n := Bucket(incoming.ts, tf), |bars| - 1;
    if bars != [] && bars[n].ts > bucket {
      MergeEarlier(bars, incoming, tf);
    } else if bars != [] && bars[n].ts == bucket {
      MergeLast(bars, incoming, tf);
    } else {
      MergeLater(bars, incoming, tf);
    }
    hide *;
  }

  /** A bar of the chart's own timeframe, or of none, replaces its bucket, but for the open. */
  lemma OwnBarReplaces(bars: seq<Bar>, incoming: Bar, tf: Timeframe)
    requires tf != S1 && Increasing(bars) && (incoming.native == Some(tf) || incoming.native == None)
    ensures var t := Bucket(incoming.ts, tf);
            var before := At(bars, t);
            At(MergeLiveBar(bars, incoming, tf), t)
            == Some(Bar(Some(tf), t, if before.Some? then before.value.open else incoming.open,
                        incoming.high, incoming.low, incoming.close, incoming.volume, incoming.vwap))
  {
    MergeOnce(bars, incoming, tf);
    hide MergeLiveBar, Bucket, At, Increasing;
  }

  /** On a chart of seconds live bars are not merged. */
  lemma {:induction false} SecondsStay(bars: seq<Bar>, xs: seq<Bar>)
    ensures MergeAll(bars, xs, S1) == bars
  {
    if xs != [] {
      SecondsStay(bars, xs[..|xs| - 1]);
    }
  }

  // ---- Many merges ----------------------------------------------------------------------------------------

  function MergeAll(bars: seq<Bar>, xs: seq<Bar>, tf: Timeframe): seq<Bar> {
    if xs == [] then bars else MergeLiveBar(MergeAll(bars, xs[..|xs| - 1], tf), xs[|xs| - 1], tf)
  }

  /** The incoming bars of one bucket, in order of arrival. */
  function Arrivals(xs: seq<Bar>, t: int, tf: Timeframe): seq<Bar> {
    if xs == [] then []
    else
      var n := |xs| - 1;
      Arrivals(xs[..n], t, tf) + if Bucket(xs[n].ts, tf) == t then [xs[n]] else []
  }

  function Collapse(existing: Option<Bar>, xs: seq<Bar>, tf: Timeframe): Option<Bar> {
    if xs == [] then existing
    else Some(Merged(Collapse(existing, xs[..|xs| - 1], tf), xs[|xs| - 1], tf))
  }

  /** Whatever the order of arrival, each bucket collects its own arrivals. */
  lemma {:induction false} MergeAllByBucket(bars: seq<Bar>, xs: seq<Bar>, tf: Timeframe)
    requires tf != S1 && Increasing(bars)
    ensures Increasing(MergeAll(bars, xs, tf))
    ensures forall t :: At(MergeAll(bars, xs, tf), t) == Collapse(At(bars, t), Arrivals(xs, t, tf), tf)
  {
    if xs != [] {
      var n := |xs| - 1;
      MergeAllByBucket(bars, xs[..n], tf);
      MergeOnce(MergeAll(bars, xs[..n], tf), xs[n], tf);
      var r := MergeAll(bars, xs, tf);
      forall t
        ensures At(r, t) == Collapse(At(bars, t), Arrivals(xs, t, tf), tf)
      {
        OneMoreArrival(At(bars, t), xs, t, tf);
      }
      hide At, Bucket, Merged, Collapse, Arrivals;
    }
  }

  lemma OneMoreArrival(e: Option<Bar>, xs: seq<Bar>, t: int, tf: Timeframe)
    requires xs != []
    ensures var n := |xs| - 1;
            var before := Collapse(e, Arrivals(xs[..n], t, tf), tf);
            Collapse(e, Arrivals(xs, t, tf), tf) == if Bucket(xs[n].ts, tf) == t then Some(Merged(before, xs[n], tf)) else before
  {
    var n := |xs| - 1;
    var before := Arrivals(xs[..n], t, tf);
    var now := Arrivals(xs, t, tf);
    if Bucket(xs[n].ts, tf) == t {
      assert now == before + [xs[n]] && now[..|now| - 1] == before;
      hide Bucket, Merged, Arrivals;
      assert Collapse(e, now, tf) == Some(Merged(Collapse(e, before, tf), xs[n], tf));
    } else {
      assert now == before;
    }
  }

  predicate Finer(xs: seq<Bar>, tf: Timeframe) {
    forall i :: 0 <= i < |xs| ==> !SameTimeframe(xs[i], tf)
  }

  /** The vwap of the last row that has the field. */
  function LastVwap(xs: seq<Bar>): Vwap {
    if xs == [] then Absent
    else if xs[|xs| - 1].vwap.Absent? then LastVwap(xs[..|xs| - 1])
    else xs[|xs| - 1].vwap
  }

  /** b has the extremes of xs, the first open and the last close, volume and vwap. */
  ghost predicate Summary(b: Bar, xs: seq<Bar>) {
    && xs != []
    && (forall i :: 0 <= i < |xs| ==> xs[i].high <= b.high && b.low <= xs[i].low)
    && (exists i :: 0 <= i < |xs| && xs[i].high == b.high)
    && (exists i :: 0 <= i < |xs| && xs[i].low == b.low)
    && b.open == xs[0].open && b.close == xs[|xs| - 1].close && b.volume == xs[|xs| - 1].volume
    && b.vwap == LastVwap(xs)
  }

  /** What a bucket held before counts as its first arrival. */
  function Held(existing: Option<Bar>): seq<Bar> { if existing.Some? then [existing.value] else [] }

  lemma SummaryOfOne(b: Bar)
    ensures Summary(b, [b])
  {
    assert [b][0] == b && [b][..0] == [];
    assert LastVwap([]) == Absent;
  }

  lemma SummaryOfNext(b: Bar, tf: Timeframe)
    ensures Summary(NextBar(b, tf), [b])
  {
    SummaryOfOne(b);
    hide Bucket;
  }

  lemma MergedNative(e: Option<Bar>, x: Bar, tf: Timeframe)
    ensures Merged(e, x, tf).native == Some(tf)
  {
    hide Bucket;
  }

  lemma {:induction false} CollapseSummary(e: Option<Bar>, xs: seq<Bar>, tf: Timeframe)
    requires Finer(xs, tf) && Held(e) + xs != []
    ensures var b := Collapse(e, xs, tf); b.Some? && Summary(b.value, Held(e) + xs)
    ensures xs != [] ==> Collapse(e, xs, tf).value.native == Some(tf)
  {
    hide Summary, MergeInto, Bucket;
    if xs == [] {
      SummaryOfOne(e.value);
      assert Held(e) + xs == [e.value];
    } else {
      var n := |xs| - 1;
      MergedNative(Collapse(e, xs[..n], tf), xs[n], tf);
      var x := xs[n];
      assert Held(e) + xs == (Held(e) + xs[..n]) + [x];
      if Held(e) + xs[..n] == [] {
        assert Held(e) + xs == [x] && Collapse(e, xs[..n], tf) == None;
        SummaryOfNext(x, tf);
      } else {
        CollapseSummary(e, xs[..n], tf);
        SummaryGrows(Collapse(e, xs[..n], tf).value, Held(e) + xs[..n], x, tf);
      }
    }
  }

  lemma SummaryGrows(b: Bar, xs: seq<Bar>, x: Bar, tf: Timeframe)
    requires !SameTimeframe(x, tf) && Summary(b, xs)
    ensures Summary(MergeInto(b, x, tf), xs + [x])
  {
    var n, m, more := |xs|, MergeInto(b, x, tf), xs + [x];
    var i :| 0 <= i < n && xs[i].high == b.high;
    var j :| 0 <= j < n && xs[j].low == b.low;
    hide Bucket;
    assert more[..n] == xs && more[n] == x;
    assert more[i] == xs[i] && more[j] == xs[j];
    assert m.high == more[i].high || m.high == more[n].high;
    assert m.low == more[j].low || m.low == more[n].low;
  }

  /**
   * Merging finer bars, even out of order, gives every bucket they reach the
   * highest high, the lowest low, the open that came first and the close, volume
   * and vwap that came last, what it held before counting as its first bar;
   * buckets without arrivals stay as they are.
   */
  lemma FinerBarsAggregate(bars: seq<Bar>, xs: seq<Bar>, tf: Timeframe, t: int)
    requires tf != S1 && Increasing(bars) && Finer(xs, tf)
    ensures Increasing(MergeAll(bars, xs, tf))
    ensures Arrivals(xs, t, tf) == [] ==> At(MergeAll(bars, xs, tf), t) == At(bars, t)
    ensures Arrivals(xs, t, tf) != [] ==>
              var b := At(MergeAll(bars, xs, tf), t);
              b.Some? && b.value.native == Some(tf) && Summary(b.value, Held(At(bars, t)) + Arrivals(xs, t, tf))
  {
    MergeAllByBucket(bars, xs, tf);
    ArrivalsFiner(xs, t, tf);
    if Arrivals(xs, t, tf) != [] {
      CollapseSummary(At(bars, t), Arrivals(xs, t, tf), tf);
    }
    hide Summary, MergeAll, At, Arrivals;
  }

  lemma {:induction false} ArrivalsFiner(xs: seq<Bar>, t: int, tf: Timeframe)
    requires Finer(xs, tf)
    ensures Finer(Arrivals(xs, t, tf), tf)
  {
    if xs != [] {
      hide Bucket;
      ArrivalsFiner(xs[..|xs| - 1], t, tf);
    }
  }

  // ---- mergeHistoryWithLiveTail ------------------------------------------------------------------------

  /** prevBars.filter((b) => b.timestamp > after) */
  function Tail(prev: seq<Bar>, after: int): seq<Bar> {
    if prev == [] then []
    else
      var n := |prev| - 1;
      Tail(prev[..n], after) + if prev[n].ts > after then [prev[n]] else []
  }

  function WithLatest(barData: seq<Bar>, latest: Option<Bar>, tf: Timeframe): seq<Bar> {
    if latest.Some? then MergeLiveBar(barData, latest.value, tf) else barData
  }

  method MergeHistoryWithLiveTail(barData: seq<Bar>, latest: Option<Bar>, prev: seq<Bar>, tf: Timeframe)
    returns (merged: seq<Bar>)
    ensures merged == if barData == [] then WithLatest(barData, latest, tf)
                      else MergeAll(WithLatest(barData, latest, tf), Tail(prev, barData[|barData| - 1].ts), tf)
  {
    hide MergeLiveBar;
    merged := if latest.Some? then MergeLiveBar(barData, latest.value, tf) else barData;
    if |prev| == 0 || |barData| == 0 {
      return;
    }
    var lastHistTs := barData[|barData| - 1].ts;
    var liveTail := [];
    for i := 0 to |prev|
      invariant liveTail == Tail(prev[..i], lastHistTs)
    {
      assert prev[..i + 1][..i] == prev[..i];
      if prev[i].ts > lastHistTs {
        liveTail := liveTail + [prev[i]];
      }
    }
    assert prev[..|prev|] == prev;
    ghost var base := merged;
    for i := 0 to |liveTail|
      invariant merged == MergeAll(base, liveTail[..i], tf)
    {
      assert liveTail[..i + 1][..i] == liveTail[..i];
      merged := MergeLiveBar(merged, liveTail[i], tf);
    }
    assert liveTail[..|liveTail|] == liveTail;
  }

  /** Rows the chart already shows for this timeframe. */
  ghost predicate Canonical(prev: seq<Bar>, tf: Timeframe) {
    forall i :: 0 <= i < |prev| ==> prev[i].native == Some(tf) && Bucket(prev[i].ts, tf) == prev[i].ts
  }

  lemma CanonicalPrefix(prev: seq<Bar>, tf: Timeframe)
    requires prev != [] && Canonical(prev, tf)
    ensures var b := prev[|prev| - 1];
            Canonical(prev[..|prev| - 1], tf) && Bucket(b.ts, tf) == b.ts
  {
    hide Bucket;
  }

  lemma LastShown(prev: seq<Bar>, t: int, tf: Timeframe)
    requires prev != [] && Increasing(prev)
    ensures var init, b := prev[..|prev| - 1], prev[|prev| - 1];
            && Increasing(init) && At(init, b.ts) == None
            && At(prev, t) == if t == b.ts then Some(b) else At(init, t)
  {
    var init, b := prev[..|prev| - 1], prev[|prev| - 1];
    AtNothing(init, b.ts);
    hide At;
    assert Increasing(init);
    hide Increasing;
    assert prev == init + [b];
    AtAppend(init, b, t);
  }

  lemma TailStep(prev: seq<Bar>, after: int)
    requires prev != []
    ensures var init, b := prev[..|prev| - 1], prev[|prev| - 1];
            Tail(prev, after) == if b.ts > after then Tail(init, after) + [b] else Tail(init, after)
  {
  }

  lemma {:induction false} TailArrivals(prev: seq<Bar>, after: int, t: int, tf: Timeframe)
    requires Increasing(prev) && Canonical(prev, tf)
    ensures Arrivals(Tail(prev, after), t, tf)
            == if after < t && At(prev, t).Some? then [At(prev, t).value] else []
  {
    if prev == [] {
    } else {
      hide *;
      var init, b := prev[..|prev| - 1], prev[|prev| - 1];
      LastShown(prev, t, tf);
      CanonicalPrefix(prev, tf);
      TailArrivals(init, after, t, tf);
      TailStep(prev, after);
      ArrivalsAppend(Tail(init, after), b, t, tf);
    }
  }

  lemma ArrivalsAppend(xs: seq<Bar>, b: Bar, t: int, tf: Timeframe)
    ensures Arrivals(xs + [b], t, tf) == Arrivals(xs, t, tf) + if Bucket(b.ts, tf) == t then [b] else []
  {
    assert (xs + [b])[..|xs|] == xs;
  }

  /**
   * What a poll leaves in each bucket: up to the last history row, history with
   * the latest live bar merged in; after it, the row shown before, wherever
   * there was one, keeping only the open of the polled row.
   */
  lemma PollKeepsTheTail(barData: seq<Bar>, latest: Option<Bar>, prev: seq<Bar>, tf: Timeframe)
    requires tf != S1 && barData != [] && Increasing(barData) && Increasing(prev) && Canonical(prev, tf)
    ensures var base, after := WithLatest(barData, latest, tf), barData[|barData| - 1].ts;
            var r := MergeAll(base, Tail(prev, after), tf);
            && Increasing(r)
            && forall t :: At(r, t) ==
                 (var shown, polled := At(prev, t), At(base, t);
                  if t <= after || shown.None? then polled
                  else if polled.None? then shown
                  else Some(shown.value.(open := polled.value.open)))
  {
    var base, after := WithLatest(barData, latest, tf), barData[|barData| - 1].ts;
    if latest.Some? {
      MergeOnce(barData, latest.value, tf);
    }
    var tail := Tail(prev, after);
    MergeAllByBucket(base, tail, tf);
    forall t
      ensures At(MergeAll(base, tail, tf), t) ==
                (var shown, polled := At(prev, t), At(base, t);
                 if t <= after || shown.None? then polled
                 else if polled.None? then shown
                 else Some(shown.value.(open := polled.value.open)))
    {
      TailArrivals(prev, after, t, tf);
      if after < t && At(prev, t).Some? {
        MemberCanonical(prev, At(prev, t).value, tf);
        CollapseOne(At(base, t), At(prev, t).value, tf);
      }
      hide At, MergeAll, Tail, Arrivals, Bucket, Canonical;
    }
    hide *;
  }

  lemma MemberCanonical(prev: seq<Bar>, b: Bar, tf: Timeframe)
    requires Canonical(prev, tf) && b in prev
    ensures b.native == Some(tf) && Bucket(b.ts, tf) == b.ts
  {
  }

  lemma CollapseOne(e: Option<Bar>, b: Bar, tf: Timeframe)
    requires b.native == Some(tf) && Bucket(b.ts, tf) == b.ts
    ensures Collapse(e, [b], tf) == Some(if e.Some? then b.(open := e.value.open) else b)
  {
    assert [b][..0] == [];
    assert Collapse(e, [], tf) == e;
  }

  /**
   * So a newer live bar of a bucket already shown is lost by a poll, but for its
   * open: its high, low and close are on the chart afterwards if and only if the
   * row shown before had them, too.
   */
  lemma ShownRowWins(barData: seq<Bar>, latest: Bar, prev: seq<Bar>, shown: Bar, tf: Timeframe)
    requires tf != S1 && barData != [] && Increasing(barData) && Increasing(prev) && Canonical(prev, tf)
    requires shown in prev && shown.ts == Bucket(latest.ts, tf) > barData[|barData| - 1].ts
    ensures var base, after := WithLatest(barData, Some(latest), tf), barData[|barData| - 1].ts;
            var now := At(MergeAll(base, Tail(prev, after), tf), shown.ts);
            && now == Some(shown.(open := latest.open))
            && ((now.value.high, now.value.low, now.value.close) == (latest.high, latest.low, latest.close)
                <==> (shown.high, shown.low, shown.close) == (latest.high, latest.low, latest.close))
  {
    PollKeepsTheTail(barData, Some(latest), prev, tf);
    MergeOnce(barData, latest, tf);
    var i :| 0 <= i < |prev| && prev[i] == shown;
    AtIndex(prev, i);
    AtNothing(barData, shown.ts);
    hide MergeAll, Tail, At, MergeLiveBar, Canonical, Increasing;
  }
}

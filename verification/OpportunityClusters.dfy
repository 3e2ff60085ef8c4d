/**
 * cluster_opportunities of scripts/analyze_setup_overlap.py: setups whose
 * closed windows [detected, resolved] overlap belong to one opportunity.
 */
module OpportunityClusters {
  import opened Wrappers
  import opened Sorting

  datatype Row = Row(setup: int, detected: int, resolved: int)

  function Max(x: int, y: int): int { if x < y then y else x }

  /** The result of sort_values("detected_at"); ties come in any order. */
  ghost predicate ByDetected(df: seq<Row>) {
    forall i, j :: 0 <= i < j < |df| ==> df[i].detected <= df[j].detected
  }

  ghost predicate WellFormed(df: seq<Row>) {
    forall i :: 0 <= i < |df| ==> df[i].detected <= df[i].resolved
  }

  /** The loop's variables after some rows. */
  datatype Progress = Progress(ids: seq<int>, counter: int, end: Option<int>)

  function Cluster(df: seq<Row>): (p: Progress)
    ensures |p.ids| == |df|
  {
    if df == [] then Progress([], 0, None)
    else
      var p, row := Cluster(df[..|df| - 1]), df[|df| - 1];
      if p.end.None? || row.detected > p.end.value
      then Progress(p.ids + [p.counter + 1], p.counter + 1, Some(row.resolved))
      else Progress(p.ids + [p.counter], p.counter, Some(Max(p.end.value, row.resolved)))
  }

  function DetectedKey(r: Row): int { r.detected }

  lemma SortByDetected(rows: seq<Row>)
    ensures var df := Sort(rows, DetectedKey); multiset(df) == multiset(rows) && ByDetected(df)
  {
    var df := Sort(rows, DetectedKey);
    SortIsSorted(rows, DetectedKey);
    assert forall i, j :: 0 <= i < j < |df| ==> DetectedKey(df[i]) <= DetectedKey(df[j]);
  }

  lemma ClusterOfNothing()
    ensures Cluster([]) == Progress([], 0, None)
  {
  }

  lemma ClusterOfPrefix(df: seq<Row>, k: int)
    requires 0 <= k < |df|
    ensures var p, row := Cluster(df[..k]), df[k];
            Cluster(df[..k + 1])
            == if p.end.None? || row.detected > p.end.value
               then Progress(p.ids + [p.counter + 1], p.counter + 1, Some(row.resolved))
               else Progress(p.ids + [p.counter], p.counter, Some(Max(p.end.value, row.resolved)))
  {
    assert df[..k + 1][..k] == df[..k];
  }

  /** The sorted rows and the numbers of their "opp-…" labels. */
  method ClusterOpportunities(lifecycles: seq<Row>) returns (df: seq<Row>, ids: seq<int>)
    ensures multiset(df) == multiset(lifecycles) && ByDetected(df)
    ensures |ids| == |df| && ids == Cluster(df).ids
    ensures WellFormed(df) ==>
              forall i, j :: 0 <= i < |df| && 0 <= j < |df| ==> (ids[i] == ids[j] <==> Joined(df, df[i], df[j]))
  {
    hide Cluster, Joined, WellFormed;
    df := Sort(lifecycles, DetectedKey);
    SortByDetected(lifecycles);
    hide ByDetected;
    ClusterOfNothing();
    ids := [];
    var counter := 0;
    var currentEnd := None;
    for k := 0 to |df|
      invariant Cluster(df[..k]) == Progress(ids, counter, currentEnd)
    {
      ClusterOfPrefix(df, k);
      if currentEnd.None? || df[k].detected > currentEnd.value {
        counter := counter + 1;
        currentEnd := Some(df[k].resolved);
      } else {
        currentEnd := Some(Max(currentEnd.value, df[k].resolved));
      }
      ids := ids + [counter];
    }
    assert df[..|df|] == df;
    if WellFormed(df) {
      SameIdIffJoined(df);
    }
  }

  // ---- Chains of overlapping windows ------------------------------------------------------

  predicate Overlap(a: Row, b: Row) {
    a.detected <= b.resolved && b.detected <= a.resolved
  }

  ghost predicate Chain(df: seq<Row>, c: seq<Row>) {
    && c != [] && (forall x :: x in c ==> x in df)
    && forall k :: 0 <= k < |c| - 1 ==> Overlap(c[k], c[k + 1])
  }

  /** A chain of rows, each overlapping the next, leads from a to b. */
  ghost predicate Joined(df: seq<Row>, a: Row, b: Row) {
    exists c :: Chain(df, c) && c[0] == a && c[|c| - 1] == b
  }

  lemma JoinedSelf(df: seq<Row>, a: Row)
    requires a in df
    ensures Joined(df, a, a)
  {
    assert Chain(df, [a]);
  }

  lemma JoinStep(df: seq<Row>, a: Row, b: Row, x: Row)
    requires Joined(df, a, b) && Overlap(b, x) && x in df
    ensures Joined(df, a, x)
  {
    var c :| Chain(df, c) && c[0] == a && c[|c| - 1] == b;
    var d := c + [x];
    assert forall k :: 0 <= k < |c| ==> d[k] == c[k];
    assert Chain(df, d);
  }

  lemma JoinSymmetric(df: seq<Row>, a: Row, b: Row)
    requires Joined(df, a, b)
    ensures Joined(df, b, a)
  {
    var c :| Chain(df, c) && c[0] == a && c[|c| - 1] == b;
    var n := |c|;
    var d := seq(n, k requires 0 <= k < n => c[n - 1 - k]);
    forall x | x in d
      ensures x in df
    {
      var k :| 0 <= k < n && d[k] == x;
      assert c[n - 1 - k] in c;
    }
    forall k | 0 <= k < n - 1
      ensures Overlap(d[k], d[k + 1])
    {
      assert Overlap(c[n - 2 - k], c[n - 2 - k + 1]);
    }
    assert Chain(df, d);
  }

  lemma JoinTransitive(df: seq<Row>, a: Row, b: Row, x: Row)
    requires Joined(df, a, b) && Joined(df, b, x)
    ensures Joined(df, a, x)
  {
    var c :| Chain(df, c) && c[0] == a && c[|c| - 1] == b;
    var d :| Chain(df, d) && d[0] == b && d[|d| - 1] == x;
    var e := c + d[1..];
    assert forall k :: |c| - 1 <= k < |e| ==> e[k] == d[k - (|c| - 1)];
    forall y | y in e
      ensures y in df
    {
      assert y in c || y in d;
    }
    forall k | 0 <= k < |e| - 1
      ensures Overlap(e[k], e[k + 1])
    {
      if k < |c| - 1 {
        assert e[k] == c[k] && e[k + 1] == c[k + 1];
      } else {
        assert Overlap(d[k - (|c| - 1)], d[k - (|c| - 1) + 1]);
      }
    }
    assert Chain(df, e);
  }

  // ---- The loop's variables ----------------------------------------------------------------

  /** A row starts an opportunity when all earlier ones have been resolved. */
  ghost predicate Starts(df: seq<Row>, k: int)
    requires 0 <= k < |df|
  {
    forall i :: 0 <= i < k ==> df[i].resolved < df[k].detected
  }

  /** The end is the latest resolution so far. */
  lemma {:induction false} EndIsLatest(df: seq<Row>)
    requires WellFormed(df) && ByDetected(df)
    ensures var p := Cluster(df);
            && (p.end.None? <==> df == [])
            && (forall i :: 0 <= i < |df| ==> df[i].resolved <= p.end.value)
            && (df != [] ==> exists i :: 0 <= i < |df| && df[i].resolved == p.end.value)
  {
    if df != [] {
      var n := |df| - 1;
      EndIsLatest(df[..n]);
      var p := Cluster(df[..n]);
      if n > 0 {
        var i :| 0 <= i < n && df[..n][i].resolved == p.end.value;
        assert df[i].resolved == p.end.value;
      }
      assert forall i :: 0 <= i < n ==> df[i] == df[..n][i];
      assert df[n].resolved <= Cluster(df).end.value;
    }
  }

  lemma {:induction false} PrefixIds(df: seq<Row>, k: nat)
    requires k <= |df|
    ensures Cluster(df[..k]).ids == Cluster(df).ids[..k]
  {
    if k == |df| {
      assert df[..k] == df;
    } else {
      var n := |df| - 1;
      PrefixIds(df[..n], k);
      assert df[..n][..k] == df[..k];
      assert Cluster(df).ids[..n] == Cluster(df[..n]).ids;
    }
  }

  lemma CounterIsLast(df: seq<Row>)
    ensures var p := Cluster(df);
            p.counter == if df == [] then 0 else p.ids[|df| - 1]
  {
  }

  lemma StartsIffLate(df: seq<Row>, k: int)
    requires WellFormed(df) && ByDetected(df) && 0 <= k < |df|
    ensures var end := Cluster(df[..k]).end;
            Starts(df, k) <==> end.None? || df[k].detected > end.value
  {
    var before := df[..k];
    EndIsLatest(before);
    hide Cluster;
    assert forall i :: 0 <= i < k ==> df[i] == before[i];
    if k > 0 {
      var i :| 0 <= i < k && before[i].resolved == Cluster(before).end.value;
      assert df[i].resolved == Cluster(before).end.value;
    }
  }

  /** Ids count up by one at each start and nowhere else. */
  lemma NextId(df: seq<Row>, k: int)
    requires WellFormed(df) && ByDetected(df) && 0 <= k < |df|
    ensures Cluster(df).ids[k] == (if k == 0 then 0 else Cluster(df).ids[k - 1]) + (if Starts(df, k) then 1 else 0)
  {
    PrefixIds(df, k);
    PrefixIds(df, k + 1);
    CounterIsLast(df[..k]);
    StartsIffLate(df, k);
    ClusterOfPrefix(df, k);
    var all, upTo, more := Cluster(df).ids, Cluster(df[..k]).ids, Cluster(df[..k + 1]).ids;
    hide Cluster, Starts;
    assert all[k] == all[..k + 1][k] == more[k];
    assert k > 0 ==> all[k - 1] == all[..k][k - 1] == upTo[k - 1];
  }

  lemma {:induction false} IdsRise(df: seq<Row>, i: int, j: int)
    requires WellFormed(df) && ByDetected(df) && 0 <= i <= j < |df|
    ensures Cluster(df).ids[i] <= Cluster(df).ids[j]
    ensures Cluster(df).ids[i] < Cluster(df).ids[j] ==> exists k :: i < k <= j && Starts(df, k)
    decreases j - i
  {
    if i < j {
      IdsRise(df, i, j - 1);
      NextId(df, j);
      if Cluster(df).ids[i] < Cluster(df).ids[j - 1] {
        var k :| i < k <= j - 1 && Starts(df, k);
      }
    }
  }

  lemma StartSeparates(df: seq<Row>, i: int, k: int, j: int)
    requires WellFormed(df) && ByDetected(df) && 0 <= i < k <= j < |df| && Starts(df, k)
    ensures Cluster(df).ids[i] < Cluster(df).ids[j]
    ensures df[i].resolved < df[j].detected
  {
    NextId(df, k);
    IdsRise(df, i, k - 1);
    IdsRise(df, k, j);
    hide Cluster;
    assert df[k].detected <= df[j].detected;
  }

  ghost predicate StartBetween(df: seq<Row>, i: int, j: int)
    requires 0 <= i < |df| && 0 <= j < |df|
  {
    exists k :: i < k <= j && Starts(df, k)
  }

  /** Opportunities are disjoint in time and numbered in order. */
  lemma ClustersAreApart(df: seq<Row>, i: int, j: int)
    requires WellFormed(df) && ByDetected(df) && 0 <= i < |df| && 0 <= j < |df|
    ensures Cluster(df).ids[i] < Cluster(df).ids[j] <==> StartBetween(df, i, j)
    ensures Cluster(df).ids[i] < Cluster(df).ids[j] ==> df[i].resolved < df[j].detected
  {
    if StartBetween(df, i, j) {
      var k :| i < k <= j && Starts(df, k);
      StartSeparates(df, i, k, j);
    } else if j <= i {
      IdsRise(df, j, i);
    } else {
      IdsRise(df, i, j);
    }
  }

  lemma OverlapSameId(df: seq<Row>, i: int, j: int)
    requires WellFormed(df) && ByDetected(df) && 0 <= i < |df| && 0 <= j < |df| && Overlap(df[i], df[j])
    ensures Cluster(df).ids[i] == Cluster(df).ids[j]
  {
    ClustersAreApart(df, i, j);
    ClustersAreApart(df, j, i);
  }

  lemma {:induction false} ChainSameId(df: seq<Row>, c: seq<Row>, i: int, j: int)
    requires WellFormed(df) && ByDetected(df) && 0 <= i < |df| && 0 <= j < |df|
    requires Chain(df, c) && c[0] == df[i] && c[|c| - 1] == df[j]
    ensures Cluster(df).ids[i] == Cluster(df).ids[j]
    decreases |c|
  {
    var n := |c| - 1;
    if n == 0 {
      assert Overlap(df[i], df[j]);
      OverlapSameId(df, i, j);
    } else {
      assert c[n - 1] in c;
      var k :| 0 <= k < |df| && df[k] == c[n - 1];
      assert Overlap(c[n - 1], c[n - 1 + 1]);
      OverlapSameId(df, k, j);
      assert Chain(df, c[..n]);
      ChainSameId(df, c[..n], i, k);
    }
  }

  /** Within an opportunity every row is joined to the first. */
  lemma {:induction false} JoinedToFirst(df: seq<Row>, f: int, j: int)
    requires WellFormed(df) && ByDetected(df) && 0 <= f <= j < |df|
    requires Cluster(df).ids[f] == Cluster(df).ids[j]
    requires f == 0 || Starts(df, f)
    ensures Joined(df, df[f], df[j])
    decreases j
  {
    if j == f {
      JoinedSelf(df, df[f]);
    } else {
      IdsRise(df, f, j - 1);
      IdsRise(df, j - 1, j);
      NextId(df, j);
      var w :| 0 <= w < j && df[w].resolved >= df[j].detected;
      assert Overlap(df[w], df[j]);
      OverlapSameId(df, w, j);
      ClustersAreApart(df, w, f);
      JoinedToFirst(df, f, w);
      JoinStep(df, df[f], df[w], df[j]);
    }
  }

  lemma {:induction false} FirstOf(df: seq<Row>, i: int) returns (f: int)
    requires WellFormed(df) && ByDetected(df) && 0 <= i < |df|
    ensures 0 <= f <= i && Starts(df, f) && Cluster(df).ids[f] == Cluster(df).ids[i]
  {
    if Starts(df, i) {
      f := i;
    } else {
      NextId(df, i);
      f := FirstOf(df, i - 1);
    }
  }

  lemma FirstIsUnique(df: seq<Row>, f: int, g: int)
    requires WellFormed(df) && ByDetected(df) && 0 <= f < |df| && 0 <= g < |df| && Starts(df, f) && Starts(df, g)
    requires Cluster(df).ids[f] == Cluster(df).ids[g]
    ensures f == g
  {
    ClustersAreApart(df, f, g);
    ClustersAreApart(df, g, f);
  }

  /**
   * Two setups get the same id if and only if a chain of pairwise overlapping
   * windows joins them.
   */
  lemma SameIdIffJoined(df: seq<Row>)
    requires WellFormed(df) && ByDetected(df)
    ensures var ids := Cluster(df).ids;
            forall i, j :: 0 <= i < |df| && 0 <= j < |df| ==> (ids[i] == ids[j] <==> Joined(df, df[i], df[j]))
  {
    var ids := Cluster(df).ids;
    forall i, j | 0 <= i < |df| && 0 <= j < |df|
      ensures ids[i] == ids[j] <==> Joined(df, df[i], df[j])
    {
      if ids[i] == ids[j] {
        var f := FirstOf(df, i);
        var g := FirstOf(df, j);
        FirstIsUnique(df, f, g);
        JoinedToFirst(df, f, i);
        JoinedToFirst(df, f, j);
        JoinSymmetric(df, df[f], df[i]);
        JoinTransitive(df, df[i], df[f], df[j]);
      } else if Joined(df, df[i], df[j]) {
        var c :| Chain(df, c) && c[0] == df[i] && c[|c| - 1] == df[j];
        ChainSameId(df, c, i, j);
      }
    }
  }

  // ---- Ids without an order -------------------------------------------------------------------

  /** The detection times up to d by which every setup detected before has been resolved. */
  ghost function StartTimes(rows: set<Row>, d: int): set<int> {
    set r | r in rows && r.detected <= d && (forall q :: q in rows && q.detected < r.detected ==> q.resolved < r.detected)
      :: r.detected
  }

  ghost function Elements(df: seq<Row>): set<Row> { set r | r in df }

  /** A row at the end that is no earlier than the others adds a time only when it starts. */
  lemma StartTimesGrow(df: seq<Row>, k: int)
    requires WellFormed(df) && ByDetected(df) && 0 <= k < |df|
    ensures var rows := Elements(df);
            StartTimes(rows, df[k].detected)
            == (if k == 0 then {} else StartTimes(rows, df[k - 1].detected)) + (if Starts(df, k) then {df[k].detected} else {})
  {
    var rows := Elements(df);
    var d := df[k].detected;
    var lhs := StartTimes(rows, d);
    var rhs := (if k == 0 then {} else StartTimes(rows, df[k - 1].detected)) + (if Starts(df, k) then {d} else {});
    forall t
      ensures t in lhs <==> t in rhs
    {
      if t in lhs {
        TimeAtRow(df, d, t, k);
      }
      if Starts(df, k) {
        StartIsTime(df, k);
      }
      if k > 0 && t in StartTimes(rows, df[k - 1].detected) {
        assert df[k - 1].detected <= d;
      }
    }
  }

  lemma StartIsTime(df: seq<Row>, k: int)
    requires ByDetected(df) && 0 <= k < |df| && Starts(df, k)
    ensures df[k].detected in StartTimes(Elements(df), df[k].detected)
  {
    forall q | q in Elements(df) && q.detected < df[k].detected
      ensures q.resolved < df[k].detected
    {
      var i :| 0 <= i < |df| && df[i] == q;
      assert i < k;
    }
    assert df[k] in Elements(df);
  }

  lemma RowOfTime(df: seq<Row>, d: int, t: int) returns (i: int)
    requires t in StartTimes(Elements(df), d)
    ensures 0 <= i < |df| && df[i].detected == t <= d
    ensures forall j :: 0 <= j < |df| && df[j].detected < t ==> df[j].resolved < t
  {
    var rows := Elements(df);
    var r :| r in rows && r.detected == t && r.detected <= d
             && (forall q :: q in rows && q.detected < r.detected ==> q.resolved < r.detected);
    i :| 0 <= i < |df| && df[i] == r;
    forall j | 0 <= j < |df| && df[j].detected < t
      ensures df[j].resolved < t
    {
      assert df[j] in rows;
    }
  }

  lemma RowIsTime(df: seq<Row>, d: int, i: int)
    requires 0 <= i < |df| && df[i].detected <= d
    requires forall j :: 0 <= j < |df| && df[j].detected < df[i].detected ==> df[j].resolved < df[i].detected
    ensures df[i].detected in StartTimes(Elements(df), d)
  {
    assert df[i] in Elements(df);
    forall q | q in Elements(df) && q.detected < df[i].detected
      ensures q.resolved < df[i].detected
    {
      var j :| 0 <= j < |df| && df[j] == q;
    }
  }

  lemma TimeAtRow(df: seq<Row>, d: int, t: int, k: int)
    requires WellFormed(df) && ByDetected(df) && 0 <= k < |df| && d == df[k].detected && t in StartTimes(Elements(df), d)
    ensures (k > 0 && t in StartTimes(Elements(df), df[k - 1].detected)) || (t == d && Starts(df, k))
  {
    var i := RowOfTime(df, d, t);
    hide StartTimes, Elements;
    if k > 0 && t <= df[k - 1].detected {
      RowIsTime(df, df[k - 1].detected, i);
    } else {
      assert k <= i;
      assert df[k].detected <= df[i].detected;
      forall j | 0 <= j < k
        ensures df[j].resolved < d
      {
        assert df[j].detected <= df[k - 1].detected;
      }
    }
  }

  /** The id in closed form. */
  lemma {:induction false} IdCountsStartTimes(df: seq<Row>, k: int)
    requires WellFormed(df) && ByDetected(df) && 0 <= k < |df|
    ensures Cluster(df).ids[k] == |StartTimes(Elements(df), df[k].detected)|
    decreases k
  {
    hide *;
    var rows, d := Elements(df), df[k].detected;
    NextId(df, k);
    StartTimesGrow(df, k);
    if k == 0 {
      GrowByOne({}, StartTimes(rows, d), d, Starts(df, k));
    } else {
      IdCountsStartTimes(df, k - 1);
      if Starts(df, k) {
        NotYetATime(df, k);
      }
      GrowByOne(StartTimes(rows, df[k - 1].detected), StartTimes(rows, d), d, Starts(df, k));
    }
  }

  lemma GrowByOne(before: set<int>, now: set<int>, x: int, c: bool)
    requires now == before + (if c then {x} else {}) && (c ==> x !in before)
    ensures |now| == |before| + if c then 1 else 0
  {
    if !c {
      assert now == before;
    }
  }

  lemma NotYetATime(df: seq<Row>, k: int)
    requires WellFormed(df) && ByDetected(df) && 0 < k < |df| && Starts(df, k)
    ensures df[k].detected !in StartTimes(Elements(df), df[k - 1].detected)
  {
    assert df[k - 1].detected <= df[k - 1].resolved < df[k].detected;
  }

  /** Neither the order of the input nor the order of ties matters. */
  lemma OrderDoesNotMatter(df: seq<Row>, eg: seq<Row>, i: int, j: int)
    requires WellFormed(df) && ByDetected(df) && ByDetected(eg) && multiset(df) == multiset(eg)
    requires 0 <= i < |df| && 0 <= j < |eg| && df[i] == eg[j]
    ensures Cluster(df).ids[i] == Cluster(eg).ids[j]
  {
    forall r
      ensures r in df <==> r in eg
    {
      assert r in multiset(df) <==> r in multiset(eg);
    }
    forall k | 0 <= k < |eg|
      ensures eg[k].detected <= eg[k].resolved
    {
      assert eg[k] in df;
    }
    assert Elements(df) == Elements(eg);
    IdCountsStartTimes(df, i);
    IdCountsStartTimes(eg, j);
  }
}

/**
 * The greedy value-area expansion of VolumeProfileBuilder._value_area.
 * `v` lists the volumes of the occupied bins by rising price and `p` is the
 * index of the point of control.
 */
module ValueArea {

  ghost predicate NonNegative(v: seq<int>) {
    forall i :: 0 <= i < |v| ==> 0 <= v[i]
  }

  /** v[lo] + ... + v[hi - 1] */
  function Sum(v: seq<int>, lo: int, hi: int): int
    requires 0 <= lo <= hi <= |v|
    decreases hi - lo
  {
    if lo == hi then 0 else Sum(v, lo, hi - 1) + v[hi - 1]
  }

  lemma {:induction false} SumSplit(v: seq<int>, a: int, b: int, c: int)
    requires 0 <= a <= b <= c <= |v|
    ensures Sum(v, a, c) == Sum(v, a, b) + Sum(v, b, c)
    decreases c - b
  {
    if b < c {
      SumSplit(v, a, b, c - 1);
    }
  }

  lemma {:induction false} SumNonNegative(v: seq<int>, a: int, b: int)
    requires 0 <= a <= b <= |v| && NonNegative(v)
    ensures 0 <= Sum(v, a, b)
    decreases b - a
  {
    if a < b {
      SumNonNegative(v, a, b - 1);
    }
  }

  /** Adding the bin below. */
  lemma SumBelow(v: seq<int>, lo: int, hi: int)
    requires 0 < lo <= hi <= |v|
    ensures Sum(v, lo - 1, hi) == v[lo - 1] + Sum(v, lo, hi)
  {
    SumSplit(v, lo - 1, lo, hi);
    assert Sum(v, lo - 1, lo) == v[lo - 1];
  }

  function Above(v: seq<int>, hi: int): int
    requires 0 <= hi < |v|
  {
    if hi + 1 < |v| then v[hi + 1] else 0
  }

  function Below(v: seq<int>, lo: int): int
    requires 0 <= lo < |v|
  {
    if 0 < lo then v[lo - 1] else 0
  }

  /** The interval the loop ends with when it starts from [lo, hi]. */
  function Expand(v: seq<int>, lo: int, hi: int, target: int): (r: (int, int))
    requires 0 <= lo <= hi < |v| && NonNegative(v)
    ensures 0 <= r.0 <= lo && hi <= r.1 < |v|
    decreases |v| - (hi - lo)
  {
    var above, below := Above(v, hi), Below(v, lo);
    if target <= Sum(v, lo, hi + 1) || (above == 0 && below == 0) then (lo, hi)
    else if below <= above then Expand(v, lo, hi + 1, target)
    else Expand(v, lo - 1, hi, target)
  }

  /** The loop, with its running volume. */
  method ExpandFrom(v: seq<int>, p: int, target: int) returns (lo: int, hi: int, volume: int)
    requires 0 <= p < |v| && NonNegative(v)
    ensures (lo, hi) == Expand(v, p, p, target)
    ensures 0 <= lo <= p <= hi < |v|
    ensures volume == Sum(v, lo, hi + 1)
  {
    lo, hi, volume := p, p, v[p];
    assert Sum(v, p, p + 1) == v[p];
    while volume < target
      invariant 0 <= lo <= p <= hi < |v|
      invariant volume == Sum(v, lo, hi + 1)
      invariant Expand(v, p, p, target) == Expand(v, lo, hi, target)
      decreases |v| - (hi - lo)
    {
      var volAbove := if hi + 1 < |v| then v[hi + 1] else 0;
      var volBelow := if 0 <= lo - 1 then v[lo - 1] else 0;
      if volAbove == 0 && volBelow == 0 {
        break;
      }
      if volAbove >= volBelow {
        hi := hi + 1;
        volume := volume + volAbove;
      } else {
        SumBelow(v, lo, hi + 1);
        lo := lo - 1;
        volume := volume + volBelow;
      }
    }
  }

  // ---- When the target is reached ---------------------------------------------------

  /** [a, b] is the contiguous run of traded bins around p. */
  ghost predicate TradedRun(v: seq<int>, p: int, a: int, b: int) {
    && 0 <= a <= p <= b < |v|
    && (forall i :: a <= i <= b ==> 0 < v[i])
    && Above(v, b) == 0 && Below(v, a) == 0
  }

  /** The expansion never leaves the run, and gives up only when it has all of it. */
  lemma {:induction false} StaysInRun(v: seq<int>, p: int, lo: int, hi: int, target: int, a: int, b: int)
    requires NonNegative(v) && TradedRun(v, p, a, b) && a <= lo <= hi <= b
    ensures var (l, h) := Expand(v, lo, hi, target);
            a <= l && h <= b && (target <= Sum(v, l, h + 1) || (l == a && h == b))
    decreases |v| - (hi - lo)
  {
    var above, below := Above(v, hi), Below(v, lo);
    if Sum(v, lo, hi + 1) < target && (above != 0 || below != 0) {
      if below <= above {
        StaysInRun(v, p, lo, hi + 1, target, a, b);
      } else {
        StaysInRun(v, p, lo - 1, hi, target, a, b);
      }
    }
  }

  /** The value area holds its share of the volume exactly when the unbroken run
      of traded bins around the POC does: an empty bin stops the expansion. */
  lemma ReachesTarget(v: seq<int>, p: int, target: int, a: int, b: int)
    requires NonNegative(v) && TradedRun(v, p, a, b)
    ensures var (lo, hi) := Expand(v, p, p, target);
            target <= Sum(v, lo, hi + 1) <==> target <= Sum(v, a, b + 1)
  {
    StaysInRun(v, p, p, p, target, a, b);
    var (lo, hi) := Expand(v, p, p, target);
    SumSplit(v, a, lo, b + 1);
    SumSplit(v, lo, hi + 1, b + 1);
    SumNonNegative(v, a, lo);
    SumNonNegative(v, hi + 1, b + 1);
  }

  /** A gap at bin 1 leaves the area at 3 of 6 contracts, whatever is asked for. */
  lemma GapStopsExpansion(target: int)
    ensures var v := [3, 0, 3]; Expand(v, 0, 0, target) == (0, 0) && Sum(v, 0, 1) == 3 && Sum(v, 0, 3) == 6
  {
    var v := [3, 0, 3];
    assert Sum(v, 0, 1) == 3;
    assert Sum(v, 0, 2) == 3;
  }

  /** The area was below the target before its last bin was added, and that bin has
      at least the volume of the one at the other end; of equal bins it is the upper one. */
  lemma {:induction false} LastStepNeeded(v: seq<int>, lo: int, hi: int, target: int)
    requires 0 <= lo <= hi < |v| && NonNegative(v)
    ensures var (l, h) := Expand(v, lo, hi, target);
            || (l, h) == (lo, hi)
            || (hi < h && Sum(v, l, h) < target && (0 < l ==> v[l - 1] <= v[h]))
            || (l < lo && Sum(v, l + 1, h + 1) < target && (h + 1 < |v| ==> v[h + 1] < v[l]))
    decreases |v| - (hi - lo)
  {
    var above, below := Above(v, hi), Below(v, lo);
    if Sum(v, lo, hi + 1) < target && (above != 0 || below != 0) {
      if below <= above {
        LastStepNeeded(v, lo, hi + 1, target);
      } else {
        LastStepNeeded(v, lo - 1, hi, target);
      }
    }
  }

  /** It ends at the target, or between bins that are empty or missing. */
  lemma {:induction false} EndsAtTargetOrGap(v: seq<int>, lo: int, hi: int, target: int)
    requires 0 <= lo <= hi < |v| && NonNegative(v)
    ensures var (l, h) := Expand(v, lo, hi, target);
            target <= Sum(v, l, h + 1) || ((h + 1 < |v| ==> v[h + 1] == 0) && (0 < l ==> v[l - 1] == 0))
    decreases |v| - (hi - lo)
  {
    var above, below := Above(v, hi), Below(v, lo);
    if Sum(v, lo, hi + 1) < target && (above != 0 || below != 0) {
      if below <= above {
        EndsAtTargetOrGap(v, lo, hi + 1, target);
      } else {
        EndsAtTargetOrGap(v, lo - 1, hi, target);
      }
    }
  }

  /** The area of a higher target goes on from that of a lower one, so the two facts
      above hold for every bin that is added on the way. */
  lemma {:induction false} AreaGrowsOn(v: seq<int>, lo: int, hi: int, less: int, target: int)
    requires 0 <= lo <= hi < |v| && NonNegative(v) && less <= target
    ensures var (l, h) := Expand(v, lo, hi, less); Expand(v, l, h, target) == Expand(v, lo, hi, target)
    decreases |v| - (hi - lo)
  {
    var above, below := Above(v, hi), Below(v, lo);
    if Sum(v, lo, hi + 1) < less && (above != 0 || below != 0) {
      if below <= above {
        AreaGrowsOn(v, lo, hi + 1, less, target);
      } else {
        AreaGrowsOn(v, lo - 1, hi, less, target);
      }
    }
  }

  // ---- Optimality on a unimodal profile -----------------------------------------------

  ghost predicate Unimodal(v: seq<int>, p: int) {
    && 0 <= p < |v|
    && (forall i, j :: 0 <= i <= j <= p ==> v[i] <= v[j])
    && (forall i, j :: p <= i <= j < |v| ==> v[j] <= v[i])
  }

  /** Every bin inside has at least the volume of every bin outside. */
  ghost predicate Dominates(v: seq<int>, lo: int, hi: int) {
    && 0 <= lo <= hi < |v|
    && forall i, o :: lo <= i <= hi && 0 <= o < |v| && !(lo <= o <= hi) ==> v[o] <= v[i]
  }

  lemma {:induction false} SumShift(v: seq<int>, a: int, b: int, d: nat)
    requires 0 <= a && a + d <= |v| && 0 <= b && b + d <= |v|
    requires forall i, j :: a <= i < a + d && b <= j < b + d ==> v[i] <= v[j]
    ensures Sum(v, a, a + d) <= Sum(v, b, b + d)
    decreases d
  {
    if 0 < d {
      SumShift(v, a, b, d - 1);
    }
  }

  /** A dominating interval holds the most of all intervals with as many bins. */
  lemma DominatesIsBest(v: seq<int>, lo: int, hi: int, a: int, b: int)
    requires Dominates(v, lo, hi) && 0 <= a <= b <= |v| && b - a == hi + 1 - lo
    ensures Sum(v, a, b) <= Sum(v, lo, hi + 1)
  {
    if b <= lo || hi < a {
      SumShift(v, a, lo, b - a);
    } else if a < lo {
      SumSplit(v, a, lo, b);
      SumSplit(v, lo, b, hi + 1);
      SumShift(v, a, b, lo - a);
    } else {
      SumSplit(v, a, hi + 1, b);
      SumSplit(v, lo, a, hi + 1);
      SumShift(v, hi + 1, lo, a - lo);
    }
  }

  lemma GreedyDominates(v: seq<int>, p: int, lo: int, hi: int)
    requires NonNegative(v) && Unimodal(v, p) && lo <= p <= hi && Dominates(v, lo, hi)
    ensures Below(v, lo) <= Above(v, hi) && hi + 1 < |v| ==> Dominates(v, lo, hi + 1)
    ensures Above(v, hi) < Below(v, lo) ==> Dominates(v, lo - 1, hi)
  {
  }

  lemma DominatesInRange(v: seq<int>, lo: int, hi: int)
    requires Dominates(v, lo, hi)
    ensures 0 <= lo <= hi < |v|
  {
  }

  lemma RoomToGrow(v: seq<int>, lo: int, hi: int)
    requires 0 <= lo <= hi < |v| && NonNegative(v)
    ensures var above, below := Above(v, hi), Below(v, lo);
            && (below <= above && (above != 0 || below != 0) ==> hi + 1 < |v|)
            && (above < below ==> 0 < lo)
  {
  }

  lemma ExpandUnfolds(v: seq<int>, lo: int, hi: int, target: int)
    requires 0 <= lo <= hi < |v| && NonNegative(v)
    ensures var above, below := Above(v, hi), Below(v, lo);
            if target <= Sum(v, lo, hi + 1) || (above == 0 && below == 0) then Expand(v, lo, hi, target) == (lo, hi)
            else if below <= above then Expand(v, lo, hi, target) == Expand(v, lo, hi + 1, target)
            else Expand(v, lo, hi, target) == Expand(v, lo - 1, hi, target)
  {
    hide Sum;
  }

  /** At every step the area is the best interval of its size, so no interval of
      fewer bins reaches the target. */
  lemma {:induction false} ExpandIsOptimal(v: seq<int>, p: int, lo: int, hi: int, target: int, a: int, b: int)
    requires NonNegative(v) && Unimodal(v, p) && lo <= p <= hi && Dominates(v, lo, hi)
    requires 0 <= a < b <= |v|
    requires b - a < hi + 1 - lo ==> Sum(v, a, b) < target
    ensures var (l, h) := Expand(v, lo, hi, target);
            && (b - a == h + 1 - l ==> Sum(v, a, b) <= Sum(v, l, h + 1))
            && (b - a < h + 1 - l ==> Sum(v, a, b) < target)
    decreases |v| - (hi - lo)
  {
    hide *;
    if b - a == hi + 1 - lo {
      DominatesIsBest(v, lo, hi, a, b);
    }
    DominatesInRange(v, lo, hi);
    ExpandUnfolds(v, lo, hi, target);
    RoomToGrow(v, lo, hi);
    var above, below := Above(v, hi), Below(v, lo);
    if Sum(v, lo, hi + 1) < target && (above != 0 || below != 0) {
      GreedyDominates(v, p, lo, hi);
      if below <= above {
        ExpandIsOptimal(v, p, lo, hi + 1, target, a, b);
      } else {
        ExpandIsOptimal(v, p, lo - 1, hi, target, a, b);
      }
    }
  }

  /**
   * On a unimodal profile the value area has the largest volume of all
   * intervals with as many occupied bins, and every interval of fewer bins
   * misses the target.
   */
  lemma ValueAreaIsOptimal(v: seq<int>, p: int, target: int, a: int, b: int)
    requires NonNegative(v) && Unimodal(v, p) && 0 <= a < b <= |v|
    ensures var (lo, hi) := Expand(v, p, p, target);
            && (b - a == hi + 1 - lo ==> Sum(v, a, b) <= Sum(v, lo, hi + 1))
            && (b - a < hi + 1 - lo ==> Sum(v, a, b) < target)
  {
    assert Dominates(v, p, p) by {
      forall o | 0 <= o < |v|
        ensures v[o] <= v[p]
      {
      }
    }
    ExpandIsOptimal(v, p, p, p, target, a, b);
  }

  lemma {:induction false} ZeroSum(v: seq<int>, a: int, b: int)
    requires 0 <= a <= b <= |v| && forall i :: a <= i < b ==> v[i] == 0
    ensures Sum(v, a, b) == 0
    decreases b - a
  {
    if a < b {
      ZeroSum(v, a, b - 1);
    }
  }

  /** On a unimodal profile only empty bins lie beyond a stop, so a target of at
      most the total volume is always reached. */
  lemma {:induction false} UnimodalReaches(v: seq<int>, p: int, lo: int, hi: int, target: int)
    requires NonNegative(v) && Unimodal(v, p) && 0 <= lo <= p <= hi < |v| && target <= Sum(v, 0, |v|)
    ensures var (l, h) := Expand(v, lo, hi, target); target <= Sum(v, l, h + 1)
    decreases |v| - (hi - lo)
  {
    var above, below := Above(v, hi), Below(v, lo);
    if Sum(v, lo, hi + 1) < target {
      if above == 0 && below == 0 {
        ZeroSum(v, 0, lo);
        ZeroSum(v, hi + 1, |v|);
        SumSplit(v, 0, lo, |v|);
        SumSplit(v, lo, hi + 1, |v|);
      } else if below <= above {
        UnimodalReaches(v, p, lo, hi + 1, target);
      } else {
        UnimodalReaches(v, p, lo - 1, hi, target);
      }
    }
  }
}

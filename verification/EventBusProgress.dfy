/**
 * Progress of the bus when every handler publishes strictly forward: nothing
 * ever gets stuck, even with full queues, and every run drains.
 */
module EventBusProgress {
  import opened EventBus
  import opened EventBusFlush

  /** Handlers publish only to later subscriptions. */
  ghost predicate StrictlyForward(c: Config, pol: Policy) {
    c.running ==>
      forall i, e, j :: 0 <= i < |c.subs| && (i, e) in pol && 0 <= j < |c.subs| && Matches(c.subs[j], e) ==> i < j
  }

  /** A step of the bus itself: no new publish from outside and no new flush. */
  ghost predicate Step(c: Config, pol: Policy, s: State, a: Action) {
    Shape(c, s) && !a.Submit? && !a.FlushStart? && !a.Resume? && Enabled(c, s, a) && Allowed(c, pol, s, a)
  }

  /** All work is done, and flush has returned if it was called. */
  ghost predicate Settled(c: Config, s: State) {
    && Shape(c, s)
    && (forall q :: 0 <= q < |s.subs| ==> Quiet(s.subs[q]))
    && (forall t :: 0 <= t < |s.jobs| ==> s.jobs[t].todo == [])
    && (s.flush.Off? || s.flush.Returned?)
  }

  ghost predicate Good(c: Config, pol: Policy, s: State) {
    Control(c, s) && FollowsPolicy(c, pol, s)
  }

  // ---- What every reachable state keeps -------------------------------------------------

  ghost predicate Sound(c: Config, pol: Policy, s: State) {
    Inv(c, s) && FollowsPolicy(c, pol, s)
  }

  lemma SoundGood(c: Config, pol: Policy, s: State)
    requires Sound(c, pol, s)
    ensures Good(c, pol, s)
  {
    InvControl(c, s);
  }

  /** Handlers follow the policy; others publish and call flush as they like. */
  ghost predicate HandlersFollow(c: Config, pol: Policy, s: State, acts: seq<Action>)
    requires Shape(c, s) && Valid(c, s, acts)
    decreases |acts|
  {
    acts != [] ==>
      (acts[0].Get? ==> Allowed(c, pol, s, acts[0])) && HandlersFollow(c, pol, Next(c, s, acts[0]), acts[1..])
  }

  lemma NextFollows(c: Config, pol: Policy, s: State, a: Action)
    requires Shape(c, s) && Enabled(c, s, a) && (a.Get? ==> Allowed(c, pol, s, a)) && FollowsPolicy(c, pol, s)
    ensures FollowsPolicy(c, pol, Next(c, s, a))
  {
  }

  lemma NextSound(c: Config, pol: Policy, s: State, a: Action)
    requires Sound(c, pol, s) && Enabled(c, s, a) && (a.Get? ==> Allowed(c, pol, s, a))
    ensures Sound(c, pol, Next(c, s, a))
  {
    hide FollowsPolicy, SubsInv, JobInv, Paired, FlushInv;
    NextKeeps(c, s, a);
    NextFollows(c, pol, s, a);
  }

  lemma {:induction false} RunSound(c: Config, pol: Policy, s: State, acts: seq<Action>)
    requires Sound(c, pol, s) && Valid(c, s, acts) && HandlersFollow(c, pol, s, acts)
    ensures Sound(c, pol, Exec(c, s, acts))
    decreases |acts|
  {
    if acts != [] {
      NextSound(c, pol, s, acts[0]);
      RunSound(c, pol, Next(c, s, acts[0]), acts[1..]);
    }
  }

  /** A state the bus gets to from its start. */
  ghost predicate Reachable(c: Config, pol: Policy, s: State) {
    exists acts :: Valid(c, Init(c), acts) && HandlersFollow(c, pol, Init(c), acts) && s == Exec(c, Init(c), acts)
  }

  lemma ReachableIsSound(c: Config, pol: Policy, s: State)
    requires Reachable(c, pol, s)
    ensures Sound(c, pol, s) && Good(c, pol, s)
  {
    var acts :| Valid(c, Init(c), acts) && HandlersFollow(c, pol, Init(c), acts) && s == Exec(c, Init(c), acts);
    InitInv(c);
    RunSound(c, pol, Init(c), acts);
    SoundGood(c, pol, s);
  }

  // ---- No deadlock --------------------------------------------------------------------

  /** A task with something to publish can move unless it waits for a full queue. */
  lemma JobMoves(c: Config, pol: Policy, s: State, t: nat) returns (a: Action)
    requires Control(c, s) && t < |s.jobs| && s.jobs[t].todo != []
    requires AtTarget(c, s.jobs[t]) ==> s.subs[s.jobs[t].cursor].queue == []
    ensures Step(c, pol, s, a)
  {
    var j := s.jobs[t];
    a := if !c.running || |c.subs| <= j.cursor then Finish(t)
         else if !Matches(c.subs[j.cursor], j.todo[0]) then Skip(t)
         else if j.waiting then Wake(t)
         else Try(t);
  }

  /** The last subscription with work can always move: what it waits for is quiet. */
  lemma LastBusyMoves(c: Config, pol: Policy, s: State, k: nat) returns (a: Action)
    requires Good(c, pol, s) && StrictlyForward(c, pol) && k < |s.subs|
    requires !Quiet(s.subs[k]) && forall q :: k < q < |s.subs| ==> Quiet(s.subs[q])
    ensures Step(c, pol, s, a)
  {
    if s.subs[k].inFlight.None? {
      a := Get(k, []);
    } else if s.jobs[k].todo == [] {
      a := Done(k);
    } else {
      assert (k, s.jobs[k].todo[0]) in pol;
      a := JobMoves(c, pol, s, k);
    }
  }

  lemma {:induction false} FindLastBusy(s: State, n: nat) returns (k: nat)
    requires n <= |s.subs| && forall q :: n <= q < |s.subs| ==> Quiet(s.subs[q])
    ensures k < n ==> !Quiet(s.subs[k])
    ensures forall q :: k < q < |s.subs| ==> Quiet(s.subs[q])
    ensures n <= k ==> forall q :: 0 <= q < |s.subs| ==> Quiet(s.subs[q])
  {
    if n == 0 || !Quiet(s.subs[n - 1]) {
      k := if n == 0 then |s.subs| else n - 1;
    } else {
      k := FindLastBusy(s, n - 1);
      if n - 1 <= k {
        k := |s.subs|;
      }
    }
  }

  /** No state with queued, in-flight or blocked work is stuck. */
  lemma NoDeadlock(c: Config, pol: Policy, s: State) returns (a: Action)
    requires Good(c, pol, s) && StrictlyForward(c, pol) && !Settled(c, s)
    ensures Step(c, pol, s, a)
  {
    var k := FindLastBusy(s, |s.subs|);
    if k < |s.subs| {
      a := LastBusyMoves(c, pol, s, k);
    } else if exists t :: 0 <= t < |s.jobs| && s.jobs[t].todo != [] {
      var t :| 0 <= t < |s.jobs| && s.jobs[t].todo != [];
      a := JobMoves(c, pol, s, t);
    } else {
      a := FlushStep;
    }
  }

  lemma ReachableMoves(c: Config, pol: Policy, s: State) returns (a: Action)
    requires Reachable(c, pol, s) && StrictlyForward(c, pol) && !Settled(c, s)
    ensures Step(c, pol, s, a)
  {
    ReachableIsSound(c, pol, s);
    a := NoDeadlock(c, pol, s);
  }

  // ---- The work measure ---------------------------------------------------------------------

  function TodoSteps(n: nat, todo: seq<Event>): nat {
    if todo == [] then 0 else 2 * n + 3 + TodoSteps(n, todo[1..])
  }

  /** A bound on the steps a task still has to take; a suspended put has used up one of its two. */
  function JobSteps(n: nat, j: Job): nat {
    if j.todo == [] || n < j.cursor then 0
    else 2 * (n - j.cursor) + (if j.waiting then 1 else 2) + TodoSteps(n, j.todo[1..])
  }

  /** Two steps for a queued event, one for an event being handled. */
  function SubSteps(s: Sub): nat {
    2 * |s.queue| + (if s.inFlight.Some? then 1 else 0)
  }

  function FlushSteps(n: nat, f: Flush): nat {
    match f
    case At(p) => if p <= n then 2 * (n - p) + 2 else 0
    case Wait(p, _) => if p <= n then 2 * (n - p) + 1 else 0
    case _ => 0
  }

  /** External callers first, then each subscription's queue and handler, then flush. */
  ghost function RankAt(c: Config, s: State, m: nat): nat
    requires Shape(c, s) && m < c.externals + 2 * |c.subs| + 1
  {
    var n, x := |c.subs|, c.externals;
    if m < x then JobSteps(n, s.jobs[n + m])
    else if m == x + 2 * n then FlushSteps(n, s.flush)
    else if (m - x) % 2 == 0 then SubSteps(s.subs[(m - x) / 2])
    else JobSteps(n, s.jobs[(m - x) / 2])
  }

  ghost function Rank(c: Config, s: State): (r: seq<nat>)
    requires Shape(c, s)
    ensures |r| == c.externals + 2 * |c.subs| + 1
  {
    seq(c.externals + 2 * |c.subs| + 1,
        m requires 0 <= m < c.externals + 2 * |c.subs| + 1 => RankAt(c, s, m))
  }

  ghost predicate LexLess(a: seq<nat>, b: seq<nat>) {
    |a| == |b| && exists k :: 0 <= k < |a| && a[k] < b[k] && forall m :: 0 <= m < k ==> a[m] == b[m]
  }

  lemma JobStepLess(c: Config, s: State, t: nat, a: Action)
    requires Control(c, s) && t < |s.jobs| && Enabled(c, s, a)
    requires a == Finish(t) || a == Skip(t) || a == Try(t) || a == Wake(t)
    ensures var r := Next(c, s, a);
            && JobSteps(|c.subs|, r.jobs[t]) < JobSteps(|c.subs|, s.jobs[t])
            && (forall u :: 0 <= u < |s.jobs| && u != t ==> r.jobs[u] == s.jobs[u])
            && (forall q :: 0 <= q < |s.subs| && r.subs[q] != s.subs[q] ==> AtTarget(c, s.jobs[t]) && q == s.jobs[t].cursor)
  {
    assert JobInv(c, s.jobs[t]);
  }

  lemma LexAt(c: Config, s: State, r: State, k: nat)
    requires Shape(c, s) && Shape(c, r) && k < c.externals + 2 * |c.subs| + 1
    requires RankAt(c, r, k) < RankAt(c, s, k)
    requires forall m: nat :: m < k ==> RankAt(c, r, m) == RankAt(c, s, m)
    ensures LexLess(Rank(c, r), Rank(c, s))
  {
    assert Rank(c, r)[k] < Rank(c, s)[k];
  }

  /** What comes before component k of subscription i is unchanged. */
  lemma SameBefore(c: Config, s: State, r: State, i: nat, k: nat)
    requires Shape(c, s) && Shape(c, r) && i < |c.subs|
    requires k == c.externals + 2 * i || (k == c.externals + 2 * i + 1 && SubSteps(r.subs[i]) == SubSteps(s.subs[i]))
    requires forall q :: 0 <= q < i ==> r.subs[q] == s.subs[q] && r.jobs[q] == s.jobs[q]
    requires forall t :: |c.subs| <= t < |s.jobs| ==> r.jobs[t] == s.jobs[t]
    ensures forall m: nat :: m < k ==> RankAt(c, r, m) == RankAt(c, s, m)
  {
  }

  /** A task's step may only add work to subscriptions after its own. */
  lemma JobRank(c: Config, pol: Policy, s: State, t: nat, a: Action)
    requires Good(c, pol, s) && StrictlyForward(c, pol) && t < |s.jobs| && Step(c, pol, s, a)
    requires a == Finish(t) || a == Skip(t) || a == Try(t) || a == Wake(t)
    ensures LexLess(Rank(c, Next(c, s, a)), Rank(c, s))
  {
    var n, r := |c.subs|, Next(c, s, a);
    JobStepLess(c, s, t, a);
    if n <= t {
      LexAt(c, s, r, t - n);
    } else {
      if AtTarget(c, s.jobs[t]) {
        assert (t, s.jobs[t].todo[0]) in pol;
      }
      SameBefore(c, s, r, t, c.externals + 2 * t + 1);
      LexAt(c, s, r, c.externals + 2 * t + 1);
    }
  }

  lemma WorkerRank(c: Config, pol: Policy, s: State, i: nat, a: Action)
    requires Good(c, pol, s) && i < |s.subs| && Step(c, pol, s, a)
    requires a.Done? || a.Get?
    requires a.i == i
    ensures LexLess(Rank(c, Next(c, s, a)), Rank(c, s))
  {
    SameBefore(c, s, Next(c, s, a), i, c.externals + 2 * i);
    LexAt(c, s, Next(c, s, a), c.externals + 2 * i);
  }

  lemma FlushRank(c: Config, s: State)
    requires Control(c, s) && Enabled(c, s, FlushStep)
    ensures LexLess(Rank(c, Next(c, s, FlushStep)), Rank(c, s))
  {
    LexAt(c, s, Next(c, s, FlushStep), c.externals + 2 * |c.subs|);
  }

  lemma StepRank(c: Config, pol: Policy, s: State, a: Action)
    requires Good(c, pol, s) && StrictlyForward(c, pol) && Step(c, pol, s, a)
    ensures LexLess(Rank(c, Next(c, s, a)), Rank(c, s))
  {
    match a
    case Finish(t) => JobRank(c, pol, s, t, a);
    case Skip(t) => JobRank(c, pol, s, t, a);
    case Try(t) => JobRank(c, pol, s, t, a);
    case Wake(t) => JobRank(c, pol, s, t, a);
    case Get(i, _) => WorkerRank(c, pol, s, i, a);
    case Done(i) => WorkerRank(c, pol, s, i, a);
    case FlushStep => FlushRank(c, s);
  }

  // ---- No run goes on for ever ---------------------------------------------------------------

  lemma {:induction false} Stabilises(h: nat -> nat, n: nat) returns (m: nat)
    requires forall k: nat :: h(k + 1) <= h(k)
    ensures forall k: nat :: m <= k ==> h(k) == h(m)
    decreases h(n)
  {
    if exists k: nat :: n <= k && h(k) != h(n) {
      var k: nat :| n <= k && h(k) != h(n);
      NonIncreasing(h, n, k);
      m := Stabilises(h, k);
    } else {
      m := n;
    }
  }

  lemma {:induction false} NonIncreasing(h: nat -> nat, n: nat, k: nat)
    requires (forall k: nat :: h(k + 1) <= h(k)) && n <= k
    ensures h(k) <= h(n)
    decreases k - n
  {
    if n < k {
      NonIncreasing(h, n, k - 1);
      assert h(k - 1 + 1) <= h(k - 1);
    }
  }

  function Head(v: seq<nat>): nat { if v == [] then 0 else v[0] }

  function Tail(v: seq<nat>): seq<nat> { if v == [] then [] else v[1..] }

  /** Once the heads stay the same, the tails descend. */
  lemma TailsDescend(g: nat -> seq<nat>, len: nat, m: nat, k: nat)
    requires 0 < len && (forall k: nat :: |g(k)| == len)
    requires forall k: nat :: LexLess(g(k + 1), g(k))
    requires forall k: nat :: m <= k ==> Head(g(k)) == Head(g(m))
    ensures LexLess(Tails(g, m)(k + 1), Tails(g, m)(k))
  {
    assert m + (k + 1) == m + k + 1;
    assert LexLess(g(m + k + 1), g(m + k));
    TailLess(g(m + k + 1), g(m + k));
  }

  /** Vectors of a fixed length have no endless lexicographic descent. */
  lemma {:induction false} NoDescent(g: nat -> seq<nat>, len: nat)
    requires forall k: nat :: |g(k)| == len
    ensures exists k: nat :: !LexLess(g(k + 1), g(k))
    decreases len, 1
  {
    if len == 0 {
      assert !LexLess(g(0 + 1), g(0));
    } else if forall k: nat :: LexLess(g(k + 1), g(k)) {
      var head: nat -> nat := (k: nat) => Head(g(k));
      forall k: nat
        ensures head(k + 1) <= head(k)
      {
        assert LexLess(g(k + 1), g(k));
      }
      var m := Stabilises(head, 0);
      forall k: nat | m <= k
        ensures Head(g(k)) == Head(g(m))
      {
        assert head(k) == head(m);
      }
      TailsFinite(g, len, m);
    }
  }

  lemma {:induction false} TailsFinite(g: nat -> seq<nat>, len: nat, m: nat)
    requires 0 < len && (forall k: nat :: |g(k)| == len)
    requires forall k: nat :: m <= k ==> Head(g(k)) == Head(g(m))
    ensures exists k: nat :: !LexLess(g(k + 1), g(k))
    decreases len - 1, 2
  {
    TailsLength(g, len, m);
    NoDescent(Tails(g, m), len - 1);
    var k: nat :| !LexLess(Tails(g, m)(k + 1), Tails(g, m)(k));
    if forall k: nat :: LexLess(g(k + 1), g(k)) {
      TailsDescend(g, len, m, k);
    }
  }

  /** The tails of g from m on. */
  ghost function Tails(g: nat -> seq<nat>, m: nat): nat -> seq<nat> {
    (k: nat) => Tail(g(m + k))
  }

  lemma TailsLength(g: nat -> seq<nat>, len: nat, m: nat)
    requires 0 < len && forall k: nat :: |g(k)| == len
    ensures forall k: nat :: |Tails(g, m)(k)| == len - 1
  {
    forall k: nat
      ensures |Tails(g, m)(k)| == len - 1
    {
      var v := g(m + k);
      assert |v| == len;
      assert Tails(g, m)(k) == Tail(v);
    }
  }

  lemma TailLess(a: seq<nat>, b: seq<nat>)
    requires |a| == |b| > 0
    ensures LexLess(a, b) && Head(a) == Head(b) ==> LexLess(Tail(a), Tail(b))
  {
    if LexLess(a, b) && Head(a) == Head(b) {
      var k :| 0 <= k < |a| && a[k] < b[k] && forall m :: 0 <= m < k ==> a[m] == b[m];
      assert a[1..][k - 1] < b[1..][k - 1];
    }
  }

  ghost predicate Stuck(c: Config, pol: Policy, s: State) {
    forall a :: !Step(c, pol, s, a)
  }

  /** One move of a scheduler that takes some step whenever there is one. */
  ghost predicate Moves(c: Config, pol: Policy, s: State, a: Action, r: State) {
    if Step(c, pol, s, a) then r == Next(c, s, a) else r == s && Stuck(c, pol, s)
  }

  ghost predicate Scheduled(c: Config, pol: Policy, run: nat -> State, pick: nat -> Action) {
    forall k: nat :: Moves(c, pol, run(k), pick(k), run(k + 1))
  }

  lemma MovesSound(c: Config, pol: Policy, s: State, a: Action, r: State)
    requires Sound(c, pol, s) && Moves(c, pol, s, a, r)
    ensures Sound(c, pol, r)
  {
    if Step(c, pol, s, a) {
      NextSound(c, pol, s, a);
    }
  }

  lemma {:induction false} ScheduledSound(c: Config, pol: Policy, run: nat -> State, pick: nat -> Action, k: nat)
    requires Sound(c, pol, run(0)) && Scheduled(c, pol, run, pick)
    ensures Sound(c, pol, run(k))
    decreases k
  {
    if 0 < k {
      ScheduledSound(c, pol, run, pick, k - 1);
      assert run(k - 1 + 1) == run(k);
      MovesSound(c, pol, run(k - 1), pick(k - 1), run(k));
    }
  }

  /** A move that does not make the work smaller is the end of the run. */
  lemma NoLessSettled(c: Config, pol: Policy, s: State, a: Action, r: State)
    requires Good(c, pol, s) && StrictlyForward(c, pol) && Moves(c, pol, s, a, r)
    ensures Settled(c, s) || (Shape(c, r) && LexLess(Rank(c, r), Rank(c, s)))
  {
    if Step(c, pol, s, a) {
      StepRank(c, pol, s, a);
    } else if !Settled(c, s) {
      var b := NoDeadlock(c, pol, s);
    }
  }

  /**
   * Whatever the scheduler and however full the queues, a bus whose handlers
   * publish strictly forward settles after finitely many steps: every accepted
   * event handled or evicted, every publisher done, and flush returned.
   */
  lemma EveryRunSettles(c: Config, pol: Policy, run: nat -> State, pick: nat -> Action)
    requires StrictlyForward(c, pol) && Scheduled(c, pol, run, pick)
    requires Sound(c, pol, run(0))
    ensures exists k: nat :: Settled(c, run(k))
  {
    var rank: nat -> seq<nat> := (k: nat) => if Shape(c, run(k)) then Rank(c, run(k)) else [];
    forall k: nat
      ensures Good(c, pol, run(k))
      ensures |rank(k)| == c.externals + 2 * |c.subs| + 1
    {
      ScheduledSound(c, pol, run, pick, k);
      SoundGood(c, pol, run(k));
    }
    NoDescent(rank, c.externals + 2 * |c.subs| + 1);
    var k: nat :| !LexLess(rank(k + 1), rank(k));
    NoLessSettled(c, pol, run(k), pick(k), run(k + 1));
  }
}

/**
 * Why progress needs handlers that publish strictly forward: a handler that
 * fills its own blocking queue waits for itself, for ever.
 */
module EventBusDeadlock {
  import opened EventBus
  import opened EventBusFlush
  import opened EventBusProgress

  /** A bounded queue whose publishers wait for room. */
  predicate Backpressure(sc: SubConfig) { 0 < sc.maxsize && !sc.dropIfFull }

  /** Handler i is suspended in a put on its own full queue. */
  ghost predicate SelfBlocked(c: Config, s: State, i: nat) {
    && Shape(c, s) && i < |c.subs| && Backpressure(c.subs[i])
    && s.subs[i].inFlight.Some? && Full(c.subs[i], s.subs[i])
    && s.jobs[i].waiting && s.jobs[i].cursor == i && AtTarget(c, s.jobs[i])
  }

  // ---- There is no way out ------------------------------------------------------------------

  /** No step of anybody, outside callers and flush included, changes that. */
  lemma NextStaysBlocked(c: Config, s: State, i: nat, a: Action)
    requires SelfBlocked(c, s, i) && Enabled(c, s, a)
    ensures SelfBlocked(c, Next(c, s, a), i) && Next(c, s, a).subs[i].handled == s.subs[i].handled
  {
  }

  lemma {:induction false} BlockedForEver(c: Config, s: State, i: nat, acts: seq<Action>)
    requires SelfBlocked(c, s, i) && Valid(c, s, acts)
    ensures SelfBlocked(c, Exec(c, s, acts), i) && !Settled(c, Exec(c, s, acts))
    ensures Exec(c, s, acts).subs[i].handled == s.subs[i].handled
    decreases |acts|
  {
    if acts != [] {
      NextStaysBlocked(c, s, i, acts[0]);
      BlockedForEver(c, Next(c, s, acts[0]), i, acts[1..]);
    }
  }

  // ---- How to get there -----------------------------------------------------------------------

  /** n events for subscription i are published, and the others handle theirs. */
  lemma {:induction false} FillUp(c: Config, pol: Policy, i: nat, n: nat) returns (r: State)
    requires c.running && 0 < c.externals && i < |c.subs| && n <= c.subs[i].maxsize
    ensures Calm(c, r) && Reach(c, pol, Init(c), r) && r.flush.Off? && |r.subs[i].queue| == n
    ensures forall q :: 0 <= q < |r.subs| && q != i ==> r.subs[q].queue == []
  {
    if n == 0 {
      r := Init(c);
      ReachSame(c, pol, r);
    } else {
      var s := FillUp(c, pol, i, n - 1);
      r := OneMore(c, pol, s, i, |s.jobs|);
      Chain(c, pol, Init(c), s, r);
    }
  }

  lemma OneMore(c: Config, pol: Policy, s: State, i: nat, busy: nat) returns (r: State)
    requires CalmBut(c, s, busy) && s.flush.Off? && c.running && 0 < c.externals && i < |c.subs|
    requires busy == i || busy == |s.jobs|
    requires |s.subs[i].queue| < c.subs[i].maxsize
    requires forall q :: 0 <= q < |s.subs| && q != i ==> s.subs[q].queue == []
    ensures CalmBut(c, r, busy) && Reach(c, pol, s, r) && r.flush.Off? && r.jobs == s.jobs
    ensures |r.subs[i].queue| == |s.subs[i].queue| + 1 && r.subs[i].inFlight == s.subs[i].inFlight
    ensures forall q :: 0 <= q < |r.subs| && q != i ==> r.subs[q].queue == []
  {
    var m := SubmitOne(c, pol, s, i, busy);
    r := DrainOthers(c, pol, m, 0, i, busy);
    Chain(c, pol, s, m, r);
  }

  /** Handler i, about to publish f, passes the subscriptions before its own. */
  lemma {:induction false} WalkToOwn(c: Config, pol: Policy, s: State, i: nat, f: Event, k: nat) returns (r: State)
    requires CalmBut(c, s, i) && s.flush.Off? && c.running && k <= i < |c.subs|
    requires s.jobs[i] == Job([f], k, false)
    requires forall q :: k <= q < i ==> s.subs[q].queue == []
    ensures CalmBut(c, r, i) && Reach(c, pol, s, r) && r.flush.Off?
    ensures r.jobs[i] == Job([f], i, false) && r.subs[i] == s.subs[i]
    decreases i - k
  {
    if k == i {
      r := s;
      ReachSame(c, pol, s);
    } else {
      var a := if Matches(c.subs[k], f) then Try(i) else Skip(i);
      r := WalkToOwn(c, pol, Next(c, s, a), i, f, k + 1);
      ReachStep(c, pol, s, a, r);
    }
  }

  /** Handler i takes an event, an outside caller fills the gap, and the handler walks to its own queue. */
  lemma MeetsOwnQueue(c: Config, pol: Policy, s: State, i: nat, f: Event) returns (r: State)
    requires Calm(c, s) && s.flush.Off? && c.running && 0 < c.externals && i < |c.subs|
    requires (i, f) in pol && 0 < c.subs[i].maxsize == |s.subs[i].queue|
    requires forall q :: 0 <= q < |s.subs| && q != i ==> s.subs[q].queue == []
    ensures CalmBut(c, r, i) && Reach(c, pol, s, r) && r.flush.Off?
    ensures r.jobs[i] == Job([f], i, false) && r.subs[i].inFlight.Some? && Full(c.subs[i], r.subs[i])
  {
    var n := Next(c, s, Get(i, [f]));
    var m := OneMore(c, pol, n, i, i);
    r := WalkToOwn(c, pol, m, i, f, 0);
    Chain(c, pol, n, m, r);
    ReachStep(c, pol, s, Get(i, [f]), r);
  }

  /** The put suspends; everyone else comes to rest. */
  lemma Suspends(c: Config, pol: Policy, s: State, i: nat, f: Event) returns (r: State)
    requires CalmBut(c, s, i) && s.flush.Off? && c.running && i < |c.subs| && Backpressure(c.subs[i])
    requires s.jobs[i] == Job([f], i, false) && Matches(c.subs[i], f)
    requires s.subs[i].inFlight.Some? && Full(c.subs[i], s.subs[i])
    ensures CalmBut(c, r, i) && Reach(c, pol, s, r) && r.flush.Off? && SelfBlocked(c, r, i)
    ensures forall q :: 0 <= q < |r.subs| && q != i ==> r.subs[q].queue == []
  {
    var n := Next(c, s, Try(i));
    r := DrainOthers(c, pol, n, 0, i, i);
    ReachStep(c, pol, s, Try(i), r);
  }

  lemma RestIsStuck(c: Config, pol: Policy, s: State, i: nat)
    requires CalmBut(c, s, i) && s.flush.Off? && SelfBlocked(c, s, i)
    requires forall q :: 0 <= q < |s.subs| && q != i ==> s.subs[q].queue == []
    ensures Stuck(c, pol, s) && !Settled(c, s)
  {
  }

  /** Whatever the queue sizes: such a handler brings the whole bus to a halt with work left. */
  lemma BlocksItself(c: Config, pol: Policy, i: nat, f: Event) returns (r: State)
    requires c.running && 0 < c.externals && i < |c.subs| && Backpressure(c.subs[i])
    requires (i, f) in pol && Matches(c.subs[i], f)
    ensures Shape(c, r) && Reach(c, pol, Init(c), r)
    ensures SelfBlocked(c, r, i) && Stuck(c, pol, r) && !Settled(c, r)
  {
    var s := FillUp(c, pol, i, c.subs[i].maxsize);
    var m := MeetsOwnQueue(c, pol, s, i, f);
    r := Suspends(c, pol, m, i, f);
    RestIsStuck(c, pol, r, i);
    Chain(c, pol, s, m, r);
    Chain(c, pol, Init(c), s, r);
  }

  /**
   * A subscription with backpressure can be blocked for ever by its own handler
   * exactly when that handler may publish an event the subscription receives.
   */
  lemma BlocksItselfExactly(c: Config, pol: Policy, i: nat)
    requires c.running && 0 < c.externals && i < |c.subs| && Backpressure(c.subs[i])
    ensures (exists s :: Reachable(c, pol, s) && SelfBlocked(c, s, i))
            <==> (exists f :: (i, f) in pol && Matches(c.subs[i], f))
  {
    if s :| Reachable(c, pol, s) && SelfBlocked(c, s, i) {
      ReachableIsSound(c, pol, s);
      assert (i, s.jobs[i].todo[0]) in pol;
    }
    if f :| (i, f) in pol && Matches(c.subs[i], f) {
      var r := BlocksItself(c, pol, i, f);
      DisciplinedReaches(c, pol, r);
    }
  }

  lemma {:induction false} DisciplinedFollows(c: Config, pol: Policy, s: State, acts: seq<Action>)
    requires Shape(c, s) && Valid(c, s, acts) && Disciplined(c, pol, s, acts)
    ensures HandlersFollow(c, pol, s, acts)
    decreases |acts|
  {
    if acts != [] {
      DisciplinedFollows(c, pol, Next(c, s, acts[0]), acts[1..]);
    }
  }

  lemma DisciplinedReaches(c: Config, pol: Policy, s: State)
    requires Reach(c, pol, Init(c), s)
    ensures Reachable(c, pol, s)
  {
    var acts :| Valid(c, Init(c), acts) && Disciplined(c, pol, Init(c), acts) && Exec(c, Init(c), acts) == s;
    DisciplinedFollows(c, pol, Init(c), acts);
  }
}

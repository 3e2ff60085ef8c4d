/**
 * When EventBus.flush keeps its promise that every subscriber queue has been
 * drained: exactly when no handler publishes to a subscription that comes
 * before its own.
 */
module EventBusFlush {
  import opened Wrappers
  import opened EventBus

  /** The pairs (i, e) such that the handler of subscription i may publish e. */
  type Policy = iset<(nat, Event)>

  ghost predicate ExternalsIdle(c: Config, s: State)
    requires Shape(c, s)
  {
    forall t :: |c.subs| <= t < |s.jobs| ==> s.jobs[t].todo == []
  }

  /** Handlers follow the policy and nobody else publishes while flush is called. */
  ghost predicate Allowed(c: Config, pol: Policy, s: State, a: Action)
    requires Shape(c, s)
  {
    match a
    case Get(i, script) => forall k :: 0 <= k < |script| ==> (i, script[k]) in pol
    case FlushStart => ExternalsIdle(c, s)
    case Submit(_, _) => s.flush.Off?
    case _ => true
  }

  ghost predicate Disciplined(c: Config, pol: Policy, s: State, acts: seq<Action>)
    requires Shape(c, s) && Valid(c, s, acts)
    decreases |acts|
  {
    acts != [] ==> Allowed(c, pol, s, acts[0]) && Disciplined(c, pol, Next(c, s, acts[0]), acts[1..])
  }

  /** Nothing queued and no handler running. */
  predicate Quiet(s: Sub) { s.queue == [] && s.inFlight.None? }

  /** Whenever flush returns, every subscription is quiet. */
  ghost predicate FlushDrains(c: Config, pol: Policy) {
    forall acts ::
      Valid(c, Init(c), acts) && Disciplined(c, pol, Init(c), acts) && Exec(c, Init(c), acts).flush.Returned? ==>
        forall q :: 0 <= q < |c.subs| ==> Quiet(Exec(c, Init(c), acts).subs[q])
  }

  /** No handler publishes an event that an earlier subscription receives. */
  ghost predicate NoBackward(c: Config, pol: Policy) {
    c.running ==>
      forall i, e, j :: 0 <= i < |c.subs| && (i, e) in pol && 0 <= j < |c.subs| && Matches(c.subs[j], e) ==> i <= j
  }

  // ---- Sufficiency: the part of the bus that flush has passed stays quiet --------------

  /** The subscriptions below this one are known to be quiet. */
  ghost function Frontier(s: State): nat {
    match s.flush
    case Off => 0
    case At(p) => p
    case Wait(p, woken) => if woken then p + 1 else p
    case Returned => |s.subs|
  }

  ghost predicate FollowsPolicy(c: Config, pol: Policy, s: State)
    requires Shape(c, s)
  {
    forall t, k :: 0 <= t < |c.subs| && 0 <= k < |s.jobs[t].todo| ==> (t, s.jobs[t].todo[k]) in pol
  }

  ghost predicate QuietBelow(s: State, p: nat) {
    p <= |s.subs| && forall q :: 0 <= q < p ==> Quiet(s.subs[q])
  }

  ghost predicate FlushSafe(c: Config, pol: Policy, s: State)
    requires Shape(c, s)
  {
    && FollowsPolicy(c, pol, s)
    && (!s.flush.Off? ==> ExternalsIdle(c, s))
    && QuietBelow(s, Frontier(s))
  }

  /** A publisher reaches only subscriptions beyond the frontier. */
  lemma TargetBeyond(c: Config, pol: Policy, s: State, t: nat)
    requires Control(c, s) && FlushSafe(c, pol, s) && NoBackward(c, pol) && !s.flush.Off?
    requires t < |s.jobs| && AtTarget(c, s.jobs[t])
    ensures t < |c.subs| && s.subs[t].inFlight.Some? && Frontier(s) <= t <= s.jobs[t].cursor
  {
    assert (t, s.jobs[t].todo[0]) in pol;
    assert Paired(s.subs[t], s.jobs[t]);
    assert !Quiet(s.subs[t]);
  }

  lemma TrySafe(c: Config, pol: Policy, s: State, t: nat)
    requires Control(c, s) && FlushSafe(c, pol, s) && NoBackward(c, pol) && Enabled(c, s, Try(t))
    ensures FlushSafe(c, pol, TryNext(c, s, t))
  {
    if !s.flush.Off? {
      TargetBeyond(c, pol, s, t);
      var i, r := s.jobs[t].cursor, TryNext(c, s, t);
      // an eviction cannot wake the join: worker t == i is busy and the queue is full
      assert r.flush == s.flush;
    }
  }

  lemma WakeSafe(c: Config, pol: Policy, s: State, t: nat)
    requires Control(c, s) && FlushSafe(c, pol, s) && NoBackward(c, pol) && Enabled(c, s, Wake(t))
    ensures FlushSafe(c, pol, Next(c, s, Wake(t)))
  {
    if !s.flush.Off? {
      TargetBeyond(c, pol, s, t);
    }
  }

  lemma WorkerSafe(c: Config, pol: Policy, s: State, a: Action)
    requires Control(c, s) && FlushSafe(c, pol, s)
    requires (a.Get? || a.Done?) && Enabled(c, s, a) && Allowed(c, pol, s, a)
    ensures FlushSafe(c, pol, Next(c, s, a))
  {
    var r := Next(c, s, a);
    assert !Quiet(s.subs[a.i]);
    if a.Done? {
      assert forall q :: 0 <= q < |s.subs| && Quiet(s.subs[q]) ==> Quiet(r.subs[q]);
    }
  }

  lemma FlushStepSafe(c: Config, pol: Policy, s: State)
    requires Control(c, s) && FlushSafe(c, pol, s) && Enabled(c, s, FlushStep)
    ensures FlushSafe(c, pol, Next(c, s, FlushStep))
  {
  }

  lemma NextSafe(c: Config, pol: Policy, s: State, a: Action)
    requires Control(c, s) && FlushSafe(c, pol, s) && NoBackward(c, pol)
    requires Enabled(c, s, a) && Allowed(c, pol, s, a)
    ensures FlushSafe(c, pol, Next(c, s, a))
  {
    match a
    case Try(t) => TrySafe(c, pol, s, t);
    case Wake(t) => WakeSafe(c, pol, s, t);
    case Get(_, _) => WorkerSafe(c, pol, s, a);
    case Done(_) => WorkerSafe(c, pol, s, a);
    case FlushStep => FlushStepSafe(c, pol, s);
    case _ =>
  }

  lemma {:induction false} RunSafe(c: Config, pol: Policy, s: State, acts: seq<Action>)
    requires Inv(c, s) && FlushSafe(c, pol, s) && NoBackward(c, pol)
    requires Valid(c, s, acts) && Disciplined(c, pol, s, acts)
    ensures FlushSafe(c, pol, Exec(c, s, acts))
    decreases |acts|
  {
    if acts != [] {
      InvControl(c, s);
      NextKeeps(c, s, acts[0]);
      NextSafe(c, pol, s, acts[0]);
      RunSafe(c, pol, Next(c, s, acts[0]), acts[1..]);
    }
  }

  lemma ForwardDrains(c: Config, pol: Policy)
    requires NoBackward(c, pol)
    ensures FlushDrains(c, pol)
  {
    forall acts | Valid(c, Init(c), acts) && Disciplined(c, pol, Init(c), acts)
                  && Exec(c, Init(c), acts).flush.Returned?
      ensures forall q :: 0 <= q < |c.subs| ==> Quiet(Exec(c, Init(c), acts).subs[q])
    {
      InitInv(c);
      RunSafe(c, pol, Init(c), acts);
      assert QuietBelow(Exec(c, Init(c), acts), |c.subs|);
    }
  }

  // ---- Necessity: a handler that publishes backwards defeats flush --------------------

  ghost predicate Reach(c: Config, pol: Policy, s: State, r: State)
    requires Shape(c, s)
  {
    exists acts :: Valid(c, s, acts) && Disciplined(c, pol, s, acts) && Exec(c, s, acts) == r
  }

  lemma ReachSame(c: Config, pol: Policy, s: State)
    requires Shape(c, s)
    ensures Reach(c, pol, s, s)
  {
    var acts: seq<Action> := [];
    assert Valid(c, s, acts) && Disciplined(c, pol, s, acts) && Exec(c, s, acts) == s;
  }

  lemma ReachStep(c: Config, pol: Policy, s: State, a: Action, r: State)
    requires Shape(c, s) && Enabled(c, s, a) && Allowed(c, pol, s, a)
    requires Shape(c, Next(c, s, a)) && Reach(c, pol, Next(c, s, a), r)
    ensures Reach(c, pol, s, r)
  {
    var n := Next(c, s, a);
    var acts :| Valid(c, n, acts) && Disciplined(c, pol, n, acts) && Exec(c, n, acts) == r;
    var all := [a] + acts;
    assert all[1..] == acts;
    assert Valid(c, s, all) && Disciplined(c, pol, s, all) && Exec(c, s, all) == r;
  }

  lemma {:induction false} ReachTrans(c: Config, pol: Policy, s: State, acts: seq<Action>, r: State)
    requires Shape(c, s) && Valid(c, s, acts) && Disciplined(c, pol, s, acts)
    requires Reach(c, pol, Exec(c, s, acts), r)
    ensures Reach(c, pol, s, r)
    decreases |acts|
  {
    if acts != [] {
      ReachTrans(c, pol, Next(c, s, acts[0]), acts[1..], r);
      ReachStep(c, pol, s, acts[0], r);
    }
  }

  lemma Chain(c: Config, pol: Policy, s: State, m: State, r: State)
    requires Shape(c, s) && Shape(c, m) && Reach(c, pol, s, m) && Reach(c, pol, m, r)
    ensures Reach(c, pol, s, r)
  {
    var acts :| Valid(c, s, acts) && Disciplined(c, pol, s, acts) && Exec(c, s, acts) == m;
    ReachTrans(c, pol, s, acts, r);
  }

  /** The queues after e has been delivered to every match from k on. */
  function Published(scs: seq<SubConfig>, subs: seq<Sub>, e: Event, k: nat): (r: seq<Sub>)
    requires |scs| == |subs|
    ensures |r| == |subs|
  {
    seq(|subs|, q requires 0 <= q < |subs| => if k <= q && Matches(scs[q], e) then Put(subs[q], e) else subs[q])
  }

  /** With room in all queues nothing suspends a publisher. */
  lemma {:induction false} PublishAll(c: Config, pol: Policy, s: State, t: nat, e: Event, k: nat)
    requires Shape(c, s) && c.running && t < |s.jobs| && k <= |c.subs|
    requires s.jobs[t] == Job([e], k, false)
    requires forall q :: k <= q < |c.subs| ==> !Full(c.subs[q], s.subs[q])
    ensures Reach(c, pol, s, State(Published(c.subs, s.subs, e, k), s.jobs[t := IDLE], s.flush))
    decreases |c.subs| - k
  {
    var r := State(Published(c.subs, s.subs, e, k), s.jobs[t := IDLE], s.flush);
    if k == |c.subs| {
      assert Published(c.subs, s.subs, e, k) == s.subs;
      assert [e][1..] == [];
      assert Next(c, s, Finish(t)) == r;
      ReachSame(c, pol, r);
      ReachStep(c, pol, s, Finish(t), r);
    } else {
      var a := if Matches(c.subs[k], e) then Try(t) else Skip(t);
      var n := Next(c, s, a);
      assert n.jobs == s.jobs[t := Job([e], k + 1, false)];
      PublishAll(c, pol, n, t, e, k + 1);
      assert Published(c.subs, n.subs, e, k + 1) == r.subs;
      assert n.jobs[t := IDLE] == r.jobs;
      ReachStep(c, pol, s, a, r);
    }
  }

  /** Nobody but the handler of `busy` runs or publishes, and the counters agree. */
  ghost predicate CalmBut(c: Config, s: State, busy: nat) {
    && Shape(c, s)
    && (forall t :: 0 <= t < |s.jobs| && t != busy ==> s.jobs[t] == IDLE)
    && (forall q :: 0 <= q < |s.subs| && q != busy ==>
          s.subs[q].inFlight.None? && s.subs[q].unfinished == |s.subs[q].queue|)
  }

  ghost predicate Calm(c: Config, s: State) { CalmBut(c, s, |s.jobs|) }

  /** Worker q empties its queue; a join waiting for it is woken. */
  lemma {:induction false} Drain(c: Config, pol: Policy, s: State, q: nat, busy: nat) returns (r: State)
    requires CalmBut(c, s, busy) && q < |s.subs| && q != busy && s.subs[q].queue != []
    ensures CalmBut(c, r, busy) && Reach(c, pol, s, r) && r.jobs == s.jobs
    ensures r.subs == s.subs[q := r.subs[q]] && r.subs[q].queue == []
    ensures r.flush == if s.flush == Wait(q, false) then Wait(q, true) else s.flush
    decreases |s.subs[q].queue|
  {
    var taken := Next(c, s, Get(q, []));
    assert taken.jobs == s.jobs;
    var n := Next(c, taken, Done(q));
    assert n.subs == s.subs[q := n.subs[q]];
    if n.subs[q].queue == [] {
      r := n;
      ReachSame(c, pol, r);
    } else {
      r := Drain(c, pol, n, q, busy);
    }
    ReachStep(c, pol, taken, Done(q), r);
    ReachStep(c, pol, s, Get(q, []), r);
  }

  /** Every worker but `keep` empties its queue; `busy` is nobody or `keep` itself. */
  lemma {:induction false} DrainOthers(c: Config, pol: Policy, s: State, k: nat, keep: nat, busy: nat) returns (r: State)
    requires CalmBut(c, s, busy) && k <= |s.subs| && keep < |s.subs| && s.flush.Off?
    requires busy == keep || busy == |s.jobs|
    requires forall q :: 0 <= q < k && q != keep ==> s.subs[q].queue == []
    ensures CalmBut(c, r, busy) && Reach(c, pol, s, r) && r.flush.Off? && r.jobs == s.jobs
    ensures r.subs[keep] == s.subs[keep]
    ensures forall q :: 0 <= q < |r.subs| && q != keep ==> r.subs[q].queue == []
    decreases |s.subs| - k
  {
    if k == |s.subs| {
      r := s;
      ReachSame(c, pol, s);
    } else if k == keep || s.subs[k].queue == [] {
      r := DrainOthers(c, pol, s, k + 1, keep, busy);
    } else {
      var m := Drain(c, pol, s, k, busy);
      r := DrainOthers(c, pol, m, k + 1, keep, busy);
      Chain(c, pol, s, m, r);
    }
  }

  /** The joins of empty queues return at once. */
  lemma {:induction false} Walk(c: Config, pol: Policy, s: State, p: nat, i: nat)
    requires Calm(c, s) && s.flush == At(p) && p <= i <= |s.subs|
    requires forall q :: p <= q < i ==> s.subs[q].queue == []
    ensures Reach(c, pol, s, State(s.subs, s.jobs, At(i)))
    decreases i - p
  {
    var r := State(s.subs, s.jobs, At(i));
    if p == i {
      ReachSame(c, pol, s);
    } else {
      Walk(c, pol, Next(c, s, FlushStep), p + 1, i);
      ReachStep(c, pol, s, FlushStep, r);
    }
  }

  /** From queue p on, flush drains what is there and returns; queues it has passed stay as they are. */
  lemma {:induction false} FlushThrough(c: Config, pol: Policy, s: State, p: nat, busy: nat) returns (r: State)
    requires CalmBut(c, s, busy) && busy < p && s.flush == At(p) && p <= |s.subs|
    ensures Shape(c, r) && Reach(c, pol, s, r) && r.flush.Returned?
    ensures forall q :: 0 <= q < p ==> r.subs[q] == s.subs[q]
    decreases |s.subs| - p
  {
    var n := Next(c, s, FlushStep);
    if p == |s.subs| {
      r := n;
      ReachSame(c, pol, r);
    } else if s.subs[p].queue == [] {
      r := FlushThrough(c, pol, n, p + 1, busy);
    } else {
      r := FinishWait(c, pol, n, p, busy);
    }
    ReachStep(c, pol, s, FlushStep, r);
  }

  lemma {:induction false} FinishWait(c: Config, pol: Policy, s: State, p: nat, busy: nat) returns (r: State)
    requires CalmBut(c, s, busy) && busy < p < |s.subs| && s.flush == Wait(p, s.subs[p].queue == [])
    ensures Shape(c, r) && Reach(c, pol, s, r) && r.flush.Returned?
    ensures forall q :: 0 <= q < p ==> r.subs[q] == s.subs[q]
    decreases |s.subs| - p, 0
  {
    var m := s;
    ReachSame(c, pol, s);
    if s.subs[p].queue != [] {
      m := Drain(c, pol, s, p, busy);
    }
    r := FlushThrough(c, pol, Next(c, m, FlushStep), p + 1, busy);
    ReachStep(c, pol, m, FlushStep, r);
    Chain(c, pol, s, m, r);
  }

  function EventFor(sc: SubConfig): (e: Event)
    ensures Matches(sc, e)
  {
    Event(0, sc.eventType, if sc.symbol.Some? then sc.symbol.value else 0)
  }

  /** An external caller publishes an event for subscription i. */
  lemma SubmitOne(c: Config, pol: Policy, s: State, i: nat, busy: nat) returns (r: State)
    requires CalmBut(c, s, busy) && s.flush.Off? && c.running && 0 < c.externals && i < |c.subs|
    requires busy == i || busy == |s.jobs|
    requires forall q :: 0 <= q < |c.subs| ==> !Full(c.subs[q], s.subs[q])
    ensures CalmBut(c, r, busy) && Reach(c, pol, s, r) && r.flush.Off? && r.jobs == s.jobs
    ensures r.subs[i] == Put(s.subs[i], EventFor(c.subs[i]))
  {
    var t, e := |c.subs|, EventFor(c.subs[i]);
    var n := Next(c, s, Submit(t, e));
    r := State(Published(c.subs, s.subs, e, 0), s.jobs, Off);
    assert n.jobs[t := IDLE] == s.jobs;
    PublishAll(c, pol, n, t, e, 0);
    ReachStep(c, pol, s, Submit(t, e), r);
  }

  /** An event for subscription i is published and everyone else handles it;
      flush comes to queue i and suspends. */
  lemma FlushMeetsWork(c: Config, pol: Policy, i: nat) returns (r: State)
    requires c.running && 0 < c.externals && i < |c.subs|
    ensures Calm(c, r) && Reach(c, pol, Init(c), r) && r.flush == Wait(i, false)
    ensures |r.subs[i].queue| == 1
    ensures forall q :: 0 <= q < |r.subs| && q != i ==> r.subs[q].queue == []
  {
    var s2 := SubmitOne(c, pol, Init(c), i, |Init(c).jobs|);
    var s3 := DrainOthers(c, pol, s2, 0, i, |s2.jobs|);
    r := FlushTo(c, pol, s3, i);
    Chain(c, pol, Init(c), s2, s3);
    Chain(c, pol, Init(c), s3, r);
  }

  lemma FlushTo(c: Config, pol: Policy, s: State, i: nat) returns (r: State)
    requires Calm(c, s) && s.flush.Off? && i < |s.subs| && |s.subs[i].queue| == 1
    requires forall q :: 0 <= q < |s.subs| && q != i ==> s.subs[q].queue == []
    ensures Calm(c, r) && Reach(c, pol, s, r) && r.flush == Wait(i, false) && r.subs == s.subs
  {
    var s4 := Next(c, s, FlushStart);
    var s5 := State(s4.subs, s4.jobs, At(i));
    Walk(c, pol, s4, 0, i);
    ReachStep(c, pol, s, FlushStart, s5);
    r := Next(c, s5, FlushStep);
    ReachSame(c, pol, r);
    ReachStep(c, pol, s5, FlushStep, r);
    Chain(c, pol, s, s5, r);
  }

  /** Handler i takes the only event there is and publishes f. */
  lemma HandlerPublishes(c: Config, pol: Policy, s: State, i: nat, f: Event) returns (r: State)
    requires Calm(c, s) && c.running && i < |c.subs| && (i, f) in pol
    requires |s.subs[i].queue| == 1
    requires forall q :: 0 <= q < |s.subs| && q != i ==> s.subs[q].queue == []
    ensures Shape(c, r) && Reach(c, pol, s, r) && r.jobs == s.jobs && r.flush == s.flush
    ensures r.subs == Published(c.subs, s.subs[i := Take(s.subs[i])], f, 0)
  {
    var s1 := Next(c, s, Get(i, [f]));
    r := State(Published(c.subs, s1.subs, f, 0), s1.jobs[i := IDLE], s1.flush);
    PublishAll(c, pol, s1, i, f, 0);
    ReachStep(c, pol, s, Get(i, [f]), r);
  }

  /** The state after task_done, with the handled event gone and f delivered. */
  lemma DoneState(c: Config, s: State, i: nat, f: Event, m: State)
    requires Calm(c, s) && i < |c.subs| && s.flush == Wait(i, false) && |s.subs[i].queue| == 1
    requires forall q :: 0 <= q < |s.subs| && q != i ==> s.subs[q].queue == []
    requires Shape(c, m) && m.jobs == s.jobs && m.flush == s.flush
    requires m.subs == Published(c.subs, s.subs[i := Take(s.subs[i])], f, 0)
    ensures Enabled(c, m, Done(i))
    ensures var r := Next(c, m, Done(i));
            && Calm(c, r) && r.flush == Wait(i, r.subs[i].queue == [])
            && forall q :: 0 <= q < |r.subs| ==> r.subs[q].queue == if Matches(c.subs[q], f) then [f] else []
  {
    var taken := s.subs[i := Take(s.subs[i])];
    assert forall q :: 0 <= q < |taken| ==> taken[q].queue == [];
    hide Matches;
  }

  /** The join is woken unless the handler has published to its own queue. */
  lemma HandlerDone(c: Config, pol: Policy, s: State, i: nat, f: Event) returns (r: State)
    requires Calm(c, s) && c.running && i < |c.subs| && (i, f) in pol && s.flush == Wait(i, false)
    requires |s.subs[i].queue| == 1
    requires forall q :: 0 <= q < |s.subs| && q != i ==> s.subs[q].queue == []
    ensures Calm(c, r) && Reach(c, pol, s, r) && r.flush == Wait(i, r.subs[i].queue == [])
    ensures forall q :: 0 <= q < |r.subs| ==> r.subs[q].queue == if Matches(c.subs[q], f) then [f] else []
  {
    var m := HandlerPublishes(c, pol, s, i, f);
    DoneState(c, s, i, f, m);
    hide Calm, Enabled, Next, Published, Take, Reach, Matches;
    r := Next(c, m, Done(i));
    ReachSame(c, pol, r);
    ReachStep(c, pol, m, Done(i), r);
    Chain(c, pol, s, m, r);
  }

  /** Worker j, which waited for an event longer than flush has been awake, takes f. */
  lemma TakeFirst(c: Config, pol: Policy, s: State, j: nat, f: Event) returns (r: State)
    requires Calm(c, s) && j < |s.subs| && s.subs[j].queue == [f]
    ensures CalmBut(c, r, j) && Reach(c, pol, s, r) && r.flush == s.flush
    ensures r.subs[j].inFlight == Some(f)
    ensures forall q :: 0 <= q < |r.subs| && q != j ==> r.subs[q] == s.subs[q]
  {
    r := Next(c, s, Get(j, []));
    ReachSame(c, pol, r);
    ReachStep(c, pol, s, Get(j, []), r);
  }

  /** Handler i publishes f to an earlier queue j, worker j takes it and its handler
      suspends, and flush returns without looking back. */
  lemma BackwardRun(c: Config, pol: Policy, i: nat, f: Event, j: nat) returns (r: State)
    requires c.running && 0 < c.externals && j < i < |c.subs|
    requires (i, f) in pol && Matches(c.subs[j], f)
    ensures Shape(c, r) && Reach(c, pol, Init(c), r) && r.flush.Returned? && r.subs[j].inFlight == Some(f)
  {
    var s0 := FlushMeetsWork(c, pol, i);
    var s1 := HandlerDone(c, pol, s0, i, f);
    var s2 := TakeFirst(c, pol, s1, j, f);
    r := FinishWait(c, pol, s2, i, j);
    hide Reach, Matches;
    Chain(c, pol, s1, s2, r);
    Chain(c, pol, s0, s1, r);
    Chain(c, pol, Init(c), s0, r);
  }

  /**
   * flush drains every subscriber queue, on every interleaving, exactly when no
   * handler publishes to an earlier subscription.  (A handler may publish to
   * its own: the join of its queue then waits for the whole chain.)
   */
  lemma FlushDrainsExactlyWhenNoBackward(c: Config, pol: Policy)
    requires 0 < c.externals
    ensures FlushDrains(c, pol) <==> NoBackward(c, pol)
  {
    if NoBackward(c, pol) {
      ForwardDrains(c, pol);
    } else {
      var i, e, j :| 0 <= i < |c.subs| && (i, e) in pol && 0 <= j < |c.subs| && Matches(c.subs[j], e) && j < i;
      var r := BackwardRun(c, pol, i, e, j);
      var acts :| Valid(c, Init(c), acts) && Disciplined(c, pol, Init(c), acts) && Exec(c, Init(c), acts) == r;
      assert !Quiet(r.subs[j]);
    }
  }
}

/**
 * Who receives what.  Over any run, suspended puts and full queues included,
 * each publish puts its event into exactly the matching subscriptions, once
 * and in subscription order, and a handler's publishes happen one after another.
 */
module EventBusDelivery {
  import opened Wrappers
  import opened EventBus

  // ---- What a publish should do ---------------------------------------------------------------

  /** The deliveries of one event to the subscriptions from k on. */
  ghost function FanOut(scs: seq<SubConfig>, e: Event, k: nat): seq<(nat, Event)>
    decreases |scs| - k
  {
    if |scs| <= k then []
    else
      (if scs[k].eventType == e.eventType && (scs[k].symbol == None || scs[k].symbol == Some(e.symbol))
       then [(k, e)] else [])
      + FanOut(scs, e, k + 1)
  }

  /** The deliveries of a list of events; a bus that is off makes none. */
  ghost function FanOutAll(c: Config, script: seq<Event>): seq<(nat, Event)> {
    if script == [] || !c.running then []
    else FanOut(c.subs, script[0], 0) + FanOutAll(c, script[1..])
  }

  /** What an action asks task t to publish. */
  ghost function Asked(a: Action, t: nat): seq<Event> {
    match a
    case Submit(u, e) => if u == t then [e] else []
    case Get(i, script) => if i == t then script else []
    case _ => []
  }

  ghost function Requested(c: Config, acts: seq<Action>, t: nat): seq<(nat, Event)> {
    if acts == [] then [] else FanOutAll(c, Asked(acts[0], t)) + Requested(c, acts[1..], t)
  }

  // ---- What it does -------------------------------------------------------------------------------

  /** Steps of task t's publish. */
  ghost predicate ByTask(a: Action, t: nat) {
    a == Finish(t) || a == Skip(t) || a == Try(t) || a == Wake(t)
  }

  /** The subscriptions from k on whose accepted list has grown, with its new last event. */
  ghost function Gains(before: seq<Sub>, after: seq<Sub>, k: nat): seq<(nat, Event)>
    requires |before| == |after|
    decreases |before| - k
  {
    if |before| <= k then []
    else
      (if |before[k].accepted| < |after[k].accepted| then [(k, after[k].accepted[|after[k].accepted| - 1])] else [])
      + Gains(before, after, k + 1)
  }

  /** What task t has put into queues over the run, in order. */
  ghost function Delivered(c: Config, s: State, acts: seq<Action>, t: nat): seq<(nat, Event)>
    requires Shape(c, s) && Valid(c, s, acts)
    decreases |acts|
  {
    if acts == [] then []
    else
      var r := Next(c, s, acts[0]);
      (if ByTask(acts[0], t) then Gains(s.subs, r.subs, 0) else []) + Delivered(c, r, acts[1..], t)
  }

  /** What a task still has to deliver. */
  ghost function Outstanding(c: Config, j: Job): seq<(nat, Event)> {
    if j.todo == [] || !c.running then []
    else FanOut(c.subs, j.todo[0], j.cursor) + FanOutAll(c, j.todo[1..])
  }

  // ---- One step -------------------------------------------------------------------------------------

  lemma {:induction false} NoGains(before: seq<Sub>, after: seq<Sub>, k: nat)
    requires |before| == |after| && forall q :: k <= q < |before| ==> after[q].accepted == before[q].accepted
    ensures Gains(before, after, k) == []
    decreases |before| - k
  {
    if k < |before| {
      NoGains(before, after, k + 1);
    }
  }

  lemma {:induction false} OneGain(before: seq<Sub>, after: seq<Sub>, k: nat, i: nat, e: Event)
    requires |before| == |after| && k <= i < |before| && after[i].accepted == before[i].accepted + [e]
    requires forall q :: k <= q < |before| && q != i ==> after[q].accepted == before[q].accepted
    ensures Gains(before, after, k) == [(i, e)]
    decreases |before| - k
  {
    if k == i {
      NoGains(before, after, k + 1);
    } else {
      OneGain(before, after, k + 1, i, e);
    }
  }

  /** An offer either appends the event or suspends and appends nothing. */
  lemma OfferAppends(sc: SubConfig, s: Sub, e: Event)
    ensures var (r, blocked) := Offer(sc, s, e);
            r.accepted == if blocked then s.accepted else s.accepted + [e]
  {
  }

  lemma TryDelivers(c: Config, s: State, t: nat)
    requires Shape(c, s) && Enabled(c, s, Try(t))
    ensures var r := TryNext(c, s, t);
            Outstanding(c, s.jobs[t]) == Gains(s.subs, r.subs, 0) + Outstanding(c, r.jobs[t])
  {
    hide FanOutAll;
    var j, r := s.jobs[t], TryNext(c, s, t);
    var i := j.cursor;
    OfferAppends(c.subs[i], s.subs[i], j.todo[0]);
    if r.jobs[t].waiting {
      NoGains(s.subs, r.subs, 0);
    } else {
      OneGain(s.subs, r.subs, 0, i, j.todo[0]);
    }
  }

  lemma WakeDelivers(c: Config, s: State, t: nat)
    requires Shape(c, s) && Enabled(c, s, Wake(t))
    ensures var r := Next(c, s, Wake(t));
            Outstanding(c, s.jobs[t]) == Gains(s.subs, r.subs, 0) + Outstanding(c, r.jobs[t])
  {
    hide FanOutAll;
    var j, r := s.jobs[t], Next(c, s, Wake(t));
    OneGain(s.subs, r.subs, 0, j.cursor, j.todo[0]);
  }

  lemma MovesOnly(c: Config, s: State, t: nat, a: Action)
    requires Shape(c, s) && (a == Finish(t) || a == Skip(t)) && Enabled(c, s, a)
    ensures var r := Next(c, s, a);
            && Gains(s.subs, r.subs, 0) == []
            && Outstanding(c, r.jobs[t]) == Outstanding(c, s.jobs[t])
  {
    NoGains(s.subs, s.subs, 0);
    var j := s.jobs[t];
    if a == Finish(t) && c.running {
      assert FanOut(c.subs, j.todo[0], j.cursor) == [];
    }
  }

  lemma AskedIsOutstanding(c: Config, script: seq<Event>)
    ensures Outstanding(c, Job(script, 0, false)) == FanOutAll(c, script)
  {
  }

  /** The action gives task t something new to publish. */
  ghost predicate Asks(a: Action, t: nat) {
    (a.Submit? && a.t == t) || (a.Get? && a.i == t)
  }

  lemma AsksIdle(c: Config, s: State, a: Action, t: nat)
    requires Inv(c, s) && Enabled(c, s, a) && t < |s.jobs| && Asks(a, t)
    ensures s.jobs[t].todo == [] && Next(c, s, a).jobs[t] == Job(Asked(a, t), 0, false)
  {
    hide SubsInv, JobInv, FlushInv;
    assert a.Get? ==> Paired(s.subs[t], s.jobs[t]);
  }

  lemma OthersStay(c: Config, s: State, a: Action, t: nat)
    requires Shape(c, s) && Enabled(c, s, a) && t < |s.jobs| && !Asks(a, t) && !ByTask(a, t)
    ensures Next(c, s, a).jobs[t] == s.jobs[t] && Asked(a, t) == []
  {
  }

  lemma TaskDelivers(c: Config, s: State, a: Action, t: nat)
    requires Shape(c, s) && Enabled(c, s, a) && t < |s.jobs| && ByTask(a, t)
    ensures var r := Next(c, s, a);
            Outstanding(c, s.jobs[t]) == Gains(s.subs, r.subs, 0) + Outstanding(c, r.jobs[t]) && Asked(a, t) == []
  {
    hide FanOut, FanOutAll, Gains, Matches, Outstanding;
    match a
    case Try(_) => TryDelivers(c, s, t);
    case Wake(_) => WakeDelivers(c, s, t);
    case _ => MovesOnly(c, s, t, a);
  }

  /** A step moves deliveries of task t from outstanding to made, or asks for new ones. */
  lemma StepDelivers(c: Config, s: State, a: Action, t: nat)
    requires Inv(c, s) && Enabled(c, s, a) && t < |s.jobs|
    ensures var r := Next(c, s, a);
            Outstanding(c, s.jobs[t]) + FanOutAll(c, Asked(a, t))
            == (if ByTask(a, t) then Gains(s.subs, r.subs, 0) else []) + Outstanding(c, r.jobs[t])
  {
    hide FanOut, Gains, SubsInv, JobInv, Paired, FlushInv, Next, Enabled;
    if ByTask(a, t) {
      TaskDelivers(c, s, a, t);
    } else if Asks(a, t) {
      AsksIdle(c, s, a, t);
      AskedIsOutstanding(c, Asked(a, t));
    } else {
      OthersStay(c, s, a, t);
    }
  }

  /** Accepted lists change in no other way. */
  lemma OnlyTasksDeliver(c: Config, s: State, a: Action, q: nat)
    requires Shape(c, s) && Enabled(c, s, a) && q < |s.subs|
    ensures var before, after := s.subs[q].accepted, Next(c, s, a).subs[q].accepted;
            || after == before
            || (exists t: nat :: ByTask(a, t) && t < |s.jobs| && s.jobs[t].todo != [] && after == before + [s.jobs[t].todo[0]])
  {
    match a
    case Try(t) =>
      assert ByTask(a, t);
      OfferAppends(c.subs[s.jobs[t].cursor], s.subs[s.jobs[t].cursor], s.jobs[t].todo[0]);
    case Wake(t) => assert ByTask(a, t);
    case _ =>
  }

  // ---- Whole runs -----------------------------------------------------------------------------------

  /** Nothing asked for is lost, repeated, reordered or sent elsewhere, wherever a put suspends. */
  lemma {:induction false} RunDelivers(c: Config, s: State, acts: seq<Action>, t: nat)
    requires Inv(c, s) && Valid(c, s, acts) && t < |s.jobs|
    ensures Outstanding(c, s.jobs[t]) + Requested(c, acts, t)
            == Delivered(c, s, acts, t) + Outstanding(c, Exec(c, s, acts).jobs[t])
    decreases |acts|
  {
    hide SubsInv, JobInv, Paired, FlushInv, Next, Enabled, Outstanding, FanOutAll, Asked, Gains, ByTask;
    if acts != [] {
      var a, r := acts[0], Next(c, s, acts[0]);
      NextKeeps(c, s, a);
      StepDelivers(c, s, a, t);
      RunDelivers(c, r, acts[1..], t);
      Joined(Outstanding(c, s.jobs[t]), FanOutAll(c, Asked(a, t)), if ByTask(a, t) then Gains(s.subs, r.subs, 0) else [],
             Outstanding(c, r.jobs[t]), Requested(c, acts[1..], t), Delivered(c, r, acts[1..], t),
             Outstanding(c, Exec(c, r, acts[1..]).jobs[t]));
    }
  }

  lemma Joined<T>(had: seq<T>, asked: seq<T>, made: seq<T>, left: seq<T>, later: seq<T>, more: seq<T>, end: seq<T>)
    requires had + asked == made + left && left + later == more + end
    ensures had + (asked + later) == (made + more) + end
  {
    assert had + (asked + later) == (had + asked) + later;
    assert (made + left) + later == made + (left + later);
    assert made + (more + end) == (made + more) + end;
  }

  /**
   * From the start of the bus, what a task has delivered is what it was asked
   * to deliver, up to what it still has to; all of it once it is idle.
   */
  lemma PublishReachesEveryMatch(c: Config, acts: seq<Action>, t: nat)
    requires Valid(c, Init(c), acts) && t < |c.subs| + c.externals
    ensures var s := Exec(c, Init(c), acts);
            && Requested(c, acts, t) == Delivered(c, Init(c), acts, t) + Outstanding(c, s.jobs[t])
            && (s.jobs[t].todo == [] ==> Delivered(c, Init(c), acts, t) == Requested(c, acts, t))
  {
    hide Inv, Valid, Outstanding, FanOutAll, Delivered, Requested, Init;
    InitInv(c);
    IdleAtFirst(c, t);
    RunDelivers(c, Init(c), acts, t);
    NothingLeft(c, Exec(c, Init(c), acts).jobs[t]);
    assert [] + Requested(c, acts, t) == Requested(c, acts, t);
  }

  lemma IdleAtFirst(c: Config, t: nat)
    requires t < |c.subs| + c.externals
    ensures Shape(c, Init(c)) && t < |Init(c).jobs| && Outstanding(c, Init(c).jobs[t]) == []
  {
  }

  lemma NothingLeft(c: Config, j: Job)
    ensures j.todo == [] ==> Outstanding(c, j) == []
  {
  }

  // ---- The two counters ------------------------------------------------------------------------------

  /** How often a publisher found queue q full. */
  ghost function FoundFull(c: Config, s: State, acts: seq<Action>, q: nat): nat
    requires Shape(c, s) && Valid(c, s, acts) && q < |s.subs|
    decreases |acts|
  {
    if acts == [] then 0
    else
      (if acts[0].Try? && s.jobs[acts[0].t].cursor == q && 0 < c.subs[q].maxsize <= |s.subs[q].queue| then 1 else 0)
      + FoundFull(c, Next(c, s, acts[0]), acts[1..], q)
  }

  /** full_count is that number, and drop_count as well where full queues are evicted from. */
  lemma {:induction false} CountersAreExact(c: Config, s: State, acts: seq<Action>, q: nat)
    requires Shape(c, s) && Valid(c, s, acts) && q < |s.subs|
    ensures var r, n := Exec(c, s, acts).subs[q], FoundFull(c, s, acts, q);
            && r.fullCount == s.subs[q].fullCount + n
            && r.dropCount == s.subs[q].dropCount + if c.subs[q].dropIfFull then n else 0
    decreases |acts|
  {
    if acts != [] {
      StepCounts(c, s, acts[0], q);
      hide Next;
      CountersAreExact(c, Next(c, s, acts[0]), acts[1..], q);
    }
  }

  lemma StepCounts(c: Config, s: State, a: Action, q: nat)
    requires Shape(c, s) && Enabled(c, s, a) && q < |s.subs|
    ensures var before, after := s.subs[q], Next(c, s, a).subs[q];
            var n := if a.Try? && s.jobs[a.t].cursor == q && 0 < c.subs[q].maxsize <= |before.queue| then 1 else 0;
            && after.fullCount == before.fullCount + n
            && after.dropCount == before.dropCount + if c.subs[q].dropIfFull then n else 0
  {
  }

  // ---- When a join wakes -----------------------------------------------------------------------------

  /** A waiting join is woken by exactly the task_done, after a handler or for an evicted
      event, that leaves nothing unfinished in its queue. */
  lemma JoinWakesExactly(c: Config, s: State, a: Action, p: nat)
    requires Shape(c, s) && Enabled(c, s, a) && p < |s.subs| && s.flush == Wait(p, false)
    ensures var before, after := s.subs[p], Next(c, s, a).subs[p];
            var finished := |after.handled| + |after.evicted| - |before.handled| - |before.evicted|;
            && 0 <= finished <= 1
            && Next(c, s, a).flush == Wait(p, finished == 1 && before.unfinished == 1)
  {
  }
}

/**
 * The event bus of src/alpha/core/event_bus.py as a step system.
 *
 * Every await of the source is a yield point: a publisher moving to its next
 * subscriber, a blocked put, a worker taking an event, a handler publishing,
 * task_done, and flush moving to its next join.  Subscriptions are listed in
 * the order flush visits them and stay fixed during a run.
 */
module EventBus {
  import opened Wrappers

  // ---- Data -----------------------------------------------------------------

  datatype Event = Event(id: nat, eventType: nat, symbol: nat)

  /** `symbol` None receives every symbol; `maxsize` 0 is asyncio's unbounded queue. */
  datatype SubConfig = SubConfig(eventType: nat, symbol: Option<nat>, maxsize: nat, dropIfFull: bool)

  /** `externals` callers outside the handlers may publish; `running` is the bus flag. */
  datatype Config = Config(subs: seq<SubConfig>, externals: nat, running: bool)

  /**
   * One subscription: its queue and asyncio's unfinished-task counter, the
   * event its worker is handling, the two counters of the source, and the
   * history of accepted, evicted and handled events.
   */
  datatype Sub = Sub(queue: seq<Event>, unfinished: int, inFlight: Option<Event>,
                     fullCount: nat, dropCount: nat,
                     accepted: seq<Event>, evicted: seq<Event>, handled: seq<Event>)

  /** A task that publishes `todo` in order; `cursor` is the next target of the
      first one and `waiting` says that it is suspended in `put` there. */
  datatype Job = Job(todo: seq<Event>, cursor: nat, waiting: bool)

  /** `Wait(p, woken)`: suspended in the join of queue p; once woken it resumes
      without looking at the queue again, as asyncio's Event.wait does. */
  datatype Flush = Off | At(p: nat) | Wait(p: nat, woken: bool) | Returned

  /** Jobs below |subs| are the handlers of the workers, the others external callers. */
  datatype State = State(subs: seq<Sub>, jobs: seq<Job>, flush: Flush)

  datatype Action =
    | Submit(t: nat, e: Event)          // an external caller calls publish
    | Finish(t: nat)                    // publish has visited every target (or the bus is off)
    | Skip(t: nat)                      // the next subscription does not match
    | Try(t: nat)                       // offer the event to the next target
    | Wake(t: nat)                      // a suspended put finds room
    | Get(i: nat, script: seq<Event>)   // worker i takes an event; its handler will publish script
    | Done(i: nat)                      // worker i's handler is over: task_done
    | FlushStart
    | FlushStep
    | Resume                            // the caller of flush goes on

  const IDLE := Job([], 0, false)

  function EmptySub(): Sub { Sub([], 0, None, 0, 0, [], [], []) }

  function Init(c: Config): State {
    State(seq(|c.subs|, i => EmptySub()), seq(|c.subs| + c.externals, t => IDLE), Off)
  }

  // ---- One subscription -------------------------------------------------------

  predicate Matches(sc: SubConfig, e: Event) {
    sc.eventType == e.eventType && (sc.symbol.None? || sc.symbol.value == e.symbol)
  }

  predicate Full(sc: SubConfig, s: Sub) { 0 < sc.maxsize <= |s.queue| }

  function Put(s: Sub, e: Event): Sub {
    s.(queue := s.queue + [e], unfinished := s.unfinished + 1, accepted := s.accepted + [e])
  }

  function Evict(s: Sub): Sub
    requires s.queue != []
  {
    s.(queue := s.queue[1..], unfinished := s.unfinished - 1,
       dropCount := s.dropCount + 1, evicted := s.evicted + [s.queue[0]])
  }

  /** One round of the loop of publish; the flag says that put suspends. */
  function Offer(sc: SubConfig, s: Sub, e: Event): (Sub, bool) {
    if !Full(sc, s) then (Put(s, e), false)
    else
      var counted := s.(fullCount := s.fullCount + 1);
      if sc.dropIfFull then (Put(Evict(counted), e), false) else (counted, true)
  }

  function Take(s: Sub): Sub
    requires s.queue != []
  {
    s.(queue := s.queue[1..], inFlight := Some(s.queue[0]))
  }

  function TaskDone(s: Sub): Sub
    requires s.inFlight.Some?
  {
    s.(inFlight := None, unfinished := s.unfinished - 1, handled := s.handled + [s.inFlight.value])
  }

  // ---- Steps --------------------------------------------------------------------

  ghost predicate Shape(c: Config, s: State) {
    && |s.subs| == |c.subs|
    && |s.jobs| == |c.subs| + c.externals
  }

  /** The task is about to try subscription `cursor`, which wants its event. */
  ghost predicate AtTarget(c: Config, j: Job) {
    && j.todo != [] && c.running && j.cursor < |c.subs|
    && Matches(c.subs[j.cursor], j.todo[0])
  }

  ghost predicate Enabled(c: Config, s: State, a: Action)
    requires Shape(c, s)
  {
    match a
    case Submit(t, _) => |c.subs| <= t < |s.jobs| && s.jobs[t].todo == []
    case Finish(t) =>
      && t < |s.jobs| && s.jobs[t].todo != []
      && (!c.running || |c.subs| <= s.jobs[t].cursor)
    case Skip(t) =>
      && t < |s.jobs| && s.jobs[t].todo != []
      && c.running && s.jobs[t].cursor < |c.subs|
      && !Matches(c.subs[s.jobs[t].cursor], s.jobs[t].todo[0])
    case Try(t) => t < |s.jobs| && AtTarget(c, s.jobs[t]) && !s.jobs[t].waiting
    case Wake(t) =>
      && t < |s.jobs| && AtTarget(c, s.jobs[t]) && s.jobs[t].waiting
      && !Full(c.subs[s.jobs[t].cursor], s.subs[s.jobs[t].cursor])
    case Get(i, _) => i < |s.subs| && s.subs[i].inFlight.None? && s.subs[i].queue != []
    case Done(i) => i < |s.subs| && s.subs[i].inFlight.Some? && s.jobs[i].todo == []
    case FlushStart => s.flush.Off?
    case FlushStep =>
      || (s.flush.At? && s.flush.p <= |s.subs|)
      || (s.flush.Wait? && s.flush.woken)
    case Resume => s.flush.Returned?
  }

  /** A join waiting on queue p wakes up when p's unfinished counter touches zero. */
  ghost function Notify(f: Flush, p: nat, unfinished: int): Flush {
    if f.Wait? && f.p == p && unfinished == 0 then Wait(p, true) else f
  }

  ghost function TryNext(c: Config, s: State, t: nat): State
    requires Shape(c, s) && Enabled(c, s, Try(t))
  {
    var j := s.jobs[t];
    var sc, sub := c.subs[j.cursor], s.subs[j.cursor];
    var (offered, blocked) := Offer(sc, sub, j.todo[0]);
    State(s.subs[j.cursor := offered],
          s.jobs[t := if blocked then Job(j.todo, j.cursor, true) else Job(j.todo, j.cursor + 1, false)],
          if Full(sc, sub) && !blocked then Notify(s.flush, j.cursor, sub.unfinished - 1) else s.flush)
  }

  ghost function FlushNext(s: State): Flush
    requires (s.flush.At? && s.flush.p <= |s.subs|) || (s.flush.Wait? && s.flush.woken)
  {
    if s.flush.Wait? then At(s.flush.p + 1)
    else if s.flush.p == |s.subs| then Returned
    else if s.subs[s.flush.p].unfinished > 0 then Wait(s.flush.p, false)
    else At(s.flush.p + 1)
  }

  ghost function Next(c: Config, s: State, a: Action): (r: State)
    requires Shape(c, s) && Enabled(c, s, a)
    ensures Shape(c, r)
  {
    match a
    case Submit(t, e) => State(s.subs, s.jobs[t := Job([e], 0, false)], s.flush)
    case Finish(t) => State(s.subs, s.jobs[t := Job(s.jobs[t].todo[1..], 0, false)], s.flush)
    case Skip(t) =>
      State(s.subs, s.jobs[t := Job(s.jobs[t].todo, s.jobs[t].cursor + 1, s.jobs[t].waiting)], s.flush)
    case Try(t) => TryNext(c, s, t)
    case Wake(t) =>
      var j := s.jobs[t];
      State(s.subs[j.cursor := Put(s.subs[j.cursor], j.todo[0])],
            s.jobs[t := Job(j.todo, j.cursor + 1, false)], s.flush)
    case Get(i, script) =>
      State(s.subs[i := Take(s.subs[i])], s.jobs[i := Job(script, 0, false)], s.flush)
    case Done(i) =>
      State(s.subs[i := TaskDone(s.subs[i])], s.jobs, Notify(s.flush, i, s.subs[i].unfinished - 1))
    case FlushStart => State(s.subs, s.jobs, At(0))
    case FlushStep => State(s.subs, s.jobs, FlushNext(s))
    case Resume => State(s.subs, s.jobs, Off)
  }

  ghost predicate Valid(c: Config, s: State, acts: seq<Action>)
    requires Shape(c, s)
    decreases |acts|
  {
    acts != [] ==> Enabled(c, s, acts[0]) && Valid(c, Next(c, s, acts[0]), acts[1..])
  }

  ghost function Exec(c: Config, s: State, acts: seq<Action>): (r: State)
    requires Shape(c, s) && Valid(c, s, acts)
    ensures Shape(c, r)
    decreases |acts|
  {
    if acts == [] then s else Exec(c, Next(c, s, acts[0]), acts[1..])
  }

  // ---- Conservation and order -------------------------------------------------------

  function InFlightSeq(s: Sub): seq<Event> {
    if s.inFlight.Some? then [s.inFlight.value] else []
  }

  /** What the bus still holds or has delivered, oldest first. */
  function Kept(s: Sub): seq<Event> { s.handled + InFlightSeq(s) + s.queue }

  /** at[k] is the place in b of the k-th element of a. */
  ghost predicate Embeds<T>(at: seq<nat>, a: seq<T>, b: seq<T>) {
    && |at| == |a|
    && (forall k :: 0 <= k < |at| ==> at[k] < |b| && a[k] == b[at[k]])
    && (forall j, k :: 0 <= j < k < |at| ==> at[j] < at[k])
  }

  /** a is b with some elements left out. */
  ghost predicate Subsequence<T>(a: seq<T>, b: seq<T>) {
    exists at :: Embeds(at, a, b)
  }

  /** kept is accepted without exactly the evicted events, and has the newest. */
  ghost predicate Ledger(kept: seq<Event>, accepted: seq<Event>, evicted: seq<Event>) {
    && Subsequence(kept, accepted)
    && multiset(accepted) == multiset(kept) + multiset(evicted)
    && (accepted != [] ==> kept != [] && kept[|kept| - 1] == accepted[|accepted| - 1])
  }

  /** The counters and histories of one subscription agree. */
  ghost predicate Books(sc: SubConfig, s: Sub) {
    && s.unfinished == |s.queue| + |InFlightSeq(s)|
    && (0 < sc.maxsize ==> |s.queue| <= sc.maxsize)
    && Ledger(Kept(s), s.accepted, s.evicted)
    && |s.evicted| == s.dropCount <= s.fullCount
    && (!sc.dropIfFull ==> Kept(s) == s.accepted && s.evicted == [])
  }

  /** The queue holds the newest accepted events. */
  ghost predicate HoldsNewest(s: Sub) {
    |s.queue| <= |s.accepted| && s.queue == s.accepted[|s.accepted| - |s.queue|..]
  }

  /** The promise of the bus to one subscription, in every state. */
  ghost predicate SubInv(sc: SubConfig, s: Sub) {
    Books(sc, s) && HoldsNewest(s)
  }

  lemma SubsequenceRemove<T>(a: seq<T>, b: seq<T>, k: nat)
    requires k < |a| && Subsequence(a, b)
    ensures Subsequence(a[..k] + a[k + 1..], b)
  {
    var at :| Embeds(at, a, b);
    assert Embeds(at[..k] + at[k + 1..], a[..k] + a[k + 1..], b);
  }

  lemma SubsequenceAppend<T>(a: seq<T>, b: seq<T>, x: T)
    requires Subsequence(a, b)
    ensures Subsequence(a + [x], b + [x])
  {
    var at: seq<nat> :| Embeds(at, a, b);
    var more: seq<nat> := at + [|b|];
    assert Embeds(more, a + [x], b + [x]);
  }

  lemma LedgerAppend(kept: seq<Event>, accepted: seq<Event>, evicted: seq<Event>, e: Event)
    requires Ledger(kept, accepted, evicted)
    ensures Ledger(kept + [e], accepted + [e], evicted)
  {
    SubsequenceAppend(kept, accepted, e);
  }

  /** Evicting the event at k: the newest may only go because a newer one arrives. */
  lemma LedgerReplace(kept: seq<Event>, accepted: seq<Event>, evicted: seq<Event>, k: nat, e: Event)
    requires Ledger(kept, accepted, evicted) && k < |kept|
    ensures Ledger(kept[..k] + kept[k + 1..] + [e], accepted + [e], evicted + [kept[k]])
  {
    var rest := kept[..k] + kept[k + 1..];
    SubsequenceRemove(kept, accepted, k);
    SubsequenceAppend(rest, accepted, e);
    assert kept == kept[..k] + [kept[k]] + kept[k + 1..];
    assert multiset(kept) == multiset(rest) + multiset{kept[k]};
  }

  lemma KeptMoves(s: Sub, e: Event)
    ensures Kept(Put(s, e)) == Kept(s) + [e]
    ensures s.queue != [] && s.inFlight.None? ==> Kept(Take(s)) == Kept(s)
    ensures s.inFlight.Some? ==> Kept(TaskDone(s)) == Kept(s)
  {
  }

  lemma KeptEvict(s: Sub, e: Event)
    requires s.queue != []
    ensures var k := |s.handled| + |InFlightSeq(s)|;
            && k < |Kept(s)| && Kept(s)[k] == s.queue[0]
            && Kept(Put(Evict(s), e)) == Kept(s)[..k] + Kept(s)[k + 1..] + [e]
  {
  }

  lemma PutBooks(sc: SubConfig, s: Sub, e: Event)
    requires Books(sc, s) && !Full(sc, s)
    ensures Books(sc, Put(s, e))
  {
    KeptMoves(s, e);
    LedgerAppend(Kept(s), s.accepted, s.evicted, e);
  }

  lemma EvictPutBooks(sc: SubConfig, s: Sub, e: Event)
    requires Books(sc, s) && s.queue != [] && sc.dropIfFull && s.dropCount < s.fullCount
    ensures Books(sc, Put(Evict(s), e))
  {
    KeptEvict(s, e);
    LedgerReplace(Kept(s), s.accepted, s.evicted, |s.handled| + |InFlightSeq(s)|, e);
  }

  lemma CountBooks(sc: SubConfig, s: Sub)
    requires Books(sc, s)
    ensures Books(sc, s.(fullCount := s.fullCount + 1)) && s.dropCount < s.fullCount + 1
  {
    assert Kept(s.(fullCount := s.fullCount + 1)) == Kept(s);
  }

  lemma OfferBooks(sc: SubConfig, s: Sub, e: Event)
    requires Books(sc, s)
    ensures Books(sc, Offer(sc, s, e).0)
  {
    hide Books, Kept, Put, Evict;
    if !Full(sc, s) {
      PutBooks(sc, s, e);
    } else {
      CountBooks(sc, s);
      if sc.dropIfFull {
        EvictPutBooks(sc, s.(fullCount := s.fullCount + 1), e);
      }
    }
  }

  lemma TakeBooks(sc: SubConfig, s: Sub)
    requires Books(sc, s) && s.inFlight.None? && s.queue != []
    ensures Books(sc, Take(s))
  {
    KeptMoves(s, s.queue[0]);
  }

  lemma TaskDoneBooks(sc: SubConfig, s: Sub)
    requires Books(sc, s) && s.inFlight.Some?
    ensures Books(sc, TaskDone(s))
  {
    KeptMoves(s, s.inFlight.value);
  }

  /** Events enter the queue at its tail and leave it, evicted or taken, at its head. */
  lemma NewestMoves(s: Sub, e: Event)
    requires HoldsNewest(s)
    ensures HoldsNewest(Put(s, e))
    ensures s.queue != [] ==> HoldsNewest(Put(Evict(s), e)) && HoldsNewest(Take(s))
    ensures s.inFlight.Some? ==> HoldsNewest(TaskDone(s))
  {
    var n := |s.accepted| - |s.queue|;
    assert (s.accepted + [e])[n..] == s.queue + [e];
    if s.queue != [] {
      assert s.accepted[n + 1..] == s.queue[1..];
      assert (s.accepted + [e])[n + 1..] == s.queue[1..] + [e];
    }
  }

  lemma CountNewest(s: Sub)
    requires HoldsNewest(s)
    ensures HoldsNewest(s.(fullCount := s.fullCount + 1))
  {
  }

  lemma OfferKeeps(sc: SubConfig, s: Sub, e: Event)
    requires SubInv(sc, s)
    ensures SubInv(sc, Offer(sc, s, e).0)
  {
    hide Books, HoldsNewest, Put, Evict;
    var counted := s.(fullCount := s.fullCount + 1);
    OfferBooks(sc, s, e);
    NewestMoves(s, e);
    CountNewest(s);
    NewestMoves(counted, e);
  }

  lemma TakeKeeps(sc: SubConfig, s: Sub)
    requires SubInv(sc, s) && s.inFlight.None? && s.queue != []
    ensures SubInv(sc, Take(s))
  {
    TakeBooks(sc, s);
    NewestMoves(s, s.queue[0]);
    hide Books, HoldsNewest;
  }

  lemma TaskDoneKeeps(sc: SubConfig, s: Sub)
    requires SubInv(sc, s) && s.inFlight.Some?
    ensures SubInv(sc, TaskDone(s))
  {
    TaskDoneBooks(sc, s);
    NewestMoves(s, s.inFlight.value);
    hide Books, HoldsNewest;
  }

  // ---- The invariant of every reachable state --------------------------------------------

  ghost predicate SubsInv(scs: seq<SubConfig>, subs: seq<Sub>)
    requires |scs| == |subs|
  {
    forall i :: 0 <= i < |scs| ==> SubInv(scs[i], subs[i])
  }

  lemma SubsInvUpdate(scs: seq<SubConfig>, subs: seq<Sub>, i: nat, sub: Sub)
    requires |scs| == |subs| && SubsInv(scs, subs)
    requires i < |subs| && SubInv(scs[i], sub)
    ensures SubsInv(scs, subs[i := sub])
  {
    hide SubInv;
  }

  ghost predicate JobInv(c: Config, j: Job) {
    && j.cursor <= |c.subs|
    && (j.waiting ==> AtTarget(c, j) && !c.subs[j.cursor].dropIfFull)
  }

  /** An idle worker has nothing to publish. */
  ghost predicate Paired(s: Sub, j: Job) {
    s.inFlight.None? ==> j.todo == []
  }

  ghost predicate FlushInv(subs: seq<Sub>, f: Flush) {
    match f
    case At(p) => p <= |subs|
    case Wait(p, woken) => p < |subs| && (woken || 0 < subs[p].unfinished)
    case _ => true
  }

  ghost predicate Inv(c: Config, s: State) {
    && Shape(c, s)
    && SubsInv(c.subs, s.subs)
    && (forall t :: 0 <= t < |s.jobs| ==> JobInv(c, s.jobs[t]))
    && (forall i :: 0 <= i < |s.subs| ==> Paired(s.subs[i], s.jobs[i]))
    && FlushInv(s.subs, s.flush)
  }

  lemma ReplaceJob(c: Config, s: State, t: nat, job: Job)
    requires Inv(c, s) && t < |s.jobs| && JobInv(c, job)
    requires t < |s.subs| ==> Paired(s.subs[t], job)
    ensures Inv(c, State(s.subs, s.jobs[t := job], s.flush))
  {
    hide SubsInv, JobInv, Paired, FlushInv;
  }

  lemma ReplaceSub(c: Config, s: State, i: nat, sub: Sub, f: Flush)
    requires Inv(c, s) && i < |s.subs| && SubInv(c.subs[i], sub) && Paired(sub, s.jobs[i])
    requires FlushInv(s.subs[i := sub], f)
    ensures Inv(c, State(s.subs[i := sub], s.jobs, f))
  {
    hide SubsInv, SubInv, JobInv, Paired, FlushInv;
    SubsInvUpdate(c.subs, s.subs, i, sub);
  }

  lemma EmptyInv(sc: SubConfig)
    ensures SubInv(sc, EmptySub())
  {
    assert Embeds([], Kept(EmptySub()), []);
    assert Kept(EmptySub()) == [];
  }

  lemma InitInv(c: Config)
    ensures Inv(c, Init(c))
  {
    hide SubInv;
    forall i | 0 <= i < |c.subs|
      ensures SubInv(c.subs[i], EmptySub())
    {
      EmptyInv(c.subs[i]);
    }
    assert forall i :: 0 <= i < |c.subs| ==> Init(c).subs[i] == EmptySub();
  }

  /** A job touches one subscription, which stays good and only gains work. */
  lemma Deliver(c: Config, s: State, i: nat, sub: Sub, t: nat, job: Job, f: Flush)
    requires Inv(c, s) && i < |s.subs| && t < |s.jobs|
    requires SubInv(c.subs[i], sub) && sub.inFlight == s.subs[i].inFlight
    requires JobInv(c, job) && job.todo == s.jobs[t].todo
    requires FlushInv(s.subs[i := sub], f)
    ensures Inv(c, State(s.subs[i := sub], s.jobs[t := job], f))
  {
    assert Paired(s.subs[i], s.jobs[i]);
    assert i == t ==> Paired(sub, job) && Paired(sub, s.jobs[i]);
    assert Paired(sub, s.jobs[i]);
    assert t < |s.subs| ==> Paired(s.subs[i := sub][t], job) by {
      if t < |s.subs| {
        assert Paired(s.subs[t], s.jobs[t]);
      }
    }
    hide SubsInv, SubInv, JobInv, Paired, FlushInv, Inv;
    ReplaceSub(c, s, i, sub, f);
    ReplaceJob(c, State(s.subs[i := sub], s.jobs, f), t, job);
  }

  /** Join waiters stay consistent when subscription i gains work. */
  lemma FlushInvGains(subs: seq<Sub>, i: nat, sub: Sub, f: Flush)
    requires i < |subs| && FlushInv(subs, f) && subs[i].unfinished <= sub.unfinished
    ensures FlushInv(subs[i := sub], f)
  {
  }

  lemma OfferGains(sc: SubConfig, s: Sub, e: Event)
    ensures var (r, blocked) := Offer(sc, s, e);
            && r.inFlight == s.inFlight && s.unfinished <= r.unfinished
            && (blocked ==> !sc.dropIfFull)
  {
  }

  lemma TryShape(c: Config, s: State, t: nat)
    requires Shape(c, s) && Enabled(c, s, Try(t)) && FlushInv(s.subs, s.flush)
    ensures var j, r := s.jobs[t], TryNext(c, s, t);
            && r == State(s.subs[j.cursor := Offer(c.subs[j.cursor], s.subs[j.cursor], j.todo[0]).0],
                          s.jobs[t := r.jobs[t]], r.flush)
            && JobInv(c, r.jobs[t]) && r.jobs[t].todo == j.todo
            && FlushInv(r.subs, r.flush)
  {
    var j := s.jobs[t];
    OfferGains(c.subs[j.cursor], s.subs[j.cursor], j.todo[0]);
  }

  lemma TryKeeps(c: Config, s: State, t: nat)
    requires Inv(c, s) && Enabled(c, s, Try(t))
    ensures Inv(c, TryNext(c, s, t))
  {
    var j, r := s.jobs[t], TryNext(c, s, t);
    var i := j.cursor;
    TryShape(c, s, t);
    OfferKeeps(c.subs[i], s.subs[i], j.todo[0]);
    OfferGains(c.subs[i], s.subs[i], j.todo[0]);
    Deliver(c, s, i, r.subs[i], t, r.jobs[t], r.flush);
  }

  lemma WakeKeeps(c: Config, s: State, t: nat)
    requires Inv(c, s) && Enabled(c, s, Wake(t))
    ensures Inv(c, Next(c, s, Wake(t)))
  {
    var j, r := s.jobs[t], Next(c, s, Wake(t));
    var i := j.cursor;
    // with room in the queue, waking is an offer that does not suspend
    OfferKeeps(c.subs[i], s.subs[i], j.todo[0]);
    OfferGains(c.subs[i], s.subs[i], j.todo[0]);
    FlushInvGains(s.subs, i, r.subs[i], s.flush);
    Deliver(c, s, i, r.subs[i], t, r.jobs[t], s.flush);
  }

  lemma GetKeeps(c: Config, s: State, i: nat, script: seq<Event>)
    requires Inv(c, s) && Enabled(c, s, Get(i, script))
    ensures Inv(c, Next(c, s, Get(i, script)))
  {
    hide SubsInv, SubInv, FlushInv, JobInv, AtTarget, Matches;
    var taken, job := Take(s.subs[i]), Job(script, 0, false);
    SubOf(c, s, i);
    TakeKeeps(c.subs[i], s.subs[i]);
    FlushInvGains(s.subs, i, taken, s.flush);
    FreshJob(c, script);
    ReplaceSub(c, s, i, taken, s.flush);
    ReplaceJob(c, State(s.subs[i := taken], s.jobs, s.flush), i, job);
  }

  lemma FreshJob(c: Config, script: seq<Event>)
    ensures JobInv(c, Job(script, 0, false))
  {
  }

  lemma SubOf(c: Config, s: State, i: nat)
    requires Inv(c, s) && i < |s.subs|
    ensures SubInv(c.subs[i], s.subs[i]) && FlushInv(s.subs, s.flush)
  {
    hide SubInv, FlushInv, JobInv, Paired;
  }

  /** asyncio's counter is what the queue and the worker hold. */
  lemma UnfinishedIs(c: Config, s: State, i: nat)
    requires Inv(c, s) && i < |s.subs|
    ensures s.subs[i].unfinished == |s.subs[i].queue| + |InFlightSeq(s.subs[i])|
  {
    assert SubInv(c.subs[i], s.subs[i]);
  }

  lemma DoneFlushInv(c: Config, s: State, i: nat)
    requires Inv(c, s) && Enabled(c, s, Done(i))
    ensures FlushInv(s.subs[i := TaskDone(s.subs[i])], Notify(s.flush, i, s.subs[i].unfinished - 1))
  {
    UnfinishedIs(c, s, i);
  }

  lemma DoneKeeps(c: Config, s: State, i: nat)
    requires Inv(c, s) && Enabled(c, s, Done(i))
    ensures Inv(c, Next(c, s, Done(i)))
  {
    DoneFlushInv(c, s, i);
    TaskDoneKeeps(c.subs[i], s.subs[i]);
    ReplaceSub(c, s, i, TaskDone(s.subs[i]), Notify(s.flush, i, s.subs[i].unfinished - 1));
  }

  lemma SubmitKeeps(c: Config, s: State, t: nat, e: Event)
    requires Inv(c, s) && Enabled(c, s, Submit(t, e))
    ensures Inv(c, Next(c, s, Submit(t, e)))
  {
    hide SubsInv, Paired, FlushInv;
    ReplaceJob(c, s, t, Job([e], 0, false));
  }

  lemma FinishKeeps(c: Config, s: State, t: nat)
    requires Inv(c, s) && Enabled(c, s, Finish(t))
    ensures Inv(c, Next(c, s, Finish(t)))
  {
    hide SubsInv, FlushInv;
    JobOf(c, s, t);
    ReplaceJob(c, s, t, Job(s.jobs[t].todo[1..], 0, false));
  }

  lemma SkipKeeps(c: Config, s: State, t: nat)
    requires Inv(c, s) && Enabled(c, s, Skip(t))
    ensures Inv(c, Next(c, s, Skip(t)))
  {
    hide SubsInv, JobInv, Paired, FlushInv, Matches;
    var j := s.jobs[t];
    var job := Job(j.todo, j.cursor + 1, j.waiting);
    JobOf(c, s, t);
    SkipJob(c, j);
    if t < |s.subs| {
      SameTodo(s.subs[t], j, job);
    }
    ReplaceJob(c, s, t, job);
  }

  lemma SameTodo(s: Sub, j: Job, k: Job)
    requires Paired(s, j) && j.todo == k.todo
    ensures Paired(s, k)
  {
  }

  lemma JobOf(c: Config, s: State, t: nat)
    requires Inv(c, s) && t < |s.jobs|
    ensures JobInv(c, s.jobs[t]) && (t < |s.subs| ==> Paired(s.subs[t], s.jobs[t]))
  {
    hide SubsInv, JobInv, Paired, FlushInv;
  }

  lemma SkipJob(c: Config, j: Job)
    requires JobInv(c, j) && j.todo != [] && c.running && j.cursor < |c.subs| && !Matches(c.subs[j.cursor], j.todo[0])
    ensures JobInv(c, Job(j.todo, j.cursor + 1, j.waiting))
  {
    hide Matches;
  }

  lemma FlushKeeps(c: Config, s: State, a: Action)
    requires Inv(c, s) && Enabled(c, s, a) && (a.FlushStart? || a.FlushStep? || a.Resume?)
    ensures Inv(c, Next(c, s, a))
  {
    hide SubsInv, JobInv, Paired;
  }

  lemma NextKeeps(c: Config, s: State, a: Action)
    requires Inv(c, s) && Enabled(c, s, a)
    ensures Inv(c, Next(c, s, a))
  {
    hide *;
    match a
    case Submit(t, e) => SubmitKeeps(c, s, t, e);
    case Finish(t) => FinishKeeps(c, s, t);
    case Skip(t) => SkipKeeps(c, s, t);
    case Try(t) => TryIsNext(c, s, t); TryKeeps(c, s, t);
    case Wake(t) => WakeKeeps(c, s, t);
    case Get(i, script) => GetKeeps(c, s, i, script);
    case Done(i) => DoneKeeps(c, s, i);
    case _ => FlushKeeps(c, s, a);
  }

  lemma TryIsNext(c: Config, s: State, t: nat)
    requires Inv(c, s) && Enabled(c, s, Try(t))
    ensures Next(c, s, Try(t)) == TryNext(c, s, t)
  {
    hide TryNext, SubsInv, JobInv, Paired, FlushInv;
  }

  /** The part of the invariant that does not look at the history. */
  ghost predicate Control(c: Config, s: State) {
    && Shape(c, s)
    && (forall i :: 0 <= i < |s.subs| ==>
          s.subs[i].unfinished == |s.subs[i].queue| + (if s.subs[i].inFlight.Some? then 1 else 0))
    && (forall t :: 0 <= t < |s.jobs| ==> JobInv(c, s.jobs[t]))
    && (forall i :: 0 <= i < |s.subs| ==> Paired(s.subs[i], s.jobs[i]))
    && FlushInv(s.subs, s.flush)
  }

  lemma InvControl(c: Config, s: State)
    requires Inv(c, s)
    ensures Control(c, s)
  {
    forall i | 0 <= i < |s.subs|
      ensures s.subs[i].unfinished == |s.subs[i].queue| + (if s.subs[i].inFlight.Some? then 1 else 0)
    {
      UnfinishedIs(c, s, i);
    }
  }

  lemma {:induction false} RunKeeps(c: Config, s: State, acts: seq<Action>)
    requires Inv(c, s) && Valid(c, s, acts)
    ensures Inv(c, Exec(c, s, acts))
    decreases |acts|
  {
    if acts != [] {
      NextKeeps(c, s, acts[0]);
      RunKeeps(c, Next(c, s, acts[0]), acts[1..]);
    }
  }

  /**
   * What SubInv promises: a blocking subscription has every accepted event, in
   * order, handled, in flight or queued; a dropping one is short of exactly
   * dropCount evicted events; the newest accepted event is at the tail of the
   * queue or already with the worker; task_done never outruns put.
   */
  ghost predicate Conserved(sc: SubConfig, s: Sub) {
    && (!sc.dropIfFull ==> s.accepted == s.handled + InFlightSeq(s) + s.queue && s.dropCount == 0)
    && Subsequence(s.handled + InFlightSeq(s) + s.queue, s.accepted)
    && multiset(s.accepted) == multiset(s.handled + InFlightSeq(s) + s.queue) + multiset(s.evicted)
    && |s.evicted| == s.dropCount
    && (s.accepted != [] ==>
          var newest := s.accepted[|s.accepted| - 1];
          if s.queue != [] then newest == s.queue[|s.queue| - 1]
          else if s.inFlight.Some? then newest == s.inFlight.value
          else s.handled != [] && newest == s.handled[|s.handled| - 1])
    && (0 < sc.maxsize ==> |s.queue| <= sc.maxsize)
    && 0 <= s.unfinished == |s.accepted| - |s.handled| - s.dropCount
  }

  lemma BooksConserve(sc: SubConfig, s: Sub)
    requires Books(sc, s)
    ensures Conserved(sc, s)
  {
    assert |multiset(s.accepted)| == |multiset(Kept(s))| + |multiset(s.evicted)|;
  }

  /** Every subscription is as promised, and nobody waits on a dropping one. */
  ghost predicate Lossless(c: Config, s: State) {
    && |s.subs| == |c.subs|
    && (forall i :: 0 <= i < |c.subs| ==> Conserved(c.subs[i], s.subs[i]) && HoldsNewest(s.subs[i]))
    && (forall t :: 0 <= t < |s.jobs| && s.jobs[t].waiting ==>
          s.jobs[t].cursor < |c.subs| && !c.subs[s.jobs[t].cursor].dropIfFull)
  }

  /**
   * Nothing is lost or reordered, on any interleaving and with any handlers,
   * and no publisher is ever suspended on a dropping subscription.
   */
  lemma Conservation(c: Config, acts: seq<Action>)
    ensures Valid(c, Init(c), acts) ==> Lossless(c, Exec(c, Init(c), acts))
  {
    if Valid(c, Init(c), acts) {
      InitInv(c);
      RunKeeps(c, Init(c), acts);
      var s := Exec(c, Init(c), acts);
      forall i | 0 <= i < |c.subs|
        ensures Conserved(c.subs[i], s.subs[i]) && HoldsNewest(s.subs[i])
      {
        assert SubInv(c.subs[i], s.subs[i]);
        BooksConserve(c.subs[i], s.subs[i]);
      }
    }
  }
}

/**
 * The mutable side of the event bus: Subscription objects and the loop of
 * EventBus.publish, which runs until it has visited every target or suspends
 * in a put.  Each method is tied to the step functions of module EventBus.
 */
module EventBusObjects {
  import opened Wrappers
  import opened EventBus

  class Subscription {
    const config: SubConfig
    var queue: seq<Event>
    var unfinished: int
    var inFlight: Option<Event>
    var fullCount: nat
    var dropCount: nat
    ghost var accepted: seq<Event>
    ghost var evicted: seq<Event>
    ghost var handled: seq<Event>

    ghost function View(): Sub
      reads this
    {
      Sub(queue, unfinished, inFlight, fullCount, dropCount, accepted, evicted, handled)
    }

    constructor (config: SubConfig)
      ensures this.config == config && View() == EmptySub()
    {
      this.config := config;
      queue, unfinished, inFlight, fullCount, dropCount := [], 0, None, 0, 0;
      accepted, evicted, handled := [], [], [];
    }

    method PutNowait(e: Event)
      modifies this
      ensures View() == Put(old(View()), e)
    {
      queue := queue + [e];
      unfinished := unfinished + 1;
      accepted := accepted + [e];
    }

    /** One target of publish: count a full queue, evict or suspend, else put. */
    method Deliver(e: Event) returns (suspended: bool)
      modifies this
      ensures (View(), suspended) == Offer(config, old(View()), e)
    {
      suspended := false;
      if 0 < config.maxsize <= |queue| {
        fullCount := fullCount + 1;
        if config.dropIfFull {
          evicted := evicted + [queue[0]];
          queue := queue[1..];
          unfinished := unfinished - 1;
          dropCount := dropCount + 1;
        } else {
          suspended := true;
        }
      }
      if !suspended {
        PutNowait(e);
      }
    }

    /** The worker's `queue.get()`. */
    method GetEvent() returns (e: Event)
      requires queue != [] && inFlight.None?
      modifies this
      ensures View() == Take(old(View())) && inFlight == Some(e)
    {
      e := queue[0];
      queue := queue[1..];
      inFlight := Some(e);
    }

    method FinishEvent()
      requires inFlight.Some?
      modifies this
      ensures View() == TaskDone(old(View()))
    {
      handled := handled + [inFlight.value];
      inFlight := None;
      unfinished := unfinished - 1;
    }
  }

  /** What visiting one target does to it. */
  ghost function Visited(c: SubConfig, s: Sub, e: Event): Sub {
    if Matches(c, e) then Offer(c, s, e).0 else s
  }

  /**
   * publish from target `start` to its next suspension: every target before
   * `next` has been offered the event, the one at `next` made the put suspend
   * if `suspended`, and the others are untouched.
   */
  method PublishSegment(targets: seq<Subscription>, start: nat, e: Event) returns (next: nat, suspended: bool)
    requires start <= |targets|
    requires forall j, k :: 0 <= j < k < |targets| ==> targets[j] != targets[k]
    modifies targets
    ensures start <= next <= |targets| && (suspended <==> next < |targets|)
    ensures forall k :: start <= k < next ==>
              targets[k].View() == Visited(targets[k].config, old(targets[k].View()), e)
              && (Matches(targets[k].config, e) ==> !Offer(targets[k].config, old(targets[k].View()), e).1)
    ensures suspended ==>
              Matches(targets[next].config, e)
              && Offer(targets[next].config, old(targets[next].View()), e) == (targets[next].View(), true)
    ensures forall k :: (0 <= k < start || next < k < |targets|) ==> targets[k].View() == old(targets[k].View())
  {
    next, suspended := start, false;
    while next < |targets|
      invariant start <= next <= |targets|
      invariant forall k :: start <= k < next ==>
                  targets[k].View() == Visited(targets[k].config, old(targets[k].View()), e)
                  && (Matches(targets[k].config, e) ==> !Offer(targets[k].config, old(targets[k].View()), e).1)
      invariant forall k :: (0 <= k < start || next <= k < |targets|) ==> targets[k].View() == old(targets[k].View())
    {
      var sub := targets[next];
      if sub.config.eventType == e.eventType && (sub.config.symbol.None? || sub.config.symbol.value == e.symbol) {
        suspended := sub.Deliver(e);
        if suspended {
          return;
        }
      }
      next := next + 1;
    }
  }

  /** A suspended publish goes on: the put is made now that there is room, and the loop continues. */
  method PublishResumed(targets: seq<Subscription>, at: nat, e: Event) returns (next: nat, suspended: bool)
    requires at < |targets| && !Full(targets[at].config, targets[at].View())
    requires forall j, k :: 0 <= j < k < |targets| ==> targets[j] != targets[k]
    modifies targets
    ensures at < next <= |targets| && (suspended <==> next < |targets|)
    ensures targets[at].View() == Put(old(targets[at].View()), e)
    ensures forall k :: at < k < next ==>
              targets[k].View() == Visited(targets[k].config, old(targets[k].View()), e)
              && (Matches(targets[k].config, e) ==> !Offer(targets[k].config, old(targets[k].View()), e).1)
    ensures suspended ==>
              Matches(targets[next].config, e)
              && Offer(targets[next].config, old(targets[next].View()), e) == (targets[next].View(), true)
    ensures forall k :: (0 <= k < at || next < k < |targets|) ==> targets[k].View() == old(targets[k].View())
  {
    targets[at].PutNowait(e);
    next, suspended := PublishSegment(targets, at + 1, e);
  }
}

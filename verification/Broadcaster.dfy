/** The fan-out event bus: one bounded queue per connected client, slow clients dropped. */
module Broadcaster {
  import opened Prelude

  datatype Event = Event(kind: string, data: string)

  const CAPACITY := 200

  // ---- Specification -------------------------------------------------------

  /** A client's history: when it joined and left, in events published, what it took and what still waits. */
  datatype Client = Client(joined: nat, left: Option<nat>, consumed: seq<Event>, queue: seq<Event>)

  /** `log` is every event ever passed to `publish`. */
  datatype Bus<!K> = Bus(log: seq<Event>, clients: map<K, Client>, subscribed: set<K>)

  function Offered(c: Client, e: Event, now: nat): Client {
    if |c.queue| < CAPACITY then c.(queue := c.queue + [e]) else c.(left := Some(now))
  }

  function Subscribe<K>(bus: Bus<K>, k: K): Bus<K> {
    bus.(clients := bus.clients[k := Client(|bus.log|, None, [], [])], subscribed := bus.subscribed + {k})
  }

  function Unsubscribe<K>(bus: Bus<K>, k: K): Bus<K> {
    if k in bus.subscribed && k in bus.clients
    then bus.(clients := bus.clients[k := bus.clients[k].(left := Some(|bus.log|))], subscribed := bus.subscribed - {k})
    else bus.(subscribed := bus.subscribed - {k})
  }

  function Publish<K>(bus: Bus<K>, e: Event): Bus<K> {
    Bus(bus.log + [e],
        map k | k in bus.clients ::
          if k in bus.subscribed then Offered(bus.clients[k], e, |bus.log|) else bus.clients[k],
        set k | k in bus.subscribed && k in bus.clients && |bus.clients[k].queue| < CAPACITY)
  }

  function Taken(c: Client): Client {
    if c.queue == [] then c else c.(consumed := c.consumed + [c.queue[0]], queue := c.queue[1..])
  }

  function Take<K>(bus: Bus<K>, k: K): Bus<K> {
    if k in bus.clients then bus.(clients := bus.clients[k := Taken(bus.clients[k])]) else bus
  }

  // ---- Runs ----------------------------------------------------------------

  datatype Op<!K> = DoSubscribe(k: K) | DoUnsubscribe(k: K) | DoPublish(e: Event) | DoTake(k: K)

  /** A subscription always gets a new queue. */
  predicate Allowed<K>(bus: Bus<K>, op: Op<K>) {
    op.DoSubscribe? ==> op.k !in bus.clients
  }

  function Apply<K>(bus: Bus<K>, op: Op<K>): Bus<K> {
    match op
    case DoSubscribe(k) => Subscribe(bus, k)
    case DoUnsubscribe(k) => Unsubscribe(bus, k)
    case DoPublish(e) => Publish(bus, e)
    case DoTake(k) => Take(bus, k)
  }

  function Run(ops: seq<Op<nat>>): Bus<nat> {
    if ops == [] then Bus([], map[], {}) else Apply(Run(ops[..|ops| - 1]), ops[|ops| - 1])
  }

  ghost predicate AllAllowed(ops: seq<Op<nat>>) {
    forall i :: 0 <= i < |ops| ==> Allowed(Run(ops[..i]), ops[i])
  }

  /** What a client took, followed by what waits for it, is exactly the events published since it joined, up to now
      or to the moment it left; and its queue respects the bound. */
  ghost predicate Gapless<K>(bus: Bus<K>) {
    && bus.subscribed <= bus.clients.Keys
    && forall k | k in bus.clients :: ClientGapless(bus, k)
  }

  ghost predicate ClientGapless<K>(bus: Bus<K>, k: K)
    requires k in bus.clients
  {
    var c := bus.clients[k];
    var until := if c.left.Some? then c.left.value else |bus.log|;
    && c.joined <= until <= |bus.log|
    && c.consumed + c.queue == bus.log[c.joined..until]
    && |c.queue| <= CAPACITY
    && (k in bus.subscribed <==> c.left.None?)
  }

  lemma SubscribeGapless<K>(bus: Bus<K>, k: K)
    requires Gapless(bus) && k !in bus.clients
    ensures Gapless(Subscribe(bus, k))
  {
    var after := Subscribe(bus, k);
    forall j | j in after.clients ensures ClientGapless(after, j) {
      if j != k {
        assert ClientGapless(bus, j);
      }
    }
  }

  lemma UnsubscribeGapless<K>(bus: Bus<K>, k: K)
    requires Gapless(bus)
    ensures Gapless(Unsubscribe(bus, k))
  {
    var after := Unsubscribe(bus, k);
    forall j | j in after.clients ensures ClientGapless(after, j) {
      assert ClientGapless(bus, j);
    }
  }

  lemma PublishGapless<K>(bus: Bus<K>, e: Event)
    requires Gapless(bus)
    ensures Gapless(Publish(bus, e))
  {
    var after := Publish(bus, e);
    forall j | j in after.clients ensures ClientGapless(after, j) {
      assert ClientGapless(bus, j);
      var c, c' := bus.clients[j], after.clients[j];
      var n := |bus.log|;
      if c.left.None? {
        assert bus.log[c.joined..n] == after.log[c.joined..n];
        if c'.left.None? {
          assert after.log[c.joined..n + 1] == after.log[c.joined..n] + [e];
          assert c'.consumed + c'.queue == (c.consumed + c.queue) + [e];
        }
      } else {
        assert after.log[c.joined..c.left.value] == bus.log[c.joined..c.left.value];
      }
    }
  }

  lemma TakeGapless<K>(bus: Bus<K>, k: K)
    requires Gapless(bus)
    ensures Gapless(Take(bus, k))
  {
    var after := Take(bus, k);
    forall j | j in after.clients ensures ClientGapless(after, j) {
      assert ClientGapless(bus, j);
      var c, c' := bus.clients[j], after.clients[j];
      assert c'.consumed + c'.queue == c.consumed + c.queue;
    }
  }

  /** Over any interleaving of subscribing, publishing, reading and leaving, no client misses, repeats or reorders an
      event, as long as it is subscribed; after that it still gets what was queued. */
  lemma {:induction false} RunGapless(ops: seq<Op<nat>>)
    requires AllAllowed(ops)
    ensures Gapless(Run(ops))
  {
    if ops != [] {
      hide Gapless;
      var n := |ops| - 1;
      var before := ops[..n];
      assert forall i :: 0 <= i < n ==> before[..i] == ops[..i];
      assert Allowed(Run(ops[..n]), ops[n]);
      RunGapless(before);
      match ops[n]
      case DoSubscribe(k) => SubscribeGapless(Run(before), k);
      case DoUnsubscribe(k) => UnsubscribeGapless(Run(before), k);
      case DoPublish(e) => PublishGapless(Run(before), e);
      case DoTake(k) => TakeGapless(Run(before), k);
    }
  }

  /** A publish drops a subscriber if and only if its queue was full, and delivers to all the others. */
  lemma PublishDropsExactlyFull<K>(bus: Bus<K>, e: Event, k: K)
    requires Gapless(bus) && k in bus.subscribed
    ensures var after := Publish(bus, e);
            && k in after.clients
            && (k !in after.subscribed <==> |bus.clients[k].queue| == 200)
            && (k in after.subscribed ==> after.clients[k].queue == bus.clients[k].queue + [e])
            && (k !in after.subscribed ==> after.clients[k].queue == bus.clients[k].queue)
  {
  }

  /** Two clients that joined together have seen the same events, as far as both have read. */
  lemma SameEventsForAll<K>(bus: Bus<K>, j: K, k: K)
    requires Gapless(bus) && j in bus.clients && k in bus.clients
    requires bus.clients[j].joined == bus.clients[k].joined
    ensures bus.clients[j].consumed <= bus.clients[k].consumed || bus.clients[k].consumed <= bus.clients[j].consumed
  {
    assert ClientGapless(bus, j) && ClientGapless(bus, k);
    var a, b := bus.clients[j], bus.clients[k];
    ConsumedFromLog(bus, j);
    ConsumedFromLog(bus, k);
  }

  lemma ConsumedFromLog<K>(bus: Bus<K>, k: K)
    requires k in bus.clients && ClientGapless(bus, k)
    ensures var c := bus.clients[k];
            c.joined + |c.consumed| <= |bus.log| && c.consumed == bus.log[c.joined..c.joined + |c.consumed|]
  {
    var c := bus.clients[k];
    var until := if c.left.Some? then c.left.value else |bus.log|;
    assert |c.consumed + c.queue| == until - c.joined;
    forall i | 0 <= i < |c.consumed|
      ensures c.consumed[i] == bus.log[c.joined + i]
    {
      assert c.consumed[i] == (c.consumed + c.queue)[i] == bus.log[c.joined..until][i];
    }
  }

  // ---- The objects ---------------------------------------------------------

  /** A client's asyncio queue; the ghost fields record its history. */
  class ClientQueue {
    var items: seq<Event>
    ghost var joined: nat
    ghost var left: Option<nat>
    ghost var consumed: seq<Event>

    constructor (ghost now: nat)
      ensures State() == Client(now, None, [], [])
    {
      items := [];
      joined, left, consumed := now, None, [];
    }

    ghost function State(): Client
      reads this
    {
      Client(joined, left, consumed, items)
    }

    /** `put_nowait`: refuses when the queue is full. */
    method PutNowait(e: Event) returns (ok: bool)
      modifies `items
      ensures ok <==> |old(items)| < CAPACITY
      ensures items == if ok then old(items) + [e] else old(items)
    {
      if |items| >= CAPACITY {
        return false;
      }
      items := items + [e];
      ok := true;
    }

    /** One client's share of a publish; `left` records the event a refused client is dropped at. */
    method Offer(e: Event, ghost now: nat) returns (ok: bool)
      modifies `items, `left
      ensures State() == Offered(old(State()), e, now)
      ensures ok <==> |old(items)| < CAPACITY
    {
      ok := PutNowait(e);
      if !ok {
        left := Some(now);
      }
    }

    /** `get` on a queue that has something to give; None stands for the idle timeout. */
    method Get() returns (e: Option<Event>)
      modifies this
      ensures State() == Taken(old(State()))
      ensures if old(items) == [] then items == [] && consumed == old(consumed)
              else items == old(items)[1..] && consumed == old(consumed) + [old(items)[0]]
      ensures e == if old(items) == [] then None else Some(old(items)[0])
    {
      if items == [] {
        return None;
      }
      e := Some(items[0]);
      consumed := consumed + [items[0]];
      items := items[1..];
    }
  }

  class EventBroadcaster {
    var subscribers: set<ClientQueue>
    ghost var log: seq<Event>
    ghost var clients: set<ClientQueue>

    constructor ()
      ensures View() == Bus([], map[], {})
    {
      subscribers := {};
      log, clients := [], {};
    }

    ghost function View(): Bus<ClientQueue>
      reads this, clients
    {
      Bus(log, map q | q in clients :: q.State(), subscribers)
    }

    method SubscribeClient() returns (q: ClientQueue)
      modifies this
      ensures fresh(q) && View() == Subscribe(old(View()), q)
      ensures subscribers == old(subscribers) + {q} && q.items == []
    {
      q := new ClientQueue(|log|);
      subscribers := subscribers + {q};
      clients := clients + {q};
      assert View().clients == Subscribe(old(View()), q).clients;
    }

    method UnsubscribeClient(q: ClientQueue)
      modifies this, q`left
      ensures View() == Unsubscribe(old(View()), q)
      ensures subscribers == old(subscribers) - {q} && log == old(log)
    {
      if q in subscribers && q in clients {
        q.left := Some(|log|);
      }
      subscribers := subscribers - {q};
      assert View().clients == Unsubscribe(old(View()), q).clients;
    }

    /** Offer the event to every client of the snapshot, in some order, and collect the full ones. */
    static method OfferAll(snapshot: set<ClientQueue>, e: Event, ghost now: nat) returns (dead: set<ClientQueue>)
      modifies snapshot
      ensures forall q | q in snapshot :: q.State() == Offered(old(q.State()), e, now)
      ensures dead == set q | q in snapshot && |old(q.items)| >= CAPACITY
    {
      hide Offered;
      dead := {};
      var todo := snapshot;
      while todo != {}
        invariant todo <= snapshot
        invariant forall q | q in todo :: q.State() == old(q.State()) && q.items == old(q.items)
        invariant forall q | q in snapshot - todo :: q.State() == Offered(old(q.State()), e, now)
        invariant dead == set q | q in snapshot - todo && |old(q.items)| >= CAPACITY
        decreases |todo|
      {
        var q :| q in todo;
        var ok := q.Offer(e, now);
        if !ok {
          dead := dead + {q};
        }
        todo := todo - {q};
      }
    }

    method PublishEvent(e: Event)
      requires subscribers <= clients
      modifies this, subscribers
      ensures View() == Publish(old(View()), e)
    {
      hide Offered;
      ghost var now := |log|;
      log := log + [e];
      if subscribers == {} {
        assert View().clients == Publish(old(View()), e).clients;
        return;
      }
      var dead := OfferAll(subscribers, e, now);
      subscribers := subscribers - dead;
      assert View().clients == Publish(old(View()), e).clients;
      assert View().subscribed == Publish(old(View()), e).subscribed;
    }
  }
}

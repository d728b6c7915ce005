/** Fan-out of published candle events to bounded per-client queues. */
module Broadcast {
  import opened Wrappers

  // ----- one queue -----

  /** A client's queue with its history: everything published to it, and which of that
      the client has taken and which was dropped, by number. */
  datatype Queue = Queue(items: seq<string>, published: seq<string>, taken: seq<nat>, dropped: seq<nat>)

  const NEW_QUEUE := Queue([], [], [], [])

  /** How many payloads have left the queue. */
  function Front(q: Queue): int {
    |q.published| - |q.items|
  }

  /** A full queue loses its oldest payload to the new one. */
  function Offered(q: Queue, payload: string, capacity: nat): Queue
    requires capacity > 0
  {
    if |q.items| < capacity || Front(q) < 0 then q.(items := q.items + [payload], published := q.published + [payload])
    else Queue(q.items[1..] + [payload], q.published + [payload], q.taken, q.dropped + [Front(q)])
  }

  /** Exactly one payload is dropped when the queue is full, the oldest, and none otherwise. */
  lemma OfferedFacts(q: Queue, payload: string, capacity: nat)
    requires QueueOk(q, capacity) && capacity > 0
    ensures var q' := Offered(q, payload, capacity);
            && q'.published == q.published + [payload] && q'.taken == q.taken
            && |q'.items| == (if |q.items| == capacity then capacity else |q.items| + 1)
            && q'.items[|q'.items| - 1] == payload
            && |q'.dropped| == |q.dropped| + (if |q.items| == capacity then 1 else 0)
            && (|q.items| < capacity ==> q.items <= q'.items)
  {
  }

  function Taken(q: Queue): Queue
    requires q.items != [] && Front(q) >= 0
  {
    q.(items := q.items[1..], taken := q.taken + [Front(q)])
  }

  ghost predicate Increasing(s: seq<nat>) {
    forall i, j :: 0 <= i < j < |s| ==> s[i] < s[j]
  }

  /** The queue is a contiguous suffix of what was published; what left it was taken, in
      order and at most once, or dropped, and dropped only when the client was a whole
      queue behind. */
  ghost predicate QueueOk(q: Queue, capacity: nat) {
    && |q.items| <= capacity && Front(q) >= 0 && q.items == q.published[Front(q)..]
    && Increasing(q.taken) && Increasing(q.dropped)
    && (forall i :: i in q.taken ==> i < Front(q) && i !in q.dropped)
    && (forall i :: i in q.dropped ==> i < Front(q) && i + capacity < |q.published|)
    && (forall i: nat :: i < Front(q) ==> i in q.taken || i in q.dropped)
  }

  lemma IncreasingMore(s: seq<nat>, n: nat)
    requires Increasing(s) && forall i :: i in s ==> i < n
    ensures Increasing(s + [n])
  {
    forall i | 0 <= i < |s| ensures s[i] < n { assert s[i] in s; }
  }

  lemma OfferKeeps(q: Queue, payload: string, capacity: nat)
    requires QueueOk(q, capacity) && capacity > 0
    ensures QueueOk(Offered(q, payload, capacity), capacity)
  {
    var q' := Offered(q, payload, capacity);
    IncreasingMore(q.dropped, Front(q));
    hide Increasing;
    assert q'.items == q'.published[Front(q')..];
  }

  lemma TakeKeeps(q: Queue, capacity: nat)
    requires QueueOk(q, capacity) && q.items != []
    ensures QueueOk(Taken(q), capacity) && q.items[0] == q.published[Front(q)]
  {
    IncreasingMore(q.taken, Front(q));
    hide Increasing;
    var q' := Taken(q);
    assert q'.items == q'.published[Front(q')..];
  }

  datatype Event = Publish(payload: string) | Take

  /** A history of one queue; taking from an empty queue waits, and is not an event. */
  function History(events: seq<Event>, capacity: nat): Queue
    requires capacity > 0
  {
    if events == [] then NEW_QUEUE else
    var q := History(events[..|events| - 1], capacity);
    match events[|events| - 1]
    case Publish(payload) => Offered(q, payload, capacity)
    case Take => if q.items == [] || Front(q) < 0 then q else Taken(q)
  }

  function Payloads(events: seq<Event>): seq<string> {
    if events == [] then [] else
    Payloads(events[..|events| - 1]) + Published(events[|events| - 1])
  }

  function Published(e: Event): seq<string> {
    match e
    case Publish(payload) => [payload]
    case Take => []
  }

  /** What the client gets, in the order in which it gets it. */
  function Received(events: seq<Event>, capacity: nat): seq<string>
    requires capacity > 0
  {
    if events == [] then [] else
    var front := events[..|events| - 1];
    var q := History(front, capacity);
    Received(front, capacity) + if events[|events| - 1].Take? && q.items != [] then [q.items[0]] else []
  }

  /** The payloads with these numbers. */
  ghost predicate Picked(payloads: seq<string>, numbers: seq<nat>, all: seq<string>) {
    |payloads| == |numbers| && forall i :: 0 <= i < |numbers| ==> numbers[i] < |all| && payloads[i] == all[numbers[i]]
  }

  /** However publishing and taking interleave, a client receives what was published in
      order and without repeats, and misses a payload only if its queue was full. */
  lemma {:induction false} QueueHistory(events: seq<Event>, capacity: nat)
    requires capacity > 0
    ensures var q := History(events, capacity);
            && QueueOk(q, capacity) && q.published == Payloads(events)
            && Picked(Received(events, capacity), q.taken, q.published)
  {
    if events != [] {
      QueueHistory(events[..|events| - 1], capacity);
      var q := History(events[..|events| - 1], capacity);
      match events[|events| - 1] {
        case Publish(payload) => OfferKeeps(q, payload, capacity);
        case Take => if q.items != [] { TakeKeeps(q, capacity); }
      }
    }
  }

  /** Whenever something is published, there is room for it. */
  ghost predicate KeepsUp(events: seq<Event>, capacity: nat)
    requires capacity > 0
  {
    forall n :: 0 <= n < |events| && events[n].Publish? ==> |History(events[..n], capacity).items| < capacity
  }

  lemma NothingMissedNext(events: seq<Event>, capacity: nat)
    requires capacity > 0 && events != []
    requires var q := History(events[..|events| - 1], capacity); Front(q) >= 0 && |q.items| <= capacity
    ensures var q, q' := History(events[..|events| - 1], capacity), History(events, capacity);
            var full := events[|events| - 1].Publish? && |q.items| == capacity;
            && (q'.dropped == [] <==> q.dropped == [] && !full)
            && (var before := Received(events[..|events| - 1], capacity) + q.items;
                !full ==> Received(events, capacity) + q'.items == before + Published(events[|events| - 1]))
  {
    hide Received, History, Front;
    HistoryNext(events, capacity);
    ReceivedNext(events, capacity);
    var front := events[..|events| - 1];
    Moved(Received(front, capacity), History(front, capacity).items, Published(events[|events| - 1]));
  }

  lemma HistoryNext(events: seq<Event>, capacity: nat)
    requires capacity > 0 && events != []
    requires var q := History(events[..|events| - 1], capacity); Front(q) >= 0 && |q.items| <= capacity
    ensures var q, q' := History(events[..|events| - 1], capacity), History(events, capacity);
            match events[|events| - 1]
            case Publish(payload) =>
              if |q.items| < capacity then q'.items == q.items + [payload] && q'.dropped == q.dropped
              else q'.dropped != []
            case Take => q'.dropped == q.dropped && q'.items == if q.items == [] then [] else q.items[1..]
  {
  }

  /** Taking the first payload moves it from the queue to the client. */
  lemma Moved(got: seq<string>, items: seq<string>, more: seq<string>)
    ensures got + items + more == got + (items + more)
    ensures items != [] ==> got + [items[0]] + items[1..] == got + items
    ensures got + items + [] == got + items
  {
    if items != [] { assert items == [items[0]] + items[1..]; }
  }

  lemma ReceivedNext(events: seq<Event>, capacity: nat)
    requires capacity > 0 && events != []
    ensures var front := events[..|events| - 1];
            var q, got := History(front, capacity), Received(front, capacity);
            var taken := if events[|events| - 1].Take? && q.items != [] then [q.items[0]] else [];
            Received(events, capacity) == got + taken
  {
    hide History;
  }

  lemma KeepsUpMore(events: seq<Event>, capacity: nat)
    requires capacity > 0 && events != []
    ensures var last, front := |events| - 1, events[..|events| - 1];
            KeepsUp(events, capacity) <==>
            KeepsUp(front, capacity) && (events[last].Publish? ==> |History(front, capacity).items| < capacity)
  {
    hide History;
    var last, front := |events| - 1, events[..|events| - 1];
    assert forall n :: 0 <= n < last ==> front[..n] == events[..n] && front[n] == events[n];
  }

  /** A client misses nothing exactly if it is never a whole queue behind when something
      is published; then what it got and what is still queued is all that was published. */
  lemma {:induction false} NothingMissed(events: seq<Event>, capacity: nat)
    requires capacity > 0
    ensures var q := History(events, capacity);
            && (q.dropped == [] <==> KeepsUp(events, capacity))
            && (KeepsUp(events, capacity) ==> Received(events, capacity) + q.items == Payloads(events))
  {
    if events != [] {
      hide KeepsUp, Increasing, Picked;
      var front := events[..|events| - 1];
      NothingMissed(front, capacity);
      QueueHistory(front, capacity);
      KeepsUpMore(events, capacity);
      NothingMissedNext(events, capacity);
    }
  }

  // ----- the broadcaster -----

  const STATION_CAPACITY := 256
  const ALL_CAPACITY := 512

  class ClientQueue {
    const capacity: nat
    var items: seq<string>
    ghost var view: Queue

    ghost predicate Valid()
      reads this
    {
      capacity > 0 && view.items == items && QueueOk(view, capacity)
    }

    constructor (capacity: nat)
      requires capacity > 0
      ensures Valid() && this.capacity == capacity && view == NEW_QUEUE
    {
      this.capacity, items, view := capacity, [], NEW_QUEUE;
    }

    method PutNowait(payload: string) returns (ok: bool)
      requires Valid()
      modifies this
      ensures Valid() && ok == (|old(items)| < capacity)
      ensures view == if ok then Offered(old(view), payload, capacity) else old(view)
    {
      ok := |items| < capacity;
      if ok {
        OfferKeeps(view, payload, capacity);
        items, view := items + [payload], Offered(view, payload, capacity);
      }
    }

    /** Add a payload; if the queue is full drop its oldest one first. */
    method Offer(payload: string)
      requires Valid()
      modifies this
      ensures Valid() && view == Offered(old(view), payload, capacity)
    {
      OfferKeeps(view, payload, capacity);
      ghost var next := Offered(view, payload, capacity);
      var ok := PutNowait(payload);
      if !ok {
        items := items[1..];
        items, view := items + [payload], next;
      }
    }

    method Get() returns (payload: Option<string>)
      requires Valid()
      modifies this
      ensures Valid()
      ensures old(items) == [] ==> payload == None && view == old(view)
      ensures old(items) != [] ==> view == Taken(old(view)) && payload == Some(view.published[Front(old(view))])
    {
      if items == [] { return None; }
      TakeKeeps(view, capacity);
      payload := Some(items[0]);
      items, view := items[1..], Taken(view);
    }
  }

  class Broadcaster {
    var queues: map<string, set<ClientQueue>>
    var pumps: set<string>
    var allQueues: set<ClientQueue>
    var allPump: bool

    /** A pump is registered exactly for the stations that have subscribers. */
    ghost predicate Valid()
      reads this
    {
      && pumps == queues.Keys && (forall s :: s in queues ==> queues[s] != {})
      && (allPump <==> allQueues != {})
    }

    constructor ()
      ensures Valid() && queues == map[] && allQueues == {}
    {
      queues, pumps, allQueues, allPump := map[], {}, {}, false;
    }

    ghost function Subscribers(station: string): set<ClientQueue>
      reads this
    {
      if station in queues then queues[station] else {}
    }

    method Subscribe(station: string) returns (q: ClientQueue)
      requires Valid()
      modifies this
      ensures Valid() && fresh(q) && q.Valid() && q.view == NEW_QUEUE && q.capacity == 256
      ensures queues == old(queues)[station := old(Subscribers(station)) + {q}]
      ensures allQueues == old(allQueues) && allPump == old(allPump)
    {
      q := new ClientQueue(STATION_CAPACITY);
      var subs := if station in queues then queues[station] else {};
      queues := queues[station := subs + {q}];
      if station !in pumps {
        pumps := pumps + {station};
      }
      assert pumps == queues.Keys;
    }

    method Unsubscribe(station: string, q: ClientQueue)
      requires Valid()
      modifies this
      ensures Valid() && Subscribers(station) == old(Subscribers(station)) - {q}
      ensures forall s :: s != station ==> Subscribers(s) == old(Subscribers(s))
      ensures allQueues == old(allQueues) && allPump == old(allPump)
    {
      if station in queues {
        var subs := queues[station] - {q};
        queues := queues[station := subs];
        if subs == {} {
          queues := queues - {station};
          pumps := pumps - {station};
        }
      }
      assert pumps == queues.Keys;
    }

    method SubscribeAll() returns (q: ClientQueue)
      requires Valid()
      modifies this
      ensures Valid() && fresh(q) && q.Valid() && q.view == NEW_QUEUE && q.capacity == 512
      ensures allQueues == old(allQueues) + {q} && queues == old(queues)
    {
      q := new ClientQueue(ALL_CAPACITY);
      allQueues := allQueues + {q};
      if !allPump { allPump := true; }
    }

    method UnsubscribeAll(q: ClientQueue)
      requires Valid()
      modifies this
      ensures Valid() && allQueues == old(allQueues) - {q} && queues == old(queues)
    {
      allQueues := allQueues - {q};
      if allQueues == {} && allPump { allPump := false; }
    }

    method Close()
      requires Valid()
      modifies this
      ensures Valid() && queues == map[] && pumps == {} && allQueues == {} && !allPump
    {
      pumps, queues, allQueues, allPump := {}, map[], {}, false;
    }

    /** One payload to every subscriber of the station, and to nobody else. */
    method FanOut(station: string, payload: string)
      requires Valid() && forall q :: q in Subscribers(station) ==> q.Valid()
      modifies Subscribers(station)
      ensures forall q :: q in Subscribers(station) ==> q.Valid() && q.view == Offered(old(q.view), payload, q.capacity)
    {
      if station in queues {
        Deliver(queues[station], payload);
      }
    }

    method FanOutAll(payload: string)
      requires Valid() && forall q :: q in allQueues ==> q.Valid()
      modifies allQueues
      ensures forall q :: q in allQueues ==> q.Valid() && q.view == Offered(old(q.view), payload, q.capacity)
    {
      Deliver(allQueues, payload);
    }
  }

  /** The loop of both fan-outs over a snapshot of the subscribers. */
  method Deliver(subs: set<ClientQueue>, payload: string)
    requires forall q :: q in subs ==> q.Valid()
    modifies subs
    ensures forall q :: q in subs ==> q.Valid() && q.view == Offered(old(q.view), payload, q.capacity)
  {
    var left := subs;
    while left != {}
      invariant left <= subs && forall q :: q in subs ==> q.Valid()
      invariant forall q :: q in left ==> q.view == old(q.view)
      invariant forall q :: q in subs && q !in left ==> q.view == Offered(old(q.view), payload, q.capacity)
      decreases left
    {
      var q :| q in left;
      left := left - {q};
      q.Offer(payload);
    }
  }
}

/**
 * The subscriber registry behind each push-update stream: one queue per
 * connected client, and the fan-out that appends a payload to every queue and
 * drops the clients whose delivery fails (vlc_my_web_interface.py:139-148,
 * 221-228, 235, 241, 250, 257).
 */
module Broadcasting {

  /** A subscriber handle; each connection's queue is a distinct object. */
  type SubscriberId = nat

  /** The registry after one fan-out of `payload`: the subscribers in `broken`
      are gone, every other one has exactly `payload` added at the end of its
      queue. */
  function Delivered<P>(queues: map<SubscriberId, seq<P>>, payload: P, broken: set<SubscriberId>)
    : (r: map<SubscriberId, seq<P>>)
    ensures r.Keys == queues.Keys - broken
    ensures forall id :: id in r ==> r[id] == queues[id] + [payload]
  {
    map id | id in queues && id !in broken :: queues[id] + [payload]
  }

  /** Two fan-outs reach a subscriber that survives both in the order they
      were made. */
  lemma DeliveredInOrder<P>(queues: map<SubscriberId, seq<P>>, p1: P, b1: set<SubscriberId>,
                            p2: P, b2: set<SubscriberId>, id: SubscriberId)
    requires id in queues && id !in b1 && id !in b2
    ensures var after := Delivered(Delivered(queues, p1, b1), p2, b2);
      id in after && after[id] == queues[id] + [p1, p2]
  {
  }

  /** A subscriber dropped by one fan-out receives nothing from later ones. */
  lemma DroppedStaysDropped<P>(queues: map<SubscriberId, seq<P>>, p1: P, b1: set<SubscriberId>,
                               p2: P, b2: set<SubscriberId>, id: SubscriberId)
    requires id in b1
    ensures id !in Delivered(Delivered(queues, p1, b1), p2, b2)
  {
  }

  /** A set of subscriber queues holding payloads of type `P`. */
  class Hub<P> {
    var queues: map<SubscriberId, seq<P>>
    // every handle handed out so far is below this bound
    var nextId: SubscriberId

    ghost predicate Valid()
      reads this
    {
      forall id :: id in queues ==> id < nextId
    }

    constructor ()
      ensures Valid() && queues == map[]
    {
      queues := map[];
      nextId := 0;
    }

    /** `clients.add(q)` for a freshly made, empty queue. */
    method Subscribe() returns (id: SubscriberId)
      requires Valid()
      modifies this
      ensures Valid()
      ensures id !in old(queues)
      ensures queues == old(queues)[id := []]
    {
      id := nextId;
      queues := queues[id := []];
      nextId := nextId + 1;
    }

    /** `clients.remove(q)`: a handle that is no longer registered raises
        KeyError and leaves the registry as it is. */
    method Unsubscribe(id: SubscriberId) returns (raised: bool)
      requires Valid()
      modifies this
      ensures Valid()
      ensures raised <==> id !in old(queues)
      ensures queues == old(queues) - {id}
    {
      raised := id !in queues;
      if !raised {
        queues := queues - {id};
      }
    }

    /** The fan-out: for every client in a copy of the registry, `put` the
        payload, and remove the client if `put` fails (the clients in
        `broken`). */
    method Broadcast(payload: P, broken: set<SubscriberId>)
      requires Valid()
      modifies this
      ensures Valid()
      ensures queues == Delivered(old(queues), payload, broken)
      ensures nextId == old(nextId)
    {
      ghost var before := queues;
      var pending := queues.Keys;
      while pending != {}
        invariant pending <= before.Keys
        invariant queues.Keys <= before.Keys
        invariant nextId == old(nextId)
        invariant forall id :: id in pending ==> id in queues && queues[id] == before[id]
        invariant forall id :: id in before && id !in pending ==>
          (id in queues <==> id !in broken) && (id in queues ==> queues[id] == before[id] + [payload])
        decreases pending
      {
        var client :| client in pending;
        if client in broken {
          queues := queues - {client};
        } else {
          queues := queues[client := queues[client] + [payload]];
        }
        pending := pending - {client};
      }
      assert queues.Keys == before.Keys - broken;
    }
  }
}

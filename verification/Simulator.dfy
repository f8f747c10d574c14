/** The discrete-event simulator: its event queue and clock. */
module Simulator {
  import opened EventQueue
  import L = LinkedList

  class Simulator {
    var queue: seq<Event>
    var simTime: nat
    var id: nat

    ghost predicate Holding(s: set<Event>)
      reads this
    {
      Holds(queue, s, id)
    }

    constructor ()
      ensures queue == [] && simTime == 0 && id == 0 && Holding({})
    {
      queue, simTime, id := [], 0, 0;
    }

    /** simulatorSchedule: the event goes where the comparison puts it; its id refers to it from then on. */
    method Schedule(time: nat, kind: Kind, ghost s: set<Event>) returns (ref: nat)
      requires Holding(s) && time >= simTime
      modifies this
      ensures ref == old(id) && id == old(id) + 1 && simTime == old(simTime)
      ensures queue == Insert(old(queue), Event(time, kind, ref))
      ensures Event(time, kind, ref) !in s && Holding(s + {Event(time, kind, ref)})
    {
      var e := Event(time, kind, id);
      InsertHolds(queue, s, id, e);
      id := id + 1;
      var i := 0;
      while i < |queue| && Compare(queue[i], e) < 0
        invariant i <= |queue|
        invariant forall k :: 0 <= k < i ==> Compare(queue[k], e) < 0
      {
        i := i + 1;
      }
      L.PlaceIs(Compare, queue, e, i);
      queue := queue[..i] + [e] + queue[i..];
      ref := e.id;
    }

    /** simulatorRemoveEvent. */
    method RemoveEvent(ref: nat, ghost s: set<Event>, ghost e: Event)
      requires Holding(s) && e in s && e.id == ref
      modifies this`queue
      ensures queue == Without(old(queue), ref) && Holding(s - {e})
      ensures |queue| == |old(queue)| - 1
    {
      WithoutHolds(queue, s, id, e);
      queue := Without(queue, ref);
    }
  }
}

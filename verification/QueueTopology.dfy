// apps/worker/src/relay/queue-topology.ts: which queues an event type goes to.
module QueueTopology {
  datatype QueueDefinition = QueueDefinition(
    name: string, dlqName: string, maxReceiveCount: nat, subscribedEventTypes: seq<string>)

  type Topology = seq<QueueDefinition>

  // The queues subscribed to an event type, in the topology's order.
  function ResolveDestinations(eventType: string, topology: Topology): (r: seq<QueueDefinition>)
    ensures forall q :: q in r <==> q in topology && eventType in q.subscribedEventTypes
  {
    if topology == [] then []
    else
      var rest := ResolveDestinations(eventType, topology[1..]);
      if eventType in topology[0].subscribedEventTypes then [topology[0]] + rest else rest
  }

  // No two queues share a name.
  ghost predicate DistinctNames(queues: seq<QueueDefinition>) {
    forall i, j :: 0 <= i < j < |queues| ==> queues[i].name != queues[j].name
  }

  lemma {:induction false} DestinationsAreDistinct(eventType: string, topology: Topology)
    requires DistinctNames(topology)
    ensures DistinctNames(ResolveDestinations(eventType, topology))
  {
    if topology != [] {
      DestinationsAreDistinct(eventType, topology[1..]);
      var rest := ResolveDestinations(eventType, topology[1..]);
      forall q | q in rest ensures q.name != topology[0].name {
        var i :| 0 <= i < |topology[1..]| && topology[1..][i] == q;
        assert topology[i + 1] == q;
      }
      forall j | 0 <= j < |rest| ensures rest[j].name != topology[0].name { assert rest[j] in rest; }
    }
  }

  // Destinations come in the topology's own order, one for each subscription.
  lemma {:induction false} DestinationsKeepOrder(eventType: string, first: Topology, rest: Topology)
    ensures ResolveDestinations(eventType, first + rest)
            == ResolveDestinations(eventType, first) + ResolveDestinations(eventType, rest)
  {
    if first == [] {
      assert first + rest == rest;
    } else {
      DestinationsKeepOrder(eventType, first[1..], rest);
      hide ResolveDestinations;
      var all := first + rest;
      assert all[0] == first[0] && all[1..] == first[1..] + rest;
      OneMoreQueue(eventType, all);
      OneMoreQueue(eventType, first);
    }
  }

  lemma OneMoreQueue(eventType: string, topology: Topology)
    requires topology != []
    ensures ResolveDestinations(eventType, topology)
            == (if eventType in topology[0].subscribedEventTypes then [topology[0]] else [])
               + ResolveDestinations(eventType, topology[1..])
  {}
}

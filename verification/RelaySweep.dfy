// One tick of apps/worker/src/relay/outbox-relay.sweep.ts, step by step, and what it computes.
module RelaySweep {
  import opened Prelude
  import opened QueueTopology
  import opened OutboxRelay

  datatype OutboxEvent = OutboxEvent(id: int, eventType: string, occurredAt: int, published: bool)

  // What becomes of one send: it arrives, it arrives but the reply is lost, or it does not arrive.
  datatype Outcome = Delivered | ReplyLost | Refused

  // A tick tries each event on each queue at most once.
  type Network = (int, string) -> Outcome

  datatype SweepResult = SweepResult(claimed: nat, published: nat, sent: nat, failed: seq<int>)

  // --- What a tick does --------------------------------------------------------------------------------------------

  // The first unpublished rows of a table kept in order of occurrence.
  function Claim(rows: seq<OutboxEvent>, limit: nat): (r: seq<OutboxEvent>)
    ensures |r| <= limit
  {
    if rows == [] || limit == 0 then []
    else if rows[0].published then Claim(rows[1..], limit)
    else [rows[0]] + Claim(rows[1..], limit - 1)
  }

  function Marked(rows: seq<OutboxEvent>, ids: seq<int>): (r: seq<OutboxEvent>)
    ensures |r| == |rows|
    ensures forall i :: 0 <= i < |r| ==> r[i] == if rows[i].id in ids then rows[i].(published := true) else rows[i]
  {
    seq(|rows|, i requires 0 <= i < |rows| => if rows[i].id in ids then rows[i].(published := true) else rows[i])
  }

  // The sends of a row stop at the first that fails.
  function Arrivals(queues: seq<QueueDefinition>, e: int, net: Network): seq<(int, string)> {
    if queues == [] then []
    else
      match net(e, queues[0].name)
      case Delivered => [(e, queues[0].name)] + Arrivals(queues[1..], e, net)
      case ReplyLost => [(e, queues[0].name)]
      case Refused => []
  }

  function Replies(queues: seq<QueueDefinition>, e: int, net: Network): nat {
    if queues == [] || !net(e, queues[0].name).Delivered? then 0 else 1 + Replies(queues[1..], e, net)
  }

  predicate Succeeds(queues: seq<QueueDefinition>, e: int, net: Network) {
    forall i :: 0 <= i < |queues| ==> net(e, queues[i].name).Delivered?
  }

  predicate RowSucceeds(topology: Topology, row: OutboxEvent, net: Network) {
    Succeeds(ResolveDestinations(row.eventType, topology), row.id, net)
  }

  function RowArrivals(topology: Topology, row: OutboxEvent, net: Network): seq<(int, string)> {
    Arrivals(ResolveDestinations(row.eventType, topology), row.id, net)
  }

  function AllArrivals(topology: Topology, claimed: seq<OutboxEvent>, net: Network): seq<(int, string)> {
    if claimed == [] then []
    else AllArrivals(topology, claimed[..|claimed| - 1], net) + RowArrivals(topology, claimed[|claimed| - 1], net)
  }

  function AllReplies(topology: Topology, claimed: seq<OutboxEvent>, net: Network): nat {
    if claimed == [] then 0
    else
      var last := claimed[|claimed| - 1];
      AllReplies(topology, claimed[..|claimed| - 1], net)
      + Replies(ResolveDestinations(last.eventType, topology), last.id, net)
  }

  function Finished(topology: Topology, claimed: seq<OutboxEvent>, net: Network): seq<int> {
    if claimed == [] then []
    else
      var last := claimed[|claimed| - 1];
      Finished(topology, claimed[..|claimed| - 1], net) + (if RowSucceeds(topology, last, net) then [last.id] else [])
  }

  function Failed(topology: Topology, claimed: seq<OutboxEvent>, net: Network): seq<int> {
    if claimed == [] then []
    else
      var last := claimed[|claimed| - 1];
      Failed(topology, claimed[..|claimed| - 1], net) + (if RowSucceeds(topology, last, net) then [] else [last.id])
  }

  // The rows after a tick that was not interrupted.
  function Swept(topology: Topology, rows: seq<OutboxEvent>, net: Network): (r: seq<OutboxEvent>)
    ensures |r| == |rows|
  {
    Marked(rows, Finished(topology, Claim(rows, RELAY_BATCH_SIZE), net))
  }

  // An interruption strikes just after a row whose sends all succeeded.
  predicate Interrupts(topology: Topology, claimed: seq<OutboxEvent>, net: Network, at: Option<nat>) {
    at.Some? && at.value < |claimed| && RowSucceeds(topology, claimed[at.value], net)
  }

  // --- The tick ----------------------------------------------------------------------------------------------------

  class OutboxTable {
    var rows: seq<OutboxEvent>

    constructor ()
      ensures rows == []
    {
      rows := [];
    }

    method ClaimUnpublished(limit: nat) returns (claimed: seq<OutboxEvent>)
      ensures claimed == Claim(rows, limit)
    {
      claimed := [];
      var i := 0;
      assert rows[0..] == rows;
      while i < |rows| && |claimed| < limit
        invariant 0 <= i <= |rows| && |claimed| <= limit
        invariant claimed + Claim(rows[i..], limit - |claimed|) == Claim(rows, limit)
      {
        assert rows[i..][1..] == rows[i + 1..];
        if !rows[i].published { claimed := claimed + [rows[i]]; }
        i := i + 1;
      }
    }

    method MarkPublished(ids: seq<int>)
      modifies this
      ensures rows == Marked(old(rows), ids)
    {
      if |ids| == 0 { return; }
      rows := Marked(rows, ids);
    }
  }

  class Publisher {
    var arrived: seq<(int, string)>

    constructor ()
      ensures arrived == []
    {
      arrived := [];
    }

    method Send(queueName: string, e: int, net: Network) returns (ok: bool)
      modifies this
      ensures ok <==> net(e, queueName).Delivered?
      ensures arrived == old(arrived) + (if net(e, queueName).Refused? then [] else [(e, queueName)])
    {
      if !net(e, queueName).Refused? { arrived := arrived + [(e, queueName)]; }
      ok := net(e, queueName).Delivered?;
    }
  }

  // The result, or None when the tick was interrupted and its transaction rolled back.
  method RunOutboxRelaySweep(table: OutboxTable, publisher: Publisher, topology: Topology, net: Network,
                             interruptAt: Option<nat>)
    returns (result: Option<SweepResult>)
    modifies table, publisher
    ensures var claimed := Claim(old(table.rows), RELAY_BATCH_SIZE);
            if Interrupts(topology, claimed, net, interruptAt) then
              && result.None? && table.rows == old(table.rows)
              && publisher.arrived
                 == old(publisher.arrived) + AllArrivals(topology, claimed[..interruptAt.value + 1], net)
            else
              && result == Some(SweepResult(|claimed|, |Finished(topology, claimed, net)|,
                                            AllReplies(topology, claimed, net),
                                            Failed(topology, claimed, net)))
              && table.rows == Swept(topology, old(table.rows), net)
              && publisher.arrived == old(publisher.arrived) + AllArrivals(topology, claimed, net)
  {
    hide Claim, Marked, Arrivals, Replies, Finished, Failed, AllArrivals, AllReplies, Succeeds, RowArrivals,
         ResolveDestinations;
    var claimed := table.ClaimUnpublished(RELAY_BATCH_SIZE);
    var finished: seq<int> := [];
    var failed: seq<int> := [];
    var sent := 0;
    NoRows(topology, claimed, net);
    for index := 0 to |claimed|
      invariant finished == Finished(topology, claimed[..index], net)
                && failed == Failed(topology, claimed[..index], net)
      invariant sent == AllReplies(topology, claimed[..index], net)
      invariant publisher.arrived == old(publisher.arrived) + AllArrivals(topology, claimed[..index], net)
      invariant table.rows == old(table.rows)
      invariant forall i :: 0 <= i < index ==> interruptAt != Some(i) || !Interrupts(topology, claimed, net, Some(i))
    {
      OneMoreRow(topology, claimed, index, net);
      var event := claimed[index];
      var replies, ok := SendRow(publisher, ResolveDestinations(event.eventType, topology), event.id, net);
      sent := sent + replies;
      if !ok {
        failed := failed + [event.id];
        continue;
      }
      finished := finished + [event.id];
      if interruptAt == Some(index) { return None; }
    }
    table.MarkPublished(finished);
    return Some(SweepResult(|claimed|, |finished|, sent, failed));
  }

  lemma NoRows(topology: Topology, claimed: seq<OutboxEvent>, net: Network)
    ensures claimed[..|claimed|] == claimed && claimed[..0] == []
    ensures Finished(topology, [], net) == [] && Failed(topology, [], net) == [] && AllReplies(topology, [], net) == 0
    ensures forall s :: s + AllArrivals(topology, [], net) == s
  {}

  lemma OneMoreRow(topology: Topology, claimed: seq<OutboxEvent>, i: nat, net: Network)
    requires i < |claimed|
    ensures var row, some, more := claimed[i], claimed[..i], claimed[..i + 1];
            var queues := ResolveDestinations(row.eventType, topology);
            var ok := Succeeds(queues, row.id, net);
            && ok == RowSucceeds(topology, row, net)
            && Finished(topology, more, net)
               == (if ok then Finished(topology, some, net) + [row.id] else Finished(topology, some, net))
            && Failed(topology, more, net)
               == (if ok then Failed(topology, some, net) else Failed(topology, some, net) + [row.id])
            && AllReplies(topology, more, net) == AllReplies(topology, some, net) + Replies(queues, row.id, net)
            && forall s ::
                 s + AllArrivals(topology, more, net)
                 == (s + AllArrivals(topology, some, net)) + Arrivals(queues, row.id, net)
  {
    hide Arrivals, Replies, Succeeds, ResolveDestinations;
    assert claimed[..i + 1][..i] == claimed[..i];
  }

  method SendRow(publisher: Publisher, queues: seq<QueueDefinition>, e: int, net: Network) returns (sent: nat, ok: bool)
    modifies publisher
    ensures sent == Replies(queues, e, net) && (ok <==> Succeeds(queues, e, net))
    ensures publisher.arrived == old(publisher.arrived) + Arrivals(queues, e, net)
  {
    sent := 0;
    assert queues[0..] == queues;
    for i := 0 to |queues|
      invariant sent == i && sent + Replies(queues[i..], e, net) == Replies(queues, e, net)
      invariant publisher.arrived + Arrivals(queues[i..], e, net) == old(publisher.arrived) + Arrivals(queues, e, net)
      invariant forall j :: 0 <= j < i ==> net(e, queues[j].name).Delivered?
    {
      assert queues[i..][1..] == queues[i + 1..];
      var delivered := publisher.Send(queues[i].name, e, net);
      if !delivered { return sent, false; }
      sent := sent + 1;
    }
    ok := true;
  }

  // --- What the counts count ---------------------------------------------------------------------------------------

  // A row's reply count is the number of queues before the first that did not reply; what arrived is a message for each
  // of those, and one more where the first that did not reply had taken it all the same.
  lemma {:induction false} RepliesAre(queues: seq<QueueDefinition>, e: int, net: Network)
    ensures var n := Replies(queues, e, net);
            && n <= |queues|
            && (forall i :: 0 <= i < n ==> net(e, queues[i].name).Delivered?)
            && (n < |queues| ==> !net(e, queues[n].name).Delivered?)
            && (Succeeds(queues, e, net) <==> n == |queues|)
            && |Arrivals(queues, e, net)| == n + (if n < |queues| && net(e, queues[n].name).ReplyLost? then 1 else 0)
            && forall i :: 0 <= i < |Arrivals(queues, e, net)| ==> Arrivals(queues, e, net)[i] == (e, queues[i].name)
  {
    if queues != [] && net(e, queues[0].name).Delivered? {
      RepliesAre(queues[1..], e, net);
      assert forall i :: 0 < i < |queues| ==> queues[i] == queues[1..][i - 1];
    }
  }

  // A row whose last send arrived without a reply.
  ghost predicate LosesReply(topology: Topology, row: OutboxEvent, net: Network) {
    var queues := ResolveDestinations(row.eventType, topology);
    var n := Replies(queues, row.id, net);
    n < |queues| && net(row.id, queues[n].name).ReplyLost?
  }

  ghost function RepliesLost(topology: Topology, claimed: seq<OutboxEvent>, net: Network): nat {
    if claimed == [] then 0
    else
      RepliesLost(topology, claimed[..|claimed| - 1], net)
      + (if LosesReply(topology, claimed[|claimed| - 1], net) then 1 else 0)
  }

  // The counts of a tick add up: every claimed row is published or failed, and the messages that arrived are those
  // counted as sent and one for each lost reply.
  lemma {:induction false} TickAddsUp(topology: Topology, claimed: seq<OutboxEvent>, net: Network)
    ensures |claimed| == |Finished(topology, claimed, net)| + |Failed(topology, claimed, net)|
    ensures |AllArrivals(topology, claimed, net)|
            == AllReplies(topology, claimed, net) + RepliesLost(topology, claimed, net)
    ensures forall r :: r in claimed ==>
              if RowSucceeds(topology, r, net) then r.id in Finished(topology, claimed, net)
              else r.id in Failed(topology, claimed, net)
  {
    hide Replies, Arrivals, Succeeds, ResolveDestinations;
    if claimed != [] {
      var last := claimed[|claimed| - 1];
      TickAddsUp(topology, claimed[..|claimed| - 1], net);
      RepliesAre(ResolveDestinations(last.eventType, topology), last.id, net);
      assert claimed == claimed[..|claimed| - 1] + [last];
    }
  }
}

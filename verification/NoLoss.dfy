// Relay, queues and consumers together: an event committed to the outbox is never lost on its way to a ledger, whatever
// fails in between, and no queue sees an event it is not subscribed to.
module NoLoss {
  import opened Prelude
  import opened QueueTopology
  import Relay = OutboxRelay
  import Sqs = SqsDelivery

  datatype State = State(outbox: Relay.Outbox, delivery: Sqs.Delivery)

  datatype Step = FromRelay(relay: Relay.RelayStep) | OnQueues(queues: Sqs.QueueStep)

  const EMPTY: State := State(Relay.EMPTY, Sqs.EMPTY)

  // Envelopes come from the relay alone; anyone may leave a message that is no envelope.
  ghost predicate Enabled(cfg: Sqs.Config, s: State, step: Step) {
    match step
    case FromRelay(r) => Relay.Enabled(cfg.topology, s.outbox, r)
    case OnQueues(q) => Sqs.Enabled(cfg, s.delivery, q) && (q.Arrive? ==> q.event.None?)
  }

  ghost function Deposited(cfg: Sqs.Config, d: Sqs.Delivery, landing: seq<(int, string)>): Sqs.Delivery {
    if landing == [] then d else Sqs.Next(cfg, d, Sqs.Arrive(landing[0].1, Some(landing[0].0)))
  }

  ghost function Next(cfg: Sqs.Config, s: State, step: Step): State
    requires Enabled(cfg, s, step)
  {
    match step
    case FromRelay(r) =>
      State(Relay.Next(cfg.topology, s.outbox, r), Deposited(cfg, s.delivery, Relay.Landing(cfg.topology, s.outbox, r)))
    case OnQueues(q) => State(s.outbox, Sqs.Next(cfg, s.delivery, q))
  }

  ghost predicate Runs(cfg: Sqs.Config, s: State, steps: seq<Step>)
    decreases |steps|
  {
    steps == [] || (Enabled(cfg, s, steps[0]) && Runs(cfg, Next(cfg, s, steps[0]), steps[1..]))
  }

  ghost function After(cfg: Sqs.Config, s: State, steps: seq<Step>): State
    requires Runs(cfg, s, steps)
    decreases |steps|
  {
    if steps == [] then s else After(cfg, Next(cfg, s, steps[0]), steps[1..])
  }

  ghost predicate SentIsAccounted(s: State) {
    forall e, queue :: (e, queue) in s.outbox.sent ==> Sqs.Accounted(s.delivery, queue, e)
  }

  ghost predicate Subscribed(topology: Topology, o: Relay.Outbox, e: int, queue: string) {
    e in o.rows && exists q :: q in topology && q.name == queue && o.rows[e].eventType in q.subscribedEventTypes
  }

  // What is on a queue, or on its way out of one, was sent there, and only to subscribed queues.
  ghost predicate NothingInvented(cfg: Sqs.Config, s: State) {
    && (forall e, queue :: (e, queue) in s.outbox.sent ==> Subscribed(cfg.topology, s.outbox, e, queue))
    && (forall c :: c in s.delivery.copies && s.delivery.copies[c].event.Some? ==>
          (s.delivery.copies[c].event.value, s.delivery.copies[c].queue) in s.outbox.sent)
  }

  ghost predicate Inv(cfg: Sqs.Config, s: State) {
    && Relay.Inv(cfg.topology, s.outbox) && Sqs.Inv(cfg, s.delivery) && SentIsAccounted(s) && NothingInvented(cfg, s)
  }

  lemma ArriveKeeps(cfg: Sqs.Config, d: Sqs.Delivery, landing: seq<(int, string)>)
    requires Sqs.Inv(cfg, d)
    ensures Sqs.Inv(cfg, Deposited(cfg, d, landing))
    ensures forall e, queue :: Sqs.Accounted(d, queue, e) ==> Sqs.Accounted(Deposited(cfg, d, landing), queue, e)
    ensures landing != [] ==> Sqs.Accounted(Deposited(cfg, d, landing), landing[0].1, landing[0].0)
  {
    hide Sqs.Inv, Sqs.Accounted;
    if landing != [] {
      var step := Sqs.Arrive(landing[0].1, Some(landing[0].0));
      Sqs.StepKeepsInv(cfg, d, step);
      forall e, queue | Sqs.Accounted(d, queue, e) ensures Sqs.Accounted(Sqs.Next(cfg, d, step), queue, e) {
        Sqs.AccountedStays(cfg, d, step, queue, e);
      }
      Arrived(cfg, d, landing[0].1, landing[0].0);
    }
  }

  lemma Arrived(cfg: Sqs.Config, d: Sqs.Delivery, queue: string, e: int)
    ensures Sqs.Accounted(Sqs.Next(cfg, d, Sqs.Arrive(queue, Some(e))), queue, e)
  {
    var next := Sqs.Next(cfg, d, Sqs.Arrive(queue, Some(e)));
    assert d.nextCopy in next.copies;
  }

  lemma RelayKeepsAccounts(cfg: Sqs.Config, s: State, r: Relay.RelayStep)
    requires Sqs.Inv(cfg, s.delivery) && SentIsAccounted(s) && Enabled(cfg, s, FromRelay(r))
    ensures SentIsAccounted(Next(cfg, s, FromRelay(r)))
  {
    hide Sqs.Inv, Sqs.Accounted, Relay.Enabled, Relay.Next, Relay.Landing, Deposited;
    var landing := Relay.Landing(cfg.topology, s.outbox, r);
    ArriveKeeps(cfg, s.delivery, landing);
    Relay.AtMostOneLands(cfg.topology, s.outbox, r);
    forall e, queue | (e, queue) in Relay.Next(cfg.topology, s.outbox, r).sent
      ensures Sqs.Accounted(Deposited(cfg, s.delivery, landing), queue, e)
    {
      Relay.SentAfter(cfg.topology, s.outbox, r, e, queue);
    }
  }

  lemma QueuesKeepAccounts(cfg: Sqs.Config, s: State, q: Sqs.QueueStep)
    requires Sqs.Inv(cfg, s.delivery) && SentIsAccounted(s) && Enabled(cfg, s, OnQueues(q))
    ensures SentIsAccounted(Next(cfg, s, OnQueues(q)))
  {
    hide Sqs.Inv, Sqs.Accounted, Sqs.Enabled, Sqs.Next;
    forall e, queue | (e, queue) in s.outbox.sent ensures Sqs.Accounted(Sqs.Next(cfg, s.delivery, q), queue, e) {
      Sqs.AccountedStays(cfg, s.delivery, q, queue, e);
    }
  }

  lemma LandsWhereSubscribed(topology: Topology, o: Relay.Outbox, r: Relay.RelayStep)
    requires Relay.Landing(topology, o, r) != []
    ensures var (e, queue) := Relay.Landing(topology, o, r)[0]; Subscribed(topology, o, e, queue)
  {
    var all := Relay.CurrentDestinations(topology, o, r.tick);
    assert all[o.ticks[r.tick].dest] in all;
  }

  lemma RelayInventsNothing(cfg: Sqs.Config, s: State, r: Relay.RelayStep)
    requires NothingInvented(cfg, s) && Enabled(cfg, s, FromRelay(r))
    ensures NothingInvented(cfg, Next(cfg, s, FromRelay(r)))
  {
    hide Relay.Enabled, Relay.Next, Relay.Landing, Sqs.MaxReceives;
    var landing, next := Relay.Landing(cfg.topology, s.outbox, r), Relay.Next(cfg.topology, s.outbox, r);
    Relay.NothingIsForgotten(cfg.topology, s.outbox, r);
    Relay.AtMostOneLands(cfg.topology, s.outbox, r);
    if landing != [] {
      LandsWhereSubscribed(cfg.topology, s.outbox, r);
      Relay.SentAfter(cfg.topology, s.outbox, r, landing[0].0, landing[0].1);
    }
    forall e, queue | (e, queue) in next.sent ensures Subscribed(cfg.topology, next, e, queue) {
      Relay.SentAfter(cfg.topology, s.outbox, r, e, queue);
      assert Subscribed(cfg.topology, s.outbox, e, queue);
    }
    forall m: (int, string) | m in s.outbox.sent ensures m in next.sent { assert s.outbox.sent[m] <= next.sent[m]; }
  }

  lemma QueuesInventNothing(cfg: Sqs.Config, s: State, q: Sqs.QueueStep)
    requires NothingInvented(cfg, s) && Enabled(cfg, s, OnQueues(q))
    ensures NothingInvented(cfg, Next(cfg, s, OnQueues(q)))
  {
    hide Sqs.MaxReceives, Sqs.Received, Sqs.Receivable, Subscribed;
  }

  lemma StepKeepsInv(cfg: Sqs.Config, s: State, step: Step)
    requires DistinctNames(cfg.topology) && Inv(cfg, s) && Enabled(cfg, s, step)
    ensures Inv(cfg, Next(cfg, s, step))
  {
    hide Relay.Inv, Sqs.Inv, SentIsAccounted, NothingInvented, Relay.Enabled, Sqs.Enabled, Relay.Next, Sqs.Next,
         Relay.Landing, Deposited;
    match step {
      case FromRelay(r) =>
        Relay.StepKeepsInv(cfg.topology, s.outbox, r);
        ArriveKeeps(cfg, s.delivery, Relay.Landing(cfg.topology, s.outbox, r));
        RelayKeepsAccounts(cfg, s, r);
        RelayInventsNothing(cfg, s, r);
      case OnQueues(q) =>
        Sqs.StepKeepsInv(cfg, s.delivery, q);
        QueuesKeepAccounts(cfg, s, q);
        QueuesInventNothing(cfg, s, q);
    }
  }

  ghost predicate Reachable(cfg: Sqs.Config, s: State) {
    exists steps :: Runs(cfg, EMPTY, steps) && After(cfg, EMPTY, steps) == s
  }

  lemma {:induction false} RunsKeepInv(cfg: Sqs.Config, s: State, steps: seq<Step>)
    requires DistinctNames(cfg.topology) && Inv(cfg, s) && Runs(cfg, s, steps)
    ensures Inv(cfg, After(cfg, s, steps))
    decreases |steps|
  {
    hide Inv, Enabled, Next;
    if steps != [] {
      StepKeepsInv(cfg, s, steps[0]);
      RunsKeepInv(cfg, Next(cfg, s, steps[0]), steps[1..]);
    }
  }

  lemma ReachableIsSound(cfg: Sqs.Config, s: State)
    requires DistinctNames(cfg.topology) && Reachable(cfg, s)
    ensures Inv(cfg, s)
  {
    hide Enabled, Next;
    var steps :| Runs(cfg, EMPTY, steps) && After(cfg, EMPTY, steps) == s;
    RunsKeepInv(cfg, EMPTY, steps);
  }

  // At every moment of every run, an appended event still waits in the outbox, or each queue subscribed to its type has
  // it: on the queue, on its dead-letter queue, or processed.
  lemma NothingIsLost(cfg: Sqs.Config, s: State, e: int, q: QueueDefinition)
    requires DistinctNames(cfg.topology) && Reachable(cfg, s) && e in s.outbox.rows
    requires q in cfg.topology && s.outbox.rows[e].eventType in q.subscribedEventTypes
    ensures || !s.outbox.rows[e].published
            || (exists c :: && c in s.delivery.copies
                            && s.delivery.copies[c].queue == q.name && s.delivery.copies[c].event == Some(e))
            || (q.name, e) in s.delivery.ledger
  {
    hide Reachable, Relay.TicksAreSound, Relay.ClaimsAreApart, Relay.ClaimsAreCounted, Relay.SendsAreCounted, Sqs.Inv,
         NothingInvented;
    ReachableIsSound(cfg, s);
    if s.outbox.rows[e].published {
      assert q in Relay.Destinations(cfg.topology, s.outbox.rows[e]);
      assert (e, q.name) in s.outbox.sent;
      assert Sqs.Accounted(s.delivery, q.name, e);
    }
  }

  // A queue only ever holds envelopes of appended events of a type it is subscribed to.
  lemma QueuesHoldWhatTheySubscribedTo(cfg: Sqs.Config, s: State, c: int)
    requires DistinctNames(cfg.topology) && Reachable(cfg, s)
    requires c in s.delivery.copies && s.delivery.copies[c].event.Some?
    ensures Subscribed(cfg.topology, s.outbox, s.delivery.copies[c].event.value, s.delivery.copies[c].queue)
  {
    hide Reachable, Relay.Inv, Sqs.Inv, Subscribed, SentIsAccounted;
    ReachableIsSound(cfg, s);
  }
}

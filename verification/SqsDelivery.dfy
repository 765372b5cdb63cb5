// The consuming side as a state machine: packages/platform/src/sqs-consumer.ts polling queues that redeliver, with the
// ledger of packages/persistence/src/repositories/processed-event.repository.ts, a process crash possible anywhere.
module SqsDelivery {
  import opened Prelude
  import opened QueueTopology

  // Messages asked for at a time.
  const MAX_MESSAGES: nat := 10

  // The queues, and the queue each consumer polls.
  datatype Config = Config(topology: Topology, consumers: map<int, string>)

  datatype Place = Visible | InFlight | DeadLetter

  // A message on a queue or its dead-letter queue. A body that is no relay envelope carries no event.
  datatype Copy = Copy(queue: string, event: Option<int>, place: Place, receives: nat)

  // A message as received.
  datatype Message = Message(copy: int, event: Option<int>)

  // Where a consumer is in its poll: before the first message of the rest of its batch, in that message's handler, past
  // the handler but not the ledger, or about to delete it.
  datatype Phase =
    | Idle
    | Between(batch: seq<Message>)
    | Handling(batch: seq<Message>, event: int)
    | Handled(batch: seq<Message>, event: int)
    | Deleting(batch: seq<Message>, event: int)

  // `runs` counts handler calls that succeeded, `interruptions` polls that broke off between such a call and its ledger
  // entry: a crash there, or the ledger write failing.
  datatype Delivery = Delivery(
    copies: map<int, Copy>, nextCopy: int, ledger: set<(string, int)>, phases: map<int, Phase>,
    runs: multiset<(string, int)>, interruptions: multiset<(string, int)>)

  datatype QueueStep =
    | Arrive(queue: string, event: Option<int>)
    | TimesOut(copy: int)
    | Redrive(copy: int)
    | Poll(consumer: int, copies: seq<int>)
    | Check(consumer: int)
    | HandlerOk(consumer: int)
    | HandlerFails(consumer: int)
    | Mark(consumer: int)
    | Delete(consumer: int, took: bool)
    | Interrupt(consumer: int)
    | PollDone(consumer: int)

  const EMPTY: Delivery := Delivery(map[], 0, {}, map[], multiset{}, multiset{})

  function PhaseOf(d: Delivery, k: int): Phase { if k in d.phases then d.phases[k] else Idle }

  function MaxReceives(topology: Topology, queue: string): nat {
    if topology == [] then 0
    else if topology[0].name == queue then topology[0].maxReceiveCount else MaxReceives(topology[1..], queue)
  }

  predicate Receivable(cfg: Config, d: Delivery, c: int, queue: string) {
    c in d.copies && d.copies[c].queue == queue && d.copies[c].place.Visible?
    && d.copies[c].receives < MaxReceives(cfg.topology, queue)
  }

  ghost predicate Enabled(cfg: Config, d: Delivery, step: QueueStep) {
    match step
    case Arrive(_, _) => true
    case TimesOut(c) => c in d.copies && d.copies[c].place.InFlight?
    case Redrive(c) =>
      c in d.copies && d.copies[c].place.Visible?
        && d.copies[c].receives >= MaxReceives(cfg.topology, d.copies[c].queue)
    case Poll(k, batch) =>
      && k in cfg.consumers && PhaseOf(d, k).Idle? && |batch| <= MAX_MESSAGES
      && (forall i, j :: 0 <= i < j < |batch| ==> batch[i] != batch[j])
      && (forall i :: 0 <= i < |batch| ==> Receivable(cfg, d, batch[i], cfg.consumers[k]))
    case Check(k) => k in cfg.consumers && PhaseOf(d, k).Between? && PhaseOf(d, k).batch != []
    case HandlerOk(k) => k in cfg.consumers && PhaseOf(d, k).Handling?
    case HandlerFails(k) => k in cfg.consumers && PhaseOf(d, k).Handling? && PhaseOf(d, k).batch != []
    case Mark(k) => k in cfg.consumers && PhaseOf(d, k).Handled?
    case Delete(k, _) => k in cfg.consumers && PhaseOf(d, k).Deleting? && PhaseOf(d, k).batch != []
    case Interrupt(k) => k in cfg.consumers && !PhaseOf(d, k).Idle?
    case PollDone(k) => k in cfg.consumers && PhaseOf(d, k) == Between([])
  }

  // A visible message can be received or moved to the dead-letter queue, never both and never neither.
  lemma VisibleGoesOn(cfg: Config, d: Delivery, c: int)
    requires c in d.copies && d.copies[c].place.Visible?
    ensures Enabled(cfg, d, Redrive(c)) <==> !Receivable(cfg, d, c, d.copies[c].queue)
    ensures Enabled(cfg, d, Redrive(c)) <==> MaxReceives(cfg.topology, d.copies[c].queue) <= d.copies[c].receives
  {}

  function Received(d: Delivery, batch: seq<int>): (r: seq<Message>)
    requires forall i :: 0 <= i < |batch| ==> batch[i] in d.copies
    ensures |r| == |batch| && forall i :: 0 <= i < |r| ==> r[i] == Message(batch[i], d.copies[batch[i]].event)
  {
    seq(|batch|, i requires 0 <= i < |batch| => Message(batch[i], d.copies[batch[i]].event))
  }

  function Hidden(copies: map<int, Copy>, batch: seq<int>): map<int, Copy> {
    map c | c in copies ::
      if c in batch then copies[c].(place := InFlight, receives := copies[c].receives + 1) else copies[c]
  }

  function Moved(d: Delivery, k: int, phase: Phase): map<int, Phase> { d.phases[k := phase] }

  // A message that is still on its queue goes when it is deleted; a late receipt may do nothing.
  function Removed(copies: map<int, Copy>, c: int, took: bool): map<int, Copy> {
    if took && c in copies && !copies[c].place.DeadLetter? then copies - {c} else copies
  }

  ghost function Next(cfg: Config, d: Delivery, step: QueueStep): Delivery
    requires Enabled(cfg, d, step)
  {
    match step
    case Arrive(queue, event) =>
      d.(copies := d.copies[d.nextCopy := Copy(queue, event, Visible, 0)], nextCopy := d.nextCopy + 1)
    case TimesOut(c) => d.(copies := d.copies[c := d.copies[c].(place := Visible)])
    case Redrive(c) => d.(copies := d.copies[c := d.copies[c].(place := DeadLetter)])
    case Poll(k, batch) => d.(copies := Hidden(d.copies, batch), phases := Moved(d, k, Between(Received(d, batch))))
    case Check(k) =>
      var batch := PhaseOf(d, k).batch;
      d.(phases := Moved(d, k,
        match batch[0].event
        case None => Between(batch[1..])
        case Some(e) => if (cfg.consumers[k], e) in d.ledger then Deleting(batch, e) else Handling(batch, e)))
    case HandlerOk(k) =>
      var phase := PhaseOf(d, k);
      d.(phases := Moved(d, k, Handled(phase.batch, phase.event)),
         runs := d.runs + multiset{(cfg.consumers[k], phase.event)})
    case HandlerFails(k) => d.(phases := Moved(d, k, Between(PhaseOf(d, k).batch[1..])))
    case Mark(k) =>
      var phase := PhaseOf(d, k);
      d.(phases := Moved(d, k, Deleting(phase.batch, phase.event)),
         ledger := d.ledger + {(cfg.consumers[k], phase.event)})
    case Delete(k, took) =>
      var batch := PhaseOf(d, k).batch;
      d.(copies := Removed(d.copies, batch[0].copy, took), phases := Moved(d, k, Between(batch[1..])))
    case Interrupt(k) =>
      var phase := PhaseOf(d, k);
      d.(phases := Moved(d, k, Idle),
         interruptions := if phase.Handled? then d.interruptions + multiset{(cfg.consumers[k], phase.event)}
                          else d.interruptions)
    case PollDone(k) => d.(phases := Moved(d, k, Idle))
  }

  ghost predicate Runs(cfg: Config, d: Delivery, steps: seq<QueueStep>)
    decreases |steps|
  {
    steps == [] || (Enabled(cfg, d, steps[0]) && Runs(cfg, Next(cfg, d, steps[0]), steps[1..]))
  }

  ghost function After(cfg: Config, d: Delivery, steps: seq<QueueStep>): Delivery
    requires Runs(cfg, d, steps)
    decreases |steps|
  {
    if steps == [] then d else After(cfg, Next(cfg, d, steps[0]), steps[1..])
  }

  // --- What every step keeps ---------------------------------------------------------------------------------------

  ghost predicate Matches(d: Delivery, queue: string, m: Message) {
    m.copy < d.nextCopy
    && (m.copy in d.copies ==> d.copies[m.copy].queue == queue && d.copies[m.copy].event == m.event)
  }

  ghost predicate PhaseIsSound(d: Delivery, queue: string, phase: Phase) {
    && (!phase.Idle? ==> forall i :: 0 <= i < |phase.batch| ==> Matches(d, queue, phase.batch[i]))
    && (phase.Handling? || phase.Handled? || phase.Deleting? ==>
          phase.batch != [] && phase.batch[0].event == Some(phase.event))
    && (phase.Deleting? ==> (queue, phase.event) in d.ledger)
  }

  ghost predicate CopyIsSound(cfg: Config, c: Copy) {
    && c.receives <= MaxReceives(cfg.topology, c.queue)
    && (c.place.DeadLetter? ==> c.receives == MaxReceives(cfg.topology, c.queue))
  }

  ghost predicate CopiesAreSound(cfg: Config, d: Delivery) {
    forall c :: c in d.copies ==> c < d.nextCopy && CopyIsSound(cfg, d.copies[c])
  }

  ghost predicate PhasesAreSound(cfg: Config, d: Delivery) {
    forall k :: k in cfg.consumers ==> PhaseIsSound(d, cfg.consumers[k], PhaseOf(d, k))
  }

  ghost predicate Inv(cfg: Config, d: Delivery) { CopiesAreSound(cfg, d) && PhasesAreSound(cfg, d) }

  lemma StepKeepsCopiesSound(cfg: Config, d: Delivery, step: QueueStep)
    requires Inv(cfg, d) && Enabled(cfg, d, step)
    ensures CopiesAreSound(cfg, Next(cfg, d, step))
  {
    hide MaxReceives, PhasesAreSound;
    if step.Poll? {
      forall c | c in step.copies ensures Receivable(cfg, d, c, cfg.consumers[step.consumer]) {
        var i :| 0 <= i < |step.copies| && step.copies[i] == c;
      }
    }
  }

  // Nothing a message was received as changes: its copy keeps its queue and event, or is gone for good.
  lemma CopiesKeepTheirEvent(cfg: Config, d: Delivery, step: QueueStep)
    requires Enabled(cfg, d, step)
    ensures var next := Next(cfg, d, step);
            && d.nextCopy <= next.nextCopy && d.ledger <= next.ledger
            && forall c :: c in next.copies && c < d.nextCopy ==>
                 (c in d.copies && next.copies[c].queue == d.copies[c].queue
                  && next.copies[c].event == d.copies[c].event)
  {
    hide MaxReceives, Received;
  }

  lemma SoundPhaseStays(d: Delivery, next: Delivery, queue: string, phase: Phase)
    requires PhaseIsSound(d, queue, phase) && d.nextCopy <= next.nextCopy && d.ledger <= next.ledger
    requires forall c :: c in next.copies && c < d.nextCopy ==>
               (c in d.copies && next.copies[c].queue == d.copies[c].queue && next.copies[c].event == d.copies[c].event)
    ensures PhaseIsSound(next, queue, phase)
  {}

  lemma StepKeepsPhasesSound(cfg: Config, d: Delivery, step: QueueStep)
    requires Inv(cfg, d) && Enabled(cfg, d, step)
    ensures PhasesAreSound(cfg, Next(cfg, d, step))
  {
    hide MaxReceives, PhaseIsSound, Hidden, Received, Removed, CopyIsSound;
    var next := Next(cfg, d, step);
    CopiesKeepTheirEvent(cfg, d, step);
    forall k | k in cfg.consumers ensures PhaseIsSound(next, cfg.consumers[k], PhaseOf(next, k)) {
      SoundPhaseStays(d, next, cfg.consumers[k], PhaseOf(d, k));
      if PhaseOf(next, k) != PhaseOf(d, k) { MovedPhaseIsSound(cfg, d, step, k); }
    }
  }

  lemma MovedPhaseIsSound(cfg: Config, d: Delivery, step: QueueStep, k: int)
    requires Inv(cfg, d) && Enabled(cfg, d, step) && k in cfg.consumers
    requires PhaseOf(Next(cfg, d, step), k) != PhaseOf(d, k)
    requires PhaseIsSound(Next(cfg, d, step), cfg.consumers[k], PhaseOf(d, k))
    ensures PhaseIsSound(Next(cfg, d, step), cfg.consumers[k], PhaseOf(Next(cfg, d, step), k))
  {
    hide MaxReceives, CopyIsSound;
  }

  lemma StepKeepsInv(cfg: Config, d: Delivery, step: QueueStep)
    requires Inv(cfg, d) && Enabled(cfg, d, step)
    ensures Inv(cfg, Next(cfg, d, step))
  {
    hide Enabled, Next, CopiesAreSound, PhasesAreSound;
    StepKeepsCopiesSound(cfg, d, step);
    StepKeepsPhasesSound(cfg, d, step);
  }

  // A message is removed by deletion only, after its event has entered the ledger.
  lemma DeletionIsSafe(cfg: Config, d: Delivery, step: QueueStep, c: int)
    requires Inv(cfg, d) && Enabled(cfg, d, step)
    requires c in d.copies && c !in Next(cfg, d, step).copies
    ensures d.copies[c].event.Some? && (d.copies[c].queue, d.copies[c].event.value) in d.ledger
    ensures step.Delete? && !d.copies[c].place.DeadLetter?
  {
    hide MaxReceives, CopyIsSound;
    var k := step.consumer;
    assert PhaseIsSound(d, cfg.consumers[k], PhaseOf(d, k));
  }

  // The event is on the queue, waiting or being handled, or on its dead-letter queue.
  ghost predicate OnQueue(d: Delivery, queue: string, e: int) {
    exists c :: c in d.copies && d.copies[c].queue == queue && d.copies[c].event == Some(e)
  }

  ghost predicate Accounted(d: Delivery, queue: string, e: int) { OnQueue(d, queue, e) || (queue, e) in d.ledger }

  lemma AccountedStays(cfg: Config, d: Delivery, step: QueueStep, queue: string, e: int)
    requires Inv(cfg, d) && Enabled(cfg, d, step) && Accounted(d, queue, e)
    ensures Accounted(Next(cfg, d, step), queue, e)
  {
    hide Inv, Enabled, Next;
    CopiesKeepTheirEvent(cfg, d, step);
    CopiesStay(cfg, d, step);
    if (queue, e) !in d.ledger {
      var c :| c in d.copies && d.copies[c].queue == queue && d.copies[c].event == Some(e);
      if c !in Next(cfg, d, step).copies { DeletionIsSafe(cfg, d, step, c); }
    }
  }

  lemma CopiesStay(cfg: Config, d: Delivery, step: QueueStep)
    requires Inv(cfg, d) && Enabled(cfg, d, step)
    ensures forall c :: c in d.copies && c in Next(cfg, d, step).copies ==>
              Next(cfg, d, step).copies[c].queue == d.copies[c].queue
                && Next(cfg, d, step).copies[c].event == d.copies[c].event
  {
    hide MaxReceives, Received, CopyIsSound, PhasesAreSound;
  }

  // --- One consumer to a queue -------------------------------------------------------------------------------------

  ghost predicate OneConsumer(cfg: Config, queue: string) {
    forall j, k :: j in cfg.consumers && k in cfg.consumers && cfg.consumers[j] == cfg.consumers[k] == queue ==> j == k
  }

  ghost predicate HandlerReturned(cfg: Config, d: Delivery, queue: string, e: int) {
    exists k :: k in cfg.consumers && cfg.consumers[k] == queue && PhaseOf(d, k).Handled? && PhaseOf(d, k).event == e
  }

  // An event in a consumer's handler, or just out of it, is not in the ledger yet.
  ghost predicate NoneTwice(cfg: Config, d: Delivery, queue: string) {
    forall k :: k in cfg.consumers && cfg.consumers[k] == queue ==>
      PhaseOf(d, k).Handling? || PhaseOf(d, k).Handled? ==> (queue, PhaseOf(d, k).event) !in d.ledger
  }

  // Every successful handler call led to the event's ledger entry, was cut off before it, or is just about to make it.
  ghost predicate RunsAreCounted(cfg: Config, d: Delivery, queue: string) {
    forall e :: RunIsCounted(cfg, d, queue, e)
  }

  ghost predicate RunIsCounted(cfg: Config, d: Delivery, queue: string, e: int) {
    d.runs[(queue, e)] == d.interruptions[(queue, e)] + (if (queue, e) in d.ledger then 1 else 0)
                          + (if HandlerReturned(cfg, d, queue, e) then 1 else 0)
  }

  lemma StepKeepsNoneTwice(cfg: Config, d: Delivery, step: QueueStep, queue: string)
    requires OneConsumer(cfg, queue) && NoneTwice(cfg, d, queue) && Enabled(cfg, d, step)
    ensures NoneTwice(cfg, Next(cfg, d, step), queue)
  {
    hide Hidden, Received, Removed, MaxReceives;
  }

  lemma StepKeepsRunCounted(cfg: Config, d: Delivery, step: QueueStep, queue: string, e: int)
    requires OneConsumer(cfg, queue) && NoneTwice(cfg, d, queue) && RunIsCounted(cfg, d, queue, e)
             && Enabled(cfg, d, step)
    ensures RunIsCounted(cfg, Next(cfg, d, step), queue, e)
  {
    hide Hidden, Received, Removed, MaxReceives;
  }

  // --- What holds over every run -----------------------------------------------------------------------------------

  ghost predicate Reachable(cfg: Config, d: Delivery) {
    exists steps :: Runs(cfg, EMPTY, steps) && After(cfg, EMPTY, steps) == d
  }

  lemma {:induction false} RunsKeepInv(cfg: Config, d: Delivery, steps: seq<QueueStep>)
    requires Inv(cfg, d) && Runs(cfg, d, steps)
    ensures Inv(cfg, After(cfg, d, steps))
    decreases |steps|
  {
    hide Inv, Enabled, Next;
    if steps != [] {
      StepKeepsInv(cfg, d, steps[0]);
      RunsKeepInv(cfg, Next(cfg, d, steps[0]), steps[1..]);
    }
  }

  lemma {:induction false} RunsKeepCounts(cfg: Config, d: Delivery, steps: seq<QueueStep>, queue: string)
    requires OneConsumer(cfg, queue) && NoneTwice(cfg, d, queue) && RunsAreCounted(cfg, d, queue) && Runs(cfg, d, steps)
    ensures NoneTwice(cfg, After(cfg, d, steps), queue) && RunsAreCounted(cfg, After(cfg, d, steps), queue)
    decreases |steps|
  {
    hide NoneTwice, RunIsCounted, OneConsumer, Enabled, Next;
    if steps != [] {
      var next := Next(cfg, d, steps[0]);
      StepKeepsNoneTwice(cfg, d, steps[0], queue);
      forall e ensures RunIsCounted(cfg, next, queue, e) { StepKeepsRunCounted(cfg, d, steps[0], queue, e); }
      RunsKeepCounts(cfg, next, steps[1..], queue);
    }
  }

  lemma ReachableIsSound(cfg: Config, d: Delivery)
    requires Reachable(cfg, d)
    ensures Inv(cfg, d)
  {
    hide Enabled, Next;
    var steps :| Runs(cfg, EMPTY, steps) && After(cfg, EMPTY, steps) == d;
    RunsKeepInv(cfg, EMPTY, steps);
  }

  lemma ReachableIsCounted(cfg: Config, d: Delivery, queue: string)
    requires Reachable(cfg, d) && OneConsumer(cfg, queue)
    ensures NoneTwice(cfg, d, queue) && RunsAreCounted(cfg, d, queue)
  {
    hide Enabled, Next, OneConsumer;
    var steps :| Runs(cfg, EMPTY, steps) && After(cfg, EMPTY, steps) == d;
    RunsKeepCounts(cfg, EMPTY, steps, queue);
  }

  // A message leaves its queue by deletion only, and only once its event is in the queue's ledger: one that is no
  // envelope never does, nor does a dead letter.
  lemma DeletedOnlyIfProcessed(cfg: Config, d: Delivery, step: QueueStep, c: int)
    requires Reachable(cfg, d) && Enabled(cfg, d, step)
    requires c in d.copies && c !in Next(cfg, d, step).copies
    ensures d.copies[c].event.Some? && (d.copies[c].queue, d.copies[c].event.value) in d.ledger
    ensures step.Delete? && !d.copies[c].place.DeadLetter?
  {
    hide Reachable, Enabled, Next;
    ReachableIsSound(cfg, d);
    DeletionIsSafe(cfg, d, step, c);
  }

  // How often a message was received over a run.
  ghost function TimesReceived(steps: seq<QueueStep>, c: int): nat {
    if steps == [] then 0
    else (if steps[0].Poll? && c in steps[0].copies then 1 else 0) + TimesReceived(steps[1..], c)
  }

  lemma ReceivesAfter(cfg: Config, d: Delivery, step: QueueStep, c: int)
    requires CopiesAreSound(cfg, d) && Enabled(cfg, d, step) && c in Next(cfg, d, step).copies
    ensures Next(cfg, d, step).copies[c].receives
            == (if c in d.copies then d.copies[c].receives else 0) + (if step.Poll? && c in step.copies then 1 else 0)
    ensures c in d.copies || c >= d.nextCopy
  {
    hide MaxReceives, Received;
  }

  lemma GoneForGood(cfg: Config, d: Delivery, step: QueueStep, c: int)
    requires Enabled(cfg, d, step)
    ensures d.nextCopy <= Next(cfg, d, step).nextCopy
    ensures c < d.nextCopy && c !in d.copies ==> c !in Next(cfg, d, step).copies
    ensures step.Poll? && c in step.copies ==> c in d.copies
  {
    hide MaxReceives, Received;
  }

  lemma {:induction false} ReceivesAreCounted(cfg: Config, d: Delivery, steps: seq<QueueStep>, c: int)
    requires Inv(cfg, d) && Runs(cfg, d, steps)
    ensures c in After(cfg, d, steps).copies ==>
              After(cfg, d, steps).copies[c].receives
              == (if c in d.copies then d.copies[c].receives else 0) + TimesReceived(steps, c)
    ensures c in After(cfg, d, steps).copies ==> c in d.copies || c >= d.nextCopy
    decreases |steps|
  {
    hide PhasesAreSound, CopyIsSound, Enabled, Next;
    if steps != [] {
      var next := Next(cfg, d, steps[0]);
      StepKeepsInv(cfg, d, steps[0]);
      GoneForGood(cfg, d, steps[0], c);
      ReceivesAreCounted(cfg, next, steps[1..], c);
      if c in next.copies { ReceivesAfter(cfg, d, steps[0], c); }
    }
  }

  // A dead letter was received over the run exactly as often as its queue allows.
  lemma DeadLettersWereReceived(cfg: Config, steps: seq<QueueStep>, c: int)
    requires Runs(cfg, EMPTY, steps)
    requires c in After(cfg, EMPTY, steps).copies && After(cfg, EMPTY, steps).copies[c].place.DeadLetter?
    ensures TimesReceived(steps, c) == MaxReceives(cfg.topology, After(cfg, EMPTY, steps).copies[c].queue)
  {
    hide Reachable, PhasesAreSound, Runs, After, MaxReceives;
    EmptyIsSound(cfg);
    ReceivesAreCounted(cfg, EMPTY, steps, c);
    RunsKeepInv(cfg, EMPTY, steps);
    assert CopyIsSound(cfg, After(cfg, EMPTY, steps).copies[c]);
  }

  lemma EmptyIsSound(cfg: Config)
    ensures Inv(cfg, EMPTY)
  {}

  // A message whose polls all break off is not received for ever: it ends on the dead-letter queue.
  lemma {:induction false} UnhandledEndsAsDeadLetter(cfg: Config, d: Delivery, c: int, k: int)
    returns (steps: seq<QueueStep>)
    requires Inv(cfg, d) && c in d.copies && k in cfg.consumers && cfg.consumers[k] == d.copies[c].queue
    requires PhaseOf(d, k).Idle?
    ensures Runs(cfg, d, steps) && c in After(cfg, d, steps).copies && After(cfg, d, steps).copies[c].place.DeadLetter?
    ensures After(cfg, d, steps).ledger == d.ledger && After(cfg, d, steps).runs == d.runs
    decreases MaxReceives(cfg.topology, d.copies[c].queue) - d.copies[c].receives,
              if d.copies[c].place.InFlight? then 1 else 0
  {
    hide MaxReceives, PhasesAreSound;
    match d.copies[c].place {
      case DeadLetter => steps := [];
      case InFlight =>
        StepKeepsInv(cfg, d, TimesOut(c));
        steps := UnhandledEndsAsDeadLetter(cfg, Next(cfg, d, TimesOut(c)), c, k);
        First(cfg, d, TimesOut(c), steps);
        steps := [TimesOut(c)] + steps;
      case Visible =>
        VisibleGoesOn(cfg, d, c);
        if Receivable(cfg, d, c, d.copies[c].queue) {
          var polled := Next(cfg, d, Poll(k, [c]));
          StepKeepsInv(cfg, d, Poll(k, [c]));
          var broken := Next(cfg, polled, Interrupt(k));
          StepKeepsInv(cfg, polled, Interrupt(k));
          steps := UnhandledEndsAsDeadLetter(cfg, broken, c, k);
          First(cfg, polled, Interrupt(k), steps);
          First(cfg, d, Poll(k, [c]), [Interrupt(k)] + steps);
          steps := [Poll(k, [c])] + ([Interrupt(k)] + steps);
        } else {
          var gone := Next(cfg, d, Redrive(c));
          assert Runs(cfg, gone, []);
          First(cfg, d, Redrive(c), []);
          steps := [Redrive(c)] + [];
        }
    }
  }

  lemma First(cfg: Config, d: Delivery, step: QueueStep, steps: seq<QueueStep>)
    requires Enabled(cfg, d, step) && Runs(cfg, Next(cfg, d, step), steps)
    ensures Runs(cfg, d, [step] + steps) && After(cfg, d, [step] + steps) == After(cfg, Next(cfg, d, step), steps)
  {
    hide Enabled, Next;
    assert ([step] + steps)[1..] == steps;
  }

  // The handler succeeds for an event once, and once more for each time a poll broke off between that and the ledger.
  ghost predicate RunsAreBounded(d: Delivery, queue: string) {
    forall e :: d.runs[(queue, e)] <= 1 + d.interruptions[(queue, e)]
  }

  // That bound holds of every run exactly when no two consumers poll the queue.
  lemma RunsAreBoundedIffOneConsumer(cfg: Config, queue: string)
    requires MaxReceives(cfg.topology, queue) > 0
    ensures OneConsumer(cfg, queue) <==> forall d :: Reachable(cfg, d) ==> RunsAreBounded(d, queue)
  {
    hide Reachable, OneConsumer, RunsAreBounded;
    if OneConsumer(cfg, queue) {
      forall d | Reachable(cfg, d) ensures RunsAreBounded(d, queue) { OneConsumerBoundsRuns(cfg, d, queue); }
    } else {
      var j, k := TwoConsumers(cfg, queue);
      var d := BothMayRun(cfg, j, k, queue, 0);
      RanTwice(d, queue, 0);
    }
  }

  lemma RanTwice(d: Delivery, queue: string, e: int)
    requires d.runs[(queue, e)] == 2 && d.interruptions[(queue, e)] == 0
    ensures !RunsAreBounded(d, queue)
  {}

  lemma TwoConsumers(cfg: Config, queue: string) returns (j: int, k: int)
    requires !OneConsumer(cfg, queue)
    ensures j in cfg.consumers && k in cfg.consumers && cfg.consumers[j] == queue && cfg.consumers[k] == queue && j != k
  {
    j, k :| j in cfg.consumers && k in cfg.consumers && cfg.consumers[j] == queue && cfg.consumers[k] == queue
      && j != k;
  }

  lemma OneConsumerBoundsRuns(cfg: Config, d: Delivery, queue: string)
    requires Reachable(cfg, d) && OneConsumer(cfg, queue)
    ensures RunsAreBounded(d, queue)
  {
    hide Reachable, OneConsumer, HandlerReturned;
    ReachableIsCounted(cfg, d, queue);
    forall e ensures d.runs[(queue, e)] <= 1 + d.interruptions[(queue, e)] {
      assert RunIsCounted(cfg, d, queue, e);
      ReturnedIsUnmarked(cfg, d, queue, e);
    }
  }

  lemma ReturnedIsUnmarked(cfg: Config, d: Delivery, queue: string, e: int)
    requires NoneTwice(cfg, d, queue)
    ensures HandlerReturned(cfg, d, queue, e) ==> (queue, e) !in d.ledger
  {}

  lemma {:induction false} OneStepFurther(cfg: Config, d: Delivery, steps: seq<QueueStep>, step: QueueStep)
    requires Runs(cfg, d, steps) && Enabled(cfg, After(cfg, d, steps), step)
    ensures Runs(cfg, d, steps + [step]) && After(cfg, d, steps + [step]) == Next(cfg, After(cfg, d, steps), step)
    decreases |steps|
  {
    hide Enabled, Next;
    if steps == [] {
      assert [step][1..] == [] && steps + [step] == [step];
    } else {
      OneStepFurther(cfg, Next(cfg, d, steps[0]), steps[1..], step);
      assert (steps + [step])[1..] == steps[1..] + [step];
    }
  }

  lemma Further(cfg: Config, d: Delivery, step: QueueStep)
    requires Reachable(cfg, d) && Enabled(cfg, d, step)
    ensures Reachable(cfg, Next(cfg, d, step))
  {
    hide Enabled, Next;
    var steps :| Runs(cfg, EMPTY, steps) && After(cfg, EMPTY, steps) == d;
    OneStepFurther(cfg, EMPTY, steps, step);
  }

  // Two consumers, two copies of one event: each checks the ledger before the other has written it.
  lemma BothMayRun(cfg: Config, j: int, k: int, queue: string, e: int) returns (d: Delivery)
    requires j in cfg.consumers && k in cfg.consumers && cfg.consumers[j] == queue && cfg.consumers[k] == queue
             && j != k
    requires MaxReceives(cfg.topology, queue) > 0
    ensures Reachable(cfg, d) && d.runs[(queue, e)] == 2 && d.interruptions[(queue, e)] == 0
  {
    hide Reachable, MaxReceives;
    EmptyIsReachable(cfg);
    d := EMPTY;
    Further(cfg, d, Arrive(queue, Some(e)));
    d := Next(cfg, d, Arrive(queue, Some(e)));
    Further(cfg, d, Arrive(queue, Some(e)));
    d := Next(cfg, d, Arrive(queue, Some(e)));
    d := InHandler(cfg, d, j, 0, queue, e);
    d := InHandler(cfg, d, k, 1, queue, e);
    Further(cfg, d, HandlerOk(j));
    d := Next(cfg, d, HandlerOk(j));
    Further(cfg, d, HandlerOk(k));
    d := Next(cfg, d, HandlerOk(k));
  }

  lemma EmptyIsReachable(cfg: Config)
    ensures Reachable(cfg, EMPTY)
  {
    assert Runs(cfg, EMPTY, []) && After(cfg, EMPTY, []) == EMPTY;
  }

  // A consumer takes a fresh copy as far as its handler.
  lemma InHandler(cfg: Config, d: Delivery, k: int, c: int, queue: string, e: int) returns (r: Delivery)
    requires k in cfg.consumers && cfg.consumers[k] == queue && PhaseOf(d, k).Idle? && Receivable(cfg, d, c, queue)
    requires d.copies[c].event == Some(e) && (queue, e) !in d.ledger && Reachable(cfg, d)
    ensures Reachable(cfg, r) && PhaseOf(r, k) == Handling([Message(c, Some(e))], e)
    ensures r == d.(copies := r.copies, phases := d.phases[k := PhaseOf(r, k)])
    ensures forall b :: b != c && b in d.copies ==> b in r.copies && r.copies[b] == d.copies[b]
  {
    hide Reachable, MaxReceives;
    Further(cfg, d, Poll(k, [c]));
    r := Next(cfg, d, Poll(k, [c]));
    assert Received(d, [c]) == [Message(c, Some(e))];
    Further(cfg, r, Check(k));
    r := Next(cfg, r, Check(k));
  }

  // Once in the ledger of a queue with one consumer, an event's handler never succeeds again, however often the event
  // is delivered.
  lemma {:induction false} ProcessedIsNeverHandledAgain(cfg: Config, d: Delivery, steps: seq<QueueStep>, queue: string,
                                                        e: int)
    requires OneConsumer(cfg, queue) && NoneTwice(cfg, d, queue) && (queue, e) in d.ledger && Runs(cfg, d, steps)
    ensures After(cfg, d, steps).runs[(queue, e)] == d.runs[(queue, e)]
    decreases |steps|
  {
    hide NoneTwice, OneConsumer, Enabled, Next;
    if steps != [] {
      StepKeepsNoneTwice(cfg, d, steps[0], queue);
      ProcessedIsNotHandled(cfg, d, steps[0], queue, e);
      ProcessedIsNeverHandledAgain(cfg, Next(cfg, d, steps[0]), steps[1..], queue, e);
    }
  }

  lemma ProcessedIsNotHandled(cfg: Config, d: Delivery, step: QueueStep, queue: string, e: int)
    requires NoneTwice(cfg, d, queue) && (queue, e) in d.ledger && Enabled(cfg, d, step)
    ensures Next(cfg, d, step).runs[(queue, e)] == d.runs[(queue, e)] && (queue, e) in Next(cfg, d, step).ledger
  {
    hide Hidden, Received, Removed, MaxReceives;
  }
}

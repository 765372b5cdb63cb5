// SqsConsumer.pollOnce of packages/platform/src/sqs-consumer.ts over the processed-event ledger of
// packages/persistence/src/repositories/processed-event.repository.ts: what one poll does, and that it is a run of the
// delivery machine.
module SqsConsumer {
  import opened Prelude
  import opened SqsDelivery

  // What happens to the calls made for one message. A call that throws may have taken effect all the same.
  datatype MarkReply = Written | NotWritten | WrittenNoReply

  datatype DeleteReply = Taken | TooLate | Thrown(took: bool)

  datatype Fate = Fate(checkOk: bool, handlerOk: bool, mark: MarkReply, delete: DeleteReply)

  datatype Counts = Counts(handled: nat, duplicates: nat, failed: nat)

  // How the poll ended: over, broken off, or broken off between an event's handler and its ledger entry.
  datatype Ending = Completed | BrokenOff | Unrecorded(event: int)

  datatype PollState = PollState(
    ledger: set<(string, int)>, copies: map<int, Copy>, runs: multiset<(string, int)>, counts: Counts, ending: Ending)

  function Deleted(copies: map<int, Copy>, c: int, reply: DeleteReply): map<int, Copy> {
    Removed(copies, c, reply.Taken? || (reply.Thrown? && reply.took))
  }

  // Deleting a message, then the rest of the batch.
  function AfterDelete(queue: string, messages: seq<Message>, fates: int -> Fate, st: PollState,
                       counts: Counts): PollState
    requires messages != []
    decreases |messages|, 0
  {
    var reply := fates(messages[0].copy).delete;
    var next := st.(copies := Deleted(st.copies, messages[0].copy, reply));
    if reply.Thrown? then next.(ending := BrokenOff) else PollFrom(queue, messages[1..], fates, next.(counts := counts))
  }

  function PollFrom(queue: string, messages: seq<Message>, fates: int -> Fate, st: PollState): PollState
    decreases |messages|, 1
  {
    if messages == [] then st.(ending := Completed)
    else
      var counts := st.counts;
      var failed := st.(counts := counts.(failed := counts.failed + 1));
      match messages[0].event
      case None => PollFrom(queue, messages[1..], fates, failed)
      case Some(e) =>
        var fate := fates(messages[0].copy);
        if !fate.checkOk then st.(ending := BrokenOff)
        else if (queue, e) in st.ledger then
          AfterDelete(queue, messages, fates, st, counts.(duplicates := counts.duplicates + 1))
        else if !fate.handlerOk then PollFrom(queue, messages[1..], fates, failed)
        else
          var ran := st.(runs := st.runs + multiset{(queue, e)});
          match fate.mark
          case NotWritten => ran.(ending := Unrecorded(e))
          case WrittenNoReply => ran.(ledger := st.ledger + {(queue, e)}, ending := BrokenOff)
          case Written =>
            AfterDelete(queue, messages, fates, ran.(ledger := st.ledger + {(queue, e)}),
                        counts.(handled := counts.handled + 1))
  }

  class ProcessedEvents {
    var entries: set<(string, int)>

    constructor ()
      ensures entries == {}
    {
      entries := {};
    }

    method WasProcessed(queueName: string, e: int, ok: bool) returns (r: Option<bool>)
      ensures r == if ok then Some((queueName, e) in entries) else None
    {
      r := if ok then Some((queueName, e) in entries) else None;
    }

    // An upsert with nothing to update.
    method MarkProcessed(queueName: string, e: int, reply: MarkReply) returns (ok: bool)
      modifies this
      ensures ok <==> reply.Written?
      ensures entries == if reply.NotWritten? then old(entries) else old(entries) + {(queueName, e)}
    {
      if !reply.NotWritten? { entries := entries + {(queueName, e)}; }
      ok := reply.Written?;
    }
  }

  class QueueService {
    var copies: map<int, Copy>

    constructor ()
      ensures copies == map[]
    {
      copies := map[];
    }

    method DeleteMessage(c: int, reply: DeleteReply) returns (ok: bool)
      modifies this
      ensures ok <==> !reply.Thrown?
      ensures copies == Deleted(old(copies), c, reply)
    {
      copies := Deleted(copies, c, reply);
      ok := !reply.Thrown?;
    }
  }

  class Consumer {
    const queueName: string
    const processedEvents: ProcessedEvents
    const client: QueueService

    constructor (queueName: string, processedEvents: ProcessedEvents, client: QueueService)
      ensures this.queueName == queueName && this.processedEvents == processedEvents && this.client == client
    {
      this.queueName, this.processedEvents, this.client := queueName, processedEvents, client;
    }

    function Before(): PollState
      reads processedEvents, client
    {
      PollState(processedEvents.entries, client.copies, multiset{}, Counts(0, 0, 0), Completed)
    }

    // The counts, or None when a call outside the handler threw.
    method PollOnce(messages: seq<Message>, fates: int -> Fate)
      returns (result: Option<Counts>, ghost runs: multiset<(string, int)>)
      modifies processedEvents, client
      ensures var after := PollFrom(queueName, messages, fates, old(Before()));
              && processedEvents.entries == after.ledger && client.copies == after.copies && runs == after.runs
              && result == (if after.ending.Completed? then Some(after.counts) else None)
    {
      hide Deleted;
      var handled, duplicates, failed := 0, 0, 0;
      runs := multiset{};
      assert messages[0..] == messages;
      for i := 0 to |messages|
        invariant PollFrom(queueName, messages[i..], fates,
                    PollState(processedEvents.entries, client.copies, runs, Counts(handled, duplicates, failed),
                              Completed))
                  == PollFrom(queueName, messages, fates, old(Before()))
      {
        var message := messages[i];
        var fate := fates(message.copy);
        assert messages[i..][0] == message && messages[i..][1..] == messages[i + 1..];
        if message.event.None? {
          failed := failed + 1;
          continue;
        }
        var e := message.event.value;
        var alreadyProcessed := processedEvents.WasProcessed(queueName, e, fate.checkOk);
        if alreadyProcessed.None? { return None, runs; }
        if alreadyProcessed.value {
          var gone := client.DeleteMessage(message.copy, fate.delete);
          if !gone { return None, runs; }
          duplicates := duplicates + 1;
          continue;
        }
        if !fate.handlerOk {
          failed := failed + 1;
          continue;
        }
        runs := runs + multiset{(queueName, e)};
        var marked := processedEvents.MarkProcessed(queueName, e, fate.mark);
        if !marked { return None, runs; }
        var gone := client.DeleteMessage(message.copy, fate.delete);
        if !gone { return None, runs; }
        handled := handled + 1;
      }
      return Some(Counts(handled, duplicates, failed)), runs;
    }
  }

  // --- A poll is a run of the delivery machine ---------------------------------------------------------------------

  lemma {:induction false} Compose(cfg: Config, d: Delivery, first: seq<QueueStep>, second: seq<QueueStep>)
    requires Runs(cfg, d, first) && Runs(cfg, After(cfg, d, first), second)
    ensures Runs(cfg, d, first + second)
    ensures After(cfg, d, first + second) == After(cfg, After(cfg, d, first), second)
    decreases |first|
  {
    hide Enabled, Next;
    if first == [] {
      assert first + second == second;
    } else {
      Compose(cfg, Next(cfg, d, first[0]), first[1..], second);
      assert (first + second)[1..] == first[1..] + second;
    }
  }

  lemma Then(cfg: Config, d: Delivery, step: QueueStep, rest: seq<QueueStep>)
    requires Enabled(cfg, d, step) && Runs(cfg, Next(cfg, d, step), rest)
    ensures Runs(cfg, d, [step] + rest) && After(cfg, d, [step] + rest) == After(cfg, Next(cfg, d, step), rest)
  {
    hide Enabled, Next;
    assert ([step] + rest)[1..] == rest;
  }

  // The consumer's part of a delivery state.
  ghost predicate Agrees(cfg: Config, d: Delivery, k: int, st: PollState) {
    k in cfg.consumers && st.ledger == d.ledger && st.copies == d.copies && st.runs == d.runs
  }

  ghost function Polled(cfg: Config, d: Delivery, k: int, st: PollState): Delivery
    requires k in cfg.consumers
  {
    d.(ledger := st.ledger, copies := st.copies, runs := st.runs, phases := d.phases[k := Idle],
       interruptions := if st.ending.Unrecorded? then d.interruptions + multiset{(cfg.consumers[k], st.ending.event)}
                        else d.interruptions)
  }

  lemma BreaksOff(cfg: Config, d: Delivery, k: int) returns (steps: seq<QueueStep>)
    requires k in cfg.consumers && !PhaseOf(d, k).Idle?
    ensures Runs(cfg, d, steps)
    ensures var phase := PhaseOf(d, k);
            After(cfg, d, steps)
            == d.(phases := d.phases[k := Idle],
                  interruptions := if phase.Handled? then d.interruptions + multiset{(cfg.consumers[k], phase.event)}
                                   else d.interruptions)
  {
    steps := [Interrupt(k)];
    assert steps[1..] == [];
  }

  lemma {:induction false} DeleteIsARun(cfg: Config, d: Delivery, k: int, messages: seq<Message>, e: int,
                                        fates: int -> Fate,
                                        st: PollState, counts: Counts) returns (steps: seq<QueueStep>)
    requires Agrees(cfg, d, k, st) && PhaseOf(d, k) == Deleting(messages, e) && messages != []
    ensures Runs(cfg, d, steps)
    ensures After(cfg, d, steps) == Polled(cfg, d, k, AfterDelete(cfg.consumers[k], messages, fates, st, counts))
    decreases |messages|, 0
  {
    hide Removed, Runs, After, PollFrom;
    var reply := fates(messages[0].copy).delete;
    var step := Delete(k, reply.Taken? || (reply.Thrown? && reply.took));
    var next := Next(cfg, d, step);
    var rest;
    if reply.Thrown? {
      rest := BreaksOff(cfg, next, k);
    } else {
      rest := PollIsARun(cfg, next, k, messages[1..], fates, st.(copies := next.copies, counts := counts));
    }
    Then(cfg, d, step, rest);
    assert next.phases[k := Idle] == d.phases[k := Idle];
    steps := [step] + rest;
  }

  // From a batch just received, the rest of the poll is a run of the machine with the effects the poll has.
  lemma {:induction false} PollIsARun(cfg: Config, d: Delivery, k: int, messages: seq<Message>, fates: int -> Fate,
                                      st: PollState)
    returns (steps: seq<QueueStep>)
    requires Agrees(cfg, d, k, st) && PhaseOf(d, k) == Between(messages)
    ensures Runs(cfg, d, steps)
            && After(cfg, d, steps) == Polled(cfg, d, k, PollFrom(cfg.consumers[k], messages, fates, st))
    decreases |messages|, 4
  {
    hide Runs, After, AfterDelete;
    if messages == [] {
      steps := [PollDone(k)];
      NoSteps(cfg, Next(cfg, d, PollDone(k)));
      Then(cfg, d, PollDone(k), []);
      assert [PollDone(k)] + [] == [PollDone(k)];
    } else {
      var next := Next(cfg, d, Check(k));
      var rest := MessageIsARun(cfg, d, next, k, messages, fates, st);
      if messages[0].event.Some? && !fates(messages[0].copy).checkOk {
        steps := rest;
      } else {
        Then(cfg, d, Check(k), rest);
        steps := [Check(k)] + rest;
      }
    }
  }

  lemma NoSteps(cfg: Config, d: Delivery)
    ensures Runs(cfg, d, []) && After(cfg, d, []) == d
  {}

  // One message: from its check on, or broken off there.
  lemma {:induction false} MessageIsARun(cfg: Config, d: Delivery, next: Delivery, k: int, messages: seq<Message>,
                                         fates: int -> Fate, st: PollState) returns (steps: seq<QueueStep>)
    requires Agrees(cfg, d, k, st) && PhaseOf(d, k) == Between(messages) && messages != []
    requires Enabled(cfg, d, Check(k)) && next == Next(cfg, d, Check(k))
    ensures var start := if messages[0].event.Some? && !fates(messages[0].copy).checkOk then d else next;
            && Runs(cfg, start, steps)
            && After(cfg, start, steps) == Polled(cfg, d, k, PollFrom(cfg.consumers[k], messages, fates, st))
    decreases |messages|, 3
  {
    hide Runs, After, AfterDelete, Next, Enabled, Polled;
    var queue, counts := cfg.consumers[k], st.counts;
    CheckMoves(cfg, d, k, messages);
    var failed := st.(counts := counts.(failed := counts.failed + 1));
    match messages[0].event
    case None =>
      steps := PollIsARun(cfg, next, k, messages[1..], fates, failed);
      PolledFrom(cfg, d, next, k, PollFrom(queue, messages[1..], fates, failed));
    case Some(e) =>
      var fate := fates(messages[0].copy);
      if !fate.checkOk {
        steps := BreaksOff(cfg, d, k);
        PolledThere(cfg, d, k, st);
      } else if (queue, e) in st.ledger {
        var more := counts.(duplicates := counts.duplicates + 1);
        steps := DeleteIsARun(cfg, next, k, messages, e, fates, st, more);
        PolledFrom(cfg, d, next, k, AfterDelete(queue, messages, fates, st, more));
      } else if !fate.handlerOk {
        FailureMoves(cfg, next, k, messages, e);
        var after := Next(cfg, next, HandlerFails(k));
        PolledFrom(cfg, d, after, k, PollFrom(queue, messages[1..], fates, failed));
        var rest := PollIsARun(cfg, after, k, messages[1..], fates, failed);
        Then(cfg, next, HandlerFails(k), rest);
        steps := [HandlerFails(k)] + rest;
      } else {
        steps := HandledIsARun(cfg, d, next, k, messages, e, fates, st);
      }
  }

  lemma CheckMoves(cfg: Config, d: Delivery, k: int, messages: seq<Message>)
    requires k in cfg.consumers && PhaseOf(d, k) == Between(messages) && messages != []
    ensures Enabled(cfg, d, Check(k))
    ensures var phase := match messages[0].event
                         case None => Between(messages[1..])
                         case Some(e) => (if (cfg.consumers[k], e) in d.ledger then Deleting(messages, e)
                                          else Handling(messages, e));
            Next(cfg, d, Check(k)) == d.(phases := d.phases[k := phase])
  {}

  lemma FailureMoves(cfg: Config, d: Delivery, k: int, messages: seq<Message>, e: int)
    requires k in cfg.consumers && PhaseOf(d, k) == Handling(messages, e) && messages != []
    ensures Enabled(cfg, d, HandlerFails(k))
    ensures Next(cfg, d, HandlerFails(k)) == d.(phases := d.phases[k := Between(messages[1..])])
  {}

  // Where a poll ends depends on where its consumer was only through what it has done.
  lemma PolledFrom(cfg: Config, d: Delivery, later: Delivery, k: int, st: PollState)
    requires k in cfg.consumers && k in later.phases && later == d.(phases := d.phases[k := later.phases[k]])
    ensures Polled(cfg, later, k, st) == Polled(cfg, d, k, st)
  {
    assert later.phases[k := Idle] == d.phases[k := Idle];
  }

  lemma PolledThere(cfg: Config, d: Delivery, k: int, st: PollState)
    requires Agrees(cfg, d, k, st)
    ensures Polled(cfg, d, k, st.(ending := BrokenOff)) == d.(phases := d.phases[k := Idle])
  {}

  lemma {:induction false} HandledIsARun(cfg: Config, d: Delivery, next: Delivery, k: int, messages: seq<Message>,
                                         e: int, fates: int -> Fate, st: PollState) returns (steps: seq<QueueStep>)
    requires Agrees(cfg, d, k, st) && messages != [] && messages[0].event == Some(e)
    requires next == d.(phases := d.phases[k := Handling(messages, e)])
    requires fates(messages[0].copy).checkOk && fates(messages[0].copy).handlerOk && (cfg.consumers[k], e) !in st.ledger
    ensures Runs(cfg, next, steps)
            && After(cfg, next, steps) == Polled(cfg, d, k, PollFrom(cfg.consumers[k], messages, fates, st))
    decreases |messages|, 2
  {
    hide Runs, After, AfterDelete;
    var ran := Next(cfg, next, HandlerOk(k));
    var rest;
    if fates(messages[0].copy).mark.NotWritten? {
      rest := BreaksOff(cfg, ran, k);
      assert ran.phases[k := Idle] == d.phases[k := Idle];
    } else {
      rest := MarkedIsARun(cfg, d, ran, k, messages, e, fates, st);
    }
    Then(cfg, next, HandlerOk(k), rest);
    steps := [HandlerOk(k)] + rest;
  }

  lemma {:induction false} MarkedIsARun(cfg: Config, d: Delivery, ran: Delivery, k: int, messages: seq<Message>,
                                        e: int, fates: int -> Fate, st: PollState) returns (steps: seq<QueueStep>)
    requires Agrees(cfg, d, k, st) && messages != [] && messages[0].event == Some(e)
    requires ran == d.(phases := d.phases[k := Handled(messages, e)], runs := d.runs + multiset{(cfg.consumers[k], e)})
    requires fates(messages[0].copy).checkOk && fates(messages[0].copy).handlerOk && (cfg.consumers[k], e) !in st.ledger
    requires !fates(messages[0].copy).mark.NotWritten?
    ensures Runs(cfg, ran, steps)
            && After(cfg, ran, steps) == Polled(cfg, d, k, PollFrom(cfg.consumers[k], messages, fates, st))
    decreases |messages|, 1
  {
    hide Runs, After, AfterDelete;
    var entry, counts := (cfg.consumers[k], e), st.counts;
    var marked := Next(cfg, ran, Mark(k));
    assert marked.phases[k := Idle] == d.phases[k := Idle];
    var now := st.(runs := st.runs + multiset{entry}, ledger := st.ledger + {entry});
    if fates(messages[0].copy).mark.WrittenNoReply? {
      steps := BreaksOff(cfg, marked, k);
    } else {
      steps := DeleteIsARun(cfg, marked, k, messages, e, fates, now, counts.(handled := counts.handled + 1));
    }
    Then(cfg, ran, Mark(k), steps);
    steps := [Mark(k)] + steps;
  }

  // --- When a poll throws ------------------------------------------------------------------------------------------

  // Some earlier message of the batch carries the event and gets through its handler.
  ghost predicate HandledBefore(messages: seq<Message>, fates: int -> Fate, i: nat)
    requires i < |messages|
  {
    exists j :: 0 <= j < i && messages[j].event == messages[i].event && fates(messages[j].copy).handlerOk
  }

  // The ledger and delete calls made for a message all reply.
  ghost predicate Replies(queue: string, ledger: set<(string, int)>, messages: seq<Message>, fates: int -> Fate, i: nat)
    requires i < |messages|
  {
    var fate := fates(messages[i].copy);
    match messages[i].event
    case None => true
    case Some(e) =>
      && fate.checkOk
      && (if (queue, e) in ledger || HandledBefore(messages, fates, i) then !fate.delete.Thrown?
          else fate.handlerOk ==> fate.mark.Written? && !fate.delete.Thrown?)
  }

  ghost predicate AllReply(queue: string, ledger: set<(string, int)>, messages: seq<Message>, fates: int -> Fate) {
    forall i :: 0 <= i < |messages| ==> Replies(queue, ledger, messages, fates, i)
  }

  ghost function LedgerAfter(queue: string, ledger: set<(string, int)>, m: Message,
                             fates: int -> Fate): set<(string, int)> {
    if m.event.Some? && fates(m.copy).handlerOk then ledger + {(queue, m.event.value)} else ledger
  }

  lemma RepliesLater(queue: string, ledger: set<(string, int)>, messages: seq<Message>, fates: int -> Fate, i: nat)
    requires 0 < i < |messages|
    ensures Replies(queue, ledger, messages, fates, i)
            <==> Replies(queue, LedgerAfter(queue, ledger, messages[0], fates), messages[1..], fates, i - 1)
  {
    var rest := messages[1..];
    assert rest[i - 1] == messages[i];
    if HandledBefore(messages, fates, i) {
      var j :| 0 <= j < i && messages[j].event == messages[i].event && fates(messages[j].copy).handlerOk;
      if j > 0 { assert rest[j - 1] == messages[j]; }
    }
    if HandledBefore(rest, fates, i - 1) {
      var j :| 0 <= j < i - 1 && rest[j].event == rest[i - 1].event && fates(rest[j].copy).handlerOk;
      assert messages[j + 1] == rest[j];
    }
  }

  // A poll returns its counts exactly when every ledger and delete call it makes replies; then each message is counted
  // once. A handler that fails, or a message that is no envelope, never ends it.
  lemma {:induction false} PollReturnsIff(queue: string, messages: seq<Message>, fates: int -> Fate, st: PollState)
    ensures var after := PollFrom(queue, messages, fates, st);
            && (after.ending.Completed? <==> AllReply(queue, st.ledger, messages, fates))
            && (after.ending.Completed? ==>
                  after.counts.handled + after.counts.duplicates + after.counts.failed
                  == st.counts.handled + st.counts.duplicates + st.counts.failed + |messages|)
    decreases |messages|
  {
    hide Deleted, Replies, AllReply;
    if messages == [] {
      NoMessages(queue, st.ledger, fates);
    } else {
      var counts, m := st.counts, messages[0];
      var next := st.(copies := Deleted(st.copies, m.copy, fates(m.copy).delete));
      RestReplies(queue, st.ledger, messages, fates);
      if m.event.Some? && (queue, m.event.value) in st.ledger {
        assert st.ledger + {(queue, m.event.value)} == st.ledger;
      }
      FirstReplies(queue, st.ledger, messages, fates);
      PollReturnsIff(queue, messages[1..], fates, st.(counts := counts.(failed := counts.failed + 1)));
      PollReturnsIff(queue, messages[1..], fates, next.(counts := counts.(duplicates := counts.duplicates + 1)));
      if m.event.Some? {
        var entry := (queue, m.event.value);
        PollReturnsIff(queue, messages[1..], fates,
          next.(counts := counts.(handled := counts.handled + 1), ledger := st.ledger + {entry},
                runs := st.runs + multiset{entry}));
      }
    }
  }

  lemma NoMessages(queue: string, ledger: set<(string, int)>, fates: int -> Fate)
    ensures AllReply(queue, ledger, [], fates)
  {}

  lemma RestReplies(queue: string, ledger: set<(string, int)>, messages: seq<Message>, fates: int -> Fate)
    requires messages != []
    ensures AllReply(queue, ledger, messages, fates)
            <==> Replies(queue, ledger, messages, fates, 0)
                 && AllReply(queue, LedgerAfter(queue, ledger, messages[0], fates), messages[1..], fates)
  {
    hide Replies, LedgerAfter;
    var later := LedgerAfter(queue, ledger, messages[0], fates);
    forall i | 0 <= i < |messages[1..]|
      ensures Replies(queue, ledger, messages, fates, i + 1) <==> Replies(queue, later, messages[1..], fates, i)
    {
      RepliesLater(queue, ledger, messages, fates, i + 1);
    }
    if AllReply(queue, later, messages[1..], fates) {
      forall i | 0 < i < |messages| ensures Replies(queue, ledger, messages, fates, i) {
        assert Replies(queue, later, messages[1..], fates, i - 1);
      }
    }
  }

  lemma FirstReplies(queue: string, ledger: set<(string, int)>, messages: seq<Message>, fates: int -> Fate)
    requires messages != []
    ensures Replies(queue, ledger, messages, fates, 0) <==>
            match messages[0].event
            case None => true
            case Some(e) =>
              var fate := fates(messages[0].copy);
              && fate.checkOk
              && (if (queue, e) in ledger then !fate.delete.Thrown?
                  else fate.handlerOk ==> fate.mark.Written? && !fate.delete.Thrown?)
  {}

  // --- What the counts count ---------------------------------------------------------------------------------------

  datatype Result = HandledNow | Duplicate | FailedNow

  // What becomes of a message in a poll that returns: one that is no envelope fails, one whose event is in the ledger,
  // or gets there through an earlier message of the batch, is a duplicate, and the rest go as their handler does.
  ghost function ResultOf(queue: string, ledger: set<(string, int)>, messages: seq<Message>, fates: int -> Fate,
                          i: nat): Result
    requires i < |messages|
  {
    match messages[i].event
    case None => FailedNow
    case Some(e) =>
      if (queue, e) in ledger || HandledBefore(messages, fates, i) then Duplicate
      else if fates(messages[i].copy).handlerOk then HandledNow
      else FailedNow
  }

  // How many messages of the batch, from the i-th on, come to that.
  ghost function HowMany(queue: string, ledger: set<(string, int)>, messages: seq<Message>, fates: int -> Fate, i: nat,
                         result: Result): nat
    requires i <= |messages|
    decreases |messages| - i
  {
    if i == |messages| then 0
    else
      (if ResultOf(queue, ledger, messages, fates, i) == result then 1 else 0)
      + HowMany(queue, ledger, messages, fates, i + 1, result)
  }

  lemma ResultLater(queue: string, ledger: set<(string, int)>, messages: seq<Message>, fates: int -> Fate, i: nat)
    requires 0 < i < |messages|
    ensures ResultOf(queue, ledger, messages, fates, i)
            == ResultOf(queue, LedgerAfter(queue, ledger, messages[0], fates), messages[1..], fates, i - 1)
  {
    var rest := messages[1..];
    assert rest[i - 1] == messages[i];
    if HandledBefore(messages, fates, i) {
      var j :| 0 <= j < i && messages[j].event == messages[i].event && fates(messages[j].copy).handlerOk;
      if j > 0 { assert rest[j - 1] == messages[j]; }
    }
    if HandledBefore(rest, fates, i - 1) {
      var j :| 0 <= j < i - 1 && rest[j].event == rest[i - 1].event && fates(rest[j].copy).handlerOk;
      assert messages[j + 1] == rest[j];
    }
  }

  lemma {:induction false} HowManyLater(queue: string, ledger: set<(string, int)>, messages: seq<Message>,
                                        fates: int -> Fate, i: nat, result: Result)
    requires 0 < i <= |messages|
    ensures HowMany(queue, ledger, messages, fates, i, result)
            == HowMany(queue, LedgerAfter(queue, ledger, messages[0], fates), messages[1..], fates, i - 1, result)
    decreases |messages| - i
  {
    hide ResultOf, LedgerAfter;
    if i < |messages| {
      ResultLater(queue, ledger, messages, fates, i);
      HowManyLater(queue, ledger, messages, fates, i + 1, result);
    }
  }

  lemma FirstResult(queue: string, ledger: set<(string, int)>, messages: seq<Message>, fates: int -> Fate)
    requires messages != []
    ensures ResultOf(queue, ledger, messages, fates, 0)
            == match messages[0].event
               case None => FailedNow
               case Some(e) => if (queue, e) in ledger then Duplicate
                               else if fates(messages[0].copy).handlerOk then HandledNow else FailedNow
  {}

  // The three counts of a poll that returns are the numbers of messages handled, found done already, and failed.
  lemma {:induction false} CountsAre(queue: string, messages: seq<Message>, fates: int -> Fate, st: PollState)
    requires PollFrom(queue, messages, fates, st).ending.Completed?
    ensures var before, after := st.counts, PollFrom(queue, messages, fates, st).counts;
            && after.handled == before.handled + HowMany(queue, st.ledger, messages, fates, 0, HandledNow)
            && after.duplicates == before.duplicates + HowMany(queue, st.ledger, messages, fates, 0, Duplicate)
            && after.failed == before.failed + HowMany(queue, st.ledger, messages, fates, 0, FailedNow)
    decreases |messages|
  {
    hide Deleted, ResultOf;
    if messages != [] {
      var counts, m := st.counts, messages[0];
      var next := st.(copies := Deleted(st.copies, m.copy, fates(m.copy).delete));
      forall result
        ensures HowMany(queue, st.ledger, messages, fates, 1, result)
                == HowMany(queue, LedgerAfter(queue, st.ledger, m, fates), messages[1..], fates, 0, result)
      {
        HowManyLater(queue, st.ledger, messages, fates, 1, result);
      }
      FirstResult(queue, st.ledger, messages, fates);
      if m.event.Some? && (queue, m.event.value) in st.ledger {
        assert st.ledger + {(queue, m.event.value)} == st.ledger;
        CountsAre(queue, messages[1..], fates, next.(counts := counts.(duplicates := counts.duplicates + 1)));
      } else if m.event.Some? && fates(m.copy).handlerOk {
        var entry := (queue, m.event.value);
        CountsAre(queue, messages[1..], fates,
          next.(counts := counts.(handled := counts.handled + 1), ledger := st.ledger + {entry},
                runs := st.runs + multiset{entry}));
      } else {
        CountsAre(queue, messages[1..], fates, st.(counts := counts.(failed := counts.failed + 1)));
      }
    }
  }
}

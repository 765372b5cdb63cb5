// The relay as a state machine: apps/worker/src/relay/outbox-relay.sweep.ts over the claim transaction of
// packages/persistence/src/repositories/outbox-relay.repository.ts. Any number of relays may be ticking at once, and a
// process, its database connection or the network may fail between any two effects.
module OutboxRelay {
  import opened QueueTopology

  // Rows claimed per tick.
  const RELAY_BATCH_SIZE: nat := 100

  datatype OutboxRow = OutboxRow(eventType: string, occurredAt: int, published: bool)

  // One run of the sweep: its claim, the row and destination it has reached, and the rows finished and failed so far.
  // Its transaction holds the row locks while it is open. A transaction that outlives its timeout is closed under the
  // callback, which goes on sending until it next uses the transaction.
  datatype Tick = Tick(open: bool, claimed: seq<int>, row: nat, dest: nat, finished: seq<int>, failed: seq<int>)

  // `sent`, `claims` and `wasted` record what has happened so far: messages put on a queue, claims taken on a row, and
  // those of them that failed or were rolled back.
  datatype Outbox = Outbox(
    rows: map<int, OutboxRow>, ticks: map<int, Tick>,
    sent: multiset<(int, string)>, claims: multiset<int>, wasted: multiset<int>)

  datatype RelayStep =
    | Append(event: int, eventType: string, occurredAt: int)
    | OpenTick(tick: int, claimed: seq<int>)
    | Send(tick: int)
    | SendFails(tick: int, landed: bool)
    | FinishRow(tick: int)
    | Commit(tick: int)
    | Rollback(tick: int)
    | Expire(tick: int)

  const EMPTY: Outbox := Outbox(map[], map[], multiset{}, multiset{}, multiset{})

  function Destinations(topology: Topology, row: OutboxRow): seq<QueueDefinition> {
    ResolveDestinations(row.eventType, topology)
  }

  predicate HoldsOpen(o: Outbox, t: int, e: int) { t in o.ticks && o.ticks[t].open && e in o.ticks[t].claimed }

  predicate Locked(o: Outbox, e: int) { exists t :: t in o.ticks && HoldsOpen(o, t, e) }

  // Unpublished, and skipped by nobody's lock.
  predicate Claimable(o: Outbox, e: int) { e in o.rows && !o.rows[e].published && !Locked(o, e) }

  ghost predicate Distinct(ids: seq<int>) { forall i, j :: 0 <= i < j < |ids| ==> ids[i] != ids[j] }

  // ORDER BY occurred_at LIMIT n FOR UPDATE SKIP LOCKED: claimable rows, the oldest first. A row that another
  // transaction publishes or locks meanwhile drops out, so the claim may fall short of all it could take.
  ghost predicate IsClaim(o: Outbox, claimed: seq<int>) {
    && Distinct(claimed) && |claimed| <= RELAY_BATCH_SIZE
    && (forall i :: 0 <= i < |claimed| ==> Claimable(o, claimed[i]))
    && (forall i, j :: 0 <= i < j < |claimed| ==> o.rows[claimed[i]].occurredAt <= o.rows[claimed[j]].occurredAt)
  }

  // With nothing else going on it is full, and leaves no older row out.
  ghost predicate TakesTheOldest(o: Outbox, claimed: seq<int>)
    requires IsClaim(o, claimed)
  {
    forall e :: Claimable(o, e) && e !in claimed ==>
      |claimed| == RELAY_BATCH_SIZE
      && forall i :: 0 <= i < |claimed| ==> o.rows[claimed[i]].occurredAt <= o.rows[e].occurredAt
  }

  // A tick in the middle of a row.
  predicate AtRow(o: Outbox, t: int) {
    t in o.ticks && o.ticks[t].row < |o.ticks[t].claimed| && o.ticks[t].claimed[o.ticks[t].row] in o.rows
  }

  function CurrentEvent(o: Outbox, t: int): int
    requires AtRow(o, t)
  {
    o.ticks[t].claimed[o.ticks[t].row]
  }

  function CurrentDestinations(topology: Topology, o: Outbox, t: int): seq<QueueDefinition>
    requires AtRow(o, t)
  {
    Destinations(topology, o.rows[CurrentEvent(o, t)])
  }

  // The rows of an open claim whose attempt is not over.
  function Attempted(tick: Tick): set<int> {
    if tick.open then set e | e in tick.claimed && e !in tick.failed else {}
  }

  ghost predicate Enabled(topology: Topology, o: Outbox, step: RelayStep) {
    match step
    case Append(e, _, _) => e !in o.rows
    case OpenTick(t, claimed) => t !in o.ticks && IsClaim(o, claimed)
    case Send(t) => AtRow(o, t) && o.ticks[t].dest < |CurrentDestinations(topology, o, t)|
    case SendFails(t, _) => AtRow(o, t) && o.ticks[t].dest < |CurrentDestinations(topology, o, t)|
    case FinishRow(t) => AtRow(o, t) && o.ticks[t].dest == |CurrentDestinations(topology, o, t)|
    case Commit(t) => t in o.ticks && o.ticks[t].open && o.ticks[t].row == |o.ticks[t].claimed|
    case Rollback(t) => t in o.ticks
    case Expire(t) => t in o.ticks && o.ticks[t].open
  }

  // The message a step leaves on a queue, if any. A send that fails may still have arrived.
  function Landing(topology: Topology, o: Outbox, step: RelayStep): seq<(int, string)> {
    match step
    case Send(t) =>
      if AtRow(o, t) && o.ticks[t].dest < |CurrentDestinations(topology, o, t)|
      then [(CurrentEvent(o, t), CurrentDestinations(topology, o, t)[o.ticks[t].dest].name)] else []
    case SendFails(t, landed) =>
      if landed && AtRow(o, t) && o.ticks[t].dest < |CurrentDestinations(topology, o, t)|
      then [(CurrentEvent(o, t), CurrentDestinations(topology, o, t)[o.ticks[t].dest].name)] else []
    case _ => []
  }

  function Published(rows: map<int, OutboxRow>, ids: seq<int>): map<int, OutboxRow> {
    map e | e in rows :: if e in ids then rows[e].(published := true) else rows[e]
  }

  ghost function Next(topology: Topology, o: Outbox, step: RelayStep): Outbox
    requires Enabled(topology, o, step)
  {
    var sent := o.sent + multiset(Landing(topology, o, step));
    match step
    case Append(e, eventType, occurredAt) => o.(rows := o.rows[e := OutboxRow(eventType, occurredAt, false)])
    case OpenTick(t, claimed) =>
      o.(ticks := o.ticks[t := Tick(true, claimed, 0, 0, [], [])], claims := o.claims + multiset(claimed))
    case Send(t) =>
      o.(ticks := o.ticks[t := o.ticks[t].(dest := o.ticks[t].dest + 1)], sent := sent)
    case SendFails(t, _) =>
      var tick, e := o.ticks[t], CurrentEvent(o, t);
      o.(ticks := o.ticks[t := tick.(row := tick.row + 1, dest := 0, failed := tick.failed + [e])],
         sent := sent,
         wasted := if tick.open then o.wasted + multiset{e} else o.wasted)
    case FinishRow(t) =>
      var tick, e := o.ticks[t], CurrentEvent(o, t);
      o.(ticks := o.ticks[t := tick.(row := tick.row + 1, dest := 0, finished := tick.finished + [e])])
    case Commit(t) => o.(rows := Published(o.rows, o.ticks[t].finished), ticks := o.ticks - {t})
    case Rollback(t) => o.(ticks := o.ticks - {t}, wasted := o.wasted + multiset(Attempted(o.ticks[t])))
    case Expire(t) =>
      o.(ticks := o.ticks[t := o.ticks[t].(open := false)], wasted := o.wasted + multiset(Attempted(o.ticks[t])))
  }

  ghost predicate Runs(topology: Topology, o: Outbox, steps: seq<RelayStep>)
    decreases |steps|
  {
    steps == [] || (Enabled(topology, o, steps[0]) && Runs(topology, Next(topology, o, steps[0]), steps[1..]))
  }

  ghost function After(topology: Topology, o: Outbox, steps: seq<RelayStep>): Outbox
    requires Runs(topology, o, steps)
    decreases |steps|
  {
    if steps == [] then o else After(topology, Next(topology, o, steps[0]), steps[1..])
  }

  // --- What every step keeps ---------------------------------------------------------------------------------------

  ghost predicate TickIsSound(topology: Topology, rows: map<int, OutboxRow>, tick: Tick) {
    && Distinct(tick.claimed) && tick.row <= |tick.claimed|
    && (forall e :: e in tick.claimed ==> e in rows)
    && (tick.row == |tick.claimed| ==> tick.dest == 0)
    && (tick.row < |tick.claimed| ==> tick.dest <= |Destinations(topology, rows[tick.claimed[tick.row]])|)
    && (forall e :: e in tick.claimed[..tick.row] <==> e in tick.finished || e in tick.failed)
    && (forall e :: !(e in tick.finished && e in tick.failed))
  }

  ghost predicate SentEverywhere(topology: Topology, row: OutboxRow, sent: multiset<(int, string)>, e: int) {
    forall q :: q in Destinations(topology, row) ==> (e, q.name) in sent
  }

  // What a tick has got through, it has sent.
  ghost predicate TickHasSent(topology: Topology, rows: map<int, OutboxRow>, sent: multiset<(int, string)>,
                              tick: Tick) {
    && (forall e :: e in tick.finished ==> e in rows && SentEverywhere(topology, rows[e], sent, e))
    && (tick.row < |tick.claimed| && tick.claimed[tick.row] in rows ==>
          var e := tick.claimed[tick.row];
          var all := Destinations(topology, rows[e]);
          forall i :: 0 <= i < tick.dest && i < |all| ==> (e, all[i].name) in sent)
  }

  ghost predicate TicksAreSound(topology: Topology, o: Outbox) {
    forall t :: t in o.ticks ==> TickIsSound(topology, o.rows, o.ticks[t])
  }

  ghost predicate ProgressIsSent(topology: Topology, o: Outbox) {
    && (forall t :: t in o.ticks ==> TickHasSent(topology, o.rows, o.sent, o.ticks[t]))
    && (forall e :: e in o.rows && o.rows[e].published ==> SentEverywhere(topology, o.rows[e], o.sent, e))
  }

  // An open claim holds only unpublished rows, and no two open claims share one.
  ghost predicate ClaimsAreApart(o: Outbox) {
    && (forall t, e :: HoldsOpen(o, t, e) ==> e in o.rows && !o.rows[e].published)
    && (forall t, u, e :: HoldsOpen(o, t, e) && HoldsOpen(o, u, e) ==> t == u)
  }

  predicate AttemptedBy(o: Outbox, t: int, e: int) { t in o.ticks && e in Attempted(o.ticks[t]) }

  predicate Held(o: Outbox, e: int) { exists t :: t in o.ticks && AttemptedBy(o, t, e) }

  predicate IsPublished(o: Outbox, e: int) { e in o.rows && o.rows[e].published }

  // Every claim taken on a row was wasted, published it, or is still at work on it.
  ghost predicate ClaimsAreCounted(o: Outbox) {
    forall e :: ClaimIsCounted(o, e)
  }

  ghost predicate ClaimIsCounted(o: Outbox, e: int) {
    o.claims[e] == o.wasted[e] + (if IsPublished(o, e) then 1 else 0) + (if Held(o, e) then 1 else 0)
  }

  // A tick, open or not, still to send this row to this queue.
  ghost predicate Owes(topology: Topology, o: Outbox, t: int, e: int, queue: string) {
    && t in o.ticks && e in o.ticks[t].claimed && e !in o.ticks[t].finished && e !in o.ticks[t].failed
    && (AtRow(o, t) && CurrentEvent(o, t) == e ==> Left(CurrentDestinations(topology, o, t), o.ticks[t].dest, queue))
  }

  // The queue is among the destinations from one on.
  ghost predicate Left(all: seq<QueueDefinition>, dest: nat, queue: string) {
    exists i :: dest <= i < |all| && all[i].name == queue
  }

  ghost function Owing(topology: Topology, o: Outbox, e: int, queue: string): set<int> {
    set t | t in o.ticks && Owes(topology, o, t, e, queue)
  }

  // One message per claim, destination and row at most: sent already, or still owed.
  ghost predicate SendsAreCounted(topology: Topology, o: Outbox) {
    forall e, queue :: SendIsCounted(topology, o, e, queue)
  }

  ghost predicate SendIsCounted(topology: Topology, o: Outbox, e: int, queue: string) {
    o.sent[(e, queue)] + |Owing(topology, o, e, queue)| <= o.claims[e]
  }

  ghost predicate Inv(topology: Topology, o: Outbox) {
    && TicksAreSound(topology, o) && ClaimsAreApart(o) && ProgressIsSent(topology, o) && ClaimsAreCounted(o)
    && SendsAreCounted(topology, o)
  }

  // Rows stay, keep their type, and once published stay published; what is sent stays sent.
  lemma NothingIsForgotten(topology: Topology, o: Outbox, step: RelayStep)
    requires Enabled(topology, o, step)
    ensures var next := Next(topology, o, step);
            && (forall e :: e in o.rows ==> e in next.rows && next.rows[e].eventType == o.rows[e].eventType
                                            && (o.rows[e].published ==> next.rows[e].published))
            && (forall m :: o.sent[m] <= next.sent[m])
  {
    hide Landing, ResolveDestinations, IsClaim;
  }

  lemma SoundStays(topology: Topology, rows: map<int, OutboxRow>, more: map<int, OutboxRow>, tick: Tick)
    requires TickIsSound(topology, rows, tick)
    requires forall e :: e in rows ==> e in more && more[e].eventType == rows[e].eventType
    ensures TickIsSound(topology, more, tick)
  {
    hide ResolveDestinations, Distinct;
    forall e | e in tick.claimed
      ensures e in rows && e in more && Destinations(topology, more[e]) == Destinations(topology, rows[e])
    {}
    if tick.row < |tick.claimed| {
      var e := tick.claimed[tick.row];
      assert e in tick.claimed;
      assert tick.dest <= |Destinations(topology, more[e])|;
    }
  }

  lemma RowGone(topology: Topology, rows: map<int, OutboxRow>, tick: Tick, gone: Tick)
    requires TickIsSound(topology, rows, tick) && tick.row < |tick.claimed|
    requires gone == tick.(row := tick.row + 1, dest := 0, finished := tick.finished + [tick.claimed[tick.row]])
             || gone == tick.(row := tick.row + 1, dest := 0, failed := tick.failed + [tick.claimed[tick.row]])
    ensures TickIsSound(topology, rows, gone)
  {
    hide ResolveDestinations;
    var e := tick.claimed[tick.row];
    assert tick.claimed[..tick.row + 1] == tick.claimed[..tick.row] + [e];
    assert e !in tick.claimed[..tick.row];
  }

  lemma StepKeepsTicksSound(topology: Topology, o: Outbox, step: RelayStep)
    requires TicksAreSound(topology, o) && Enabled(topology, o, step)
    ensures TicksAreSound(topology, Next(topology, o, step))
  {
    hide Locked, Landing, ResolveDestinations, TickIsSound, Published, Attempted;
    var next := Next(topology, o, step);
    NothingIsForgotten(topology, o, step);
    forall t | t in next.ticks ensures TickIsSound(topology, next.rows, next.ticks[t]) {
      ChangedTick(topology, o, step);
      if t in o.ticks && next.ticks[t] == o.ticks[t] { SoundStays(topology, o.rows, next.rows, o.ticks[t]); }
    }
  }

  // The tick a step works on, if it goes on.
  lemma ChangedTick(topology: Topology, o: Outbox, step: RelayStep)
    requires TicksAreSound(topology, o) && Enabled(topology, o, step)
    ensures var next := Next(topology, o, step);
            forall t :: t in next.ticks && !(t in o.ticks && next.ticks[t] == o.ticks[t]) ==>
              TickIsSound(topology, next.rows, next.ticks[t])
  {
    hide Locked, Landing, ResolveDestinations;
    if step.FinishRow? || step.SendFails? {
      RowGone(topology, o.rows, o.ticks[step.tick], Next(topology, o, step).ticks[step.tick]);
    }
  }

  lemma StepKeepsClaimsApart(topology: Topology, o: Outbox, step: RelayStep)
    requires ClaimsAreApart(o) && TicksAreSound(topology, o) && Enabled(topology, o, step)
    ensures ClaimsAreApart(Next(topology, o, step))
  {
    hide Landing, ResolveDestinations, HoldsOpen;
    var next := Next(topology, o, step);
    OpenClaims(topology, o, step);
    if step.Commit? {
      forall e | e in o.ticks[step.tick].finished ensures HoldsOpen(o, step.tick, e) {
        SoundTick(topology, o, step.tick, e);
      }
    }
  }

  lemma SoundTick(topology: Topology, o: Outbox, t: int, e: int)
    requires TicksAreSound(topology, o) && t in o.ticks
    ensures e in o.ticks[t].finished || e in o.ticks[t].failed ==> e in o.ticks[t].claimed
    ensures o.ticks[t].row == |o.ticks[t].claimed| && e in o.ticks[t].claimed ==>
              (e in o.ticks[t].finished <==> e !in o.ticks[t].failed)
    ensures AtRow(o, t) ==> CurrentEvent(o, t) in o.ticks[t].claimed
                            && CurrentEvent(o, t) !in o.ticks[t].finished && CurrentEvent(o, t) !in o.ticks[t].failed
  {
    hide ResolveDestinations;
    var tick := o.ticks[t];
    assert tick.row == |tick.claimed| ==> tick.claimed[..tick.row] == tick.claimed;
  }

  // A claim is open after a step only if it was before, or the step opened it on claimable rows.
  lemma OpenClaims(topology: Topology, o: Outbox, step: RelayStep)
    requires Enabled(topology, o, step)
    ensures forall t, e :: HoldsOpen(Next(topology, o, step), t, e) ==>
              if step.OpenTick? && t == step.tick then Claimable(o, e) && t !in o.ticks
              else HoldsOpen(o, t, e) && (step.Commit? ==> t != step.tick)
    ensures forall t, e :: Claimable(o, e) ==> !HoldsOpen(o, t, e)
    ensures step.Commit? ==> forall e :: e in o.ticks[step.tick].claimed ==> HoldsOpen(o, step.tick, e)
  {
    hide Landing, ResolveDestinations;
  }

  lemma SentStays(topology: Topology, rows: map<int, OutboxRow>, sent: multiset<(int, string)>,
                  more: map<int, OutboxRow>, later: multiset<(int, string)>, tick: Tick)
    requires TickHasSent(topology, rows, sent, tick)
    requires forall e :: e in tick.claimed ==> e in rows
    requires forall e :: e in rows ==> e in more && more[e].eventType == rows[e].eventType
    requires forall m :: sent[m] <= later[m]
    ensures TickHasSent(topology, more, later, tick)
  {
    hide ResolveDestinations;
    forall m: (int, string) | m in sent ensures m in later { assert sent[m] <= later[m]; }
    if tick.row < |tick.claimed| {
      var e := tick.claimed[tick.row];
      assert e in tick.claimed && e in rows;
      assert Destinations(topology, more[e]) == Destinations(topology, rows[e]);
    }
  }

  lemma FinishedRowIsSent(topology: Topology, rows: map<int, OutboxRow>, sent: multiset<(int, string)>, tick: Tick,
                          e: int)
    requires TickIsSound(topology, rows, tick) && TickHasSent(topology, rows, sent, tick)
    requires tick.row < |tick.claimed| && tick.claimed[tick.row] == e && tick.dest == |Destinations(topology, rows[e])|
    ensures TickHasSent(topology, rows, sent, tick.(row := tick.row + 1, dest := 0, finished := tick.finished + [e]))
  {
    hide ResolveDestinations;
    var all := Destinations(topology, rows[e]);
    forall q | q in all ensures (e, q.name) in sent { var i :| 0 <= i < |all| && all[i] == q; }
  }

  lemma OneMoreIsSent(topology: Topology, rows: map<int, OutboxRow>, sent: multiset<(int, string)>, tick: Tick, e: int,
                      name: string)
    requires TickIsSound(topology, rows, tick) && TickHasSent(topology, rows, sent, tick)
    requires tick.row < |tick.claimed| && tick.claimed[tick.row] == e && tick.dest < |Destinations(topology, rows[e])|
    requires name == Destinations(topology, rows[e])[tick.dest].name
    ensures TickHasSent(topology, rows, sent + multiset{(e, name)}, tick.(dest := tick.dest + 1))
  {
    hide ResolveDestinations;
  }

  lemma ChangedTickHasSent(topology: Topology, o: Outbox, step: RelayStep)
    requires TicksAreSound(topology, o) && ProgressIsSent(topology, o) && Enabled(topology, o, step)
    requires !step.Append? && step.tick in Next(topology, o, step).ticks
    ensures var next := Next(topology, o, step); TickHasSent(topology, next.rows, next.sent, next.ticks[step.tick])
  {
    hide Locked, ResolveDestinations, IsClaim, TickIsSound, Attempted, Published, TickHasSent;
    var t, sent := step.tick, Next(topology, o, step).sent;
    match step {
      case FinishRow(_) => FinishedRowIsSent(topology, o.rows, o.sent, o.ticks[t], CurrentEvent(o, t));
      case Send(_) =>
        var e, name := CurrentEvent(o, t), CurrentDestinations(topology, o, t)[o.ticks[t].dest].name;
        assert multiset([(e, name)]) == multiset{(e, name)};
        OneMoreIsSent(topology, o.rows, o.sent, o.ticks[t], e, name);
      case SendFails(_, _) => FailedRow(topology, o.rows, o.sent, sent, o.ticks[t]);
      case OpenTick(_, claimed) => NothingSentYet(topology, o.rows, o.sent, claimed);
      case Expire(_) => ClosedTick(topology, o.rows, o.sent, o.ticks[t]);
      case _ =>
    }
  }

  lemma NothingSentYet(topology: Topology, rows: map<int, OutboxRow>, sent: multiset<(int, string)>, claimed: seq<int>)
    ensures TickHasSent(topology, rows, sent, Tick(true, claimed, 0, 0, [], []))
  {
    hide ResolveDestinations;
  }

  lemma ClosedTick(topology: Topology, rows: map<int, OutboxRow>, sent: multiset<(int, string)>, tick: Tick)
    requires TickHasSent(topology, rows, sent, tick)
    ensures TickHasSent(topology, rows, sent, tick.(open := false))
  {
    hide ResolveDestinations;
  }

  // A step changes at most its own tick.
  lemma OnlyItsTick(topology: Topology, o: Outbox, step: RelayStep)
    requires Enabled(topology, o, step)
    ensures var next := Next(topology, o, step);
            forall t :: t in next.ticks && !(t in o.ticks && next.ticks[t] == o.ticks[t]) ==>
                !step.Append? && t == step.tick
  {
    hide Landing, ResolveDestinations, IsClaim, Attempted, Published;
  }

  lemma FailedRow(topology: Topology, rows: map<int, OutboxRow>, sent: multiset<(int, string)>,
                  later: multiset<(int, string)>, tick: Tick)
    requires TickIsSound(topology, rows, tick) && TickHasSent(topology, rows, sent, tick) && tick.row < |tick.claimed|
    requires forall m :: sent[m] <= later[m]
    ensures TickHasSent(topology, rows, later,
                        tick.(row := tick.row + 1, dest := 0, failed := tick.failed + [tick.claimed[tick.row]]))
  {
    hide ResolveDestinations;
    forall m: (int, string) | m in sent ensures m in later { assert sent[m] <= later[m]; }
  }

  lemma StepKeepsProgressSent(topology: Topology, o: Outbox, step: RelayStep)
    requires TicksAreSound(topology, o) && ProgressIsSent(topology, o) && Enabled(topology, o, step)
    ensures ProgressIsSent(topology, Next(topology, o, step))
  {
    hide Locked, Landing, ResolveDestinations, TickHasSent, Attempted, IsClaim, SentEverywhere;
    var next := Next(topology, o, step);
    NothingIsForgotten(topology, o, step);
    OnlyItsTick(topology, o, step);
    forall t | t in next.ticks ensures TickHasSent(topology, next.rows, next.sent, next.ticks[t]) {
      if t in o.ticks && next.ticks[t] == o.ticks[t] {
        SentStays(topology, o.rows, o.sent, next.rows, next.sent, o.ticks[t]);
      } else {
        ChangedTickHasSent(topology, o, step);
      }
    }
    forall e | e in next.rows && next.rows[e].published ensures SentEverywhere(topology, next.rows[e], next.sent, e) {
      PublishedHasSent(topology, o, step, e);
    }
  }

  lemma PublishedHasSent(topology: Topology, o: Outbox, step: RelayStep, e: int)
    requires ProgressIsSent(topology, o) && Enabled(topology, o, step) && IsPublished(Next(topology, o, step), e)
    ensures var next := Next(topology, o, step); SentEverywhere(topology, next.rows[e], next.sent, e)
  {
    hide Locked, Landing, ResolveDestinations, IsClaim;
    NothingIsForgotten(topology, o, step);
    assert SentEverywhere(topology, o.rows[e], o.sent, e);
  }

  lemma {:induction false} OnceEach(ids: seq<int>, e: int)
    requires Distinct(ids)
    ensures multiset(ids)[e] == if e in ids then 1 else 0
  {
    if ids != [] {
      assert ids == [ids[0]] + ids[1..];
      OnceEach(ids[1..], e);
    }
  }

  // The step ends the open attempt at a row, by failing, publishing or letting go of it.
  ghost predicate Ends(topology: Topology, o: Outbox, step: RelayStep, e: int)
    requires Enabled(topology, o, step)
  {
    match step
    case SendFails(t, _) => CurrentEvent(o, t) == e && o.ticks[t].open
    case Commit(t) => e in o.ticks[t].finished
    case Rollback(t) => e in Attempted(o.ticks[t])
    case Expire(t) => e in Attempted(o.ticks[t])
    case _ => false
  }

  lemma AttemptsAfter(topology: Topology, o: Outbox, step: RelayStep, t: int, e: int)
    requires TicksAreSound(topology, o) && Enabled(topology, o, step)
    ensures AttemptedBy(Next(topology, o, step), t, e) <==>
            if step.OpenTick? && t == step.tick then e in step.claimed
            else AttemptedBy(o, t, e)
                 && !(!step.Append? && t == step.tick && (Ends(topology, o, step, e) || step.Commit?))
    ensures !step.Append? && !step.OpenTick? && Ends(topology, o, step, e) ==> AttemptedBy(o, step.tick, e)
    ensures step.Commit? && AttemptedBy(o, step.tick, e) ==> Ends(topology, o, step, e)
  {
    hide Landing, ResolveDestinations, IsClaim;
    if !step.Append? && !step.OpenTick? { SoundTick(topology, o, step.tick, e); }
  }

  // Who still holds a row after a step.
  lemma HoldersAfter(topology: Topology, o: Outbox, step: RelayStep, e: int)
    requires TicksAreSound(topology, o) && ClaimsAreApart(o) && Enabled(topology, o, step)
    ensures var next := Next(topology, o, step);
            if Ends(topology, o, step, e) then Held(o, e) && !Held(next, e)
            else if step.OpenTick? && e in step.claimed then !Held(o, e) && Held(next, e)
            else Held(o, e) <==> Held(next, e)
  {
    hide Landing, ResolveDestinations, Next, Ends, AttemptedBy, IsClaim, Enabled;
    var next := Next(topology, o, step);
    forall t
      ensures AttemptedBy(o, t, e) ==> HoldsOpen(o, t, e) && t in o.ticks
      ensures AttemptedBy(next, t, e) ==> t in next.ticks
    {
      AttemptIsOpen(o, t, e);
      AttemptIsOpen(next, t, e);
    }
    forall t
      ensures AttemptedBy(next, t, e) <==>
              if step.OpenTick? && t == step.tick then e in step.claimed
              else AttemptedBy(o, t, e)
                   && !(!step.Append? && t == step.tick && (Ends(topology, o, step, e) || step.Commit?))
      ensures !step.Append? && !step.OpenTick? && Ends(topology, o, step, e) ==> AttemptedBy(o, step.tick, e)
      ensures step.Commit? && AttemptedBy(o, step.tick, e) ==> Ends(topology, o, step, e)
    {
      AttemptsAfter(topology, o, step, t, e);
    }
    if !step.Append? { AttemptsAfter(topology, o, step, step.tick, e); }
    OpenedAfresh(topology, o, step, e);
  }

  lemma AttemptIsOpen(o: Outbox, t: int, e: int)
    ensures AttemptedBy(o, t, e) ==> HoldsOpen(o, t, e) && t in o.ticks
  {}

  lemma OpenedAfresh(topology: Topology, o: Outbox, step: RelayStep, e: int)
    requires Enabled(topology, o, step)
    ensures step.OpenTick? ==> step.tick !in o.ticks && step.tick in Next(topology, o, step).ticks
    ensures step.OpenTick? && e in step.claimed ==> !Held(o, e)
    ensures !step.OpenTick? ==> Next(topology, o, step).ticks.Keys <= o.ticks.Keys
    ensures step.Append? ==> Next(topology, o, step).ticks == o.ticks && !Ends(topology, o, step, e)
    ensures step.OpenTick? ==> !Ends(topology, o, step, e) && forall t :: t in o.ticks ==>
              t in Next(topology, o, step).ticks
    ensures forall t :: t in o.ticks && t !in Next(topology, o, step).ticks ==>
              (step.Commit? || step.Rollback?) && t == step.tick
  {
    hide Landing, ResolveDestinations;
  }

  lemma HeldIsUnpublished(o: Outbox, e: int)
    requires ClaimsAreApart(o)
    ensures Held(o, e) ==> !IsPublished(o, e)
  {
    if Held(o, e) {
      var t :| t in o.ticks && AttemptedBy(o, t, e);
      assert HoldsOpen(o, t, e);
    }
  }

  lemma StepKeepsClaimCounted(topology: Topology, o: Outbox, step: RelayStep, e: int)
    requires TicksAreSound(topology, o) && ClaimsAreApart(o) && ClaimIsCounted(o, e) && Enabled(topology, o, step)
    ensures ClaimIsCounted(Next(topology, o, step), e)
  {
    hide ResolveDestinations, Landing, Held, Attempted;
    HoldersAfter(topology, o, step, e);
    HeldIsUnpublished(o, e);
    if step.OpenTick? { OnceEach(step.claimed, e); }
  }

  // A tick owes nothing new, unless the step opened it.
  lemma OwesNothingNew(topology: Topology, o: Outbox, step: RelayStep, t: int, e: int, queue: string)
    requires TicksAreSound(topology, o) && Enabled(topology, o, step)
             && Owes(topology, Next(topology, o, step), t, e, queue)
    ensures Owes(topology, o, t, e, queue) || (step.OpenTick? && t == step.tick && e in step.claimed && t !in o.ticks)
  {
    hide ResolveDestinations, Landing, IsClaim, Attempted, Destinations, Left;
    if t in o.ticks {
      SoundTick(topology, o, t, e);
      RowsKeepTypes(topology, o, step);
      if AtRow(o, t) && CurrentEvent(o, t) == e {
        LeftBefore(CurrentDestinations(topology, o, t), o.ticks[t].dest, queue);
      }
    }
  }

  lemma LeftBefore(all: seq<QueueDefinition>, dest: nat, queue: string)
    ensures Left(all, dest + 1, queue) ==> Left(all, dest, queue)
  {}

  lemma RowsKeepTypes(topology: Topology, o: Outbox, step: RelayStep)
    requires Enabled(topology, o, step)
    ensures forall e :: e in o.rows ==>
              e in Next(topology, o, step).rows
              && Destinations(topology, Next(topology, o, step).rows[e]) == Destinations(topology, o.rows[e])
  {
    hide ResolveDestinations;
    NothingIsForgotten(topology, o, step);
  }

  // A message on a queue was owed, and no longer is.
  lemma LandingPays(topology: Topology, o: Outbox, step: RelayStep, e: int, queue: string)
    requires DistinctNames(topology) && TicksAreSound(topology, o) && Enabled(topology, o, step)
    requires Landing(topology, o, step) == [(e, queue)]
    ensures Owes(topology, o, step.tick, e, queue) && !Owes(topology, Next(topology, o, step), step.tick, e, queue)
  {
    hide ResolveDestinations, IsClaim;
    var t, all := step.tick, CurrentDestinations(topology, o, step.tick);
    DestinationsAreDistinct(o.rows[e].eventType, topology);
    SoundTick(topology, o, t, e);
    assert all[o.ticks[t].dest].name == queue;
  }

  lemma AtMostOneLands(topology: Topology, o: Outbox, step: RelayStep)
    ensures |Landing(topology, o, step)| <= 1
    ensures Landing(topology, o, step) != [] ==> step.Send? || step.SendFails?
  {}

  lemma SentAfter(topology: Topology, o: Outbox, step: RelayStep, e: int, queue: string)
    requires Enabled(topology, o, step)
    ensures Next(topology, o, step).sent[(e, queue)]
            == o.sent[(e, queue)] + (if Landing(topology, o, step) == [(e, queue)] then 1 else 0)
    ensures step.OpenTick? ==> Next(topology, o, step).claims == o.claims + multiset(step.claimed)
    ensures !step.OpenTick? ==> Next(topology, o, step).claims == o.claims
  {
    hide ResolveDestinations, Attempted, IsClaim, Published;
    AtMostOneLands(topology, o, step);
    var landing := Landing(topology, o, step);
    if landing != [] { assert landing == [landing[0]]; }
  }

  lemma StepKeepsSendCounted(topology: Topology, o: Outbox, step: RelayStep, e: int, queue: string)
    requires DistinctNames(topology) && TicksAreSound(topology, o) && SendIsCounted(topology, o, e, queue)
    requires Enabled(topology, o, step)
    ensures SendIsCounted(topology, Next(topology, o, step), e, queue)
  {
    hide ResolveDestinations, Landing, Next, Owes, IsClaim, TickIsSound;
    var next := Next(topology, o, step);
    var before, now := Owing(topology, o, e, queue), Owing(topology, next, e, queue);
    forall t | t in now ensures t in before || (step.OpenTick? && t == step.tick && e in step.claimed) {
      OwesNothingNew(topology, o, step, t, e, queue);
      OwersAreTicks(topology, o, t, e, queue);
    }
    SentAfter(topology, o, step, e, queue);
    AtMostOneLands(topology, o, step);
    if Landing(topology, o, step) == [(e, queue)] {
      LandingPays(topology, o, step, e, queue);
      OwersAreTicks(topology, o, step.tick, e, queue);
      Fewer(now, before - {step.tick});
    } else if step.OpenTick? && e in step.claimed {
      ClaimedOnce(topology, o, step, e);
      Fewer(now, before + {step.tick});
    } else {
      Fewer(now, before);
    }
  }

  lemma ClaimedOnce(topology: Topology, o: Outbox, step: RelayStep, e: int)
    requires Enabled(topology, o, step) && step.OpenTick? && e in step.claimed
    ensures multiset(step.claimed)[e] == 1
  {
    OnceEach(step.claimed, e);
  }

  lemma OwersAreTicks(topology: Topology, o: Outbox, t: int, e: int, queue: string)
    ensures Owes(topology, o, t, e, queue) ==> t in o.ticks
  {}

  lemma Fewer(a: set<int>, b: set<int>)
    requires a <= b
    ensures |a| <= |b|
  {
    assert b == a + (b - a);
  }

  lemma StepKeepsInv(topology: Topology, o: Outbox, step: RelayStep)
    requires DistinctNames(topology) && Inv(topology, o) && Enabled(topology, o, step)
    ensures Inv(topology, Next(topology, o, step))
  {
    hide TicksAreSound, ClaimsAreApart, ProgressIsSent, ClaimIsCounted, SendIsCounted, Next, Enabled;
    StepKeepsTicksSound(topology, o, step);
    StepKeepsClaimsApart(topology, o, step);
    StepKeepsProgressSent(topology, o, step);
    forall e ensures ClaimIsCounted(Next(topology, o, step), e) { StepKeepsClaimCounted(topology, o, step, e); }
    forall e, queue ensures SendIsCounted(topology, Next(topology, o, step), e, queue) {
      StepKeepsSendCounted(topology, o, step, e, queue);
    }
  }

  // --- What holds over every run -----------------------------------------------------------------------------------

  ghost predicate Reachable(topology: Topology, o: Outbox) {
    exists steps :: Runs(topology, EMPTY, steps) && After(topology, EMPTY, steps) == o
  }

  lemma {:induction false} RunsKeepInv(topology: Topology, o: Outbox, steps: seq<RelayStep>)
    requires DistinctNames(topology) && Inv(topology, o) && Runs(topology, o, steps)
    ensures Inv(topology, After(topology, o, steps))
    decreases |steps|
  {
    hide Inv, Enabled, Next;
    if steps != [] {
      StepKeepsInv(topology, o, steps[0]);
      RunsKeepInv(topology, Next(topology, o, steps[0]), steps[1..]);
    }
  }

  lemma ReachableIsSound(topology: Topology, o: Outbox)
    requires DistinctNames(topology) && Reachable(topology, o)
    ensures Inv(topology, o)
  {
    hide Enabled, Next;
    var steps :| Runs(topology, EMPTY, steps) && After(topology, EMPTY, steps) == o;
    RunsKeepInv(topology, EMPTY, steps);
  }

  // No two open claims share a row, whatever ticks run side by side.
  lemma OpenClaimsNeverShareARow(topology: Topology, o: Outbox, t: int, u: int, e: int)
    requires DistinctNames(topology) && Reachable(topology, o)
    requires HoldsOpen(o, t, e) && HoldsOpen(o, u, e)
    ensures t == u && !IsPublished(o, e)
  {
    ReachableIsSound(topology, o);
  }

  // A committed row has been sent to every queue subscribed to its type.
  lemma PublishedRowsWereSent(topology: Topology, o: Outbox, e: int, q: QueueDefinition)
    requires DistinctNames(topology) && Reachable(topology, o) && IsPublished(o, e)
    requires q in topology && o.rows[e].eventType in q.subscribedEventTypes
    ensures (e, q.name) in o.sent
  {
    hide TicksAreSound, ClaimsAreApart, ClaimsAreCounted, SendsAreCounted;
    ReachableIsSound(topology, o);
    assert q in Destinations(topology, o.rows[e]);
  }

  // Messages sent for a row to a queue: at most one, and one more for each attempt at the row that failed or was rolled
  // back.
  lemma DuplicatesAreBounded(topology: Topology, o: Outbox, e: int, queue: string)
    requires DistinctNames(topology) && Reachable(topology, o)
    ensures o.sent[(e, queue)] <= o.claims[e] <= 1 + o.wasted[e]
  {
    hide TicksAreSound, ProgressIsSent;
    ReachableIsSound(topology, o);
    assert ClaimIsCounted(o, e) && SendIsCounted(topology, o, e, queue);
    HeldIsUnpublished(o, e);
  }

  // Some callback has yet to send the row to the queue.
  ghost predicate Owed(topology: Topology, o: Outbox, e: int, queue: string) {
    exists t :: t in o.ticks && Owes(topology, o, t, e, queue)
  }

  ghost predicate CanBeSentAgain(topology: Topology, o: Outbox, e: int, queue: string) {
    exists steps :: Runs(topology, o, steps) && After(topology, o, steps).sent[(e, queue)] > o.sent[(e, queue)]
  }

  lemma PublishedStays(topology: Topology, o: Outbox, step: RelayStep, e: int, queue: string)
    requires DistinctNames(topology) && TicksAreSound(topology, o) && Enabled(topology, o, step)
    requires IsPublished(o, e) && !Owed(topology, o, e, queue)
    ensures var next := Next(topology, o, step);
            next.sent[(e, queue)] == o.sent[(e, queue)] && IsPublished(next, e) && !Owed(topology, next, e, queue)
  {
    hide ResolveDestinations, Landing, IsClaim, Owes, Next, Enabled, TickIsSound;
    var next := Next(topology, o, step);
    SentAfter(topology, o, step, e, queue);
    NothingIsForgotten(topology, o, step);
    AtMostOneLands(topology, o, step);
    if Landing(topology, o, step) == [(e, queue)] {
      LandingPays(topology, o, step, e, queue);
      OwersAreTicks(topology, o, step.tick, e, queue);
    }
    if t :| t in next.ticks && Owes(topology, next, t, e, queue) {
      OwesNothingNew(topology, o, step, t, e, queue);
      OwersAreTicks(topology, o, t, e, queue);
      if step.OpenTick? && e in step.claimed { ClaimsAreUnpublished(topology, o, step, e); }
    }
  }

  lemma ClaimsAreUnpublished(topology: Topology, o: Outbox, step: RelayStep, e: int)
    requires Enabled(topology, o, step) && step.OpenTick? && e in step.claimed
    ensures !IsPublished(o, e)
  {}

  lemma {:induction false} NothingOwedNothingSent(topology: Topology, o: Outbox, steps: seq<RelayStep>, e: int,
                                                  queue: string)
    requires DistinctNames(topology) && TicksAreSound(topology, o) && Runs(topology, o, steps)
    requires IsPublished(o, e) && !Owed(topology, o, e, queue)
    ensures After(topology, o, steps).sent[(e, queue)] == o.sent[(e, queue)]
    decreases |steps|
  {
    hide Enabled, Next, TicksAreSound, Owed, IsPublished;
    if steps != [] {
      PublishedStays(topology, o, steps[0], e, queue);
      StepKeepsTicksSound(topology, o, steps[0]);
      NothingOwedNothingSent(topology, Next(topology, o, steps[0]), steps[1..], e, queue);
    }
  }

  // One step of a callback towards a row it still owes: a send, a failure, or the next row.
  ghost function Onward(topology: Topology, o: Outbox, t: int, e: int): RelayStep
    requires AtRow(o, t)
  {
    if o.ticks[t].dest == |CurrentDestinations(topology, o, t)| then FinishRow(t)
    else if CurrentEvent(o, t) == e then Send(t)
    else SendFails(t, false)
  }

  ghost function RowsLeft(o: Outbox, t: int): int
    requires t in o.ticks
  {
    |o.ticks[t].claimed| - o.ticks[t].row
  }

  ghost function DestinationsLeft(topology: Topology, o: Outbox, t: int): nat {
    if AtRow(o, t) && o.ticks[t].dest < |CurrentDestinations(topology, o, t)|
    then |CurrentDestinations(topology, o, t)| - o.ticks[t].dest else 0
  }

  lemma OwingIsAtRow(topology: Topology, o: Outbox, t: int, e: int, q: QueueDefinition)
    requires TicksAreSound(topology, o) && Owes(topology, o, t, e, q.name)
    ensures AtRow(o, t) && e in o.rows && Enabled(topology, o, Onward(topology, o, t, e))
  {
    hide ResolveDestinations, Left;
    var tick := o.ticks[t];
    assert tick.claimed[..|tick.claimed|] == tick.claimed;
  }

  lemma OnwardPaysOrNears(topology: Topology, o: Outbox, t: int, e: int, q: QueueDefinition)
    requires DistinctNames(topology) && TicksAreSound(topology, o) && Owes(topology, o, t, e, q.name)
    requires e in o.rows && q in Destinations(topology, o.rows[e])
    requires AtRow(o, t) && Enabled(topology, o, Onward(topology, o, t, e))
    ensures var step := Onward(topology, o, t, e);
            var next := Next(topology, o, step);
            || Landing(topology, o, step) == [(e, q.name)]
            || (&& Owes(topology, next, t, e, q.name) && e in next.rows && q in Destinations(topology, next.rows[e])
                && (|| RowsLeft(next, t) < RowsLeft(o, t)
                    || (RowsLeft(next, t) == RowsLeft(o, t)
                        && DestinationsLeft(topology, next, t) < DestinationsLeft(topology, o, t))))
  {
    hide ResolveDestinations, IsClaim;
    var all := CurrentDestinations(topology, o, t);
    SoundTick(topology, o, t, e);
    if CurrentEvent(o, t) == e {
      var i :| o.ticks[t].dest <= i < |all| && all[i].name == q.name;
    } else if o.ticks[t].row + 1 < |o.ticks[t].claimed| && o.ticks[t].claimed[o.ticks[t].row + 1] == e {
      var all := Destinations(topology, o.rows[e]);
      var i :| 0 <= i < |all| && all[i] == q;
      assert Left(all, 0, q.name);
    }
  }

  lemma {:induction false} OwerCanSend(topology: Topology, o: Outbox, t: int, e: int, q: QueueDefinition)
    returns (steps: seq<RelayStep>)
    requires DistinctNames(topology) && TicksAreSound(topology, o) && Owes(topology, o, t, e, q.name)
    requires e in o.rows && q in Destinations(topology, o.rows[e])
    ensures Runs(topology, o, steps) && After(topology, o, steps).sent[(e, q.name)] > o.sent[(e, q.name)]
    decreases if t in o.ticks then RowsLeft(o, t) else 0, DestinationsLeft(topology, o, t)
  {
    hide ResolveDestinations, IsClaim, Owes, Landing, Enabled, Next, Onward, TicksAreSound, DestinationsLeft,
         Destinations;
    OwersAreTicks(topology, o, t, e, q.name);
    OwingIsAtRow(topology, o, t, e, q);
    OnwardPaysOrNears(topology, o, t, e, q);
    var step := Onward(topology, o, t, e);
    SentAfter(topology, o, step, e, q.name);
    StepKeepsTicksSound(topology, o, step);
    if Landing(topology, o, step) == [(e, q.name)] {
      steps := [step];
      assert steps[1..] == [];
    } else {
      var rest := OwerCanSend(topology, Next(topology, o, step), t, e, q);
      steps := [step] + rest;
      assert steps[1..] == rest;
    }
  }

  // A published row is sent to a queue again exactly when some callback still owes it one.
  lemma PublishedRowIsSentAgainIffOwed(topology: Topology, o: Outbox, e: int, q: QueueDefinition)
    requires DistinctNames(topology) && Reachable(topology, o) && IsPublished(o, e)
    requires q in topology && o.rows[e].eventType in q.subscribedEventTypes
    ensures CanBeSentAgain(topology, o, e, q.name) <==> Owed(topology, o, e, q.name)
  {
    hide Enabled, Next, Owes, ClaimsAreApart, ProgressIsSent, ClaimsAreCounted, SendsAreCounted, TicksAreSound, After;
    ReachableIsSound(topology, o);
    assert q in Destinations(topology, o.rows[e]);
    if t :| t in o.ticks && Owes(topology, o, t, e, q.name) {
      var steps := OwerCanSend(topology, o, t, e, q);
    } else {
      forall steps | Runs(topology, o, steps)
        ensures After(topology, o, steps).sent[(e, q.name)] == o.sent[(e, q.name)]
      {
        NothingOwedNothingSent(topology, o, steps, e, q.name);
      }
    }
  }

  // A callback still at a published row has lost its transaction.
  lemma OnlyExpiredTicksLagBehind(topology: Topology, o: Outbox, t: int, e: int)
    requires DistinctNames(topology) && Reachable(topology, o) && IsPublished(o, e)
    requires t in o.ticks && e in o.ticks[t].claimed
    ensures !o.ticks[t].open
  {
    hide TicksAreSound, ProgressIsSent, ClaimsAreCounted, SendsAreCounted;
    ReachableIsSound(topology, o);
    assert !HoldsOpen(o, t, e);
  }

  // --- A published row that is still owed --------------------------------------------------------------------------

  lemma {:induction false} OneStepFurther(topology: Topology, o: Outbox, steps: seq<RelayStep>, step: RelayStep)
    requires Runs(topology, o, steps) && Enabled(topology, After(topology, o, steps), step)
    ensures Runs(topology, o, steps + [step])
    ensures After(topology, o, steps + [step]) == Next(topology, After(topology, o, steps), step)
    decreases |steps|
  {
    hide Enabled, Next;
    if steps == [] {
      assert [step][1..] == [] && steps + [step] == [step];
    } else {
      OneStepFurther(topology, Next(topology, o, steps[0]), steps[1..], step);
      assert (steps + [step])[1..] == steps[1..] + [step];
    }
  }

  lemma Further(topology: Topology, o: Outbox, step: RelayStep)
    requires Reachable(topology, o) && Enabled(topology, o, step)
    ensures Reachable(topology, Next(topology, o, step))
  {
    hide Enabled, Next;
    var steps :| Runs(topology, EMPTY, steps) && After(topology, EMPTY, steps) == o;
    OneStepFurther(topology, EMPTY, steps, step);
  }

  lemma EmptyIsReachable(topology: Topology)
    ensures Reachable(topology, EMPTY)
  {
    assert Runs(topology, EMPTY, []) && After(topology, EMPTY, []) == EMPTY;
  }

  // The row is appended, and the first tick to claim it loses its transaction before it sends anything.
  lemma LateTick(queue: QueueDefinition, e: int, eventType: string, at: int) returns (o: Outbox)
    ensures Reachable([queue], o) && o.rows == map[e := OutboxRow(eventType, at, false)]
    ensures o.ticks == map[1 := Tick(false, [e], 0, 0, [], [])] && o.sent == multiset{}
  {
    hide Reachable, ResolveDestinations;
    EmptyIsReachable([queue]);
    o := EMPTY;
    Further([queue], o, Append(e, eventType, at));
    o := Next([queue], o, Append(e, eventType, at));
    Further([queue], o, OpenTick(1, [e]));
    o := Next([queue], o, OpenTick(1, [e]));
    Further([queue], o, Expire(1));
    o := Next([queue], o, Expire(1));
  }

  // A second tick then sends and publishes the row, while the callback of the first has yet to send it: a published row
  // that will be sent again.
  lemma PublishedRowMayBeOwed(queue: QueueDefinition, e: int, eventType: string, at: int) returns (o: Outbox)
    requires eventType in queue.subscribedEventTypes
    ensures Reachable([queue], o) && IsPublished(o, e) && Owed([queue], o, e, queue.name)
    ensures o.sent[(e, queue.name)] == 1 && CanBeSentAgain([queue], o, e, queue.name)
  {
    hide Reachable, ResolveDestinations, CanBeSentAgain;
    OneDestination(queue, eventType);
    var all := ResolveDestinations(eventType, [queue]);
    o := LateTick(queue, e, eventType, at);
    Further([queue], o, OpenTick(2, [e]));
    o := Next([queue], o, OpenTick(2, [e]));
    Further([queue], o, Send(2));
    o := Next([queue], o, Send(2));
    Further([queue], o, FinishRow(2));
    o := Next([queue], o, FinishRow(2));
    Further([queue], o, Commit(2));
    o := Next([queue], o, Commit(2));
    assert all[0].name == queue.name && Left(all, 0, queue.name);
    assert Owes([queue], o, 1, e, queue.name);
    PublishedRowIsSentAgainIffOwed([queue], o, e, queue);
  }

  lemma OneDestination(queue: QueueDefinition, eventType: string)
    requires eventType in queue.subscribedEventTypes
    ensures ResolveDestinations(eventType, [queue]) == [queue]
  {
    assert [queue][1..] == [];
  }
}

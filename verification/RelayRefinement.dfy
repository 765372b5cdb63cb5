// A tick of the sweep, taken step by step, is a run of the relay machine: what holds of every run holds of it.
module RelayRefinement {
  import opened QueueTopology
  import opened OutboxRelay
  import opened RelaySweep

  ghost predicate Sorted(rows: seq<OutboxEvent>) {
    forall i, j :: 0 <= i < j < |rows| ==> rows[i].occurredAt <= rows[j].occurredAt
  }

  ghost predicate DistinctIds(rows: seq<OutboxEvent>) {
    forall i, j :: 0 <= i < j < |rows| ==> rows[i].id != rows[j].id
  }

  function RowOf(event: OutboxEvent): OutboxRow { OutboxRow(event.eventType, event.occurredAt, event.published) }

  // The table, read in order, holds the machine's rows.
  ghost predicate Mirrors(rows: seq<OutboxEvent>, held: map<int, OutboxRow>) {
    && Sorted(rows) && DistinctIds(rows)
    && (forall r :: r in rows ==> r.id in held && held[r.id] == RowOf(r))
    && (forall e :: e in held ==> exists r :: r in rows && r.id == e)
  }

  function Ids(events: seq<OutboxEvent>): (r: seq<int>)
    ensures |r| == |events| && forall i :: 0 <= i < |r| ==> r[i] == events[i].id
  {
    seq(|events|, i requires 0 <= i < |events| => events[i].id)
  }

  lemma HasIds(events: seq<OutboxEvent>)
    ensures forall r :: r in events ==> r.id in Ids(events)
  {
    forall r | r in events ensures r.id in Ids(events) {
      var i :| 0 <= i < |events| && events[i] == r;
      assert Ids(events)[i] == r.id;
    }
  }

  // --- The claim ---------------------------------------------------------------------------------------------------

  lemma {:induction false} ClaimTakesUnpublished(rows: seq<OutboxEvent>, limit: nat)
    ensures forall r :: r in Claim(rows, limit) ==> r in rows && !r.published
  {
    if rows != [] && limit > 0 {
      ClaimTakesUnpublished(rows[1..], if rows[0].published then limit else limit - 1);
    }
  }

  lemma {:induction false} ClaimKeepsOrder(rows: seq<OutboxEvent>, limit: nat)
    requires Sorted(rows) && DistinctIds(rows)
    ensures Sorted(Claim(rows, limit)) && DistinctIds(Claim(rows, limit))
  {
    if rows != [] && limit > 0 {
      var less := if rows[0].published then limit else limit - 1;
      var rest := Claim(rows[1..], less);
      ClaimKeepsOrder(rows[1..], less);
      ClaimTakesUnpublished(rows[1..], less);
      forall j | 0 <= j < |rest| ensures rows[0].occurredAt <= rest[j].occurredAt && rows[0].id != rest[j].id {
        assert rest[j] in rest && rest[j] in rows[1..];
      }
    }
  }

  // A row left out of a claim found it full of rows before it.
  lemma {:induction false} ClaimTakesTheFirst(rows: seq<OutboxEvent>, limit: nat, i: nat)
    requires i < |rows| && !rows[i].published && rows[i] !in Claim(rows, limit)
    ensures |Claim(rows, limit)| == limit && forall c :: c in Claim(rows, limit) ==> c in rows[..i]
  {
    if limit > 0 {
      var less := if rows[0].published then limit else limit - 1;
      assert !rows[0].published ==> rows[0] in Claim(rows, limit);
      assert rows[1..][i - 1] == rows[i];
      ClaimTakesTheFirst(rows[1..], less, i - 1);
      assert rows[1..][..i - 1] == rows[1..i] && rows[..i] == [rows[0]] + rows[1..i];
    }
  }

  lemma ClaimIsClaim(rows: seq<OutboxEvent>, o: Outbox)
    requires Mirrors(rows, o.rows) && o.ticks == map[]
    ensures IsClaim(o, Ids(Claim(rows, RELAY_BATCH_SIZE))) && TakesTheOldest(o, Ids(Claim(rows, RELAY_BATCH_SIZE)))
  {
    var claimed := Claim(rows, RELAY_BATCH_SIZE);
    ClaimTakesUnpublished(rows, RELAY_BATCH_SIZE);
    ClaimKeepsOrder(rows, RELAY_BATCH_SIZE);
    forall i | 0 <= i < |claimed| ensures claimed[i] in rows && !claimed[i].published { assert claimed[i] in claimed; }
    forall e | Claimable(o, e) && e !in Ids(claimed)
      ensures |claimed| == RELAY_BATCH_SIZE
      ensures forall i :: 0 <= i < |claimed| ==> o.rows[Ids(claimed)[i]].occurredAt <= o.rows[e].occurredAt
    {
      var r :| r in rows && r.id == e;
      var i :| 0 <= i < |rows| && rows[i] == r;
      HasIds(claimed);
      ClaimTakesTheFirst(rows, RELAY_BATCH_SIZE, i);
      forall j | 0 <= j < |claimed| ensures o.rows[claimed[j].id].occurredAt <= o.rows[e].occurredAt {
        assert claimed[j] in claimed && claimed[j] in rows[..i];
      }
    }
  }

  // --- The run -----------------------------------------------------------------------------------------------------

  lemma {:induction false} Compose(topology: Topology, o: Outbox, first: seq<RelayStep>, second: seq<RelayStep>)
    requires Runs(topology, o, first) && Runs(topology, After(topology, o, first), second)
    ensures Runs(topology, o, first + second)
    ensures After(topology, o, first + second) == After(topology, After(topology, o, first), second)
    decreases |first|
  {
    hide Enabled, Next;
    if first == [] {
      assert first + second == second;
    } else {
      Compose(topology, Next(topology, o, first[0]), first[1..], second);
      assert (first + second)[1..] == first[1..] + second;
    }
  }

  lemma OneStep(topology: Topology, o: Outbox, step: RelayStep)
    requires Enabled(topology, o, step)
    ensures Runs(topology, o, [step]) && After(topology, o, [step]) == Next(topology, o, step)
  {
    hide Enabled, Next;
    assert [step][1..] == [];
  }

  // The machine after the rest of a row's sends, from one of its destinations on.
  ghost function RowDone(topology: Topology, o: Outbox, t: int, net: Network): Outbox
    requires AtRow(o, t) && o.ticks[t].dest <= |CurrentDestinations(topology, o, t)|
  {
    var tick, e := o.ticks[t], CurrentEvent(o, t);
    var left := CurrentDestinations(topology, o, t)[tick.dest..];
    var past := tick.(row := tick.row + 1, dest := 0);
    if Succeeds(left, e, net) then
      o.(ticks := o.ticks[t := past.(finished := tick.finished + [e])],
         sent := o.sent + multiset(Arrivals(left, e, net)))
    else
      o.(ticks := o.ticks[t := past.(failed := tick.failed + [e])], sent := o.sent + multiset(Arrivals(left, e, net)),
         wasted := if tick.open then o.wasted + multiset{e} else o.wasted)
  }

  // The row is finished, or the next send fails.
  lemma RowEnds(topology: Topology, o: Outbox, t: int, net: Network) returns (step: RelayStep)
    requires AtRow(o, t) && o.ticks[t].dest <= |CurrentDestinations(topology, o, t)|
    requires var all := CurrentDestinations(topology, o, t);
             o.ticks[t].dest < |all| ==> !net(CurrentEvent(o, t), all[o.ticks[t].dest].name).Delivered?
    ensures Enabled(topology, o, step) && Next(topology, o, step) == RowDone(topology, o, t, net)
  {
    hide ResolveDestinations, IsClaim;
    var e, all, d := CurrentEvent(o, t), CurrentDestinations(topology, o, t), o.ticks[t].dest;
    if d == |all| {
      assert o.sent + multiset(Arrivals(all[d..], e, net)) == o.sent;
      step := FinishRow(t);
    } else {
      assert all[d..][0] == all[d];
      step := SendFails(t, net(e, all[d].name).ReplyLost?);
    }
  }

  lemma RowGoesOn(topology: Topology, o: Outbox, t: int, net: Network)
    requires AtRow(o, t) && o.ticks[t].dest < |CurrentDestinations(topology, o, t)|
    requires net(CurrentEvent(o, t), CurrentDestinations(topology, o, t)[o.ticks[t].dest].name).Delivered?
    ensures Enabled(topology, o, Send(t))
    ensures var next := Next(topology, o, Send(t));
            && AtRow(next, t) && CurrentDestinations(topology, next, t) == CurrentDestinations(topology, o, t)
            && next.ticks[t].dest == o.ticks[t].dest + 1
            && RowDone(topology, next, t, net) == RowDone(topology, o, t, net)
  {
    hide ResolveDestinations, IsClaim, Arrivals, Succeeds, CurrentEvent, CurrentDestinations, Enabled, Next;
    SendStaysAtRow(topology, o, t);
    var next, all, d := Next(topology, o, Send(t)), CurrentDestinations(topology, o, t), o.ticks[t].dest;
    assert all[d..][0] == all[d] && all[d..][1..] == all[d + 1..];
    OneMoreDelivered(all[d..], CurrentEvent(o, t), net);
    assert RowDone(topology, next, t, net).ticks == RowDone(topology, o, t, net).ticks;
    assert RowDone(topology, next, t, net).sent == RowDone(topology, o, t, net).sent;
  }

  lemma SendStaysAtRow(topology: Topology, o: Outbox, t: int)
    requires AtRow(o, t) && o.ticks[t].dest < |CurrentDestinations(topology, o, t)|
    ensures Enabled(topology, o, Send(t))
    ensures var next := Next(topology, o, Send(t));
            var all, d := CurrentDestinations(topology, o, t), o.ticks[t].dest;
            && next == o.(ticks := o.ticks[t := o.ticks[t].(dest := d + 1)],
                          sent := o.sent + multiset([(CurrentEvent(o, t), all[d].name)]))
            && AtRow(next, t) && CurrentEvent(next, t) == CurrentEvent(o, t)
               && CurrentDestinations(topology, next, t) == all
  {
    hide ResolveDestinations, IsClaim;
  }

  lemma {:induction false} RowIsARun(topology: Topology, o: Outbox, t: int, net: Network)
    returns (steps: seq<RelayStep>)
    requires AtRow(o, t) && o.ticks[t].dest <= |CurrentDestinations(topology, o, t)|
    ensures Runs(topology, o, steps) && After(topology, o, steps) == RowDone(topology, o, t, net)
    decreases |CurrentDestinations(topology, o, t)| - o.ticks[t].dest
  {
    hide ResolveDestinations, Enabled, Next, Runs, After, RowDone;
    var all, d := CurrentDestinations(topology, o, t), o.ticks[t].dest;
    if d < |all| && net(CurrentEvent(o, t), all[d].name).Delivered? {
      RowGoesOn(topology, o, t, net);
      OneStep(topology, o, Send(t));
      var rest := RowIsARun(topology, Next(topology, o, Send(t)), t, net);
      Compose(topology, o, [Send(t)], rest);
      steps := [Send(t)] + rest;
    } else {
      var step := RowEnds(topology, o, t, net);
      OneStep(topology, o, step);
      steps := [step];
    }
  }

  lemma OneMoreDelivered(left: seq<QueueDefinition>, e: int, net: Network)
    requires left != [] && net(e, left[0].name).Delivered?
    ensures Succeeds(left, e, net) <==> Succeeds(left[1..], e, net)
    ensures multiset(Arrivals(left, e, net)) == multiset([(e, left[0].name)]) + multiset(Arrivals(left[1..], e, net))
  {}

  // The machine once a tick has worked through its first n claimed rows.
  ghost function Reached(topology: Topology, o: Outbox, t: int, claimed: seq<OutboxEvent>, n: nat, net: Network): Outbox
    requires n <= |claimed|
  {
    var done := claimed[..n];
    o.(ticks := o.ticks[t := Tick(true, Ids(claimed), n, 0, Finished(topology, done, net),
                                  Failed(topology, done, net))],
       sent := o.sent + multiset(AllArrivals(topology, done, net)),
       claims := o.claims + multiset(Ids(claimed)),
       wasted := o.wasted + multiset(Failed(topology, done, net)))
  }

  // A whole row's sends: it is finished or failed, and what got through was sent.
  ghost function RowTried(topology: Topology, o: Outbox, t: int, r: OutboxEvent, net: Network): Outbox
    requires t in o.ticks && o.ticks[t].open
  {
    var past := o.ticks[t].(row := o.ticks[t].row + 1, dest := 0);
    var sent := o.sent + multiset(RowArrivals(topology, r, net));
    if RowSucceeds(topology, r, net) then
      o.(ticks := o.ticks[t := past.(finished := past.finished + [r.id])], sent := sent)
    else
      o.(ticks := o.ticks[t := past.(failed := past.failed + [r.id])], sent := sent,
         wasted := o.wasted + multiset{r.id})
  }

  lemma WholeRow(topology: Topology, o: Outbox, t: int, r: OutboxEvent, net: Network)
    requires AtRow(o, t) && o.ticks[t].open && o.ticks[t].dest == 0 && CurrentEvent(o, t) == r.id
    requires CurrentDestinations(topology, o, t) == ResolveDestinations(r.eventType, topology)
    ensures RowDone(topology, o, t, net) == RowTried(topology, o, t, r, net)
  {
    hide ResolveDestinations, Arrivals, Succeeds, CurrentEvent, CurrentDestinations;
    assert CurrentDestinations(topology, o, t)[0..] == CurrentDestinations(topology, o, t);
  }

  lemma TriedIsReached(topology: Topology, o: Outbox, t: int, claimed: seq<OutboxEvent>, n: nat, net: Network)
    requires n < |claimed|
    ensures RowTried(topology, Reached(topology, o, t, claimed, n, net), t, claimed[n], net)
            == Reached(topology, o, t, claimed, n + 1, net)
  {
    hide RowSucceeds, RowArrivals, Finished, Failed, AllArrivals;
    OneMoreFate(topology, claimed, n, net);
    OneMoreArrives(topology, claimed, n, net);
    var next := Reached(topology, o, t, claimed, n + 1, net);
    var done := RowTried(topology, Reached(topology, o, t, claimed, n, net), t, claimed[n], net);
    var before, after := Reached(topology, o, t, claimed, n, net).ticks[t], next.ticks[t];
    assert done.ticks[t] == after;
    Overwritten(o.ticks, t, before, after);
    assert done.sent == next.sent;
    assert done.wasted == next.wasted;
  }

  lemma Overwritten(ticks: map<int, Tick>, t: int, before: Tick, after: Tick)
    ensures ticks[t := before][t := after] == ticks[t := after]
  {}

  lemma NextRowReached(topology: Topology, o: Outbox, t: int, claimed: seq<OutboxEvent>, n: nat, net: Network)
    requires n < |claimed| && claimed[n].id in o.rows && o.rows[claimed[n].id].eventType == claimed[n].eventType
    ensures var here := Reached(topology, o, t, claimed, n, net);
            && AtRow(here, t) && here.ticks[t].dest == 0
            && RowDone(topology, here, t, net) == Reached(topology, o, t, claimed, n + 1, net)
  {
    hide RowDone, RowTried, AtRow, CurrentEvent, CurrentDestinations;
    ReachedRow(topology, o, t, claimed, n, net);
    WholeRow(topology, Reached(topology, o, t, claimed, n, net), t, claimed[n], net);
    TriedIsReached(topology, o, t, claimed, n, net);
  }

  lemma ReachedRow(topology: Topology, o: Outbox, t: int, claimed: seq<OutboxEvent>, n: nat, net: Network)
    requires n < |claimed| && claimed[n].id in o.rows && o.rows[claimed[n].id].eventType == claimed[n].eventType
    ensures var here := Reached(topology, o, t, claimed, n, net);
            && AtRow(here, t) && here.ticks[t].dest == 0 && CurrentEvent(here, t) == claimed[n].id
            && CurrentDestinations(topology, here, t) == ResolveDestinations(claimed[n].eventType, topology)
  {
    hide ResolveDestinations, Finished, Failed, AllArrivals;
  }

  lemma OneMoreFate(topology: Topology, claimed: seq<OutboxEvent>, n: nat, net: Network)
    requires n < |claimed|
    ensures var some, more, e := claimed[..n], claimed[..n + 1], claimed[n].id;
            if RowSucceeds(topology, claimed[n], net) then
              Finished(topology, more, net) == Finished(topology, some, net) + [e]
                && Failed(topology, more, net) == Failed(topology, some, net)
            else
              && Finished(topology, more, net) == Finished(topology, some, net)
              && Failed(topology, more, net) == Failed(topology, some, net) + [e]
              && multiset(Failed(topology, more, net)) == multiset(Failed(topology, some, net)) + multiset{e}
  {
    hide RowSucceeds;
    assert claimed[..n + 1][..n] == claimed[..n];
  }

  lemma OneMoreArrives(topology: Topology, claimed: seq<OutboxEvent>, n: nat, net: Network)
    requires n < |claimed|
    ensures multiset(AllArrivals(topology, claimed[..n + 1], net))
            == multiset(AllArrivals(topology, claimed[..n], net)) + multiset(RowArrivals(topology, claimed[n], net))
  {
    hide RowArrivals;
    assert claimed[..n + 1][..n] == claimed[..n];
  }

  lemma {:induction false} RowsAreARun(topology: Topology, o: Outbox, t: int, claimed: seq<OutboxEvent>, n: nat,
                                       net: Network)
    returns (steps: seq<RelayStep>)
    requires n <= |claimed| && t !in o.ticks && IsClaim(o, Ids(claimed))
    requires forall r :: r in claimed ==> r.id in o.rows && o.rows[r.id].eventType == r.eventType
    ensures Runs(topology, o, steps) && After(topology, o, steps) == Reached(topology, o, t, claimed, n, net)
  {
    hide ResolveDestinations, Runs, After, RowDone, Reached;
    if n == 0 {
      ClaimReached(topology, o, t, claimed, net);
      OneStep(topology, o, OpenTick(t, Ids(claimed)));
      steps := [OpenTick(t, Ids(claimed))];
    } else {
      var before := RowsAreARun(topology, o, t, claimed, n - 1, net);
      var here := Reached(topology, o, t, claimed, n - 1, net);
      assert claimed[n - 1] in claimed;
      NextRowReached(topology, o, t, claimed, n - 1, net);
      var row := RowIsARun(topology, here, t, net);
      Compose(topology, o, before, row);
      steps := before + row;
    }
  }

  lemma ClaimReached(topology: Topology, o: Outbox, t: int, claimed: seq<OutboxEvent>, net: Network)
    requires t !in o.ticks && IsClaim(o, Ids(claimed))
    ensures Enabled(topology, o, OpenTick(t, Ids(claimed)))
    ensures Next(topology, o, OpenTick(t, Ids(claimed))) == Reached(topology, o, t, claimed, 0, net)
  {
    hide ResolveDestinations, IsClaim;
    assert claimed[..0] == [];
    assert o.sent + multiset([]) == o.sent && o.wasted + multiset([]) == o.wasted;
  }

  // A tick nothing interrupts: the claim, every row in turn, the commit. The machine ends holding the swept table.
  lemma SweepIsARun(topology: Topology, o: Outbox, t: int, rows: seq<OutboxEvent>, net: Network)
    returns (steps: seq<RelayStep>)
    requires Mirrors(rows, o.rows) && o.ticks == map[]
    ensures Runs(topology, o, steps)
    ensures var after, claimed := After(topology, o, steps), Claim(rows, RELAY_BATCH_SIZE);
            && Mirrors(Swept(topology, rows, net), after.rows) && after.ticks == map[]
            && after.sent == o.sent + multiset(AllArrivals(topology, claimed, net))
            && after.wasted == o.wasted + multiset(Failed(topology, claimed, net))
  {
    hide Runs, After, Claim, Mirrors, Swept, Finished, Failed, AllArrivals, IsClaim;
    var claimed := Claim(rows, RELAY_BATCH_SIZE);
    ClaimIsClaim(rows, o);
    ClaimIsHeld(rows, o);
    assert claimed[..|claimed|] == claimed;
    var work := RowsAreARun(topology, o, t, claimed, |claimed|, net);
    var here := Reached(topology, o, t, claimed, |claimed|, net);
    OneStep(topology, here, Commit(t));
    Compose(topology, o, work, [Commit(t)]);
    SweptIsPublished(topology, rows, o.rows, net);
    assert here.ticks - {t} == map[];
    steps := work + [Commit(t)];
  }

  lemma ClaimIsHeld(rows: seq<OutboxEvent>, o: Outbox)
    requires Mirrors(rows, o.rows)
    ensures forall r :: r in Claim(rows, RELAY_BATCH_SIZE) ==> r.id in o.rows && o.rows[r.id].eventType == r.eventType
  {
    ClaimTakesUnpublished(rows, RELAY_BATCH_SIZE);
  }

  lemma SweptIsPublished(topology: Topology, rows: seq<OutboxEvent>, held: map<int, OutboxRow>, net: Network)
    requires Mirrors(rows, held)
    ensures Mirrors(Swept(topology, rows, net), Published(held, Finished(topology, Claim(rows, RELAY_BATCH_SIZE), net)))
  {
    hide Claim, Finished;
    MarkedIsPublished(rows, held, Finished(topology, Claim(rows, RELAY_BATCH_SIZE), net));
  }

  lemma MarkedIsPublished(rows: seq<OutboxEvent>, held: map<int, OutboxRow>, ids: seq<int>)
    requires Mirrors(rows, held)
    ensures Mirrors(Marked(rows, ids), Published(held, ids))
  {
    var marked := Marked(rows, ids);
    forall r | r in marked ensures r.id in held && Published(held, ids)[r.id] == RowOf(r) {
      var i :| 0 <= i < |marked| && marked[i] == r;
      assert rows[i] in rows;
    }
    forall e | e in held ensures exists r :: r in marked && r.id == e {
      var r :| r in rows && r.id == e;
      var i :| 0 <= i < |rows| && rows[i] == r;
      assert marked[i] in marked;
    }
  }

  // A tick cut off just after one of its rows: everything up to there was sent, nothing is marked.
  lemma InterruptedSweepIsARun(topology: Topology, o: Outbox, t: int, rows: seq<OutboxEvent>, net: Network, at: nat)
    returns (steps: seq<RelayStep>)
    requires Mirrors(rows, o.rows) && o.ticks == map[] && at < |Claim(rows, RELAY_BATCH_SIZE)|
    ensures Runs(topology, o, steps)
    ensures var after, claimed := After(topology, o, steps), Claim(rows, RELAY_BATCH_SIZE);
            && after.rows == o.rows && after.ticks == map[]
            && after.sent == o.sent + multiset(AllArrivals(topology, claimed[..at + 1], net))
  {
    hide Runs, After, Claim, Mirrors, Finished, Failed, AllArrivals, IsClaim, Attempted;
    var claimed := Claim(rows, RELAY_BATCH_SIZE);
    ClaimIsClaim(rows, o);
    ClaimIsHeld(rows, o);
    var work := RowsAreARun(topology, o, t, claimed, at + 1, net);
    var here := Reached(topology, o, t, claimed, at + 1, net);
    OneStep(topology, here, Rollback(t));
    Compose(topology, o, work, [Rollback(t)]);
    assert here.ticks - {t} == map[];
    steps := work + [Rollback(t)];
  }
}

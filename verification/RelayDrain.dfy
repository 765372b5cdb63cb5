// How long a row waits for one relay that keeps completing its ticks, and when it waits for ever: rows that fail every
// time stay at the head of the claim.
module RelayDrain {
  import opened QueueTopology
  import opened OutboxRelay
  import opened RelaySweep
  import opened RelayRefinement

  // A tick, and the events committed to the outbox before the next.
  datatype Round = Round(net: Network, appended: seq<OutboxEvent>)

  predicate HasId(rows: seq<OutboxEvent>, e: int) { exists i :: 0 <= i < |rows| && rows[i].id == e }

  function Inserted(rows: seq<OutboxEvent>, r: OutboxEvent): seq<OutboxEvent> {
    if rows != [] && rows[0].occurredAt <= r.occurredAt then [rows[0]] + Inserted(rows[1..], r)
    else [r.(published := false)] + rows
  }

  // An id is a primary key.
  function Appended(rows: seq<OutboxEvent>, events: seq<OutboxEvent>): seq<OutboxEvent>
    decreases |events|
  {
    if events == [] then rows
    else Appended(if HasId(rows, events[0].id) then rows else Inserted(rows, events[0]), events[1..])
  }

  function AfterRound(topology: Topology, rows: seq<OutboxEvent>, round: Round): seq<OutboxEvent> {
    Appended(Swept(topology, rows, round.net), round.appended)
  }

  function AfterRounds(topology: Topology, rows: seq<OutboxEvent>, rounds: nat -> Round, from: nat,
                       upTo: nat): seq<OutboxEvent>
    decreases upTo - from
  {
    if from >= upTo then rows
    else AfterRounds(topology, AfterRound(topology, rows, rounds(from)), rounds, from + 1, upTo)
  }

  // The unpublished rows before one.
  function Ahead(rows: seq<OutboxEvent>, h: int): set<int> {
    if rows == [] || rows[0].id == h then {}
    else (if rows[0].published then {} else {rows[0].id}) + Ahead(rows[1..], h)
  }

  ghost predicate Waits(rows: seq<OutboxEvent>, h: OutboxEvent) {
    Sorted(rows) && DistinctIds(rows) && !h.published && h in rows
  }

  ghost predicate Out(rows: seq<OutboxEvent>, e: int) { exists r :: r in rows && r.id == e && r.published }

  // Sends of a row outside `bad` always arrive.
  ghost predicate Works(net: Network, bad: set<int>) { forall e, queue :: e !in bad ==> net(e, queue).Delivered? }

  // Every row of the table that is in `bad` has a send that fails.
  ghost predicate Jams(topology: Topology, rows: seq<OutboxEvent>, net: Network, bad: set<int>) {
    forall r :: r in rows && r.id in bad ==> !RowSucceeds(topology, r, net)
  }

  // The same of the rows ahead of one alone.
  ghost predicate JamsAhead(topology: Topology, rows: seq<OutboxEvent>, net: Network, h: int, bad: set<int>) {
    Jams(topology, rows, net, Ahead(rows, h) * bad)
  }

  ghost predicate ArrivesAfter(round: Round, at: int) { forall r :: r in round.appended ==> at <= r.occurredAt }

  // --- One tick ----------------------------------------------------------------------------------------------------

  lemma {:induction false} AheadAfterMarking(rows: seq<OutboxEvent>, ids: seq<int>, h: int)
    ensures Ahead(Marked(rows, ids), h) == Ahead(rows, h) - set e | e in ids
  {
    if rows != [] {
      AheadAfterMarking(rows[1..], ids, h);
      assert Marked(rows, ids)[1..] == Marked(rows[1..], ids);
    }
  }

  lemma {:induction false} AheadAreUnpublished(rows: seq<OutboxEvent>, h: int)
    ensures h !in Ahead(rows, h)
    ensures forall e :: e in Ahead(rows, h) ==> exists r :: r in rows && r.id == e
  {
    if rows != [] && rows[0].id != h {
      AheadAreUnpublished(rows[1..], h);
      forall e | e in Ahead(rows, h) ensures exists r :: r in rows && r.id == e {
        if e != rows[0].id {
          var r :| r in rows[1..] && r.id == e;
          assert r in rows;
        } else {
          assert rows[0] in rows;
        }
      }
    }
  }

  // A waiting row is claimed along with all rows ahead of it, or the claim is full of those.
  lemma {:induction false} ClaimedOrBehind(rows: seq<OutboxEvent>, limit: nat, h: OutboxEvent)
    requires DistinctIds(rows) && !h.published && h in rows
    ensures var claimed := Claim(rows, limit);
            if h in claimed then forall e :: e in Ahead(rows, h.id) ==> e in Ids(claimed)
            else |claimed| == limit && forall e :: e in Ids(claimed) ==> e in Ahead(rows, h.id)
  {
    if limit > 0 {
      if rows[0].id == h.id {
        assert h == rows[0] by { var i :| 0 <= i < |rows| && rows[i] == h; }
      } else {
        var less := if rows[0].published then limit else limit - 1;
        assert h in rows[1..] by { var i :| 0 <= i < |rows| && rows[i] == h; assert rows[1..][i - 1] == h; }
        ClaimedOrBehind(rows[1..], less, h);
        var rest := Claim(rows[1..], less);
        if !rows[0].published {
          assert Ids([rows[0]] + rest) == [rows[0].id] + Ids(rest);
        }
      }
    }
  }

  lemma {:induction false} FinishedRows(topology: Topology, claimed: seq<OutboxEvent>, net: Network, e: int)
    ensures e in Finished(topology, claimed, net) <==>
              exists r :: r in claimed && r.id == e && RowSucceeds(topology, r, net)
  {
    hide RowSucceeds;
    if claimed != [] {
      var some, last := claimed[..|claimed| - 1], claimed[|claimed| - 1];
      FinishedRows(topology, some, net, e);
      assert claimed == some + [last];
    }
  }

  lemma {:induction false} DistinctAreMany(ids: seq<int>)
    requires Distinct(ids)
    ensures |set e | e in ids| == |ids|
  {
    if ids != [] {
      var rest := set e | e in ids[1..];
      DistinctAreMany(ids[1..]);
      assert ids[0] !in rest;
      assert (set e | e in ids) == {ids[0]} + rest;
    }
  }

  // --- New rows ----------------------------------------------------------------------------------------------------

  lemma {:induction false} InsertedRows(rows: seq<OutboxEvent>, r: OutboxEvent, q: OutboxEvent)
    ensures q in Inserted(rows, r) <==> q in rows || q == r.(published := false)
  {
    if rows != [] && rows[0].occurredAt <= r.occurredAt {
      InsertedRows(rows[1..], r, q);
      assert rows == [rows[0]] + rows[1..];
    }
  }

  lemma {:induction false} InsertedInOrder(rows: seq<OutboxEvent>, r: OutboxEvent)
    requires Sorted(rows) && DistinctIds(rows) && !HasId(rows, r.id)
    ensures Sorted(Inserted(rows, r)) && DistinctIds(Inserted(rows, r))
  {
    if rows != [] && rows[0].occurredAt <= r.occurredAt {
      var rest := Inserted(rows[1..], r);
      assert forall i :: 0 <= i < |rows[1..]| ==> rows[1..][i] == rows[i + 1];
      InsertedInOrder(rows[1..], r);
      forall j | 0 <= j < |rest| ensures rows[0].occurredAt <= rest[j].occurredAt && rows[0].id != rest[j].id {
        InsertedRows(rows[1..], r, rest[j]);
        assert rest[j] in rest;
      }
    }
  }

  lemma {:induction false} InsertedBehind(rows: seq<OutboxEvent>, r: OutboxEvent, h: OutboxEvent)
    requires Sorted(rows) && h in rows && h.occurredAt <= r.occurredAt && !HasId(rows, r.id)
    ensures Ahead(Inserted(rows, r), h.id) == Ahead(rows, h.id)
  {
    var i :| 0 <= i < |rows| && rows[i] == h;
    assert rows[0].occurredAt <= h.occurredAt;
    if rows[0].id != h.id {
      assert rows[1..][i - 1] == h;
      assert forall i :: 0 <= i < |rows[1..]| ==> rows[1..][i] == rows[i + 1];
      InsertedBehind(rows[1..], r, h);
    }
  }

  lemma {:induction false} AppendedBehind(rows: seq<OutboxEvent>, events: seq<OutboxEvent>, h: OutboxEvent)
    requires Sorted(rows) && DistinctIds(rows) && h in rows && forall r :: r in events ==> h.occurredAt <= r.occurredAt
    ensures var after := Appended(rows, events);
            Sorted(after) && DistinctIds(after) && h in after && Ahead(after, h.id) == Ahead(rows, h.id)
    decreases |events|
  {
    hide HasId, Inserted, Ahead, Sorted, DistinctIds;
    if events != [] {
      if HasId(rows, events[0].id) {
        AppendedBehind(rows, events[1..], h);
      } else {
        InsertedInOrder(rows, events[0]);
        InsertedBehind(rows, events[0], h);
        InsertedRows(rows, events[0], h);
        AppendedBehind(Inserted(rows, events[0]), events[1..], h);
      }
    }
  }

  // --- A round -----------------------------------------------------------------------------------------------------

  lemma SweptInOrder(topology: Topology, rows: seq<OutboxEvent>, net: Network)
    requires Sorted(rows) && DistinctIds(rows)
    ensures Sorted(Swept(topology, rows, net)) && DistinctIds(Swept(topology, rows, net))
  {
    hide Claim, Finished;
  }

  // After a tick the row is published exactly when it was claimed and its sends all succeeded.
  lemma SweptRow(topology: Topology, rows: seq<OutboxEvent>, net: Network, h: OutboxEvent)
    requires Waits(rows, h)
    ensures var claimed, after := Claim(rows, RELAY_BATCH_SIZE), Swept(topology, rows, net);
            if h in claimed && RowSucceeds(topology, h, net) then h.(published := true) in after else h in after
  {
    hide Finished, RowSucceeds, Claim;
    var i :| 0 <= i < |rows| && rows[i] == h;
    var claimed, after := Claim(rows, RELAY_BATCH_SIZE), Swept(topology, rows, net);
    FinishedRows(topology, claimed, net, h.id);
    ClaimTakesUnpublished(rows, RELAY_BATCH_SIZE);
    forall r | r in claimed && r.id == h.id ensures r == h {
      var j :| 0 <= j < |rows| && rows[j] == r;
    }
    assert after[i] in after;
  }

  // A tick takes the finished rows out of those ahead.
  lemma SweptAhead(topology: Topology, rows: seq<OutboxEvent>, net: Network, h: int)
    ensures Ahead(Swept(topology, rows, net), h)
            == Ahead(rows, h) - set e | e in Finished(topology, Claim(rows, RELAY_BATCH_SIZE), net)
  {
    hide Claim, Finished;
    AheadAfterMarking(rows, Finished(topology, Claim(rows, RELAY_BATCH_SIZE), net), h);
  }

  lemma {:induction false} AppendedKeeps(rows: seq<OutboxEvent>, events: seq<OutboxEvent>, r: OutboxEvent)
    requires r in rows && Sorted(rows) && DistinctIds(rows)
    ensures r in Appended(rows, events)
    decreases |events|
  {
    hide HasId, Inserted, Sorted, DistinctIds;
    if events != [] {
      if HasId(rows, events[0].id) {
        AppendedKeeps(rows, events[1..], r);
      } else {
        InsertedInOrder(rows, events[0]);
        InsertedRows(rows, events[0], r);
        AppendedKeeps(Inserted(rows, events[0]), events[1..], r);
      }
    }
  }

  lemma UnfailingRowSucceeds(topology: Topology, net: Network, bad: set<int>, r: OutboxEvent)
    requires Works(net, bad) && r.id !in bad
    ensures RowSucceeds(topology, r, net)
  {
    hide ResolveDestinations;
  }

  // A full claim takes the failing rows ahead with it at worst; every other row in it is finished.
  lemma FullClaimFinishes(topology: Topology, rows: seq<OutboxEvent>, net: Network, h: OutboxEvent, bad: set<int>)
    requires Waits(rows, h) && Works(net, bad) && h !in Claim(rows, RELAY_BATCH_SIZE)
    ensures var done := set e | e in Finished(topology, Claim(rows, RELAY_BATCH_SIZE), net);
            var healthy := Ahead(rows, h.id) - bad;
            |healthy - done| + RELAY_BATCH_SIZE <= |healthy| + |Ahead(rows, h.id) * bad|
  {
    hide Claim, Finished, RowSucceeds, Ahead, Sorted, Works;
    var claimed := Claim(rows, RELAY_BATCH_SIZE);
    var ids := set e | e in Ids(claimed);
    var done := set e | e in Finished(topology, claimed, net);
    var ahead := Ahead(rows, h.id);
    ClaimedOrBehind(rows, RELAY_BATCH_SIZE, h);
    ClaimedIdsAreMany(rows);
    forall e | e in ids - bad ensures e in done {
      var j :| 0 <= j < |claimed| && claimed[j].id == e;
      UnfailingRowSucceeds(topology, net, bad, claimed[j]);
      FinishedRows(topology, claimed, net, e);
    }
    assert ids <= ahead;
    HealthyShare(ids, done, ahead, bad);
  }

  lemma HealthyShare(ids: set<int>, done: set<int>, ahead: set<int>, bad: set<int>)
    requires ids <= ahead && ids - bad <= done
    ensures |ahead - bad - done| + |ids| <= |ahead - bad| + |ahead * bad|
  {
    Fewer(ids * bad, ahead * bad);
    Fewer(ahead - bad - done, (ahead - bad) - (ids - bad));
    assert ids == (ids - bad) + (ids * bad);
    assert ahead - bad == ((ahead - bad) - (ids - bad)) + (ids - bad);
  }

  lemma ClaimedIdsAreMany(rows: seq<OutboxEvent>)
    requires Sorted(rows) && DistinctIds(rows)
    ensures |set e | e in Ids(Claim(rows, RELAY_BATCH_SIZE))| == |Claim(rows, RELAY_BATCH_SIZE)|
  {
    hide Claim, Sorted;
    ClaimKeepsOrder(rows, RELAY_BATCH_SIZE);
    DistinctAreMany(Ids(Claim(rows, RELAY_BATCH_SIZE)));
  }

  // A row that can be sent goes out in a round, or the round takes it forward by all but the failing rows' share.
  lemma RoundDrains(topology: Topology, rows: seq<OutboxEvent>, round: Round, h: OutboxEvent, bad: set<int>, gain: nat)
    requires Waits(rows, h) && h.id !in bad && Works(round.net, bad) && ArrivesAfter(round, h.occurredAt)
    requires |Ahead(rows, h.id) * bad| + gain <= RELAY_BATCH_SIZE
    ensures var after := AfterRound(topology, rows, round);
            && Sorted(after) && DistinctIds(after)
            && (|| h.(published := true) in after
                || (&& h in after && |Ahead(after, h.id) - bad| + gain <= |Ahead(rows, h.id) - bad|
                    && |Ahead(after, h.id) * bad| <= |Ahead(rows, h.id) * bad|))
  {
    hide Claim, Finished, RowSucceeds, Ahead, Sorted, DistinctIds, Swept, Works, Appended;
    var swept := Swept(topology, rows, round.net);
    SweptInOrder(topology, rows, round.net);
    SweptRow(topology, rows, round.net, h);
    UnfailingRowSucceeds(topology, round.net, bad, h);
    if h in Claim(rows, RELAY_BATCH_SIZE) {
      AppendedKeeps(swept, round.appended, h.(published := true));
      AppendedBehind(swept, round.appended, h.(published := true));
    } else {
      SweptAhead(topology, rows, round.net, h.id);
      FullClaimFinishes(topology, rows, round.net, h, bad);
      AppendedBehind(swept, round.appended, h);
      var done := set e | e in Finished(topology, Claim(rows, RELAY_BATCH_SIZE), round.net);
      assert Ahead(swept, h.id) - bad == (Ahead(rows, h.id) - bad) - done;
      Fewer(Ahead(swept, h.id) * bad, Ahead(rows, h.id) * bad);
    }
  }

  // With a full claim's worth of failing rows ahead, a round moves nothing.
  lemma RoundStarves(topology: Topology, rows: seq<OutboxEvent>, round: Round, h: OutboxEvent, bad: set<int>)
    requires Waits(rows, h) && JamsAhead(topology, rows, round.net, h.id, bad) && ArrivesAfter(round, h.occurredAt)
    requires |Ahead(rows, h.id) * bad| >= RELAY_BATCH_SIZE
    ensures var after := AfterRound(topology, rows, round);
            Waits(after, h) && Ahead(after, h.id) * bad == Ahead(rows, h.id) * bad
  {
    hide Claim, Finished, RowSucceeds, Ahead, Sorted, DistinctIds, Swept, Appended;
    var claimed, swept := Claim(rows, RELAY_BATCH_SIZE), Swept(topology, rows, round.net);
    var stuck := Ahead(rows, h.id) * bad;
    if h in claimed { ClaimHasRoom(rows, h, bad); }
    SweptInOrder(topology, rows, round.net);
    SweptRow(topology, rows, round.net, h);
    SweptAhead(topology, rows, round.net, h.id);
    ClaimTakesUnpublished(rows, RELAY_BATCH_SIZE);
    forall e | e in stuck ensures e !in Finished(topology, claimed, round.net) {
      FinishedRows(topology, claimed, round.net, e);
    }
    AppendedBehind(swept, round.appended, h);
    assert Ahead(swept, h.id) * bad == stuck;
  }

  // Rows keep their type, so what fails for the rows ahead fails for them in the next round too.
  lemma StillJams(topology: Topology, rows: seq<OutboxEvent>, round: Round, h: OutboxEvent, bad: set<int>, net: Network)
    requires Sorted(rows) && DistinctIds(rows) && JamsAhead(topology, rows, net, h.id, bad)
    requires Ahead(AfterRound(topology, rows, round), h.id) * bad == Ahead(rows, h.id) * bad
    ensures JamsAhead(topology, AfterRound(topology, rows, round), net, h.id, bad)
  {
    hide Claim, Finished, RowSucceeds, Ahead, Appended, Sorted, DistinctIds, Swept;
    var stuck := Ahead(rows, h.id) * bad;
    AheadAreUnpublished(rows, h.id);
    forall r | r in AfterRound(topology, rows, round) && r.id in stuck ensures !RowSucceeds(topology, r, net) {
      var q :| q in rows && q.id == r.id;
      SameType(topology, rows, round, q, r);
      SameSuccess(topology, q, r, net);
    }
  }

  lemma SameSuccess(topology: Topology, q: OutboxEvent, r: OutboxEvent, net: Network)
    requires q.id == r.id && q.eventType == r.eventType
    ensures RowSucceeds(topology, q, net) <==> RowSucceeds(topology, r, net)
  {
    hide ResolveDestinations;
  }

  lemma SameType(topology: Topology, rows: seq<OutboxEvent>, round: Round, q: OutboxEvent, r: OutboxEvent)
    requires Sorted(rows) && DistinctIds(rows) && q in rows && r in AfterRound(topology, rows, round) && q.id == r.id
    ensures q.eventType == r.eventType
  {
    hide Claim, Finished, Appended, Sorted;
    var swept := Swept(topology, rows, round.net);
    var i :| 0 <= i < |rows| && rows[i] == q;
    assert swept[i] in swept;
    SweptInOrder(topology, rows, round.net);
    AppendedKeeps(swept, round.appended, swept[i]);
    AppendedDistinct(swept, round.appended);
    OneRowPerId(AfterRound(topology, rows, round), swept[i], r);
  }

  lemma OneRowPerId(rows: seq<OutboxEvent>, q: OutboxEvent, r: OutboxEvent)
    requires DistinctIds(rows) && q in rows && r in rows && q.id == r.id
    ensures q == r
  {
    var i :| 0 <= i < |rows| && rows[i] == q;
    var j :| 0 <= j < |rows| && rows[j] == r;
  }

  lemma {:induction false} AppendedDistinct(rows: seq<OutboxEvent>, events: seq<OutboxEvent>)
    requires Sorted(rows) && DistinctIds(rows)
    ensures DistinctIds(Appended(rows, events))
    decreases |events|
  {
    hide HasId, Inserted, Sorted, DistinctIds;
    if events != [] {
      if HasId(rows, events[0].id) {
        AppendedDistinct(rows, events[1..]);
      } else {
        InsertedInOrder(rows, events[0]);
        AppendedDistinct(Inserted(rows, events[0]), events[1..]);
      }
    }
  }

  lemma ClaimHasRoom(rows: seq<OutboxEvent>, h: OutboxEvent, bad: set<int>)
    requires Waits(rows, h) && h in Claim(rows, RELAY_BATCH_SIZE)
    ensures |Ahead(rows, h.id) * bad| < RELAY_BATCH_SIZE
  {
    hide Claim, Ahead, Sorted;
    var claimed := Claim(rows, RELAY_BATCH_SIZE);
    ClaimedOrBehind(rows, RELAY_BATCH_SIZE, h);
    ClaimedIdsAreMany(rows);
    AheadAreUnpublished(rows, h.id);
    HasIds(claimed);
    var ids := set e | e in Ids(claimed);
    forall e | e in (Ahead(rows, h.id) * bad) + {h.id} ensures e in ids {
      assert e in Ahead(rows, h.id) ==> e in Ids(claimed);
    }
    Fewer((Ahead(rows, h.id) * bad) + {h.id}, ids);
  }

  // --- Any number of rounds ----------------------------------------------------------------------------------------

  lemma {:induction false} OutStaysOut(topology: Topology, rows: seq<OutboxEvent>, rounds: nat -> Round, from: nat,
                                       upTo: nat, r: OutboxEvent)
    requires Sorted(rows) && DistinctIds(rows) && r in rows && r.published
    requires forall i :: from <= i < upTo ==> ArrivesAfter(rounds(i), r.occurredAt)
    ensures r in AfterRounds(topology, rows, rounds, from, upTo)
    decreases upTo - from
  {
    hide Sorted, DistinctIds, Swept, Appended, ArrivesAfter;
    if from < upTo {
      OutStays(topology, rows, rounds(from), r);
      OutStaysOut(topology, AfterRound(topology, rows, rounds(from)), rounds, from + 1, upTo, r);
    }
  }

  lemma OutStays(topology: Topology, rows: seq<OutboxEvent>, round: Round, r: OutboxEvent)
    requires Sorted(rows) && DistinctIds(rows) && r in rows && r.published && ArrivesAfter(round, r.occurredAt)
    ensures var after := AfterRound(topology, rows, round); Sorted(after) && DistinctIds(after) && r in after
  {
    hide Sorted, DistinctIds, Appended, Claim, Finished, Ahead;
    var swept := Swept(topology, rows, round.net);
    SweptInOrder(topology, rows, round.net);
    var i :| 0 <= i < |rows| && rows[i] == r;
    assert swept[i] == r && swept[i] in swept;
    AppendedBehind(swept, round.appended, r);
  }

  lemma {:induction false} Drains(topology: Topology, rows: seq<OutboxEvent>, rounds: nat -> Round, from: nat,
                                  upTo: nat, h: OutboxEvent, bad: set<int>, gain: nat)
    requires Waits(rows, h) && h.id !in bad && from <= upTo
    requires forall i :: from <= i < upTo ==> Works(rounds(i).net, bad) && ArrivesAfter(rounds(i), h.occurredAt)
    requires |Ahead(rows, h.id) * bad| + gain <= RELAY_BATCH_SIZE && (upTo - from) * gain > |Ahead(rows, h.id) - bad|
    ensures h.(published := true) in AfterRounds(topology, rows, rounds, from, upTo)
    decreases upTo - from
  {
    hide Sorted, DistinctIds, Ahead, Works, ArrivesAfter, AfterRound;
    if from < upTo {
      RoundDrains(topology, rows, rounds(from), h, bad, gain);
      var next := AfterRound(topology, rows, rounds(from));
      if h.(published := true) in next {
        ArrivesLikewise(rounds, from, upTo, h);
        OutStaysOut(topology, next, rounds, from + 1, upTo, h.(published := true));
      } else {
        assert (upTo - from) * gain == (upTo - (from + 1)) * gain + gain;
        Drains(topology, next, rounds, from + 1, upTo, h, bad, gain);
      }
    }
  }

  lemma ArrivesLikewise(rounds: nat -> Round, from: nat, upTo: nat, h: OutboxEvent)
    requires forall i :: from <= i < upTo ==> ArrivesAfter(rounds(i), h.occurredAt)
    ensures forall i :: from <= i < upTo ==> ArrivesAfter(rounds(i), h.(published := true).occurredAt)
  {}

  lemma {:induction false} Starves(topology: Topology, rows: seq<OutboxEvent>, rounds: nat -> Round, from: nat,
                                   upTo: nat, h: OutboxEvent, bad: set<int>)
    requires Waits(rows, h) && |Ahead(rows, h.id) * bad| >= RELAY_BATCH_SIZE
    requires forall i :: from <= i < upTo ==>
               JamsAhead(topology, rows, rounds(i).net, h.id, bad) && ArrivesAfter(rounds(i), h.occurredAt)
    ensures Waits(AfterRounds(topology, rows, rounds, from, upTo), h)
    decreases upTo - from
  {
    hide Ahead, JamsAhead, ArrivesAfter, AfterRound, Sorted, DistinctIds;
    if from < upTo {
      RoundStarves(topology, rows, rounds(from), h, bad);
      forall i | from + 1 <= i < upTo
        ensures JamsAhead(topology, AfterRound(topology, rows, rounds(from)), rounds(i).net, h.id, bad)
      {
        StillJams(topology, rows, rounds(from), h, bad, rounds(i).net);
      }
      Starves(topology, AfterRound(topology, rows, rounds(from)), rounds, from + 1, upTo, h, bad);
    }
  }

  // The drain bound: behind n unpublished rows that can be sent and F that may not, F under the batch size of 100, a
  // row that can be sent is published within n / (100 - F) + 1 completed ticks.
  lemma HealthyRowsDrain(topology: Topology, rows: seq<OutboxEvent>, rounds: nat -> Round, h: OutboxEvent,
                         bad: set<int>, ticks: nat)
    requires Waits(rows, h) && h.id !in bad && |Ahead(rows, h.id) * bad| < 100
    requires forall i :: 0 <= i < ticks ==> Works(rounds(i).net, bad) && ArrivesAfter(rounds(i), h.occurredAt)
    requires ticks >= |Ahead(rows, h.id) - bad| / (100 - |Ahead(rows, h.id) * bad|) + 1
    ensures h.(published := true) in AfterRounds(topology, rows, rounds, 0, ticks)
  {
    hide Sorted, DistinctIds, Ahead, Works, ArrivesAfter;
    var n, gain := |Ahead(rows, h.id) - bad|, RELAY_BATCH_SIZE - |Ahead(rows, h.id) * bad|;
    EnoughRounds(n, gain, ticks);
    Drains(topology, rows, rounds, 0, ticks, h, bad, gain);
  }

  lemma EnoughRounds(n: nat, gain: nat, ticks: nat)
    requires gain > 0 && ticks >= n / gain + 1
    ensures ticks * gain > n
  {
    assert n == n / gain * gain + n % gain;
    assert ticks * gain >= (n / gain + 1) * gain;
  }

  // When the rows in `bad` fail every time and no other row does, a waiting row outside it is published some day
  // exactly when fewer than a full claim of them are ahead of it.
  lemma PublishedSomeDayIff(topology: Topology, rows: seq<OutboxEvent>, rounds: nat -> Round, h: OutboxEvent,
                            bad: set<int>)
    requires Waits(rows, h) && h.id !in bad
    requires forall i :: 0 <= i ==>
               && Works(rounds(i).net, bad) && Jams(topology, rows, rounds(i).net, bad)
               && ArrivesAfter(rounds(i), h.occurredAt)
    ensures (exists ticks :: Out(AfterRounds(topology, rows, rounds, 0, ticks), h.id))
            <==> |Ahead(rows, h.id) * bad| < 100
  {
    hide Ahead, Works, Jams, JamsAhead, ArrivesAfter, AfterRounds;
    if |Ahead(rows, h.id) * bad| < RELAY_BATCH_SIZE {
      var ticks := |Ahead(rows, h.id) - bad| / (RELAY_BATCH_SIZE - |Ahead(rows, h.id) * bad|) + 1;
      HealthyRowsDrain(topology, rows, rounds, h, bad, ticks);
      assert Out(AfterRounds(topology, rows, rounds, 0, ticks), h.id);
    } else {
      forall ticks: nat ensures !Out(AfterRounds(topology, rows, rounds, 0, ticks), h.id) {
        forall i | 0 <= i < ticks ensures JamsAhead(topology, rows, rounds(i).net, h.id, bad) {
          FewerJam(topology, rows, rounds(i).net, h.id, bad);
        }
        Starves(topology, rows, rounds, 0, ticks, h, bad);
        StillWaits(AfterRounds(topology, rows, rounds, 0, ticks), h);
      }
    }
  }

  lemma FewerJam(topology: Topology, rows: seq<OutboxEvent>, net: Network, h: int, bad: set<int>)
    requires Jams(topology, rows, net, bad)
    ensures JamsAhead(topology, rows, net, h, bad)
  {
    hide RowSucceeds, Ahead;
  }

  lemma StillWaits(rows: seq<OutboxEvent>, h: OutboxEvent)
    requires Waits(rows, h)
    ensures !Out(rows, h.id)
  {
    forall r | r in rows && r.id == h.id ensures r == h {
      var i :| 0 <= i < |rows| && rows[i] == r;
      var j :| 0 <= j < |rows| && rows[j] == h;
    }
  }

  // --- A backlog that stands still ---------------------------------------------------------------------------------

  // n unpublished rows of one type, and one more behind them.
  function Backlog(n: nat, eventType: string): (r: seq<OutboxEvent>)
    ensures |r| == n + 1 && forall i :: 0 <= i <= n ==> r[i] == OutboxEvent(i, eventType, i, false)
  {
    seq(n + 1, i requires 0 <= i <= n => OutboxEvent(i, eventType, i, false))
  }

  ghost function Upto(n: nat): (r: set<int>)
    ensures forall i :: i in r <==> 0 <= i < n
    ensures |r| == n
  {
    if n == 0 then {} else Upto(n - 1) + {n - 1}
  }

  lemma {:induction false} BacklogAhead(rows: seq<OutboxEvent>, k: nat, h: int)
    requires k <= |rows| && (forall i :: 0 <= i < k ==> !rows[i].published && rows[i].id != h)
    requires k < |rows| ==> rows[k].id == h
    ensures forall i :: 0 <= i < k ==> rows[i].id in Ahead(rows, h)
  {
    if k > 0 {
      BacklogAhead(rows[1..], k - 1, h);
      forall i | 0 <= i < k ensures rows[i].id in Ahead(rows, h) {
        if i > 0 { assert rows[1..][i - 1] == rows[i]; }
      }
    }
  }

  function RefusesBelow(n: nat): Network { (e: int, name: string) => if 0 <= e < n then Refused else Delivered }

  function Unchanging(net: Network): nat -> Round { (i: nat) => Round(net, []) }

  lemma BacklogIsStuck(n: nat, eventType: string)
    ensures var rows, h := Backlog(n, eventType), OutboxEvent(n, eventType, n, false);
            Waits(rows, h) && |Ahead(rows, n) * Upto(n)| >= n
  {
    hide Ahead;
    var rows, bad := Backlog(n, eventType), Upto(n);
    assert rows[n] in rows;
    BacklogAhead(rows, n, n);
    forall e | e in bad ensures e in Ahead(rows, n) { assert rows[e].id == e; }
    Fewer(bad, Ahead(rows, n) * bad);
  }

  // At least a batch of rows whose one queue refuses them every time, and a row behind them it would take: that row is
  // never published, however many ticks complete.
  lemma FullBatchOfFailuresStarves(queue: QueueDefinition, eventType: string, n: nat, ticks: nat)
    requires eventType in queue.subscribedEventTypes && n >= 100
    ensures RowSucceeds([queue], OutboxEvent(n, eventType, n, false), RefusesBelow(n))
    ensures !Out(AfterRounds([queue], Backlog(n, eventType), Unchanging(RefusesBelow(n)), 0, ticks), n)
  {
    hide Ahead, AfterRounds, JamsAhead, Out, Waits, ResolveDestinations;
    var rows, h, bad, net := Backlog(n, eventType), OutboxEvent(n, eventType, n, false), Upto(n), RefusesBelow(n);
    BacklogIsStuck(n, eventType);
    forall r | r in rows && r.id in bad ensures !RowSucceeds([queue], r, net) { RefusedRow(queue, r, net); }
    FewerJam([queue], rows, net, n, bad);
    Starves([queue], rows, Unchanging(net), 0, ticks, h, bad);
    StillWaits(AfterRounds([queue], rows, Unchanging(net), 0, ticks), h);
  }

  lemma RefusedRow(queue: QueueDefinition, r: OutboxEvent, net: Network)
    requires r.eventType in queue.subscribedEventTypes && net(r.id, queue.name).Refused?
    ensures !RowSucceeds([queue], r, net)
  {
    assert [queue][1..] == [];
    assert ResolveDestinations(r.eventType, [queue])[0] == queue;
  }
}

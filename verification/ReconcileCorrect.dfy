// What applying a reconcile plan leaves in the occurrence table.
module ReconcileCorrect {
  import opened Prelude
  import opened OccurrenceTable

  // Ids and (event, start) pairs are unique, and the ids still to be given out are new: the table's own constraints.
  predicate Sound(t: Table) {
    && (forall i :: 0 <= i < |t.rows| ==> t.rows[i].id < t.nextId)
    && (forall i, j :: 0 <= i < j < |t.rows| ==> t.rows[i].id != t.rows[j].id)
    && (forall i, j :: 0 <= i < j < |t.rows| ==>
          t.rows[i].eventId != t.rows[j].eventId || t.rows[i].startsAt != t.rows[j].startsAt)
  }

  predicate InScope(r: Row, e: int, scopeFrom: Option<int>) {
    r.eventId == e && (scopeFrom.None? || r.startsAt >= scopeFrom.value)
  }

  // The end the plan gives a start: that of the first planned occurrence there.
  function PlannedEnd(planned: seq<Planned>, start: int): Option<int> {
    if planned == [] then None
    else if planned[0].startsAt == start then Some(planned[0].endsAt)
    else PlannedEnd(planned[1..], start)
  }

  predicate FromScope(planned: seq<Planned>, scopeFrom: Option<int>) {
    scopeFrom.Some? ==> forall i :: 0 <= i < |planned| ==> planned[i].startsAt >= scopeFrom.value
  }

  // One pass of rematerialisation over one event's rows.
  function Reconciled(t: Table, e: int, planned: seq<Planned>, scopeFrom: Option<int>): Table {
    Applied(t, e, PlanFor(planned, ListForEvent(t.rows, e, scopeFrom)))
  }

  ghost predicate Kept(t: Table, e: int, planned: seq<Planned>, scopeFrom: Option<int>, r: Row) {
    exists was :: was in t.rows && InScope(was, e, scopeFrom)
                  && PlannedEnd(planned, was.startsAt) == Some(r.endsAt) && r == was.(endsAt := r.endsAt)
  }

  ghost predicate Inserted(t: Table, e: int, planned: seq<Planned>, scopeFrom: Option<int>, r: Row) {
    && r.eventId == e && r.cancelledAt == None && r.id >= t.nextId
    && PlannedEnd(planned, r.startsAt) == Some(r.endsAt)
    && !exists was :: was in t.rows && InScope(was, e, scopeFrom) && was.startsAt == r.startsAt
  }

  // --- Planned ends ------------------------------------------------------------------------------------------------

  lemma {:induction false} PlannedStarts(planned: seq<Planned>, start: int)
    ensures start in Starts(planned) <==> PlannedEnd(planned, start).Some?
  {
    if planned != [] {
      PlannedStarts(planned[1..], start);
      assert planned[..1] == [planned[0]];
      if start in Starts(planned) && start != planned[0].startsAt {
        var i :| 0 <= i < |planned| && planned[i].startsAt == start;
        assert planned[1..][i - 1].startsAt == start;
      }
      if start in Starts(planned[1..]) {
        var i :| 0 <= i < |planned[1..]| && planned[1..][i].startsAt == start;
        assert planned[i + 1].startsAt == start;
      }
      if start == planned[0].startsAt { assert planned[0].startsAt in Starts(planned); }
    }
  }

  // --- Deletes -----------------------------------------------------------------------------------------------------

  lemma {:induction false} DeleteKeeps(rows: seq<Row>, e: int, ids: seq<int>, r: Row)
    ensures r in DeleteRows(rows, e, ids) <==> r in rows && !(r.eventId == e && r.id in ids)
  {
    if rows != [] {
      DeleteKeeps(rows[1..], e, ids, r);
      assert rows == [rows[0]] + rows[1..];
    }
  }

  lemma {:induction false} Listed(rows: seq<Row>, e: int, scopeFrom: Option<int>, r: Row)
    ensures r in ListForEvent(rows, e, scopeFrom) <==> r in rows && InScope(r, e, scopeFrom)
  {
    if rows != [] {
      Listed(rows[1..], e, scopeFrom, r);
      assert rows == [rows[0]] + rows[1..];
    }
  }

  lemma {:induction false} DeletedIds(existing: seq<Row>, starts: set<int>, id: int)
    ensures id in Deletes(existing, starts) <==> exists r :: r in existing && r.id == id && r.startsAt !in starts
  {
    if existing != [] {
      DeletedIds(existing[1..], starts, id);
      assert existing == [existing[0]] + existing[1..];
    }
  }

  lemma {:induction false} IndexByStart(existing: seq<Row>, start: int)
    ensures start in ByStart(existing) ==>
              ByStart(existing)[start] in existing && ByStart(existing)[start].startsAt == start
    ensures start !in ByStart(existing) ==> forall r :: r in existing ==> r.startsAt != start
  {
    if existing != [] {
      var n := |existing| - 1;
      IndexByStart(existing[..n], start);
      assert existing == existing[..n] + [existing[n]];
    }
  }

  // Deleting keeps a table's constraints: what is left is a selection of its rows, in their order.
  ghost predicate Distinct(rows: seq<Row>, nextId: int) { Sound(Table(rows, nextId)) }

  lemma {:induction false} DeleteIsSound(rows: seq<Row>, nextId: int, e: int, ids: seq<int>)
    requires Distinct(rows, nextId)
    ensures Distinct(DeleteRows(rows, e, ids), nextId)
  {
    hide Distinct;
    if rows != [] {
      Unprepend(rows, nextId);
      DeleteIsSound(rows[1..], nextId, e, ids);
      var rest := DeleteRows(rows[1..], e, ids);
      forall r | r in rest ensures Apart(rows[0], r) { DeleteKeeps(rows[1..], e, ids, r); }
      Prepend(rows[0], rest, nextId);
      assert [] + rest == rest;
    }
  }

  ghost predicate Apart(a: Row, b: Row) {
    a.id != b.id && (a.eventId != b.eventId || a.startsAt != b.startsAt)
  }

  lemma Unprepend(rows: seq<Row>, nextId: int)
    requires rows != [] && Distinct(rows, nextId)
    ensures Distinct(rows[1..], nextId) && rows[0].id < nextId
    ensures forall r :: r in rows[1..] ==> Apart(rows[0], r)
  {}

  lemma Prepend(head: Row, rest: seq<Row>, nextId: int)
    requires Distinct(rest, nextId) && head.id < nextId && forall r :: r in rest ==> Apart(head, r)
    ensures Distinct([head] + rest, nextId)
  {
    var rows := [head] + rest;
    forall i, j | 0 <= i < j < |rows| ensures Apart(rows[i], rows[j]) {
      assert rows[j] == rest[j - 1];
      if i == 0 { assert rest[j - 1] in rest; } else { assert rows[i] == rest[i - 1]; }
    }
  }

  lemma SameId(t: Table, a: Row, b: Row)
    requires Sound(t) && a in t.rows && b in t.rows
    ensures a.id == b.id ==> a == b
    ensures a.eventId == b.eventId && a.startsAt == b.startsAt ==> a == b
  {
    var i :| 0 <= i < |t.rows| && t.rows[i] == a;
    var j :| 0 <= j < |t.rows| && t.rows[j] == b;
    assert i < j || j < i || i == j;
  }

  // After the deletes: all rows out of scope, and those in scope at a planned start.
  lemma AfterDeletes(t: Table, e: int, planned: seq<Planned>, scopeFrom: Option<int>, r: Row)
    requires Sound(t)
    ensures var plan := PlanFor(planned, ListForEvent(t.rows, e, scopeFrom));
            r in DeleteRows(t.rows, e, plan.toDelete) <==>
            r in t.rows && (InScope(r, e, scopeFrom) ==> PlannedEnd(planned, r.startsAt).Some?)
  {
    hide Sound, DeleteRows, Deletes, ListForEvent, Starts, PlannedEnd, ByStart, Inserts, Updates;
    var existing := ListForEvent(t.rows, e, scopeFrom);
    DeleteKeeps(t.rows, e, Deletes(existing, Starts(planned)), r);
    DeletedIds(existing, Starts(planned), r.id);
    PlannedStarts(planned, r.startsAt);
    Listed(t.rows, e, scopeFrom, r);
    if r in t.rows && r.id in Deletes(existing, Starts(planned)) {
      var d :| d in existing && d.id == r.id && d.startsAt !in Starts(planned);
      Listed(t.rows, e, scopeFrom, d);
      SameId(t, d, r);
    }
  }

  // --- Updates -----------------------------------------------------------------------------------------------------

  function Patched(r: Row, e: int, updates: seq<EndUpdate>): Row
    decreases |updates|
  {
    if updates == [] then r
    else
      var u := updates[0];
      Patched(if r.id == u.id && r.eventId == e then r.(endsAt := u.endsAt) else r, e, updates[1..])
  }

  lemma {:induction false} UpdatesPatchRows(rows: seq<Row>, e: int, updates: seq<EndUpdate>)
    ensures |UpdateAll(rows, e, updates)| == |rows|
    ensures forall i :: 0 <= i < |rows| ==> UpdateAll(rows, e, updates)[i] == Patched(rows[i], e, updates)
    decreases |updates|
  {
    if updates != [] { UpdatesPatchRows(UpdateRows(rows, e, updates[0]), e, updates[1..]); }
  }

  // A row is patched to its planned end, by the one update that names it, if any.
  lemma {:induction false} PatchedToPlan(r: Row, e: int, planned: seq<Planned>, seen: set<int>, byStart: map<int, Row>)
    requires forall s :: s in byStart ==>
               (byStart[s].id == r.id && r.eventId == e ==> s == r.startsAt && byStart[s] == r)
    ensures Patched(r, e, Updates(planned, seen, byStart)) ==
            (if r.eventId == e && r.startsAt in byStart && byStart[r.startsAt] == r && r.startsAt !in seen
                && PlannedEnd(planned, r.startsAt).Some?
             then r.(endsAt := PlannedEnd(planned, r.startsAt).value) else r)
  {
    if planned != [] {
      var p := planned[0];
      PatchedToPlan(r, e, planned[1..], seen + {p.startsAt}, byStart);
      if p.startsAt !in seen && p.startsAt in byStart && byStart[p.startsAt].endsAt != p.endsAt {
        var u := EndUpdate(byStart[p.startsAt].id, p.endsAt);
        assert Updates(planned, seen, byStart)[1..] == Updates(planned[1..], seen + {p.startsAt}, byStart);
        if r.id == u.id && r.eventId == e {
          Settled(r.(endsAt := p.endsAt), e, planned[1..], seen + {p.startsAt}, byStart);
        }
      } else {
        assert Updates(planned, seen, byStart) == Updates(planned[1..], seen + {p.startsAt}, byStart);
        if r.startsAt == p.startsAt { Settled(r, e, planned[1..], seen + {p.startsAt}, byStart); }
      }
    }
  }

  // Past its own start, no later update names the row.
  lemma {:induction false} Settled(r: Row, e: int, planned: seq<Planned>, seen: set<int>, byStart: map<int, Row>)
    requires forall s :: s in byStart ==> (byStart[s].id == r.id && r.eventId == e ==> s == r.startsAt)
    requires r.startsAt in seen
    ensures Patched(r, e, Updates(planned, seen, byStart)) == r
  {
    if planned != [] {
      var p := planned[0];
      Settled(r, e, planned[1..], seen + {p.startsAt}, byStart);
      if p.startsAt !in seen && p.startsAt in byStart && byStart[p.startsAt].endsAt != p.endsAt {
        assert Updates(planned, seen, byStart)[1..] == Updates(planned[1..], seen + {p.startsAt}, byStart);
      } else {
        assert Updates(planned, seen, byStart) == Updates(planned[1..], seen + {p.startsAt}, byStart);
      }
    }
  }

  lemma RowIsPatched(t: Table, e: int, planned: seq<Planned>, scopeFrom: Option<int>, r: Row)
    requires Sound(t) && r in t.rows
    ensures Patched(r, e, PlanFor(planned, ListForEvent(t.rows, e, scopeFrom)).toUpdate) ==
            (if InScope(r, e, scopeFrom) && PlannedEnd(planned, r.startsAt).Some?
             then r.(endsAt := PlannedEnd(planned, r.startsAt).value) else r)
  {
    hide Sound, ListForEvent, ByStart, Updates, Inserts, Deletes, Patched, PlannedEnd;
    var existing := ListForEvent(t.rows, e, scopeFrom);
    var byStart := ByStart(existing);
    forall s | s in byStart
      ensures byStart[s] in t.rows && InScope(byStart[s], e, scopeFrom) && byStart[s].startsAt == s
      ensures byStart[s].id == r.id ==> byStart[s] == r
    {
      IndexByStart(existing, s);
      Listed(t.rows, e, scopeFrom, byStart[s]);
      SameId(t, byStart[s], r);
    }
    IndexByStart(existing, r.startsAt);
    Listed(t.rows, e, scopeFrom, r);
    if r.startsAt in byStart { SameId(t, byStart[r.startsAt], r); }
    PatchedToPlan(r, e, planned, {}, byStart);
  }

  // --- Inserts -----------------------------------------------------------------------------------------------------

  lemma {:induction false} InsertsAreNew(planned: seq<Planned>, seen: set<int>, byStart: map<int, Row>)
    ensures forall i :: 0 <= i < |Inserts(planned, seen, byStart)| ==>
              var p := Inserts(planned, seen, byStart)[i];
              p.startsAt !in seen && p.startsAt !in byStart && PlannedEnd(planned, p.startsAt) == Some(p.endsAt)
    ensures forall i, j :: 0 <= i < j < |Inserts(planned, seen, byStart)| ==>
              Inserts(planned, seen, byStart)[i].startsAt != Inserts(planned, seen, byStart)[j].startsAt
    ensures forall s :: s !in seen && s !in byStart && PlannedEnd(planned, s).Some? ==>
              Planned(s, PlannedEnd(planned, s).value) in Inserts(planned, seen, byStart)
  {
    if planned != [] { InsertsAreNew(planned[1..], seen + {planned[0].startsAt}, byStart); }
  }

  lemma {:induction false} InsertAllAppends(t: Table, e: int, inserts: seq<Planned>)
    requires forall i :: 0 <= i < |inserts| ==> !Taken(t.rows, e, inserts[i].startsAt)
    requires forall i, j :: 0 <= i < j < |inserts| ==> inserts[i].startsAt != inserts[j].startsAt
    ensures var after := InsertAll(t, e, inserts);
            && after.nextId == t.nextId + |inserts|
            && after.rows == t.rows + seq(|inserts|, i requires 0 <= i < |inserts| =>
                 Row(t.nextId + i, e, inserts[i].startsAt, inserts[i].endsAt, None))
    decreases |inserts|
  {
    if inserts != [] { InsertAllAppends(InsertRow(t, e, inserts[0]), e, inserts[1..]); }
  }

  // --- The theorems ------------------------------------------------------------------------------------------------

  ghost function AfterUpdates(t: Table, e: int, planned: seq<Planned>, scopeFrom: Option<int>): Table {
    var plan := PlanFor(planned, ListForEvent(t.rows, e, scopeFrom));
    Table(UpdateAll(DeleteRows(t.rows, e, plan.toDelete), e, plan.toUpdate), t.nextId)
  }

  // Row by row, the updates change nothing but the end, and that to the planned one.
  lemma UpdatedRow(t: Table, e: int, planned: seq<Planned>, scopeFrom: Option<int>, i: int)
    requires Sound(t)
    requires var kept := DeleteRows(t.rows, e, PlanFor(planned, ListForEvent(t.rows, e, scopeFrom)).toDelete);
             0 <= i < |kept|
    ensures var kept := DeleteRows(t.rows, e, PlanFor(planned, ListForEvent(t.rows, e, scopeFrom)).toDelete);
            var rows := AfterUpdates(t, e, planned, scopeFrom).rows;
            && |rows| == |kept|
            && kept[i] in t.rows && (InScope(kept[i], e, scopeFrom) ==> PlannedEnd(planned, kept[i].startsAt).Some?)
            && rows[i] == if InScope(kept[i], e, scopeFrom)
                          then kept[i].(endsAt := PlannedEnd(planned, kept[i].startsAt).value) else kept[i]
  {
    hide PlanFor, Patched, UpdateAll, DeleteRows, ListForEvent, PlannedEnd, Sound;
    var plan := PlanFor(planned, ListForEvent(t.rows, e, scopeFrom));
    var kept := DeleteRows(t.rows, e, plan.toDelete);
    UpdatesPatchRows(kept, e, plan.toUpdate);
    assert kept[i] in kept;
    AfterDeletes(t, e, planned, scopeFrom, kept[i]);
    RowIsPatched(t, e, planned, scopeFrom, kept[i]);
  }

  lemma SameKeysAreSound(rows: seq<Row>, kept: seq<Row>, nextId: int)
    requires Distinct(kept, nextId) && |rows| == |kept|
    requires forall i :: 0 <= i < |kept| ==> rows[i] == kept[i].(endsAt := rows[i].endsAt)
    ensures Distinct(rows, nextId)
  {}

  lemma UpdatesKeepTheTableSound(t: Table, e: int, planned: seq<Planned>, scopeFrom: Option<int>)
    requires Sound(t)
    ensures Sound(AfterUpdates(t, e, planned, scopeFrom))
    ensures forall r :: r in AfterUpdates(t, e, planned, scopeFrom).rows <==>
              (r in t.rows && !InScope(r, e, scopeFrom)) || Kept(t, e, planned, scopeFrom, r)
  {
    hide PlanFor, Patched, UpdateAll, DeleteRows, ListForEvent, PlannedEnd, Sound, InScope;
    var plan := PlanFor(planned, ListForEvent(t.rows, e, scopeFrom));
    var kept := DeleteRows(t.rows, e, plan.toDelete);
    var rows := AfterUpdates(t, e, planned, scopeFrom).rows;
    UpdatesPatchRows(kept, e, plan.toUpdate);
    DeleteIsSound(t.rows, t.nextId, e, plan.toDelete);
    forall i | 0 <= i < |kept|
      ensures kept[i] in t.rows && (InScope(kept[i], e, scopeFrom) ==> PlannedEnd(planned, kept[i].startsAt).Some?)
      ensures rows[i] == if InScope(kept[i], e, scopeFrom)
                         then kept[i].(endsAt := PlannedEnd(planned, kept[i].startsAt).value) else kept[i]
    {
      UpdatedRow(t, e, planned, scopeFrom, i);
    }
    SameKeysAreSound(rows, kept, t.nextId);
    forall r | (r in t.rows && !InScope(r, e, scopeFrom)) || Kept(t, e, planned, scopeFrom, r) ensures r in rows {
      var was :| was in t.rows && (if InScope(was, e, scopeFrom)
                                   then PlannedEnd(planned, was.startsAt) == Some(r.endsAt)
                                     && r == was.(endsAt := r.endsAt)
                                   else r == was);
      AfterDeletes(t, e, planned, scopeFrom, was);
      var i :| 0 <= i < |kept| && kept[i] == was;
      assert rows[i] == r;
    }
  }

  lemma NotTaken(t: Table, e: int, planned: seq<Planned>, scopeFrom: Option<int>, p: Planned)
    requires Sound(t) && (scopeFrom.Some? ==> p.startsAt >= scopeFrom.value)
    requires p.startsAt !in ByStart(ListForEvent(t.rows, e, scopeFrom))
    ensures !Taken(AfterUpdates(t, e, planned, scopeFrom).rows, e, p.startsAt)
    ensures !exists was :: was in t.rows && InScope(was, e, scopeFrom) && was.startsAt == p.startsAt
  {
    hide Sound, AfterUpdates, ListForEvent, ByStart;
    UpdatesKeepTheTableSound(t, e, planned, scopeFrom);
    IndexByStart(ListForEvent(t.rows, e, scopeFrom), p.startsAt);
    forall was | was in t.rows && InScope(was, e, scopeFrom) ensures was.startsAt != p.startsAt {
      Listed(t.rows, e, scopeFrom, was);
    }
  }

  // Reconciling a plan whose starts lie in scope: rows out of scope are untouched, every row in scope sits at a planned
  // start with the planned end, a row that was there keeps its id and its cancellation, and the others are new.
  lemma ReconcileIsCorrect(t: Table, e: int, planned: seq<Planned>, scopeFrom: Option<int>)
    requires Sound(t) && FromScope(planned, scopeFrom)
    ensures Sound(Reconciled(t, e, planned, scopeFrom))
    ensures t.nextId <= Reconciled(t, e, planned, scopeFrom).nextId
    ensures forall r :: r in Reconciled(t, e, planned, scopeFrom).rows ==>
              (r in t.rows && !InScope(r, e, scopeFrom)) || Kept(t, e, planned, scopeFrom, r)
              || Inserted(t, e, planned, scopeFrom, r)
    ensures forall r :: (r in t.rows && !InScope(r, e, scopeFrom)) || Kept(t, e, planned, scopeFrom, r) ==>
              r in Reconciled(t, e, planned, scopeFrom).rows
    ensures forall start :: PlannedEnd(planned, start).Some? ==>
              Taken(Reconciled(t, e, planned, scopeFrom).rows, e, start)
  {
    hide ListForEvent, ByStart, Updates, Inserts, Deletes, PlannedEnd, DeleteRows, UpdateAll, InsertAll, Kept;
    var byStart := ByStart(ListForEvent(t.rows, e, scopeFrom));
    var inserts := Inserts(planned, {}, byStart);
    var u := AfterUpdates(t, e, planned, scopeFrom);
    UpdatesKeepTheTableSound(t, e, planned, scopeFrom);
    InsertsAreNew(planned, {}, byStart);
    forall i | 0 <= i < |inserts|
      ensures !Taken(u.rows, e, inserts[i].startsAt)
      ensures Inserted(t, e, planned, scopeFrom, Row(t.nextId + i, e, inserts[i].startsAt, inserts[i].endsAt, None))
    {
      PlannedInScope(planned, scopeFrom, inserts[i].startsAt);
      NotTaken(t, e, planned, scopeFrom, inserts[i]);
    }
    InsertAllAppends(u, e, inserts);
    var after := Reconciled(t, e, planned, scopeFrom);
    forall start | PlannedEnd(planned, start).Some? ensures Taken(after.rows, e, start) {
      EveryStartHasARow(t, e, planned, scopeFrom, start);
    }
  }

  lemma PlannedInScope(planned: seq<Planned>, scopeFrom: Option<int>, start: int)
    requires FromScope(planned, scopeFrom) && PlannedEnd(planned, start).Some?
    ensures scopeFrom.Some? ==> start >= scopeFrom.value
  {
    hide PlannedEnd;
    PlannedStarts(planned, start);
  }

  lemma EveryStartHasARow(t: Table, e: int, planned: seq<Planned>, scopeFrom: Option<int>, start: int)
    requires Sound(t) && FromScope(planned, scopeFrom) && PlannedEnd(planned, start).Some?
    ensures Taken(Reconciled(t, e, planned, scopeFrom).rows, e, start)
  {
    hide ListForEvent, ByStart, Updates, Inserts, Deletes, PlannedEnd, DeleteRows, UpdateAll, InsertAll, Sound;
    var existing := ListForEvent(t.rows, e, scopeFrom);
    var byStart := ByStart(existing);
    var inserts := Inserts(planned, {}, byStart);
    var u := AfterUpdates(t, e, planned, scopeFrom);
    InsertsAreNew(planned, {}, byStart);
    IndexByStart(existing, start);
    if start in byStart {
      var was := byStart[start];
      Listed(t.rows, e, scopeFrom, was);
      UpdatesKeepTheTableSound(t, e, planned, scopeFrom);
      assert Kept(t, e, planned, scopeFrom, was.(endsAt := PlannedEnd(planned, start).value));
    }
    InsertAllTakes(u, e, inserts, start);
  }

  lemma {:induction false} InsertAllTakes(t: Table, e: int, inserts: seq<Planned>, start: int)
    requires Taken(t.rows, e, start) || exists p :: p in inserts && p.startsAt == start
    ensures Taken(InsertAll(t, e, inserts).rows, e, start)
    decreases |inserts|
  {
    if inserts != [] {
      assert inserts == [inserts[0]] + inserts[1..];
      var next := InsertRow(t, e, inserts[0]);
      assert next.rows[..|t.rows|] == t.rows;
      if inserts[0].startsAt == start && !Taken(t.rows, e, start) {
        assert next.rows[|t.rows|] in next.rows;
      }
      InsertAllTakes(next, e, inserts[1..], start);
    }
  }

  // Whatever plan is applied, even one computed from rows that have changed since, ids and starts stay unique: an
  // insert at a start that is taken does nothing.
  lemma AnyPlanKeepsTheTableSound(t: Table, e: int, plan: ReconcilePlan)
    requires Sound(t)
    ensures Sound(Applied(t, e, plan))
  {
    hide Sound, DeleteRows, UpdateAll, InsertAll;
    DeleteIsSound(t.rows, t.nextId, e, plan.toDelete);
    var kept := DeleteRows(t.rows, e, plan.toDelete);
    UpdatesKeepSound(kept, t.nextId, e, plan.toUpdate);
    InsertsKeepSound(Table(UpdateAll(kept, e, plan.toUpdate), t.nextId), e, plan.toInsert);
  }

  lemma {:induction false} UpdatesKeepSound(rows: seq<Row>, nextId: int, e: int, updates: seq<EndUpdate>)
    requires Distinct(rows, nextId)
    ensures Distinct(UpdateAll(rows, e, updates), nextId)
    decreases |updates|
  {
    hide Sound;
    if updates != [] {
      SameKeysAreSound(UpdateRows(rows, e, updates[0]), rows, nextId);
      UpdatesKeepSound(UpdateRows(rows, e, updates[0]), nextId, e, updates[1..]);
    }
  }

  lemma {:induction false} InsertsKeepSound(t: Table, e: int, planned: seq<Planned>)
    requires Sound(t)
    ensures Sound(InsertAll(t, e, planned))
    decreases |planned|
  {
    if planned != [] {
      InsertKeepsSound(t, e, planned[0]);
      hide Sound, InsertRow;
      InsertsKeepSound(InsertRow(t, e, planned[0]), e, planned[1..]);
    }
  }

  lemma InsertKeepsSound(t: Table, e: int, p: Planned)
    requires Sound(t)
    ensures Sound(InsertRow(t, e, p))
  {}

  // When a table already agrees with a plan, reconciling it again finds nothing to do.
  lemma AgreementNeedsNoPlan(t: Table, e: int, planned: seq<Planned>, scopeFrom: Option<int>)
    requires Sound(t)
    requires forall start :: PlannedEnd(planned, start).Some? ==>
               exists r :: r in t.rows && InScope(r, e, scopeFrom) && r.startsAt == start
    requires forall r :: r in t.rows && InScope(r, e, scopeFrom) ==> PlannedEnd(planned, r.startsAt) == Some(r.endsAt)
    ensures IsEmptyPlan(PlanFor(planned, ListForEvent(t.rows, e, scopeFrom)))
  {
    hide Sound, ListForEvent, ByStart, Inserts, Updates, Deletes, PlannedEnd, Starts;
    var existing := ListForEvent(t.rows, e, scopeFrom);
    var byStart := ByStart(existing);
    forall start ensures PlannedEnd(planned, start).Some? ==>
                           start in byStart && PlannedEnd(planned, start) == Some(byStart[start].endsAt)
    {
      IndexByStart(existing, start);
      if PlannedEnd(planned, start).Some? {
        var r :| r in t.rows && InScope(r, e, scopeFrom) && r.startsAt == start;
        Listed(t.rows, e, scopeFrom, r);
        Listed(t.rows, e, scopeFrom, byStart[start]);
      }
    }
    NothingToDo(planned, {}, byStart);
    if Deletes(existing, Starts(planned)) != [] {
      var id := Deletes(existing, Starts(planned))[0];
      DeletedIds(existing, Starts(planned), id);
      var r :| r in existing && r.startsAt !in Starts(planned);
      Listed(t.rows, e, scopeFrom, r);
      PlannedStarts(planned, r.startsAt);
    }
  }

  lemma {:induction false} NothingToDo(planned: seq<Planned>, seen: set<int>, byStart: map<int, Row>)
    requires forall s :: s !in seen && PlannedEnd(planned, s).Some? ==>
               s in byStart && PlannedEnd(planned, s) == Some(byStart[s].endsAt)
    ensures Inserts(planned, seen, byStart) == [] && Updates(planned, seen, byStart) == []
  {
    if planned != [] {
      var next := seen + {planned[0].startsAt};
      forall s | s !in next ensures PlannedEnd(planned, s) == PlannedEnd(planned[1..], s) {}
      NothingToDo(planned[1..], next, byStart);
      assert PlannedEnd(planned, planned[0].startsAt).Some?;
    }
  }

  // The reconcile is idempotent: a second one of the same plan is empty.
  lemma ReconcileIsIdempotent(t: Table, e: int, planned: seq<Planned>, scopeFrom: Option<int>)
    requires Sound(t) && FromScope(planned, scopeFrom)
    ensures var after := Reconciled(t, e, planned, scopeFrom);
            IsEmptyPlan(PlanFor(planned, ListForEvent(after.rows, e, scopeFrom)))
  {
    hide Sound, PlanFor, ListForEvent, PlannedEnd, Reconciled;
    var after := Reconciled(t, e, planned, scopeFrom);
    ReconcileIsCorrect(t, e, planned, scopeFrom);
    forall start | PlannedEnd(planned, start).Some?
      ensures exists r :: r in after.rows && InScope(r, e, scopeFrom) && r.startsAt == start
    {
      PlannedInScope(planned, scopeFrom, start);
      assert Taken(after.rows, e, start);
    }
    AgreementNeedsNoPlan(after, e, planned, scopeFrom);
  }
}

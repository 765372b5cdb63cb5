// The reconcile of packages/core/src/calendar/domain/materialisation.ts and the row effects of its plan: the
// statements of packages/persistence/src/repositories/calendar/event-occurrence.repository.ts.
module OccurrenceTable {
  import opened Prelude

  datatype Planned = Planned(startsAt: int, endsAt: int)

  datatype Row = Row(id: int, eventId: int, startsAt: int, endsAt: int, cancelledAt: Option<int>)

  // The rows, and the first id the database has not given out.
  datatype Table = Table(rows: seq<Row>, nextId: int)

  datatype EndUpdate = EndUpdate(id: int, endsAt: int)

  datatype ReconcilePlan = ReconcilePlan(toInsert: seq<Planned>, toUpdate: seq<EndUpdate>, toDelete: seq<int>)

  predicate IsEmptyPlan(p: ReconcilePlan) { p.toInsert == [] && p.toUpdate == [] && p.toDelete == [] }

  datatype Counts = Counts(inserted: int, updated: int, deleted: int)

  // --- The reconcile -----------------------------------------------------------------------------------------------

  function ByStart(existing: seq<Row>): map<int, Row> {
    if existing == [] then map[]
    else
      var last := existing[|existing| - 1];
      ByStart(existing[..|existing| - 1])[last.startsAt := last]
  }

  // What is left to do for the planned occurrences that remain, past the starts already seen.
  function Inserts(planned: seq<Planned>, seen: set<int>, byStart: map<int, Row>): seq<Planned> {
    if planned == [] then []
    else
      var p := planned[0];
      (if p.startsAt !in seen && p.startsAt !in byStart then [p] else [])
      + Inserts(planned[1..], seen + {p.startsAt}, byStart)
  }

  function Updates(planned: seq<Planned>, seen: set<int>, byStart: map<int, Row>): seq<EndUpdate> {
    if planned == [] then []
    else
      var p := planned[0];
      (if p.startsAt !in seen && p.startsAt in byStart && byStart[p.startsAt].endsAt != p.endsAt
       then [EndUpdate(byStart[p.startsAt].id, p.endsAt)] else [])
      + Updates(planned[1..], seen + {p.startsAt}, byStart)
  }

  function Starts(planned: seq<Planned>): set<int> { set i | 0 <= i < |planned| :: planned[i].startsAt }

  function Deletes(existing: seq<Row>, starts: set<int>): seq<int> {
    if existing == [] then []
    else (if existing[0].startsAt !in starts then [existing[0].id] else []) + Deletes(existing[1..], starts)
  }

  function PlanFor(planned: seq<Planned>, existing: seq<Row>): ReconcilePlan {
    var byStart := ByStart(existing);
    ReconcilePlan(Inserts(planned, {}, byStart), Updates(planned, {}, byStart), Deletes(existing, Starts(planned)))
  }

  method Reconcile(planned: seq<Planned>, existing: seq<Row>) returns (plan: ReconcilePlan)
    ensures plan == PlanFor(planned, existing)
  {
    hide Inserts, Updates, Deletes, ByStart, Starts;
    var existingByStart: map<int, Row> := map[];
    ByStartStep(existing);
    for j := 0 to |existing|
      invariant existingByStart == ByStart(existing[..j])
    {
      existingByStart := existingByStart[existing[j].startsAt := existing[j]];
    }
    assert existing[..|existing|] == existing;

    var plannedStarts: set<int> := {};
    var toInsert: seq<Planned> := [];
    var toUpdate: seq<EndUpdate> := [];
    NothingPlanned(existingByStart);
    assert planned[0..] == planned && planned[..|planned|] == planned && planned[..0] == []
           && planned[|planned|..] == [];
    for i := 0 to |planned|
      invariant plannedStarts == Starts(planned[..i])
      invariant toInsert + Inserts(planned[i..], plannedStarts, existingByStart)
                == Inserts(planned, {}, existingByStart)
      invariant toUpdate + Updates(planned[i..], plannedStarts, existingByStart)
                == Updates(planned, {}, existingByStart)
    {
      var occurrence := planned[i];
      var key := occurrence.startsAt;
      PlannedStep(planned, i, plannedStarts, existingByStart, toInsert, toUpdate);
      if key in plannedStarts { continue; }
      plannedStarts := plannedStarts + {key};
      if key !in existingByStart {
        toInsert := toInsert + [occurrence];
      } else if existingByStart[key].endsAt != occurrence.endsAt {
        toUpdate := toUpdate + [EndUpdate(existingByStart[key].id, occurrence.endsAt)];
      }
    }

    var toDelete: seq<int> := [];
    NothingExisting(plannedStarts);
    assert existing[0..] == existing && existing[|existing|..] == [];
    for j := 0 to |existing|
      invariant toDelete + Deletes(existing[j..], plannedStarts) == Deletes(existing, plannedStarts)
    {
      DeletesStep(existing, plannedStarts, j, toDelete);
      if existing[j].startsAt !in plannedStarts { toDelete := toDelete + [existing[j].id]; }
    }
    return ReconcilePlan(toInsert, toUpdate, toDelete);
  }

  lemma ByStartStep(existing: seq<Row>)
    ensures ByStart(existing[..0]) == map[]
    ensures forall j :: 0 <= j < |existing| ==>
              ByStart(existing[..j + 1]) == ByStart(existing[..j])[existing[j].startsAt := existing[j]]
  {
    forall j | 0 <= j < |existing|
      ensures ByStart(existing[..j + 1]) == ByStart(existing[..j])[existing[j].startsAt := existing[j]]
    {
      assert existing[..j + 1][..j] == existing[..j];
    }
  }

  lemma NothingPlanned(byStart: map<int, Row>)
    ensures Starts([]) == {}
    ensures forall seen :: Inserts([], seen, byStart) == [] && Updates([], seen, byStart) == []
  {}

  // One planned occurrence taken off the front, as the loop takes it.
  lemma PlannedStep(planned: seq<Planned>, i: int, seen: set<int>, byStart: map<int, Row>, inserts: seq<Planned>,
                    updates: seq<EndUpdate>)
    requires 0 <= i < |planned| && seen == Starts(planned[..i])
    ensures var p := planned[i];
            var isNew := p.startsAt !in seen;
            && Starts(planned[..i + 1]) == seen + {p.startsAt}
            && (!isNew ==> Starts(planned[..i + 1]) == seen)
            && inserts + Inserts(planned[i..], seen, byStart)
               == (if isNew && p.startsAt !in byStart then inserts + [p] else inserts)
                  + Inserts(planned[i + 1..], Starts(planned[..i + 1]), byStart)
            && updates + Updates(planned[i..], seen, byStart)
               == (if isNew && p.startsAt in byStart && byStart[p.startsAt].endsAt != p.endsAt
                   then updates + [EndUpdate(byStart[p.startsAt].id, p.endsAt)] else updates)
                  + Updates(planned[i + 1..], Starts(planned[..i + 1]), byStart)
  {
    hide Inserts, Updates, Starts;
    StartsGrow(planned, i);
    InsertsStep(planned, i, seen, byStart, inserts);
    UpdatesStep(planned, i, seen, byStart, updates);
  }

  lemma InsertsStep(planned: seq<Planned>, i: int, seen: set<int>, byStart: map<int, Row>, inserts: seq<Planned>)
    requires 0 <= i < |planned|
    ensures var p := planned[i];
            inserts + Inserts(planned[i..], seen, byStart)
            == (if p.startsAt !in seen && p.startsAt !in byStart then inserts + [p] else inserts)
               + Inserts(planned[i + 1..], seen + {p.startsAt}, byStart)
  {
    var p, left := planned[i], planned[i..];
    assert left[0] == p && left[1..] == planned[i + 1..];
    var first := if p.startsAt !in seen && p.startsAt !in byStart then [p] else [];
    assert Inserts(left, seen, byStart) == first + Inserts(left[1..], seen + {p.startsAt}, byStart);
    Assoc(inserts, first, Inserts(left[1..], seen + {p.startsAt}, byStart));
  }

  lemma Assoc<T>(a: seq<T>, b: seq<T>, c: seq<T>)
    ensures a + (b + c) == (a + b) + c && a + [] == a
  {}

  lemma UpdatesStep(planned: seq<Planned>, i: int, seen: set<int>, byStart: map<int, Row>, updates: seq<EndUpdate>)
    requires 0 <= i < |planned|
    ensures var p := planned[i];
            updates + Updates(planned[i..], seen, byStart)
            == (if p.startsAt !in seen && p.startsAt in byStart && byStart[p.startsAt].endsAt != p.endsAt
                then updates + [EndUpdate(byStart[p.startsAt].id, p.endsAt)] else updates)
               + Updates(planned[i + 1..], seen + {p.startsAt}, byStart)
  {
    var p, left := planned[i], planned[i..];
    assert left[0] == p && left[1..] == planned[i + 1..];
    var first := if p.startsAt !in seen && p.startsAt in byStart && byStart[p.startsAt].endsAt != p.endsAt
                 then [EndUpdate(byStart[p.startsAt].id, p.endsAt)] else [];
    assert Updates(left, seen, byStart) == first + Updates(left[1..], seen + {p.startsAt}, byStart);
    Assoc(updates, first, Updates(left[1..], seen + {p.startsAt}, byStart));
  }

  lemma DeletesStep(existing: seq<Row>, starts: set<int>, j: int, ids: seq<int>)
    requires 0 <= j < |existing|
    ensures ids + Deletes(existing[j..], starts)
            == (if existing[j].startsAt !in starts then ids + [existing[j].id] else ids)
              + Deletes(existing[j + 1..], starts)
  {
    assert existing[j..][1..] == existing[j + 1..];
  }

  lemma NothingExisting(starts: set<int>)
    ensures Deletes([], starts) == []
  {}

  lemma StartsGrow(planned: seq<Planned>, i: int)
    requires 0 <= i < |planned|
    ensures Starts(planned[..i + 1]) == Starts(planned[..i]) + {planned[i].startsAt}
  {
    forall t | t in Starts(planned[..i]) + {planned[i].startsAt} ensures t in Starts(planned[..i + 1]) {
      if t == planned[i].startsAt { assert planned[..i + 1][i].startsAt == t; }
      else {
        var j :| 0 <= j < i && planned[..i][j].startsAt == t;
        assert planned[..i + 1][j].startsAt == t;
      }
    }
  }

  // --- The statements ----------------------------------------------------------------------------------------------

  function DeleteRows(rows: seq<Row>, e: int, ids: seq<int>): seq<Row> {
    if rows == [] then []
    else (if rows[0].eventId == e && rows[0].id in ids then [] else [rows[0]]) + DeleteRows(rows[1..], e, ids)
  }

  function UpdateRows(rows: seq<Row>, e: int, u: EndUpdate): (r: seq<Row>)
    ensures |r| == |rows|
  {
    seq(|rows|, i requires 0 <= i < |rows| =>
      if rows[i].id == u.id && rows[i].eventId == e then rows[i].(endsAt := u.endsAt) else rows[i])
  }

  predicate Taken(rows: seq<Row>, e: int, start: int) { exists r :: r in rows && r.eventId == e && r.startsAt == start }

  // One row of an INSERT ... ON CONFLICT DO NOTHING on (event, start).
  function InsertRow(t: Table, e: int, p: Planned): Table {
    if Taken(t.rows, e, p.startsAt) then t
    else Table(t.rows + [Row(t.nextId, e, p.startsAt, p.endsAt, None)], t.nextId + 1)
  }

  function UpdateAll(rows: seq<Row>, e: int, updates: seq<EndUpdate>): seq<Row>
    decreases |updates|
  {
    if updates == [] then rows else UpdateAll(UpdateRows(rows, e, updates[0]), e, updates[1..])
  }

  function InsertAll(t: Table, e: int, planned: seq<Planned>): Table
    decreases |planned|
  {
    if planned == [] then t else InsertAll(InsertRow(t, e, planned[0]), e, planned[1..])
  }

  function Applied(t: Table, e: int, plan: ReconcilePlan): Table {
    InsertAll(Table(UpdateAll(DeleteRows(t.rows, e, plan.toDelete), e, plan.toUpdate), t.nextId), e, plan.toInsert)
  }

  function ListForEvent(rows: seq<Row>, e: int, startingFrom: Option<int>): seq<Row> {
    if rows == [] then []
    else
      (if rows[0].eventId == e && (startingFrom.None? || rows[0].startsAt >= startingFrom.value) then [rows[0]] else [])
      + ListForEvent(rows[1..], e, startingFrom)
  }

  class OccurrenceRepository {
    var rows: seq<Row>
    var nextId: int

    function State(): Table
      reads this
    {
      Table(rows, nextId)
    }

    constructor ()
      ensures State() == Table([], 0)
    {
      rows, nextId := [], 0;
    }

    method ApplyPlan(e: int, plan: ReconcilePlan) returns (counts: Counts)
      modifies this
      ensures State() == Applied(old(State()), e, plan)
      ensures counts.updated == |plan.toUpdate|
      ensures counts.deleted == |old(rows)| - |DeleteRows(old(rows), e, plan.toDelete)|
      ensures counts.inserted == |rows| - |DeleteRows(old(rows), e, plan.toDelete)|
    {
      var deleted := 0;
      NothingToDelete(rows, e);
      if |plan.toDelete| > 0 {
        var kept := DeleteRows(rows, e, plan.toDelete);
        deleted := |rows| - |kept|;
        rows := kept;
      }
      ghost var afterDelete := rows;
      for i := 0 to |plan.toUpdate|
        invariant nextId == old(nextId) && |rows| == |afterDelete|
        invariant UpdateAll(rows, e, plan.toUpdate[i..]) == UpdateAll(afterDelete, e, plan.toUpdate)
      {
        assert plan.toUpdate[i..][1..] == plan.toUpdate[i + 1..];
        rows := UpdateRows(rows, e, plan.toUpdate[i]);
      }
      ghost var afterUpdate := State();
      var inserted := 0;
      for i := 0 to |plan.toInsert|
        invariant inserted == |rows| - |afterDelete|
        invariant InsertAll(State(), e, plan.toInsert[i..]) == InsertAll(afterUpdate, e, plan.toInsert)
      {
        assert plan.toInsert[i..][1..] == plan.toInsert[i + 1..];
        var p := plan.toInsert[i];
        if !Taken(rows, e, p.startsAt) {
          rows := rows + [Row(nextId, e, p.startsAt, p.endsAt, None)];
          nextId := nextId + 1;
          inserted := inserted + 1;
        }
      }
      return Counts(inserted, |plan.toUpdate|, deleted);
    }
  }

  lemma {:induction false} NothingToDelete(rows: seq<Row>, e: int)
    ensures DeleteRows(rows, e, []) == rows
  {
    if rows != [] { NothingToDelete(rows[1..], e); }
  }
}

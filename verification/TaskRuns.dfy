// What a task keeps through any sequence of operations on it.
module TaskRuns {
  import opened Prelude
  import opened Rules
  import opened Dues
  import opened Tasks

  datatype Op =
    | Update(patch: TaskPatch, now: int, newSeriesId: int)
    | Complete(byMember: int, now: int)
    | Reopen(now: int)
    | Cancel(byMember: int, now: int)
    | Assign(member: int, now: int)
    | Unassign(member: int, now: int)
    | RelinquishHead
    | RecordOverdueReported

  function Step(p: TaskProps, op: Op, zones: Zones): TaskProps {
    match op
    case Update(patch, now, newSeriesId) => Updated(p, patch, now, newSeriesId, zones)
    case Complete(byMember, now) => CompletedBy(p, byMember, now)
    case Reopen(now) => Reopened(p, now)
    case Cancel(byMember, now) => CancelledBy(p, byMember, now)
    case Assign(member, now) => Assigned(p, member, now)
    case Unassign(member, now) => Unassigned(p, member, now)
    case RelinquishHead => p.(isSeriesHead := false)
    case RecordOverdueReported => p.(overdueReportedFor := DueAt(p, zones))
  }

  function Run(p: TaskProps, ops: seq<Op>, zones: Zones): TaskProps
    decreases |ops|
  {
    if ops == [] then p else Run(Step(p, ops[0], zones), ops[1..], zones)
  }

  // --- The shape of a task -----------------------------------------------------------------------------------------

  ghost predicate AllDistinct(members: seq<int>) { forall i, j :: 0 <= i < j < |members| ==> members[i] != members[j] }

  // A rule has an anchor, a due date and a series; a head has a rule; no assignee is named twice.
  ghost predicate Shape(p: TaskProps) {
    && (p.recurrenceRule.Some? <==> p.recurrenceAnchor.Some?)
    && (p.recurrenceRule.Some? ==> p.due.Some? && p.seriesId.Some?)
    && (p.isSeriesHead ==> p.recurrenceRule.Some?)
    && AllDistinct(p.assignees)
  }

  lemma {:induction false} WithoutIsDistinct(members: seq<int>, member: int)
    requires AllDistinct(members)
    ensures AllDistinct(Without(members, member))
  {
    if members != [] {
      WithoutIsDistinct(members[1..], member);
      var rest := Without(members[1..], member);
      forall j | 0 <= j < |rest| ensures rest[j] != members[0] {
        assert rest[j] in rest;
        var i :| 0 <= i < |members[1..]| && members[1..][i] == rest[j];
        assert members[i + 1] == rest[j];
      }
    }
  }

  lemma CreatedHasShape(params: NewTask)
    requires Created(params).Ok?
    ensures Shape(Created(params).value)
            && (Created(params).value.isSeriesHead <==> Created(params).value.seriesId.Some?)
  {
    hide ValidateTitle, NormaliseNotes, ParseTaskRule;
  }

  // The whole of an accepted edit: what it says changed is what differs, and only that moves the series.
  ghost predicate IsEdit(before: TaskProps, after: TaskProps, groups: set<FieldGroup>, newSeriesId: int, zones: Zones) {
    && (Details in groups <==> before.title != after.title || before.notes != after.notes
                               || before.priority != after.priority || before.category != after.category)
    && (DueDate in groups <==> !SameDue(after.due, before.due, zones))
    && (Recurrence in groups <==> before.recurrenceRule != after.recurrenceRule)
    && (after.recurrenceRule.Some? ==> after.due.Some?)
    && (if Recurrence !in groups then
          after.recurrenceAnchor == before.recurrenceAnchor && after.seriesId == before.seriesId
          && after.isSeriesHead == before.isSeriesHead
        else
          && (before.seriesId.None? || before.isSeriesHead)
          && (if after.recurrenceRule.None? then
                after.recurrenceAnchor == None && after.seriesId == before.seriesId && !after.isSeriesHead
              else
                && after.due.Some? && after.recurrenceAnchor == Some(DueLocalDateTime(after.due.value))
                && after.isSeriesHead
                && after.seriesId == (if before.seriesId.Some? then before.seriesId else Some(newSeriesId))))
    && after == before.(title := after.title, notes := after.notes, priority := after.priority,
                        category := after.category, due := after.due, recurrenceRule := after.recurrenceRule,
                        recurrenceAnchor := after.recurrenceAnchor, seriesId := after.seriesId,
                        isSeriesHead := after.isSeriesHead)
  }

  lemma SameTextIsSameRule(a: Option<TaskRule>, b: Option<TaskRule>)
    ensures RuleText(a) == RuleText(b) <==> a == b
  {
    hide WellFormed, Text.PrintRule;
    if a.Some? && b.Some? { RoundTrip.TextEqualityIsRuleEquality(a.value, b.value); }
  }

  ghost predicate DetailsNoted(p: TaskProps, e: Edit) {
    && (Details in e.changed <==> p.title != e.next.title || p.notes != e.next.notes
                                  || p.priority != e.next.priority || p.category != e.next.category)
    && DueDate !in e.changed && Recurrence !in e.changed
    && e.next == p.(title := e.next.title, notes := e.next.notes, priority := e.next.priority,
                    category := e.next.category)
  }

  lemma TitleNoted(p: TaskProps, patch: TaskPatch)
    requires EditTitle(Edit(p, {}), patch).Ok?
    ensures var e := EditTitle(Edit(p, {}), patch).value;
            DetailsNoted(p, e) && e.next.notes == p.notes && e.next.priority == p.priority
              && e.next.category == p.category
  {
    hide ValidateTitle;
  }

  lemma NotesNoted(p: TaskProps, e: Edit, patch: TaskPatch)
    requires DetailsNoted(p, e) && e.next.notes == p.notes && EditNotes(e, patch).Ok?
    ensures var f := EditNotes(e, patch).value;
            DetailsNoted(p, f) && f.next.priority == e.next.priority && f.next.category == e.next.category
  {
    hide NormaliseNotes;
  }

  lemma ChoicesNoted(p: TaskProps, e: Edit, patch: TaskPatch)
    requires DetailsNoted(p, e) && e.next.priority == p.priority && e.next.category == p.category
    ensures DetailsNoted(p, EditCategory(EditPriority(e, patch), patch))
  {}

  lemma FieldsAreMerged(p: TaskProps, patch: TaskPatch, zones: Zones)
    requires MergedFields(p, patch, zones).Ok?
    ensures var e := MergedFields(p, patch, zones).value;
            && (Details in e.changed <==> p.title != e.next.title || p.notes != e.next.notes
                                          || p.priority != e.next.priority || p.category != e.next.category)
            && (DueDate in e.changed <==> !SameDue(e.next.due, p.due, zones)) && Recurrence !in e.changed
            && e.next == p.(title := e.next.title, notes := e.next.notes, priority := e.next.priority,
                            category := e.next.category, due := e.next.due)
  {
    hide EditTitle, EditNotes, EditCategory, EditPriority, DueMomentOf;
    var titled := EditTitle(Edit(p, {}), patch).value;
    TitleNoted(p, patch);
    NotesNoted(p, titled, patch);
    ChoicesNoted(p, EditNotes(titled, patch).value, patch);
  }

  lemma RuleIsMerged(p: TaskProps, e: Edit, patch: TaskPatch, newSeriesId: int)
    requires EditRule(e, patch, newSeriesId).Ok?
    ensures var f := EditRule(e, patch, newSeriesId).value;
            if f.next.recurrenceRule == e.next.recurrenceRule then f == e
            else
              && (e.next.seriesId.None? || e.next.isSeriesHead) && f.changed == e.changed + {Recurrence}
              && (if f.next.recurrenceRule.None? then
                    f.next == e.next.(recurrenceRule := None, recurrenceAnchor := None, isSeriesHead := false)
                  else
                    && e.next.due.Some?
                    && f.next == e.next.(recurrenceRule := f.next.recurrenceRule,
                                         recurrenceAnchor := Some(DueLocalDateTime(e.next.due.value)),
                                         seriesId := if e.next.seriesId.Some? then e.next.seriesId
                                                     else Some(newSeriesId),
                                         isSeriesHead := true))
  {
    hide ParseTaskRule, RuleText, DueLocalDateTime;
    if patch.recurrenceRule.Some? {
      match ParseTaskRule(patch.recurrenceRule.value) {
        case Err(_) =>
        case Ok(rule) => SameTextIsSameRule(e.next.recurrenceRule, rule);
      }
    }
  }

  lemma MergeIsEdit(p: TaskProps, patch: TaskPatch, newSeriesId: int, zones: Zones)
    requires Merged(p, patch, newSeriesId, zones).Ok?
    ensures var e := Merged(p, patch, newSeriesId, zones).value; IsEdit(p, e.next, e.changed, newSeriesId, zones)
  {
    hide MergedFields, EditRule, SameDue, DueLocalDateTime;
    FieldsAreMerged(p, patch, zones);
    RuleIsMerged(p, MergedFields(p, patch, zones).value, patch, newSeriesId);
  }

  // An edit is refused and leaves the task as it was, or is carried out as a whole.
  lemma UpdateIsAllOrNothing(p: TaskProps, patch: TaskPatch, now: int, newSeriesId: int, zones: Zones)
    ensures var after := Updated(p, patch, now, newSeriesId, zones);
            match UpdateResult(p, patch, newSeriesId, zones)
            case Err(_) => after == p
            case Ok(groups) =>
              && p.state.Open?
              && (groups == {} ==> after == p)
              && (groups != {} ==>
                    after.version == p.version + 1 && after.updatedAt == now
                    && IsEdit(p, after.(version := p.version, updatedAt := p.updatedAt), groups, newSeriesId, zones))
  {
    hide Merged, IsEdit;
    match Merged(p, patch, newSeriesId, zones) {
      case Err(_) =>
      case Ok(e) =>
        MergeIsEdit(p, patch, newSeriesId, zones);
        EditKeepsClock(p, e.next, e.changed, newSeriesId, zones);
    }
  }

  lemma EditKeepsClock(p: TaskProps, after: TaskProps, groups: set<FieldGroup>, newSeriesId: int, zones: Zones)
    requires IsEdit(p, after, groups, newSeriesId, zones)
    ensures after.version == p.version && after.updatedAt == p.updatedAt
  {
    hide SameDue, DueLocalDateTime;
  }

  // --- Any sequence of operations ----------------------------------------------------------------------------------

  lemma UpdateKeepsShape(p: TaskProps, patch: TaskPatch, now: int, newSeriesId: int, zones: Zones)
    requires Shape(p)
    ensures var after := Updated(p, patch, now, newSeriesId, zones);
            && Shape(after) && after.state == p.state && after.id == p.id && after.predecessorId == p.predecessorId
            && (p.seriesId.Some? ==> after.seriesId == p.seriesId && (!p.isSeriesHead ==> !after.isSeriesHead))
            && (p.seriesId.None? && after.seriesId.Some? ==> after.seriesId == Some(newSeriesId))
  {
    hide Updated, UpdateResult, SameDue, DueLocalDateTime;
    UpdateIsAllOrNothing(p, patch, now, newSeriesId, zones);
  }

  lemma StepKeepsShape(p: TaskProps, op: Op, zones: Zones)
    requires Shape(p)
    ensures Shape(Step(p, op, zones))
    ensures p.seriesId.Some? ==> Step(p, op, zones).seriesId == p.seriesId
    ensures p.seriesId.Some? && !p.isSeriesHead ==> !Step(p, op, zones).isSeriesHead
  {
    hide Updated, DueMomentOf;
    match op {
      case Update(patch, now, newSeriesId) => UpdateKeepsShape(p, patch, now, newSeriesId, zones);
      case Unassign(member, _) => WithoutIsDistinct(p.assignees, member);
      case _ =>
    }
  }

  // Whatever is done to a task, it keeps its shape and its series, and a member of a series that is not its head never
  // becomes it.
  lemma {:induction false} RunsKeepShape(p: TaskProps, ops: seq<Op>, zones: Zones)
    requires Shape(p)
    ensures Shape(Run(p, ops, zones))
    ensures p.seriesId.Some? ==> Run(p, ops, zones).seriesId == p.seriesId
    ensures p.seriesId.Some? && !p.isSeriesHead ==> !Run(p, ops, zones).isSeriesHead
    decreases |ops|
  {
    hide Step, Shape;
    if ops != [] {
      StepKeepsShape(p, ops[0], zones);
      RunsKeepShape(Step(p, ops[0], zones), ops[1..], zones);
    }
  }

  // A cancelled task stays as it is but for its two markers.
  lemma {:induction false} CancelledIsFinal(p: TaskProps, ops: seq<Op>, zones: Zones)
    requires p.state.Cancelled?
    ensures var after := Run(p, ops, zones);
            after == p.(isSeriesHead := after.isSeriesHead, overdueReportedFor := after.overdueReportedFor)
            && (after.isSeriesHead ==> p.isSeriesHead)
    decreases |ops|
  {
    hide DueMomentOf;
    if ops != [] { CancelledIsFinal(Step(p, ops[0], zones), ops[1..], zones); }
  }

  // A change a member made: not a refusal, an edit that changes nothing, or a marker.
  predicate IsChange(p: TaskProps, op: Op, zones: Zones) {
    match op
    case Update(patch, _, newSeriesId) =>
      (match UpdateResult(p, patch, newSeriesId, zones) case Err(_) => false case Ok(groups) => groups != {})
    case Complete(_, _) => p.state.Open?
    case Reopen(_) => p.state.Completed?
    case Cancel(_, _) => p.state.Open?
    case Assign(member, _) => p.state.Open? && member !in p.assignees
    case Unassign(member, _) => p.state.Open? && member in p.assignees
    case RelinquishHead => false
    case RecordOverdueReported => false
  }

  function Changes(p: TaskProps, ops: seq<Op>, zones: Zones): nat
    decreases |ops|
  {
    if ops == [] then 0
    else (if IsChange(p, ops[0], zones) then 1 else 0) + Changes(Step(p, ops[0], zones), ops[1..], zones)
  }

  lemma StepCountsChanges(p: TaskProps, op: Op, zones: Zones)
    ensures Step(p, op, zones).version == p.version + (if IsChange(p, op, zones) then 1 else 0)
    ensures !IsChange(p, op, zones) && !op.RelinquishHead? && !op.RecordOverdueReported? ==>
              Step(p, op, zones) == p
  {
    hide Updated, UpdateResult, DueMomentOf, IsEdit;
    if op.Update? { UpdateIsAllOrNothing(p, op.patch, op.now, op.newSeriesId, zones); }
  }

  // The version counts the changes members made: one for each, none for a refusal, a no-op or a marker.
  lemma {:induction false} VersionCountsChanges(p: TaskProps, ops: seq<Op>, zones: Zones)
    ensures Run(p, ops, zones).version == p.version + Changes(p, ops, zones)
    decreases |ops|
  {
    hide Step, IsChange;
    if ops != [] {
      StepCountsChanges(p, ops[0], zones);
      VersionCountsChanges(Step(p, ops[0], zones), ops[1..], zones);
    }
  }

  // The anchor moves only in an edit that changes the rule, and then to the due date the task has after it.
  lemma AnchorMovesOnlyWithTheRule(p: TaskProps, op: Op, zones: Zones)
    requires Shape(p)
    ensures var after := Step(p, op, zones);
            if after.recurrenceRule == p.recurrenceRule then after.recurrenceAnchor == p.recurrenceAnchor
            else if after.recurrenceRule.None? then op.Update? && after.recurrenceAnchor == None
            else op.Update? && after.due.Some? && after.recurrenceAnchor == Some(DueLocalDateTime(after.due.value))
  {
    hide Updated, UpdateResult, SameDue, DueLocalDateTime, DueMomentOf;
    if op.Update? { UpdateIsAllOrNothing(p, op.patch, op.now, op.newSeriesId, zones); }
  }
}

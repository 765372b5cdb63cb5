// packages/core/src/tasks/domain/task.aggregate.ts: the task aggregate and every change a member makes to it.
module Tasks {
  import opened Prelude
  import opened Rules
  import opened Dues
  import Text = RRuleText
  import RoundTrip = RRuleRoundTrip

  const TITLE_MAX: nat := 200
  const NOTES_MAX: nat := 4000

  datatype Priority = Low | Normal | High

  datatype Category = Household | School | Health | Finance | Admin | Other

  datatype TaskState = Open | Completed(at: int, byMember: Option<int>) | Cancelled(at: int, byMember: Option<int>)

  datatype Status = IsOpen | IsCompleted | IsCancelled

  function StatusOf(state: TaskState): (status: Status)
    ensures (status.IsOpen? <==> state.Open?) && (status.IsCompleted? <==> state.Completed?)
  {
    match state case Open => IsOpen case Completed(_, _) => IsCompleted case Cancelled(_, _) => IsCancelled
  }

  datatype TaskCommand = CompleteIt | ReopenIt | CancelIt | EditIt | AssignIt | UnassignIt

  datatype FieldGroup = Details | DueDate | Recurrence

  type TaskRule = r: Rule | WellFormed(r) witness Rule(Daily, 1, None, None, [], [], [], MO)

  datatype TaskProps = TaskProps(
    id: int, familyId: int, title: string, notes: Option<string>, priority: Priority, category: Option<Category>,
    due: Option<Due>, recurrenceRule: Option<TaskRule>, recurrenceAnchor: Option<Anchor>,
    seriesId: Option<int>, predecessorId: Option<int>, isSeriesHead: bool, state: TaskState,
    overdueReportedFor: Option<int>, assignees: seq<int>, createdByMemberId: Option<int>,
    version: int, createdAt: int, updatedAt: int)

  // What a field's absence from a patch means: leave it alone.
  datatype TaskPatch = TaskPatch(
    title: Option<string>, notes: Option<Option<string>>, priority: Option<Priority>,
    category: Option<Option<Category>>, due: Option<Option<Due>>, recurrenceRule: Option<Option<string>>)

  datatype NewTask = NewTask(
    id: int, familyId: int, newSeriesId: int, title: string, notes: Option<string>, priority: Option<Priority>,
    category: Option<Category>, due: Option<Due>, recurrenceRule: Option<string>, assignees: seq<int>,
    createdByMemberId: Option<int>, now: int)

  datatype TaskError =
    | NameRequired
    | RecurrenceRequiresDue
    | RuleRefused(error: Text.RuleError)
    | InvalidTransition(from: Status, command: TaskCommand)

  // --- Fields ------------------------------------------------------------------------------------------------------

  function ValidateTitle(raw: string): Result<string, TaskError> {
    var title := Text.Trim(raw);
    if title == "" || |title| > TITLE_MAX then Err(NameRequired) else Ok(title)
  }

  function NormaliseNotes(value: Option<string>): Result<Option<string>, TaskError> {
    match value
    case None => Ok(None)
    case Some(v) =>
      var trimmed := Text.Trim(v);
      if |trimmed| > NOTES_MAX then Err(NameRequired) else Ok(if trimmed == "" then None else Some(trimmed))
  }

  function ParseTaskRule(text: Option<string>): Result<Option<TaskRule>, TaskError> {
    match text
    case None => Ok(None)
    case Some(t) =>
      match Text.ParseRule(t)
      case Err(e) => Err(RuleRefused(e))
      case Ok(r) => RoundTrip.ParsedRulesAreWellFormed(t); Ok(Some(r))
  }

  // `a` is named before `b` ever is.
  ghost predicate NamedBefore(members: seq<int>, a: int, b: int) {
    exists k :: 0 <= k < |members| && members[k] == a && b !in members[..k + 1]
  }

  lemma NamedInTheFirstPart(members: seq<int>)
    requires members != []
    ensures var first := members[..|members| - 1];
            forall a, b :: NamedBefore(first, a, b) || (a in first && b !in first) ==> NamedBefore(members, a, b)
  {
    var first := members[..|members| - 1];
    forall a, b | NamedBefore(first, a, b) || (a in first && b !in first) ensures NamedBefore(members, a, b) {
      var k :| 0 <= k < |first| && first[k] == a && b !in first[..k + 1];
      assert first[..k + 1] == members[..k + 1];
    }
  }

  // A set of members, in the order they were first named.
  function UniqueMembers(members: seq<int>): (r: seq<int>)
    ensures forall m :: m in r <==> m in members
    ensures forall i, j :: 0 <= i < j < |r| ==> r[i] != r[j] && NamedBefore(members, r[i], r[j])
  {
    if members == [] then []
    else
      NamedInTheFirstPart(members);
      var some, last := UniqueMembers(members[..|members| - 1]), members[|members| - 1];
      if last in some then some else some + [last]
  }

  function Without(members: seq<int>, member: int): (r: seq<int>)
    ensures forall m :: m in r <==> m in members && m != member
  {
    if members == [] then []
    else (if members[0] == member then [] else [members[0]]) + Without(members[1..], member)
  }

  // --- New tasks ---------------------------------------------------------------------------------------------------

  function Created(p: NewTask): Result<TaskProps, TaskError> {
    match ValidateTitle(p.title) case Err(e) => Err(e) case Ok(title) =>
    match NormaliseNotes(p.notes) case Err(e) => Err(e) case Ok(notes) =>
    match ParseTaskRule(p.recurrenceRule) case Err(e) => Err(e) case Ok(rule) =>
      if rule.Some? && p.due.None? then Err(RecurrenceRequiresDue)
      else
        Ok(TaskProps(
          p.id, p.familyId, title, notes,
          if p.priority.Some? then p.priority.value else Normal, p.category, p.due, rule,
          if rule.Some? then Some(DueLocalDateTime(p.due.value)) else None,
          if rule.Some? then Some(p.newSeriesId) else None, None, rule.Some?, Open, None, UniqueMembers(p.assignees),
          p.createdByMemberId, 1, p.now, p.now))
  }

  function Successor(head: TaskProps, id: int, due: Due, createdByMemberId: Option<int>, now: int): TaskProps {
    TaskProps(
      id, head.familyId, head.title, head.notes, head.priority, head.category, Some(due), head.recurrenceRule,
      head.recurrenceAnchor, head.seriesId, Some(head.id), true, Open, None, head.assignees, createdByMemberId,
      1, now, now)
  }

  // --- Changes -----------------------------------------------------------------------------------------------------

  function Committed(next: TaskProps, now: int): TaskProps { next.(version := next.version + 1, updatedAt := now) }

  // An edit under way: the merged task so far, and the groups of fields that differ.
  datatype Edit = Edit(next: TaskProps, changed: set<FieldGroup>)

  function Noted(e: Edit, differs: bool, group: FieldGroup): set<FieldGroup> {
    if differs then e.changed + {group} else e.changed
  }

  function EditTitle(e: Edit, patch: TaskPatch): Result<Edit, TaskError> {
    match patch.title case None => Ok(e) case Some(raw) =>
    match ValidateTitle(raw) case Err(x) => Err(x)
    case Ok(title) => Ok(Edit(e.next.(title := title), Noted(e, title != e.next.title, Details)))
  }

  function EditNotes(e: Edit, patch: TaskPatch): Result<Edit, TaskError> {
    match patch.notes case None => Ok(e) case Some(raw) =>
    match NormaliseNotes(raw) case Err(x) => Err(x)
    case Ok(notes) => Ok(Edit(e.next.(notes := notes), Noted(e, notes != e.next.notes, Details)))
  }

  function EditPriority(e: Edit, patch: TaskPatch): Edit {
    match patch.priority case None => e
    case Some(v) => Edit(e.next.(priority := v), Noted(e, v != e.next.priority, Details))
  }

  function EditCategory(e: Edit, patch: TaskPatch): Edit {
    match patch.category case None => e
    case Some(v) => Edit(e.next.(category := v), Noted(e, v != e.next.category, Details))
  }

  function EditDue(e: Edit, patch: TaskPatch, zones: Zones): Edit {
    match patch.due case None => e
    case Some(v) => Edit(e.next.(due := v), Noted(e, !SameDue(v, e.next.due, zones), DueDate))
  }

  function RuleText(rule: Option<TaskRule>): Option<string> {
    match rule case None => None case Some(r) => Some(Text.PrintRule(r))
  }

  // The rule, its anchor and the series move only when the text of the rule does.
  function EditRule(e: Edit, patch: TaskPatch, newSeriesId: int): Result<Edit, TaskError> {
    match patch.recurrenceRule case None => Ok(e) case Some(text) =>
    match ParseTaskRule(text) case Err(x) => Err(x)
    case Ok(rule) =>
      var next := e.next;
      if RuleText(next.recurrenceRule) == RuleText(rule) then Ok(e)
      else if next.seriesId.Some? && !next.isSeriesHead then Err(InvalidTransition(StatusOf(next.state), EditIt))
      else if rule.None? then
        Ok(Edit(next.(recurrenceRule := None, recurrenceAnchor := None, isSeriesHead := false),
                e.changed + {Recurrence}))
      else if next.due.None? then Err(RecurrenceRequiresDue)
      else
        Ok(Edit(next.(recurrenceRule := rule, recurrenceAnchor := Some(DueLocalDateTime(next.due.value)),
                      seriesId := if next.seriesId.Some? then next.seriesId else Some(newSeriesId),
                      isSeriesHead := true),
                e.changed + {Recurrence}))
  }

  // Everything but the rule.
  function MergedFields(p: TaskProps, patch: TaskPatch, zones: Zones): Result<Edit, TaskError> {
    match EditTitle(Edit(p, {}), patch) case Err(x) => Err(x) case Ok(e) =>
    match EditNotes(e, patch) case Err(x) => Err(x)
    case Ok(e) => Ok(EditDue(EditCategory(EditPriority(e, patch), patch), patch, zones))
  }

  function Merged(p: TaskProps, patch: TaskPatch, newSeriesId: int, zones: Zones): Result<Edit, TaskError> {
    match MergedFields(p, patch, zones) case Err(x) => Err(x) case Ok(e) =>
    match EditRule(e, patch, newSeriesId) case Err(x) => Err(x)
    case Ok(e) => if e.next.recurrenceRule.Some? && e.next.due.None? then Err(RecurrenceRequiresDue) else Ok(e)
  }

  function UpdateResult(p: TaskProps, patch: TaskPatch, newSeriesId: int,
                        zones: Zones): Result<set<FieldGroup>, TaskError> {
    if !p.state.Open? then Err(InvalidTransition(StatusOf(p.state), EditIt))
    else match Merged(p, patch, newSeriesId, zones) case Err(x) => Err(x) case Ok(e) => Ok(e.changed)
  }

  function Updated(p: TaskProps, patch: TaskPatch, now: int, newSeriesId: int, zones: Zones): TaskProps {
    if !p.state.Open? then p
    else
      match Merged(p, patch, newSeriesId, zones)
      case Err(_) => p
      case Ok(e) => if e.changed == {} then p else Committed(e.next, now)
  }

  function CompletedBy(p: TaskProps, byMember: int, now: int): TaskProps {
    if p.state.Open? then Committed(p.(state := Completed(now, Some(byMember))), now) else p
  }

  function Reopened(p: TaskProps, now: int): TaskProps {
    if p.state.Completed? then Committed(p.(state := Open), now) else p
  }

  function CancelledBy(p: TaskProps, byMember: int, now: int): TaskProps {
    if p.state.Open? then Committed(p.(state := Cancelled(now, Some(byMember))), now) else p
  }

  function Assigned(p: TaskProps, member: int, now: int): TaskProps {
    if p.state.Open? && member !in p.assignees then Committed(p.(assignees := p.assignees + [member]), now) else p
  }

  function Unassigned(p: TaskProps, member: int, now: int): TaskProps {
    if p.state.Open? && member in p.assignees then Committed(p.(assignees := Without(p.assignees, member)), now) else p
  }

  function DueAt(p: TaskProps, zones: Zones): Option<int> {
    match p.due case None => None case Some(d) => Some(DueMomentOf(d, zones))
  }

  class Task {
    var props: TaskProps

    constructor (props: TaskProps)
      ensures this.props == props
    {
      this.props := props;
    }

    static method Create(params: NewTask) returns (r: Result<Task, TaskError>)
      ensures match Created(params)
              case Err(e) => r == Err(e)
              case Ok(props) => r.Ok? && fresh(r.value) && r.value.props == props
    {
      hide ValidateTitle, NormaliseNotes, ParseTaskRule;
      match Created(params) {
        case Err(e) => return Err(e);
        case Ok(props) =>
          var t := new Task(props);
          return Ok(t);
      }
    }

    static method SuccessorOf(id: int, head: Task, due: Due, createdByMemberId: Option<int>, now: int) returns (t: Task)
      ensures fresh(t) && t.props == Successor(head.props, id, due, createdByMemberId, now)
    {
      t := new Task(Successor(head.props, id, due, createdByMemberId, now));
    }

    method Update(patch: TaskPatch, now: int, newSeriesId: int, zones: Zones)
      returns (r: Result<set<FieldGroup>, TaskError>)
      modifies this
      ensures r == UpdateResult(old(props), patch, newSeriesId, zones)
      ensures props == Updated(old(props), patch, now, newSeriesId, zones)
    {
      hide MergedFields, EditRule;
      if !props.state.Open? { return Err(InvalidTransition(StatusOf(props.state), EditIt)); }
      var merged := MergeFields(patch, zones);
      if merged.Err? { return Err(merged.error); }
      merged := MergeRule(merged.value, patch, newSeriesId);
      if merged.Err? { return Err(merged.error); }
      var next, changed := merged.value.next, merged.value.changed;
      if next.recurrenceRule.Some? && next.due.None? { return Err(RecurrenceRequiresDue); }
      if changed != {} { props := Committed(next, now); }
      return Ok(changed);
    }

    method MergeFields(patch: TaskPatch, zones: Zones) returns (r: Result<Edit, TaskError>)
      ensures r == MergedFields(props, patch, zones)
    {
      hide ValidateTitle, NormaliseNotes, SameDue;
      var next := props;
      var changed: set<FieldGroup> := {};
      if patch.title.Some? {
        var title := ValidateTitle(patch.title.value);
        if title.Err? { return Err(title.error); }
        if title.value != next.title { changed := changed + {Details}; }
        next := next.(title := title.value);
      }
      assert EditTitle(Edit(props, {}), patch) == Ok(Edit(next, changed));
      ghost var titled := Edit(next, changed);
      if patch.notes.Some? {
        var notes := NormaliseNotes(patch.notes.value);
        if notes.Err? { return Err(notes.error); }
        if notes.value != next.notes { changed := changed + {Details}; }
        next := next.(notes := notes.value);
      }
      assert EditNotes(titled, patch) == Ok(Edit(next, changed));
      ghost var noted := Edit(next, changed);
      if patch.priority.Some? && patch.priority.value != next.priority {
        changed := changed + {Details};
        next := next.(priority := patch.priority.value);
      }
      if patch.category.Some? && patch.category.value != next.category {
        changed := changed + {Details};
        next := next.(category := patch.category.value);
      }
      assert EditCategory(EditPriority(noted, patch), patch) == Edit(next, changed);
      if patch.due.Some? {
        if !SameDue(patch.due.value, next.due, zones) { changed := changed + {DueDate}; }
        next := next.(due := patch.due.value);
      }
      return Ok(Edit(next, changed));
    }

    method MergeRule(e: Edit, patch: TaskPatch, newSeriesId: int) returns (r: Result<Edit, TaskError>)
      ensures r == EditRule(e, patch, newSeriesId)
    {
      hide ParseTaskRule, RuleText, DueLocalDateTime;
      var next, changed := e.next, e.changed;
      if patch.recurrenceRule.Some? {
        var rule := ParseTaskRule(patch.recurrenceRule.value);
        if rule.Err? { return Err(rule.error); }
        if RuleText(next.recurrenceRule) != RuleText(rule.value) {
          if next.seriesId.Some? && !next.isSeriesHead { return Err(InvalidTransition(StatusOf(next.state), EditIt)); }
          changed := changed + {Recurrence};
          if rule.value.None? {
            next := next.(recurrenceRule := None, recurrenceAnchor := None, isSeriesHead := false);
          } else {
            if next.due.None? { return Err(RecurrenceRequiresDue); }
            next := next.(recurrenceRule := rule.value, recurrenceAnchor := Some(DueLocalDateTime(next.due.value)));
            if next.seriesId.None? { next := next.(seriesId := Some(newSeriesId)); }
            next := next.(isSeriesHead := true);
          }
        }
      }
      return Ok(Edit(next, changed));
    }

    method Complete(byMember: int, now: int) returns (r: Result<(), TaskError>)
      modifies this
      ensures r == if old(props).state.Open? then Ok(())
                   else Err(InvalidTransition(StatusOf(old(props).state), CompleteIt))
      ensures props == CompletedBy(old(props), byMember, now)
    {
      if !props.state.Open? { return Err(InvalidTransition(StatusOf(props.state), CompleteIt)); }
      props := Committed(props.(state := Completed(now, Some(byMember))), now);
      return Ok(());
    }

    method Reopen(now: int) returns (r: Result<(), TaskError>)
      modifies this
      ensures r == if old(props).state.Completed? then Ok(())
                   else Err(InvalidTransition(StatusOf(old(props).state), ReopenIt))
      ensures props == Reopened(old(props), now)
    {
      if !props.state.Completed? { return Err(InvalidTransition(StatusOf(props.state), ReopenIt)); }
      props := Committed(props.(state := Open), now);
      return Ok(());
    }

    method Cancel(byMember: int, now: int) returns (r: Result<(), TaskError>)
      modifies this
      ensures r == if old(props).state.Open? then Ok(())
                   else Err(InvalidTransition(StatusOf(old(props).state), CancelIt))
      ensures props == CancelledBy(old(props), byMember, now)
    {
      if !props.state.Open? { return Err(InvalidTransition(StatusOf(props.state), CancelIt)); }
      props := Committed(props.(state := Cancelled(now, Some(byMember))), now);
      return Ok(());
    }

    method Assign(member: int, now: int) returns (r: Result<bool, TaskError>)
      modifies this
      ensures r == if old(props).state.Open? then Ok(member !in old(props).assignees)
                   else Err(InvalidTransition(StatusOf(old(props).state), AssignIt))
      ensures props == Assigned(old(props), member, now)
    {
      if !props.state.Open? { return Err(InvalidTransition(StatusOf(props.state), AssignIt)); }
      if member in props.assignees { return Ok(false); }
      props := Committed(props.(assignees := props.assignees + [member]), now);
      return Ok(true);
    }

    method Unassign(member: int, now: int) returns (r: Result<bool, TaskError>)
      modifies this
      ensures r == if old(props).state.Open? then Ok(member in old(props).assignees)
                   else Err(InvalidTransition(StatusOf(old(props).state), UnassignIt))
      ensures props == Unassigned(old(props), member, now)
    {
      if !props.state.Open? { return Err(InvalidTransition(StatusOf(props.state), UnassignIt)); }
      if member !in props.assignees { return Ok(false); }
      props := Committed(props.(assignees := Without(props.assignees, member)), now);
      return Ok(true);
    }

    method RelinquishHead()
      modifies this
      ensures props == old(props).(isSeriesHead := false)
    {
      props := props.(isSeriesHead := false);
    }

    method RecordOverdueReported(zones: Zones)
      modifies this
      ensures props == old(props).(overdueReportedFor := DueAt(old(props), zones))
    {
      props := props.(overdueReportedFor := DueAt(props, zones));
    }
  }
}

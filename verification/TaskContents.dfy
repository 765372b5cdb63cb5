// What the operations on a task write: each field from what was asked, and no other field.
module TaskContents {
  import opened Prelude
  import opened CivilDate
  import opened ZonedTime
  import opened Dues
  import opened Tasks
  import opened TaskRuns
  import Text = RRuleText
  import Meaning = RRuleMeaning
  import Rules

  // --- Fields ------------------------------------------------------------------------------------------------------

  // A title is 1 to 200 characters once the white space around it is gone.
  ghost predicate TitleFrom(raw: string, title: string) { Meaning.Stripped(raw, title) && 1 <= |title| <= 200 }

  // Notes are at most 4000 characters, and none when blank.
  ghost predicate NotesFrom(raw: Option<string>, notes: Option<string>) {
    match raw
    case None => notes == None
    case Some(v) => exists body :: Meaning.Stripped(v, body) && |body| <= 4000
                                   && notes == if body == "" then None else Some(body)
  }

  ghost predicate RuleFrom(raw: Option<string>, rule: Option<TaskRule>) {
    match raw case None => rule == None case Some(v) => rule.Some? && Text.ParseRule(v) == Ok(rule.value)
  }

  lemma TitleIs(raw: string, title: string)
    ensures ValidateTitle(raw) == Ok(title) <==> TitleFrom(raw, title)
    ensures ValidateTitle(raw).Err? ==> ValidateTitle(raw) == Err(NameRequired) && forall t :: !TitleFrom(raw, t)
  {
    hide Text.Trim, Meaning.Stripped;
    forall t ensures Meaning.Stripped(raw, t) <==> t == Text.Trim(raw) { Meaning.StrippedIsTrim(raw, t); }
  }

  lemma NotesAre(raw: Option<string>, notes: Option<string>)
    ensures NormaliseNotes(raw) == Ok(notes) <==> NotesFrom(raw, notes)
    ensures NormaliseNotes(raw).Err? ==> NormaliseNotes(raw) == Err(NameRequired) && forall n :: !NotesFrom(raw, n)
  {
    hide Text.Trim, Meaning.Stripped;
    if raw.Some? {
      forall t ensures Meaning.Stripped(raw.value, t) <==> t == Text.Trim(raw.value) {
        Meaning.StrippedIsTrim(raw.value, t);
      }
    }
  }

  lemma RuleIs(raw: Option<string>, rule: Option<TaskRule>)
    ensures ParseTaskRule(raw) == Ok(rule) <==> RuleFrom(raw, rule)
    ensures ParseTaskRule(raw).Err? ==>
              raw.Some? && Text.ParseRule(raw.value).Err? && (forall r :: !RuleFrom(raw, r))
              && ParseTaskRule(raw) == Err(RuleRefused(Text.ParseRule(raw.value).error))
  {
    hide Text.ParseRule, Rules.WellFormed;
  }

  // --- A new task --------------------------------------------------------------------------------------------------

  // A task is created exactly from a title, notes and a rule in order, with a due date if it recurs; it is the first
  // version, open, as given, and the head of the series it begins when it recurs.
  ghost predicate AsGiven(p: NewTask, t: TaskProps) {
    && TitleFrom(p.title, t.title) && NotesFrom(p.notes, t.notes) && RuleFrom(p.recurrenceRule, t.recurrenceRule)
    && t.id == p.id && t.familyId == p.familyId && t.due == p.due && t.category == p.category
    && t.priority == (if p.priority.Some? then p.priority.value else Normal)
    && t.assignees == UniqueMembers(p.assignees) && t.createdByMemberId == p.createdByMemberId
    && t.state == Open && t.version == 1 && t.createdAt == t.updatedAt == p.now
    && t.predecessorId == None && t.overdueReportedFor == None
    && (if t.recurrenceRule.None? then t.recurrenceAnchor == None && t.seriesId == None && !t.isSeriesHead
        else
          && p.due.Some? && t.recurrenceAnchor == Some(DueLocalDateTime(p.due.value))
          && t.seriesId == Some(p.newSeriesId) && t.isSeriesHead)
  }

  lemma CreatedAsGiven(p: NewTask, t: TaskProps)
    ensures Created(p) == Ok(t) <==> AsGiven(p, t)
  {
    hide ValidateTitle, NormaliseNotes, ParseTaskRule, TitleFrom, NotesFrom, RuleFrom, DueLocalDateTime;
    TitleIs(p.title, t.title);
    NotesAre(p.notes, t.notes);
    RuleIs(p.recurrenceRule, t.recurrenceRule);
  }

  // A refusal names the first thing wrong: the title, the notes, the rule, the missing due date.
  lemma CreationIsRefused(p: NewTask)
    requires Created(p).Err?
    ensures if (forall t :: !TitleFrom(p.title, t)) || (forall n :: !NotesFrom(p.notes, n)) then
              Created(p) == Err(NameRequired)
            else if forall r :: !RuleFrom(p.recurrenceRule, r) then
              && p.recurrenceRule.Some? && Text.ParseRule(p.recurrenceRule.value).Err?
              && Created(p) == Err(RuleRefused(Text.ParseRule(p.recurrenceRule.value).error))
            else p.due == None && Created(p) == Err(RecurrenceRequiresDue)
  {
    hide ValidateTitle, NormaliseNotes, ParseTaskRule, TitleFrom, NotesFrom, RuleFrom;
    forall t ensures ValidateTitle(p.title) == Ok(t) <==> TitleFrom(p.title, t) { TitleIs(p.title, t); }
    forall n ensures NormaliseNotes(p.notes) == Ok(n) <==> NotesFrom(p.notes, n) { NotesAre(p.notes, n); }
    forall r ensures ParseTaskRule(p.recurrenceRule) == Ok(r) <==> RuleFrom(p.recurrenceRule, r) {
      RuleIs(p.recurrenceRule, r);
    }
    TitleIs(p.title, "");
    NotesAre(p.notes, None);
    RuleIs(p.recurrenceRule, None);
  }

  // --- An edit -----------------------------------------------------------------------------------------------------

  // The authored fields after an edit: what the patch asks for, and what was there where it asks for nothing.
  ghost predicate Asked(p: TaskProps, patch: TaskPatch, q: TaskProps) {
    && (match patch.title case None => q.title == p.title case Some(raw) => TitleFrom(raw, q.title))
    && (match patch.notes case None => q.notes == p.notes case Some(raw) => NotesFrom(raw, q.notes))
    && q.priority == (match patch.priority case None => p.priority case Some(v) => v)
    && q.category == (match patch.category case None => p.category case Some(v) => v)
    && q.due == (match patch.due case None => p.due case Some(v) => v)
    && (match patch.recurrenceRule
        case None => q.recurrenceRule == p.recurrenceRule
        case Some(raw) => RuleFrom(raw, q.recurrenceRule))
  }

  // The rule of a series changes from its head alone, and no rule is left without a due date.
  ghost predicate Permitted(p: TaskProps, q: TaskProps) {
    && (q.recurrenceRule != p.recurrenceRule ==> p.seriesId.None? || p.isSeriesHead)
    && (q.recurrenceRule.Some? ==> q.due.Some?)
  }

  lemma FieldsAsked(p: TaskProps, patch: TaskPatch, zones: Zones)
    ensures match MergedFields(p, patch, zones)
            case Ok(e) => Asked(p, patch.(recurrenceRule := None), e.next) && e.next.recurrenceRule == p.recurrenceRule
                          && e.next.seriesId == p.seriesId && e.next.isSeriesHead == p.isSeriesHead
            case Err(_) => forall q :: !Asked(p, patch.(recurrenceRule := None), q)
  {
    hide ValidateTitle, NormaliseNotes, TitleFrom, NotesFrom, SameDue, Noted;
    if patch.title.Some? {
      var raw := patch.title.value;
      forall t ensures ValidateTitle(raw) == Ok(t) <==> TitleFrom(raw, t) { TitleIs(raw, t); }
    }
    if patch.notes.Some? {
      var raw := patch.notes.value;
      forall n ensures NormaliseNotes(raw) == Ok(n) <==> NotesFrom(raw, n) { NotesAre(raw, n); }
    }
  }

  lemma RuleAsked(p: TaskProps, e: Edit, patch: TaskPatch, newSeriesId: int)
    requires Asked(p, patch.(recurrenceRule := None), e.next) && e.next.recurrenceRule == p.recurrenceRule
    requires e.next.seriesId == p.seriesId && e.next.isSeriesHead == p.isSeriesHead
    ensures EditRule(e, patch, newSeriesId).Ok? ==>
              var f := EditRule(e, patch, newSeriesId).value;
              && Asked(p, patch, f.next)
              && (f.next.recurrenceRule != p.recurrenceRule ==> p.seriesId.None? || p.isSeriesHead)
    ensures EditRule(e, patch, newSeriesId).Err? ==> forall q :: Asked(p, patch, q) ==> !Permitted(p, q)
  {
    hide ParseTaskRule, RuleText, DueLocalDateTime, RuleFrom, TitleFrom, NotesFrom;
    if patch.recurrenceRule.Some? {
      var raw := patch.recurrenceRule.value;
      forall r ensures ParseTaskRule(raw) == Ok(r) <==> RuleFrom(raw, r) { RuleIs(raw, r); }
      if ParseTaskRule(raw).Ok? { SameTextIsSameRule(e.next.recurrenceRule, ParseTaskRule(raw).value); }
    }
  }

  lemma AskedInParts(p: TaskProps, patch: TaskPatch, q: TaskProps)
    requires Asked(p, patch, q)
    ensures Asked(p, patch.(recurrenceRule := None), q.(recurrenceRule := p.recurrenceRule))
  {
    hide TitleFrom, NotesFrom, RuleFrom;
  }

  lemma MergedAsAsked(p: TaskProps, patch: TaskPatch, newSeriesId: int, zones: Zones)
    ensures match Merged(p, patch, newSeriesId, zones)
            case Ok(e) => Asked(p, patch, e.next) && Permitted(p, e.next)
            case Err(_) => forall q :: Asked(p, patch, q) ==> !Permitted(p, q)
  {
    hide MergedFields, EditRule, Asked;
    FieldsAsked(p, patch, zones);
    match MergedFields(p, patch, zones) {
      case Err(_) =>
        forall q ensures !Asked(p, patch, q) { if Asked(p, patch, q) { AskedInParts(p, patch, q); } }
      case Ok(e) =>
        RuleAsked(p, e, patch, newSeriesId);
        if EditRule(e, patch, newSeriesId).Ok? {
          var f := EditRule(e, patch, newSeriesId).value;
          forall q | Asked(p, patch, q) ensures q.recurrenceRule == f.next.recurrenceRule && q.due == f.next.due {
            AskedOnce(p, patch, q, f.next);
          }
        }
    }
  }

  lemma AskedOnce(p: TaskProps, patch: TaskPatch, q: TaskProps, r: TaskProps)
    requires Asked(p, patch, q) && Asked(p, patch, r)
    ensures q.recurrenceRule == r.recurrenceRule && q.due == r.due
  {
    hide TitleFrom, NotesFrom, Text.ParseRule;
  }

  // An edit is accepted if and only if the task is open and what it asks for is in order, and the task then holds what
  // was asked; where nothing differs it is left alone, even if its due date was spelt another way.
  lemma EditIsAsAsked(p: TaskProps, patch: TaskPatch, now: int, newSeriesId: int, zones: Zones)
    ensures UpdateResult(p, patch, newSeriesId, zones).Ok? <==>
              p.state.Open? && exists q :: Asked(p, patch, q) && Permitted(p, q)
    ensures match UpdateResult(p, patch, newSeriesId, zones)
            case Err(_) => true
            case Ok(groups) =>
              if groups != {} then Asked(p, patch, Updated(p, patch, now, newSeriesId, zones))
              else exists due :: Asked(p, patch, p.(due := due)) && SameDue(due, p.due, zones)
  {
    hide Merged, Asked, SameDue, DueLocalDateTime;
    MergedAsAsked(p, patch, newSeriesId, zones);
    match Merged(p, patch, newSeriesId, zones) {
      case Err(_) =>
      case Ok(e) =>
        MergeIsEdit(p, patch, newSeriesId, zones);
        if p.state.Open? {
          if e.changed == {} {
            assert e.next == p.(due := e.next.due);
          } else {
            AskedIsAuthored(p, patch, e.next, Updated(p, patch, now, newSeriesId, zones));
          }
        }
    }
  }

  // A refusal of an edit names the first thing wrong: the task's state, the title or notes, the rule's text, a series
  // that is not this task's to change, a rule without a due date.
  lemma EditIsRefused(p: TaskProps, patch: TaskPatch, newSeriesId: int, zones: Zones)
    requires UpdateResult(p, patch, newSeriesId, zones).Err?
    ensures UpdateResult(p, patch, newSeriesId, zones).error
            == if !p.state.Open? then InvalidTransition(if p.state.Completed? then IsCompleted else IsCancelled, EditIt)
               else if (patch.title.Some? && forall t :: !TitleFrom(patch.title.value, t))
                       || (patch.notes.Some? && forall n :: !NotesFrom(patch.notes.value, n)) then NameRequired
               else if patch.recurrenceRule.Some? && forall r :: !RuleFrom(patch.recurrenceRule.value, r) then
                 RuleRefused(RuleError(patch.recurrenceRule.value))
               else if patch.recurrenceRule.Some? && p.seriesId.Some? && !p.isSeriesHead
                       && !RuleFrom(patch.recurrenceRule.value, p.recurrenceRule) then InvalidTransition(IsOpen, EditIt)
               else RecurrenceRequiresDue
  {
    hide ValidateTitle, NormaliseNotes, ParseTaskRule, TitleFrom, NotesFrom, RuleFrom, SameDue, DueLocalDateTime,
         RuleText, Noted, EditDue, EditCategory, EditPriority;
    if patch.title.Some? {
      var raw := patch.title.value;
      forall t ensures ValidateTitle(raw) == Ok(t) <==> TitleFrom(raw, t) { TitleIs(raw, t); }
      TitleIs(raw, "");
    }
    if patch.notes.Some? {
      var raw := patch.notes.value;
      forall n ensures NormaliseNotes(raw) == Ok(n) <==> NotesFrom(raw, n) { NotesAre(raw, n); }
      NotesAre(raw, None);
    }
    ChoicesKeepRule(p, patch, zones);
    if patch.recurrenceRule.Some? {
      var raw := patch.recurrenceRule.value;
      forall r ensures ParseTaskRule(raw) == Ok(r) <==> RuleFrom(raw, r) { RuleIs(raw, r); }
      RuleIs(raw, None);
      if ParseTaskRule(raw).Ok? { SameTextIsSameRule(p.recurrenceRule, ParseTaskRule(raw).value); }
    }
  }

  ghost function RuleError(raw: Option<string>): Text.RuleError {
    if raw.Some? && Text.ParseRule(raw.value).Err? then Text.ParseRule(raw.value).error
    else Text.RecurrenceUnsupported("")
  }

  lemma ChoicesKeepRule(p: TaskProps, patch: TaskPatch, zones: Zones)
    ensures forall e: Edit ::
              var f := EditDue(EditCategory(EditPriority(e, patch), patch), patch, zones).next;
              && f.recurrenceRule == e.next.recurrenceRule && f.seriesId == e.next.seriesId
              && f.isSeriesHead == e.next.isSeriesHead && f.state == e.next.state
  {
    hide SameDue, Noted;
  }

  lemma AskedIsAuthored(p: TaskProps, patch: TaskPatch, q: TaskProps, r: TaskProps)
    requires Asked(p, patch, q) && r == q.(version := r.version, updatedAt := r.updatedAt)
    ensures Asked(p, patch, r)
  {
    hide TitleFrom, NotesFrom, RuleFrom;
  }

  // --- Every operation ---------------------------------------------------------------------------------------------

  function TimeOf(op: Op): Option<int> {
    match op
    case Update(_, now, _) => Some(now)
    case Complete(_, now) => Some(now)
    case Reopen(now) => Some(now)
    case Cancel(_, now) => Some(now)
    case Assign(_, now) => Some(now)
    case Unassign(_, now) => Some(now)
    case _ => None
  }

  // Who a task is never changes; only edits touch what was authored, only its three transitions the state, only
  // assigning the assignees, and only the sweep the overdue marker. A change is dated, and nothing else is.
  lemma OperationsTouchTheirOwn(p: TaskProps, op: Op, zones: Zones)
    ensures var q := Step(p, op, zones);
            && q.id == p.id && q.familyId == p.familyId && q.predecessorId == p.predecessorId
            && q.createdByMemberId == p.createdByMemberId && q.createdAt == p.createdAt
            && (!op.Update? ==>
                  && q.title == p.title && q.notes == p.notes && q.priority == p.priority && q.category == p.category
                  && q.due == p.due && q.recurrenceRule == p.recurrenceRule
                  && q.recurrenceAnchor == p.recurrenceAnchor && q.seriesId == p.seriesId
                  && (q.isSeriesHead <==> p.isSeriesHead && !op.RelinquishHead?))
            && (!op.Assign? && !op.Unassign? ==> q.assignees == p.assignees)
            && (!op.Complete? && !op.Reopen? && !op.Cancel? ==> q.state == p.state)
            && (!op.RecordOverdueReported? ==> q.overdueReportedFor == p.overdueReportedFor)
            && (if IsChange(p, op, zones) then Some(q.updatedAt) == TimeOf(op) else q.updatedAt == p.updatedAt)
  {
    hide Updated, UpdateResult, DueMomentOf, SameDue, DueLocalDateTime;
    if op.Update? { UpdateIsAllOrNothing(p, op.patch, op.now, op.newSeriesId, zones); }
  }

  // A transition records who and when.
  lemma TransitionsAreRecorded(p: TaskProps, byMember: int, now: int, zones: Zones)
    ensures p.state.Open? ==> Step(p, Complete(byMember, now), zones).state == Completed(now, Some(byMember))
    ensures p.state.Open? ==> Step(p, Cancel(byMember, now), zones).state == Cancelled(now, Some(byMember))
    ensures p.state.Completed? ==> Step(p, Reopen(now), zones).state == Open
    ensures Step(p, RecordOverdueReported, zones).overdueReportedFor.Some? <==> p.due.Some?
    ensures p.due.Some? ==>
              Step(p, RecordOverdueReported, zones).overdueReportedFor == Some(DueMomentOf(p.due.value, zones))
  {
    hide DueMomentOf;
  }

  // Reopening undoes completing, and unassigning a new assignee undoes assigning, but for version and date.
  lemma CompletingIsUndone(p: TaskProps, byMember: int, now: int, later: int, zones: Zones)
    requires p.state.Open?
    ensures Run(p, [Complete(byMember, now), Reopen(later)], zones) == p.(version := p.version + 2, updatedAt := later)
  {
    hide Updated, DueMomentOf;
    TwoSteps(p, Complete(byMember, now), Reopen(later), zones);
  }

  lemma AssigningIsUndone(p: TaskProps, member: int, now: int, later: int, zones: Zones)
    requires p.state.Open? && member !in p.assignees
    ensures Run(p, [Assign(member, now), Unassign(member, later)], zones)
            == p.(version := p.version + 2, updatedAt := later)
  {
    hide Updated, DueMomentOf, Without, Run;
    TwoSteps(p, Assign(member, now), Unassign(member, later), zones);
    LastIsTakenOff(p.assignees, member);
  }

  lemma TwoSteps(p: TaskProps, first: Op, second: Op, zones: Zones)
    ensures Run(p, [first, second], zones) == Step(Step(p, first, zones), second, zones)
  {
    hide Step;
    var q := Step(p, first, zones);
    assert [first, second][1..] == [second] && [second][1..] == [];
    assert Run(q, [second], zones) == Run(Step(q, second, zones), [], zones);
  }

  lemma {:induction false} LastIsTakenOff(members: seq<int>, member: int)
    requires member !in members
    ensures Without(members + [member], member) == members
  {
    if members == [] {
      assert [member][1..] == [];
    } else {
      LastIsTakenOff(members[1..], member);
      assert (members + [member])[1..] == members[1..] + [member];
    }
  }

  // --- The same due date -------------------------------------------------------------------------------------------

  // Two due dates are the same if they are equal, or two times in one zone at one moment: a date is never the same as
  // another date, another kind or one in another zone.
  lemma SameDueIff(a: Due, b: Due, zones: Zones)
    requires Usable(DueLocalDateTime(a)) && Usable(DueLocalDateTime(b))
    requires Lawful(zones(a.timeZone)) && Lawful(zones(b.timeZone))
    ensures SameDue(Some(a), Some(b), zones) <==>
              || a == b
              || (a.AtTime? && b.AtTime? && a.timeZone == b.timeZone && DueMomentOf(a, zones) == DueMomentOf(b, zones))
    ensures !SameDue(None, Some(b), zones) && !SameDue(Some(a), None, zones) && SameDue(None, None, zones)
  {
    hide Lawful, Usable, DueMomentOf;
    if a.OnDate? && b.OnDate? && a.timeZone == b.timeZone && a.date != b.date { DatesEndApart(a, b, zones); }
  }

  lemma DatesEndApart(a: Due, b: Due, zones: Zones)
    requires Usable(DueLocalDateTime(a)) && Usable(DueLocalDateTime(b)) && Lawful(zones(a.timeZone))
    requires a.OnDate? && b.OnDate? && a.timeZone == b.timeZone && a.date != b.date
    ensures DueMomentOf(a, zones) != DueMomentOf(b, zones)
  {
    hide Lawful, DayNumber, MonthLength, FromEpochDay, ToEpochDay, Resolve, LocalToInstant;
    DayNumbersOrderDates(a.date, b.date);
    EndsOn(a, zones);
    EndsOn(b, zones);
    if DayNumber(a.date) < DayNumber(b.date) {
      ResolveAscends(DAY * (DayNumber(a.date) + 1), DAY * (DayNumber(b.date) + 1), zones(a.timeZone));
    } else {
      ResolveAscends(DAY * (DayNumber(b.date) + 1), DAY * (DayNumber(a.date) + 1), zones(a.timeZone));
    }
  }

  lemma EndsOn(a: Due, zones: Zones)
    requires Usable(DueLocalDateTime(a)) && Lawful(zones(a.timeZone)) && a.OnDate?
    ensures Gregorian(a.date)
    ensures DueMomentOf(a, zones) == 1000 * Resolve(DAY * (DayNumber(a.date) + 1), zones(a.timeZone))
  {
    hide Lawful, DayNumber, MonthLength, FromEpochDay, ToEpochDay, Resolve, LocalToInstant;
    UsableDays(a.date);
    ProperEpoch(a.date);
    var next := LocalDateTime(AddDays(a.date, 1), 0, 0, 0);
    UsableDays(next.date);
    UsableReading(next);
    ResolvesInSeconds(next, zones(a.timeZone));
  }
}

// All tasks of a family together: a series has one head at a time, and a task at most one successor.
module TaskBoard {
  import opened Prelude
  import opened Dues
  import opened Tasks
  import opened TaskRuns
  import opened Successors

  type Board = map<int, TaskProps>

  datatype BoardStep =
    | Add(params: NewTask)
    | Change(id: int, op: Op)
    | Close(id: int, how: Closing, byMember: int, now: int, successorId: int)

  ghost predicate FreshSeries(b: Board, seriesId: int) { forall i :: i in b ==> b[i].seriesId != Some(seriesId) }

  // Ids come fresh from the caller; a head gives up its flag only in closing.
  ghost predicate Allowed(b: Board, step: BoardStep) {
    match step
    case Add(params) => params.id !in b && FreshSeries(b, params.newSeriesId)
    case Change(id, op) => id in b && !op.RelinquishHead? && (op.Update? ==> FreshSeries(b, op.newSeriesId))
    case Close(id, _, _, _, successorId) => id in b && successorId !in b
  }

  ghost function Next(b: Board, step: BoardStep, zones: Zones): Board
    requires Allowed(b, step)
  {
    match step
    case Add(params) => (match Created(params) case Err(_) => b case Ok(p) => b[params.id := p])
    case Change(id, op) => b[id := Step(b[id], op, zones)]
    case Close(id, how, byMember, now, successorId) =>
      match CloseOutcome(b[id], how, byMember, now, successorId, zones)
      case Err(_) => b
      case Ok(Closed(task, None)) => b[id := task]
      case Ok(Closed(task, Some(successor))) => b[id := task][successorId := successor]
  }

  ghost predicate Runs(b: Board, steps: seq<BoardStep>, zones: Zones)
    decreases |steps|
  {
    steps == [] || (Allowed(b, steps[0]) && Runs(Next(b, steps[0], zones), steps[1..], zones))
  }

  ghost function After(b: Board, steps: seq<BoardStep>, zones: Zones): Board
    requires Runs(b, steps, zones)
    decreases |steps|
  {
    if steps == [] then b else After(Next(b, steps[0], zones), steps[1..], zones)
  }

  // --- What every step keeps ---------------------------------------------------------------------------------------

  ghost predicate TasksHaveShape(b: Board) { forall i :: i in b ==> Shape(b[i]) && b[i].id == i }

  ghost predicate Heads(b: Board, i: int, series: Option<int>) {
    i in b && b[i].isSeriesHead && b[i].seriesId == series
  }

  ghost predicate OneHead(b: Board) {
    forall i, j, series :: Heads(b, i, series) && Heads(b, j, series) ==> i == j
  }

  ghost predicate Follows(b: Board, i: int, x: int) { i in b && b[i].predecessorId == Some(x) }

  // A predecessor is a former head of the same series, and has one successor.
  ghost predicate OneSuccessor(b: Board) {
    && (forall i, x :: Follows(b, i, x) ==>
          x in b && !b[x].isSeriesHead && b[x].seriesId.Some? && b[i].seriesId == b[x].seriesId)
    && (forall i, j, x :: Follows(b, i, x) && Follows(b, j, x) ==> i == j)
  }

  ghost predicate Inv(b: Board) { TasksHaveShape(b) && OneHead(b) && OneSuccessor(b) }

  lemma AddKeeps(b: Board, p: TaskProps, seriesId: int)
    requires Inv(b) && p.id !in b && FreshSeries(b, seriesId) && Shape(p) && p.predecessorId == None
    requires p.isSeriesHead ==> p.seriesId == Some(seriesId)
    ensures Inv(b[p.id := p])
  {
    hide Shape;
    var c := b[p.id := p];
    forall i, series | Heads(c, i, series) && i != p.id ensures Heads(b, i, series) && series != Some(seriesId) {}
    forall i, x | Follows(c, i, x) ensures Follows(b, i, x) {}
  }

  // A task changed in place: it keeps what it follows, and becomes a head only of a series new to the board.
  lemma ChangeKeeps(b: Board, q: TaskProps)
    requires Inv(b) && q.id in b && Shape(q)
    requires var p := b[q.id];
             && q.predecessorId == p.predecessorId
             && (p.seriesId.Some? ==> q.seriesId == p.seriesId && (!p.isSeriesHead ==> !q.isSeriesHead))
             && (p.seriesId.None? && q.seriesId.Some? ==> FreshSeries(b, q.seriesId.value))
    ensures Inv(b[q.id := q])
  {
    hide Shape;
    var c, p := b[q.id := q], b[q.id];
    HeadsHaveSeries(b, p);
    HeadsHaveSeries(b, q);
    forall i, x ensures Follows(c, i, x) <==> Follows(b, i, x) {}
    forall i, x | Follows(c, i, x)
      ensures x in c && !c[x].isSeriesHead && c[x].seriesId.Some? && c[i].seriesId == c[x].seriesId
    {
      assert Follows(b, i, x);
    }
    forall i, j, series | Heads(c, i, series) && Heads(c, j, series) ensures i == j {
      if i == q.id && j != q.id { HeadStays(b, q, j, series); }
      if j == q.id && i != q.id { HeadStays(b, q, i, series); }
      if i != q.id && j != q.id { assert Heads(b, i, series) && Heads(b, j, series); }
    }
  }

  lemma HeadsHaveSeries(b: Board, p: TaskProps)
    requires Shape(p)
    ensures p.isSeriesHead ==> p.seriesId.Some?
  {}

  lemma HeadStays(b: Board, q: TaskProps, j: int, series: Option<int>)
    requires OneHead(b) && q.id in b && q.isSeriesHead && q.seriesId == series && series.Some?
    requires var p := b[q.id];
             && (p.seriesId.Some? ==> q.seriesId == p.seriesId && (!p.isSeriesHead ==> !q.isSeriesHead))
             && (p.seriesId.None? ==> FreshSeries(b, q.seriesId.value))
    ensures Heads(b, j, series) ==> j == q.id
  {
    if Heads(b, j, series) && b[q.id].seriesId.Some? { assert Heads(b, q.id, series); }
  }

  // The head closes without its flag, and its successor takes it.
  lemma HandOverKeeps(b: Board, p: TaskProps, q: TaskProps)
    requires Inv(b) && p.id in b && b[p.id].isSeriesHead && !p.isSeriesHead && Shape(p)
    requires p.seriesId == b[p.id].seriesId && p.predecessorId == b[p.id].predecessorId
    requires q.id !in b && Shape(q) && q.isSeriesHead && q.seriesId == p.seriesId && q.predecessorId == Some(p.id)
    ensures Inv(b[p.id := p][q.id := q])
  {
    hide Shape;
    var c := b[p.id := p][q.id := q];
    HeadsHaveSeries(b, q);
    assert Heads(b, p.id, p.seriesId);
    forall i, series | Heads(c, i, series) && i != q.id
      ensures Heads(b, i, series) && i != p.id && series != p.seriesId {}
    forall i, x | Follows(c, i, x) && i != q.id ensures Follows(b, i, x) && x != p.id {}
    forall i, x | Follows(c, i, x)
      ensures x in c && !c[x].isSeriesHead && c[x].seriesId.Some? && c[i].seriesId == c[x].seriesId
    {
      if i != q.id { assert Follows(b, i, x); }
    }
  }

  lemma CloseKeeps(b: Board, id: int, how: Closing, byMember: int, now: int, successorId: int, zones: Zones)
    requires Inv(b) && Allowed(b, Close(id, how, byMember, now, successorId))
    ensures Inv(Next(b, Close(id, how, byMember, now, successorId), zones))
  {
    hide OneHead, OneSuccessor, FirstAfter, DueMomentOf;
    match CloseOutcome(b[id], how, byMember, now, successorId, zones) {
      case Err(_) =>
      case Ok(Closed(task, None)) => ChangeKeeps(b, task);
      case Ok(Closed(task, Some(successor))) => HandOverKeeps(b, task, successor);
    }
  }

  lemma OpKeeps(b: Board, id: int, op: Op, zones: Zones)
    requires Inv(b) && Allowed(b, Change(id, op))
    ensures Inv(Next(b, Change(id, op), zones))
  {
    hide OneHead, OneSuccessor, Shape, Updated, DueMomentOf;
    StepKeepsShape(b[id], op, zones);
    if op.Update? { UpdateKeepsShape(b[id], op.patch, op.now, op.newSeriesId, zones); }
    ChangeKeeps(b, Step(b[id], op, zones));
  }

  lemma StepKeepsInv(b: Board, step: BoardStep, zones: Zones)
    requires Inv(b) && Allowed(b, step)
    ensures Inv(Next(b, step, zones))
  {
    hide Inv, Shape, Created;
    match step {
      case Add(params) =>
        match Created(params) {
          case Err(_) =>
          case Ok(p) =>
            CreatedHasShape(params);
            CreatedAs(params);
            AddKeeps(b, p, params.newSeriesId);
        }
      case Change(id, op) => OpKeeps(b, id, op, zones);
      case Close(id, how, byMember, now, successorId) => CloseKeeps(b, id, how, byMember, now, successorId, zones);
    }
  }

  lemma CreatedAs(params: NewTask)
    requires Created(params).Ok?
    ensures var p := Created(params).value;
            p.id == params.id && p.predecessorId == None && (p.isSeriesHead ==> p.seriesId == Some(params.newSeriesId))
  {
    hide ValidateTitle, NormaliseNotes, ParseTaskRule;
  }

  lemma {:induction false} RunsKeepInv(b: Board, steps: seq<BoardStep>, zones: Zones)
    requires Inv(b) && Runs(b, steps, zones)
    ensures Inv(After(b, steps, zones))
    decreases |steps|
  {
    hide Inv, Allowed, Next;
    if steps != [] {
      StepKeepsInv(b, steps[0], zones);
      RunsKeepInv(Next(b, steps[0], zones), steps[1..], zones);
    }
  }

  // Whatever members do, at most one task of a series is its head.
  lemma OneHeadPerSeries(steps: seq<BoardStep>, zones: Zones, i: int, j: int)
    requires Runs(map[], steps, zones)
    requires var b := After(map[], steps, zones);
             i in b && j in b && b[i].isSeriesHead && b[j].isSeriesHead && b[i].seriesId == b[j].seriesId
    ensures i == j
  {
    hide Allowed, Next, Shape, Runs, After;
    var b: Board := map[];
    RunsKeepInv(b, steps, zones);
    var after := After(map[], steps, zones);
    assert Heads(after, i, after[i].seriesId) && Heads(after, j, after[i].seriesId);
  }

  // No task is succeeded twice, not even one closed, reopened and closed again.
  lemma OneSuccessorPerTask(steps: seq<BoardStep>, zones: Zones, i: int, j: int)
    requires Runs(map[], steps, zones)
    requires var b := After(map[], steps, zones);
             i in b && j in b && b[i].predecessorId.Some? && b[i].predecessorId == b[j].predecessorId
    ensures i == j
  {
    hide Allowed, Next, Shape, Runs, After;
    var b: Board := map[];
    RunsKeepInv(b, steps, zones);
    var after := After(map[], steps, zones);
    var x := after[i].predecessorId.value;
    assert Follows(after, i, x) && Follows(after, j, x);
  }

  // --- What a closing does -----------------------------------------------------------------------------------------

  // Everything authored is carried forward to the successor, which is a new open task, the next of its series.
  ghost predicate CarriesForward(p: TaskProps, q: TaskProps, id: int, due: Due, byMember: int, now: int) {
    && q == p.(id := id, due := Some(due), predecessorId := Some(p.id), isSeriesHead := true, state := Open,
               overdueReportedFor := None, createdByMemberId := Some(byMember), version := 1, createdAt := now,
               updatedAt := now)
  }

  // A closing is refused for a task that is not open, and when the search for the successor's due date is; otherwise
  // the task records how it was closed, by whom and when. It has a successor if and only if it was not the whole series
  // that was cancelled and the successor rule gives a due date, and only then does it give up its flag.
  lemma ClosingIs(p: TaskProps, how: Closing, byMember: int, now: int, successorId: int, zones: Zones)
    ensures var outcome := CloseOutcome(p, how, byMember, now, successorId, zones);
            var next := if how.CancellingSeries? then Ok(None) else SuccessorDueOf(p, now, zones);
            && (outcome.Ok? <==> p.state.Open? && next.Ok?)
            && (outcome.Err? ==>
                  outcome.error == if !p.state.Open? then TaskRefused(InvalidTransition(StatusOf(p.state),
                                                            if how.Completing? then CompleteIt else CancelIt))
                                   else Dense(next.error))
            && (outcome.Ok? ==>
                  var q := outcome.value.task;
                  && q == p.(state := if how.Completing? then Completed(now, Some(byMember))
                                      else Cancelled(now, Some(byMember)),
                             version := p.version + 1, updatedAt := now, isSeriesHead := q.isSeriesHead)
                  && (q.isSeriesHead <==> p.isSeriesHead && outcome.value.successor.None?)
                  && (outcome.value.successor.Some? <==> next.value.Some?)
                  && (next.value.Some? ==>
                        CarriesForward(p, outcome.value.successor.value, successorId, next.value.value, byMember, now)))
  {
    hide FirstAfter, DueMomentOf;
  }

  // --- A cancelled series ------------------------------------------------------------------------------------------

  // The cancelled head of a series that has ended.
  ghost predicate Ended(b: Board, id: int, series: int) {
    id in b && b[id].isSeriesHead && b[id].state.Cancelled? && b[id].seriesId == Some(series)
  }

  ghost function InSeries(b: Board, series: int): set<int> { set i | i in b && b[i].seriesId == Some(series) }

  lemma EndedStays(b: Board, step: BoardStep, zones: Zones, id: int, series: int)
    requires Inv(b) && Allowed(b, step) && Ended(b, id, series)
    ensures var c := Next(b, step, zones);
            && Ended(c, id, series) && c[id].state == b[id].state && InSeries(c, series) == InSeries(b, series)
  {
    hide OneSuccessor, TasksHaveShape, Created, Step, CloseOutcome;
    match step {
      case Add(params) => if Created(params).Ok? { CreatedAs(params); CreatedHasShape(params); }
      case Change(other, op) => ChangeStays(b, other, op, zones, id, series);
      case Close(other, how, byMember, now, successorId) =>
        CloseStays(b, other, how, byMember, now, successorId, zones, id, series);
    }
  }

  lemma ChangeStays(b: Board, other: int, op: Op, zones: Zones, id: int, series: int)
    requires Inv(b) && Allowed(b, Change(other, op)) && Ended(b, id, series)
    ensures var q := Step(b[other], op, zones);
            && (q.seriesId == Some(series) <==> b[other].seriesId == Some(series))
            && (other == id ==> q.isSeriesHead && q.state == b[id].state)
  {
    hide OneHead, OneSuccessor, Updated, DueMomentOf, Shape;
    StepKeepsShape(b[other], op, zones);
    if op.Update? { UpdateKeepsShape(b[other], op.patch, op.now, op.newSeriesId, zones); }
    if other == id { CancelledKeepsFlag(b[id], op, zones); }
  }

  lemma CancelledKeepsFlag(p: TaskProps, op: Op, zones: Zones)
    requires p.state.Cancelled? && !op.RelinquishHead?
    ensures Step(p, op, zones).isSeriesHead == p.isSeriesHead && Step(p, op, zones).state == p.state
  {
    hide DueMomentOf;
  }

  lemma CloseStays(b: Board, other: int, how: Closing, byMember: int, now: int, successorId: int, zones: Zones, id: int,
                   series: int)
    requires Inv(b) && Allowed(b, Close(other, how, byMember, now, successorId)) && Ended(b, id, series)
    ensures match CloseOutcome(b[other], how, byMember, now, successorId, zones)
            case Err(_) => true
            case Ok(Closed(task, successor)) =>
              && other != id && task.seriesId == b[other].seriesId
              && (successor.Some? ==> successor.value.seriesId != Some(series))
  {
    hide OneSuccessor, CloseOutcome, SuccessorDueOf, Shape;
    ClosingIs(b[other], how, byMember, now, successorId, zones);
    NoSuccessorUnlessHead(b[other], now, zones);
    if b[other].isSeriesHead && b[other].seriesId == Some(series) {
      assert Heads(b, other, Some(series)) && Heads(b, id, Some(series));
    }
  }

  lemma NoSuccessorUnlessHead(p: TaskProps, now: int, zones: Zones)
    ensures !p.isSeriesHead ==> SuccessorDueOf(p, now, zones) == Ok(None)
  {}

  lemma {:induction false} EndedForGood(b: Board, steps: seq<BoardStep>, zones: Zones, id: int, series: int)
    requires Inv(b) && Runs(b, steps, zones) && Ended(b, id, series)
    ensures var c := After(b, steps, zones);
            && Ended(c, id, series) && c[id].state == b[id].state && InSeries(c, series) == InSeries(b, series)
    decreases |steps|
  {
    hide Inv, Allowed, Next, Ended, InSeries;
    if steps != [] {
      StepKeepsInv(b, steps[0], zones);
      EndedStays(b, steps[0], zones, id, series);
      IsOnBoard(Next(b, steps[0], zones), id, series);
      EndedForGood(Next(b, steps[0], zones), steps[1..], zones, id, series);
    }
    IsOnBoard(After(b, steps, zones), id, series);
  }

  lemma IsOnBoard(b: Board, id: int, series: int)
    ensures Ended(b, id, series) ==> id in b
  {}

  // Cancelling a whole series ends it for good: it is accepted of every open head, the row stays cancelled by that
  // member at that time and keeps its flag, and whatever is done on the board afterwards the series gains no task.
  lemma CancelledSeriesIsOver(before: seq<BoardStep>, id: int, byMember: int, now: int, successorId: int,
                              later: seq<BoardStep>, zones: Zones)
    requires Runs(map[], before, zones)
    requires var b := After(map[], before, zones);
             && id in b && b[id].isSeriesHead && b[id].state.Open? && successorId !in b
             && Runs(Next(b, Close(id, CancellingSeries, byMember, now, successorId), zones), later, zones)
    ensures var b := After(map[], before, zones);
            var c := After(Next(b, Close(id, CancellingSeries, byMember, now, successorId), zones), later, zones);
            && b[id].seriesId.Some? && id in c && c[id].isSeriesHead && c[id].seriesId == b[id].seriesId
            && c[id].state == Cancelled(now, Some(byMember))
            && InSeries(c, b[id].seriesId.value) == InSeries(b, b[id].seriesId.value)
  {
    hide Runs, After, CloseOutcome, OneHead, OneSuccessor, InSeries;
    var empty: Board := map[];
    EmptyIsSound(empty);
    RunsKeepInv(empty, before, zones);
    var b := After(map[], before, zones);
    HeadsHaveSeries(b, b[id]);
    var series := b[id].seriesId.value;
    ClosingIs(b[id], CancellingSeries, byMember, now, successorId, zones);
    var c := Next(b, Close(id, CancellingSeries, byMember, now, successorId), zones);
    StepKeepsInv(b, Close(id, CancellingSeries, byMember, now, successorId), zones);
    SameSeries(b, c, id, series);
    EndedForGood(c, later, zones, id, series);
  }

  lemma EmptyIsSound(b: Board)
    requires b == map[]
    ensures Inv(b)
  {}

  lemma SameSeries(b: Board, c: Board, id: int, series: int)
    requires id in b && id in c && c == b[id := c[id]] && c[id].seriesId == b[id].seriesId
    ensures InSeries(c, series) == InSeries(b, series)
  {}
}

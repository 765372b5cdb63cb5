// apps/worker/src/scheduler/scheduler.ts: a timer chain per sweep on one event loop, with a start and a stop that may
// be called at any time.
module SweepScheduler {
  import opened Prelude

  const STALL_CADENCE_MULTIPLE: int := 3

  // `timer`, `inFlight`, `running` and the two stall fields are the scheduler's own; `pending` and `live` are the
  // timers the event loop will still fire and the runs still going on.
  datatype Sweep = Sweep(
    cadence: int, timer: Option<int>, inFlight: bool, running: Option<int>, lastSuccessAt: Option<int>,
    stallReported: bool, pending: set<int>, live: set<int>)

  // `stops` are the stop calls still waiting, each for the runs it found in flight.
  datatype State = State(started: bool, stopping: bool, sweeps: seq<Sweep>, stops: map<int, set<int>>, nextId: int)

  datatype Step =
    | Start
    | StopBegins(call: int)
    | StopDone(call: int)
    | StopTimesOut(call: int)
    | TimerFires(sweep: nat, timer: int)
    | RunSettles(sweep: nat, run: int, ok: bool, now: int)
    | CheckStalled(sweep: nat, now: int)

  // --- What each event does ----------------------------------------------------------------------------------------

  function Armed(s: Sweep, stopping: bool, id: int): Sweep {
    if stopping then s else s.(timer := Some(id), pending := s.pending + {id})
  }

  function Disarmed(s: Sweep): Sweep {
    match s.timer case None => s case Some(id) => s.(timer := None, pending := s.pending - {id})
  }

  function AllArmed(sweeps: seq<Sweep>, nextId: int): (r: seq<Sweep>)
    ensures |r| == |sweeps| && forall i :: 0 <= i < |r| ==> r[i] == Armed(sweeps[i], false, nextId + i)
  {
    seq(|sweeps|, i requires 0 <= i < |sweeps| => Armed(sweeps[i], false, nextId + i))
  }

  function AllDisarmed(sweeps: seq<Sweep>): (r: seq<Sweep>)
    ensures |r| == |sweeps| && forall i :: 0 <= i < |r| ==> r[i] == Disarmed(sweeps[i])
  {
    seq(|sweeps|, i requires 0 <= i < |sweeps| => Disarmed(sweeps[i]))
  }

  function RunningIn(sweeps: seq<Sweep>): (r: set<int>)
    ensures forall id :: id in r <==> exists i :: 0 <= i < |sweeps| && sweeps[i].running == Some(id)
  {
    set i | 0 <= i < |sweeps| && sweeps[i].running.Some? :: sweeps[i].running.value
  }

  // The timer's callback: the tick, up to where its run goes on by itself. The next tick is armed before the run.
  function Ticked(s: Sweep, stopping: bool, timer: int, nextId: int): Sweep {
    var fired := s.(timer := None, pending := s.pending - {timer});
    if stopping then fired
    else
      var armed := Armed(fired, stopping, nextId);
      if armed.inFlight then armed
      else armed.(inFlight := true, running := Some(nextId + 1), live := armed.live + {nextId + 1})
  }

  function Settled(s: Sweep, run: int, ok: bool, now: int): Sweep {
    var done := s.(inFlight := false, running := None, live := s.live - {run});
    if ok then done.(lastSuccessAt := Some(now), stallReported := false) else done
  }

  predicate Stalled(s: Sweep, now: int) {
    s.lastSuccessAt.Some? && now - s.lastSuccessAt.value > s.cadence * STALL_CADENCE_MULTIPLE
  }

  function Checked(s: Sweep, now: int): Sweep { if Stalled(s, now) then s.(stallReported := true) else s }

  predicate IsLive(sweeps: seq<Sweep>, run: int) { exists i :: 0 <= i < |sweeps| && run in sweeps[i].live }

  predicate Enabled(s: State, step: Step) {
    match step
    case Start => true
    case StopBegins(k) => k !in s.stops
    case StopDone(k) => k in s.stops && forall run :: run in s.stops[k] ==> !IsLive(s.sweeps, run)
    case StopTimesOut(k) => k in s.stops
    case TimerFires(i, id) => i < |s.sweeps| && id in s.sweeps[i].pending
    case RunSettles(i, run, _, _) => i < |s.sweeps| && run in s.sweeps[i].live
    case CheckStalled(i, _) => i < |s.sweeps|
  }

  // A start while started throws and changes nothing. A stop that finds nothing running returns at once.
  function Next(s: State, step: Step): State
    requires Enabled(s, step)
  {
    match step
    case Start =>
      if s.started then s
      else s.(started := true, stopping := false, sweeps := AllArmed(s.sweeps, s.nextId),
              nextId := s.nextId + |s.sweeps|)
    case StopBegins(k) =>
      var running := RunningIn(s.sweeps);
      if running == {} then s.(started := false, stopping := true, sweeps := AllDisarmed(s.sweeps))
      else s.(stopping := true, sweeps := AllDisarmed(s.sweeps), stops := s.stops[k := running])
    case StopDone(k) => s.(started := false, stops := s.stops - {k})
    case StopTimesOut(k) => s.(started := false, stops := s.stops - {k})
    case TimerFires(i, id) =>
      s.(sweeps := s.sweeps[i := Ticked(s.sweeps[i], s.stopping, id, s.nextId)], nextId := s.nextId + 2)
    case RunSettles(i, run, ok, now) => s.(sweeps := s.sweeps[i := Settled(s.sweeps[i], run, ok, now)])
    case CheckStalled(i, now) => s.(sweeps := s.sweeps[i := Checked(s.sweeps[i], now)])
  }

  function Idle(cadence: int): Sweep { Sweep(cadence, None, false, None, None, false, {}, {}) }

  function Initial(cadences: seq<int>): State {
    State(false, false, seq(|cadences|, i requires 0 <= i < |cadences| => Idle(cadences[i])), map[], 0)
  }

  class Scheduler {
    var started: bool
    var stopping: bool
    var states: seq<Sweep>
    var stops: map<int, set<int>>
    var nextId: int

    function Abstract(): State
      reads this
    {
      State(started, stopping, states, stops, nextId)
    }

    constructor (cadences: seq<int>)
      ensures Abstract() == Initial(cadences)
    {
      started, stopping := false, false;
      states := seq(|cadences|, i requires 0 <= i < |cadences| => Idle(cadences[i]));
      stops := map[];
      nextId := 0;
    }

    method Start() returns (thrown: bool)
      modifies this
      ensures thrown == old(started) && Abstract() == Next(old(Abstract()), Step.Start)
    {
      if started { return true; }
      started := true;
      stopping := false;
      ghost var before, id := states, nextId;
      for i := 0 to |states|
        invariant |states| == |before| && started && !stopping && stops == old(stops) && nextId == id + i
        invariant forall j :: 0 <= j < i ==> states[j] == Armed(before[j], false, id + j)
        invariant forall j :: i <= j < |states| ==> states[j] == before[j]
      {
        Arm(i);
      }
      assert states == AllArmed(before, id);
      return false;
    }

    // setTimeout, unless stopping.
    method Arm(i: nat)
      requires i < |states|
      modifies this`states, this`nextId
      ensures states == old(states)[i := Armed(old(states)[i], stopping, old(nextId))] && nextId == old(nextId) + 1
    {
      states := states[i := Armed(states[i], stopping, nextId)];
      nextId := nextId + 1;
    }

    // The part of a stop call before it waits: the answer, if it need not.
    method BeginStop(call: int) returns (answer: Option<bool>)
      requires call !in stops
      modifies this
      ensures Abstract() == Next(old(Abstract()), StopBegins(call))
      ensures answer == if RunningIn(old(states)) == {} then Some(true) else None
    {
      stopping := true;
      ghost var before := states;
      for i := 0 to |states|
        invariant |states| == |before| && stopping && started == old(started) && stops == old(stops)
                  && nextId == old(nextId)
        invariant forall j :: 0 <= j < i ==> states[j] == Disarmed(before[j])
        invariant forall j :: i <= j < |states| ==> states[j] == before[j]
      {
        if states[i].timer.Some? { states := states[i := Disarmed(states[i])]; }
      }
      assert states == AllDisarmed(before);
      var running := RunningIn(states);
      assert running == RunningIn(before);
      if running == {} {
        started := false;
        return Some(true);
      }
      stops := stops[call := running];
      return None;
    }

    // The rest of it, once its runs are done or its deadline has passed.
    method EndStop(call: int, timedOut: bool) returns (answer: bool)
      requires Enabled(Abstract(), if timedOut then StopTimesOut(call) else StopDone(call))
      modifies this
      ensures Abstract() == Next(old(Abstract()), if timedOut then StopTimesOut(call) else StopDone(call))
      ensures answer == !timedOut
    {
      stops := stops - {call};
      started := false;
      answer := !timedOut;
    }

    method Fire(i: nat, timer: int)
      requires Enabled(Abstract(), TimerFires(i, timer))
      modifies this
      ensures Abstract() == Next(old(Abstract()), TimerFires(i, timer))
    {
      states := states[i := states[i].(timer := None, pending := states[i].pending - {timer})];
      if stopping {
        nextId := nextId + 2;
        return;
      }
      Arm(i);
      if !states[i].inFlight {
        var run := nextId;
        states := states[i := states[i].(inFlight := true, running := Some(run), live := states[i].live + {run})];
      }
      nextId := nextId + 1;
    }

    method Settle(i: nat, run: int, ok: bool, now: int)
      requires Enabled(Abstract(), RunSettles(i, run, ok, now))
      modifies this
      ensures Abstract() == Next(old(Abstract()), RunSettles(i, run, ok, now))
    {
      if ok { states := states[i := states[i].(lastSuccessAt := Some(now), stallReported := false)]; }
      states := states[i := states[i].(inFlight := false, running := None, live := states[i].live - {run})];
    }

    method CheckStall(i: nat, now: int) returns (alert: bool)
      requires Enabled(Abstract(), CheckStalled(i, now))
      modifies this
      ensures Abstract() == Next(old(Abstract()), CheckStalled(i, now))
      ensures alert == (Stalled(old(states)[i], now) && !old(states)[i].stallReported)
    {
      alert := Stalled(states[i], now) && !states[i].stallReported;
      if alert { states := states[i := states[i].(stallReported := true)]; }
    }
  }
}

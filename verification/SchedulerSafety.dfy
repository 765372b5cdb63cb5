// What the scheduler keeps over every interleaving of its timers, run completions, starts and stops.
module SchedulerSafety {
  import opened Prelude
  import opened SweepScheduler

  ghost predicate Runs(s: State, steps: seq<Step>)
    decreases |steps|
  {
    steps == [] || (Enabled(s, steps[0]) && Runs(Next(s, steps[0]), steps[1..]))
  }

  ghost function After(s: State, steps: seq<Step>): State
    requires Runs(s, steps)
    decreases |steps|
  {
    if steps == [] then s else After(Next(s, steps[0]), steps[1..])
  }

  // --- Whatever is called when -------------------------------------------------------------------------------------

  // One run of a sweep at a time, known to the scheduler while it lasts.
  ghost predicate OneRun(s: Sweep, nextId: int) {
    && s.inFlight == s.running.Some?
    && s.live == (if s.running.Some? then {s.running.value} else {})
    && (forall id :: id in s.live || id in s.pending ==> id < nextId)
    && (s.timer.Some? ==> s.timer.value < nextId)
  }

  // While it is started and not stopping, every sweep has a tick to come, however its runs end.
  ghost predicate Sound(s: State) {
    && (forall i :: 0 <= i < |s.sweeps| ==> OneRun(s.sweeps[i], s.nextId))
    && (s.started && !s.stopping ==> forall i :: 0 <= i < |s.sweeps| ==> s.sweeps[i].pending != {})
    && RunsAreApart(s)
    && AwaitedWereBegun(s)
  }

  // A run belongs to one sweep.
  ghost predicate RunsAreApart(s: State) {
    forall i, j, run :: 0 <= i < |s.sweeps| && 0 <= j < |s.sweeps| ==>
      run in s.sweeps[i].live && run in s.sweeps[j].live ==> i == j
  }

  // A stop waits for runs that were begun before it.
  ghost predicate AwaitedWereBegun(s: State) {
    forall k, run :: k in s.stops && run in s.stops[k] ==> run < s.nextId
  }

  lemma StepKeepsOneRun(s: State, step: Step, i: nat)
    requires Sound(s) && Enabled(s, step) && i < |s.sweeps|
    ensures var next := Next(s, step);
            |next.sweeps| == |s.sweeps| && OneRun(next.sweeps[i], next.nextId)
            && (next.started && !next.stopping ==> next.sweeps[i].pending != {})
    ensures forall run :: run in Next(s, step).sweeps[i].live ==> run in s.sweeps[i].live || run == s.nextId + 1
    ensures s.nextId + 1 in Next(s, step).sweeps[i].live ==> step.TimerFires? && step.sweep == i
  {
    hide RunsAreApart, AwaitedWereBegun;
    assert OneRun(s.sweeps[i], s.nextId);
  }

  lemma StepKeepsSound(s: State, step: Step)
    requires Sound(s) && Enabled(s, step)
    ensures Sound(Next(s, step))
  {
    hide Next, Enabled, OneRun, AwaitedWereBegun;
    forall i | 0 <= i < |Next(s, step).sweeps| || 0 <= i < |s.sweeps|
      ensures i < |s.sweeps| == |Next(s, step).sweeps| && OneRun(Next(s, step).sweeps[i], Next(s, step).nextId)
      ensures Next(s, step).started && !Next(s, step).stopping ==> Next(s, step).sweeps[i].pending != {}
      ensures forall run :: run in Next(s, step).sweeps[i].live ==> run in s.sweeps[i].live || run == s.nextId + 1
      ensures s.nextId + 1 in Next(s, step).sweeps[i].live ==> step.TimerFires? && step.sweep == i
    {
      SweepsStay(s, step);
      StepKeepsOneRun(s, step, i);
    }
    FreshRun(s);
    AwaitedStayBegun(s, step);
  }

  lemma AwaitedStayBegun(s: State, step: Step)
    requires Sound(s) && Enabled(s, step)
    ensures AwaitedWereBegun(Next(s, step))
  {
    hide RunsAreApart, IsLive;
    forall k, run | k in Next(s, step).stops && run in Next(s, step).stops[k]
      ensures run < s.nextId <= Next(s, step).nextId
    {
      if k !in s.stops {
        var i :| 0 <= i < |s.sweeps| && s.sweeps[i].running == Some(run);
        assert OneRun(s.sweeps[i], s.nextId);
      }
    }
  }

  lemma SweepsStay(s: State, step: Step)
    requires Enabled(s, step)
    ensures |Next(s, step).sweeps| == |s.sweeps|
  {}

  lemma FreshRun(s: State)
    requires Sound(s)
    ensures forall i :: 0 <= i < |s.sweeps| ==> s.nextId + 1 !in s.sweeps[i].live
  {
    forall i | 0 <= i < |s.sweeps| ensures s.nextId + 1 !in s.sweeps[i].live { assert OneRun(s.sweeps[i], s.nextId); }
  }

  lemma {:induction false} RunsKeepSound(s: State, steps: seq<Step>)
    requires Sound(s) && Runs(s, steps)
    ensures Sound(After(s, steps))
    decreases |steps|
  {
    hide Sound, Enabled, Next;
    if steps != [] {
      StepKeepsSound(s, steps[0]);
      RunsKeepSound(Next(s, steps[0]), steps[1..]);
    }
  }

  lemma InitialIsSound(cadences: seq<int>)
    ensures Sound(Initial(cadences))
  {}

  // At most one run of a sweep is ever in flight, and none begins while the scheduler is stopping.
  lemma NeverTwoRuns(cadences: seq<int>, steps: seq<Step>, step: Step, i: nat)
    requires Runs(Initial(cadences), steps) && i < |After(Initial(cadences), steps).sweeps|
    requires Enabled(After(Initial(cadences), steps), step)
    ensures var s := After(Initial(cadences), steps);
            && |s.sweeps[i].live| <= 1 && |Next(s, step).sweeps| == |s.sweeps|
            && (!(Next(s, step).sweeps[i].live <= s.sweeps[i].live) ==> !s.stopping && s.sweeps[i].live == {})
  {
    hide Runs, After;
    InitialIsSound(cadences);
    RunsKeepSound(Initial(cadences), steps);
  }

  // A sweep that throws has its next tick armed all the same.
  lemma ThrowingSweepTicksAgain(cadences: seq<int>, steps: seq<Step>, i: nat, run: int, now: int)
    requires Runs(Initial(cadences), steps)
    requires Enabled(After(Initial(cadences), steps), RunSettles(i, run, false, now))
    ensures var s := After(Initial(cadences), steps);
            s.started && !s.stopping ==> Next(s, RunSettles(i, run, false, now)).sweeps[i].pending != {}
  {
    hide Runs, After;
    InitialIsSound(cadences);
    RunsKeepSound(Initial(cadences), steps);
  }

  // --- One stop at a time ------------------------------------------------------------------------------------------

  // A start that is taken up finds no stop call still waiting.
  ghost predicate Orderly(s: State, step: Step) { step.Start? ==> s.started || s.stops == map[] }

  ghost predicate OrderlyRuns(s: State, steps: seq<Step>)
    requires Runs(s, steps)
    decreases |steps|
  {
    steps == [] || (Orderly(s, steps[0]) && OrderlyRuns(Next(s, steps[0]), steps[1..]))
  }

  // The scheduler knows the one timer a sweep has.
  ghost predicate OneTimer(s: Sweep) { s.pending == if s.timer.Some? then {s.timer.value} else {} }

  ghost predicate Quiet(s: State) { forall i :: 0 <= i < |s.sweeps| ==> s.sweeps[i].timer == None }

  // A waiting stop keeps the scheduler stopping and without timers, and waits for every run there is.
  ghost predicate Kept(s: State) {
    && Sound(s)
    && (forall i :: 0 <= i < |s.sweeps| ==> OneTimer(s.sweeps[i]))
    && (!s.started || s.stops != map[] ==> Quiet(s))
    && (s.stops != map[] ==> s.stopping)
    && (forall k, run :: k in s.stops && IsLive(s.sweeps, run) ==> run in s.stops[k])
  }

  lemma LiveAfter(s: State, step: Step, run: int)
    requires Sound(s) && Enabled(s, step) && IsLive(Next(s, step).sweeps, run)
    ensures IsLive(s.sweeps, run) || (step.TimerFires? && !s.stopping)
  {
    var i :| 0 <= i < |Next(s, step).sweeps| && run in Next(s, step).sweeps[i].live;
    assert run in s.sweeps[i].live || (step.TimerFires? && !s.stopping);
  }

  lemma LiveIsRunning(s: State, run: int)
    requires Sound(s) && IsLive(s.sweeps, run)
    ensures run in RunningIn(s.sweeps)
  {
    var i :| 0 <= i < |s.sweeps| && run in s.sweeps[i].live;
    assert OneRun(s.sweeps[i], s.nextId);
  }

  lemma StopsAfter(s: State, step: Step, k: int)
    requires Enabled(s, step) && k in Next(s, step).stops
    ensures (k in s.stops && Next(s, step).stops[k] == s.stops[k])
            || (step == StopBegins(k) && Next(s, step).stops[k] == RunningIn(s.sweeps))
    ensures k in s.stops || step.StopBegins?
  {}

  lemma TimersAfter(s: State, step: Step)
    requires Kept(s) && Enabled(s, step) && Orderly(s, step)
    ensures var next := Next(s, step);
            && (forall i :: 0 <= i < |next.sweeps| ==> OneTimer(next.sweeps[i]))
            && (!next.started || next.stops != map[] ==> Quiet(next))
            && (next.stops != map[] ==> next.stopping)
  {
    hide IsLive, RunningIn, OneRun;
    var next := Next(s, step);
    forall i | 0 <= i < |next.sweeps| ensures OneTimer(next.sweeps[i]) {
      assert OneTimer(s.sweeps[i]);
    }
  }

  lemma StepKeeps(s: State, step: Step)
    requires Kept(s) && Enabled(s, step) && Orderly(s, step)
    ensures Kept(Next(s, step))
  {
    hide IsLive, RunningIn, OneRun, OneTimer, Quiet, Sound, Next, Enabled;
    var next := Next(s, step);
    StepKeepsSound(s, step);
    TimersAfter(s, step);
    forall k, run | k in next.stops && IsLive(next.sweeps, run) ensures run in next.stops[k] {
      StopsAfter(s, step, k);
      LiveAfter(s, step, run);
      LiveIsRunning(next, run);
      if IsLive(s.sweeps, run) { LiveIsRunning(s, run); }
    }
  }

  lemma {:induction false} RunsKeep(s: State, steps: seq<Step>)
    requires Kept(s) && Runs(s, steps) && OrderlyRuns(s, steps)
    ensures Kept(After(s, steps))
    decreases |steps|
  {
    hide Kept, Enabled, Next, Orderly;
    if steps != [] {
      StepKeeps(s, steps[0]);
      RunsKeep(Next(s, steps[0]), steps[1..]);
    }
  }

  lemma InitialIsKept(cadences: seq<int>)
    ensures Kept(Initial(cadences))
  {
    hide IsLive;
    assert forall run :: !IsLive(Initial(cadences).sweeps, run) by {
      forall run ensures !IsLive(Initial(cadences).sweeps, run) { NoneLive(cadences, run); }
    }
  }

  lemma NoneLive(cadences: seq<int>, run: int)
    ensures !IsLive(Initial(cadences).sweeps, run)
  {}

  ghost predicate Faithful(s: State) {
    && (forall i :: 0 <= i < |s.sweeps| ==> |s.sweeps[i].pending| <= 1)
    && (forall k :: k in s.stops && Enabled(s, StopDone(k)) ==> forall run :: !IsLive(s.sweeps, run))
  }

  lemma KeptIsFaithful(s: State)
    requires Kept(s)
    ensures Faithful(s)
  {
    hide Sound, IsLive;
    forall i | 0 <= i < |s.sweeps| ensures |s.sweeps[i].pending| <= 1 { assert OneTimer(s.sweeps[i]); }
  }

  // The states an orderly run reaches.
  ghost predicate Reachable(s: State) { exists cadences :: ReachableFrom(cadences, s) }

  ghost predicate ReachableFrom(cadences: seq<int>, s: State) {
    exists steps ::
      Runs(Initial(cadences), steps) && OrderlyRuns(Initial(cadences), steps) && After(Initial(cadences), steps) == s
  }

  lemma ReachableIsKept(s: State)
    requires Reachable(s)
    ensures Kept(s)
  {
    hide Kept, OrderlyRuns;
    var cadences :| ReachableFrom(cadences, s);
    var steps :|
      Runs(Initial(cadences), steps) && OrderlyRuns(Initial(cadences), steps) && After(Initial(cadences), steps) == s;
    InitialIsKept(cadences);
    RunsKeep(Initial(cadences), steps);
  }

  lemma OneTimerPerSweep(s: State, i: nat)
    requires Reachable(s) && i < |s.sweeps|
    ensures |s.sweeps[i].pending| <= 1
  {
    hide Reachable, Kept;
    ReachableIsKept(s);
    KeptIsFaithful(s);
  }

  // When a stop answers that all is done, at once or after waiting, no run of any sweep is in flight.
  lemma StopTellsTheTruth(s: State, step: Step)
    requires Reachable(s) && Enabled(s, step)
    requires step.StopDone? || (step.StopBegins? && RunningIn(s.sweeps) == {})
    ensures forall run :: !IsLive(Next(s, step).sweeps, run)
  {
    hide Reachable, IsLive, RunningIn, Kept, Next;
    ReachableIsKept(s);
    KeptIsFaithful(s);
    KeptIsSound(s);
    forall run ensures !IsLive(Next(s, step).sweeps, run) {
      if IsLive(Next(s, step).sweeps, run) {
        LiveAfter(s, step, run);
        LiveIsRunning(s, run);
      }
    }
  }

  lemma KeptIsSound(s: State)
    requires Kept(s)
    ensures Sound(s) && (s.stops != map[] ==> s.stopping && Quiet(s))
  {
    hide Sound, IsLive;
  }

  // A stop that has answered, at once, in time or not, leaves no timer and a scheduler that can be started again, with
  // a tick to come for every sweep; before that a start throws.
  lemma StoppedCanStartAgain(s: State, step: Step)
    requires Reachable(s) && Enabled(s, step)
    requires step.StopDone? || step.StopTimesOut? || (step.StopBegins? && RunningIn(s.sweeps) == {})
    ensures var t := Next(s, step);
            && !t.started && Quiet(t) && (forall i :: 0 <= i < |t.sweeps| ==> t.sweeps[i].pending == {})
            && |Next(t, Start).sweeps| == |t.sweeps| && Next(t, Start).started && !Next(t, Start).stopping
            && forall i :: 0 <= i < |t.sweeps| ==> Next(t, Start).sweeps[i].pending != {}
    ensures s.started ==> Next(s, Start) == s
  {
    hide Reachable, IsLive, RunningIn, Sound;
    ReachableIsKept(s);
    StepKeeps(s, step);
    var t := Next(s, step);
    forall i | 0 <= i < |t.sweeps|
      ensures t.sweeps[i].timer == None && t.sweeps[i].pending == {} && Next(t, Start).sweeps[i].pending != {}
    {
      assert OneTimer(t.sweeps[i]);
      assert Next(t, Start).sweeps[i] == Armed(t.sweeps[i], false, t.nextId + i);
    }
  }

  // Until a waiting stop returns, no run begins: no timer is left to fire.
  lemma NoRunBeginsWhileAStopWaits(s: State, i: nat, timer: int)
    requires Reachable(s) && s.stops != map[]
    ensures !Enabled(s, TimerFires(i, timer))
  {
    hide Reachable, IsLive, Sound;
    ReachableIsKept(s);
    if i < |s.sweeps| { assert OneTimer(s.sweeps[i]); }
  }

  // --- Overlapping stops -------------------------------------------------------------------------------------------

  lemma {:induction false} OneStepFurther(s: State, steps: seq<Step>, step: Step)
    requires Runs(s, steps) && OrderlyRuns(s, steps) && Enabled(After(s, steps), step) && Orderly(After(s, steps), step)
    ensures Runs(s, steps + [step]) && OrderlyRuns(s, steps + [step])
    ensures After(s, steps + [step]) == Next(After(s, steps), step)
    decreases |steps|
  {
    hide Enabled, Next, Orderly;
    if steps == [] {
      assert [step][1..] == [] && steps + [step] == [step];
    } else {
      OneStepFurther(Next(s, steps[0]), steps[1..], step);
      assert (steps + [step])[1..] == steps[1..] + [step];
    }
  }

  lemma Further(cadences: seq<int>, s: State, step: Step)
    requires ReachableFrom(cadences, s) && Enabled(s, step) && Orderly(s, step)
    ensures ReachableFrom(cadences, Next(s, step))
  {
    hide Enabled, Next, Orderly;
    var steps :|
      Runs(Initial(cadences), steps) && OrderlyRuns(Initial(cadences), steps) && After(Initial(cadences), steps) == s;
    OneStepFurther(Initial(cadences), steps, step);
  }

  lemma InitialIsReachable(cadences: seq<int>)
    ensures ReachableFrom(cadences, Initial(cadences))
  {
    assert Runs(Initial(cadences), []) && OrderlyRuns(Initial(cadences), []);
    assert After(Initial(cadences), []) == Initial(cadences);
  }

  // The first sweep is running and no other is.
  ghost predicate OnlyFirstRuns(cadences: seq<int>, s: State) {
    && ReachableFrom(cadences, s) && |s.sweeps| == |cadences| > 0 && s.sweeps[0].running.Some?
    && s.sweeps[0].live == {s.sweeps[0].running.value}
    && forall i :: 0 < i < |s.sweeps| ==> !s.sweeps[i].inFlight && s.sweeps[i].live == {}
  }

  lemma RunUnderWay(cadences: seq<int>) returns (s: State)
    requires cadences != []
    ensures OnlyFirstRuns(cadences, s) && s.started && s.stops == map[]
  {
    hide ReachableFrom;
    InitialIsReachable(cadences);
    var s0 := Initial(cadences);
    Further(cadences, s0, Start);
    var s1 := Next(s0, Start);
    assert s1.sweeps[0] == Armed(s0.sweeps[0], false, 0);
    Further(cadences, s1, TimerFires(0, 0));
    s := Next(s1, TimerFires(0, 0));
  }

  lemma StopWaits(cadences: seq<int>, s: State, k: int)
    requires OnlyFirstRuns(cadences, s) && k !in s.stops
    ensures Enabled(s, StopBegins(k)) && OnlyFirstRuns(cadences, Next(s, StopBegins(k)))
    ensures var t := Next(s, StopBegins(k));
            t.stops.Keys == s.stops.Keys + {k} && t.sweeps[0].running.value in t.stops[k]
    ensures forall j :: j in s.stops ==> Next(s, StopBegins(k)).stops[j] == s.stops[j]
    ensures Next(s, StopBegins(k)).sweeps[0].running == s.sweeps[0].running
  {
    hide ReachableFrom;
    Further(cadences, s, StopBegins(k));
    assert s.sweeps[0].running.value in RunningIn(s.sweeps);
  }

  // A second stop whose deadline passes while the first still waits opens the way for a start out of order.
  lemma OverlapIsReachable(cadences: seq<int>) returns (s: State)
    requires cadences != []
    ensures OnlyFirstRuns(cadences, s) && !Orderly(s, Start)
    ensures 1 in s.stops && s.sweeps[0].running.value in s.stops[1]
  {
    hide ReachableFrom;
    s := RunUnderWay(cadences);
    StopWaits(cadences, s, 1);
    s := Next(s, StopBegins(1));
    StopWaits(cadences, s, 2);
    s := Next(s, StopBegins(2));
    Further(cadences, s, StopTimesOut(2));
    s := Next(s, StopTimesOut(2));
  }

  lemma Waiting(s: State) returns (k: int)
    requires s.stops != map[]
    ensures k in s.stops
  {
    NoStops(s.stops);
    k :| k in s.stops;
  }

  lemma NoStops(stops: map<int, set<int>>)
    ensures (forall k :: k !in stops) ==> stops == map[]
  {
    if forall k :: k !in stops { assert stops == map[]; }
  }

  // From every state with a start that is out of order, there is a way to a sweep with two timers: once the stop that
  // was waiting gives up, the scheduler takes itself to be stopped and lets itself be started again.
  lemma DisorderDoublesTimers(s: State) returns (steps: seq<Step>)
    requires Reachable(s) && !Orderly(s, Start) && s.sweeps != []
    ensures Runs(s, steps) && After(s, steps).sweeps != [] && |After(s, steps).sweeps[0].pending| == 2
  {
    hide Reachable, IsLive, RunningIn;
    ReachableIsKept(s);
    var k := Waiting(s);
    var a := Next(s, Start);
    assert OneTimer(s.sweeps[0]);
    assert a.sweeps[0] == Armed(s.sweeps[0], false, s.nextId) && a.sweeps[0].pending == {s.nextId};
    var b := Next(a, StopTimesOut(k));
    var c := Next(b, Start);
    assert c.sweeps[0] == Armed(b.sweeps[0], false, b.nextId)
           && c.sweeps[0].pending == {s.nextId, s.nextId + |s.sweeps|};
    steps := [Start, StopTimesOut(k), Start];
    Path3(s, a, b, c, steps);
  }

  lemma Path3(s0: State, s1: State, s2: State, s3: State, steps: seq<Step>)
    requires |steps| == 3
    requires Enabled(s0, steps[0]) && s1 == Next(s0, steps[0])
    requires Enabled(s1, steps[1]) && s2 == Next(s1, steps[1])
    requires Enabled(s2, steps[2]) && s3 == Next(s2, steps[2])
    ensures Runs(s0, steps) && After(s0, steps) == s3
  {
    hide Enabled, Next;
    assert steps[3..] == [];
    assert steps[1..][1..] == steps[2..] && steps[2..][1..] == steps[3..];
    assert Runs(s2, steps[2..]) && After(s2, steps[2..]) == s3;
    assert Runs(s1, steps[1..]) && After(s1, steps[1..]) == s3;
  }

  // The step puts a stop's answer that all is done beside a run in flight.
  ghost predicate Lies(s: State, k: int) {
    Enabled(s, StopDone(k)) && exists run :: IsLive(Next(s, StopDone(k)).sweeps, run)
  }

  // And while the stop waits for the run of one sweep, to its answering that all is done with a run of any other sweep
  // in flight, one that the start began and the stop knows nothing of.
  lemma DisorderMakesStopLie(s: State, k: int, i: nat, j: nat, run: int) returns (steps: seq<Step>)
    requires Reachable(s) && !s.started && k in s.stops && run in s.stops[k]
    requires i < |s.sweeps| && j < |s.sweeps| && i != j && run in s.sweeps[j].live
    ensures Runs(s, steps) && Lies(After(s, steps), k)
  {
    hide Reachable, Lies, Sound, Runs, After, Enabled, Next;
    ReachableIsKept(s);
    KeptIsSound(s);
    if s.sweeps[i].live == {} {
      steps := FreshRunIsMissed(s, k, i);
    } else {
      var own := OwnRun(s, i);
      var first := RunSettles(i, own, true, 0);
      SettlesAlone(s, i, own);
      steps := FreshRunIsMissed(Next(s, first), k, i);
      PathFrom(s, first, steps);
      steps := [first] + steps;
    }
  }

  lemma OwnRun(s: State, i: nat) returns (run: int)
    requires Sound(s) && i < |s.sweeps| && s.sweeps[i].live != {}
    ensures s.sweeps[i].live == {run}
  {
    assert OneRun(s.sweeps[i], s.nextId);
    run := s.sweeps[i].running.value;
  }

  lemma SettlesAlone(s: State, i: nat, run: int)
    requires Sound(s) && i < |s.sweeps| && s.sweeps[i].live == {run}
    ensures var step := RunSettles(i, run, true, 0);
            Enabled(s, step) && Sound(Next(s, step)) && |Next(s, step).sweeps| == |s.sweeps|
            && Next(s, step) == s.(sweeps := s.sweeps[i := Next(s, step).sweeps[i]])
            && Next(s, step).sweeps[i].live == {}
  {
    hide Sound;
    StepKeepsSound(s, RunSettles(i, run, true, 0));
  }

  lemma PathFrom(s: State, step: Step, steps: seq<Step>)
    requires Enabled(s, step) && Runs(Next(s, step), steps)
    ensures Runs(s, [step] + steps) && After(s, [step] + steps) == After(Next(s, step), steps)
  {
    hide Enabled, Next;
    assert ([step] + steps)[1..] == steps;
  }

  // A stopped scheduler with an idle sweep and a stop still waiting is started again: the sweep's run is none of those
  // the stop awaits.
  lemma FreshRunIsMissed(s: State, k: int, i: nat) returns (steps: seq<Step>)
    requires Sound(s) && !s.started && k in s.stops && i < |s.sweeps| && s.sweeps[i].live == {}
    ensures Runs(s, steps) && Lies(After(s, steps), k)
  {
    hide Sound, Lies, Runs, After;
    var a, b := StartsAfresh(s, i);
    steps := OthersSettle(b, i, 0);
    OnlyFreshIsLive(s, After(b, steps), k, i);
    PathFrom(a, TimerFires(i, s.nextId + i), steps);
    PathFrom(s, Start, [TimerFires(i, s.nextId + i)] + steps);
    steps := [Start] + ([TimerFires(i, s.nextId + i)] + steps);
  }

  lemma StartsAfresh(s: State, i: nat) returns (a: State, b: State)
    requires Sound(s) && !s.started && i < |s.sweeps| && s.sweeps[i].live == {}
    ensures a == Next(s, Start) && Enabled(a, TimerFires(i, s.nextId + i)) && b == Next(a, TimerFires(i, s.nextId + i))
    ensures Sound(b) && b.stops == s.stops && |b.sweeps| == |s.sweeps|
    ensures exists begun :: b.sweeps[i].live == {begun} && begun > s.nextId
  {
    hide Sound, IsLive;
    StepKeepsSound(s, Start);
    a := Next(s, Start);
    assert a.sweeps[i] == Armed(s.sweeps[i], false, s.nextId + i) && s.nextId + i in a.sweeps[i].pending;
    StepKeepsSound(a, TimerFires(i, s.nextId + i));
    b := Next(a, TimerFires(i, s.nextId + i));
    IdleIsNotInFlight(s, i);
    assert b.sweeps[i].live == {a.nextId + 1};
  }

  lemma IdleIsNotInFlight(s: State, i: nat)
    requires Sound(s) && i < |s.sweeps| && s.sweeps[i].live == {}
    ensures !s.sweeps[i].inFlight
  {
    assert OneRun(s.sweeps[i], s.nextId);
  }

  // Every run of another sweep ends, one sweep after another.
  lemma OthersSettle(s: State, i: nat, n: nat) returns (steps: seq<Step>)
    requires Sound(s) && i < |s.sweeps| && n <= |s.sweeps|
    requires forall m :: 0 <= m < n && m != i ==> s.sweeps[m].live == {}
    ensures Runs(s, steps)
    ensures var t := After(s, steps);
            && |t.sweeps| == |s.sweeps| && t.stops == s.stops && t.sweeps[i] == s.sweeps[i]
            && forall m :: 0 <= m < |t.sweeps| && m != i ==> t.sweeps[m].live == {}
    decreases |s.sweeps| - n
  {
    hide Sound, Enabled, Next;
    steps := [];
    if n < |s.sweeps| {
      if n == i || s.sweeps[n].live == {} {
        steps := OthersSettle(s, i, n + 1);
      } else {
        var run := OwnRun(s, n);
        SettlesAlone(s, n, run);
        steps := OthersSettle(Next(s, RunSettles(n, run, true, 0)), i, n + 1);
        PathFrom(s, RunSettles(n, run, true, 0), steps);
        steps := [RunSettles(n, run, true, 0)] + steps;
      }
    }
  }

  lemma OnlyFreshIsLive(s: State, t: State, k: int, i: nat)
    requires Sound(s) && k in s.stops && t.stops == s.stops && i < |t.sweeps|
    requires exists begun :: t.sweeps[i].live == {begun} && begun > s.nextId
    requires forall m :: 0 <= m < |t.sweeps| && m != i ==> t.sweeps[m].live == {}
    ensures Lies(t, k)
  {
    var begun :| t.sweeps[i].live == {begun} && begun > s.nextId;
    assert Enabled(t, StopDone(k));
    assert IsLive(Next(t, StopDone(k)).sweeps, begun);
  }

  // Such a state is reached from every beginning with two sweeps, and so is the false answer.
  lemma StopCanLie(cadences: seq<int>) returns (steps: seq<Step>)
    requires |cadences| >= 2
    ensures Runs(Initial(cadences), steps) && Lies(After(Initial(cadences), steps), 1)
  {
    hide Lies, Enabled, Next;
    var s := OverlapIsReachable(cadences);
    var i, j := 1, 0;
    assert Reachable(s);
    var rest := DisorderMakesStopLie(s, 1, i, j, s.sweeps[0].running.value);
    var first :| Runs(Initial(cadences), first) && After(Initial(cadences), first) == s;
    Joined(Initial(cadences), first, rest);
    steps := first + rest;
  }

  lemma {:induction false} Joined(s: State, first: seq<Step>, rest: seq<Step>)
    requires Runs(s, first) && Runs(After(s, first), rest)
    ensures Runs(s, first + rest) && After(s, first + rest) == After(After(s, first), rest)
    decreases |first|
  {
    hide Enabled, Next;
    if first == [] {
      assert first + rest == rest;
    } else {
      Joined(Next(s, first[0]), first[1..], rest);
      assert (first + rest)[1..] == first[1..] + rest;
    }
  }

  // --- Stalls ------------------------------------------------------------------------------------------------------

  ghost function Alerts(s: State, steps: seq<Step>, i: nat): nat
    requires Runs(s, steps) && i < |s.sweeps|
    decreases |steps|
  {
    if steps == [] then 0
    else
      SweepsStay(s, steps[0]);
      (match steps[0]
       case CheckStalled(j, now) => if j == i && Stalled(s.sweeps[i], now) && !s.sweeps[i].stallReported then 1 else 0
       case _ => 0)
      + Alerts(Next(s, steps[0]), steps[1..], i)
  }

  function Successes(steps: seq<Step>, i: nat): nat {
    if steps == [] then 0
    else
      (match steps[0] case RunSettles(j, _, ok, _) => (if j == i && ok then 1 else 0) case _ => 0)
        + Successes(steps[1..], i)
  }

  // A stall is reported once: after an alert a sweep must succeed before there can be another.
  lemma {:induction false} AlertsAreForSuccesses(s: State, steps: seq<Step>, i: nat)
    requires Runs(s, steps) && i < |s.sweeps|
    ensures Alerts(s, steps, i)
            <= Successes(steps, i) + (if s.sweeps[i].lastSuccessAt.Some? && !s.sweeps[i].stallReported then 1 else 0)
    decreases |steps|
  {
    hide RunningIn, IsLive;
    if steps != [] {
      SweepsStay(s, steps[0]);
      AlertsAreForSuccesses(Next(s, steps[0]), steps[1..], i);
    }
  }

  // --- What the stall check knows ----------------------------------------------------------------------------------

  ghost predicate Succeeds(step: Step, i: nat) { step.RunSettles? && step.sweep == i && step.ok }

  // The sweep last succeeded with step m, at time t.
  ghost predicate LastSuccess(steps: seq<Step>, i: nat, m: int, t: int) {
    && 0 <= m < |steps| && Succeeds(steps[m], i) && steps[m].now == t
    && forall k :: m < k < |steps| ==> !Succeeds(steps[k], i)
  }

  // A check after that success found it more than three cadences old.
  ghost predicate SeenStalled(steps: seq<Step>, i: nat, m: int, t: int, cadence: int) {
    exists k, at :: m < k < |steps| && 0 <= k && steps[k] == CheckStalled(i, at) && at - t > 3 * cadence
  }

  // What the scheduler remembers of a sweep: its cadence, its last success and whether it has alerted since.
  ghost predicate Remembers(sweep: Sweep, steps: seq<Step>, i: nat, cadence: int) {
    && sweep.cadence == cadence
    && (sweep.lastSuccessAt.None? ==> !sweep.stallReported && forall m, t :: !LastSuccess(steps, i, m, t))
    && (sweep.lastSuccessAt.Some? ==>
          exists m :: LastSuccess(steps, i, m, sweep.lastSuccessAt.value)
                      && (sweep.stallReported <==> SeenStalled(steps, i, m, sweep.lastSuccessAt.value, cadence)))
  }

  lemma {:induction false} LastStep(s: State, steps: seq<Step>)
    requires steps != [] && Runs(s, steps)
    ensures var first, step := steps[..|steps| - 1], steps[|steps| - 1];
            Runs(s, first) && Enabled(After(s, first), step) && After(s, steps) == Next(After(s, first), step)
    decreases |steps|
  {
    hide Enabled, Next;
    if |steps| > 1 {
      LastStep(Next(s, steps[0]), steps[1..]);
      assert steps[1..][..|steps| - 2] == steps[..|steps| - 1][1..];
    } else {
      assert steps[..0] == [] && steps[1..] == [];
    }
  }

  lemma StepIsRemembered(s: State, steps: seq<Step>, step: Step, i: nat, cadence: int)
    requires Enabled(s, step) && i < |s.sweeps| && Remembers(s.sweeps[i], steps, i, cadence)
    ensures |Next(s, step).sweeps| == |s.sweeps| && Remembers(Next(s, step).sweeps[i], steps + [step], i, cadence)
  {
    hide Remembers, LastSuccess, SeenStalled, Stalled;
    var was, now := s.sweeps[i], Next(s, step).sweeps[i];
    CadenceIsKnown(was, steps, i, cadence);
    assert now.cadence == was.cadence;
    if Succeeds(step, i) {
      assert now.lastSuccessAt == Some(step.now) && !now.stallReported;
      SuccessIsLast(now, steps, step, i, cadence);
    } else {
      assert now.lastSuccessAt == was.lastSuccessAt;
      assert now.stallReported ==
             (was.stallReported || (step.CheckStalled? && step.sweep == i && Stalled(was, step.now)));
      NoSuccessYet(was, now, steps, step, i, cadence);
    }
  }

  lemma CadenceIsKnown(sweep: Sweep, steps: seq<Step>, i: nat, cadence: int)
    requires Remembers(sweep, steps, i, cadence)
    ensures sweep.cadence == cadence
  {}

  lemma SuccessIsLast(now: Sweep, steps: seq<Step>, step: Step, i: nat, cadence: int)
    requires Succeeds(step, i) && now.cadence == cadence && now.lastSuccessAt == Some(step.now) && !now.stallReported
    ensures Remembers(now, steps + [step], i, cadence)
  {
    assert LastSuccess(steps + [step], i, |steps|, step.now);
  }

  lemma NoSuccessYet(was: Sweep, now: Sweep, steps: seq<Step>, step: Step, i: nat, cadence: int)
    requires !Succeeds(step, i) && Remembers(was, steps, i, cadence)
    requires now.cadence == was.cadence && now.lastSuccessAt == was.lastSuccessAt
    requires now.stallReported ==
             (was.stallReported || (step.CheckStalled? && step.sweep == i && Stalled(was, step.now)))
    ensures Remembers(now, steps + [step], i, cadence)
  {
    var more := steps + [step];
    forall m, t ensures LastSuccess(more, i, m, t) <==> LastSuccess(steps, i, m, t) {
      if LastSuccess(more, i, m, t) { assert forall k :: m < k < |steps| ==> more[k] == steps[k]; }
    }
    if was.lastSuccessAt.Some? {
      var t := was.lastSuccessAt.value;
      var m :| LastSuccess(steps, i, m, t) && (was.stallReported <==> SeenStalled(steps, i, m, t, cadence));
      SeenLater(steps, step, i, m, t, cadence);
      assert LastSuccess(more, i, m, t);
    }
  }

  lemma SeenLater(steps: seq<Step>, step: Step, i: nat, m: int, t: int, cadence: int)
    requires m < |steps|
    ensures SeenStalled(steps + [step], i, m, t, cadence)
            <==> SeenStalled(steps, i, m, t, cadence)
                 || (exists at :: step == CheckStalled(i, at) && at - t > 3 * cadence)
  {
    var more := steps + [step];
    if SeenStalled(steps, i, m, t, cadence) {
      var k, at :| m < k < |steps| && 0 <= k && steps[k] == CheckStalled(i, at) && at - t > 3 * cadence;
      assert more[k] == CheckStalled(i, at);
    }
    if exists at :: step == CheckStalled(i, at) && at - t > 3 * cadence { assert more[|steps|] == step; }
    if SeenStalled(more, i, m, t, cadence) {
      var k, at :| m < k < |more| && 0 <= k && more[k] == CheckStalled(i, at) && at - t > 3 * cadence;
      if k < |steps| { assert steps[k] == CheckStalled(i, at); } else { assert step == CheckStalled(i, at); }
    }
  }

  lemma {:induction false} RunsAreRemembered(cadences: seq<int>, steps: seq<Step>, i: nat)
    requires Runs(Initial(cadences), steps) && i < |cadences|
    ensures var s := After(Initial(cadences), steps);
            |s.sweeps| == |cadences| && Remembers(s.sweeps[i], steps, i, cadences[i])
    decreases |steps|
  {
    hide Enabled, Next, Runs;
    if steps == [] {
      assert Initial(cadences).sweeps[i] == Idle(cadences[i]);
    } else {
      hide Remembers, After;
      var first, step := steps[..|steps| - 1], steps[|steps| - 1];
      LastStep(Initial(cadences), steps);
      RunsAreRemembered(cadences, first, i);
      StepIsRemembered(After(Initial(cadences), first), first, step, i, cadences[i]);
      assert first + [step] == steps;
    }
  }

  // A check raises the alert if and only if the sweep has succeeded, that was more than three cadences ago, and no
  // check since then has found it so: whatever the run before, and whatever other sweeps do.
  lemma AlertedIff(cadences: seq<int>, steps: seq<Step>, i: nat, now: int)
    requires Runs(Initial(cadences), steps) && i < |cadences|
    ensures |After(Initial(cadences), steps).sweeps| == |cadences|
    ensures var sweep := After(Initial(cadences), steps).sweeps[i];
            Stalled(sweep, now) && !sweep.stallReported
            <==> exists m, t :: LastSuccess(steps, i, m, t) && now - t > 3 * cadences[i]
                                && !SeenStalled(steps, i, m, t, cadences[i])
  {
    hide Runs, After, SeenStalled;
    RunsAreRemembered(cadences, steps, i);
    forall m, t, n, u | LastSuccess(steps, i, m, t) && LastSuccess(steps, i, n, u) ensures m == n && t == u {}
  }
}

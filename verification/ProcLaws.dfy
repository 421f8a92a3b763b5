/** Laws of whole runs of the process table: who sleeps, and how a process sinks through the queues. */
module ProcLaws {
  import opened Common
  import opened ProcState
  import opened Aging
  import opened AgingOrder
  import opened ProcSteps
  import opened ExitWait
  import opened ProcRuns
  import opened ProcEffects
  import opened ProcProgress

  // ------------------------------------------------ going to sleep and waking up

  /** s goes to sleep in this step: in sleep(), or in wait() with children of which none has exited. */
  ghost predicate FallsAsleep(y: Sys, step: Step, s: nat)
    requires s < |y.procs|
  {
    || (step.DoSleep? && step.f == s)
    || (step == DoWait(s) && HasChild(y.procs, s) && !y.procs[s].killed && forall z :: !ZombieChild(y.procs, s, z))
  }

  /** This step wakes s if it sleeps: a wakeup() on its channel, a kill() of it, or the exit() it waits for. */
  ghost predicate Rouses(y: Sys, step: Step, s: nat)
    requires Shape(y) && s < NPROC
  {
    match step
    case DoWakeup(id) => y.procs[s].chan == Other(id)
    case DoKill(pid) => FirstWith(y.procs, pid, s)
    case DoExit(f) => f < NPROC && IsTold(y, f, s)
    case _ => false
  }

  /** What s is after this step, if it sleeps then. */
  predicate SleepsFor(p: Proc, step: Step, chan: Chan) {
    chan == if step.DoSleep? then Other(step.id) else if step.DoWait? then SlotChan(step.f) else p.chan
  }

  /** A process sleeps after a step exactly if it falls asleep in it, or slept and is not woken. */
  ghost predicate SleepTold(y: Sys, step: Step, y': Sys, s: nat) {
    && Shape(y) && Shape(y') && s < NPROC
    && (y'.procs[s].state == Sleeping <==>
        FallsAsleep(y, step, s) || (y.procs[s].state == Sleeping && !Rouses(y, step, s)))
    && (y.procs[s].state == Sleeping && Rouses(y, step, s) ==> y'.procs[s].state == Runnable)
    && (FallsAsleep(y, step, s) ==> SleepsFor(y.procs[s], step, y'.procs[s].chan))
    && (y.procs[s].state == Sleeping && !Rouses(y, step, s) ==>
          y'.procs[s] == y.procs[s].(parent := y'.procs[s].parent))
  }

  lemma ExitSleep(y: Sys, f: nat, y': Sys, s: nat)
    requires ExitMoved(y, y', f) && IsRunning(y, f) && s < NPROC
    ensures SleepTold(y, DoExit(f), y', s)
  {
    assert y'.procs[s] == AfterExit(y, f, s);
  }

  lemma PassSleep(y: Sys, y1: Sys, y': Sys, l: nat, t: nat, s: nat)
    requires PassMoved(y, y1, y', l, t) && s < NPROC
    ensures SleepTold(y, DoPass, y', s)
  {
    assert y1.procs[s].state == y.procs[s].state;
    assert !Rises(y, AgedSlots(y), 1, s) ==> y1.procs[s] == y.procs[s];
  }

  lemma KillSleep(y: Sys, step: Step, y': Sys, s: nat)
    requires Inv(y) && step.DoKill? && y' == Apply(y, step) && s < NPROC
    ensures SleepTold(y, step, y', s)
  {
    StepFacts(y, 0);
    var t := FindPid(y.procs, step.pid, 0);
    assert t < NPROC ==> FirstWith(y.procs, step.pid, t);
    KillMoves(y, step.pid, y', t);
    assert FirstWith(y.procs, step.pid, s) <==> s == t;
  }

  lemma WaitSleep(y: Sys, step: Step, y': Sys, s: nat)
    requires Inv(y) && Enabled(y, step) && step.DoWait? && y' == Apply(y, step) && s < NPROC
    ensures SleepTold(y, step, y', s)
  {
    var f := step.f;
    var z := FindZombie(y.procs, f, 0);
    if z < NPROC {
      assert ZombieChild(y.procs, f, z);
    } else {
      forall t ensures !ZombieChild(y.procs, f, t) {
      }
    }
  }

  lemma EmbryoSleep(y: Sys, step: Step, y': Sys, u: nat, p: Proc, s: nat)
    requires Shape(y) && Shape(y') && u < NPROC && s < NPROC && y'.procs == y.procs[u := p]
    requires y.procs[u].state != Sleeping && p.state != Sleeping
    requires step.DoAlloc? || step.DoAbandon? || step.DoPrepare? || step.DoSetParent? || step.DoForkDone?
    ensures SleepTold(y, step, y', s)
  {
  }

  lemma ForkSleep(y: Sys, step: Step, y': Sys, s: nat)
    requires Inv(y) && Enabled(y, step) && y' == Apply(y, step) && s < NPROC
    requires step.DoAlloc? || step.DoAbandon? || step.DoPrepare? || step.DoSetParent? || step.DoForkDone?
    ensures SleepTold(y, step, y', s)
  {
    StepFacts(y, step.f);
    assert TaskOk(y, step.f);
    var u := if step.DoAlloc? then FirstUnused(y.procs, 0) else y.tasks[step.f].child;
    if u < NPROC {
      EmbryoSleep(y, step, y', u, y'.procs[u], s);
    }
  }

  lemma WakeSleep(y: Sys, id: nat, y': Sys, s: nat)
    requires WokenUp(y, y', Other(id)) && s < NPROC
    ensures SleepTold(y, DoWakeup(id), y', s)
  {
    assert y'.procs[s] == Woken(y.procs[s], Other(id), y.ticks);
  }

  lemma SliceSleep(y: Sys, f: nat, y': Sys, s: nat)
    requires SliceMoved(y, y', f) && IsRunning(y, f) && s < NPROC
    ensures SleepTold(y, DoSlice(f), y', s)
  {
  }

  lemma OwnSleep(y: Sys, step: Step, y': Sys, s: nat)
    requires Inv(y) && Enabled(y, step) && y' == Apply(y, step) && s < NPROC
    requires step.DoSleep? || step.DoFault? || step.DoTick?
    ensures SleepTold(y, step, y', s)
  {
  }

  lemma ExitSleeps(y: Sys, f: nat, y': Sys, s: nat)
    requires Inv(y) && Enabled(y, DoExit(f)) && y' == Apply(y, DoExit(f)) && s < NPROC
    ensures SleepTold(y, DoExit(f), y', s)
  {
    StepFacts(y, f);
    ExitMoves(y, f, y');
    ExitSleep(y, f, y', s);
  }

  lemma MoverSleeps(y: Sys, step: Step, y': Sys, s: nat)
    requires Inv(y) && Enabled(y, step) && y' == Apply(y, step) && s < NPROC
    requires step.DoPass? || step.DoWakeup? || step.DoSlice?
    ensures SleepTold(y, step, y', s)
  {
    StepFacts(y, if step.DoWakeup? || step.DoPass? then 0 else step.f);
    match step
    case DoPass =>
      var y1, l, t := PassMovesTo(y, y');
      PassSleep(y, y1, y', l, t, s);
    case DoWakeup(id) =>
      WakeupWakes(y, Other(id));
      WakeSleep(y, id, y', s);
    case DoSlice(f) =>
      SliceMoves(y, f, y');
      SliceSleep(y, f, y', s);
  }

  lemma SleepExact(y: Sys, step: Step, y': Sys, s: nat)
    requires Inv(y) && Enabled(y, step) && y' == Apply(y, step) && s < NPROC
    ensures SleepTold(y, step, y', s)
  {
    match step
    case DoExit(f) => ExitSleeps(y, f, y', s);
    case DoPass => MoverSleeps(y, step, y', s);
    case DoWakeup(_) => MoverSleeps(y, step, y', s);
    case DoSlice(_) => MoverSleeps(y, step, y', s);
    case DoKill(_) => KillSleep(y, step, y', s);
    case DoWait(_) => WaitSleep(y, step, y', s);
    case DoAlloc(_) => ForkSleep(y, step, y', s);
    case DoAbandon(_) => ForkSleep(y, step, y', s);
    case DoPrepare(_) => ForkSleep(y, step, y', s);
    case DoSetParent(_) => ForkSleep(y, step, y', s);
    case DoForkDone(_) => ForkSleep(y, step, y', s);
    case _ => OwnSleep(y, step, y', s);
  }

  /** Some(true) if s falls asleep in this step, Some(false) if it is woken. */
  ghost function RestOf(y: Sys, step: Step, s: nat): Option<bool>
    requires Shape(y) && s < NPROC
  {
    if FallsAsleep(y, step, s) then Some(true)
    else if y.procs[s].state == Sleeping && Rouses(y, step, s) then Some(false)
    else None
  }

  /** The last of these in a run. */
  ghost function LastRest(y: Sys, schedule: seq<Step>, s: nat): Option<bool>
    requires Inv(y) && s < NPROC
    decreases |schedule|
  {
    if schedule == [] || !Enabled(y, schedule[0]) then None
    else
      StepKeeps(y, schedule[0]);
      var later := LastRest(Apply(y, schedule[0]), schedule[1..], s);
      if later.Some? then later else RestOf(y, schedule[0], s)
  }

  /** A process sleeps at the end of a run exactly if the last that happened to its sleep was that it fell asleep. */
  lemma {:induction false} AsleepIff(y: Sys, schedule: seq<Step>, s: nat)
    requires Inv(y) && Execute(y, schedule).Reached? && s < NPROC
    ensures var y', r := Execute(y, schedule).y, LastRest(y, schedule, s);
      Shape(y') && (y'.procs[s].state == Sleeping <==> if r.Some? then r.value else y.procs[s].state == Sleeping)
    decreases |schedule|
  {
    if schedule != [] {
      var y1 := Apply(y, schedule[0]);
      StepKeeps(y, schedule[0]);
      SleepExact(y, schedule[0], y1, s);
      AsleepIff(y1, schedule[1..], s);
    }
  }

  ghost predicate KillsIt(y: Sys, step: Step, s: nat) {
    step.DoKill? && FirstWith(y.procs, step.pid, s)
  }

  /** Whether s has gone to sleep since its last kill(); None if there was neither. */
  ghost function SleptSinceKill(y: Sys, schedule: seq<Step>, s: nat): Option<bool>
    requires Inv(y) && s < NPROC
    decreases |schedule|
  {
    if schedule == [] || !Enabled(y, schedule[0]) then None
    else
      StepKeeps(y, schedule[0]);
      var later := SleptSinceKill(Apply(y, schedule[0]), schedule[1..], s);
      if later.Some? then later
      else if FallsAsleep(y, schedule[0], s) then Some(true)
      else if KillsIt(y, schedule[0], s) then Some(false)
      else None
  }

  lemma {:induction false} StaysAwake(y: Sys, schedule: seq<Step>, s: nat)
    requires Inv(y) && Execute(y, schedule).Reached? && s < NPROC && y.procs[s].state != Sleeping
    requires SleptSinceKill(y, schedule, s).None?
    ensures Shape(Execute(y, schedule).y) && Execute(y, schedule).y.procs[s].state != Sleeping
    decreases |schedule|
  {
    if schedule != [] {
      var y1 := Apply(y, schedule[0]);
      StepKeeps(y, schedule[0]);
      SleepExact(y, schedule[0], y1, s);
      StaysAwake(y1, schedule[1..], s);
    }
  }

  /** A killed process that is asleep has gone to sleep since its last kill(). */
  lemma {:induction false} KilledIsWoken(y: Sys, schedule: seq<Step>, s: nat)
    requires Inv(y) && Execute(y, schedule).Reached? && s < NPROC && SleptSinceKill(y, schedule, s) == Some(false)
    ensures Shape(Execute(y, schedule).y) && Execute(y, schedule).y.procs[s].state != Sleeping
    decreases |schedule|
  {
    var y1, rest := Apply(y, schedule[0]), schedule[1..];
    StepKeeps(y, schedule[0]);
    if SleptSinceKill(y1, rest, s).Some? {
      KilledIsWoken(y1, rest, s);
    } else {
      SleepExact(y, schedule[0], y1, s);
      StaysAwake(y1, rest, s);
    }
  }

  // ------------------------------------------------ sinking through the queues

  /** What is left before the last queue: at each level from l on, the unused budget and the step down. */
  function LeftFrom(used: seq<nat>, l: nat): nat
    requires |used| == LEVELS && l < LEVELS
    decreases LEVELS - l
  {
    if l == LEVELS - 1 then 0
    else (if used[l] >= Limit(l) then 0 else Limit(l) - used[l]) + 1 + LeftFrom(used, l + 1)
  }

  function Left(p: Proc): nat
    requires p.level < LEVELS && |p.used| == LEVELS
  {
    LeftFrom(p.used, p.level)
  }

  lemma {:induction false} LeftBelow(used: seq<nat>, l: nat, k: nat, n: nat)
    requires |used| == LEVELS && l < k < LEVELS
    ensures LeftFrom(used[l := n], k) == LeftFrom(used, k)
    decreases LEVELS - k
  {
    if k < LEVELS - 1 {
      LeftBelow(used, l, k + 1, n);
    }
  }

  /** A tick of budget at level l. */
  lemma LeftTick(used: seq<nat>, l: nat, n: nat, used': seq<nat>)
    requires |used| == LEVELS && l < LEVELS && n == used[l] + 1 && used' == used[l := n]
    ensures LeftFrom(used, l) == LeftFrom(used', l) + if l < LEVELS - 1 && used[l] < Limit(l) then 1 else 0
  {
    if l < LEVELS - 1 {
      var next := l + 1;
      LeftBelow(used, l, next, n);
      assert LeftFrom(used, next) == LeftFrom(used', next);
    }
  }

  /** A new process has 34 ticks and steps to go. */
  lemma LeftOfNew(p: Proc)
    requires Unspent(p)
    ensures Left(p) == 34
  {
    assert LeftFrom(p.used, 3) == 17 && LeftFrom(p.used, 2) == 26 && LeftFrom(p.used, 1) == 31;
  }

  /** allocproc() sets up slot s for a new process in this step. */
  ghost predicate Renews(y: Sys, step: Step, s: nat)
    requires Shape(y)
  {
    step.DoPrepare? && step.f < NPROC && y.tasks[step.f] == Alloced(s)
  }

  /** What s gives up in this step: a timer interrupt above the last queue, or the tick a dispatch costs. */
  ghost function SpentIn(y: Sys, step: Step, y': Sys, s: nat): nat
    requires Shape(y) && Shape(y') && s < NPROC && Budget(y.procs[s]) && Budget(y'.procs[s])
  {
    var l := y'.procs[s].level;
    if step == DoSlice(s) && y.procs[s].level < LEVELS - 1 then 1
    else if Starts(y, y', s) && l < LEVELS - 1 && y.procs[s].used[l] < Limit(l) then 1
    else 0
  }

  /** Aging has moved s up in this step. */
  ghost predicate RaisedIn(y: Sys, step: Step, y': Sys, s: nat)
    requires Shape(y) && Shape(y') && s < NPROC
  {
    step.DoPass? && y'.procs[s].level < y.procs[s].level
  }

  /** The same level and budget. */
  predicate SameWork(p: Proc, p': Proc) {
    p'.level == p.level && p'.used == p.used
  }

  lemma ForkWork(y: Sys, step: Step, y': Sys, s: nat)
    requires Inv(y) && Enabled(y, step) && y' == Apply(y, step) && s < NPROC && !Renews(y, step, s)
    requires step.DoAlloc? || step.DoAbandon? || step.DoPrepare? || step.DoSetParent? || step.DoForkDone?
    ensures Shape(y') && SameWork(y.procs[s], y'.procs[s]) && !Starts(y, y', s)
  {
    StepFacts(y, step.f);
    assert TaskOk(y, step.f);
  }

  lemma ExitWork(y: Sys, f: nat, y': Sys, s: nat)
    requires ExitMoved(y, y', f) && s < NPROC
    ensures SameWork(y.procs[s], y'.procs[s]) && !Starts(y, y', s)
  {
    assert y'.procs[s] == AfterExit(y, f, s);
  }

  lemma WakeWork(y: Sys, c: Chan, y': Sys, s: nat)
    requires WokenUp(y, y', c) && s < NPROC
    ensures SameWork(y.procs[s], y'.procs[s]) && !Starts(y, y', s)
  {
    assert y'.procs[s] == Woken(y.procs[s], c, y.ticks);
  }

  lemma KillWork(y: Sys, pid: nat, y': Sys, s: nat)
    requires Shape(y) && (forall t :: 0 <= t < NPROC ==> y.procs[t].level < LEVELS) && y' == Kill(y, pid) && s < NPROC
    ensures Shape(y') && SameWork(y.procs[s], y'.procs[s]) && !Starts(y, y', s)
  {
  }

  lemma WaitWork(y: Sys, f: nat, y': Sys, s: nat)
    requires Shape(y) && f < NPROC && y' == Wait(y, f) && s < NPROC
    ensures Shape(y') && SameWork(y.procs[s], y'.procs[s]) && !Starts(y, y', s)
  {
  }

  lemma OwnWork(y: Sys, step: Step, y': Sys, s: nat)
    requires Inv(y) && Enabled(y, step) && y' == Apply(y, step) && s < NPROC
    requires step.DoWait? || step.DoSleep? || step.DoKill? || step.DoFault? || step.DoTick?
    ensures Shape(y') && SameWork(y.procs[s], y'.procs[s]) && !Starts(y, y', s)
  {
    StepFacts(y, 0);
    match step
    case DoKill(pid) => KillWork(y, pid, y', s);
    case DoWait(f) => WaitWork(y, f, y', s);
    case _ =>
  }

  lemma ExitsWork(y: Sys, f: nat, y': Sys, s: nat)
    requires Inv(y) && Enabled(y, DoExit(f)) && y' == Apply(y, DoExit(f)) && s < NPROC
    ensures Shape(y') && SameWork(y.procs[s], y'.procs[s]) && !Starts(y, y', s)
  {
    StepFacts(y, f);
    ExitMoves(y, f, y');
    ExitWork(y, f, y', s);
  }

  lemma WakesWork(y: Sys, step: Step, y': Sys, s: nat)
    requires Inv(y) && Enabled(y, step) && step.DoWakeup? && y' == Apply(y, step) && s < NPROC
    ensures Shape(y') && SameWork(y.procs[s], y'.procs[s]) && !Starts(y, y', s)
  {
    StepFacts(y, 0);
    var c := Other(step.id);
    WakeupWakes(y, c);
    WakeWork(y, c, y', s);
  }

  /** One step of the account of process s. */
  ghost predicate Accounted(y: Sys, step: Step, y': Sys, s: nat) {
    && Shape(y) && Shape(y') && s < NPROC && Budget(y.procs[s]) && Budget(y'.procs[s])
    && Left(y'.procs[s]) + SpentIn(y, step, y', s) ==
       Left(y.procs[s]) + (if RaisedIn(y, step, y', s) then 1 else 0)
    && (!RaisedIn(y, step, y', s) ==> y.procs[s].level <= y'.procs[s].level)
  }

  lemma TickAccount(y: Sys, y': Sys, f: nat, l: nat, used: seq<nat>, used': seq<nat>)
    requires Shape(y) && IsRunning(y, f) && Budget(y.procs[f]) && l == y.procs[f].level && used == y.procs[f].used
    requires used[l] < Limit(l) && used' == used[l := used[l] + 1]
    requires Becomes(y, y', f, y.procs[f].(used := used')) && Budget(y'.procs[f])
    ensures Accounted(y, DoSlice(f), y', f)
  {
    var n := used[l] + 1;
    LeftTick(used, l, n, used');
    assert y'.procs[f] == y.procs[f].(used := used');
  }

  lemma StepDownAccount(y: Sys, y': Sys, f: nat, l: nat)
    requires IsRunning(y, f) && YieldMoved(y, y', f) && l == y.procs[f].level && y.procs[f].used[l] >= Limit(l)
    requires Budget(y'.procs[f]) && Members(y'.procs, y'.queues)
    ensures Accounted(y, DoSlice(f), y', f)
  {
    var p' := y'.procs[f];
    var m := if l < LEVELS - 1 then l + 1 else l;
    assert Last(y', m, f);
    AtMeansWaiting(y', m, |y'.queues[m]| - 1, f);
    assert p'.level == m && p'.used == y.procs[f].used;
  }

  lemma OtherAccount(y: Sys, step: Step, y': Sys, s: nat)
    requires Shape(y) && Shape(y') && s < NPROC && Budget(y.procs[s]) && SameWork(y.procs[s], y'.procs[s])
    requires Budget(y'.procs[s]) && !Starts(y, y', s) && step != DoSlice(s)
    ensures Accounted(y, step, y', s)
  {
  }

  lemma SliceAccount(y: Sys, f: nat, y': Sys, s: nat)
    requires SliceMoved(y, y', f) && IsRunning(y, f) && s < NPROC && Budget(y.procs[s]) && Budget(y'.procs[s])
    requires Members(y'.procs, y'.queues)
    ensures Accounted(y, DoSlice(f), y', s)
  {
    var l := y.procs[f].level;
    if s != f {
      OtherAccount(y, DoSlice(f), y', s);
    } else if y.procs[f].used[l] < Limit(l) {
      TickAccount(y, y', f, l, y.procs[f].used, y'.procs[f].used);
    } else {
      StepDownAccount(y, y', f, l);
    }
  }

  lemma RiseAccount(y: Sys, y1: Sys, s: nat)
    requires Inv(y) && Inv(y1) && AllMoved(y, y1, AgedSlots(y), 1) && s < NPROC
    ensures Budget(y.procs[s]) && Budget(y1.procs[s]) && y1.procs[s].used == y.procs[s].used
    ensures y1.procs[s].level == y.procs[s].level || y1.procs[s].level + 1 == y.procs[s].level
    ensures Left(y1.procs[s]) == Left(y.procs[s]) + if y1.procs[s].level < y.procs[s].level then 1 else 0
  {
    assert Budget(y.procs[s]) && Budget(y1.procs[s]);
    if Rises(y, AgedSlots(y), 1, s) {
      assert y1.procs[s] == Risen(y.procs[s], y.procs[s].level - 1, y.ticks);
    }
  }

  lemma PassAccount(y: Sys, y1: Sys, y': Sys, l: nat, t: nat, s: nat)
    requires Inv(y) && Inv(y1) && PassMoved(y, y1, y', l, t) && s < NPROC && Shape(y') && Budget(y'.procs[s])
    ensures Accounted(y, DoPass, y', s)
  {
    RiseAccount(y, y1, s);
    if l < LEVELS && t == s {
      PickAccount(y, y1, y', l, s);
    } else {
      assert y'.procs[s] == y1.procs[s];
    }
  }

  lemma PickAccount(y: Sys, y1: Sys, y': Sys, l: nat, s: nat)
    requires Shape(y) && Shape(y') && Runs(y1, y', l, s) && y1.procs[s].state == Runnable && y1.procs[s].level == l
    requires Budget(y.procs[s]) && Budget(y1.procs[s]) && Budget(y'.procs[s]) && y1.procs[s].used == y.procs[s].used
    requires y.procs[s].state == Runnable
    requires l == y.procs[s].level || l + 1 == y.procs[s].level
    requires Left(y1.procs[s]) == Left(y.procs[s]) + if l < y.procs[s].level then 1 else 0
    ensures Accounted(y, DoPass, y', s)
  {
    var used := y.procs[s].used;
    LeftTick(used, l, used[l] + 1, y'.procs[s].used);
  }

  lemma MoverAccount(y: Sys, step: Step, y': Sys, s: nat)
    requires Inv(y) && Enabled(y, step) && y' == Apply(y, step) && s < NPROC && Inv(y')
    requires step.DoSlice? || step.DoPass?
    ensures Accounted(y, step, y', s)
  {
    StepFacts(y, if step.DoSlice? then step.f else 0);
    assert Budget(y.procs[s]) && Budget(y'.procs[s]);
    match step
    case DoSlice(f) =>
      SliceMoves(y, f, y');
      SliceAccount(y, f, y', s);
    case DoPass =>
      var y1, l, t := PassMovesTo(y, y');
      PassAccount(y, y1, y', l, t, s);
  }

  lemma StepAccount(y: Sys, step: Step, y': Sys, s: nat)
    requires Inv(y) && Enabled(y, step) && y' == Apply(y, step) && s < NPROC && !Renews(y, step, s) && Inv(y')
    ensures Accounted(y, step, y', s)
  {
    if step.DoSlice? || step.DoPass? {
      MoverAccount(y, step, y', s);
    } else {
      assert Budget(y.procs[s]) && Budget(y'.procs[s]);
      if step.DoAlloc? || step.DoAbandon? || step.DoPrepare? || step.DoSetParent? || step.DoForkDone? {
        ForkWork(y, step, y', s);
      } else if step.DoExit? {
        ExitsWork(y, step.f, y', s);
      } else if step.DoWakeup? {
        WakesWork(y, step, y', s);
      } else {
        OwnWork(y, step, y', s);
      }
      OtherAccount(y, step, y', s);
    }
  }

  /** No step of the run sets slot s up for a new process. */
  ghost predicate SameHolder(y: Sys, schedule: seq<Step>, s: nat)
    requires Inv(y)
    decreases |schedule|
  {
    schedule == [] || !Enabled(y, schedule[0]) || (
      && !Renews(y, schedule[0], s)
      && (StepKeeps(y, schedule[0]); SameHolder(Apply(y, schedule[0]), schedule[1..], s)))
  }

  /** All that s gives up in a run. */
  ghost function Spent(y: Sys, schedule: seq<Step>, s: nat): nat
    requires Inv(y) && s < NPROC
    decreases |schedule|
  {
    if schedule == [] || !Enabled(y, schedule[0]) then 0
    else
      StepKeeps(y, schedule[0]);
      var y' := Apply(y, schedule[0]);
      assert Budget(y.procs[s]) && Budget(y'.procs[s]);
      SpentIn(y, schedule[0], y', s) + Spent(y', schedule[1..], s)
  }

  /** How often aging moves s up in a run. */
  ghost function Raised(y: Sys, schedule: seq<Step>, s: nat): nat
    requires Inv(y) && s < NPROC
    decreases |schedule|
  {
    if schedule == [] || !Enabled(y, schedule[0]) then 0
    else
      StepKeeps(y, schedule[0]);
      var y' := Apply(y, schedule[0]);
      (if RaisedIn(y, schedule[0], y', s) then 1 else 0) + Raised(y', schedule[1..], s)
  }

  /**
   The account of a process over any run: what is left of its way down to the last queue goes down by exactly what it
   gives up, and up by exactly one for each time that aging moves it up.
   */
  lemma {:induction false} BudgetAccount(y: Sys, schedule: seq<Step>, s: nat)
    requires Inv(y) && Execute(y, schedule).Reached? && s < NPROC && SameHolder(y, schedule, s)
    ensures var y' := Execute(y, schedule).y;
      && Shape(y') && Budget(y.procs[s]) && Budget(y'.procs[s])
      && Left(y'.procs[s]) + Spent(y, schedule, s) == Left(y.procs[s]) + Raised(y, schedule, s)
    decreases |schedule|
  {
    assert Budget(y.procs[s]);
    if schedule != [] {
      var y1 := Apply(y, schedule[0]);
      StepKeeps(y, schedule[0]);
      StepAccount(y, schedule[0], y1, s);
      BudgetAccount(y1, schedule[1..], s);
    }
  }

  /** A process that aging leaves alone never moves up, and above the last queue every timer interrupt counts. */
  lemma {:induction false} OnlySinks(y: Sys, schedule: seq<Step>, s: nat)
    requires Inv(y) && Execute(y, schedule).Reached? && s < NPROC && SameHolder(y, schedule, s)
    requires Raised(y, schedule, s) == 0
    ensures var y' := Execute(y, schedule).y;
      && Shape(y') && y.procs[s].level <= y'.procs[s].level
      && (y'.procs[s].level < LEVELS - 1 ==> Interrupts(schedule, s) <= Spent(y, schedule, s))
    decreases |schedule|
  {
    if schedule != [] {
      var y1 := Apply(y, schedule[0]);
      StepKeeps(y, schedule[0]);
      StepAccount(y, schedule[0], y1, s);
      OnlySinks(y1, schedule[1..], s);
    }
  }

  /**
   A process that aging leaves alone is in the last queue after as many timer interrupts as it has ticks and levels
   left, whatever else happens, sleeping included: a new one after 34.
   */
  lemma ReachesLastQueue(y: Sys, schedule: seq<Step>, s: nat)
    requires Inv(y) && Execute(y, schedule).Reached? && s < NPROC && SameHolder(y, schedule, s)
    requires Raised(y, schedule, s) == 0 && Budget(y.procs[s]) && Interrupts(schedule, s) >= Left(y.procs[s])
    ensures Shape(Execute(y, schedule).y) && Execute(y, schedule).y.procs[s].level == LEVELS - 1
  {
    BudgetAccount(y, schedule, s);
    OnlySinks(y, schedule, s);
  }

  lemma NewReachesLastQueue(y: Sys, schedule: seq<Step>, s: nat)
    requires Inv(y) && Execute(y, schedule).Reached? && s < NPROC && SameHolder(y, schedule, s)
    requires Raised(y, schedule, s) == 0 && Unspent(y.procs[s]) && Interrupts(schedule, s) >= 34
    ensures Shape(Execute(y, schedule).y) && Execute(y, schedule).y.procs[s].level == LEVELS - 1
  {
    LeftOfNew(y.procs[s]);
    ReachesLastQueue(y, schedule, s);
  }
}

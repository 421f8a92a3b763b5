/** Whole runs of the process table: the invariant, progress of waiting processes, and time slices. */
module ProcRuns {
  import opened Common
  import opened Counting
  import opened ProcState
  import opened Aging
  import opened ProcSteps
  import opened ExitWait

  datatype Step =
    | DoAlloc(f: nat) | DoAbandon(f: nat) | DoPrepare(f: nat) | DoSetParent(f: nat) | DoForkDone(f: nat)
    | DoExit(f: nat) | DoWait(f: nat)
    | DoSleep(f: nat, id: nat) | DoWakeup(id: nat) | DoKill(pid: nat)
    | DoFault(f: nat) | DoTick | DoSlice(f: nat) | DoPass

  /** Which steps can be taken: a process acts while it runs, and exits only outside fork(); init does not exit. */
  predicate Enabled(y: Sys, step: Step) {
    match step
    case DoAlloc(f) => IsRunning(y, f) && y.tasks[f].Idle?
    case DoAbandon(f) => IsRunning(y, f) && (y.tasks[f].Alloced? || y.tasks[f].Ready?)
    case DoPrepare(f) => IsRunning(y, f) && y.tasks[f].Alloced?
    case DoSetParent(f) => IsRunning(y, f) && y.tasks[f].Ready?
    case DoForkDone(f) => IsRunning(y, f) && y.tasks[f].Parented?
    case DoExit(f) => IsRunning(y, f) && y.tasks[f].Idle? && f != y.init
    case DoWait(f) => IsRunning(y, f) && y.tasks[f].Idle?
    case DoSleep(f, id) => IsRunning(y, f)
    case DoFault(f) => IsRunning(y, f) && y.tasks[f].Idle?
    case DoSlice(f) => IsRunning(y, f)
    case DoWakeup(id) => true
    case DoKill(pid) => true
    case DoTick => true
    case DoPass => true
  }

  /** What a step may rely on, in the form the actions ask for it. */
  lemma StepFacts(y: Sys, f: nat)
    requires Inv(y)
    ensures Lines(y) && forall s :: 0 <= s < NPROC ==> Budget(y.procs[s])
    ensures f < NPROC && !y.tasks[f].Idle? ==> y.tasks[f].child < NPROC
    ensures f < NPROC && f != y.init && y.procs[f].state == Running ==> y.procs[f].parent.Some?
  {
    InvLines(y);
    if f < NPROC {
      assert TaskOk(y, f) && Kin(y, f);
    }
  }

  ghost function Apply(y: Sys, step: Step): Sys
    requires Inv(y) && Enabled(y, step)
  {
    StepFacts(y, if step.DoWakeup? || step.DoKill? || step.DoTick? || step.DoPass? then 0 else step.f);
    match step
    case DoAlloc(f) => Alloc(y, f)
    case DoAbandon(f) => Abandon(y, f)
    case DoPrepare(f) => Prepare(y, f)
    case DoSetParent(f) => SetParent(y, f)
    case DoForkDone(f) => ForkDone(y, f)
    case DoExit(f) => Exit(y, f)
    case DoWait(f) => Wait(y, f)
    case DoSleep(f, id) => SleepOn(y, f, Other(id))
    case DoFault(f) => Fault(y, f)
    case DoSlice(f) => Slice(y, f)
    case DoWakeup(id) => Wakeup(y, Other(id))
    case DoKill(pid) => Kill(y, pid)
    case DoTick => y.(ticks := y.ticks + 1)
    case DoPass => Pass(y)
  }

  lemma ForkStepKeeps(y: Sys, step: Step, y': Sys)
    requires Inv(y) && Enabled(y, step) && y' == Apply(y, step)
    requires step.DoAlloc? || step.DoAbandon? || step.DoPrepare? || step.DoSetParent? || step.DoForkDone?
    ensures Inv(y')
  {
    StepFacts(y, step.f);
    match step
    case DoAlloc(f) => AllocKeeps(y, f, y');
    case DoAbandon(f) => AbandonKeeps(y, f, y');
    case DoPrepare(f) => PrepareKeeps(y, f, y');
    case DoSetParent(f) => SetParentKeeps(y, f, y');
    case DoForkDone(f) => ForkDoneKeeps(y, f, y');
  }

  lemma OwnStepKeeps(y: Sys, step: Step, y': Sys)
    requires Inv(y) && Enabled(y, step) && y' == Apply(y, step)
    requires step.DoExit? || step.DoWait? || step.DoSleep? || step.DoFault? || step.DoSlice?
    ensures Inv(y')
  {
    StepFacts(y, step.f);
    match step
    case DoExit(f) => ExitKeeps(y, f, y');
    case DoWait(f) => WaitKeeps(y, f, y');
    case DoSleep(f, id) => SleepKeeps(y, f, id, y');
    case DoFault(f) => FaultKeeps(y, f, y');
    case DoSlice(f) => SliceKeeps(y, f, y');
  }

  lemma OtherStepKeeps(y: Sys, step: Step, y': Sys)
    requires Inv(y) && Enabled(y, step) && y' == Apply(y, step)
    requires step.DoWakeup? || step.DoKill? || step.DoTick? || step.DoPass?
    ensures Inv(y')
  {
    StepFacts(y, 0);
    match step
    case DoWakeup(id) => WakeupKeeps(y, Other(id), y');
    case DoKill(pid) => KillKeeps(y, pid, y');
    case DoTick => ShuffleKeeps(y, y');
    case DoPass => PassKeeps(y, y');
  }

  /** Every step keeps the invariant. */
  lemma StepKeeps(y: Sys, step: Step)
    requires Inv(y) && Enabled(y, step)
    ensures Inv(Apply(y, step))
  {
    var y' := Apply(y, step);
    if step.DoAlloc? || step.DoAbandon? || step.DoPrepare? || step.DoSetParent? || step.DoForkDone? {
      ForkStepKeeps(y, step, y');
    } else if step.DoExit? || step.DoWait? || step.DoSleep? || step.DoFault? || step.DoSlice? {
      OwnStepKeeps(y, step, y');
    } else {
      OtherStepKeeps(y, step, y');
    }
  }

  // ------------------------------------------------ runs

  /** The state userinit() leaves: init in slot 0, runnable, alone in queue 0. */
  function Boot(ticks: nat): Sys {
    var none := Proc(Unused, 0, None, NoChan, false, 0, [0, 0, 0, 0, 0], 0, false);
    Sys(seq(NPROC, i => if i == 0 then none.(state := Runnable, pid := 1, qtime := ticks) else none),
        [[0], [], [], [], []], seq(NPROC, _ => Idle), 2, ticks, 0, [])
  }

  lemma BootInv(ticks: nat)
    ensures Inv(Boot(ticks))
  {
    var y := Boot(ticks);
    assert LineOk(y.procs, y.queues[0], 0);
    assert Placed(y.procs, y.queues, 0);
  }

  datatype Outcome = Stopped | Reached(y: Sys)

  /** Take the steps of a schedule from y; a step that is not enabled ends the run. */
  ghost function Execute(y: Sys, schedule: seq<Step>): (r: Outcome)
    requires Inv(y)
    ensures r.Reached? ==> Inv(r.y)
    decreases |schedule|
  {
    if schedule == [] then Reached(y)
    else if !Enabled(y, schedule[0]) then Stopped
    else
      StepKeeps(y, schedule[0]);
      Execute(Apply(y, schedule[0]), schedule[1..])
  }

  /** A run of the system from boot. */
  ghost function Run(ticks: nat, schedule: seq<Step>): (r: Outcome)
    ensures r.Reached? ==> Inv(r.y)
  {
    BootInv(ticks);
    Execute(Boot(ticks), schedule)
  }

  lemma AtMeansWaiting(y: Sys, l: nat, j: nat, s: nat)
    requires Members(y.procs, y.queues) && At(y, l, j, s)
    ensures s < |y.procs| && y.procs[s].state == Runnable && y.procs[s].level == l
  {
    assert LineOk(y.procs, y.queues[l], l);
    assert Waiting(y.procs, y.queues[l][j], l);
  }

  lemma RunnableIsAt(y: Sys, s: nat)
    requires Members(y.procs, y.queues) && s < |y.procs| && y.procs[s].state == Runnable
    ensures exists j: nat :: At(y, y.procs[s].level, j, s)
  {
    assert Placed(y.procs, y.queues, s);
    var l := y.procs[s].level;
    var j :| 0 <= j < |y.queues[l]| && y.queues[l][j] == s;
    assert At(y, l, j, s);
  }

  /** In every reachable state a process is in a queue exactly if it is runnable, then once, at its own level. */
  lemma QueuesExact(ticks: nat, schedule: seq<Step>, y: Sys, s: nat)
    requires Run(ticks, schedule) == Reached(y) && s < NPROC
    ensures Shape(y) && (y.procs[s].state == Runnable <==> exists l: nat, j: nat :: At(y, l, j, s))
    ensures forall l: nat, j: nat, l': nat, j': nat :: At(y, l, j, s) && At(y, l', j', s) ==>
              l == l' == y.procs[s].level && j == j'
  {
    if y.procs[s].state == Runnable {
      RunnableIsAt(y, s);
    }
    forall l: nat, j: nat | At(y, l, j, s) ensures y.procs[s].state == Runnable && y.procs[s].level == l {
      AtMeansWaiting(y, l, j, s);
    }
    forall l: nat, j: nat, j': nat | At(y, l, j, s) && At(y, l, j', s) ensures j == j' {
      assert LineOk(y.procs, y.queues[l], l);
    }
  }

  /** No queue index reaches NPROC, and pid 0 is in no queue, so wait() has nothing to remove. */
  lemma QueuesFit(ticks: nat, schedule: seq<Step>, y: Sys, l: nat)
    requires Run(ticks, schedule) == Reached(y) && l < LEVELS
    ensures Shape(y) && |y.queues[l]| <= NPROC
    ensures forall j :: 0 <= j < |y.queues[l]| ==> y.queues[l][j] < NPROC && y.procs[y.queues[l][j]].pid != 0
  {
    LineFits(y.procs, y.queues[l], l);
    forall j | 0 <= j < |y.queues[l]| ensures y.queues[l][j] < NPROC && y.procs[y.queues[l][j]].pid != 0 {
      AtMeansWaiting(y, l, j, y.queues[l][j]);
      assert Live(y.procs[y.queues[l][j]]);
    }
  }

  lemma LineFits(procs: seq<Proc>, line: seq<nat>, l: nat)
    requires LineOk(procs, line, l)
    ensures |line| <= |procs|
  {
    if line != [] {
      var front, last := line[..|line| - 1], line[|line| - 1];
      assert Waiting(procs, line[|line| - 1], l);
      assert last !in front;
      forall j | 0 <= j < |front| ensures Waiting(procs, front[j], l) {
        assert Waiting(procs, line[j], l);
      }
      RoomInLine(procs, front, l, last);
    }
  }

  /** In every reachable state a process has earned its level: it has used up its ticks at every level above. */
  lemma LevelsAreEarned(ticks: nat, schedule: seq<Step>, y: Sys, s: nat)
    requires Run(ticks, schedule) == Reached(y) && s < NPROC
    ensures Shape(y) && y.procs[s].level < LEVELS && |y.procs[s].used| == LEVELS
    ensures forall l :: 0 <= l < y.procs[s].level ==> y.procs[s].used[l] >= Limit(l)
    ensures y.procs[s].over ==> y.procs[s].used[y.procs[s].level] >= Limit(y.procs[s].level)
  {
    assert Budget(y.procs[s]);
  }

  /** The families and pids in every reachable state. */
  lemma NoOrphansNoLostExits(ticks: nat, schedule: seq<Step>, y: Sys, s: nat, t: nat)
    requires Run(ticks, schedule) == Reached(y) && s < NPROC && t < NPROC
    ensures Shape(y) && (ChildOf(y.procs[s], t) ==> Active(y.procs[t]))
    ensures ChildOf(y.procs[s], t) && y.procs[s].state == Zombie ==> !SleepsOn(y.procs[t], SlotChan(t))
    ensures s != t && Live(y.procs[s]) && Live(y.procs[t]) ==> y.procs[s].pid != y.procs[t].pid
    ensures Live(y.procs[s]) ==> y.procs[s].pid !in y.reaped
    ensures Distinct(y.reaped)
  {
    assert Kin(y, s) && NoMissedExit(y, s);
  }
}

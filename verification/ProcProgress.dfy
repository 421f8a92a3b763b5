/** What every run does for a waiting process, and how long a dispatch lasts. */
module ProcProgress {
  import opened Common
  import opened ProcState
  import opened Aging
  import opened ProcSteps
  import opened ExitWait
  import opened ProcRuns

  /** A waiting process waits on, in the same queue and since the same time; a running one has run, uncharged. */
  predicate Undisturbed(p: Proc, p': Proc) {
    && (p.state == Runnable ==> p'.state == Runnable && p'.level == p.level && p'.qtime == p.qtime)
    && (p'.state == Running ==> p.state == Running && p'.level == p.level && p'.used == p.used)
  }

  /** From y to y' all processes but f are undisturbed, and no one has moved back in a queue. */
  ghost predicate Steady(y: Sys, y': Sys, f: nat) {
    && Shape(y) && Shape(y') && Appended(y, y') && y.ticks <= y'.ticks
    && forall s :: 0 <= s < NPROC && s != f ==> Undisturbed(y.procs[s], y'.procs[s])
  }

  lemma SlotSteady(y: Sys, y': Sys, u: nat, p: Proc)
    requires Shape(y) && Shape(y') && u < NPROC && y'.procs == y.procs[u := p] && y'.queues == y.queues &&
             y'.ticks == y.ticks
    requires Undisturbed(y.procs[u], p)
    ensures Steady(y, y', NPROC)
  {
  }

  lemma EnterSteady(y: Sys, y': Sys, u: nat, p: Proc, f: nat)
    requires Shape(y) && Shape(y') && u < NPROC && y'.procs == y.procs[u := p] && y'.ticks == y.ticks &&
             p.level < LEVELS
    requires y'.queues == y.queues[p.level := y.queues[p.level] + [u]]
    requires u == f || Undisturbed(y.procs[u], p)
    ensures Steady(y, y', f)
  {
  }

  lemma WokenSteady(y: Sys, y': Sys, c: Chan)
    requires WokenUp(y, y', c) && Appended(y, y')
    ensures Steady(y, y', NPROC)
  {
    forall s | 0 <= s < NPROC ensures Undisturbed(y.procs[s], y'.procs[s]) {
      assert y'.procs[s] == Woken(y.procs[s], c, y.ticks);
    }
  }

  lemma SteadyTrans(y: Sys, y1: Sys, y2: Sys)
    requires Steady(y, y1, NPROC) && Steady(y1, y2, NPROC)
    ensures Steady(y, y2, NPROC)
  {
    forall s | 0 <= s < NPROC ensures Undisturbed(y.procs[s], y2.procs[s]) {
      assert Undisturbed(y.procs[s], y1.procs[s]) && Undisturbed(y1.procs[s], y2.procs[s]);
    }
    forall l | 0 <= l < LEVELS ensures y.queues[l] <= y2.queues[l] {
      assert y.queues[l] <= y1.queues[l] && y1.queues[l] <= y2.queues[l];
    }
  }

  lemma AdoptOneSteady(y: Sys, f: nat, k: nat, next: nat, y': Sys)
    requires Exiting(y, f, k) && k < NPROC && next == k + 1 && y' == AdoptOne(y, f, k)
    ensures Steady(y, y', NPROC)
  {
    if ChildOf(y.procs[k], f) {
      var p := y.procs[k].(parent := Some(y.init));
      var y1 := With(y, k, p);
      SlotSteady(y, y1, k, p);
      if p.state == Zombie {
        HandOver(y, f, k, next, y1);
        var c := SlotChan(y.init);
        WakeupWakes(y1, c);
        WokenSteady(y1, y', c);
        SteadyTrans(y, y1, y');
      }
    } else {
      SlotSteady(y, y, k, y.procs[k]);
    }
  }

  lemma {:induction false} AdoptAllSteady(y: Sys, f: nat, k: nat)
    requires Exiting(y, f, k) && k <= NPROC
    ensures Steady(y, AdoptFrom(y, f, k), NPROC)
    decreases NPROC - k
  {
    if k < NPROC {
      var y1, next, y2 := AdoptOne(y, f, k), k + 1, AdoptFrom(y, f, k);
      AdoptOneKeeps(y, f, k, next, y1);
      AdoptOneSteady(y, f, k, next, y1);
      AdoptAllSteady(y1, f, next);
      SteadyTrans(y, y1, y2);
    } else {
      SlotSteady(y, y, 0, y.procs[0]);
    }
  }

  lemma ExitSteady(y: Sys, f: nat, y': Sys)
    requires Inv(y) && IsRunning(y, f) && y.tasks[f].Idle? && f != y.init && y.procs[f].parent.Some? && y' == Exit(y, f)
    ensures Steady(y, y', NPROC)
  {
    var c := SlotChan(y.procs[f].parent.value);
    var y1 := Wakeup(y, c);
    ExitStarts(y, f, y1);
    WakeupWakes(y, c);
    WokenSteady(y, y1, c);
    var y2 := AdoptFrom(y1, f, 0);
    AdoptAllSteady(y1, f, 0);
    AdoptAllRuns(y1, f, y2);
    SteadyTrans(y, y1, y2);
    ZombieSteady(y2, f, y');
    SteadyTrans(y, y2, y');
  }

  lemma AdoptAllRuns(y: Sys, f: nat, y': Sys)
    requires Exiting(y, f, 0) && y' == AdoptFrom(y, f, 0)
    ensures IsRunning(y', f)
  {
    AdoptAllKeeps(y, f, 0);
  }

  lemma ZombieSteady(y: Sys, f: nat, y': Sys)
    requires Shape(y) && f < NPROC && y' == With(y, f, y.procs[f].(state := Zombie)) && y.procs[f].state != Runnable
    ensures Steady(y, y', NPROC)
  {
    SlotSteady(y, y', f, y'.procs[f]);
  }

  lemma ForkStepSteady(y: Sys, step: Step, y': Sys)
    requires Inv(y) && Enabled(y, step) && y' == Apply(y, step)
    requires step.DoAlloc? || step.DoAbandon? || step.DoPrepare? || step.DoSetParent? || step.DoForkDone?
    ensures Steady(y, y', NPROC)
  {
    var f := step.f;
    StepFacts(y, f);
    assert TaskOk(y, f);
    var u := if step.DoAlloc? then FirstUnused(y.procs, 0) else y.tasks[f].child;
    if u == NPROC {
      SlotSteady(y, y', 0, y.procs[0]);
    } else if step.DoForkDone? {
      EnterSteady(y, y', u, y'.procs[u], NPROC);
    } else {
      SlotSteady(y, y', u, y'.procs[u]);
    }
  }

  lemma WaitSteady(y: Sys, f: nat, y': Sys)
    requires Inv(y) && IsRunning(y, f) && y' == Wait(y, f)
    ensures Steady(y, y', NPROC)
  {
    var z := FindZombie(y.procs, f, 0);
    var u := if z < NPROC then z else f;
    SlotSteady(y, y', u, y'.procs[u]);
  }

  lemma KillSteady(y: Sys, pid: nat, y': Sys)
    requires Shape(y) && Budgets(y.procs) && y' == Kill(y, pid)
    ensures Steady(y, y', NPROC)
  {
    var s := FindPid(y.procs, pid, 0);
    if s == NPROC {
      SlotSteady(y, y', 0, y.procs[0]);
    } else if y.procs[s].state == Sleeping {
      assert Budget(y.procs[s]);
      EnterSteady(y, y', s, y'.procs[s], NPROC);
    } else {
      SlotSteady(y, y', s, y'.procs[s]);
    }
  }

  lemma SliceSteady(y: Sys, f: nat, y': Sys)
    requires IsRunning(y, f) && Budget(y.procs[f]) && y' == Slice(y, f)
    ensures Steady(y, y', f)
  {
    var p := y.procs[f];
    if p.used[p.level] >= Limit(p.level) {
      EnterSteady(y, y', f, y'.procs[f], f);
    }
  }

  lemma TickSteady(y: Sys, y': Sys)
    requires Shape(y) && y' == y.(ticks := y.ticks + 1)
    ensures Steady(y, y', NPROC)
  {
  }

  /** Every step but a pass of the scheduler is steady; a timer interrupt disturbs only the process it interrupts. */
  lemma StepSteady(y: Sys, step: Step, y': Sys)
    requires Inv(y) && Enabled(y, step) && !step.DoPass? && y' == Apply(y, step)
    ensures Steady(y, y', if step.DoSlice? then step.f else NPROC)
  {
    match step
    case DoExit(f) =>
      StepFacts(y, f);
      ExitSteady(y, f, y');
    case DoWakeup(id) =>
      WakeupWakes(y, Other(id));
      WokenSteady(y, y', Other(id));
    case DoWait(f) => WaitSteady(y, f, y');
    case DoKill(pid) => KillSteady(y, pid, y');
    case DoSlice(f) => SliceSteady(y, f, y');
    case DoFault(f) => SlotSteady(y, y', f, y'.procs[f]);
    case DoSleep(f, id) => SlotSteady(y, y', f, y'.procs[f]);
    case DoTick => TickSteady(y, y');
    case _ => ForkStepSteady(y, step, y');
  }

  // ------------------------------------------------ progress

  /** How many rounds of the scheduler a schedule has. */
  function Passes(schedule: seq<Step>): nat {
    if schedule == [] then 0 else (if schedule[0].DoPass? then 1 else 0) + Passes(schedule[1..])
  }

  /** A round of the scheduler in this run dispatches s or promotes it from level l to the one above. */
  ghost predicate Leaves(y: Sys, schedule: seq<Step>, l: nat, s: nat)
    requires Inv(y)
    decreases |schedule|
  {
    && schedule != [] && Enabled(y, schedule[0]) && s < NPROC
    && var y' := Apply(y, schedule[0]);
      StepKeeps(y, schedule[0]);
      || (schedule[0].DoPass? && (y'.procs[s].state == Running || (l > 0 && PromotedTo(y', s, l - 1))))
      || Leaves(y', schedule[1..], l, s)
  }

  /** A process whose turn must come: in queue 0, or aged. */
  predicate Due(y: Sys, l: nat, s: nat) {
    s < |y.procs| && (l == 0 || Aged(y, s))
  }

  lemma StaysDue(y: Sys, step: Step, y': Sys, l: nat, k: nat, s: nat)
    requires Inv(y) && Enabled(y, step) && !step.DoPass? && y' == Apply(y, step) && At(y, l, k, s) && Due(y, l, s)
    ensures At(y', l, k, s) && Due(y', l, s)
  {
    StepSteady(y, step, y');
    AtMeansWaiting(y, l, k, s);
    assert y.queues[l] <= y'.queues[l];
    assert Undisturbed(y.procs[s], y'.procs[s]);
  }

  /**
   A process at position k of queue 0 is dispatched within k + 1 rounds of the scheduler; an aged one at position k of
   another queue is dispatched or promoted by one level within k + 1 rounds, whatever else happens between them.
   */
  lemma {:induction false} WaitsAtMost(y: Sys, schedule: seq<Step>, l: nat, k: nat, s: nat)
    requires Inv(y) && At(y, l, k, s) && Due(y, l, s) && Execute(y, schedule).Reached? && Passes(schedule) > k
    ensures Leaves(y, schedule, l, s)
    decreases |schedule|
  {
    var step, rest := schedule[0], schedule[1..];
    var y' := Apply(y, step);
    StepKeeps(y, step);
    AtMeansWaiting(y, l, k, s);
    if !step.DoPass? {
      StaysDue(y, step, y', l, k, s);
      WaitsAtMost(y', rest, l, k, s);
    } else {
      PassOrMoves(y, y', l, k, s);
      if !(y'.procs[s].state == Running || (l > 0 && PromotedTo(y', s, l - 1))) {
        var k' :| 0 <= k' < k && At(y', l, k', s);
        WaitsAtMost(y', rest, l, k', s);
      }
    }
  }

  lemma PassOrMoves(y: Sys, y': Sys, l: nat, k: nat, s: nat)
    requires Inv(y) && Lines(y) && y' == Pass(y) && At(y, l, k, s) && Due(y, l, s)
    ensures s < NPROC && |y'.procs| == NPROC
    ensures || y'.procs[s].state == Running || (l > 0 && PromotedTo(y', s, l - 1))
            || (Due(y', l, s) && exists k' :: 0 <= k' < k && At(y', l, k', s))
  {
    PassAt(y, l, k, s);
    PassKeeps(y, y');
    AgeFromInv(y, 1);
    assert y'.ticks == y.ticks;
  }

  // ------------------------------------------------ time slices

  /** The timer interrupts a running process can take before it yields, that one included. */
  function TicksLeft(p: Proc): nat
    requires p.level < LEVELS && |p.used| == LEVELS
  {
    if p.used[p.level] >= Limit(p.level) then 1 else Limit(p.level) - p.used[p.level] + 1
  }

  /** A dispatch with prior count q lasts max(1, limit - q) timer interrupts. */
  lemma DispatchTicks(p: Proc, l: nat)
    requires Budget(p) && p.level == l
    ensures TicksLeft(Chosen(p, l)) == if p.used[l] + 1 >= Limit(l) then 1 else Limit(l) - p.used[l]
  {
  }

  function Interrupts(schedule: seq<Step>, f: nat): nat {
    if schedule == [] then 0 else (if schedule[0] == DoSlice(f) then 1 else 0) + Interrupts(schedule[1..], f)
  }

  /** f is running after each step of the run. */
  ghost predicate RunsThroughout(y: Sys, schedule: seq<Step>, f: nat)
    requires Inv(y)
    decreases |schedule|
  {
    && IsRunning(y, f)
    && (schedule == [] || (Enabled(y, schedule[0]) && (
          StepKeeps(y, schedule[0]);
          RunsThroughout(Apply(y, schedule[0]), schedule[1..], f))))
  }

  lemma {:induction false} AgeLevelSpares(y: Sys, i: nat, j: nat, f: nat)
    requires Lines(y) && Members(y.procs, y.queues) && Budgets(y.procs) && 0 < i < LEVELS && IsRunning(y, f)
    ensures AgeLevel(y, i, j).procs[f] == y.procs[f]
    decreases |y.queues[i]| - j
  {
    if j < |y.queues[i]| {
      if Aged(y, y.queues[i][j]) {
        PromoteLines(y, i, j);
        PromoteMembers(y, i, j);
        PromoteBudget(y, i, j);
        AtMeansWaiting(y, i, j, y.queues[i][j]);
        var y1 := Promote(y, i, j);
        AgeLevelSpares(y1, i, j + 1, f);
      } else {
        AgeLevelSpares(y, i, j + 1, f);
      }
    }
  }

  lemma {:induction false} AgeFromSpares(y: Sys, i: nat, f: nat)
    requires Lines(y) && Members(y.procs, y.queues) && Budgets(y.procs) && 0 < i <= LEVELS && IsRunning(y, f)
    ensures Shape(AgeFrom(y, i)) && AgeFrom(y, i).procs[f] == y.procs[f]
    decreases LEVELS - i
  {
    if i < LEVELS {
      AgeLevelKeeps(y, i, 0);
      AgeLevelInv(y, i, 0);
      AgeLevelSpares(y, i, 0, f);
      AgeFromSpares(AgeLevel(y, i, 0), i + 1, f);
    }
  }

  /** A round of the scheduler on another CPU does not touch a running process. */
  lemma PassSpares(y: Sys, y': Sys, f: nat)
    requires Inv(y) && Lines(y) && y' == Pass(y) && IsRunning(y, f)
    ensures Shape(y') && y'.procs[f] == y.procs[f]
  {
    AgeFromInv(y, 1);
    AgeFromSpares(y, 1, f);
    PassKeeps(y, y');
    var y1 := AgeFrom(y, 1);
    var l := FirstLine(y1, 0);
    if l < LEVELS {
      AtMeansWaiting(y1, l, 0, y1.queues[l][0]);
    }
  }

  lemma StepCharges(y: Sys, step: Step, y': Sys, f: nat)
    requires Inv(y) && Enabled(y, step) && y' == Apply(y, step) && IsRunning(y, f) && IsRunning(y', f)
    requires Budget(y.procs[f]) && Budget(y'.procs[f])
    ensures TicksLeft(y'.procs[f]) + (if step == DoSlice(f) then 1 else 0) == TicksLeft(y.procs[f])
  {
    if step == DoSlice(f) {
    } else if step.DoPass? {
      StepFacts(y, f);
      PassSpares(y, y', f);
    } else {
      StepSteady(y, step, y');
      assert Undisturbed(y.procs[f], y'.procs[f]);
    }
  }

  /** While a process runs, it takes fewer timer interrupts than its budget allows: at the last of them it yields. */
  lemma {:induction false} SliceIsBounded(y: Sys, schedule: seq<Step>, f: nat)
    requires Inv(y) && RunsThroughout(y, schedule, f)
    ensures Budget(y.procs[f]) && Interrupts(schedule, f) < TicksLeft(y.procs[f])
    decreases |schedule|
  {
    assert Budget(y.procs[f]);
    if schedule != [] {
      var y' := Apply(y, schedule[0]);
      StepKeeps(y, schedule[0]);
      SliceIsBounded(y', schedule[1..], f);
      StepCharges(y, schedule[0], y', f);
    }
  }
}

/** Which steps of a run set and clear p->killed, and when a new process starts killed. */
module ProcKill {
  import opened Common
  import opened ProcState
  import opened Aging
  import opened ProcSteps
  import opened ExitWait
  import opened ProcRuns

  /** The slot holds a process that has left fork(), whatever has become of it since. */
  predicate Used(p: Proc) {
    p.state != Unused && p.state != Embryo
  }

  predicate SameMark(p: Proc, p': Proc) {
    p'.killed == p.killed && (Used(p) ==> Used(p'))
  }

  /** No process has been marked or unmarked, and no slot given up. */
  ghost predicate SameMarks(y: Sys, y': Sys) {
    |y.procs| == |y'.procs| == NPROC && forall s :: 0 <= s < NPROC ==> SameMark(y.procs[s], y'.procs[s])
  }

  lemma SlotMarks(y: Sys, y': Sys, u: nat, p: Proc)
    requires |y.procs| == NPROC && u < NPROC && y'.procs == y.procs[u := p] && SameMark(y.procs[u], p)
    ensures SameMarks(y, y')
  {
  }

  lemma MarksTrans(y: Sys, y1: Sys, y2: Sys)
    requires SameMarks(y, y1) && SameMarks(y1, y2)
    ensures SameMarks(y, y2)
  {
    forall s | 0 <= s < NPROC ensures SameMark(y.procs[s], y2.procs[s]) {
      assert SameMark(y.procs[s], y1.procs[s]) && SameMark(y1.procs[s], y2.procs[s]);
    }
  }

  /** kill() in this step finds slot s first. */
  ghost predicate Hits(y: Sys, step: Step, s: nat) {
    step.DoKill? && FindPid(y.procs, step.pid, 0) == s
  }

  /** The process in slot s faults in this step. */
  ghost predicate Faults(step: Step, s: nat) {
    step == DoFault(s)
  }

  /** wait() in this step reaps slot s. */
  ghost predicate Reaps(y: Sys, step: Step, s: nat) {
    step.DoWait? && FindZombie(y.procs, step.f, 0) == s
  }

  lemma WokenMarks(y: Sys, c: Chan)
    requires Shape(y) && Members(y.procs, y.queues) && Budgets(y.procs)
    ensures SameMarks(y, Wakeup(y, c))
  {
    WakeupWakes(y, c);
    var y' := Wakeup(y, c);
    forall s | 0 <= s < NPROC ensures SameMark(y.procs[s], y'.procs[s]) {
      assert y'.procs[s] == Woken(y.procs[s], c, y.ticks);
    }
  }

  lemma AdoptOneMarks(y: Sys, f: nat, k: nat, next: nat, y': Sys)
    requires Exiting(y, f, k) && k < NPROC && next == k + 1 && y' == AdoptOne(y, f, k)
    ensures SameMarks(y, y')
  {
    if ChildOf(y.procs[k], f) {
      var p := y.procs[k].(parent := Some(y.init));
      var y1 := With(y, k, p);
      SlotMarks(y, y1, k, p);
      if p.state == Zombie {
        HandOver(y, f, k, next, y1);
        WokenMarks(y1, SlotChan(y.init));
        MarksTrans(y, y1, y');
      }
    }
  }

  lemma {:induction false} AdoptMarks(y: Sys, f: nat, k: nat)
    requires Exiting(y, f, k) && k <= NPROC
    ensures SameMarks(y, AdoptFrom(y, f, k))
    decreases NPROC - k
  {
    if k < NPROC {
      var y1, next := AdoptOne(y, f, k), k + 1;
      AdoptOneKeeps(y, f, k, next, y1);
      AdoptOneMarks(y, f, k, next, y1);
      AdoptMarks(y1, f, next);
      MarksTrans(y, y1, AdoptFrom(y, f, k));
    }
  }

  lemma ExitMarks(y: Sys, f: nat, y': Sys)
    requires Inv(y) && IsRunning(y, f) && y.tasks[f].Idle? && f != y.init && y.procs[f].parent.Some? && y' == Exit(y, f)
    ensures SameMarks(y, y')
  {
    var c := SlotChan(y.procs[f].parent.value);
    var y1 := Wakeup(y, c);
    ExitStarts(y, f, y1);
    WokenMarks(y, c);
    var y2 := AdoptFrom(y1, f, 0);
    AdoptMarks(y1, f, 0);
    AdoptAllKeeps(y1, f, 0);
    MarksTrans(y, y1, y2);
    SlotMarks(y2, y', f, y2.procs[f].(state := Zombie));
    MarksTrans(y, y2, y');
  }

  lemma PassMarks(y: Sys)
    requires Inv(y) && Lines(y)
    ensures SameMarks(y, Pass(y))
  {
    AgeFromInv(y, 1);
    var y1 := AgeFrom(y, 1);
    AgeMarks(y, y1);
    DispatchMarks(y1, Pass(y));
    MarksTrans(y, y1, Pass(y));
  }

  lemma AgeMarks(y: Sys, y1: Sys)
    requires Reordered(y, y1)
    ensures SameMarks(y, y1)
  {
    forall s | 0 <= s < NPROC ensures SameMark(y.procs[s], y1.procs[s]) {
      assert Requeued(y.procs[s], y1.procs[s]);
    }
  }

  lemma DispatchMarks(y: Sys, y': Sys)
    requires Lines(y) && (forall s :: 0 <= s < NPROC ==> |y.procs[s].used| == LEVELS) && y' == Dispatch(y)
    ensures SameMarks(y, y')
  {
  }

  lemma KillMarks(y: Sys, pid: nat, y': Sys, s: nat)
    requires Shape(y) && (forall u :: 0 <= u < NPROC ==> y.procs[u].level < LEVELS) && y' == Kill(y, pid) && s < NPROC
    ensures |y'.procs| == NPROC && (y'.procs[s].killed <==> y.procs[s].killed || FindPid(y.procs, pid, 0) == s)
    ensures Used(y.procs[s]) ==> Used(y'.procs[s])
  {
  }

  lemma WaitMarks(y: Sys, f: nat, y': Sys, s: nat)
    requires Shape(y) && f < NPROC && y' == Wait(y, f) && s < NPROC
    ensures |y'.procs| == NPROC && (y'.procs[s].killed <==> y.procs[s].killed && FindZombie(y.procs, f, 0) != s)
    ensures Used(y.procs[s]) && FindZombie(y.procs, f, 0) != s ==> Used(y'.procs[s])
  {
  }

  lemma ForkMarks(y: Sys, step: Step, y': Sys)
    requires Inv(y) && Enabled(y, step) && y' == Apply(y, step)
    requires step.DoAlloc? || step.DoAbandon? || step.DoPrepare? || step.DoSetParent? || step.DoForkDone?
    ensures SameMarks(y, y')
  {
    StepFacts(y, step.f);
    assert TaskOk(y, step.f);
  }

  lemma OwnMarks(y: Sys, step: Step, y': Sys)
    requires Inv(y) && Enabled(y, step) && y' == Apply(y, step)
    requires step.DoSleep? || step.DoSlice? || step.DoWakeup? || step.DoTick? || step.DoPass?
    ensures SameMarks(y, y')
  {
    StepFacts(y, if step.DoWakeup? || step.DoTick? || step.DoPass? then 0 else step.f);
    match step
    case DoWakeup(id) => WokenMarks(y, Other(id));
    case DoPass => PassMarks(y);
    case DoSleep(f, _) => SlotMarks(y, y', f, y'.procs[f]);
    case DoSlice(f) => SliceMarks(y, f, y');
    case DoTick =>
  }

  lemma SliceMarks(y: Sys, f: nat, y': Sys)
    requires IsRunning(y, f) && Budget(y.procs[f]) && y' == Slice(y, f)
    ensures SameMarks(y, y')
  {
    SlotMarks(y, y', f, y'.procs[f]);
  }

  lemma Marking(y: Sys, step: Step, y': Sys, s: nat)
    requires Inv(y) && Enabled(y, step) && y' == Apply(y, step) && s < NPROC
    requires step.DoKill? || step.DoWait? || step.DoFault?
    ensures |y'.procs| == NPROC && (Used(y.procs[s]) && !Reaps(y, step, s) ==> Used(y'.procs[s]))
    ensures y'.procs[s].killed <==>
            Hits(y, step, s) || Faults(step, s) || (y.procs[s].killed && !Reaps(y, step, s))
  {
    StepFacts(y, 0);
    match step
    case DoKill(pid) => KillMarks(y, pid, y', s);
    case DoWait(f) => WaitMarks(y, f, y', s);
    case DoFault(f) => FaultMarks(y, f, y', s);
  }

  lemma FaultMarks(y: Sys, f: nat, y': Sys, s: nat)
    requires IsRunning(y, f) && y' == Fault(y, f) && s < NPROC
    ensures |y'.procs| == NPROC && (y'.procs[s].killed <==> y.procs[s].killed || s == f)
    ensures Used(y.procs[s]) ==> Used(y'.procs[s])
  {
  }

  /**
   Only kill() and a fault mark a process, kill() the first with its pid whatever its state; only wait() unmarks one,
   when it reaps it, and only that, or a fork() that fails, gives up a slot.
   */
  lemma MarksExact(y: Sys, step: Step, y': Sys, s: nat)
    requires Inv(y) && Enabled(y, step) && y' == Apply(y, step) && s < NPROC
    ensures |y'.procs| == NPROC && (Used(y.procs[s]) && !Reaps(y, step, s) ==> Used(y'.procs[s]))
    ensures y'.procs[s].killed <==>
            Hits(y, step, s) || Faults(step, s) || (y.procs[s].killed && !Reaps(y, step, s))
  {
    if step.DoKill? || step.DoWait? || step.DoFault? {
      Marking(y, step, y', s);
    } else if step.DoExit? {
      StepFacts(y, step.f);
      ExitMarks(y, step.f, y');
    } else if step.DoSleep? || step.DoSlice? || step.DoWakeup? || step.DoTick? || step.DoPass? {
      OwnMarks(y, step, y');
    } else {
      ForkMarks(y, step, y');
    }
  }

  /** What a step does to the mark of a slot. */
  datatype Mark = ByKill | ByFault | ByReaping

  ghost function MarkOf(y: Sys, step: Step, s: nat): Option<Mark> {
    if Hits(y, step, s) then Some(ByKill)
    else if Faults(step, s) then Some(ByFault)
    else if Reaps(y, step, s) then Some(ByReaping)
    else None
  }

  /** The last kill(), fault or reaping of slot s in a run. */
  ghost function LastMark(y: Sys, schedule: seq<Step>, s: nat): Option<Mark>
    requires Inv(y)
    decreases |schedule|
  {
    if schedule == [] || !Enabled(y, schedule[0]) then None
    else
      StepKeeps(y, schedule[0]);
      var later := LastMark(Apply(y, schedule[0]), schedule[1..], s);
      if later.Some? then later else MarkOf(y, schedule[0], s)
  }

  /**
   Whoever holds slot s at the end of a run, a new process included, is marked exactly if the last kill(), fault or
   reaping of the slot was one of the first two, or there was none and it was marked at the start.
   */
  lemma {:induction false} MarkedIff(y: Sys, schedule: seq<Step>, s: nat)
    requires Inv(y) && Execute(y, schedule).Reached? && s < NPROC
    ensures var y', m := Execute(y, schedule).y, LastMark(y, schedule, s);
      && |y'.procs| == NPROC
      && (y'.procs[s].killed <==> m == Some(ByKill) || m == Some(ByFault) || (m.None? && y.procs[s].killed))
    decreases |schedule|
  {
    if schedule != [] {
      var y1 := Apply(y, schedule[0]);
      StepKeeps(y, schedule[0]);
      MarksExact(y, schedule[0], y1, s);
      MarkedIff(y1, schedule[1..], s);
    }
  }

  // ------------------------------------------------ new processes

  /** The last kill() or reaping of slot s in a run, whatever faults there were; Some(true) for a kill(). */
  ghost function LastKill(y: Sys, schedule: seq<Step>, s: nat): Option<bool>
    requires Inv(y)
    decreases |schedule|
  {
    if schedule == [] || !Enabled(y, schedule[0]) then None
    else
      StepKeeps(y, schedule[0]);
      var later := LastKill(Apply(y, schedule[0]), schedule[1..], s);
      if later.Some? then later
      else if Hits(y, schedule[0], s) then Some(true)
      else if Reaps(y, schedule[0], s) then Some(false)
      else None
  }

  /** Without a reaping a used slot stays used. */
  lemma {:induction false} StaysUsed(y: Sys, schedule: seq<Step>, s: nat)
    requires Inv(y) && Execute(y, schedule).Reached? && s < NPROC && Used(y.procs[s])
    requires LastMark(y, schedule, s).None?
    ensures Shape(Execute(y, schedule).y) && Used(Execute(y, schedule).y.procs[s])
    decreases |schedule|
  {
    if schedule != [] {
      var y1 := Apply(y, schedule[0]);
      StepKeeps(y, schedule[0]);
      MarksExact(y, schedule[0], y1, s);
      StaysUsed(y1, schedule[1..], s);
    }
  }

  /** A process that faulted has to be reaped before its slot is free, so a new one has no fault to answer for. */
  lemma {:induction false} NewHasNoFault(y: Sys, schedule: seq<Step>, s: nat)
    requires Inv(y) && Execute(y, schedule).Reached? && s < NPROC
    requires Shape(Execute(y, schedule).y) && !Used(Execute(y, schedule).y.procs[s])
    ensures LastMark(y, schedule, s) != Some(ByFault)
    decreases |schedule|
  {
    if schedule != [] {
      var y1 := Apply(y, schedule[0]);
      StepKeeps(y, schedule[0]);
      if LastMark(y1, schedule[1..], s).Some? {
        NewHasNoFault(y1, schedule[1..], s);
      } else if MarkOf(y, schedule[0], s) == Some(ByFault) {
        StaysUsed(y1, schedule[1..], s);
      }
    }
  }

  lemma {:induction false} LastIsKill(y: Sys, schedule: seq<Step>, s: nat)
    requires Inv(y) && LastMark(y, schedule, s) != Some(ByFault)
    ensures LastKill(y, schedule, s) ==
            if LastMark(y, schedule, s).None? then None else Some(LastMark(y, schedule, s) == Some(ByKill))
    decreases |schedule|
  {
    if schedule != [] && Enabled(y, schedule[0]) {
      StepKeeps(y, schedule[0]);
      LastIsKill(Apply(y, schedule[0]), schedule[1..], s);
    }
  }

  /**
   A process that fork() is still making, or whose slot is free, is marked exactly if kill() hit the slot since it was
   last reaped, or there was neither and it was marked at the start.
   */
  lemma NewIsMarkedIff(y: Sys, schedule: seq<Step>, s: nat)
    requires Inv(y) && Execute(y, schedule).Reached? && s < NPROC
    requires Shape(Execute(y, schedule).y) && !Used(Execute(y, schedule).y.procs[s])
    ensures var p, m := Execute(y, schedule).y.procs[s], LastKill(y, schedule, s);
      p.killed <==> m == Some(true) || (m.None? && y.procs[s].killed)
  {
    NewHasNoFault(y, schedule, s);
    LastIsKill(y, schedule, s);
    MarkedIff(y, schedule, s);
  }

  lemma OneStep(y: Sys, step: Step, rest: seq<Step>)
    requires Inv(y) && Enabled(y, step)
    ensures Inv(Apply(y, step)) && Execute(y, [step] + rest) == Execute(Apply(y, step), rest)
  {
    StepKeeps(y, step);
    assert ([step] + rest)[1..] == rest;
  }

  /** kill(0) marks the slot that the next fork() takes, if it is a reaped or never used one:
   the child is born killed. */
  lemma BornKilled(y: Sys, f: nat, u: nat)
    requires Inv(y) && Enabled(y, DoAlloc(f)) && u == FirstUnused(y.procs, 0) < NPROC && y.procs[u].pid == 0
    ensures var r := Execute(y, [DoKill(0)] + ([DoAlloc(f)] + []));
      r.Reached? && Shape(r.y) && r.y.procs[u].state == Embryo && r.y.procs[u].killed && r.y.tasks[f] == Alloced(u)
  {
    StepFacts(y, f);
    var kill, alloc := DoKill(0), DoAlloc(f);
    OneStep(y, kill, [alloc] + []);
    var y1 := Apply(y, kill);
    KillsUnused(y, u, y1);
    OneStep(y1, alloc, []);
    AllocsMarked(y1, f, u, Apply(y1, alloc));
  }

  lemma AllocsMarked(y: Sys, f: nat, u: nat, y': Sys)
    requires Shape(y) && f < NPROC && u == FirstUnused(y.procs, 0) < NPROC && y.procs[u].killed && y' == Alloc(y, f)
    ensures Shape(y') && y'.procs[u].state == Embryo && y'.procs[u].killed && y'.tasks[f] == Alloced(u)
  {
  }

  lemma KillsUnused(y: Sys, u: nat, y1: Sys)
    requires Inv(y) && u == FirstUnused(y.procs, 0) < NPROC && y.procs[u].pid == 0
    requires (forall s :: 0 <= s < NPROC ==> y.procs[s].level < LEVELS) && y1 == Kill(y, 0)
    ensures y1 == With(y, u, y.procs[u].(killed := true)) && FirstUnused(y1.procs, 0) == u
  {
    forall s | 0 <= s < u ensures y.procs[s].pid != 0 {
      assert Live(y.procs[s]);
    }
    assert FindPid(y.procs, 0, 0) == u;
  }
}

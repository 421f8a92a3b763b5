/** proc.c, MLFQ build: the process table and the run queues, changed in place under ptable.lock. */
module ProcTable {
  import opened Common
  import opened ProcState
  import opened Aging
  import opened ProcSteps
  import opened ExitWait
  import opened ProcRuns
  import opened ProcEffects
  import opened RunQueues

  // ------------------------------------------------ searching by pid

  /** Queue members and slot s have different pids. */
  ghost predicate Absent(y: Sys, l: nat, s: nat)
    requires Lines(y) && l < LEVELS && s < NPROC
  {
    forall j :: 0 <= j < |y.queues[l]| ==> y.queues[l][j] != s && y.procs[y.queues[l][j]].pid != y.procs[s].pid
  }

  /** A process that is not runnable is found in no queue. */
  lemma AbsentUnlessRunnable(y: Sys, l: nat, s: nat)
    requires Lines(y) && Members(y.procs, y.queues) && Pids(y.procs, y.nextpid, y.reaped)
    requires l < LEVELS && s < NPROC && Live(y.procs[s]) && (y.procs[s].state != Runnable || y.procs[s].level != l)
    ensures Absent(y, l, s)
  {
    forall j | 0 <= j < |y.queues[l]|
      ensures y.queues[l][j] != s && y.procs[y.queues[l][j]].pid != y.procs[s].pid
    {
      AtMeansWaiting(y, l, j, y.queues[l][j]);
    }
  }

  /** A queued process is found in its own place. */
  lemma FoundInPlace(y: Sys, l: nat, j: nat, at: nat)
    requires Lines(y) && Members(y.procs, y.queues) && Pids(y.procs, y.nextpid, y.reaped)
    requires l < LEVELS && j < |y.queues[l]| && at <= |y.queues[l]|
    requires at < |y.queues[l]| ==> y.procs[y.queues[l][at]].pid == y.procs[y.queues[l][j]].pid
    requires forall k :: 0 <= k < at ==> y.procs[y.queues[l][k]].pid != y.procs[y.queues[l][j]].pid
    ensures at == j
  {
    var line := y.queues[l];
    assert LineOk(y.procs, line, l);
    AtMeansWaiting(y, l, j, line[j]);
    forall k | 0 <= k < |line| && y.procs[line[k]].pid == y.procs[line[j]].pid ensures k == j {
      AtMeansWaiting(y, l, k, line[k]);
    }
  }

  lemma RoomFor(y: Sys, l: nat, s: nat)
    requires Lines(y) && Members(y.procs, y.queues) && l < LEVELS && s < NPROC && Absent(y, l, s)
    ensures |y.queues[l]| < NPROC
  {
    RoomInLine(y.procs, y.queues[l], l, s);
  }

  /** What wakeup1() relies on; it holds inside exit() too. */
  ghost predicate Sane(y: Sys) {
    Shape(y) && Members(y.procs, y.queues) && Budgets(y.procs) && Pids(y.procs, y.nextpid, y.reaped)
  }

  /** wakeup1() has seen the slots below k of y and made y1 of it. */
  ghost predicate Waking(y: Sys, y1: Sys, c: Chan, k: nat) {
    && Sane(y) && k <= NPROC && WokenBelow(y, y1, c, k) && Pids(y1.procs, y1.nextpid, y1.reaped)
    && (forall s :: 0 <= s < NPROC ==> y1.procs[s].level < LEVELS)
    && WakeFrom(y1, c, k) == WakeFrom(y, c, 0)
  }

  lemma WakingStarts(y: Sys, c: Chan)
    requires Sane(y)
    ensures Waking(y, y, c, 0)
  {
  }

  lemma WakingStep(y: Sys, y1: Sys, y2: Sys, c: Chan, k: nat, next: nat)
    requires Waking(y, y1, c, k) && k < NPROC && next == k + 1
    requires y2 == if SleepsOn(y1.procs[k], c) then MakeRunnable(y1, k) else y1
    ensures Waking(y, y2, c, next)
  {
    WakeOne(y, y1, c, k);
    WakingOne(y1, y2, c, k, next);
    PidsFrame(y1.procs, y2.procs, y1.nextpid, y1.reaped);
  }

  lemma WakingOne(y1: Sys, y2: Sys, c: Chan, k: nat, next: nat)
    requires Shape(y1) && k < NPROC && next == k + 1 && forall s :: 0 <= s < NPROC ==> y1.procs[s].level < LEVELS
    requires y2 == if SleepsOn(y1.procs[k], c) then MakeRunnable(y1, k) else y1
    ensures SamePids(y1.procs, y2.procs) && y2.nextpid == y1.nextpid && y2.reaped == y1.reaped && Shape(y2)
    ensures forall s :: 0 <= s < NPROC ==> y2.procs[s].level < LEVELS
    ensures WakeFrom(y2, c, next) == WakeFrom(y1, c, k)
  {
  }

  /** The aging loop over queue i has reached position j. */
  ghost predicate AgingRow(y: Sys, y1: Sys, i: nat, j: nat) {
    && 0 < i < LEVELS && Sane(y) && Lines(y) && Sane(y1) && Lines(y1) && Reordered(y, y1)
    && AgeLevel(y1, i, j) == AgeLevel(y, i, 0)
  }

  lemma AgingRowStarts(y: Sys, i: nat)
    requires 0 < i < LEVELS && Sane(y)
    ensures Lines(y) && AgingRow(y, y, i, 0)
  {
    InvLines(y);
  }

  lemma PromoteSane(y: Sys, y1: Sys, i: nat, j: nat)
    requires Sane(y) && Lines(y) && 0 < i < LEVELS && j < |y.queues[i]| && y1 == Promote(y, i, j)
    ensures Sane(y1) && Lines(y1) && Reordered(y, y1)
  {
    PromoteLines(y, i, j);
    PromoteMembers(y, i, j);
    PromoteBudget(y, i, j);
    PidsFrame(y.procs, y1.procs, y.nextpid, y.reaped);
  }

  lemma AgingRowStep(y: Sys, y1: Sys, y2: Sys, i: nat, j: nat, next: nat)
    requires AgingRow(y, y1, i, j) && j < |y1.queues[i]| && next == j + 1
    requires y2 == if Aged(y1, y1.queues[i][j]) then Promote(y1, i, j) else y1
    ensures AgingRow(y, y2, i, next)
  {
    if Aged(y1, y1.queues[i][j]) {
      PromoteSane(y1, y2, i, j);
      ReorderedTrans(y, y1, y2);
    }
  }

  /** wait() reaps a child, fails for want of children, or goes to sleep and will look again. */
  datatype WaitResult = Reaped(pid: nat) | NoChildren | Asleep

  class Table {
    const procs: array<Proc>
    const q: Queues
    const init: nat
    var nextpid: nat
    var ticks: nat
    ghost var tasks: seq<Task>
    ghost var reaped: seq<nat>

    /** The static table, and userinit(): init in slot 0, runnable. */
    constructor (ticks: nat)
      ensures Valid() && Abs() == Boot(ticks) && fresh(procs) && fresh(q) && fresh(q.qu) && fresh(q.index)
    {
      var boot := Boot(ticks);
      procs := new Proc[NPROC](i requires 0 <= i < NPROC => boot.procs[i]);
      q := new Queues();
      init, nextpid, this.ticks := 0, boot.nextpid, ticks;
      tasks, reaped := boot.tasks, [];
      new;
      q.Append(0, 0);
      assert procs[..] == boot.procs;
      assert q.lines[0] == [0] && forall l :: 0 <= l < LEVELS ==> q.lines[l] == boot.queues[l];
    }

    ghost predicate Valid()
      reads this, procs, q, q.qu, q.index
    {
      procs.Length == NPROC && q.Valid() && |tasks| == NPROC && init < NPROC
    }

    ghost function Abs(): Sys
      reads this, procs, q
    {
      Sys(procs[..], q.lines, tasks, nextpid, ticks, init, reaped)
    }

    method SetProc(s: nat, p: Proc)
      requires Valid() && s < NPROC
      modifies procs
      ensures Valid() && Abs() == With(old(Abs()), s, p)
    {
      procs[s] := p;
      assert procs[..] == old(procs[..])[s := p];
    }

    /** The search that precedes every append, and the append. */
    method Enqueue(l: nat, s: nat)
      requires Valid() && Lines(Abs()) && l < LEVELS && s < NPROC && Absent(Abs(), l, s) && |q.lines[l]| < NPROC
      modifies q, q.qu, q.index
      ensures Valid() && Abs() == old(Abs()).(queues := old(Abs()).queues[l := old(Abs()).queues[l] + [s]])
    {
      var pid := procs[s].pid;
      var at := q.Find(l, procs, pid);
      ghost var line := Abs().queues[l];
      assert forall j :: 0 <= j < |line| ==> procs[line[j]].pid != pid;
      assert q.Row(l);
      if at > q.index[l] {
        q.Append(l, s);
      }
    }

    /** p->state = RUNNABLE, and into its queue, as fork(), wakeup1() and kill() do it. */
    method Ready(s: nat)
      requires Valid() && Lines(Abs()) && Members(Abs().procs, Abs().queues) && Pids(Abs().procs, nextpid, reaped)
      requires s < NPROC && Live(procs[s]) && procs[s].state != Runnable && procs[s].level < LEVELS
      modifies procs, q, q.qu, q.index
      ensures Valid() && Abs() == MakeRunnable(old(Abs()), s)
    {
      ghost var y := Abs();
      var p := procs[s];
      AbsentUnlessRunnable(y, p.level, s);
      RoomFor(y, p.level, s);
      SetProc(s, p.(state := Runnable, qtime := ticks));
      assert Lines(Abs()) && Absent(Abs(), p.level, s);
      Enqueue(p.level, s);
    }

    method WakeSlot(ghost y: Sys, c: Chan, k: nat, ghost next: nat)
      requires Valid() && Waking(y, Abs(), c, k) && k < NPROC && next == k + 1
      modifies procs, q, q.qu, q.index
      ensures Valid() && Waking(y, Abs(), c, next)
    {
      ghost var y1 := Abs();
      if procs[k].state == Sleeping && procs[k].chan == c {
        InvLines(y1);
        Ready(k);
      }
      WakingStep(y, y1, Abs(), c, k, next);
    }

    /** wakeup1(): all processes asleep on c. */
    method Wakeup1(c: Chan)
      requires Valid() && Sane(Abs())
      modifies procs, q, q.qu, q.index
      ensures Valid() && Abs() == Wakeup(old(Abs()), c)
    {
      ghost var y := Abs();
      var k := 0;
      WakingStarts(y, c);
      while k < NPROC
        invariant k <= NPROC && Valid() && Waking(y, Abs(), c, k)
      {
        var next := k + 1;
        WakeSlot(y, c, k, next);
        k := next;
      }
    }

    /** kill(): 0 is true. */
    method KillPid(pid: nat) returns (found: bool)
      requires Valid() && Inv(Abs())
      modifies procs, q, q.qu, q.index
      ensures Valid() && Abs() == Kill(old(Abs()), pid) && Inv(Abs())
      ensures found <==> exists s :: 0 <= s < NPROC && old(procs[s]).pid == pid
      ensures forall s :: FirstWith(old(procs[..]), pid, s) ==> KillMoved(old(Abs()), Abs(), s)
      ensures !found ==> Abs() == old(Abs())
    {
      ghost var y := Abs();
      var s := 0;
      while s < NPROC && procs[s].pid != pid
        invariant s <= NPROC && Abs() == y && FindPid(y.procs, pid, s) == FindPid(y.procs, pid, 0)
        invariant forall t :: 0 <= t < s ==> y.procs[t].pid != pid
      {
        s := s + 1;
      }
      if s == NPROC {
        return false;
      }
      assert y.procs[s].pid == pid;
      KillSlot(pid, s);
      KillKeeps(y, pid, Abs());
      InvLines(y);
      assert FirstWith(y.procs, pid, s);
      KillsFirst(y, pid, Abs(), s);
      return true;
    }

    static lemma KillsFirst(y: Sys, pid: nat, y': Sys, s: nat)
      requires Inv(y) && FirstWith(y.procs, pid, s) && (forall t :: 0 <= t < NPROC ==> y.procs[t].level < LEVELS)
      requires y' == Kill(y, pid)
      ensures forall t :: FirstWith(y.procs, pid, t) ==> KillMoved(y, y', t)
    {
      KillMoves(y, pid, y', s);
    }

    method KillSlot(ghost pid: nat, s: nat)
      requires Valid() && Inv(Abs()) && s < NPROC && s == FindPid(Abs().procs, pid, 0)
      modifies procs, q, q.qu, q.index
      ensures Valid() && Abs() == Kill(old(Abs()), pid)
    {
      ghost var y := Abs();
      var p := procs[s].(killed := true);
      assert Budget(y.procs[s]);
      SetProc(s, p);
      if p.state == Sleeping {
        OwnUpdateKeeps(y, s, p, Abs());
        InvLines(Abs());
        Ready(s);
      }
    }

    /** sleep() on a channel that is not a process, up to sched(). */
    method Sleep(f: nat, id: nat)
      requires Valid() && Inv(Abs()) && IsRunning(Abs(), f)
      modifies procs
      ensures Valid() && Abs() == SleepOn(old(Abs()), f, Other(id)) && Inv(Abs())
      ensures Becomes(old(Abs()), Abs(), f, old(procs[f]).(state := Sleeping, chan := Other(id)))
    {
      ghost var y := Abs();
      SetProc(f, procs[f].(state := Sleeping, chan := Other(id)));
      SleepKeeps(y, f, id, Abs());
    }

    /** The default case of trap(), for a fault in user mode. */
    method UserFault(f: nat)
      requires Valid() && Inv(Abs()) && IsRunning(Abs(), f)
      modifies procs
      ensures Valid() && Abs() == Fault(old(Abs()), f) && Inv(Abs())
      ensures Becomes(old(Abs()), Abs(), f, old(procs[f]).(killed := true))
    {
      ghost var y := Abs();
      assert Budget(y.procs[f]);
      SetProc(f, procs[f].(killed := true));
      FaultKeeps(y, f, Abs());
    }

    /** yield() and the end of the scheduler's round: the level is settled, then the process is queued. */
    method YieldBack(f: nat)
      requires Valid() && Inv(Abs()) && IsRunning(Abs(), f)
      modifies procs, q, q.qu, q.index
      ensures Valid() && Abs() == Yield(old(Abs()), f) && Inv(Abs()) && YieldMoved(old(Abs()), Abs(), f)
    {
      ghost var y := Abs();
      var p := procs[f];
      assert Budget(y.procs[f]);
      if p.used[p.level] >= Limit(p.level) {
        p := p.(over := true);
      }
      if p.over {
        p := p.(over := false);
        if p.level < LEVELS - 1 {
          p := p.(level := p.level + 1);
        }
      }
      assert p == Returned(y.procs[f]);
      SetProc(f, p);
      ReturnedSane(y, f, p, Abs());
      Ready(f);
      YieldKeeps(y, f, Abs());
      YieldMoves(y, f, Abs());
    }

    static lemma ReturnedSane(y: Sys, f: nat, p: Proc, y': Sys)
      requires Inv(y) && IsRunning(y, f) && Budget(y.procs[f]) && p == Returned(y.procs[f]) && y' == With(y, f, p)
      ensures Lines(y') && Members(y'.procs, y'.queues) && Pids(y'.procs, y'.nextpid, y'.reaped)
    {
      MoveWithin(y.procs, y.queues, f, p);
      PidsFrame(y.procs, y'.procs, y.nextpid, y.reaped);
      InvLines(y');
    }

    /** The timer interrupt for the process it interrupts, as in trap(). */
    method TimerSlice(f: nat)
      requires Valid() && Inv(Abs()) && IsRunning(Abs(), f)
      modifies procs, q, q.qu, q.index
      ensures Valid() && Abs() == Slice(old(Abs()), f) && Inv(Abs()) && SliceMoved(old(Abs()), Abs(), f)
    {
      ghost var y := Abs();
      var p := procs[f];
      assert Budget(y.procs[f]);
      if p.used[p.level] >= Limit(p.level) {
        p := p.(over := true);
        SetProc(f, p);
        OwnUpdateKeeps(y, f, p, Abs());
        YieldBack(f);
      } else {
        SetProc(f, p.(used := p.used[p.level := p.used[p.level] + 1]));
        SliceKeeps(y, f, Abs());
      }
      SliceMoves(y, f, Abs());
    }

    // ------------------------------------------------ the scheduler

    /** Move the process at position j of queue i to queue i - 1: both searches are by pid. */
    method PromoteAt(i: nat, j: nat)
      requires Valid() && Sane(Abs()) && Lines(Abs()) && 0 < i < LEVELS && j < |q.lines[i]|
      modifies procs, q, q.qu, q.index
      ensures Valid() && Abs() == Promote(old(Abs()), i, j)
    {
      ghost var y := Abs();
      assert q.Row(i);
      var s := q.qu[i, j];
      AtMeansWaiting(y, i, j, s);
      var at := q.Find(i, procs, procs[s].pid);
      FoundInPlace(y, i, j, at);
      AbsentUnlessRunnable(y, i - 1, s);
      RoomFor(y, i - 1, s);
      q.RemoveAt(i, at);
      assert Lines(Abs()) && Absent(Abs(), i - 1, s);
      Enqueue(i - 1, s);
      SetProc(s, procs[s].(level := i - 1, qtime := ticks));
    }

    method AgeSlot(ghost y: Sys, i: nat, j: nat, ghost next: nat)
      requires Valid() && AgingRow(y, Abs(), i, j) && j < |q.lines[i]| && next == j + 1
      modifies procs, q, q.qu, q.index
      ensures Valid() && AgingRow(y, Abs(), i, next) && |q.lines[i]| <= |old(q.lines[i])|
    {
      ghost var y1 := Abs();
      assert q.Row(i);
      var s := q.qu[i, j];
      if ticks - procs[s].qtime > AGE_LIMIT {
        PromoteAt(i, j);
      }
      AgingRowStep(y, y1, Abs(), i, j, next);
    }

    /** The aging loop over queue i. */
    method AgeRow(i: nat)
      requires Valid() && Sane(Abs()) && 0 < i < LEVELS
      modifies procs, q, q.qu, q.index
      ensures Valid() && Lines(old(Abs())) && Abs() == AgeLevel(old(Abs()), i, 0)
    {
      ghost var y := Abs();
      AgingRowStarts(y, i);
      var j := 0;
      assert q.Row(i);
      while j <= q.index[i]
        invariant Valid() && AgingRow(y, Abs(), i, j) && q.index[i] + 1 == |q.lines[i]|
        decreases |q.lines[i]| - j
      {
        var next := j + 1;
        AgeSlot(y, i, j, next);
        j := next;
        assert q.Row(i);
      }
    }

    /** All aging loops. */
    method AgeAll()
      requires Valid() && Inv(Abs())
      modifies procs, q, q.qu, q.index
      ensures Valid() && Lines(old(Abs())) && Abs() == AgeFrom(old(Abs()), 1)
    {
      ghost var y := Abs();
      InvLines(y);
      var i := 1;
      while i < LEVELS
        invariant 1 <= i <= LEVELS && Valid() && Sane(Abs()) && Lines(Abs()) && AgeFrom(Abs(), i) == AgeFrom(y, 1)
      {
        ghost var y1 := Abs();
        AgeRow(i);
        RowSane(y1, Abs(), i);
        i := i + 1;
      }
    }

    static lemma RowSane(y: Sys, y': Sys, i: nat)
      requires Sane(y) && Lines(y) && 0 < i < LEVELS && y' == AgeLevel(y, i, 0)
      ensures Sane(y') && Lines(y')
    {
      AgeLevelKeeps(y, i, 0);
      AgeLevelInv(y, i, 0);
      forall s | 0 <= s < NPROC ensures y'.procs[s].pid == y.procs[s].pid && Live(y'.procs[s]) == Live(y.procs[s]) {
        assert Requeued(y.procs[s], y'.procs[s]);
      }
      PidsFrame(y.procs, y'.procs, y.nextpid, y.reaped);
    }

    /** Choose the front of the first queue that is not empty, charge it, take it out, and run it. */
    method Pick() returns (chosen: Option<nat>)
      requires Valid() && Sane(Abs()) && Lines(Abs())
      modifies procs, q, q.qu, q.index
      ensures Valid() && Abs() == Dispatch(old(Abs()))
      ensures chosen.None? <==> forall s :: 0 <= s < NPROC ==> old(procs[s]).state != Runnable
      ensures chosen.Some? ==> Starts(old(Abs()), Abs(), chosen.value)
    {
      ghost var y := Abs();
      var i := 0;
      while i < LEVELS && q.index[i] < 0
        invariant i <= LEVELS && Abs() == y && Valid() && FirstLine(y, i) == FirstLine(y, 0)
        invariant forall l :: 0 <= l < i ==> y.queues[l] == []
      {
        assert q.Row(i);
        i := i + 1;
      }
      if i == LEVELS {
        NoneRunnable(y);
        return None;
      }
      assert q.Row(i);
      var s := RunFront(i);
      return Some(s);
    }

    static lemma NoneRunnable(y: Sys)
      requires Sane(y) && forall l :: 0 <= l < LEVELS ==> y.queues[l] == []
      ensures forall s :: 0 <= s < NPROC ==> y.procs[s].state != Runnable
    {
      forall s | 0 <= s < NPROC ensures y.procs[s].state != Runnable {
        assert y.procs[s].state == Runnable ==> Placed(y.procs, y.queues, s);
      }
    }

    method RunFront(i: nat) returns (s: nat)
      requires Valid() && Sane(Abs()) && Lines(Abs()) && i < LEVELS && i == FirstLine(Abs(), 0)
      modifies procs, q, q.qu, q.index
      ensures Valid() && Abs() == Dispatch(old(Abs()))
      ensures s < NPROC && old(procs[s]).state == Runnable && procs[s].state == Running
    {
      ghost var y := Abs();
      assert q.Row(i);
      s := q.qu[i, 0];
      AtMeansWaiting(y, i, 0, s);
      assert Budget(y.procs[s]);
      var p := procs[s];
      p := p.(used := p.used[i := p.used[i] + 1]);
      if p.used[i] >= Limit(i) {
        p := p.(over := true);
      }
      var at := q.Find(i, procs, p.pid);
      FoundInPlace(y, i, 0, at);
      q.RemoveAt(i, at);
      SetProc(s, p.(state := Running, chan := NoChan));
    }

    static lemma SameStates(y: Sys, y': Sys)
      requires Reordered(y, y')
      ensures (exists s :: 0 <= s < NPROC && y.procs[s].state == Runnable) <==>
                exists s :: 0 <= s < NPROC && y'.procs[s].state == Runnable
    {
      forall s | 0 <= s < NPROC ensures y'.procs[s].state == y.procs[s].state {
        assert Requeued(y.procs[s], y'.procs[s]);
      }
    }

    /** One round of scheduler(), up to swtch(). */
    method SchedulerPass() returns (chosen: Option<nat>)
      requires Valid() && Inv(Abs())
      modifies procs, q, q.qu, q.index
      ensures Valid() && Lines(old(Abs())) && Abs() == Pass(old(Abs())) && Inv(Abs())
      ensures chosen.None? <==> forall s :: 0 <= s < NPROC ==> old(procs[s]).state != Runnable
      ensures chosen.Some? ==> FirstServed(old(Abs()), Abs(), chosen.value)
      ensures chosen.None? ==> Abs() == old(Abs())
    {
      ghost var y := Abs();
      InvLines(y);
      AgeAll();
      ghost var y1 := Abs();
      AgedStill(y, y1);
      chosen := Pick();
      Served(y, y1, Abs(), chosen);
    }

    static lemma AgedStill(y: Sys, y1: Sys)
      requires Inv(y) && Lines(y) && y1 == AgeFrom(y, 1)
      ensures Sane(y1) && Lines(y1)
    {
      AgeKeeps(y, y1);
      InvLines(y1);
    }

    /** What the choice after the aging loops makes of the whole round. */
    static lemma Served(y: Sys, y1: Sys, y': Sys, chosen: Option<nat>)
      requires Inv(y) && Lines(y) && y1 == AgeFrom(y, 1) && y' == Pass(y)
      requires Shape(y1) && (chosen.None? <==> forall s :: 0 <= s < NPROC ==> y1.procs[s].state != Runnable)
      requires chosen.Some? ==> Starts(y1, y', chosen.value)
      ensures Inv(y') && (chosen.None? <==> forall s :: 0 <= s < NPROC ==> y.procs[s].state != Runnable)
      ensures if chosen.Some? then FirstServed(y, y', chosen.value) else y' == y
    {
      AgeFromInv(y, 1);
      SameStates(y, y1);
      PassKeeps(y, y');
      PassPicks(y, y');
      if chosen.Some? {
        PickedIsServed(y, y1, y', chosen.value);
      }
    }

    static lemma PickedIsServed(y: Sys, y1: Sys, y': Sys, s: nat)
      requires Reordered(y, y1) && Starts(y1, y', s) && exists t :: FirstServed(y, y', t)
      ensures FirstServed(y, y', s)
    {
      assert Requeued(y.procs[s], y1.procs[s]);
    }

    // ------------------------------------------------ fork(), wait() and exit()

    method FindUnused() returns (u: nat)
      requires Valid()
      ensures u == FirstUnused(procs[..], 0)
    {
      ghost var all := procs[..];
      u := 0;
      while u < NPROC && procs[u].state != Unused
        invariant u <= NPROC && FirstUnused(all, u) == FirstUnused(all, 0)
      {
        u := u + 1;
      }
    }

    /** The locked part of allocproc(). */
    method AllocSlot(ghost f: nat) returns (slot: Option<nat>)
      requires Valid() && Inv(Abs()) && IsRunning(Abs(), f) && tasks[f].Idle?
      modifies this, procs
      ensures Valid() && Abs() == Alloc(old(Abs()), f) && Inv(Abs())
      ensures slot.None? <==> forall s :: 0 <= s < NPROC ==> old(procs[s]).state != Unused
      ensures slot.Some? ==>
                slot.value < NPROC && procs[slot.value].state == Embryo && procs[slot.value].pid == old(nextpid)
    {
      ghost var y := Abs();
      var u := FindUnused();
      AllocKeeps(y, f, Alloc(y, f));
      if u == NPROC {
        return None;
      }
      SetProc(u, procs[u].(state := Embryo, pid := nextpid));
      nextpid := nextpid + 1;
      tasks := tasks[f := Alloced(u)];
      assert y.procs[u] == old(procs[u]);
      return Some(u);
    }

    /** The unlocked part of allocproc(): the child is at level 0, with all of its budget. */
    method PrepareSlot(ghost f: nat, np: nat)
      requires Valid() && Inv(Abs()) && f < NPROC && tasks[f] == Alloced(np)
      modifies this, procs
      ensures Valid() && np < NPROC && Abs() == Prepare(old(Abs()), f) && Inv(Abs()) && Unspent(procs[np])
      ensures forall s :: 0 <= s < NPROC && s != np ==> procs[s] == old(procs[s])
    {
      ghost var y := Abs();
      assert TaskOk(y, f);
      SetProc(np, procs[np].(level := 0, used := [0, 0, 0, 0, 0], qtime := 0, over := false));
      tasks := tasks[f := Task.Ready(np)];
      PrepareKeeps(y, f, Abs());
    }

    /** fork() gives up: the slot is free again, and nothing else has changed. */
    method AbandonSlot(ghost f: nat, np: nat)
      requires Valid() && Inv(Abs()) && f < NPROC && (tasks[f] == Alloced(np) || tasks[f] == Task.Ready(np))
      modifies this, procs
      ensures Valid() && np < NPROC && Abs() == Abandon(old(Abs()), f) && Inv(Abs())
      ensures Becomes(old(Abs()).(tasks := old(tasks)[f := Idle]), Abs(), np, old(procs[np]).(state := Unused))
    {
      ghost var y := Abs();
      assert TaskOk(y, f);
      SetProc(np, procs[np].(state := Unused));
      tasks := tasks[f := Idle];
      AbandonKeeps(y, f, Abs());
    }

    /** The end of fork(). */
    method ForkEnd(ghost f: nat, np: nat)
      requires Valid() && Inv(Abs()) && f < NPROC && tasks[f] == Parented(np)
      modifies this, procs, q, q.qu, q.index
      ensures Valid() && np < NPROC && old(procs[np]).level < LEVELS && Abs() == ForkDone(old(Abs()), f) && Inv(Abs())
      ensures ForkMoved(old(Abs()), Abs(), f, np)
    {
      ghost var y := Abs();
      assert TaskOk(y, f) && Budget(y.procs[np]);
      InvLines(y);
      Ready(np);
      tasks := tasks[f := Idle];
      ForkDoneKeeps(y, f, Abs());
      ForkMoves(y, f, np, Abs());
    }

    /** wait()'s removal from the queues, after the pid is cleared: nothing is found, so nothing changes. */
    method DropFromQueue(s: nat)
      requires Valid() && Inv(Abs()) && s < NPROC && procs[s].pid == 0
    {
      ghost var y := Abs();
      assert Budget(y.procs[s]);
      var l := procs[s].level;
      InvLines(y);
      var at := q.Find(l, procs, procs[s].pid);
      NoZeroPid(y, l);
      assert q.Row(l);
      if at <= q.index[l] {
        assert false;
      }
    }

    static lemma NoZeroPid(y: Sys, l: nat)
      requires Inv(y) && Lines(y) && l < LEVELS
      ensures forall j :: 0 <= j < |y.queues[l]| ==> y.procs[y.queues[l][j]].pid != 0
    {
      forall j | 0 <= j < |y.queues[l]| ensures y.procs[y.queues[l][j]].pid != 0 {
        AtMeansWaiting(y, l, j, y.queues[l][j]);
        assert Live(y.procs[y.queues[l][j]]);
      }
    }

    method ReapSlot(z: nat) returns (pid: nat)
      requires Valid() && Inv(Abs()) && z < NPROC && procs[z].state == Zombie
      modifies this, procs, q, q.qu, q.index
      ensures Valid() && Abs() == Reap(old(Abs()), z) && Inv(Abs()) && pid == old(procs[z]).pid
    {
      ghost var y := Abs();
      pid := procs[z].pid;
      SetProc(z, procs[z].(pid := 0, parent := None, killed := false, state := Unused));
      reaped := reaped + [pid];
      ReapKeeps(y, z, Abs());
      DropFromQueue(z);
    }

    /** Once through wait()'s loop. */
    method WaitOnce(f: nat) returns (r: WaitResult)
      requires Valid() && Inv(Abs()) && IsRunning(Abs(), f)
      modifies this, procs, q, q.qu, q.index
      ensures Valid() && Abs() == Wait(old(Abs()), f) && Inv(Abs()) && WaitMoved(old(Abs()), Abs(), f)
      ensures r.Reaped? <==> exists s :: ZombieChild(old(procs[..]), f, s)
      ensures r.NoChildren? <==> Abs() == old(Abs())
      ensures r.Reaped? ==> r.pid !in old(reaped) && reaped == old(reaped) + [r.pid]
    {
      ghost var y := Abs();
      var s, haveKids := 0, false;
      while s < NPROC && !(procs[s].parent == Some(f) && procs[s].state == Zombie)
        invariant s <= NPROC && Abs() == y && FindZombie(y.procs, f, s) == FindZombie(y.procs, f, 0)
        invariant haveKids <==> exists t :: 0 <= t < s && ChildOf(y.procs[t], f)
      {
        if procs[s].parent == Some(f) {
          assert ChildOf(y.procs[s], f);
          haveKids := true;
        }
        s := s + 1;
      }
      WaitKeeps(y, f, Wait(y, f));
      WaitMoves(y, f, Wait(y, f));
      if s < NPROC {
        assert Live(y.procs[s]) && ZombieChild(y.procs, f, s);
        var pid := ReapSlot(s);
        return Reaped(pid);
      }
      assert haveKids == HasChild(y.procs, f);
      if !haveKids || procs[f].killed {
        return NoChildren;
      }
      SetProc(f, procs[f].(state := Sleeping, chan := SlotChan(f)));
      return Asleep;
    }

    method AdoptSlot(f: nat, k: nat, ghost next: nat)
      requires Valid() && Exiting(Abs(), f, k) && k < NPROC && next == k + 1
      modifies procs, q, q.qu, q.index
      ensures Valid() && Abs() == AdoptOne(old(Abs()), f, k) && Exiting(Abs(), f, next)
    {
      ghost var y := Abs();
      AdoptOneKeeps(y, f, k, next, AdoptOne(y, f, k));
      if procs[k].parent == Some(f) {
        SetProc(k, procs[k].(parent := Some(init)));
        if procs[k].state == Zombie {
          HandOver(y, f, k, next, Abs());
          Wakeup1(SlotChan(init));
        }
      }
    }

    /** Pass abandoned children to init. */
    method AdoptAll(f: nat)
      requires Valid() && Exiting(Abs(), f, 0)
      modifies procs, q, q.qu, q.index
      ensures Valid() && Abs() == AdoptFrom(old(Abs()), f, 0) && Exiting(Abs(), f, NPROC)
    {
      ghost var goal := AdoptFrom(Abs(), f, 0);
      var k := 0;
      while k < NPROC
        invariant k <= NPROC && Valid() && Adopting(Abs(), f, k, goal)
      {
        var next := k + 1;
        ghost var y := Abs();
        AdoptSlot(f, k, next);
        AdoptingStep(y, Abs(), f, k, next, goal);
        k := next;
      }
    }

    /** exit()'s loop has reached slot k, on its way to `goal`. */
    static ghost predicate Adopting(y: Sys, f: nat, k: nat, goal: Sys) {
      Exiting(y, f, k) && k <= NPROC && AdoptFrom(y, f, k) == goal
    }

    static lemma AdoptingStep(y: Sys, y': Sys, f: nat, k: nat, next: nat, goal: Sys)
      requires Adopting(y, f, k, goal) && k < NPROC && next == k + 1 && y' == AdoptOne(y, f, k) && Exiting(y', f, next)
      ensures Adopting(y', f, next, goal)
    {
    }

    /** exit() under ptable.lock, up to sched(). */
    method ExitProc(f: nat)
      requires Valid() && Inv(Abs()) && IsRunning(Abs(), f) && tasks[f].Idle? && f != init
      modifies procs, q, q.qu, q.index
      ensures Valid() && old(Abs()).procs[f].parent.Some? && Abs() == Exit(old(Abs()), f) && Inv(Abs())
      ensures ExitMoved(old(Abs()), Abs(), f)
    {
      ghost var y := Abs();
      assert Kin(y, f);
      var c := SlotChan(procs[f].parent.value);
      Wakeup1(c);
      ExitStarts(y, f, Abs());
      AdoptAll(f);
      SetProc(f, procs[f].(state := Zombie));
      ExitKeeps(y, f, Abs());
      ExitMoves(y, f, Abs());
    }
  }
}

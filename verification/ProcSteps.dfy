/** The steps of the process table and what every run of them keeps. */
module ProcSteps {
  import opened Common
  import opened ProcState
  import opened Aging
  import opened AgingOrder

  // ------------------------------------------------ wakeup1()

  /** From y to y' exactly the processes asleep on c have become runnable. */
  ghost predicate WokenUp(y: Sys, y': Sys, c: Chan) {
    && Shape(y) && Shape(y') && y' == y.(procs := y'.procs, queues := y'.queues)
    && forall s :: 0 <= s < NPROC ==> y'.procs[s] == Woken(y.procs[s], c, y.ticks)
  }

  /** Queues have only grown at their ends. */
  ghost predicate Appended(y: Sys, y': Sys) {
    |y'.queues| == |y.queues| && forall l :: 0 <= l < |y.queues| ==> y.queues[l] <= y'.queues[l]
  }

  /** Those of the slots below k that sleep on c at level l, in slot order. */
  function Called(procs: seq<Proc>, c: Chan, l: nat, k: nat): seq<nat>
    requires k <= |procs|
  {
    if k == 0 then []
    else Called(procs, c, l, k - 1) + if SleepsOn(procs[k - 1], c) && procs[k - 1].level == l then [k - 1] else []
  }

  /** They are at the ends of the queues, and nothing else in the queues has changed. */
  ghost predicate Lined(y: Sys, y': Sys, c: Chan, k: nat)
    requires Shape(y) && Shape(y') && k <= NPROC
  {
    forall l :: 0 <= l < LEVELS ==> y'.queues[l] == y.queues[l] + Called(y.procs, c, l, k)
  }

  lemma LinedAppended(y: Sys, y': Sys, c: Chan, k: nat)
    requires Shape(y) && Shape(y') && k <= NPROC && Lined(y, y', c, k)
    ensures Appended(y, y')
  {
  }

  /** What wakeup1() has done once it has seen the slots below k. */
  ghost predicate WokenBelow(y: Sys, y': Sys, c: Chan, k: nat) {
    && Shape(y) && Shape(y') && k <= NPROC && y' == y.(procs := y'.procs, queues := y'.queues)
    && (forall s :: 0 <= s < NPROC ==> y'.procs[s] == if s < k then Woken(y.procs[s], c, y.ticks) else y.procs[s])
    && Members(y'.procs, y'.queues) && Lined(y, y', c, k)
  }

  lemma WakeOne(y: Sys, y': Sys, c: Chan, k: nat)
    requires Budgets(y.procs) && WokenBelow(y, y', c, k) && k < NPROC
    ensures WokenBelow(y, if SleepsOn(y'.procs[k], c) then MakeRunnable(y', k) else y', c, k + 1)
  {
    if SleepsOn(y'.procs[k], c) {
      var p := y'.procs[k].(state := Runnable, qtime := y'.ticks);
      MoveIn(y'.procs, y'.queues, k, p);
    }
    WakeOneLined(y, y', c, k, k + 1, if SleepsOn(y'.procs[k], c) then MakeRunnable(y', k) else y');
  }

  lemma WakeOneLined(y: Sys, y1: Sys, c: Chan, k: nat, next: nat, y2: Sys)
    requires Shape(y) && Shape(y1) && k < NPROC && next == k + 1 && Lined(y, y1, c, k) && y1.procs[k] == y.procs[k]
    requires y1.procs[k].level < LEVELS && y2 == if SleepsOn(y1.procs[k], c) then MakeRunnable(y1, k) else y1
    ensures Shape(y2) && Lined(y, y2, c, next)
  {
    forall l | 0 <= l < LEVELS ensures y2.queues[l] == y.queues[l] + Called(y.procs, c, l, next) {
      assert y1.queues[l] == y.queues[l] + Called(y.procs, c, l, k);
    }
  }

  lemma {:induction false} WakeRest(y: Sys, y': Sys, c: Chan, k: nat)
    requires Budgets(y.procs) && WokenBelow(y, y', c, k) && k <= NPROC
    requires forall s :: 0 <= s < NPROC ==> y'.procs[s].level < LEVELS
    ensures WokenBelow(y, WakeFrom(y', c, k), c, NPROC)
    decreases NPROC - k
  {
    if k < NPROC {
      WakeOne(y, y', c, k);
      var y1 := if SleepsOn(y'.procs[k], c) then MakeRunnable(y', k) else y';
      WakeRest(y, y1, c, k + 1);
    }
  }

  function Wakeup(y: Sys, c: Chan): Sys
    requires Shape(y) && forall s :: 0 <= s < NPROC ==> y.procs[s].level < LEVELS
  {
    WakeFrom(y, c, 0)
  }

  /** wakeup1() wakes exactly the sleepers on c, puts each at the end of its queue, and keeps membership. */
  lemma WakeupWakes(y: Sys, c: Chan)
    requires Shape(y) && Members(y.procs, y.queues) && Budgets(y.procs)
    ensures var y' := Wakeup(y, c);
      WokenUp(y, y', c) && Appended(y, y') && Members(y'.procs, y'.queues) && Budgets(y'.procs)
  {
    WakeRest(y, y, c, 0);
    var y' := Wakeup(y, c);
    LinedAppended(y, y', c, NPROC);
    forall s | 0 <= s < NPROC ensures Budget(y'.procs[s]) {
      assert Budget(y.procs[s]);
    }
  }

  /** In the queues those that it wakes come last, in slot order. */
  lemma WakeupLines(y: Sys, c: Chan)
    requires Shape(y) && Members(y.procs, y.queues) && Budgets(y.procs)
    ensures Lined(y, Wakeup(y, c), c, NPROC)
  {
    WakeRest(y, y, c, 0);
  }

  // ------------------------------------------------ frames for the parts of the invariant

  /** No slot changes in pid or in being live. */
  ghost predicate SamePids(procs: seq<Proc>, procs': seq<Proc>) {
    |procs'| == |procs| &&
    forall s :: 0 <= s < |procs| ==> Live(procs'[s]) == Live(procs[s]) && procs'[s].pid == procs[s].pid
  }

  lemma PidsFrame(procs: seq<Proc>, procs': seq<Proc>, nextpid: nat, reaped: seq<nat>)
    requires Pids(procs, nextpid, reaped) && SamePids(procs, procs')
    ensures Pids(procs', nextpid, reaped)
  {
  }

  /** How a process may change without any effect on the families. */
  ghost predicate Shuffled(p: Proc, p': Proc) {
    && p'.parent == p.parent
    && ((Active(p) && Active(p')) || p'.state == p.state)
    && (p.state == Embryo && Unspent(p) ==> Unspent(p'))
    && (p'.state == Sleeping ==> (p.state == Sleeping && p'.chan == p.chan) || p'.chan.Other?)
  }

  ghost predicate AllShuffled(y: Sys, y': Sys) {
    && Shape(y) && Shape(y') && y'.tasks == y.tasks && y'.init == y.init
    && forall s :: 0 <= s < NPROC ==> Shuffled(y.procs[s], y'.procs[s])
  }

  lemma FamilyFrame(y: Sys, y': Sys)
    requires Shape(y) && Family(y) && AllShuffled(y, y')
    ensures Family(y')
  {
    assert Shuffled(y.procs[y.init], y'.procs[y.init]);
    forall s | 0 <= s < NPROC ensures Kin(y', s) && NoMissedExit(y', s) && TaskOk(y', s) {
      assert Kin(y, s) && NoMissedExit(y, s) && TaskOk(y, s);
      assert Shuffled(y.procs[s], y'.procs[s]);
      var p := y.procs[s];
      if p.parent.Some? {
        assert Shuffled(y.procs[p.parent.value], y'.procs[p.parent.value]);
      }
      var t := y.tasks[s];
      if !t.Idle? {
        assert Shuffled(y.procs[t.child], y'.procs[t.child]);
      }
    }
  }

  /** A step that only moves active processes between their states. */
  lemma ShuffleKeeps(y: Sys, y': Sys)
    requires Inv(y) && AllShuffled(y, y') && SamePids(y.procs, y'.procs)
    requires y'.nextpid == y.nextpid && y'.reaped == y.reaped
    requires Members(y'.procs, y'.queues) && Budgets(y'.procs)
    ensures Inv(y')
  {
    FamilyFrame(y, y');
    PidsFrame(y.procs, y'.procs, y.nextpid, y.reaped);
  }

  /** One slot changes, with no effect on families and pids. */
  lemma SlotShuffled(y: Sys, f: nat, p: Proc, y': Sys)
    requires Shape(y) && Shape(y') && f < NPROC && y'.procs == y.procs[f := p]
    requires y'.tasks == y.tasks && y'.init == y.init
    requires Shuffled(y.procs[f], p) && Live(p) == Live(y.procs[f]) && p.pid == y.procs[f].pid
    requires Budgets(y.procs) && Budget(p)
    ensures AllShuffled(y, y') && SamePids(y.procs, y'.procs) && Budgets(y'.procs)
  {
  }

  // ------------------------------------------------ running, sleeping, waking

  predicate IsRunning(y: Sys, f: nat) {
    Shape(y) && f < NPROC && y.procs[f].state == Running
  }

  /** What scheduler() makes of a process that comes back runnable: a used-up budget costs one level. */
  function Returned(p: Proc): Proc
    requires p.level < LEVELS && |p.used| == LEVELS
  {
    if (p.over || p.used[p.level] >= Limit(p.level)) && p.level < LEVELS - 1
    then p.(over := false, level := p.level + 1)
    else p.(over := false)
  }

  /** yield(), and the rest of the scheduler's round when swtch() returns. */
  function Yield(y: Sys, f: nat): Sys
    requires Shape(y) && f < NPROC && y.procs[f].level < LEVELS && |y.procs[f].used| == LEVELS
  {
    MakeRunnable(With(y, f, Returned(y.procs[f])), f)
  }

  /** The timer interrupt, as trap() treats the process it interrupts. */
  function Slice(y: Sys, f: nat): Sys
    requires Shape(y) && f < NPROC && y.procs[f].level < LEVELS && |y.procs[f].used| == LEVELS
  {
    var p := y.procs[f];
    if p.used[p.level] >= Limit(p.level) then Yield(With(y, f, p.(over := true)), f)
    else With(y, f, p.(used := p.used[p.level := p.used[p.level] + 1]))
  }

  function SleepOn(y: Sys, f: nat, c: Chan): Sys
    requires Shape(y) && f < NPROC
  {
    With(y, f, y.procs[f].(state := Sleeping, chan := c))
  }

  /** The first slot with this pid, from slot k on. */
  function FindPid(procs: seq<Proc>, pid: nat, k: nat): (r: nat)
    requires k <= |procs|
    ensures k <= r <= |procs| && (r < |procs| ==> procs[r].pid == pid) && forall s :: k <= s < r ==> procs[s].pid != pid
    decreases |procs| - k
  {
    if k == |procs| || procs[k].pid == pid then k else FindPid(procs, pid, k + 1)
  }

  function Kill(y: Sys, pid: nat): Sys
    requires Shape(y) && forall s :: 0 <= s < NPROC ==> y.procs[s].level < LEVELS
  {
    var s := FindPid(y.procs, pid, 0);
    if s == NPROC then y
    else
      var y1 := With(y, s, y.procs[s].(killed := true));
      if y1.procs[s].state == Sleeping then MakeRunnable(y1, s) else y1
  }

  /** A fault in user mode, as in trap(): the process is marked, and exits before it runs on. */
  function Fault(y: Sys, f: nat): Sys
    requires IsRunning(y, f)
  {
    With(y, f, y.procs[f].(killed := true))
  }

  lemma YieldKeeps(y: Sys, f: nat, y': Sys)
    requires Inv(y) && IsRunning(y, f) && y' == Yield(y, f)
    ensures Inv(y')
  {
    var p := y.procs[f];
    assert Budget(p);
    var p' := Returned(p).(state := Runnable, qtime := y.ticks);
    assert Budget(p');
    MoveIn(y.procs, y.queues, f, p');
    SlotShuffled(y, f, p', y');
    ShuffleKeeps(y, y');
  }

  lemma OwnUpdateKeeps(y: Sys, f: nat, p: Proc, y': Sys)
    requires Inv(y) && f < NPROC && (y.procs[f].state == Runnable) == (p.state == Runnable) && y' == With(y, f, p)
    requires (p.state == Runnable ==> p.level == y.procs[f].level) && Budget(p)
    requires Shuffled(y.procs[f], p) && Live(p) == Live(y.procs[f]) && p.pid == y.procs[f].pid
    ensures Inv(y')
  {
    MoveWithin(y.procs, y.queues, f, p);
    ShuffleKeeps(y, y');
  }

  lemma SliceKeeps(y: Sys, f: nat, y': Sys)
    requires Inv(y) && IsRunning(y, f) && Budget(y.procs[f]) && y' == Slice(y, f)
    ensures Inv(y')
  {
    var p := y.procs[f];
    if p.used[p.level] >= Limit(p.level) {
      var p1 := p.(over := true);
      var y1 := With(y, f, p1);
      OwnUpdateKeeps(y, f, p1, y1);
      YieldKeeps(y1, f, y');
    } else {
      var p1 := p.(used := p.used[p.level := p.used[p.level] + 1]);
      OwnUpdateKeeps(y, f, p1, y');
    }
  }

  lemma SleepKeeps(y: Sys, f: nat, c: nat, y': Sys)
    requires Inv(y) && IsRunning(y, f) && y' == SleepOn(y, f, Other(c))
    ensures Inv(y')
  {
    var p1 := y.procs[f].(state := Sleeping, chan := Other(c));
    assert Budget(y.procs[f]);
    OwnUpdateKeeps(y, f, p1, y');
  }

  lemma WakeupKeeps(y: Sys, c: Chan, y': Sys)
    requires Inv(y) && y' == Wakeup(y, c)
    ensures Inv(y')
  {
    WakeupWakes(y, c);
    WokenShuffled(y, y', c);
    ShuffleKeeps(y, y');
  }

  lemma WokenShuffled(y: Sys, y': Sys, c: Chan)
    requires WokenUp(y, y', c)
    ensures AllShuffled(y, y') && SamePids(y.procs, y'.procs)
  {
  }

  /** A sleeper made runnable from outside. */
  lemma RouseKeeps(y: Sys, s: nat, y': Sys)
    requires Inv(y) && s < NPROC && y.procs[s].state == Sleeping && y.procs[s].level < LEVELS &&
             y' == MakeRunnable(y, s)
    ensures Inv(y')
  {
    var p' := y.procs[s].(state := Runnable, qtime := y.ticks);
    assert Budget(y.procs[s]);
    MoveIn(y.procs, y.queues, s, p');
    ShuffleKeeps(y, y');
  }

  lemma KillKeeps(y: Sys, pid: nat, y': Sys)
    requires Inv(y) && y' == Kill(y, pid)
    ensures Inv(y')
  {
    var s := FindPid(y.procs, pid, 0);
    if s < NPROC {
      var p1 := y.procs[s].(killed := true);
      assert Budget(y.procs[s]);
      var y1 := With(y, s, p1);
      OwnUpdateKeeps(y, s, p1, y1);
      if p1.state == Sleeping {
        RouseKeeps(y1, s, y');
      }
    }
  }

  lemma FaultKeeps(y: Sys, f: nat, y': Sys)
    requires Inv(y) && IsRunning(y, f) && Budget(y.procs[f]) && y' == Fault(y, f)
    ensures Inv(y')
  {
    OwnUpdateKeeps(y, f, y'.procs[f], y');
  }

  lemma InvLines(y: Sys)
    requires Shape(y) && Members(y.procs, y.queues)
    ensures Lines(y)
  {
    forall l, j | 0 <= l < LEVELS && 0 <= j < |y.queues[l]| ensures y.queues[l][j] < NPROC {
      assert LineOk(y.procs, y.queues[l], l);
      assert Waiting(y.procs, y.queues[l][j], l);
    }
  }

  lemma AgeKeeps(y: Sys, y': Sys)
    requires Inv(y) && Lines(y) && y' == AgeFrom(y, 1)
    ensures Inv(y')
  {
    AgeFromInv(y, 1);
    AgingMoves(y);
    AgeShuffles(y, y');
    ShuffleKeeps(y, y');
  }

  lemma AgeShuffles(y: Sys, y': Sys)
    requires Reordered(y, y') && AllMoved(y, y', AgedSlots(y), 1)
    ensures AllShuffled(y, y') && SamePids(y.procs, y'.procs)
  {
    forall s | 0 <= s < NPROC
      ensures Shuffled(y.procs[s], y'.procs[s]) && y'.procs[s].pid == y.procs[s].pid &&
              Live(y'.procs[s]) == Live(y.procs[s])
    {
      assert Requeued(y.procs[s], y'.procs[s]);
    }
  }

  lemma DispatchKeeps(y: Sys, y': Sys)
    requires Inv(y) && Lines(y) && y' == Dispatch(y)
    ensures Inv(y')
  {
    DispatchInv(y);
    DispatchShuffles(y, y');
    ShuffleKeeps(y, y');
  }

  lemma DispatchShuffles(y: Sys, y': Sys)
    requires Shape(y) && Budgets(y.procs) && Lines(y) && y' == Dispatch(y) && Budgets(y'.procs)
    ensures AllShuffled(y, y') && SamePids(y.procs, y'.procs)
  {
    var l := FirstLine(y, 0);
    if l < LEVELS && y.procs[y.queues[l][0]].state == Runnable {
      var s := y.queues[l][0];
      assert Budget(y'.procs[s]);
      SlotShuffled(y, s, y'.procs[s], y');
    }
  }

  lemma PassKeeps(y: Sys, y': Sys)
    requires Inv(y) && Lines(y) && y' == Pass(y)
    ensures Inv(y')
  {
    AgeFromInv(y, 1);
    var y1 := AgeFrom(y, 1);
    AgeKeeps(y, y1);
    DispatchKeeps(y1, y');
  }

  // ------------------------------------------------ fork()

  function FirstUnused(procs: seq<Proc>, k: nat): (r: nat)
    requires k <= |procs|
    ensures k <= r <= |procs| && (r < |procs| ==> procs[r].state == Unused) &&
            forall s :: k <= s < r ==> procs[s].state != Unused
    decreases |procs| - k
  {
    if k == |procs| || procs[k].state == Unused then k else FirstUnused(procs, k + 1)
  }

  function WithTask(y: Sys, f: nat, t: Task): Sys
    requires f < |y.tasks|
  {
    y.(tasks := y.tasks[f := t])
  }

  /** The locked part of allocproc(). */
  function Alloc(y: Sys, f: nat): Sys
    requires Shape(y) && f < NPROC
  {
    var u := FirstUnused(y.procs, 0);
    if u == NPROC then y
    else WithTask(With(y, u, y.procs[u].(state := Embryo, pid := y.nextpid)), f, Alloced(u)).(nextpid := y.nextpid + 1)
  }

  /** The slot goes back: kalloc() failed in allocproc(), or copyuvm() in fork(). */
  function Abandon(y: Sys, f: nat): Sys
    requires Shape(y) && f < NPROC && (y.tasks[f].Alloced? || y.tasks[f].Ready?) && y.tasks[f].child < NPROC
  {
    var u := y.tasks[f].child;
    WithTask(With(y, u, y.procs[u].(state := Unused)), f, Idle)
  }

  /** The unlocked part of allocproc(). */
  function Prepare(y: Sys, f: nat): Sys
    requires Shape(y) && f < NPROC && y.tasks[f].Alloced? && y.tasks[f].child < NPROC
  {
    var u := y.tasks[f].child;
    WithTask(With(y, u, y.procs[u].(level := 0, used := [0, 0, 0, 0, 0], qtime := 0, over := false)), f, Ready(u))
  }

  /** np->parent = curproc, without the lock. */
  function SetParent(y: Sys, f: nat): Sys
    requires Shape(y) && f < NPROC && y.tasks[f].Ready? && y.tasks[f].child < NPROC
  {
    var u := y.tasks[f].child;
    WithTask(With(y, u, y.procs[u].(parent := Some(f))), f, Parented(u))
  }

  /** The end of fork(): the child becomes runnable. */
  function ForkDone(y: Sys, f: nat): Sys
    requires Shape(y) && f < NPROC && y.tasks[f].Parented? && y.tasks[f].child < NPROC
    requires y.procs[y.tasks[f].child].level < LEVELS
  {
    MakeRunnable(WithTask(y, f, Idle), y.tasks[f].child)
  }

  /** A change to one slot u and to the task of f, seen by the families. */
  lemma ForkFamily(y: Sys, y': Sys, f: nat, u: nat, p: Proc, t: Task)
    requires Shape(y) && Family(y) && f < NPROC && u < NPROC && f != u && Active(y.procs[f])
    requires Shape(y') && y'.procs == y.procs[u := p] && y'.tasks == y.tasks[f := t] && y'.init == y.init
    requires y.procs[u].state == Embryo || y.procs[u].state == Unused
    requires p.state == Embryo || p.state == Unused || p.state == Runnable
    requires p.parent == None || (p.parent == Some(f) && p.state != Unused)
    requires p.state == Runnable ==> p.parent == Some(f)
    requires t.Idle? || (t.child == u && p.state == Embryo && p.parent == (if t.Parented? then Some(f) else None))
    requires t.Ready? || t.Parented? ==> Unspent(p)
    requires forall h :: 0 <= h < NPROC && h != f && !y.tasks[h].Idle? ==> y.tasks[h].child != u
    ensures Family(y')
  {
    assert TaskOk(y, f) && Kin(y, u) && u != y.init;
    forall s | 0 <= s < NPROC ensures Kin(y', s) && NoMissedExit(y', s) && TaskOk(y', s) {
      assert Kin(y, s) && NoMissedExit(y, s) && TaskOk(y, s);
    }
  }

  lemma AllocPids(y: Sys, u: nat, p: Proc)
    requires Pids(y.procs, y.nextpid, y.reaped) && 0 < y.nextpid && u < |y.procs| && p.pid == y.nextpid
    ensures Pids(y.procs[u := p], y.nextpid + 1, y.reaped)
  {
  }

  lemma EmbryosOwned(y: Sys, u: nat)
    requires Inv(y) && u < NPROC && y.procs[u].state == Unused
    ensures forall h :: 0 <= h < NPROC && !y.tasks[h].Idle? ==> y.tasks[h].child != u
    ensures y.procs[u].parent == None && 0 < y.nextpid
  {
    assert Kin(y, u) && Active(y.procs[y.init]) && Live(y.procs[y.init]);
    forall h | 0 <= h < NPROC && !y.tasks[h].Idle? ensures y.tasks[h].child != u {
      assert TaskOk(y, h);
    }
  }

  lemma AllocKeeps(y: Sys, f: nat, y': Sys)
    requires Inv(y) && IsRunning(y, f) && y.tasks[f].Idle? && y' == Alloc(y, f)
    ensures Inv(y')
  {
    var u := FirstUnused(y.procs, 0);
    if u < NPROC {
      var p := y.procs[u].(state := Embryo, pid := y.nextpid);
      EmbryosOwned(y, u);
      MoveWithin(y.procs, y.queues, u, p);
      AllocPids(y, u, p);
      assert Budget(y.procs[u]);
      ForkFamily(y, y', f, u, p, Alloced(u));
    }
  }

  /** The parts of the invariant that a change to the slot of an embryo leaves alone. */
  lemma EmbryoStep(y: Sys, f: nat, u: nat, p: Proc)
    requires Inv(y) && f < NPROC && !y.tasks[f].Idle? && y.tasks[f].child == u && u < NPROC
    requires p.state != Runnable && Budget(p) && p.pid == y.procs[u].pid
    requires p.state == Unused || p.state == Embryo
    ensures f != u && Active(y.procs[f]) && y.procs[u].state == Embryo
    ensures forall h :: 0 <= h < NPROC && h != f && !y.tasks[h].Idle? ==> y.tasks[h].child != u
    ensures Members(y.procs[u := p], y.queues) && Budgets(y.procs[u := p]) && Pids(y.procs[u := p], y.nextpid, y.reaped)
  {
    assert TaskOk(y, f);
    MoveWithin(y.procs, y.queues, u, p);
  }

  lemma AbandonKeeps(y: Sys, f: nat, y': Sys)
    requires Inv(y) && f < NPROC && (y.tasks[f].Alloced? || y.tasks[f].Ready?) && y.tasks[f].child < NPROC &&
             y' == Abandon(y, f)
    ensures Inv(y')
  {
    var u := y.tasks[f].child;
    var p := y.procs[u].(state := Unused);
    assert TaskOk(y, f) && Budget(y.procs[u]);
    EmbryoStep(y, f, u, p);
    ForkFamily(y, y', f, u, p, Idle);
  }

  lemma PrepareKeeps(y: Sys, f: nat, y': Sys)
    requires Inv(y) && f < NPROC && y.tasks[f].Alloced? && y.tasks[f].child < NPROC && y' == Prepare(y, f)
    ensures Inv(y')
  {
    var u := y.tasks[f].child;
    var p := y.procs[u].(level := 0, used := [0, 0, 0, 0, 0], qtime := 0, over := false);
    assert TaskOk(y, f);
    EmbryoStep(y, f, u, p);
    ForkFamily(y, y', f, u, p, Ready(u));
  }

  lemma SetParentKeeps(y: Sys, f: nat, y': Sys)
    requires Inv(y) && f < NPROC && y.tasks[f].Ready? && y.tasks[f].child < NPROC && y' == SetParent(y, f)
    ensures Inv(y')
  {
    var u := y.tasks[f].child;
    var p := y.procs[u].(parent := Some(f));
    assert TaskOk(y, f) && Budget(y.procs[u]);
    EmbryoStep(y, f, u, p);
    ForkFamily(y, y', f, u, p, Parented(u));
  }

  lemma ForkDoneKeeps(y: Sys, f: nat, y': Sys)
    requires Inv(y) && f < NPROC && y.tasks[f].Parented? && y.tasks[f].child < NPROC
    requires y.procs[y.tasks[f].child].level < LEVELS && y' == ForkDone(y, f)
    ensures Inv(y')
  {
    var u := y.tasks[f].child;
    var p := y.procs[u].(state := Runnable, qtime := y.ticks);
    assert TaskOk(y, f) && Budget(y.procs[u]);
    MoveIn(y.procs, y.queues, u, p);
    PidsFrame(y.procs, y'.procs, y.nextpid, y.reaped);
    ForkFamily(y, y', f, u, p, Idle);
  }
}

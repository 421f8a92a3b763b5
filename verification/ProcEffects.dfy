/** What the steps of the process table do, exactly, to every process and to every queue. */
module ProcEffects {
  import opened Common
  import opened ProcState
  import opened Aging
  import opened AgingOrder
  import opened ProcSteps
  import opened ExitWait
  import opened ProcRuns

  /** Slot s is last in queue l. */
  predicate Last(y: Sys, l: nat, s: nat) {
    l < |y.queues| && y.queues[l] != [] && y.queues[l][|y.queues[l]| - 1] == s
  }

  /** Slot s, and nothing else, has become p. */
  predicate Becomes(y: Sys, y': Sys, s: nat, p: Proc) {
    s < |y.procs| && y' == y.(procs := y.procs[s := p])
  }

  /** Slot s has become p and joined the end of queue l; every other process keeps its state and its place. */
  predicate Joins(y: Sys, y': Sys, s: nat, p: Proc, l: nat) {
    && s < |y.procs| && l < |y.queues|
    && y' == y.(procs := y.procs[s := p], queues := y.queues[l := y.queues[l] + [s]])
  }

  /** A process that is not runnable is in no queue. */
  lemma NotInLine(y: Sys, l: nat, s: nat)
    requires Members(y.procs, y.queues) && l < |y.queues| && s < |y.procs| && y.procs[s].state != Runnable
    ensures s !in y.queues[l]
  {
    assert LineOk(y.procs, y.queues[l], l);
    forall j | 0 <= j < |y.queues[l]| ensures y.queues[l][j] != s {
      assert Waiting(y.procs, y.queues[l][j], l);
    }
  }

  // ------------------------------------------------ yield() and the timer

  /**
   What yield() does to f: runnable, with its budget as it was, and last in the queue below its own exactly if the
   budget at its level is used up and there is a queue below, otherwise last in its own.
   */
  ghost predicate YieldMoved(y: Sys, y': Sys, f: nat) {
    && Shape(y) && Shape(y') && f < NPROC && Budget(y.procs[f])
    && var p, p' := y.procs[f], y'.procs[f];
    && Joins(y, y', f, p.(state := Runnable, level := p'.level, over := false, qtime := y.ticks), p'.level)
    && (p.level < LEVELS - 1 ==> (p.used[p.level] >= Limit(p.level) <==> Last(y', p.level + 1, f)))
    && (p.level < LEVELS - 1 ==> (p.used[p.level] < Limit(p.level) <==> Last(y', p.level, f)))
    && (p.level == LEVELS - 1 ==> Last(y', p.level, f))
  }

  lemma YieldMoves(y: Sys, f: nat, y': Sys)
    requires Inv(y) && IsRunning(y, f) && Budget(y.procs[f]) && y' == Yield(y, f)
    ensures YieldMoved(y, y', f)
  {
    var p := y.procs[f];
    NotInLine(y, p.level, f);
    if p.level < LEVELS - 1 {
      NotInLine(y, p.level + 1, f);
    }
  }

  /** What the timer interrupt does to f: a tick of budget while there is one, a yield() once it is used up. */
  ghost predicate SliceMoved(y: Sys, y': Sys, f: nat) {
    && Shape(y) && Shape(y') && f < NPROC && Budget(y.procs[f])
    && var p, l := y.procs[f], y.procs[f].level;
    && (y'.procs[f].state == Running <==> p.used[l] < Limit(l))
    && (p.used[l] < Limit(l) ==> Becomes(y, y', f, p.(used := p.used[l := p.used[l] + 1])))
    && (p.used[l] >= Limit(l) ==> YieldMoved(y, y', f))
  }

  lemma SliceMoves(y: Sys, f: nat, y': Sys)
    requires Inv(y) && IsRunning(y, f) && Budget(y.procs[f]) && y' == Slice(y, f)
    ensures SliceMoved(y, y', f)
  {
    var p := y.procs[f];
    if p.used[p.level] >= Limit(p.level) {
      YieldMoves(y, f, Yield(y, f));
      assert y' == Yield(y, f);
    }
  }

  // ------------------------------------------------ kill()

  /** s is the first slot with this pid. */
  ghost predicate FirstWith(procs: seq<Proc>, pid: nat, s: nat) {
    s < |procs| && procs[s].pid == pid && forall t :: 0 <= t < s ==> procs[t].pid != pid
  }

  /** What kill() does to s: marked, and no longer asleep; if it slept it is last in the queue of its level. */
  ghost predicate KillMoved(y: Sys, y': Sys, s: nat) {
    && Shape(y) && Shape(y') && s < NPROC
    && var p := y.procs[s].(killed := true);
    if p.state == Sleeping then Joins(y, y', s, p.(state := Runnable, qtime := y.ticks), p.level)
    else Becomes(y, y', s, p)
  }

  lemma KillMoves(y: Sys, pid: nat, y': Sys, s: nat)
    requires Inv(y) && (forall t :: 0 <= t < NPROC ==> y.procs[t].level < LEVELS) && y' == Kill(y, pid)
    ensures FirstWith(y.procs, pid, s) ==> KillMoved(y, y', s) && y'.procs[s].state != Sleeping
    ensures FirstWith(y.procs, pid, s) && y.procs[s].state == Sleeping ==>
              y'.procs[s].state == Runnable && Last(y', y.procs[s].level, s)
    ensures (forall t :: 0 <= t < NPROC ==> y.procs[t].pid != pid) ==> y' == y
  {
    var t := FindPid(y.procs, pid, 0);
    assert FirstWith(y.procs, pid, s) ==> t == s;
  }

  // ------------------------------------------------ fork()

  /** The end of fork(): the child u is runnable, last in queue 0, with all of its budget. */
  ghost predicate ForkMoved(y: Sys, y': Sys, f: nat, u: nat) {
    && Shape(y) && Shape(y') && f < NPROC && u < NPROC && y.tasks[f] == Parented(u)
    && Joins(y.(tasks := y.tasks[f := Idle]), y', u, y.procs[u].(state := Runnable, qtime := y.ticks), 0)
    && Last(y', 0, u) && Unspent(y'.procs[u]) && ChildOf(y'.procs[u], f)
  }

  lemma ForkMoves(y: Sys, f: nat, u: nat, y': Sys)
    requires Inv(y) && f < NPROC && y.tasks[f] == Parented(u) && u < NPROC && y.procs[u].level < LEVELS
    requires y' == ForkDone(y, f)
    ensures ForkMoved(y, y', f, u)
  {
    assert TaskOk(y, f);
  }

  /** allocproc() takes the first unused slot u, for the next pid, and nothing else. */
  lemma AllocMoves(y: Sys, f: nat, y': Sys, u: nat)
    requires Inv(y) && f < NPROC && y' == Alloc(y, f)
    ensures (forall s :: 0 <= s < NPROC ==> y.procs[s].state != Unused) ==> y' == y
    ensures u < NPROC && y.procs[u].state == Unused && (forall s :: 0 <= s < u ==> y.procs[s].state != Unused) ==>
      && Becomes(y.(tasks := y.tasks[f := Alloced(u)], nextpid := y.nextpid + 1), y', u,
                 y.procs[u].(state := Embryo, pid := y.nextpid))
      && forall s :: 0 <= s < NPROC && Live(y.procs[s]) ==> y.procs[s].pid != y'.procs[u].pid
  {
    var t := FirstUnused(y.procs, 0);
  }

  // ------------------------------------------------ wait()

  /** Slot s is a child of f that has exited. */
  predicate ZombieChild(procs: seq<Proc>, f: nat, s: nat) {
    s < |procs| && ChildOf(procs[s], f) && procs[s].state == Zombie
  }

  /** What wait() comes to: the first such child is reaped and its slot is free. */
  ghost predicate WaitReaps(y: Sys, y': Sys, f: nat, z: nat) {
    && ZombieChild(y.procs, f, z) && (forall s :: 0 <= s < z ==> !ZombieChild(y.procs, f, s))
    && Becomes(y.(reaped := y.reaped + [y.procs[z].pid]), y', z,
               y.procs[z].(pid := 0, parent := None, killed := false, state := Unused))
  }

  /** Its three outcomes, each exactly when: a zombie child, nothing to wait for, or sleep until a child exits. */
  ghost predicate WaitMoved(y: Sys, y': Sys, f: nat)
    requires f < |y.procs|
  {
    && ((exists z :: WaitReaps(y, y', f, z)) <==> exists s :: ZombieChild(y.procs, f, s))
    && (y' == y <==>
        (forall s :: !ZombieChild(y.procs, f, s)) && (y.procs[f].killed || !HasChild(y.procs, f)))
    && (Becomes(y, y', f, y.procs[f].(state := Sleeping, chan := SlotChan(f))) <==>
        (forall s :: !ZombieChild(y.procs, f, s)) && !y.procs[f].killed && HasChild(y.procs, f))
  }

  lemma WaitMoves(y: Sys, f: nat, y': Sys)
    requires Inv(y) && IsRunning(y, f) && y' == Wait(y, f)
    ensures WaitMoved(y, y', f)
  {
    var z := FindZombie(y.procs, f, 0);
    if z < NPROC {
      assert ZombieChild(y.procs, f, z);
      WaitReapsFirst(y, y', f, z);
    } else {
      forall s ensures !ZombieChild(y.procs, f, s) {
      }
    }
  }

  lemma WaitReapsFirst(y: Sys, y': Sys, f: nat, z: nat)
    requires Inv(y) && IsRunning(y, f) && z == FindZombie(y.procs, f, 0) < NPROC && y' == Reap(y, z)
    ensures WaitReaps(y, y', f, z) && |y'.reaped| == |y.reaped| + 1
  {
    assert y'.reaped == y.reaped + [y.procs[z].pid];
  }

  // ------------------------------------------------ exit()

  /** f has a zombie child from slot k on. */
  ghost predicate LeavesZombie(procs: seq<Proc>, f: nat, k: nat) {
    exists t :: k <= t < |procs| && ZombieChild(procs, f, t)
  }

  /** What exit()'s loop from slot k on makes of slot s. */
  ghost function Adopted(y: Sys, f: nat, k: nat, s: nat): Proc
    requires Shape(y) && s < NPROC
  {
    var p := y.procs[s];
    var q := if k <= s && ChildOf(p, f) then p.(parent := Some(y.init)) else p;
    if SleepsOn(p, SlotChan(y.init)) && LeavesZombie(y.procs, f, k) then q.(state := Runnable, qtime := y.ticks) else q
  }

  ghost predicate AllAdopted(y: Sys, y': Sys, f: nat, k: nat) {
    && Shape(y) && Shape(y') && y' == y.(procs := y'.procs, queues := y'.queues)
    && forall s :: 0 <= s < NPROC ==> y'.procs[s] == Adopted(y, f, k, s)
  }

  lemma LeavesZombieNext(procs: seq<Proc>, f: nat, k: nat)
    requires k < |procs|
    ensures LeavesZombie(procs, f, k) <==> ZombieChild(procs, f, k) || LeavesZombie(procs, f, k + 1)
  {
    if LeavesZombie(procs, f, k) {
      var t :| k <= t < |procs| && ZombieChild(procs, f, t);
    }
  }

  /** One round of that loop. */
  ghost predicate OneAdopted(y: Sys, y': Sys, f: nat, k: nat) {
    && Shape(y) && Shape(y') && k < NPROC && y' == y.(procs := y'.procs, queues := y'.queues)
    && forall s :: 0 <= s < NPROC ==> y'.procs[s] == AdoptedNow(y, f, k, s)
  }

  ghost function AdoptedNow(y: Sys, f: nat, k: nat, s: nat): Proc
    requires Shape(y) && s < NPROC
  {
    var p := y.procs[s];
    var q := if k == s && ChildOf(p, f) then p.(parent := Some(y.init)) else p;
    if SleepsOn(p, SlotChan(y.init)) && ZombieChild(y.procs, f, k) then q.(state := Runnable, qtime := y.ticks) else q
  }

  lemma AdoptOneMoves(y: Sys, f: nat, k: nat, next: nat, y': Sys)
    requires Exiting(y, f, k) && k < NPROC && next == k + 1 && y' == AdoptOne(y, f, k)
    ensures OneAdopted(y, y', f, k)
  {
    if ZombieChild(y.procs, f, k) {
      var y1 := With(y, k, y.procs[k].(parent := Some(y.init)));
      HandOver(y, f, k, next, y1);
      WakeupWakes(y1, SlotChan(y.init));
      forall s | 0 <= s < NPROC ensures y'.procs[s] == Woken(y1.procs[s], SlotChan(y.init), y1.ticks) {
      }
    }
  }

  lemma SameZombies(y: Sys, y1: Sys, f: nat, k: nat, next: nat)
    requires OneAdopted(y, y1, f, k) && next == k + 1
    ensures LeavesZombie(y1.procs, f, next) == LeavesZombie(y.procs, f, next)
  {
    forall t | next <= t < NPROC ensures ZombieChild(y1.procs, f, t) == ZombieChild(y.procs, f, t) {
    }
    if LeavesZombie(y1.procs, f, next) {
      var t :| next <= t < NPROC && ZombieChild(y1.procs, f, t);
      assert ZombieChild(y.procs, f, t);
    }
    if LeavesZombie(y.procs, f, next) {
      var t :| next <= t < NPROC && ZombieChild(y.procs, f, t);
      assert ZombieChild(y1.procs, f, t);
    }
  }

  lemma AdoptedNext(y: Sys, y1: Sys, y2: Sys, f: nat, k: nat, next: nat)
    requires OneAdopted(y, y1, f, k) && next == k + 1 && AllAdopted(y1, y2, f, next)
    ensures AllAdopted(y, y2, f, k)
  {
    LeavesZombieNext(y.procs, f, k);
    SameZombies(y, y1, f, k, next);
    forall s | 0 <= s < NPROC ensures y2.procs[s] == Adopted(y, f, k, s) {
      assert y2.procs[s] == Adopted(y1, f, next, s);
    }
  }

  lemma {:induction false} AdoptMoves(y: Sys, f: nat, k: nat)
    requires Exiting(y, f, k) && k <= NPROC
    ensures AllAdopted(y, AdoptFrom(y, f, k), f, k)
    decreases NPROC - k
  {
    if k < NPROC {
      var y1, next := AdoptOne(y, f, k), k + 1;
      AdoptOneKeeps(y, f, k, next, y1);
      AdoptOneMoves(y, f, k, next, y1);
      AdoptMoves(y1, f, next);
      AdoptedNext(y, y1, AdoptFrom(y, f, k), f, k, next);
    }
  }

  /** s sleeps in wait(), and the exit of f is news for it: it is its parent, or init and inherits a zombie. */
  ghost predicate IsTold(y: Sys, f: nat, s: nat)
    requires s < |y.procs| && f < |y.procs|
  {
    SleepsOn(y.procs[s], SlotChan(s)) && (ChildOf(y.procs[f], s) || (s == y.init && LeavesZombie(y.procs, f, 0)))
  }

  /** What exit() of f makes of slot s. */
  ghost function AfterExit(y: Sys, f: nat, s: nat): Proc
    requires s < |y.procs| && f < |y.procs|
  {
    var p := y.procs[s];
    if s == f then p.(state := Zombie)
    else
      var q := if ChildOf(p, f) then p.(parent := Some(y.init)) else p;
      if IsTold(y, f, s) then q.(state := Runnable, qtime := y.ticks) else q
  }

  /** f is a zombie, its children are init's, those who wait for this news are woken, and no more. */
  ghost predicate ExitMoved(y: Sys, y': Sys, f: nat) {
    && Shape(y) && Shape(y') && f < NPROC && y' == y.(procs := y'.procs, queues := y'.queues)
    && forall s :: 0 <= s < NPROC ==> y'.procs[s] == AfterExit(y, f, s)
  }

  /** Slot s once its child has told its parent g. */
  function ToldOf(y: Sys, g: nat, s: nat): Proc
    requires s < |y.procs|
  {
    if s == g then Woken(y.procs[s], SlotChan(s), y.ticks) else y.procs[s]
  }

  lemma ParentTold(y: Sys, f: nat, g: nat, y1: Sys)
    requires Inv(y) && IsRunning(y, f) && ChildOf(y.procs[f], g) && WokenUp(y, y1, SlotChan(g))
    ensures y1.procs[f] == y.procs[f] && LeavesZombie(y1.procs, f, 0) == LeavesZombie(y.procs, f, 0)
    ensures forall s :: 0 <= s < NPROC ==> y1.procs[s] == ToldOf(y, g, s)
  {
    forall s | 0 <= s < NPROC ensures y1.procs[s] == ToldOf(y, g, s) {
      assert Kin(y, s);
    }
    if LeavesZombie(y1.procs, f, 0) {
      var t :| 0 <= t < NPROC && ZombieChild(y1.procs, f, t);
      assert ZombieChild(y.procs, f, t);
    }
    if LeavesZombie(y.procs, f, 0) {
      var t :| 0 <= t < NPROC && ZombieChild(y.procs, f, t);
      assert ZombieChild(y1.procs, f, t);
    }
  }

  lemma ExitedSlot(y: Sys, f: nat, g: nat, y1: Sys, y2: Sys, y': Sys, s: nat)
    requires Inv(y) && IsRunning(y, f) && ChildOf(y.procs[f], g) && s < NPROC
    requires WokenUp(y, y1, SlotChan(g)) && AllAdopted(y1, y2, f, 0)
    requires y' == With(y2, f, y2.procs[f].(state := Zombie))
    ensures y'.procs[s] == AfterExit(y, f, s)
  {
    ParentTold(y, f, g, y1);
    assert Kin(y, s) && Kin(y, f);
    assert y2.procs[s] == Adopted(y1, f, 0, s) && y2.procs[f] == Adopted(y1, f, 0, f);
  }

  lemma ExitMoves(y: Sys, f: nat, y': Sys)
    requires Inv(y) && IsRunning(y, f) && y.tasks[f].Idle? && f != y.init && y.procs[f].parent.Some? && y' == Exit(y, f)
    ensures ExitMoved(y, y', f)
  {
    var g := y.procs[f].parent.value;
    var y1 := Wakeup(y, SlotChan(g));
    WakeupWakes(y, SlotChan(g));
    ExitStarts(y, f, y1);
    AdoptMoves(y1, f, 0);
    var y2 := AdoptFrom(y1, f, 0);
    forall s | 0 <= s < NPROC ensures y'.procs[s] == AfterExit(y, f, s) {
      ExitedSlot(y, f, g, y1, y2, y', s);
    }
  }

  // ------------------------------------------------ the scheduler

  /** The slot at the head of the first queue that is not empty, once the aging loops are done. */
  ghost predicate Picks(y: Sys, l: nat, s: nat) {
    l < |y.queues| && (forall m :: 0 <= m < l ==> y.queues[m] == []) && At(y, l, 0, s)
  }

  /** s, the head of queue l, is running and charged for a tick at that level; the others of its queue move up. */
  ghost predicate Runs(y: Sys, y': Sys, l: nat, s: nat) {
    && Shape(y) && s < NPROC && l < LEVELS && At(y, l, 0, s) && |y.procs[s].used| == LEVELS
    && var p := y.procs[s];
    y' == y.(procs := y.procs[s := p.(state := Running, chan := NoChan, used := p.used[l := p.used[l] + 1],
                                      over := p.over || p.used[l] + 1 >= Limit(l))],
             queues := y.queues[l := y.queues[l][1..]])
  }

  lemma DispatchMoves(y: Sys, y': Sys) returns (l: nat, s: nat)
    requires Lines(y) && Members(y.procs, y.queues) && Budgets(y.procs) && y' == Dispatch(y)
    ensures if l < LEVELS then Picks(y, l, s) && Runs(y, y', l, s) && s < NPROC && y.procs[s].state == Runnable &&
                               y.procs[s].level == l
            else y' == y && forall m :: 0 <= m < LEVELS ==> y.queues[m] == []
  {
    l := FirstLine(y, 0);
    s := 0;
    if l < LEVELS {
      s := y.queues[l][0];
      AtMeansWaiting(y, l, 0, s);
      assert Budget(y.procs[s]);
      assert Remove(y.queues[l], 0) == y.queues[l][1..];
    }
  }

  /** What a round of the scheduler does to slot s: it may rise, and if it is then picked it runs. */
  ghost predicate PassMoved(y: Sys, y1: Sys, y': Sys, l: nat, s: nat) {
    && AllMoved(y, y1, AgedSlots(y), 1)
    && if l < LEVELS then
         Picks(y1, l, s) && Runs(y1, y', l, s) && y1.procs[s].state == Runnable && y1.procs[s].level == l
       else y' == y1 && forall m :: 0 <= m < LEVELS ==> y1.queues[m] == []
  }

  lemma PassMovesTo(y: Sys, y': Sys) returns (y1: Sys, l: nat, s: nat)
    requires Inv(y) && Lines(y) && y' == Pass(y)
    ensures PassMoved(y, y1, y', l, s) && Inv(y1)
  {
    AgeFromInv(y, 1);
    y1 := AgeFrom(y, 1);
    AgingMoves(y);
    AgeKeeps(y, y1);
    l, s := DispatchMoves(y1, y');
  }

  /** Slot s was chosen between y and y'. */
  predicate Starts(y: Sys, y': Sys, s: nat) {
    s < |y.procs| && s < |y'.procs| && y.procs[s].state == Runnable && y'.procs[s].state == Running
  }

  /** No other process changes its state, and none that is left waiting has a higher priority than the chosen one. */
  ghost predicate FirstServed(y: Sys, y': Sys, s: nat) {
    && Shape(y) && Shape(y') && Starts(y, y', s)
    && forall t :: 0 <= t < NPROC && t != s ==>
      && y'.procs[t].state == y.procs[t].state
      && (y'.procs[t].state == Runnable ==> y'.procs[s].level <= y'.procs[t].level)
  }

  /** A round of the scheduler runs exactly one process if any is runnable, and one of the highest priority there is. */
  lemma PassPicks(y: Sys, y': Sys)
    requires Inv(y) && Lines(y) && y' == Pass(y)
    ensures (exists t :: 0 <= t < NPROC && y.procs[t].state == Runnable) <==> exists s :: FirstServed(y, y', s)
    ensures (forall t :: 0 <= t < NPROC ==> y.procs[t].state != Runnable) ==> y' == y
  {
    var y1, l, s := PassMovesTo(y, y');
    if l < LEVELS {
      PickServed(y, y1, y', l, s);
    } else {
      NoneWaiting(y1);
      NoneRise(y, y1);
    }
  }

  lemma NoneWaiting(y: Sys)
    requires Shape(y) && Members(y.procs, y.queues) && forall l :: 0 <= l < LEVELS ==> y.queues[l] == []
    ensures forall t :: 0 <= t < NPROC ==> y.procs[t].state != Runnable
  {
  }

  lemma NoneRise(y: Sys, y1: Sys)
    requires Inv(y) && AllMoved(y, y1, AgedSlots(y), 1) && forall t :: 0 <= t < NPROC ==> y.procs[t].state != Runnable
    ensures y1 == y
  {
    forall l | 0 <= l < LEVELS ensures y.queues[l] == [] && y1.queues[l] == [] {
      if y.queues[l] != [] {
        AtMeansWaiting(y, l, 0, y.queues[l][0]);
      }
    }
  }

  lemma PickServed(y: Sys, y1: Sys, y': Sys, l: nat, s: nat)
    requires Inv(y) && Inv(y1) && PassMoved(y, y1, y', l, s) && l < LEVELS
    ensures FirstServed(y, y', s) && y.procs[s].state == Runnable
  {
    forall t | 0 <= t < NPROC && t != s
      ensures y'.procs[t].state == y.procs[t].state
      ensures y'.procs[t].state == Runnable ==> y'.procs[s].level <= y'.procs[t].level
    {
      assert y1.procs[t].state == Runnable ==> Placed(y1.procs, y1.queues, t);
    }
  }
}

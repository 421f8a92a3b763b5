/** exit() and wait() as steps of the process table. */
module ExitWait {
  import opened Common
  import opened Counting
  import opened ProcState
  import opened ProcSteps

  predicate ChildOf(p: Proc, f: nat) {
    p.parent == Some(f)
  }

  // ------------------------------------------------ wait()

  /** The first zombie child of f, from slot k on. */
  function FindZombie(procs: seq<Proc>, f: nat, k: nat): (r: nat)
    requires k <= |procs|
    ensures k <= r <= |procs| && (r < |procs| ==> ChildOf(procs[r], f) && procs[r].state == Zombie)
    ensures forall s :: k <= s < r ==> !(ChildOf(procs[s], f) && procs[s].state == Zombie)
    decreases |procs| - k
  {
    if k == |procs| || (ChildOf(procs[k], f) && procs[k].state == Zombie) then k else FindZombie(procs, f, k + 1)
  }

  predicate HasChild(procs: seq<Proc>, f: nat) {
    exists s :: 0 <= s < |procs| && ChildOf(procs[s], f)
  }

  /** wait() frees the slot of a zombie and returns its pid. */
  function Reap(y: Sys, z: nat): Sys
    requires z < |y.procs|
  {
    With(y, z, y.procs[z].(pid := 0, parent := None, killed := false, state := Unused))
      .(reaped := y.reaped + [y.procs[z].pid])
  }

  /** Once through wait()'s loop: reap a child, fail, or go to sleep on the caller's own slot. */
  function Wait(y: Sys, f: nat): Sys
    requires Shape(y) && f < NPROC
  {
    var z := FindZombie(y.procs, f, 0);
    if z < NPROC then Reap(y, z)
    else if !HasChild(y.procs, f) || y.procs[f].killed then y
    else SleepOn(y, f, SlotChan(f))
  }

  lemma ReapPids(procs: seq<Proc>, nextpid: nat, reaped: seq<nat>, z: nat, p: Proc)
    requires Pids(procs, nextpid, reaped) && z < |procs| && Live(procs[z]) && !Live(p)
    ensures Pids(procs[z := p], nextpid, reaped + [procs[z].pid])
  {
    var more := reaped + [procs[z].pid];
    assert Distinct(more);
  }

  lemma ReapFamily(y: Sys, y': Sys, z: nat, p: Proc)
    requires Shape(y) && Family(y) && z < NPROC && y.procs[z].state == Zombie && p.state == Unused && p.parent == None
    requires Shape(y') && y'.procs == y.procs[z := p] && y'.tasks == y.tasks && y'.init == y.init
    ensures Family(y')
  {
    forall s | 0 <= s < NPROC ensures Kin(y', s) && NoMissedExit(y', s) && TaskOk(y', s) {
      assert Kin(y, s) && NoMissedExit(y, s) && TaskOk(y, s);
    }
  }

  lemma ReapKeeps(y: Sys, z: nat, y': Sys)
    requires Inv(y) && z < NPROC && y.procs[z].state == Zombie && y' == Reap(y, z)
    ensures Inv(y')
  {
    var p := y.procs[z].(pid := 0, parent := None, killed := false, state := Unused);
    assert Budget(y.procs[z]);
    MoveWithin(y.procs, y.queues, z, p);
    ReapPids(y.procs, y.nextpid, y.reaped, z, p);
    ReapFamily(y, y', z, p);
  }

  /** wait() may sleep: no child is a zombie. */
  lemma WaitSleepKeeps(y: Sys, f: nat, y': Sys)
    requires Inv(y) && IsRunning(y, f) && FindZombie(y.procs, f, 0) == NPROC && y' == SleepOn(y, f, SlotChan(f))
    ensures Inv(y')
  {
    var p := y.procs[f].(state := Sleeping, chan := SlotChan(f));
    assert Budget(y.procs[f]);
    MoveWithin(y.procs, y.queues, f, p);
    PidsFrame(y.procs, y'.procs, y.nextpid, y.reaped);
    forall s | 0 <= s < NPROC ensures Kin(y', s) && NoMissedExit(y', s) && TaskOk(y', s) {
      assert Kin(y, s) && NoMissedExit(y, s) && TaskOk(y, s);
      assert !(ChildOf(y.procs[s], f) && y.procs[s].state == Zombie);
    }
  }

  lemma WaitKeeps(y: Sys, f: nat, y': Sys)
    requires Inv(y) && IsRunning(y, f) && y' == Wait(y, f)
    ensures Inv(y')
  {
    var z := FindZombie(y.procs, f, 0);
    if z < NPROC {
      ReapKeeps(y, z, y');
    } else if HasChild(y.procs, f) && !y.procs[f].killed {
      WaitSleepKeeps(y, f, y');
    }
  }

  // ------------------------------------------------ exit()

  /** One child of f goes to init, which is told if the child is a zombie. */
  function AdoptOne(y: Sys, f: nat, k: nat): (y': Sys)
    requires Shape(y) && k < NPROC && forall s :: 0 <= s < NPROC ==> y.procs[s].level < LEVELS
    ensures Shape(y') && forall s :: 0 <= s < NPROC ==> y'.procs[s].level < LEVELS
  {
    if !ChildOf(y.procs[k], f) then y
    else
      var y1 := With(y, k, y.procs[k].(parent := Some(y.init)));
      if y1.procs[k].state == Zombie then Wakeup(y1, SlotChan(y.init)) else y1
  }

  /** Pass the children in slots k and up to init. */
  function AdoptFrom(y: Sys, f: nat, k: nat): (y': Sys)
    requires Shape(y) && k <= NPROC && forall s :: 0 <= s < NPROC ==> y.procs[s].level < LEVELS
    ensures Shape(y') && forall s :: 0 <= s < NPROC ==> y'.procs[s].level < LEVELS
    decreases NPROC - k
  {
    if k == NPROC then y else AdoptFrom(AdoptOne(y, f, k), f, k + 1)
  }

  /** exit(), from the wakeup of the parent to the switch to the scheduler; init does not exit. */
  function Exit(y: Sys, f: nat): Sys
    requires Shape(y) && f < NPROC && y.procs[f].parent.Some? &&
             forall s :: 0 <= s < NPROC ==> y.procs[s].level < LEVELS
  {
    var y1 := Wakeup(y, SlotChan(y.procs[f].parent.value));
    var y2 := AdoptFrom(y1, f, 0);
    With(y2, f, y2.procs[f].(state := Zombie))
  }

  /** The parent of f will look at its children again before it sleeps. */
  ghost predicate ParentAwake(y: Sys, f: nat) {
    && Shape(y) && f < NPROC && y.procs[f].parent.Some? && y.procs[f].parent.value < NPROC
    && !(y.procs[y.procs[f].parent.value].state == Sleeping && y.procs[y.procs[f].parent.value].chan.SlotChan?)
  }

  /** exit() between its steps: f still runs, and its children below slot k are gone. */
  ghost predicate Exiting(y: Sys, f: nat, k: nat) {
    && Inv(y) && IsRunning(y, f) && y.tasks[f].Idle? && f != y.init && ParentAwake(y, f)
    && forall s :: 0 <= s < NPROC && s < k ==> !ChildOf(y.procs[s], f)
  }

  lemma ExitStarts(y: Sys, f: nat, y1: Sys)
    requires Inv(y) && IsRunning(y, f) && y.tasks[f].Idle? && f != y.init && y.procs[f].parent.Some?
    requires y1 == Wakeup(y, SlotChan(y.procs[f].parent.value))
    ensures Exiting(y1, f, 0)
  {
    var g := y.procs[f].parent.value;
    WakeupKeeps(y, SlotChan(g), y1);
    WakeupWakes(y, SlotChan(g));
    assert Kin(y, f) && Kin(y, g);
    assert y1.procs[f] == Woken(y.procs[f], SlotChan(g), y.ticks);
    assert y1.procs[g] == Woken(y.procs[g], SlotChan(g), y.ticks);
  }

  /** As Exiting, but init may still have to be told of a zombie. */
  ghost predicate HandedOver(y: Sys, f: nat, k: nat) {
    && Shape(y) && Members(y.procs, y.queues) && Budgets(y.procs) && Pids(y.procs, y.nextpid, y.reaped)
    && Active(y.procs[y.init]) && (forall s :: 0 <= s < NPROC ==> Kin(y, s)) &&
       (forall s :: 0 <= s < NPROC ==> TaskOk(y, s))
    && IsRunning(y, f) && y.tasks[f].Idle? && f != y.init && ParentAwake(y, f)
    && forall s :: 0 <= s < NPROC && s < k ==> !ChildOf(y.procs[s], f)
  }

  lemma HandOver(y: Sys, f: nat, k: nat, next: nat, y': Sys)
    requires Exiting(y, f, k) && k < NPROC && ChildOf(y.procs[k], f) && next == k + 1
    requires y' == With(y, k, y.procs[k].(parent := Some(y.init)))
    ensures HandedOver(y', f, next)
  {
    var p := y.procs[k].(parent := Some(y.init));
    assert Kin(y, k) && Budget(y.procs[k]);
    MoveWithin(y.procs, y.queues, k, p);
    PidsFrame(y.procs, y'.procs, y.nextpid, y.reaped);
    forall h | 0 <= h < NPROC ensures y.tasks[h] != Parented(k) {
      assert TaskOk(y, h);
    }
    forall s | 0 <= s < NPROC ensures Kin(y', s) && TaskOk(y', s) {
      HandOverKin(y, k, y', s);
    }
  }

  lemma HandOverKin(y: Sys, k: nat, y': Sys, s: nat)
    requires Shape(y) && Family(y) && k < NPROC && s < NPROC && y.procs[k].parent.Some?
    requires y' == With(y, k, y.procs[k].(parent := Some(y.init))) &&
             forall h :: 0 <= h < NPROC ==> y.tasks[h] != Parented(k)
    ensures Kin(y', s) && TaskOk(y', s)
  {
    assert Kin(y, k) && Kin(y, s) && TaskOk(y, s);
  }

  /** A living child is handed over. */
  lemma AdoptLiving(y: Sys, f: nat, k: nat, next: nat, y': Sys)
    requires Exiting(y, f, k) && k < NPROC && ChildOf(y.procs[k], f) && y.procs[k].state != Zombie && next == k + 1
    requires y' == With(y, k, y.procs[k].(parent := Some(y.init)))
    ensures Exiting(y', f, next)
  {
    HandOver(y, f, k, next, y');
    forall s | 0 <= s < NPROC ensures NoMissedExit(y', s) {
      assert NoMissedExit(y, s);
    }
  }

  lemma WokenHandedOver(y: Sys, f: nat, k: nat, c: Chan, y': Sys)
    requires HandedOver(y, f, k) && WokenUp(y, y', c) && Members(y'.procs, y'.queues) && Budgets(y'.procs)
    ensures HandedOver(y', f, k)
  {
    WokenShuffled(y, y', c);
    PidsFrame(y.procs, y'.procs, y.nextpid, y.reaped);
    forall s | 0 <= s < NPROC ensures Kin(y', s) && TaskOk(y', s) {
      WokenKin(y, y', s);
    }
    WokenRunner(y, f, k, c, y');
  }

  lemma WokenKin(y: Sys, y': Sys, s: nat)
    requires AllShuffled(y, y') && s < NPROC && Kin(y, s) && TaskOk(y, s)
    ensures Kin(y', s) && TaskOk(y', s)
  {
    var p, t := y.procs[s], y.tasks[s];
    assert Shuffled(p, y'.procs[s]);
    if p.parent.Some? {
      assert Shuffled(y.procs[p.parent.value], y'.procs[p.parent.value]);
    }
    if !t.Idle? {
      assert Shuffled(y.procs[t.child], y'.procs[t.child]);
    }
  }

  lemma WokenRunner(y: Sys, f: nat, k: nat, c: Chan, y': Sys)
    requires WokenUp(y, y', c) && IsRunning(y, f) && ParentAwake(y, f) && Active(y.procs[y.init])
    requires forall s :: 0 <= s < NPROC && s < k ==> !ChildOf(y.procs[s], f)
    ensures IsRunning(y', f) && ParentAwake(y', f) && Active(y'.procs[y'.init])
    ensures forall s :: 0 <= s < NPROC && s < k ==> !ChildOf(y'.procs[s], f)
  {
    var g := y.procs[f].parent.value;
    assert y'.procs[f] == Woken(y.procs[f], c, y.ticks) && y'.procs[g] == Woken(y.procs[g], c, y.ticks);
    assert y'.procs[y.init] == Woken(y.procs[y.init], c, y.ticks);
    forall s | 0 <= s < NPROC && s < k ensures !ChildOf(y'.procs[s], f) {
      assert y'.procs[s] == Woken(y.procs[s], c, y.ticks);
    }
  }

  /** Waking init makes up for the zombie it was given. */
  lemma InitTold(y: Sys, k: nat, y1: Sys, y2: Sys, s: nat)
    requires Shape(y) && Shape(y1) && k < NPROC && s < NPROC && NoMissedExit(y, s) && Kin(y1, y1.init)
    requires y1 == With(y, k, y.procs[k].(parent := Some(y.init))) && WokenUp(y1, y2, SlotChan(y.init))
    ensures NoMissedExit(y2, s)
  {
    var c := SlotChan(y.init);
    assert y2.procs[s] == Woken(y1.procs[s], c, y1.ticks);
    var p := y1.procs[s];
    if p.parent.Some? && p.parent.value < NPROC {
      assert y2.procs[p.parent.value] == Woken(y1.procs[p.parent.value], c, y1.ticks);
    }
  }

  /** A zombie child is handed over, and init is woken if it sleeps in wait(). */
  lemma AdoptZombie(y: Sys, f: nat, k: nat, next: nat, y1: Sys, y2: Sys)
    requires Exiting(y, f, k) && k < NPROC && ChildOf(y.procs[k], f) && y.procs[k].state == Zombie && next == k + 1
    requires y1 == With(y, k, y.procs[k].(parent := Some(y.init))) && y2 == Wakeup(y1, SlotChan(y.init))
    ensures Exiting(y2, f, next)
  {
    HandOver(y, f, k, next, y1);
    var c := SlotChan(y.init);
    WakeupWakes(y1, c);
    WokenHandedOver(y1, f, next, c, y2);
    forall s | 0 <= s < NPROC ensures NoMissedExit(y2, s) {
      InitTold(y, k, y1, y2, s);
    }
  }

  lemma AdoptOneKeeps(y: Sys, f: nat, k: nat, next: nat, y': Sys)
    requires Exiting(y, f, k) && k < NPROC && next == k + 1 && y' == AdoptOne(y, f, k)
    ensures Exiting(y', f, next)
  {
    if ChildOf(y.procs[k], f) {
      var y1 := With(y, k, y.procs[k].(parent := Some(y.init)));
      if y.procs[k].state == Zombie {
        AdoptZombie(y, f, k, next, y1, y');
      } else {
        AdoptLiving(y, f, k, next, y');
      }
    }
  }

  lemma {:induction false} AdoptAllKeeps(y: Sys, f: nat, k: nat)
    requires Exiting(y, f, k) && k <= NPROC
    ensures Exiting(AdoptFrom(y, f, k), f, NPROC)
    decreases NPROC - k
  {
    if k < NPROC {
      var y1, next := AdoptOne(y, f, k), k + 1;
      AdoptOneKeeps(y, f, k, next, y1);
      AdoptAllKeeps(y1, f, next);
    }
  }

  /** With no children left and its parent awake, f may become a zombie. */
  lemma BecomeZombie(y: Sys, f: nat, y': Sys)
    requires Exiting(y, f, NPROC) && y' == With(y, f, y.procs[f].(state := Zombie))
    ensures Inv(y')
  {
    var p := y.procs[f].(state := Zombie);
    assert Budget(y.procs[f]);
    MoveWithin(y.procs, y.queues, f, p);
    PidsFrame(y.procs, y'.procs, y.nextpid, y.reaped);
    forall s | 0 <= s < NPROC ensures Kin(y', s) && TaskOk(y', s) && NoMissedExit(y', s) {
      assert Kin(y, s) && TaskOk(y, s) && NoMissedExit(y, s);
      assert !ChildOf(y.procs[s], f);
    }
  }

  lemma ExitKeeps(y: Sys, f: nat, y': Sys)
    requires Inv(y) && IsRunning(y, f) && y.tasks[f].Idle? && f != y.init && y.procs[f].parent.Some? && y' == Exit(y, f)
    ensures Inv(y')
  {
    var y1 := Wakeup(y, SlotChan(y.procs[f].parent.value));
    ExitStarts(y, f, y1);
    AdoptAllKeeps(y1, f, 0);
    var y2 := AdoptFrom(y1, f, 0);
    BecomeZombie(y2, f, y');
  }
}

/**
 sleeplock.c with sleep() and wakeup() of proc.c, for any number of processes and locks.

 A process is at a point between two atomic steps: acquiring or releasing a spinlock, or a
 write under one. ptable.lock guards the step into sleep and the wakeup; each sleeplock has
 its own spinlock.
 */
module SleepLock {
  import opened Common
  import opened Counting

  datatype Point =
    | Running               // in neither acquiresleep() nor releasesleep(), perhaps with sleeplocks held
    | Entering(l: nat)      // acquiresleep(): about to acquire(&lk->lk)
    | Testing(l: nat)       // holds lk->lk, about to look at lk->locked
    | ToTable(l: nat)       // in sleep(): about to acquire(&ptable.lock), holds lk->lk
    | DropSpin(l: nat)      // holds both, about to release(&lk->lk)
    | GoToSleep(l: nat)     // holds ptable.lock, about to set chan and state and to switch
    | Asleep(l: nat)        // SLEEPING on lk
    | Awake(l: nat)         // runnable again, about to reacquire lk->lk
    | Took(l: nat)          // has set lk->locked, about to release(&lk->lk)
    | Leaving(l: nat)       // releasesleep(): about to acquire(&lk->lk)
    | Clearing(l: nat)      // holds lk->lk, about to clear lk->locked
    | ToWake(l: nat)        // about to acquire(&ptable.lock) for wakeup(lk)
    | Waking(l: nat)        // holds ptable.lock, about to wake the sleepers
    | Left(l: nat)          // about to release(&lk->lk)
    | Elsewhere             // holds ptable.lock for some other purpose

  datatype State = State(
    at: seq<Point>,             // per process
    held: seq<set<nat>>,        // per process: the locks whose acquiresleep() has returned and that it has not let go
    pids: seq<nat>,             // per process
    spin: seq<Option<nat>>,     // per lock: the holder of lk->lk
    locked: seq<bool>,          // lk->locked
    pid: seq<nat>,              // lk->pid
    table: Option<nat>)         // the holder of ptable.lock

  // ------------------------------------------------ the steps

  predicate Shape(s: State) {
    |s.pids| == |s.at| && |s.held| == |s.at| && |s.locked| == |s.spin| && |s.pid| == |s.spin|
  }

  predicate Known(s: State, p: Point) {
    p.Running? || p.Elsewhere? || p.l < |s.spin|
  }

  function Go(s: State, p: nat, to: Point): State
    requires p < |s.at|
  {
    s.(at := s.at[p := to])
  }

  datatype Step = Call(p: nat, l: nat) | Release(p: nat, l: nat) | Advance(p: nat) | Kill(p: nat) | GrabTable(p: nat)

  /**
   An acquire() step waits until its spinlock is free; everything else can go on. A process may call acquiresleep()
   with other sleeplocks held (or this one: then it sleeps for ever), and releases only what it holds.
   */
  predicate Enabled(s: State, step: Step) {
    match step
    case Call(p, l) => p < |s.at| && l < |s.spin| && s.at[p].Running?
    case Release(p, l) => p < |s.at| && p < |s.held| && s.at[p].Running? && l in s.held[p]
    case Kill(p) => p < |s.at| && s.at[p].Asleep? && s.table.None?
    case GrabTable(p) => p < |s.at| && s.at[p].Running? && s.table.None?
    case Advance(p) => p < |s.at| && Known(s, s.at[p]) && CanAdvance(s, s.at[p])
  }

  predicate CanAdvance(s: State, at: Point)
    requires Known(s, at)
  {
    match at
    case Entering(l) => s.spin[l].None?
    case Awake(l) => s.spin[l].None?
    case Leaving(l) => s.spin[l].None?
    case ToTable(_) => s.table.None?
    case ToWake(_) => s.table.None?
    case Running => false
    case Asleep(_) => false
    case _ => true
  }

  function Rouse(at: Point, l: nat): Point {
    if at == Asleep(l) then Awake(l) else at
  }

  function Apply(s: State, step: Step): State
    requires Shape(s) && Enabled(s, step)
  {
    match step
    case Call(p, l) => Go(s, p, Entering(l))
    case Release(p, l) => Go(s, p, Leaving(l)).(held := s.held[p := s.held[p] - {l}])
    case Kill(p) => Go(s, p, Awake(s.at[p].l))
    case GrabTable(p) => Go(s, p, Elsewhere).(table := Some(p))
    case Advance(p) => Forward(s, p)
  }

  function Forward(s: State, p: nat): State
    requires Shape(s) && p < |s.at| && Known(s, s.at[p]) && CanAdvance(s, s.at[p])
  {
    match s.at[p]
    case Entering(l) => Go(s, p, Testing(l)).(spin := s.spin[l := Some(p)])
    case Awake(l) => Go(s, p, Testing(l)).(spin := s.spin[l := Some(p)])
    case Testing(l) =>
      if s.locked[l] then Go(s, p, ToTable(l))
      else Go(s, p, Took(l)).(locked := s.locked[l := true], pid := s.pid[l := s.pids[p]])
    case ToTable(l) => Go(s, p, DropSpin(l)).(table := Some(p))
    case DropSpin(l) => Go(s, p, GoToSleep(l)).(spin := s.spin[l := None])
    case GoToSleep(l) => Go(s, p, Asleep(l)).(table := None)
    case Took(l) => Go(s, p, Running).(spin := s.spin[l := None], held := s.held[p := s.held[p] + {l}])
    case Leaving(l) => Go(s, p, Clearing(l)).(spin := s.spin[l := Some(p)])
    case Clearing(l) => Go(s, p, ToWake(l)).(locked := s.locked[l := false], pid := s.pid[l := 0])
    case ToWake(l) => Go(s, p, Waking(l)).(table := Some(p))
    case Waking(l) =>
      s.(at := seq(|s.at|, i requires 0 <= i < |s.at| => Rouse(s.at[i], l))[p := Left(l)], table := None)
    case Left(l) => Go(s, p, Running).(spin := s.spin[l := None])
    case Elsewhere => Go(s, p, Running).(table := None)
  }

  // ------------------------------------------------ the invariant

  predicate HoldsSpin(at: Point, l: nat) {
    || at == Testing(l) || at == ToTable(l) || at == DropSpin(l) || at == Took(l)
    || at == Clearing(l) || at == ToWake(l) || at == Waking(l) || at == Left(l)
  }

  predicate HoldsTable(at: Point) {
    at.DropSpin? || at.GoToSleep? || at.Waking? || at.Elsewhere?
  }

  /** Inside acquiresleep() or releasesleep(), between setting lk->locked and clearing it. */
  predicate Passing(at: Point, l: nat) {
    at == Took(l) || at == Leaving(l) || at == Clearing(l)
  }

  /** Process p has set lk->locked and not yet cleared it. */
  predicate HoldsLock(s: State, p: nat, l: nat)
    requires p < |s.at| && p < |s.held|
  {
    Passing(s.at[p], l) || l in s.held[p]
  }

  /** About to wake the sleepers of l. */
  predicate WillWake(at: Point, l: nat) {
    at == ToWake(l) || at == Waking(l)
  }

  /** The spinlocks are held exactly by the processes that are between acquire() and release(). */
  ghost predicate Spins(s: State)
    requires Shape(s)
  {
    && (forall p :: 0 <= p < |s.at| ==> Known(s, s.at[p]))
    && (forall p :: 0 <= p < |s.at| ==> HeldOk(s, p))
    && (forall p, l :: 0 <= p < |s.at| && 0 <= l < |s.spin| ==> (s.spin[l] == Some(p) <==> HoldsSpin(s.at[p], l)))
    && (forall p :: 0 <= p < |s.at| ==> (s.table == Some(p) <==> HoldsTable(s.at[p])))
    && (forall l :: 0 <= l < |s.spin| ==> s.spin[l].Some? ==> s.spin[l].value < |s.at|)
    && (s.table.Some? ==> s.table.value < |s.at|)
  }

  ghost predicate Held(s: State, l: nat)
    requires Shape(s)
  {
    exists p :: 0 <= p < |s.at| && HoldsLock(s, p, l)
  }

  ghost predicate WakeComing(s: State, l: nat) {
    exists q :: 0 <= q < |s.at| && WillWake(s.at[q], l)
  }

  /** The fields of sleeplock l tell who holds it, and no two processes do. */
  ghost predicate OwnerOk(s: State, l: nat)
    requires Shape(s) && l < |s.spin|
  {
    && (forall p :: 0 <= p < |s.at| && HoldsLock(s, p, l) ==> s.locked[l] && s.pid[l] == s.pids[p])
    && (forall p, q :: 0 <= p < |s.at| && 0 <= q < |s.at| && HoldsLock(s, p, l) && HoldsLock(s, q, l) ==> p == q)
    && (s.locked[l] ==> Held(s, l))
  }

  /** Whoever sleeps, or is on the way to sleep, on l will be woken: l is locked or its wakeup is on the way. */
  ghost predicate SleeperOk(s: State, at: Point)
    requires Shape(s) && Known(s, at)
  {
    && (at.ToTable? || at.DropSpin? ==> s.locked[at.l])
    && (at.GoToSleep? || at.Asleep? ==> s.locked[at.l] || WakeComing(s, at.l))
  }

  ghost predicate Inv(s: State) {
    && Shape(s) && Distinct(s.pids) && Spins(s)
    && (forall l :: 0 <= l < |s.spin| ==> OwnerOk(s, l))
    && (forall p :: 0 <= p < |s.at| ==> SleeperOk(s, s.at[p]))
  }

  // ------------------------------------------------ every step keeps it

  /** Only p moves, to the point `to`. */
  ghost predicate Moves(s: State, s': State, p: nat, to: Point) {
    && Shape(s) && Shape(s') && p < |s.at| && s'.at == s.at[p := to] && s'.pids == s.pids && |s'.spin| == |s.spin|
    && s'.held == s.held[p := s'.held[p]]
  }

  /** p's sleeplocks are known ones, and those it is passing in or out of are not counted twice. */
  ghost predicate HeldOk(s: State, p: nat)
    requires Shape(s) && p < |s.at|
  {
    forall l :: l in s.held[p] ==> l < |s.spin| && !Passing(s.at[p], l)
  }

  /** The spinlock changes that go with a move: taken if free and held afterwards, given up if no longer held. */
  ghost predicate SpinsFollow(s: State, s': State, p: nat, to: Point)
    requires Shape(s) && Shape(s') && p < |s.at| && |s'.spin| == |s.spin|
  {
    && (forall l :: 0 <= l < |s.spin| ==>
          && (HoldsSpin(to, l) ==> s'.spin[l] == Some(p) && (s.spin[l] == None || s.spin[l] == Some(p)))
          && (!HoldsSpin(to, l) ==> s'.spin[l] == if HoldsSpin(s.at[p], l) then None else s.spin[l]))
    && (HoldsTable(to) ==> s'.table == Some(p) && (s.table == None || s.table == Some(p)))
    && (!HoldsTable(to) ==> s'.table == if HoldsTable(s.at[p]) then None else s.table)
  }

  lemma SpinsKept(s: State, s': State, p: nat, to: Point)
    requires Shape(s) && Spins(s) && Moves(s, s', p, to) && SpinsFollow(s, s', p, to) && Known(s', to) && HeldOk(s', p)
    ensures Spins(s')
  {
    forall q | 0 <= q < |s'.at| ensures HeldOk(s', q) {
      assert HeldOk(s, q);
    }
  }

  /** A lock that p neither takes nor gives up. */
  lemma OwnerKept(s: State, s': State, p: nat, to: Point, l: nat)
    requires Moves(s, s', p, to) && l < |s.spin| && OwnerOk(s, l)
    requires s'.locked[l] == s.locked[l] && s'.pid[l] == s.pid[l] && HoldsLock(s, p, l) == HoldsLock(s', p, l)
    ensures OwnerOk(s', l)
  {
    assert forall q :: 0 <= q < |s.at| ==> HoldsLock(s', q, l) == HoldsLock(s, q, l);
    if s.locked[l] {
      var q :| 0 <= q < |s.at| && HoldsLock(s, q, l);
      assert HoldsLock(s', q, l);
    }
  }

  lemma WakeKept(s: State, s': State, p: nat, to: Point, l: nat)
    requires Moves(s, s', p, to) && WakeComing(s, l) && (WillWake(s.at[p], l) ==> WillWake(to, l))
    ensures WakeComing(s', l)
  {
    var q :| 0 <= q < |s.at| && WillWake(s.at[q], l);
    assert WillWake(s'.at[q], l);
  }

  /** A process at `at` is still safe if its lock is as it was and p has not called off a wakeup. */
  lemma SleeperKept(s: State, s': State, p: nat, to: Point, at: Point)
    requires Moves(s, s', p, to) && Known(s, at) && SleeperOk(s, at)
    requires at.Running? || at.Elsewhere? || (s.locked[at.l] ==> s'.locked[at.l])
    requires at.Running? || at.Elsewhere? || (WillWake(s.at[p], at.l) ==> WillWake(to, at.l))
    ensures Known(s', at) && SleeperOk(s', at)
  {
    if !at.Running? && !at.Elsewhere? && WakeComing(s, at.l) {
      WakeKept(s, s', p, to, at.l);
    }
  }

  /** What a plain move of p leaves alone: the sleeplock fields, who holds a sleeplock, and who will wake. */
  ghost predicate Bland(s: State, s': State, p: nat, from: Point, to: Point)
    requires Shape(s) && Shape(s') && p < |s.at| && p < |s'.at|
  {
    && s'.locked == s.locked && s'.pid == s.pid
    && (forall l: nat :: HoldsLock(s, p, l) == HoldsLock(s', p, l))
    && (forall l: nat :: WillWake(from, l) == WillWake(to, l))
  }

  lemma PlainMove(s: State, s': State, p: nat, to: Point)
    requires Inv(s) && Moves(s, s', p, to) && SpinsFollow(s, s', p, to) && Known(s, to)
    requires Bland(s, s', p, s.at[p], to) && HeldOk(s', p) && SleeperOk(s, to)
    ensures Inv(s')
  {
    SpinsKept(s, s', p, to);
    forall l | 0 <= l < |s.spin| ensures OwnerOk(s', l) {
      OwnerKept(s, s', p, to, l);
    }
    forall q | 0 <= q < |s.at| ensures SleeperOk(s', s'.at[q]) {
      SleeperKept(s, s', p, to, if q == p then to else s.at[q]);
    }
  }

  /** The steps outside Forward. */
  lemma OutsideKeeps(s: State, step: Step, s': State)
    requires Inv(s) && Enabled(s, step) && !step.Advance? && s' == Apply(s, step)
    ensures Inv(s')
  {
    var p := step.p;
    var from, to := s.at[p], s'.at[p];
    assert Known(s, from) && SleeperOk(s, from) && HeldOk(s, p);
    PlainMove(s, s', p, to);
  }

  /** The points from which Forward touches no sleeplock field and wakes no one. */
  predicate Plain(s: State, at: Point)
    requires Known(s, at) && Shape(s)
  {
    !at.Clearing? && !at.Waking? && !(at.Testing? && !s.locked[at.l])
  }

  predicate TouchesSpin(at: Point) {
    at.Entering? || at.Awake? || at.Leaving? || at.DropSpin? || at.Took? || at.Left?
  }

  /** Steps that take or give up a lock's spinlock. */
  lemma SpinStepKeeps(s: State, p: nat, s': State)
    requires Inv(s) && p < |s.at| && Known(s, s.at[p]) && CanAdvance(s, s.at[p]) && TouchesSpin(s.at[p]) &&
             s' == Forward(s, p)
    ensures Inv(s')
  {
    var from, to := s.at[p], s'.at[p];
    assert SleeperOk(s, from) && HeldOk(s, p);
    PlainMove(s, s', p, to);
  }

  /** The other plain steps. */
  lemma TableStepKeeps(s: State, p: nat, s': State)
    requires Inv(s) && p < |s.at| && Known(s, s.at[p]) && CanAdvance(s, s.at[p]) && Plain(s, s.at[p]) &&
             !TouchesSpin(s.at[p])
    requires s' == Forward(s, p)
    ensures Inv(s')
  {
    var from, to := s.at[p], s'.at[p];
    assert SleeperOk(s, from) && HeldOk(s, p);
    PlainMove(s, s', p, to);
  }

  /** lk->locked = 1, by a process that found it 0 under lk->lk. */
  lemma TakeKeeps(s: State, p: nat, l: nat, s': State)
    requires Inv(s) && p < |s.at| && l < |s.spin| && s.at[p] == Testing(l) && !s.locked[l] && s' == Forward(s, p)
    ensures Inv(s')
  {
    var to := Took(l);
    assert OwnerOk(s, l) && HeldOk(s, p) && !HoldsLock(s, p, l) && HoldsLock(s', p, l);
    SpinsKept(s, s', p, to);
    forall k | 0 <= k < |s.spin| ensures OwnerOk(s', k) {
      if k != l {
        OwnerKept(s, s', p, to, k);
      }
    }
    forall q | 0 <= q < |s.at| ensures SleeperOk(s', s'.at[q]) {
      SleeperKept(s, s', p, to, if q == p then to else s.at[q]);
    }
  }

  lemma OneSpinner(s: State, p: nat, q: nat, l: nat)
    requires Shape(s) && Spins(s) && p < |s.at| && q < |s.at| && l < |s.spin| && q != p && HoldsSpin(s.at[p], l)
    ensures !HoldsSpin(s.at[q], l)
  {
    assert s.spin[l] == Some(p) && s.spin[l] != Some(q);
  }

  lemma ClearOwner(s: State, p: nat, l: nat, s': State)
    requires Inv(s) && p < |s.at| && l < |s.spin| && s.at[p] == Clearing(l) && s' == Forward(s, p)
    ensures OwnerOk(s', l)
  {
    assert OwnerOk(s, l) && HeldOk(s, p) && HoldsLock(s, p, l);
    forall q | 0 <= q < |s.at| ensures !HoldsLock(s', q, l) {
      assert HoldsLock(s, q, l) ==> q == p;
    }
  }

  lemma ClearSleeper(s: State, p: nat, l: nat, s': State, q: nat)
    requires Inv(s) && p < |s.at| && l < |s.spin| && s.at[p] == Clearing(l) && s' == Forward(s, p) && q < |s.at|
    ensures Known(s', s'.at[q]) && SleeperOk(s', s'.at[q])
  {
    assert WillWake(s'.at[p], l);
    if q != p {
      OneSpinner(s, p, q, l);
      if s.at[q].Running? || s.at[q].Elsewhere? || s.at[q].l != l {
        SleeperKept(s, s', p, ToWake(l), s.at[q]);
      }
    }
  }

  /** lk->locked = 0: from here to the wakeup, the spinlock keeps everyone else out. */
  lemma ClearKeeps(s: State, p: nat, l: nat, s': State)
    requires Inv(s) && p < |s.at| && l < |s.spin| && s.at[p] == Clearing(l) && s' == Forward(s, p)
    ensures Inv(s')
  {
    var to := ToWake(l);
    assert HeldOk(s, p);
    SpinsKept(s, s', p, to);
    forall k | 0 <= k < |s.spin| ensures OwnerOk(s', k) {
      if k == l {
        ClearOwner(s, p, l, s');
      } else {
        OwnerKept(s, s', p, to, k);
      }
    }
    forall q | 0 <= q < |s.at| ensures SleeperOk(s', s'.at[q]) {
      ClearSleeper(s, p, l, s', q);
    }
  }

  lemma WakeSpins(s: State, p: nat, l: nat, s': State)
    requires Inv(s) && p < |s.at| && l < |s.spin| && s.at[p] == Waking(l) && s' == Forward(s, p)
    ensures Shape(s') && Spins(s')
  {
    forall q | 0 <= q < |s.at| && q != p ensures s'.at[q] == Rouse(s.at[q], l) {
    }
    forall q | 0 <= q < |s.at| ensures HeldOk(s', q) {
      assert HeldOk(s, q);
    }
  }

  lemma WakeOwner(s: State, p: nat, l: nat, s': State, k: nat)
    requires Inv(s) && p < |s.at| && l < |s.spin| && s.at[p] == Waking(l) && s' == Forward(s, p) && k < |s.spin|
    ensures OwnerOk(s', k)
  {
    forall q | 0 <= q < |s.at| ensures HoldsLock(s', q, k) == HoldsLock(s, q, k) {
    }
    if s.locked[k] {
      assert OwnerOk(s, k);
      var q :| 0 <= q < |s.at| && HoldsLock(s, q, k);
      assert HoldsLock(s', q, k);
    }
  }

  /** wakeup(lk): no one is asleep on l afterwards, and no one is on the way to sleep, since both locks are held. */
  lemma WakeKeeps(s: State, p: nat, l: nat, s': State)
    requires Inv(s) && p < |s.at| && l < |s.spin| && s.at[p] == Waking(l) && s' == Forward(s, p)
    ensures Inv(s') && forall q :: 0 <= q < |s.at| ==> s'.at[q] != Asleep(l) && s'.at[q] != GoToSleep(l)
  {
    WakeSpins(s, p, l, s');
    forall k | 0 <= k < |s.spin| ensures OwnerOk(s', k) {
      WakeOwner(s, p, l, s', k);
    }
    forall q | 0 <= q < |s.at| ensures SleeperOk(s', s'.at[q]) && s'.at[q] != Asleep(l) && s'.at[q] != GoToSleep(l) {
      assert SleeperOk(s, s.at[q]);
      assert HoldsTable(s.at[q]) ==> s.table == Some(q);
      var at := s.at[q];
      if (at.Asleep? || at.GoToSleep?) && WakeComing(s, at.l) && at.l != l {
        var h :| 0 <= h < |s.at| && WillWake(s.at[h], at.l);
        assert WillWake(s'.at[h], at.l);
      }
    }
  }

  lemma StepKeeps(s: State, step: Step)
    requires Inv(s) && Enabled(s, step)
    ensures Inv(Apply(s, step))
  {
    var s' := Apply(s, step);
    if !step.Advance? {
      OutsideKeeps(s, step, s');
    } else if TouchesSpin(s.at[step.p]) {
      SpinStepKeeps(s, step.p, s');
    } else if Plain(s, s.at[step.p]) {
      TableStepKeeps(s, step.p, s');
    } else {
      match s.at[step.p]
      case Testing(l) => TakeKeeps(s, step.p, l, s');
      case Clearing(l) => ClearKeeps(s, step.p, l, s');
      case Waking(l) => WakeKeeps(s, step.p, l, s');
    }
  }

  // ------------------------------------------------ whole runs

  function Initial(pids: seq<nat>, locks: nat): State {
    State(seq(|pids|, _ => Running), seq(|pids|, _ => {}), pids, seq(locks, _ => None),
          seq(locks, _ => false), seq(locks, _ => 0), None)
  }

  datatype Outcome = Stopped | Reached(s: State)

  ghost function Execute(s: State, schedule: seq<Step>): (r: Outcome)
    requires Inv(s)
    ensures r.Reached? ==> Inv(r.s)
    decreases |schedule|
  {
    if schedule == [] then Reached(s)
    else if !Enabled(s, schedule[0]) then Stopped
    else
      StepKeeps(s, schedule[0]);
      Execute(Apply(s, schedule[0]), schedule[1..])
  }

  ghost function Run(pids: seq<nat>, locks: nat, schedule: seq<Step>): (r: Outcome)
    requires Distinct(pids)
    ensures r.Reached? ==> Inv(r.s)
  {
    Execute(Initial(pids, locks), schedule)
  }

  /** At most one process holds a sleeplock, and it is the one whose pid the lock records. */
  lemma MutualExclusion(pids: seq<nat>, locks: nat, schedule: seq<Step>, s: State, p: nat, q: nat, l: nat)
    requires Distinct(pids) && Run(pids, locks, schedule) == Reached(s) && p < |s.at| && q < |s.at| && l < |s.spin|
    ensures Shape(s) && (HoldsLock(s, p, l) && HoldsLock(s, q, l) ==> p == q)
    ensures HoldsLock(s, p, l) ==> s.locked[l] && s.pid[l] == s.pids[p]
  {
    assert OwnerOk(s, l);
  }

  /** No lost wakeup: while the spinlock of l is free, a process asleep on l means that l is held by someone. */
  lemma SleepersHaveHolder(pids: seq<nat>, locks: nat, schedule: seq<Step>, s: State, p: nat, l: nat)
    requires Distinct(pids) && Run(pids, locks, schedule) == Reached(s) && p < |s.at| && l < |s.spin|
    requires s.at[p] == Asleep(l) && s.spin[l].None?
    ensures Shape(s) && s.locked[l] && Held(s, l)
  {
    assert OwnerOk(s, l) && SleeperOk(s, s.at[p]);
    if WakeComing(s, l) {
      var q :| 0 <= q < |s.at| && WillWake(s.at[q], l);
      assert HoldsSpin(s.at[q], l);
    }
  }

  /** holdingsleep() by process p, under the lock's spinlock: true exactly for the holder. */
  lemma HoldingSleepExact(s: State, p: nat, l: nat)
    requires Inv(s) && p < |s.at| && l < |s.spin| && s.spin[l].None?
    ensures s.locked[l] && s.pid[l] == s.pids[p] <==> HoldsLock(s, p, l)
  {
    assert OwnerOk(s, l);
    if s.locked[l] && s.pid[l] == s.pids[p] {
      assert Held(s, l);
      var q :| 0 <= q < |s.at| && HoldsLock(s, q, l);
      assert s.pids[q] == s.pids[p];
    }
  }

  // ------------------------------------------------ what the calls do

  /** Inside acquiresleep() of l. */
  predicate InAcquire(at: Point, l: nat) {
    || at == Entering(l) || at == Testing(l) || at == ToTable(l) || at == DropSpin(l)
    || at == GoToSleep(l) || at == Asleep(l) || at == Awake(l) || at == Took(l)
  }

  /** Inside releasesleep() of l. */
  predicate InRelease(at: Point, l: nat) {
    at == Leaving(l) || at == Clearing(l) || at == ToWake(l) || at == Waking(l) || at == Left(l)
  }

  /** A call goes on, or returns: acquiresleep() with the lock held, releasesleep() without a change since its start. */
  ghost predicate CallGoesOn(s: State, s': State, p: nat, l: nat)
    requires Shape(s) && Shape(s') && p < |s.at| && p < |s'.at|
  {
    && (InAcquire(s.at[p], l) ==>
          || (InAcquire(s'.at[p], l) && s'.held[p] == s.held[p])
          || (s'.at[p].Running? && s'.held[p] == s.held[p] + {l}))
    && (InRelease(s.at[p], l) ==> (InRelease(s'.at[p], l) || s'.at[p].Running?) && s'.held[p] == s.held[p])
  }

  /** The steps of others leave p where it is, unless they wake it. */
  lemma OthersStep(s: State, step: Step, s': State, p: nat)
    requires Shape(s) && Enabled(s, step) && s' == Apply(s, step) && p < |s.at| && step.p != p
    ensures Shape(s') && |s'.at| == |s.at| && s'.held[p] == s.held[p]
    ensures s'.at[p] == s.at[p] || (s.at[p].Asleep? && s'.at[p] == Awake(s.at[p].l))
  {
  }

  lemma OwnAdvance(s: State, s': State, p: nat, l: nat)
    requires Shape(s) && Enabled(s, Advance(p)) && s' == Apply(s, Advance(p))
    ensures Shape(s') && |s'.at| == |s.at| && CallGoesOn(s, s', p, l)
  {
  }

  lemma CallStep(s: State, step: Step, s': State, p: nat, l: nat)
    requires Shape(s) && Enabled(s, step) && s' == Apply(s, step) && p < |s.at|
    ensures Shape(s') && |s'.at| == |s.at| && CallGoesOn(s, s', p, l)
    ensures step == Call(p, l) ==> s'.at[p] == Entering(l) && s'.held == s.held
    ensures step == Release(p, l) ==> s'.at[p] == Leaving(l) && s'.held[p] == s.held[p] - {l}
  {
    if step.p != p {
      OthersStep(s, step, s', p);
    } else if step.Advance? {
      OwnAdvance(s, s', p, l);
    }
  }

  /** p begins nothing new in this run. */
  predicate BeginsNothing(schedule: seq<Step>, p: nat) {
    forall k :: 0 <= k < |schedule| ==>
      !((schedule[k].Call? || schedule[k].Release? || schedule[k].GrabTable?) && schedule[k].p == p)
  }

  lemma {:induction false} StaysOut(s: State, schedule: seq<Step>, p: nat)
    requires Inv(s) && Execute(s, schedule).Reached? && p < |s.at| && s.at[p].Running? && BeginsNothing(schedule, p)
    ensures var s' := Execute(s, schedule).s;
      Shape(s') && |s'.at| == |s.at| && s'.at[p].Running? && s'.held[p] == s.held[p]
    decreases |schedule|
  {
    if schedule != [] {
      StepKeeps(s, schedule[0]);
      StaysOut(Apply(s, schedule[0]), schedule[1..], p);
    }
  }

  /** Whatever others do, acquiresleep() returns only with the lock, and the caller's other locks are as they were. */
  lemma {:induction false} AcquireReturns(s: State, schedule: seq<Step>, p: nat, l: nat)
    requires Inv(s) && Execute(s, schedule).Reached? && p < |s.at| && InAcquire(s.at[p], l)
    requires BeginsNothing(schedule, p)
    ensures var s' := Execute(s, schedule).s;
      && Shape(s') && |s'.at| == |s.at|
      && if s'.at[p].Running? then s'.held[p] == s.held[p] + {l}
         else InAcquire(s'.at[p], l) && s'.held[p] == s.held[p]
    decreases |schedule|
  {
    if schedule != [] {
      var s1, rest := Apply(s, schedule[0]), schedule[1..];
      StepKeeps(s, schedule[0]);
      CallStep(s, schedule[0], s1, p, l);
      if s1.at[p].Running? {
        StaysOut(s1, rest, p);
      } else {
        AcquireReturns(s1, rest, p, l);
      }
    }
  }

  /** This step wakes p, which sleeps on l: a kill() of it, or the wakeup() of a releasesleep() of l. */
  predicate Rouses(s: State, step: Step, p: nat, l: nat) {
    step == Kill(p) || (step.Advance? && step.p < |s.at| && s.at[step.p] == Waking(l))
  }

  lemma RousedIff(s: State, step: Step, s': State, p: nat, l: nat)
    requires Shape(s) && Enabled(s, step) && s' == Apply(s, step) && p < |s.at| && s.at[p] == Asleep(l)
    ensures |s'.at| == |s.at| && s'.at[p] == if Rouses(s, step, p, l) then Awake(l) else Asleep(l)
  {
  }

  // ------------------------------------------------ they come to an end

  lemma OneStep(s: State, step: Step, rest: seq<Step>)
    requires Inv(s) && Enabled(s, step)
    ensures Inv(Apply(s, step)) && Execute(s, [step] + rest) == Execute(Apply(s, step), rest)
  {
    StepKeeps(s, step);
    assert ([step] + rest)[1..] == rest;
  }

  /** p goes on for three steps. */
  function Thrice(p: nat): seq<Step> {
    [Advance(p)] + ([Advance(p)] + ([Advance(p)] + []))
  }

  /** Whoever comes for a free lock, for the first time or after a wakeup, gets it in three steps of its own. */
  lemma FreeIsTaken(s: State, p: nat, l: nat)
    requires Inv(s) && p < |s.at| && l < |s.spin| && (s.at[p] == Entering(l) || s.at[p] == Awake(l))
    requires s.spin[l].None? && !s.locked[l]
    ensures var r := Execute(s, Thrice(p));
      && r.Reached? && Shape(r.s) && |r.s.at| == |s.at| && |r.s.spin| == |s.spin|
      && r.s.at[p].Running? && r.s.held[p] == s.held[p] + {l}
      && r.s.locked[l] && r.s.pid[l] == s.pids[p] && r.s.spin[l].None?
  {
    var s1 := Apply(s, Advance(p));
    OneStep(s, Advance(p), [Advance(p)] + ([Advance(p)] + []));
    var s2 := Apply(s1, Advance(p));
    OneStep(s1, Advance(p), [Advance(p)] + []);
    OneStep(s2, Advance(p), []);
  }

  lemma FirstHalf(s: State, p: nat, l: nat) returns (t: State)
    requires Inv(s) && p < |s.at| && l < |s.spin| && s.at[p] == Leaving(l) && s.spin[l].None? && s.table.None?
    ensures Inv(t) && Execute(s, [Advance(p)] + ([Advance(p)] + Thrice(p))) == Execute(t, Thrice(p))
    ensures |t.at| == |s.at| && |t.spin| == |s.spin| && t.at[p] == ToWake(l) && t.table.None?
    ensures Shape(t) && !t.locked[l] && t.pid[l] == 0
  {
    var s1 := Apply(s, Advance(p));
    OneStep(s, Advance(p), [Advance(p)] + Thrice(p));
    t := Apply(s1, Advance(p));
    OneStep(s1, Advance(p), Thrice(p));
  }

  /** Whoever lets a lock go is done in five steps of its own: the lock is free and all who slept on it are awake. */
  lemma HeldIsFreed(s: State, p: nat, l: nat)
    requires Inv(s) && p < |s.at| && l < |s.spin| && s.at[p] == Leaving(l) && s.spin[l].None? && s.table.None?
    ensures var r := Execute(s, [Advance(p)] + ([Advance(p)] + Thrice(p)));
      && r.Reached? && Shape(r.s) && |r.s.at| == |s.at| && |r.s.spin| == |s.spin|
      && r.s.at[p].Running? && !r.s.locked[l] && r.s.pid[l] == 0 && r.s.spin[l].None?
      && forall q :: 0 <= q < |s.at| ==> r.s.at[q] != Asleep(l)
  {
    var t := FirstHalf(s, p, l);
    var t1 := Apply(t, Advance(p));
    OneStep(t, Advance(p), [Advance(p)] + ([Advance(p)] + []));
    var t2 := Apply(t1, Advance(p));
    OneStep(t1, Advance(p), [Advance(p)] + []);
    WakeKeeps(t1, p, l, t2);
    OneStep(t2, Advance(p), []);
  }
}

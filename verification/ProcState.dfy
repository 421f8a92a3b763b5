/**
 The process table of proc.c, MLFQ build, as a value, and its atomic steps: what one holder
 of ptable.lock does until it releases it, and the few writes fork() makes without the lock.

 A dispatch ends at swtch(); what the scheduler does when swtch() returns is part of the
 step (yield, sleep, exit) of the process that came back. A slot of ptable.proc is its index.
 */
module ProcState {
  import opened Common
  import opened Counting

  const NPROC := 64
  const LEVELS := 5
  const AGE_LIMIT := 25

  datatype State = Unused | Embryo | Sleeping | Runnable | Running | Zombie

  /** A wait channel: in wait() it is the address of the caller's own slot. */
  datatype Chan = NoChan | SlotChan(slot: nat) | Other(id: nat)

  datatype Proc = Proc(
    state: State,
    pid: nat,
    parent: Option<nat>,
    chan: Chan,
    killed: bool,
    level: nat,        // cur_q
    used: seq<nat>,    // q[5]
    qtime: nat,
    over: bool)        // flg

  /** How far a process is in fork(). */
  datatype Task = Idle | Alloced(child: nat) | Ready(child: nat) | Parented(child: nat)

  datatype Sys = Sys(
    procs: seq<Proc>,
    queues: seq<seq<nat>>,  // qu[l][0..q_index[l]]
    tasks: seq<Task>,
    nextpid: nat,
    ticks: nat,
    init: nat,              // initproc
    reaped: seq<nat>)       // the pids wait() has returned so far

  function Limit(l: nat): nat
    requires l < LEVELS
  {
    [2, 4, 8, 16, 32][l]
  }

  // ------------------------------------------------ the invariant

  predicate Shape(y: Sys) {
    |y.procs| == NPROC && |y.tasks| == NPROC && |y.queues| == LEVELS && y.init < NPROC
  }

  predicate Waiting(procs: seq<Proc>, s: nat, l: nat) {
    s < |procs| && procs[s].state == Runnable && procs[s].level == l
  }

  ghost predicate LineOk(procs: seq<Proc>, line: seq<nat>, l: nat) {
    Distinct(line) && forall j :: 0 <= j < |line| ==> Waiting(procs, line[j], l)
  }

  ghost predicate Placed(procs: seq<Proc>, queues: seq<seq<nat>>, s: nat) {
    s < |procs| && procs[s].level < |queues| && s in queues[procs[s].level]
  }

  /** A process is in a queue exactly if it is runnable, and then once, in the queue of its level. */
  ghost predicate Members(procs: seq<Proc>, queues: seq<seq<nat>>) {
    && (forall l :: 0 <= l < |queues| ==> LineOk(procs, queues[l], l))
    && (forall s :: 0 <= s < |procs| && procs[s].state == Runnable ==> Placed(procs, queues, s))
  }

  /** A process has used up its budget at every level above its own; `over` says the one at its own level too. */
  ghost predicate Budget(p: Proc) {
    && p.level < LEVELS && |p.used| == LEVELS
    && (forall l :: 0 <= l < p.level ==> p.used[l] >= Limit(l))
    && (p.over ==> p.used[p.level] >= Limit(p.level))
  }

  ghost predicate Budgets(procs: seq<Proc>) {
    forall s :: 0 <= s < |procs| ==> Budget(procs[s])
  }

  predicate Live(p: Proc) {
    p.state != Unused
  }

  /** Live pids are positive, distinct, and never those of a process already reaped. */
  ghost predicate Pids(procs: seq<Proc>, nextpid: nat, reaped: seq<nat>) {
    && (forall s :: 0 <= s < |procs| && Live(procs[s]) ==> 0 < procs[s].pid < nextpid && procs[s].pid !in reaped)
    && (forall s, t :: 0 <= s < t < |procs| && Live(procs[s]) && Live(procs[t]) ==> procs[s].pid != procs[t].pid)
    && Distinct(reaped) && forall k :: 0 <= k < |reaped| ==> reaped[k] < nextpid
  }

  predicate Active(p: Proc) {
    p.state == Sleeping || p.state == Runnable || p.state == Running
  }

  /** The family of slot s: its parent is active, and only a slot in use has one. */
  ghost predicate Kin(y: Sys, s: nat)
    requires Shape(y) && s < NPROC
  {
    var p := y.procs[s];
    && (p.parent.Some? ==>
          p.parent.value < NPROC && p.parent.value != s && Active(y.procs[p.parent.value]) && Live(p) && s != y.init)
    && (p.state == Zombie || Active(p) ==> s == y.init || p.parent.Some?)
    && (p.state == Sleeping && p.chan.SlotChan? ==> p.chan.slot == s)
  }

  /** No one sleeps in wait() with a zombie child. */
  ghost predicate NoMissedExit(y: Sys, s: nat)
    requires Shape(y) && s < NPROC
  {
    y.procs[s].state == Zombie && y.procs[s].parent.Some? && y.procs[s].parent.value < NPROC ==>
      !(y.procs[y.procs[s].parent.value].state == Sleeping && y.procs[y.procs[s].parent.value].chan.SlotChan?)
  }

  /** As allocproc() leaves a process: at level 0, with all of its budget. */
  predicate Unspent(p: Proc) {
    p.level == 0 && p.used == [0, 0, 0, 0, 0] && !p.over
  }

  /** The child a fork() in flight is making belongs to it alone, and once set up it stays as it is. */
  ghost predicate TaskOk(y: Sys, f: nat)
    requires Shape(y) && f < NPROC
  {
    var t := y.tasks[f];
    t.Idle? || (
      && Active(y.procs[f]) && t.child < NPROC && y.procs[t.child].state == Embryo
      && y.procs[t.child].parent == (if t.Parented? then Some(f) else None)
      && (!t.Alloced? ==> Unspent(y.procs[t.child]))
      && forall h :: 0 <= h < NPROC && h != f && !y.tasks[h].Idle? ==> y.tasks[h].child != t.child)
  }

  ghost predicate Family(y: Sys)
    requires Shape(y)
  {
    && Active(y.procs[y.init])
    && (forall s :: 0 <= s < NPROC ==> Kin(y, s))
    && (forall s :: 0 <= s < NPROC ==> NoMissedExit(y, s))
    && (forall f :: 0 <= f < NPROC ==> TaskOk(y, f))
  }

  ghost predicate Inv(y: Sys) {
    && Shape(y) && Members(y.procs, y.queues) && Budgets(y.procs) && Pids(y.procs, y.nextpid, y.reaped) && Family(y)
  }

  // ------------------------------------------------ actions

  function With(y: Sys, s: nat, p: Proc): Sys
    requires s < |y.procs|
  {
    y.(procs := y.procs[s := p])
  }

  /** state = RUNNABLE and the append to the queue of its level. */
  function MakeRunnable(y: Sys, s: nat): Sys
    requires s < |y.procs| && y.procs[s].level < |y.queues|
  {
    var p := y.procs[s];
    With(y, s, p.(state := Runnable, qtime := y.ticks)).(queues := y.queues[p.level := y.queues[p.level] + [s]])
  }

  predicate SleepsOn(p: Proc, c: Chan) {
    p.state == Sleeping && p.chan == c
  }

  /** wakeup1(), from slot k on. */
  function WakeFrom(y: Sys, c: Chan, k: nat): (y': Sys)
    requires Shape(y) && k <= NPROC && forall s :: 0 <= s < NPROC ==> y.procs[s].level < LEVELS
    ensures Shape(y') && forall s :: 0 <= s < NPROC ==> y'.procs[s].level < LEVELS
    decreases NPROC - k
  {
    if k == NPROC then y
    else WakeFrom(if SleepsOn(y.procs[k], c) then MakeRunnable(y, k) else y, c, k + 1)
  }

  /** What wakeup1() makes of one process. */
  function Woken(p: Proc, c: Chan, ticks: nat): Proc {
    if SleepsOn(p, c) then p.(state := Runnable, qtime := ticks) else p
  }

  // ------------------------------------------------ membership

  lemma MoveIn(procs: seq<Proc>, queues: seq<seq<nat>>, s: nat, p: Proc)
    requires Members(procs, queues) && s < |procs| && procs[s].state != Runnable && p.state == Runnable &&
             p.level < |queues|
    ensures Members(procs[s := p], queues[p.level := queues[p.level] + [s]])
  {
    var procs', queues' := procs[s := p], queues[p.level := queues[p.level] + [s]];
    forall l | 0 <= l < |queues'| ensures LineOk(procs', queues'[l], l) {
      assert LineOk(procs, queues[l], l);
      forall j | 0 <= j < |queues[l]| ensures queues[l][j] != s {
        assert Waiting(procs, queues[l][j], l);
      }
    }
    forall t | 0 <= t < |procs'| && procs'[t].state == Runnable ensures Placed(procs', queues', t) {
      if t == s {
        assert queues'[p.level][|queues[p.level]|] == s;
      } else {
        assert Placed(procs, queues, t);
        var line := queues[procs[t].level];
        var j :| 0 <= j < |line| && line[j] == t;
        assert queues'[procs[t].level][j] == t;
      }
    }
  }

  /** A change that leaves a process in or out of the queues. */
  lemma MoveWithin(procs: seq<Proc>, queues: seq<seq<nat>>, s: nat, p: Proc)
    requires Members(procs, queues) && s < |procs|
    requires (procs[s].state == Runnable) == (p.state == Runnable) &&
             (p.state == Runnable ==> p.level == procs[s].level)
    ensures Members(procs[s := p], queues)
  {
    var procs' := procs[s := p];
    forall l | 0 <= l < |queues| ensures LineOk(procs', queues[l], l) {
      assert LineOk(procs, queues[l], l);
      forall j | 0 <= j < |queues[l]| ensures Waiting(procs', queues[l][j], l) {
        assert Waiting(procs, queues[l][j], l);
      }
    }
    forall t | 0 <= t < |procs'| && procs'[t].state == Runnable ensures Placed(procs', queues, t) {
      assert Placed(procs, queues, t);
    }
  }

  lemma RemoveDistinct(q: seq<nat>, j: nat)
    requires Distinct(q) && j < |q|
    ensures Distinct(Remove(q, j)) && q[j] !in Remove(q, j)
    ensures forall x :: x in q && x != q[j] ==> x in Remove(q, j)
    ensures forall x :: x in Remove(q, j) ==> x in q
  {
    var r := Remove(q, j);
    forall x | x in q && x != q[j] ensures x in r {
      var k :| 0 <= k < |q| && q[k] == x;
      assert r[if k < j then k else k - 1] == x;
    }
  }

  /** Taking the process at position j of queue l out, to a state other than runnable. */
  lemma MoveOut(procs: seq<Proc>, queues: seq<seq<nat>>, l: nat, j: nat, s: nat, p: Proc)
    requires Members(procs, queues) && l < |queues| && j < |queues[l]| && s == queues[l][j] && p.state != Runnable
    ensures s < |procs| && Members(procs[s := p], queues[l := Remove(queues[l], j)])
  {
    assert LineOk(procs, queues[l], l);
    assert Waiting(procs, queues[l][j], l);
    var procs', queues' := procs[s := p], queues[l := Remove(queues[l], j)];
    RemoveDistinct(queues[l], j);
    forall m | 0 <= m < |queues'| ensures LineOk(procs', queues'[m], m) {
      assert LineOk(procs, queues[m], m);
      forall k | 0 <= k < |queues'[m]| ensures Waiting(procs', queues'[m][k], m) {
        var x := queues'[m][k];
        assert x in queues'[m] && x in queues[m];
        var h :| 0 <= h < |queues[m]| && queues[m][h] == x;
        assert Waiting(procs, queues[m][h], m);
      }
    }
    forall t | 0 <= t < |procs'| && procs'[t].state == Runnable ensures Placed(procs', queues', t) {
      assert Placed(procs, queues, t);
    }
  }

  /** Every queue has a place to spare for a process outside it: no index reaches NPROC. */
  lemma RoomInLine(procs: seq<Proc>, line: seq<nat>, l: nat, s: nat)
    requires LineOk(procs, line, l) && s < |procs| && s !in line
    ensures |line| < |procs|
  {
    var all := seq(|procs|, i requires 0 <= i < |procs| => i);
    var more := line + [s];
    assert Distinct(more);
    forall x | x in more ensures x in all {
      if x in line {
        var j :| 0 <= j < |line| && line[j] == x;
        assert Waiting(procs, line[j], l);
      }
      assert all[x] == x;
    }
    DistinctWithin(more, all);
  }
}

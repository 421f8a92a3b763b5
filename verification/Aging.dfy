/**
 One round of the MLFQ scheduler under ptable.lock: the aging loops, then the choice of the
 front of the first queue that is not empty.

 The inner aging loop advances its index after a removal, so it passes over the process
 behind each promoted one.
 */
module Aging {
  import opened Common
  import opened ProcState

  predicate Aged(y: Sys, s: nat)
    requires s < |y.procs|
  {
    y.ticks - y.procs[s].qtime > AGE_LIMIT
  }

  /** Every queue holds slots. */
  ghost predicate Lines(y: Sys) {
    Shape(y) && forall l, j :: 0 <= l < LEVELS && 0 <= j < |y.queues[l]| ==> y.queues[l][j] < NPROC
  }

  /** The process at position j of queue i moves to the end of queue i - 1. */
  function Promote(y: Sys, i: nat, j: nat): Sys
    requires Shape(y) && 0 < i < LEVELS && j < |y.queues[i]| && y.queues[i][j] < NPROC
  {
    var s := y.queues[i][j];
    With(y, s, y.procs[s].(level := i - 1, qtime := y.ticks))
      .(queues := y.queues[i := Remove(y.queues[i], j)][i - 1 := y.queues[i - 1] + [s]])
  }

  lemma PromoteLines(y: Sys, i: nat, j: nat)
    requires Lines(y) && 0 < i < LEVELS && j < |y.queues[i]|
    ensures Lines(Promote(y, i, j))
  {
  }

  /** The loop over queue i, from position j on. */
  function AgeLevel(y: Sys, i: nat, j: nat): (y': Sys)
    requires Lines(y) && 0 < i < LEVELS
    ensures Shape(y')
    decreases |y.queues[i]| - j
  {
    if j >= |y.queues[i]| then y
    else if Aged(y, y.queues[i][j]) then
      PromoteLines(y, i, j);
      AgeLevel(Promote(y, i, j), i, j + 1)
    else AgeLevel(y, i, j + 1)
  }

  /** The loops over queues i to 4. */
  function AgeFrom(y: Sys, i: nat): Sys
    requires Lines(y) && 0 < i <= LEVELS
    decreases LEVELS - i
  {
    if i == LEVELS then y
    else
      AgeLevelKeeps(y, i, 0);
      AgeFrom(AgeLevel(y, i, 0), i + 1)
  }

  /** Slot s is at position k of queue l. */
  predicate At(y: Sys, l: nat, k: nat, s: nat) {
    l < |y.queues| && k < |y.queues[l]| && y.queues[l][k] == s
  }

  /** A process promoted to level l. */
  predicate PromotedTo(y: Sys, s: nat, l: nat) {
    s < |y.procs| && y.procs[s].state == Runnable && y.procs[s].level == l
  }

  // ------------------------------------------------ what one loop keeps

  /** A change of level and qtime only. */
  predicate Requeued(p: Proc, p': Proc) {
    p' == p.(level := p'.level, qtime := p'.qtime)
  }

  /** Between y and y' processes have only moved between queues. */
  ghost predicate Reordered(y: Sys, y': Sys) {
    && Shape(y) && Shape(y') && y' == y.(procs := y'.procs, queues := y'.queues)
    && forall s :: 0 <= s < NPROC ==> Requeued(y.procs[s], y'.procs[s])
  }

  lemma AgeLevelKeeps(y: Sys, i: nat, j: nat)
    requires Lines(y) && 0 < i < LEVELS
    ensures Lines(AgeLevel(y, i, j)) && Reordered(y, AgeLevel(y, i, j))
    decreases |y.queues[i]| - j
  {
    if j < |y.queues[i]| {
      if Aged(y, y.queues[i][j]) {
        PromoteLines(y, i, j);
        var y1 := Promote(y, i, j);
        AgeLevelKeeps(y1, i, j + 1);
      } else {
        AgeLevelKeeps(y, i, j + 1);
      }
    }
  }

  lemma PromoteMembers(y: Sys, i: nat, j: nat)
    requires Lines(y) && Members(y.procs, y.queues) && 0 < i < LEVELS && j < |y.queues[i]|
    ensures Members(Promote(y, i, j).procs, Promote(y, i, j).queues)
  {
    var s := y.queues[i][j];
    assert LineOk(y.procs, y.queues[i], i);
    assert Waiting(y.procs, y.queues[i][j], i);
    var p := y.procs[s];
    var out := p.(state := Running);
    MoveOut(y.procs, y.queues, i, j, s, out);
    var procs1, queues1 := y.procs[s := out], y.queues[i := Remove(y.queues[i], j)];
    var back := p.(level := i - 1, qtime := y.ticks);
    MoveIn(procs1, queues1, s, back);
    assert procs1[s := back] == y.procs[s := back];
    assert queues1[i - 1] == y.queues[i - 1];
  }

  /** Promotion spends no budget: the levels above are all used up. */
  lemma PromoteBudget(y: Sys, i: nat, j: nat)
    requires Lines(y) && Members(y.procs, y.queues) && Budgets(y.procs) && 0 < i < LEVELS && j < |y.queues[i]|
    ensures Budgets(Promote(y, i, j).procs)
  {
    assert LineOk(y.procs, y.queues[i], i);
    assert Waiting(y.procs, y.queues[i][j], i);
  }

  lemma AgeLevelInv(y: Sys, i: nat, j: nat)
    requires Lines(y) && Members(y.procs, y.queues) && Budgets(y.procs) && 0 < i < LEVELS
    ensures Members(AgeLevel(y, i, j).procs, AgeLevel(y, i, j).queues) && Budgets(AgeLevel(y, i, j).procs)
    decreases |y.queues[i]| - j
  {
    if j < |y.queues[i]| {
      if Aged(y, y.queues[i][j]) {
        PromoteLines(y, i, j);
        PromoteMembers(y, i, j);
        PromoteBudget(y, i, j);
        var y1 := Promote(y, i, j);
        AgeLevelInv(y1, i, j + 1);
      } else {
        AgeLevelInv(y, i, j + 1);
      }
    }
  }

  // ------------------------------------------------ where a process ends up

  /** A process in another queue than i stays where it is. */
  lemma AgeLevelElsewhere(y: Sys, i: nat, j: nat, l: nat, k: nat, s: nat)
    requires Lines(y) && Members(y.procs, y.queues) && 0 < i < LEVELS && At(y, l, k, s) && l != i
    ensures At(AgeLevel(y, i, j), l, k, s) && s < NPROC && AgeLevel(y, i, j).procs[s] == y.procs[s]
    decreases |y.queues[i]| - j
  {
    if j < |y.queues[i]| {
      if Aged(y, y.queues[i][j]) {
        PromoteLines(y, i, j);
        PromoteMembers(y, i, j);
        assert LineOk(y.procs, y.queues[i], i) && LineOk(y.procs, y.queues[l], l);
        assert Waiting(y.procs, y.queues[i][j], i) && Waiting(y.procs, y.queues[l][k], l);
        var y1 := Promote(y, i, j);
        AgeLevelElsewhere(y1, i, j + 1, l, k, s);
      } else {
        AgeLevelElsewhere(y, i, j + 1, l, k, s);
      }
    }
  }

  /** The loop over queue i leaves s at position k or lower; if it had reached an aged s, strictly lower. */
  ghost predicate MovedUp(y: Sys, y': Sys, i: nat, k: nat, s: nat, strictly: bool) {
    && s < |y.procs| && s < |y'.procs| && y'.procs[s] == y.procs[s]
    && exists k' :: 0 <= k' <= k && (strictly ==> k' < k) && At(y', i, k', s)
  }

  /** What the loop over queue i, from position j on, does to the process at position k. */
  ghost predicate LevelOutcome(y: Sys, y': Sys, i: nat, j: nat, k: nat, s: nat) {
    && s < |y.procs| && i > 0
    && (|| MovedUp(y, y', i, k, s, j <= k && Aged(y, s))
        || (j <= k && Aged(y, s) && PromotedTo(y', s, i - 1)))
  }

  /** The process at j itself is promoted. */
  lemma PromotedHere(y: Sys, y1: Sys, i: nat, j: nat, next: nat, s: nat)
    requires Lines(y) && Members(y.procs, y.queues) && 0 < i < LEVELS && At(y, i, j, s) && s < NPROC && Aged(y, s)
    requires y1 == Promote(y, i, j) && Lines(y1) && next == j + 1
    ensures LevelOutcome(y, AgeLevel(y1, i, next), i, j, j, s)
  {
    PromoteMembers(y, i, j);
    assert LineOk(y.procs, y.queues[i], i);
    assert Waiting(y.procs, y.queues[i][j], i);
    var h := |y.queues[i - 1]|;
    assert At(y1, i - 1, h, s) && PromotedTo(y1, s, i - 1);
    AgeLevelElsewhere(y1, i, next, i - 1, h, s);
  }

  /** Another process is promoted: s moves up if it was behind. */
  lemma ShiftedHere(y: Sys, y1: Sys, y': Sys, i: nat, j: nat, next: nat, k: nat, k1: nat, s: nat)
    requires Lines(y) && Members(y.procs, y.queues) && 0 < i < LEVELS && At(y, i, k, s) && j < |y.queues[i]| &&
             k != j && s < NPROC
    requires y1 == Promote(y, i, j) && next == j + 1 && k1 == (if k < j then k else k - 1)
    requires LevelOutcome(y1, y', i, next, k1, s)
    ensures LevelOutcome(y, y', i, j, k, s)
  {
    assert LineOk(y.procs, y.queues[i], i);
    assert y1.procs[s] == y.procs[s];
  }

  lemma {:induction false} AgeLevelHere(y: Sys, i: nat, j: nat, k: nat, s: nat)
    requires Lines(y) && Members(y.procs, y.queues) && 0 < i < LEVELS && At(y, i, k, s)
    ensures s < NPROC && LevelOutcome(y, AgeLevel(y, i, j), i, j, k, s)
    decreases |y.queues[i]| - j
  {
    assert LineOk(y.procs, y.queues[i], i);
    assert Waiting(y.procs, y.queues[i][k], i);
    var next := j + 1;
    if j >= |y.queues[i]| {
      assert At(y, i, k, s);
    } else if Aged(y, y.queues[i][j]) {
      PromoteLines(y, i, j);
      PromoteMembers(y, i, j);
      var y1 := Promote(y, i, j);
      if k == j {
        PromotedHere(y, y1, i, j, next, s);
      } else {
        var k1 := if k < j then k else k - 1;
        assert At(y1, i, k1, s);
        AgeLevelHere(y1, i, next, k1, s);
        ShiftedHere(y, y1, AgeLevel(y1, i, next), i, j, next, k, k1, s);
      }
    } else {
      AgeLevelHere(y, i, next, k, s);
    }
  }

  lemma ReorderedTrans(y: Sys, y1: Sys, y2: Sys)
    requires Reordered(y, y1) && Reordered(y1, y2)
    ensures Reordered(y, y2)
  {
    forall s | 0 <= s < NPROC ensures Requeued(y.procs[s], y2.procs[s]) {
      assert Requeued(y.procs[s], y1.procs[s]) && Requeued(y1.procs[s], y2.procs[s]);
    }
  }

  lemma {:induction false} AgeFromInv(y: Sys, i: nat)
    requires Lines(y) && Members(y.procs, y.queues) && Budgets(y.procs) && 0 < i <= LEVELS
    ensures var y' := AgeFrom(y, i);
      Lines(y') && Reordered(y, y') && Members(y'.procs, y'.queues) && Budgets(y'.procs)
    decreases LEVELS - i
  {
    if i < LEVELS {
      AgeLevelKeeps(y, i, 0);
      AgeLevelInv(y, i, 0);
      var y1 := AgeLevel(y, i, 0);
      AgeFromInv(y1, i + 1);
      ReorderedTrans(y, y1, AgeFrom(y1, i + 1));
    }
  }

  /** A queue whose loop is over is only appended to. */
  lemma {:induction false} AgeFromBelow(y: Sys, i: nat, l: nat, k: nat, s: nat)
    requires Lines(y) && Members(y.procs, y.queues) && Budgets(y.procs) && l < i <= LEVELS && At(y, l, k, s)
    ensures At(AgeFrom(y, i), l, k, s) && s < NPROC && |AgeFrom(y, i).procs| == NPROC &&
            AgeFrom(y, i).procs[s] == y.procs[s]
    decreases LEVELS - i
  {
    if i < LEVELS {
      AgeLevelKeeps(y, i, 0);
      AgeLevelInv(y, i, 0);
      AgeLevelElsewhere(y, i, 0, l, k, s);
      AgeFromBelow(AgeLevel(y, i, 0), i + 1, l, k, s);
    }
  }

  /** What the aging loops do to the process at position k of queue l. */
  ghost predicate Advanced(y: Sys, y': Sys, l: nat, k: nat, s: nat) {
    s < |y.procs| && (
      || MovedUp(y, y', l, k, s, l > 0 && Aged(y, s))
      || (l > 0 && Aged(y, s) && PromotedTo(y', s, l - 1)))
  }

  lemma {:induction false} AgeFromAt(y: Sys, i: nat, l: nat, k: nat, s: nat)
    requires Lines(y) && Members(y.procs, y.queues) && Budgets(y.procs) && 0 < i <= LEVELS && At(y, l, k, s) &&
             (i <= l || l == 0)
    ensures Advanced(y, AgeFrom(y, i), l, k, s)
    decreases LEVELS - i
  {
    if l < i {
      AgeFromBelow(y, i, l, k, s);
    } else {
      AgeLevelKeeps(y, i, 0);
      AgeLevelInv(y, i, 0);
      var y1 := AgeLevel(y, i, 0);
      if l == i {
        AgeLevelHere(y, i, 0, k, s);
        AdvanceStays(y, y1, i, k, s);
      } else {
        AgeLevelElsewhere(y, i, 0, l, k, s);
        AgeFromAt(y1, i + 1, l, k, s);
      }
    }
  }

  /** Once its own loop is over, a process stays where that loop put it. */
  lemma AdvanceStays(y: Sys, y1: Sys, i: nat, k: nat, s: nat)
    requires Lines(y1) && Members(y1.procs, y1.queues) && Budgets(y1.procs) && 0 < i < LEVELS && |y.procs| == NPROC
    requires Advanced(y, y1, i, k, s)
    ensures Advanced(y, AgeFrom(y1, i + 1), i, k, s)
  {
    if MovedUp(y, y1, i, k, s, Aged(y, s)) {
      var k' :| 0 <= k' <= k && (Aged(y, s) ==> k' < k) && At(y1, i, k', s);
      AgeFromBelow(y1, i + 1, i, k', s);
    } else {
      assert Placed(y1.procs, y1.queues, s);
      var h :| 0 <= h < |y1.queues[i - 1]| && y1.queues[i - 1][h] == s;
      assert At(y1, i - 1, h, s);
      AgeFromBelow(y1, i + 1, i - 1, h, s);
    }
  }

  // ------------------------------------------------ the choice

  /** The first queue from l on that is not empty, LEVELS if there is none. */
  function FirstLine(y: Sys, l: nat): (r: nat)
    requires |y.queues| == LEVELS && l <= LEVELS
    ensures l <= r <= LEVELS && (r < LEVELS ==> y.queues[r] != []) && forall m :: l <= m < r ==> y.queues[m] == []
    decreases LEVELS - l
  {
    if l == LEVELS || y.queues[l] != [] then l else FirstLine(y, l + 1)
  }

  /** A process chosen from queue l: a tick of budget, and `over` if that was the last. */
  function Chosen(p: Proc, l: nat): Proc
    requires l < LEVELS && |p.used| == LEVELS
  {
    p.(state := Running, chan := NoChan, used := p.used[l := p.used[l] + 1],
       over := p.over || p.used[l] + 1 >= Limit(l))
  }

  /** The front of the first queue is dispatched, if it is runnable. */
  function Dispatch(y: Sys): Sys
    requires Lines(y) && forall s :: 0 <= s < NPROC ==> |y.procs[s].used| == LEVELS
  {
    var l := FirstLine(y, 0);
    if l == LEVELS || y.procs[y.queues[l][0]].state != Runnable then y
    else
      var s := y.queues[l][0];
      With(y, s, Chosen(y.procs[s], l)).(queues := y.queues[l := Remove(y.queues[l], 0)])
  }

  /** One round of scheduler(), up to swtch(). */
  function Pass(y: Sys): Sys
    requires Lines(y) && Members(y.procs, y.queues) && Budgets(y.procs)
  {
    AgeFromInv(y, 1);
    Dispatch(AgeFrom(y, 1))
  }

  lemma DispatchInv(y: Sys)
    requires Lines(y) && Members(y.procs, y.queues) && Budgets(y.procs)
    ensures var y' := Dispatch(y); Members(y'.procs, y'.queues) && Budgets(y'.procs)
    ensures (exists s :: 0 <= s < NPROC && y.procs[s].state == Runnable) ==> Dispatch(y) != y
  {
    var l := FirstLine(y, 0);
    if l < LEVELS {
      var s := y.queues[l][0];
      assert LineOk(y.procs, y.queues[l], l);
      assert Waiting(y.procs, y.queues[l][0], l);
      var p' := Chosen(y.procs[s], l);
      MoveOut(y.procs, y.queues, l, 0, s, p');
      assert Budget(y.procs[s]);
      assert Dispatch(y).procs[s].state == Running;
    } else {
      forall s | 0 <= s < NPROC ensures y.procs[s].state != Runnable {
        assert y.procs[s].state == Runnable ==> Placed(y.procs, y.queues, s);
      }
    }
  }

  /** A dispatch takes the front of one queue and moves the rest of that queue up. */
  lemma DispatchAt(y: Sys, l: nat, k: nat, s: nat)
    requires Lines(y) && Members(y.procs, y.queues) && Budgets(y.procs) && At(y, l, k, s)
    ensures var y' := Dispatch(y);
      && s < NPROC && |y'.procs| == NPROC
      && if l == FirstLine(y, 0) && k == 0 then y'.procs[s].state == Running
         else y'.procs[s] == y.procs[s] && At(y', l, if l == FirstLine(y, 0) then k - 1 else k, s)
  {
    var f := FirstLine(y, 0);
    assert LineOk(y.procs, y.queues[l], l) && LineOk(y.procs, y.queues[f], f);
    assert Waiting(y.procs, y.queues[l][k], l) && Waiting(y.procs, y.queues[f][0], f);
    var front, line := y.queues[f][0], Remove(y.queues[f], 0);
    assert Dispatch(y).queues == y.queues[f := line];
    if l == f && k > 0 {
      assert line[k - 1] == s && front != s;
    }
  }

  /** Dispatched, promoted by one level, or nearer the front of the same queue. */
  ghost predicate PassMoves(y: Sys, y': Sys, l: nat, k: nat, s: nat) {
    && s < |y.procs| && s < |y'.procs| && (
      || y'.procs[s].state == Running
      || (l > 0 && Aged(y, s) && PromotedTo(y', s, l - 1))
      || MovedUp(y, y', l, k, s, l == 0 || Aged(y, s)))
  }

  lemma MovedThenDispatch(y: Sys, y1: Sys, l: nat, k: nat, s: nat, k': nat)
    requires Lines(y1) && Members(y1.procs, y1.queues) && Budgets(y1.procs) && s < |y.procs| && s < NPROC
    requires k' <= k && (l > 0 && Aged(y, s) ==> k' < k) && At(y1, l, k', s) && y1.procs[s] == y.procs[s]
    ensures PassMoves(y, Dispatch(y1), l, k, s)
  {
    DispatchAt(y1, l, k', s);
    var y2, f := Dispatch(y1), FirstLine(y1, 0);
    if l == f && k' > 0 {
      assert At(y2, l, k' - 1, s);
    } else if l != f {
      assert At(y2, l, k', s);
    }
  }

  lemma PromotedThenDispatch(y: Sys, y1: Sys, l: nat, k: nat, s: nat)
    requires Lines(y1) && Members(y1.procs, y1.queues) && Budgets(y1.procs) && s < |y.procs|
    requires l > 0 && Aged(y, s) && PromotedTo(y1, s, l - 1)
    ensures PassMoves(y, Dispatch(y1), l, k, s)
  {
    assert Placed(y1.procs, y1.queues, s);
    var h :| 0 <= h < |y1.queues[l - 1]| && y1.queues[l - 1][h] == s;
    DispatchAt(y1, l - 1, h, s);
  }

  /** One pass: an aged process is promoted by exactly one level or moves up; queue 0 always moves up. */
  lemma PassAt(y: Sys, l: nat, k: nat, s: nat)
    requires Lines(y) && Members(y.procs, y.queues) && Budgets(y.procs) && At(y, l, k, s)
    ensures PassMoves(y, Pass(y), l, k, s)
  {
    AgeFromInv(y, 1);
    AgeFromAt(y, 1, l, k, s);
    var y1 := AgeFrom(y, 1);
    if MovedUp(y, y1, l, k, s, l > 0 && Aged(y, s)) {
      var k' :| 0 <= k' <= k && (l > 0 && Aged(y, s) ==> k' < k) && At(y1, l, k', s);
      MovedThenDispatch(y, y1, l, k, s, k');
    } else {
      PromotedThenDispatch(y, y1, l, k, s);
    }
  }
}

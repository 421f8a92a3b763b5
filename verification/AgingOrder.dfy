/** The aging loops as a whole: which processes they promote, and the order in which they leave the queues. */
module AgingOrder {
  import opened Common
  import opened Counting
  import opened ProcState
  import opened Aging

  /** What the loop leaves of queue q; it passes over the process behind each one that it promotes. */
  function Stay(q: seq<nat>, aged: set<nat>, skip: bool): seq<nat> {
    if q == [] then []
    else if q[0] in aged && !skip then Stay(q[1..], aged, true)
    else [q[0]] + Stay(q[1..], aged, false)
  }

  /** What it promotes, in this order. */
  function Move(q: seq<nat>, aged: set<nat>, skip: bool): (r: seq<nat>)
    ensures forall x :: x in r ==> x in q
  {
    if q == [] then []
    else if q[0] in aged && !skip then [q[0]] + Move(q[1..], aged, true)
    else Move(q[1..], aged, false)
  }

  /** Whether the loop promotes the process at position k: it is aged, and the one before it is not promoted. */
  predicate Goes(q: seq<nat>, aged: set<nat>, skip: bool, k: nat)
    requires k < |q|
  {
    q[k] in aged && if k == 0 then !skip else !Goes(q, aged, skip, k - 1)
  }

  lemma {:induction false} GoesBehind(q: seq<nat>, aged: set<nat>, skip: bool, k: nat, next: bool)
    requires 0 < k < |q| && next == (q[0] in aged && !skip)
    ensures Goes(q, aged, skip, k) == Goes(q[1..], aged, next, k - 1)
  {
    if k > 1 {
      GoesBehind(q, aged, skip, k - 1, next);
    }
  }

  /** An aged process is promoted exactly if the one just before it in its queue is not. */
  lemma {:induction false} MoveIff(q: seq<nat>, aged: set<nat>, skip: bool, k: nat)
    requires Distinct(q) && k < |q|
    ensures q[k] in Move(q, aged, skip) <==> Goes(q, aged, skip, k)
    decreases |q|
  {
    if k > 0 {
      var next := q[0] in aged && !skip;
      GoesBehind(q, aged, skip, k, next);
      MoveIff(q[1..], aged, next, k - 1);
    }
  }

  function AgedSlots(y: Sys): set<nat> {
    set s: nat | s < |y.procs| && Aged(y, s)
  }

  /** A promoted process: one level up, from now on. */
  function Risen(p: Proc, l: nat, ticks: nat): Proc {
    p.(level := l, qtime := ticks)
  }

  // ------------------------------------------------ one loop

  function Head(q: seq<nat>, j: nat): seq<nat> {
    if j <= |q| then q[..j] else q
  }

  function Rest(q: seq<nat>, j: nat): seq<nat> {
    if j <= |q| then q[j..] else []
  }

  /** Of queue i the processes in `stay` are left, and those in `move` have gone to the end of the queue above. */
  ghost predicate LevelMoved(y: Sys, y': Sys, i: nat, stay: seq<nat>, move: seq<nat>) {
    && Shape(y) && Shape(y') && 0 < i < LEVELS && y' == y.(procs := y'.procs, queues := y'.queues)
    && y'.queues == y.queues[i := stay][i - 1 := y.queues[i - 1] + move]
    && forall s :: 0 <= s < NPROC ==>
      y'.procs[s] == if s in move then Risen(y.procs[s], i - 1, y.ticks) else y.procs[s]
  }

  ghost predicate Tells(y: Sys, q: seq<nat>, aged: set<nat>) {
    forall x :: x in q ==> x < |y.procs| && (x in aged <==> Aged(y, x))
  }

  lemma StayMoveNext(q: seq<nat>, aged: set<nat>, j: nat)
    requires j < |q| && q[j] in aged
    ensures var q1 := Remove(q, j);
      && Head(q, j) + Stay(Rest(q, j), aged, false) == Head(q1, j + 1) + Stay(Rest(q1, j + 1), aged, false)
      && Move(Rest(q, j), aged, false) == [q[j]] + Move(Rest(q1, j + 1), aged, false)
  {
    var q1 := Remove(q, j);
    assert q[j..][1..] == q[j + 1..];
    if j + 1 < |q| {
      assert q1[..j + 1] == q[..j] + [q[j + 1]] && q1[j + 1..] == q[j + 2..] == q[j + 1..][1..];
    } else {
      assert q1 == q[..j];
    }
  }

  lemma StayNext(q: seq<nat>, aged: set<nat>, j: nat)
    requires j < |q| && q[j] !in aged
    ensures Head(q, j) + Stay(Rest(q, j), aged, false) == Head(q, j + 1) + Stay(Rest(q, j + 1), aged, false)
    ensures Move(Rest(q, j), aged, false) == Move(Rest(q, j + 1), aged, false)
  {
    assert q[j..][1..] == q[j + 1..];
    assert q[..j + 1] == q[..j] + [q[j]];
  }

  /** A promotion, then the rest of the loop. */
  lemma MovedOn(y: Sys, y1: Sys, y': Sys, i: nat, j: nat, stay: seq<nat>, more: seq<nat>)
    requires Lines(y) && Members(y.procs, y.queues) && 0 < i < LEVELS && j < |y.queues[i]| && y1 == Promote(y, i, j)
    requires LevelMoved(y1, y', i, stay, more) && y.queues[i][j] !in more
    ensures LevelMoved(y, y', i, stay, [y.queues[i][j]] + more)
  {
    var s := y.queues[i][j];
    assert y.queues[i - 1] + [s] + more == y.queues[i - 1] + ([s] + more);
  }

  lemma RestApart(q: seq<nat>, j: nat, aged: set<nat>)
    requires Distinct(q) && j < |q|
    ensures q[j] !in Move(Rest(Remove(q, j), j + 1), aged, false)
    ensures forall x :: x in Rest(Remove(q, j), j + 1) ==> x in Rest(q, j) && x != q[j]
  {
  }

  lemma NothingMoved(y: Sys, i: nat)
    requires Shape(y) && 0 < i < LEVELS
    ensures LevelMoved(y, y, i, y.queues[i], [])
  {
    assert y.queues[i - 1] + [] == y.queues[i - 1];
  }

  /** The loop has promoted the process at j: what that leaves to do, and what it comes to. */
  lemma PromotedMoves(y: Sys, y1: Sys, y': Sys, i: nat, j: nat, next: nat, aged: set<nat>, q: seq<nat>, q1: seq<nat>)
    requires Lines(y) && Members(y.procs, y.queues) && 0 < i < LEVELS && q == y.queues[i] && j < |q| && q[j] in aged
    requires y1 == Promote(y, i, j) && q1 == Remove(q, j) && next == j + 1
    requires LevelMoved(y1, y', i, Head(q1, next) + Stay(Rest(q1, next), aged, false),
                        Move(Rest(q1, next), aged, false))
    ensures LevelMoved(y, y', i, Head(q, j) + Stay(Rest(q, j), aged, false), Move(Rest(q, j), aged, false))
  {
    assert LineOk(y.procs, q, i);
    RestApart(q, j, aged);
    StayMoveNext(q, aged, j);
    MovedOn(y, y1, y', i, j, Head(q1, next) + Stay(Rest(q1, next), aged, false), Move(Rest(q1, next), aged, false));
  }

  lemma PromotedTells(y: Sys, y1: Sys, i: nat, j: nat, next: nat, aged: set<nat>)
    requires Lines(y) && Members(y.procs, y.queues) && 0 < i < LEVELS && j < |y.queues[i]| && y1 == Promote(y, i, j)
    requires next == j + 1 && Tells(y, Rest(y.queues[i], j), aged)
    ensures y1.queues[i] == Remove(y.queues[i], j) && Tells(y1, Rest(y1.queues[i], next), aged)
  {
    assert LineOk(y.procs, y.queues[i], i);
    RestApart(y.queues[i], j, aged);
  }

  lemma {:induction false} AgeLevelMoves(y: Sys, i: nat, j: nat, aged: set<nat>, q: seq<nat>)
    requires Lines(y) && Members(y.procs, y.queues) && 0 < i < LEVELS && q == y.queues[i] && Tells(y, Rest(q, j), aged)
    ensures LevelMoved(y, AgeLevel(y, i, j), i, Head(q, j) + Stay(Rest(q, j), aged, false),
                       Move(Rest(q, j), aged, false))
    decreases |y.queues[i]| - j
  {
    var next := j + 1;
    if j >= |q| {
      assert Head(q, j) + Stay(Rest(q, j), aged, false) == q;
      NothingMoved(y, i);
    } else {
      assert q[j] in Rest(q, j);
      if Aged(y, q[j]) {
        PromoteLines(y, i, j);
        PromoteMembers(y, i, j);
        var y1, q1 := Promote(y, i, j), Remove(q, j);
        PromotedTells(y, y1, i, j, next, aged);
        AgeLevelMoves(y1, i, next, aged, q1);
        PromotedMoves(y, y1, AgeLevel(y1, i, next), i, j, next, aged, q, q1);
      } else {
        StayNext(q, aged, j);
        AgeLevelMoves(y, i, next, aged, q);
      }
    }
  }

  // ------------------------------------------------ all loops

  /** Queue l once the loops over queues i to 4 are done: what stays of it, then what comes up from the one below. */
  function Line(queues: seq<seq<nat>>, aged: set<nat>, i: nat, l: nat): seq<nat>
    requires |queues| == LEVELS && l < LEVELS
  {
    (if i <= l then Stay(queues[l], aged, false) else queues[l]) +
    if i <= l + 1 < LEVELS then Move(queues[l + 1], aged, false) else []
  }

  /** Slot s is promoted by one of these loops. */
  predicate Rises(y: Sys, aged: set<nat>, i: nat, s: nat)
    requires Shape(y) && s < NPROC
  {
    var p := y.procs[s];
    p.state == Runnable && 0 < p.level && i <= p.level < LEVELS && s in Move(y.queues[p.level], aged, false)
  }

  ghost predicate AllMoved(y: Sys, y': Sys, aged: set<nat>, i: nat) {
    && Shape(y) && Shape(y') && y' == y.(procs := y'.procs, queues := y'.queues)
    && (forall l :: 0 <= l < LEVELS ==> y'.queues[l] == Line(y.queues, aged, i, l))
    && forall s :: 0 <= s < NPROC ==>
      y'.procs[s] == if Rises(y, aged, i, s) then Risen(y.procs[s], y.procs[s].level - 1, y.ticks) else y.procs[s]
  }

  lemma LevelRises(y: Sys, y1: Sys, i: nat, aged: set<nat>, stay: seq<nat>, s: nat)
    requires Shape(y) && 0 < i < LEVELS && Members(y.procs, y.queues) && s < NPROC
    requires LevelMoved(y, y1, i, stay, Move(y.queues[i], aged, false))
    ensures s in Move(y.queues[i], aged, false) <==> y.procs[s].level == i && Rises(y, aged, i, s)
    ensures Rises(y1, aged, i + 1, s) <==> y.procs[s].level != i && Rises(y, aged, i, s)
    ensures y.procs[s].level != i ==> y1.procs[s] == y.procs[s]
  {
    if s in Move(y.queues[i], aged, false) {
      var k :| 0 <= k < |y.queues[i]| && y.queues[i][k] == s;
      assert LineOk(y.procs, y.queues[i], i) && Waiting(y.procs, y.queues[i][k], i);
    }
  }

  lemma LinesMoved(y: Sys, y1: Sys, y': Sys, aged: set<nat>, i: nat, l: nat)
    requires Shape(y) && 0 < i < LEVELS && l < LEVELS
    requires LevelMoved(y, y1, i, Stay(y.queues[i], aged, false), Move(y.queues[i], aged, false))
    requires AllMoved(y1, y', aged, i + 1)
    ensures y'.queues[l] == Line(y.queues, aged, i, l)
  {
    assert y'.queues[l] == Line(y1.queues, aged, i + 1, l);
  }

  lemma {:induction false} AgeFromMoves(y: Sys, i: nat, aged: set<nat>)
    requires Lines(y) && Members(y.procs, y.queues) && Budgets(y.procs) && 0 < i <= LEVELS
    requires forall l :: i <= l < LEVELS ==> Tells(y, y.queues[l], aged)
    ensures AllMoved(y, AgeFrom(y, i), aged, i)
    decreases LEVELS - i
  {
    if i < LEVELS {
      AgeLevelKeeps(y, i, 0);
      AgeLevelInv(y, i, 0);
      var y1, stay := AgeLevel(y, i, 0), Stay(y.queues[i], aged, false);
      assert Rest(y.queues[i], 0) == y.queues[i] && Head(y.queues[i], 0) + stay == stay;
      AgeLevelMoves(y, i, 0, aged, y.queues[i]);
      LaterTells(y, y1, i, aged, stay);
      AgeFromMoves(y1, i + 1, aged);
      AllMovedFrom(y, y1, AgeFrom(y1, i + 1), i, aged);
    }
  }

  lemma LaterTells(y: Sys, y1: Sys, i: nat, aged: set<nat>, stay: seq<nat>)
    requires Shape(y) && 0 < i < LEVELS && Members(y.procs, y.queues)
    requires LevelMoved(y, y1, i, stay, Move(y.queues[i], aged, false))
    requires forall l :: i <= l < LEVELS ==> Tells(y, y.queues[l], aged)
    ensures forall l :: i + 1 <= l < LEVELS ==> Tells(y1, y1.queues[l], aged)
  {
    forall l, x | i + 1 <= l < LEVELS && x in y1.queues[l] ensures x < NPROC && (x in aged <==> Aged(y1, x)) {
      var k :| 0 <= k < |y.queues[l]| && y.queues[l][k] == x;
      assert LineOk(y.procs, y.queues[l], l) && Waiting(y.procs, y.queues[l][k], l);
      assert Tells(y, y.queues[l], aged);
      LevelRises(y, y1, i, aged, stay, x);
    }
  }

  lemma AllMovedFrom(y: Sys, y1: Sys, y': Sys, i: nat, aged: set<nat>)
    requires Shape(y) && 0 < i < LEVELS && Members(y.procs, y.queues)
    requires LevelMoved(y, y1, i, Stay(y.queues[i], aged, false), Move(y.queues[i], aged, false))
    requires AllMoved(y1, y', aged, i + 1)
    ensures AllMoved(y, y', aged, i)
  {
    forall l | 0 <= l < LEVELS ensures y'.queues[l] == Line(y.queues, aged, i, l) {
      LinesMoved(y, y1, y', aged, i, l);
    }
    forall s | 0 <= s < NPROC
      ensures y'.procs[s] ==
              if Rises(y, aged, i, s) then Risen(y.procs[s], y.procs[s].level - 1, y.ticks) else y.procs[s]
    {
      LevelRises(y, y1, i, aged, Stay(y.queues[i], aged, false), s);
    }
  }

  /**
   All aging loops together: in each queue the aged processes that are not just behind a promoted one move, in their
   order, to the end of the queue above; the others stay, in their order; nothing else changes.
   */
  lemma AgingMoves(y: Sys)
    requires Lines(y) && Members(y.procs, y.queues) && Budgets(y.procs)
    ensures AllMoved(y, AgeFrom(y, 1), AgedSlots(y), 1)
  {
    forall l, x | 0 <= l < LEVELS && x in y.queues[l] ensures x < NPROC {
      var k :| 0 <= k < |y.queues[l]| && y.queues[l][k] == x;
    }
    AgeFromMoves(y, 1, AgedSlots(y));
  }
}

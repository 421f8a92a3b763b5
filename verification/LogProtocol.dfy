/**
 The group-commit protocol of log.c for any number of concurrent system calls: begin_op, the two
 halves of log_write, end_op and the end of commit as steps.

 log_write() looks at log.lh.n before it takes log.lock, so its test and its append are two steps,
 and other calls can append in between. (The test reads log.lh.n twice. While a call is open
 log.lh.n only grows, so the outcome is that of a single test at one of the two reads.)
 */
module LogProtocol {
  import opened Common
  import opened Counting
  import opened LogDisk

  /** Where an open call is: anywhere else, or in log_write() between its tests and acquire(). */
  datatype Point = Elsewhere | Passed(block: nat)

  /** An open system call: how many entries it has added to log.lh, and how often log_write returned to it. */
  datatype Call = Call(pid: nat, added: nat, calls: nat, at: Point)

  datatype State = State(
    size: nat,            // log.size
    lh: seq<nat>,         // log.lh.block[0..n]
    outstanding: int,     // log.outstanding
    committing: bool,     // log.committing
    open: seq<Call>,      // the calls between begin_op and end_op
    sleepers: set<nat>)   // processes asleep on &log

  function Initial(size: nat): State {
    State(size, [], 0, false, [], {})
  }

  /** The condition on which begin_op() sleeps. */
  predicate Blocked(s: State) {
    s.committing || |s.lh| + (s.outstanding + 1) * MAXOPBLOCKS > LOGSIZE
  }

  /** The first test of log_write(). */
  predicate TooBig(s: State) {
    |s.lh| >= LOGSIZE || |s.lh| + 1 >= s.size
  }

  datatype Step =
    | Begin(pid: nat)             // begin_op(), once through its loop
    | Test(i: nat, block: nat)    // the tests of log_write() by open call i, without log.lock
    | Append(i: nat)              // the locked part of log_write() by open call i
    | End(i: nat)                 // the locked part of end_op() by open call i
    | Committed                   // commit() has returned: clear committing, wake the sleepers

  datatype Outcome = Next(state: State) | Panic

  /** Which steps the code can take; a call that would add an entry beyond MAXOPBLOCKS breaks the rule of param.h. */
  predicate Enabled(s: State, step: Step) {
    match step
    case Begin(pid) => true
    case Test(i, b) => i < |s.open| && s.open[i].at.Elsewhere? && (b in s.lh || s.open[i].added < MAXOPBLOCKS)
    case Append(i) => i < |s.open| && s.open[i].at.Passed?
    case End(i) => i < |s.open| && s.open[i].at.Elsewhere?
    case Committed => s.committing
  }

  function Apply(s: State, step: Step): Outcome
    requires Enabled(s, step)
  {
    match step
    case Begin(pid) =>
      if Blocked(s) then Next(s.(sleepers := s.sleepers + {pid}))
      else Next(s.(outstanding := s.outstanding + 1, open := s.open + [Call(pid, 0, 0, Elsewhere)],
                   sleepers := s.sleepers - {pid}))
    case Test(i, b) =>
      if TooBig(s) || s.outstanding < 1 then Panic
      else Next(s.(open := s.open[i := s.open[i].(at := Passed(b))]))
    case Append(i) =>
      var c := s.open[i];
      var b := c.at.block;
      if b in s.lh then
        Next(s.(open := s.open[i := c.(calls := c.calls + 1, at := Elsewhere)]))
      else
        Next(s.(lh := s.lh + [b], open := s.open[i := Call(c.pid, c.added + 1, c.calls + 1, Elsewhere)]))
    case End(i) =>
      var t := s.(outstanding := s.outstanding - 1, open := Remove(s.open, i));
      if s.committing || s.outstanding < 1 then Panic
      else if t.outstanding == 0 then Next(t.(committing := true))
      else Next(t.(sleepers := {}))
    case Committed =>
      Next(s.(lh := [], committing := false, sleepers := {}))
  }

  /** The part of its reservation that each open call has not used yet. */
  function Unused(open: seq<Call>): int {
    if open == [] then 0
    else Unused(open[..|open| - 1]) + MAXOPBLOCKS - open[|open| - 1].added
  }

  /** The blocks that calls past the test of log_write() are about to list. */
  function Fresh(open: seq<Call>, lh: seq<nat>): set<nat> {
    set c | c in open && c.at.Passed? && c.at.block !in lh :: c.at.block
  }

  /** A call has listed no more than it may, and will not when it appends what it has in hand. */
  predicate Within(c: Call, lh: seq<nat>) {
    c.added <= MAXOPBLOCKS && c.added <= c.calls && (c.at.Passed? ==> c.at.block in lh || c.added < MAXOPBLOCKS)
  }

  ghost predicate Invariant(s: State) {
    && s.outstanding == |s.open|
    && (forall i :: 0 <= i < |s.open| ==> Within(s.open[i], s.lh))
    && (forall i, j :: 0 <= i < j < |s.lh| ==> s.lh[i] != s.lh[j])
    && |s.lh| + Unused(s.open) <= LOGSIZE
    && (s.committing ==> s.open == [])
    && (s.lh != [] ==> s.committing || s.open != [])
    && (s.sleepers != {} ==> Blocked(s))
  }

  lemma {:induction false} UnusedRange(open: seq<Call>)
    requires forall i :: 0 <= i < |open| ==> open[i].added <= MAXOPBLOCKS
    ensures 0 <= Unused(open) <= |open| * MAXOPBLOCKS
  {
    if open != [] {
      UnusedRange(open[..|open| - 1]);
    }
  }

  lemma {:induction false} UnusedUpdate(open: seq<Call>, i: nat, c: Call)
    requires i < |open|
    ensures Unused(open[i := c]) == Unused(open) - c.added + open[i].added
  {
    var last := |open| - 1;
    if i < last {
      UnusedUpdate(open[..last], i, c);
      assert open[i := c][..last] == open[..last][i := c];
    } else {
      assert open[i := c][..last] == open[..last];
    }
  }

  lemma {:induction false} UnusedRemove(open: seq<Call>, i: nat)
    requires i < |open|
    ensures Unused(Remove(open, i)) == Unused(open) - MAXOPBLOCKS + open[i].added
  {
    var last := |open| - 1;
    if i < last {
      UnusedRemove(open[..last], i);
      assert Remove(open, i)[..last - 1] == Remove(open[..last], i);
    } else {
      assert Remove(open, i) == open[..last];
    }
  }

  /** One open call's unused share is part of the whole. */
  lemma {:induction false} UnusedShare(open: seq<Call>, i: nat)
    requires i < |open| && forall j :: 0 <= j < |open| ==> open[j].added <= MAXOPBLOCKS
    ensures MAXOPBLOCKS - open[i].added <= Unused(open)
  {
    var last := |open| - 1;
    if i < last {
      UnusedShare(open[..last], i);
    } else {
      UnusedRange(open[..last]);
    }
  }

  lemma BeginKeeps(s: State, pid: nat)
    requires Invariant(s)
    ensures Apply(s, Begin(pid)).Next? && Invariant(Apply(s, Begin(pid)).state)
  {
    if !Blocked(s) {
      var open := s.open + [Call(pid, 0, 0, Elsewhere)];
      UnusedRange(s.open);
      assert open[..|open| - 1] == s.open;
    }
  }

  lemma TestKeeps(s: State, i: nat, b: nat)
    requires Invariant(s) && Enabled(s, Test(i, b))
    ensures Apply(s, Test(i, b)).Panic? <==> TooBig(s)
    ensures Apply(s, Test(i, b)).Next? ==> Invariant(Apply(s, Test(i, b)).state)
  {
    UnusedUpdate(s.open, i, s.open[i].(at := Passed(b)));
  }

  lemma AppendKeeps(s: State, i: nat)
    requires Invariant(s) && Enabled(s, Append(i))
    ensures Apply(s, Append(i)).Next? && Invariant(Apply(s, Append(i)).state)
  {
    var c := s.open[i];
    UnusedUpdate(s.open, i, Call(c.pid, if c.at.block in s.lh then c.added else c.added + 1, c.calls + 1, Elsewhere));
  }

  lemma EndKeeps(s: State, i: nat)
    requires Invariant(s) && Enabled(s, End(i))
    ensures Apply(s, End(i)).Next? && Invariant(Apply(s, End(i)).state)
  {
    UnusedRemove(s.open, i);
    UnusedRange(Remove(s.open, i));
  }

  /** Every step keeps the invariant, and only the test of log_write() can panic, exactly on a full log. */
  lemma StepKeeps(s: State, step: Step)
    requires Invariant(s) && Enabled(s, step)
    ensures Apply(s, step).Panic? <==> step.Test? && TooBig(s)
    ensures Apply(s, step).Next? ==> Invariant(Apply(s, step).state)
  {
    match step
    case Begin(pid) => BeginKeeps(s, pid);
    case Test(i, b) => TestKeeps(s, i, b);
    case Append(i) => AppendKeeps(s, i);
    case End(i) => EndKeeps(s, i);
    case Committed =>
  }

  /** A run: each step is one the code can take, and none panics. */
  ghost predicate RunsTo(s: State, steps: seq<Step>, t: State)
    decreases |steps|
  {
    if steps == [] then s == t
    else
      && Enabled(s, steps[0]) && Apply(s, steps[0]).Next?
      && RunsTo(Apply(s, steps[0]).state, steps[1..], t)
  }

  ghost predicate Reachable(size: nat, s: State) {
    exists steps :: RunsTo(Initial(size), steps, s)
  }

  lemma {:induction false} RunKeeps(s: State, steps: seq<Step>, t: State)
    requires Invariant(s) && RunsTo(s, steps, t)
    ensures Invariant(t) && t.size == s.size
    decreases |steps|
  {
    if steps != [] {
      StepKeeps(s, steps[0]);
      RunKeeps(Apply(s, steps[0]).state, steps[1..], t);
    }
  }

  /** The reservation, commit exclusion and no-lost-wakeup invariant holds in every reachable state. */
  lemma ReachableInvariant(size: nat, s: State)
    requires Reachable(size, s)
    ensures Invariant(s) && s.size == size
  {
    var steps :| RunsTo(Initial(size), steps, s);
    RunKeeps(Initial(size), steps, s);
  }

  /** While commit() runs no call is open, so nothing but its own end can change log.lh, and nothing panics. */
  lemma CommitExclusion(size: nat, s: State, step: Step)
    requires Reachable(size, s) && s.committing && Enabled(s, step) && !step.Committed?
    ensures s.outstanding == 0 && Apply(s, step).Next? && Apply(s, step).state.lh == s.lh
  {
    ReachableInvariant(size, s);
  }

  /** Someone asleep in begin_op() has a call or a commit to wait for, which will wake everybody. */
  lemma SleepersHaveAWaker(size: nat, s: State)
    requires Reachable(size, s) && s.sleepers != {}
    ensures Blocked(s) && (s.committing || s.outstanding > 0)
  {
    ReachableInvariant(size, s);
  }

  /** The panic of end_op() cannot be reached. */
  lemma EndOpNeverPanics(size: nat, s: State, i: nat)
    requires Reachable(size, s) && Enabled(s, End(i))
    ensures Apply(s, End(i)).Next?
  {
    ReachableInvariant(size, s);
    EndKeeps(s, i);
  }

  /**
   When a log_write() panics in a reachable state, for a log larger than LOGSIZE: exactly when
   the log holds LOGSIZE entries, and then the write was one that absorption would have served.
   */
  lemma LogWritePanicsIff(size: nat, s: State, i: nat, b: nat)
    requires size > LOGSIZE && Reachable(size, s) && Enabled(s, Test(i, b))
    ensures Apply(s, Test(i, b)).Panic? <==> |s.lh| == LOGSIZE
    ensures |s.lh| == LOGSIZE ==> b in s.lh && s.open[i].added == MAXOPBLOCKS
  {
    ReachableInvariant(size, s);
    UnusedShare(s.open, i);
    UnusedRange(s.open);
  }

  /** A call that has made fewer than MAXOPBLOCKS log_write() calls never panics in the next one. */
  lemma FewCallsNeverPanic(size: nat, s: State, i: nat, b: nat)
    requires size > LOGSIZE && Reachable(size, s) && Enabled(s, Test(i, b))
    requires s.open[i].calls < MAXOPBLOCKS
    ensures Apply(s, Test(i, b)).Next?
  {
    ReachableInvariant(size, s);
    LogWritePanicsIff(size, s, i, b);
  }

  /**
   begin_op() lets a call in exactly if no commit is running and the log has room for what is listed and for the whole
   reservations of all open calls and of this one; otherwise the caller sleeps, and nothing else changes.
   */
  lemma AdmittedIff(size: nat, s: State, pid: nat)
    requires Reachable(size, s)
    ensures Apply(s, Begin(pid)).Next?
    ensures var t, c := Apply(s, Begin(pid)).state, Call(pid, 0, 0, Elsewhere);
      if !s.committing && |s.lh| + MAXOPBLOCKS * |s.open + [c]| <= LOGSIZE
      then t == s.(outstanding := |s.open + [c]|, open := s.open + [c], sleepers := s.sleepers - {pid})
      else t == s.(sleepers := s.sleepers + {pid})
  {
    ReachableInvariant(size, s);
  }

  /** The end of a call wakes everybody who waits for room, or it starts a commit whose end does. */
  lemma EndWakes(size: nat, s: State, i: nat)
    requires Reachable(size, s) && Enabled(s, End(i))
    ensures Apply(s, End(i)).Next?
    ensures var t := Apply(s, End(i)).state;
      && t.open == Remove(s.open, i) && t.lh == s.lh
      && if |s.open| > 1 then !t.committing && t.sleepers == {} else t.committing && t.sleepers == s.sleepers
  {
    ReachableInvariant(size, s);
  }

  function Listed(lh: seq<nat>): set<nat> {
    set b | b in lh
  }

  /** The blocks of all log_write() calls that have returned since the last commit; `acc` before this run. */
  ghost function Logged(s: State, steps: seq<Step>, acc: set<nat>): set<nat>
    decreases |steps|
  {
    if steps == [] || !Enabled(s, steps[0]) || Apply(s, steps[0]).Panic? then acc
    else
      Logged(Apply(s, steps[0]).state, steps[1..],
             match steps[0]
             case Append(i) => acc + {s.open[i].at.block}
             case Committed => {}
             case _ => acc)
  }

  /** log.lh lists exactly these: none is lost before the commit, and none is left after it. */
  lemma {:induction false} ListedExactly(s: State, steps: seq<Step>, t: State)
    requires RunsTo(s, steps, t)
    ensures Listed(t.lh) == Logged(s, steps, Listed(s.lh))
    decreases |steps|
  {
    if steps != [] {
      var s1 := Apply(s, steps[0]).state;
      if steps[0].Append? {
        AppendListed(s, steps[0].i, s1);
      }
      assert steps[0].Committed? ==> Listed(s1.lh) == {};
      ListedExactly(s1, steps[1..], t);
    }
  }

  lemma AppendListed(s: State, i: nat, t: State)
    requires Enabled(s, Append(i)) && Apply(s, Append(i)) == Next(t)
    ensures Listed(t.lh) == Listed(s.lh) + {s.open[i].at.block}
  {
    var b := s.open[i].at.block;
    if b !in s.lh {
      assert t.lh[|s.lh|] == b;
    }
  }

  // ------------------------------------------------ the slots that commit() will write

  /** The entries that log.lh will have when every call past the test has appended. */
  function Slots(s: State): nat {
    |s.lh| + |Fresh(s.open, s.lh)|
  }

  /** Each block about to be listed is part of somebody's unused reservation. */
  lemma {:induction false} FreshWithinUnused(open: seq<Call>, lh: seq<nat>)
    requires forall i :: 0 <= i < |open| ==> Within(open[i], lh)
    ensures |Fresh(open, lh)| <= Unused(open)
  {
    if open != [] {
      var rest, c := open[..|open| - 1], open[|open| - 1];
      FreshWithinUnused(rest, lh);
      FreshMore(rest, lh, c);
      assert rest + [c] == open;
    }
  }

  lemma FreshMore(open: seq<Call>, lh: seq<nat>, c: Call)
    ensures Fresh(open + [c], lh) == Fresh(open, lh) + Fresh([c], lh)
    ensures |Fresh([c], lh)| <= if c.at.Passed? && c.at.block !in lh then 1 else 0
    ensures |Fresh(open + [c], lh)| <= |Fresh(open, lh)| + |Fresh([c], lh)|
  {
    assert forall d :: d in open + [c] <==> d in open || d == c;
    assert c in [c] && c in open + [c];
    if c.at.Passed? && c.at.block !in lh {
      assert Fresh([c], lh) == {c.at.block};
    } else {
      assert Fresh([c], lh) == {};
    }
  }

  /** With a log larger than LOGSIZE every slot that a commit will write lies inside the log. */
  lemma SlotsInside(size: nat, s: State, l: Layout, tail: nat)
    requires size > LOGSIZE && Reachable(size, s) && l.size == size && tail < Slots(s)
    ensures Slots(s) <= LOGSIZE && InLog(l, l.start + tail + 1)
  {
    ReachableInvariant(size, s);
    FreshWithinUnused(s.open, s.lh);
  }

  /** A step other than Append leaves alone what is about to be listed, but for a test that passes. */
  lemma FreshUpdate(open: seq<Call>, lh: seq<nat>, i: nat, c: Call)
    requires i < |open| && open[i].at.Elsewhere?
    ensures Fresh(open[i := c], lh) == Fresh(open, lh) + Fresh([c], lh)
  {
    var updated := open[i := c];
    forall b | b in Fresh(open, lh) ensures b in Fresh(updated, lh) {
      var k :| 0 <= k < |open| && open[k].at.Passed? && open[k].at.block == b;
      assert updated[k] in updated;
    }
    assert updated[i] in updated && c in [c];
    assert forall d :: d in updated ==> d in open || d == c;
  }

  lemma FreshRemove(open: seq<Call>, lh: seq<nat>, i: nat)
    requires i < |open| && open[i].at.Elsewhere?
    ensures Fresh(Remove(open, i), lh) == Fresh(open, lh)
  {
    var rest := Remove(open, i);
    forall b | b in Fresh(open, lh) ensures b in Fresh(rest, lh) {
      var k :| 0 <= k < |open| && open[k].at.Passed? && open[k].at.block == b;
      assert open[k] == rest[if k < i then k else k - 1];
    }
  }

  /** An append that is absorbed changes nothing; any other moves its block from the fresh ones to the listed ones. */
  lemma FreshAppended(s: State, i: nat, t: State)
    requires Enabled(s, Append(i)) && t == Apply(s, Append(i)).state
    ensures Fresh(t.open, t.lh) == Fresh(s.open, s.lh) - {s.open[i].at.block}
    ensures s.open[i].at.block !in s.lh ==> s.open[i].at.block in Fresh(s.open, s.lh)
    ensures Slots(t) == Slots(s)
  {
    var b := s.open[i].at.block;
    assert s.open[i] in s.open;
    forall x | x in Fresh(s.open, s.lh) && x != b ensures x in Fresh(t.open, t.lh) {
      var k :| 0 <= k < |s.open| && s.open[k].at.Passed? && s.open[k].at.block == x;
      assert t.open[k] == s.open[k] && t.open[k] in t.open;
    }
    forall x | x in Fresh(t.open, t.lh) ensures x in Fresh(s.open, s.lh) - {b} {
      var k :| 0 <= k < |t.open| && t.open[k].at.Passed? && t.open[k].at.block == x;
      assert s.open[k] == t.open[k] && s.open[k] in s.open;
    }
  }

  /** Only a test that passes on a block not yet in sight makes commit() write one more slot. */
  lemma StepSlots(s: State, step: Step, t: State)
    requires Invariant(s) && Enabled(s, step) && Apply(s, step) == Next(t)
    ensures !step.Test? ==> Slots(t) <= Slots(s)
    ensures step.Test? ==> !TooBig(s) && t.lh == s.lh && Slots(t) <= Slots(s) + 1
  {
    match step
    case Begin(pid) =>
      if !Blocked(s) {
        FreshMore(s.open, s.lh, Call(pid, 0, 0, Elsewhere));
      }
    case Test(i, b) =>
      var c := s.open[i].(at := Passed(b));
      FreshUpdate(s.open, s.lh, i, c);
      FreshMore([], s.lh, c);
    case Append(i) => FreshAppended(s, i, t);
    case End(i) => FreshRemove(s.open, s.lh, i);
    case Committed =>
  }

  /** No call enters log_write() in this run. */
  predicate NoTests(steps: seq<Step>) {
    forall k :: 0 <= k < |steps| ==> !steps[k].Test?
  }

  lemma {:induction false} QuietRunSlots(s: State, steps: seq<Step>, t: State)
    requires Invariant(s) && RunsTo(s, steps, t) && NoTests(steps)
    ensures Slots(t) <= Slots(s)
    decreases |steps|
  {
    if steps != [] {
      var s1 := Apply(s, steps[0]).state;
      StepKeeps(s, steps[0]);
      StepSlots(s, steps[0], s1);
      QuietRunSlots(s1, steps[1..], t);
    }
  }

  /** The calls past the test append, one after the other. */
  lemma {:induction false} Drain(s: State) returns (steps: seq<Step>, t: State)
    ensures RunsTo(s, steps, t) && NoTests(steps) && |t.lh| == Slots(s) && t.size == s.size
    decreases |Fresh(s.open, s.lh)|
  {
    if Fresh(s.open, s.lh) == {} {
      steps, t := [], s;
    } else {
      var b :| b in Fresh(s.open, s.lh);
      var i :| 0 <= i < |s.open| && s.open[i].at.Passed? && s.open[i].at.block == b;
      var s1 := Apply(s, Append(i)).state;
      FreshAppended(s, i, s1);
      var rest;
      rest, t := Drain(s1);
      steps := [Append(i)] + rest;
    }
  }

  /** Slots beyond the log are written by the commit of log.lh. */
  predicate Overrun(s: State) {
    |s.lh| >= s.size
  }

  ghost predicate CanOverrun(s: State) {
    exists steps, t :: RunsTo(s, steps, t) && NoTests(steps) && Overrun(t)
  }

  /**
   Without another log_write() the list can outgrow a log of any size exactly if the listed blocks and
   those in the hands of calls past the test are as many as the log has blocks.
   */
  lemma OverrunIff(size: nat, s: State)
    requires Reachable(size, s)
    ensures CanOverrun(s) <==> Slots(s) >= size
  {
    ReachableInvariant(size, s);
    if CanOverrun(s) {
      var steps, t :| RunsTo(s, steps, t) && NoTests(steps) && Overrun(t);
      RunKeeps(s, steps, t);
      QuietRunSlots(s, steps, t);
    }
    if Slots(s) >= size {
      var steps, t := Drain(s);
      assert Overrun(t);
    }
  }

  /** A test that passes although listed blocks and those in hand leave no slot for one more. */
  predicate Crowds(s: State, step: Step) {
    step.Test? && step.block !in s.lh && step.block !in Fresh(s.open, s.lh) && Slots(s) + 1 >= s.size
  }

  /** From a state whose slots lie inside the log, exactly such a step puts one outside. */
  lemma CrowdedIff(s: State, step: Step, t: State)
    requires Invariant(s) && Enabled(s, step) && Apply(s, step) == Next(t) && Slots(s) < s.size
    ensures Slots(t) >= t.size <==> Crowds(s, step)
  {
    StepSlots(s, step, t);
    if step.Test? {
      var c := s.open[step.i].(at := Passed(step.block));
      FreshUpdate(s.open, s.lh, step.i, c);
      assert c in [c];
      assert Fresh([c], s.lh) == if step.block in s.lh then {} else {step.block};
    }
  }

  ghost predicate NeverCrowded(s: State, steps: seq<Step>)
    decreases |steps|
  {
    steps != [] && Enabled(s, steps[0]) && Apply(s, steps[0]).Next? ==>
      !Crowds(s, steps[0]) && NeverCrowded(Apply(s, steps[0]).state, steps[1..])
  }

  /** Whatever the size of the log, a run without such a step keeps every slot of every commit inside the log. */
  lemma {:induction false} UncrowdedInside(s: State, steps: seq<Step>, t: State)
    requires Invariant(s) && RunsTo(s, steps, t) && NeverCrowded(s, steps) && Slots(s) < s.size
    ensures Slots(t) < t.size && !Overrun(t)
    decreases |steps|
  {
    if steps != [] {
      var s1 := Apply(s, steps[0]).state;
      StepKeeps(s, steps[0]);
      CrowdedIff(s, steps[0], s1);
      UncrowdedInside(s1, steps[1..], t);
    }
  }

  // ------------------------------------------------ runs that do panic

  lemma {:induction false} RunsToConcat(s: State, a: seq<Step>, t: State, b: seq<Step>, u: State)
    requires RunsTo(s, a, t) && RunsTo(t, b, u)
    ensures RunsTo(s, a + b, u)
    decreases |a|
  {
    if a == [] {
      assert a + b == b;
    } else {
      assert (a + b)[1..] == a[1..] + b;
      RunsToConcat(Apply(s, a[0]).state, a[1..], t, b, u);
    }
  }

  /** Open call i goes through log_write() for a block that is not listed. */
  lemma WriteOne(s: State, i: nat, b: nat) returns (steps: seq<Step>, t: State)
    requires i < |s.open| && s.open[i].at.Elsewhere? && s.open[i].added < MAXOPBLOCKS && s.outstanding >= 1
    requires b !in s.lh && !TooBig(s)
    ensures RunsTo(s, steps, t) && t.lh == s.lh + [b] && t.size == s.size && t.outstanding == s.outstanding
    ensures t.open == s.open[i := s.open[i].(added := s.open[i].added + 1, calls := s.open[i].calls + 1)]
  {
    var s1 := Apply(s, Test(i, b)).state;
    t := Apply(s1, Append(i)).state;
    assert RunsTo(s1, [Append(i)], t);
    steps := [Test(i, b), Append(i)];
    assert steps[1..] == [Append(i)];
  }

  /** Open call i logs `count` fresh blocks. */
  lemma {:induction false} Fill(s: State, i: nat, first: nat, count: nat) returns (steps: seq<Step>, t: State)
    requires i < |s.open| && s.open[i].at.Elsewhere? && s.open[i].added + count <= MAXOPBLOCKS && s.outstanding >= 1
    requires |s.lh| + count <= LOGSIZE && |s.lh| + count < s.size
    requires forall b :: b in s.lh ==> b < first
    ensures RunsTo(s, steps, t)
    ensures |t.lh| == |s.lh| + count && forall b :: b in t.lh ==> b < first + count
    ensures t.size == s.size && t.outstanding == s.outstanding && |t.open| == |s.open|
    ensures t.open[i].added == s.open[i].added + count && t.open[i].at.Elsewhere?
    ensures forall j :: 0 <= j < |s.open| && j != i ==> t.open[j] == s.open[j]
    decreases count
  {
    if count == 0 {
      steps, t := [], s;
    } else {
      var one, s1 := WriteOne(s, i, first);
      var rest;
      rest, t := Fill(s1, i, first + 1, count - 1);
      RunsToConcat(s, one, s1, rest, t);
      steps := one + rest;
    }
  }

  lemma ThreeBegins(size: nat) returns (steps: seq<Step>, s: State)
    ensures RunsTo(Initial(size), steps, s) && s.outstanding == |s.open| == 3 && s.lh == [] && s.size == size
    ensures forall i :: 0 <= i < 3 ==> s.open[i].added == 0 && s.open[i].at.Elsewhere?
  {
    var s0 := Initial(size);
    var s1 := Apply(s0, Begin(1)).state;
    var s2 := Apply(s1, Begin(2)).state;
    s := Apply(s2, Begin(3)).state;
    assert RunsTo(s2, [Begin(3)], s);
    assert RunsTo(s1, [Begin(2), Begin(3)], s);
    steps := [Begin(1), Begin(2), Begin(3)];
  }

  /** Three calls that have listed as many blocks each as j, k and m say. */
  lemma ThreeCalls(size: nat, j: nat, k: nat, m: nat) returns (s: State)
    requires size > j + k + m && j <= MAXOPBLOCKS && k <= MAXOPBLOCKS && m <= MAXOPBLOCKS
    ensures Reachable(size, s) && |s.open| == s.outstanding == 3 && |s.lh| == j + k + m && s.size == size
    ensures s.open[0].added == j && s.open[1].added == k && s.open[2].added == m
    ensures (forall i :: 0 <= i < 3 ==> s.open[i].at.Elsewhere?) && forall b :: b in s.lh ==> b < |s.lh|
  {
    var z, s3 := ThreeBegins(size);
    var a, s4 := Fill(s3, 0, 0, j);
    var b, s5 := Fill(s4, 1, j, k);
    var c, s6 := Fill(s5, 2, j + k, m);
    RunsToConcat(s4, b, s5, c, s6);
    RunsToConcat(s3, a, s4, b + c, s6);
    RunsToConcat(Initial(size), z, s3, a + (b + c), s6);
    s := s6;
  }

  /** With a log larger than LOGSIZE, a call that only rewrites a block it has logged can still panic. */
  lemma AbsorbedWriteCanPanic(size: nat)
    requires size > LOGSIZE
    ensures exists s, i: nat, b: nat ::
      Reachable(size, s) && Enabled(s, Test(i, b)) && b in s.lh && Apply(s, Test(i, b)).Panic?
  {
    var s := ThreeCalls(size, MAXOPBLOCKS, MAXOPBLOCKS, MAXOPBLOCKS);
    assert s.lh[0] in s.lh && Enabled(s, Test(0, s.lh[0]));
    assert Apply(s, Test(0, s.lh[0])).Panic?;
  }

  /** With the log mkfs.c makes, whose LOGSIZE blocks include the header, a call can panic within its reservation. */
  lemma ShippedLogCanPanic()
    ensures exists s, i: nat, b: nat ::
      && Reachable(LOGSIZE, s) && Enabled(s, Test(i, b)) && b !in s.lh
      && s.open[i].added < MAXOPBLOCKS && Apply(s, Test(i, b)).Panic?
  {
    var s := ThreeCalls(LOGSIZE, MAXOPBLOCKS, MAXOPBLOCKS, MAXOPBLOCKS - 1);
    assert LOGSIZE !in s.lh && Enabled(s, Test(2, LOGSIZE));
    assert Apply(s, Test(2, LOGSIZE)).Panic?;
  }

  /** With that log a write panics exactly when it finds LOGSIZE - 1 entries; there are never more than LOGSIZE. */
  lemma ShippedLogPanicsIff(s: State, i: nat, b: nat)
    requires Reachable(LOGSIZE, s) && Enabled(s, Test(i, b))
    ensures Apply(s, Test(i, b)).Panic? <==> |s.lh| >= LOGSIZE - 1
    ensures Slots(s) <= LOGSIZE
  {
    ReachableInvariant(LOGSIZE, s);
    FreshWithinUnused(s.open, s.lh);
  }

  lemma ReachableOn(size: nat, s: State, steps: seq<Step>, t: State)
    requires Reachable(size, s) && RunsTo(s, steps, t)
    ensures Reachable(size, t)
  {
    var first :| RunsTo(Initial(size), first, s);
    RunsToConcat(Initial(size), first, s, steps, t);
  }

  /** Two calls pass the test for different blocks before either appends. */
  lemma TwoPass(s: State, b: nat, c: nat) returns (t: State)
    requires |s.open| == s.outstanding == 3 && !TooBig(s) && b !in s.lh && c !in s.lh && b != c
    requires forall i :: 1 <= i < 3 ==> s.open[i].at.Elsewhere? && s.open[i].added < MAXOPBLOCKS
    ensures RunsTo(s, [Test(1, b), Test(2, c)], t) && t.size == s.size && Slots(t) >= |s.lh| + 2
  {
    var s1 := Apply(s, Test(1, b)).state;
    t := Apply(s1, Test(2, c)).state;
    var steps := [Test(1, b), Test(2, c)];
    assert RunsTo(s1, [Test(2, c)], t);
    assert steps[1..] == [Test(2, c)];
    assert t.open[1] in t.open && t.open[2] in t.open;
    assert {b, c} <= Fresh(t.open, t.lh);
    SubsetSize({b, c}, Fresh(t.open, t.lh));
  }

  /**
   With that log three calls that keep to their reservations can list LOGSIZE blocks without a panic, one more than
   the log has slots: the last slot of the commit is the first block after the log.
   */
  lemma ShippedLogCanOverrun(l: Layout)
    requires l.size == LOGSIZE
    ensures exists s :: Reachable(LOGSIZE, s) && |s.lh| == LOGSIZE && Overrun(s)
    ensures l.start + LOGSIZE == l.start + l.size && !InLog(l, l.start + LOGSIZE)
  {
    var s := ThreeCalls(LOGSIZE, MAXOPBLOCKS, MAXOPBLOCKS - 1, MAXOPBLOCKS - 1);
    var t := TwoPass(s, LOGSIZE, LOGSIZE + 1);
    ReachableOn(LOGSIZE, s, [Test(1, LOGSIZE), Test(2, LOGSIZE + 1)], t);
    var steps, u := Drain(t);
    ReachableOn(LOGSIZE, t, steps, u);
    ReachableInvariant(LOGSIZE, u);
    UnusedRange(u.open);
  }
}

/**
 Where the bytes in a pipe come from and go to, over whole runs: the writers' calls, in order, and the readers' results.
 */
module PipeStory {
  import opened Common
  import opened Bytes
  import opened PipeRing
  import opened PipeRuns

  /**
   What an observer has noted: for each accepted byte the process that wrote it; for each process the bytes of its
   current or last write call, those of them accepted so far, and all accepted from its calls before; and all that was
   read.
   */
  datatype Story = Story(
    from: seq<nat>, asked: seq<seq<byte>>, sent: seq<seq<byte>>, past: seq<seq<byte>>, got: seq<byte>)

  predicate Fit(h: Story, y: Sys) {
    |h.asked| == |y.jobs| && |h.sent| == |y.jobs| && |h.past| == |y.jobs|
  }

  /** The bytes accepted in a step. */
  function Gained(y: Sys, y': Sys): seq<byte> {
    if |y.flow.accepted| <= |y'.flow.accepted| then y'.flow.accepted[|y.flow.accepted|..] else []
  }

  /** One step, as the observer sees it. */
  function Note(h: Story, y: Sys, step: Step, y': Sys): Story
    requires Fit(h, y) && Shape(y) && Enabled(y, step)
  {
    match step
    case StartWrite(p, src) =>
      h.(asked := h.asked[p := src], past := h.past[p := h.past[p] + h.sent[p]], sent := h.sent[p := []])
    case Run(p) =>
      if y.jobs[p].Writing? then
        h.(from := h.from + seq(|Gained(y, y')|, _ => p), sent := h.sent[p := h.sent[p] + Gained(y, y')])
      else if p < |y'.jobs| && y'.jobs[p].Idle? && y'.jobs[p].last.Received? then
        h.(got := h.got + y'.jobs[p].last.bytes)
      else h
    case _ => h
  }

  /** Those bytes of s that came from p. */
  function Sublist(s: seq<byte>, from: seq<nat>, p: nat): seq<byte>
    requires |from| == |s|
  {
    if s == [] then []
    else Sublist(s[..|s| - 1], from[..|s| - 1], p) + if from[|s| - 1] == p then [s[|s| - 1]] else []
  }

  lemma {:induction false} SublistMore(s: seq<byte>, from: seq<nat>, t: seq<byte>, more: seq<nat>, q: nat, p: nat)
    requires |from| == |s| && |more| == |t| && forall k :: 0 <= k < |more| ==> more[k] == q
    ensures Sublist(s + t, from + more, p) == Sublist(s, from, p) + if p == q then t else []
    decreases |t|
  {
    if t == [] {
      assert s + t == s && from + more == from;
    } else {
      var n := |t| - 1;
      SublistMore(s, from, t[..n], more[..n], q, p);
      assert (s + t)[..|s + t| - 1] == s + t[..n] && (from + more)[..|s + t| - 1] == from + more[..n];
      assert t == t[..n] + [t[n]];
    }
  }

  /** With one writer this is everything. */
  lemma {:induction false} SublistAll(s: seq<byte>, from: seq<nat>, p: nat)
    requires |from| == |s| && forall k :: 0 <= k < |from| ==> from[k] == p
    ensures Sublist(s, from, p) == s
    decreases |s|
  {
    if s != [] {
      SublistAll(s[..|s| - 1], from[..|s| - 1], p);
      assert s == s[..|s| - 1] + [s[|s| - 1]];
    }
  }

  /** What a write call has sent: src[..i] while it runs, all of it when it succeeds, less when it fails. */
  ghost predicate CallTold(j: Job, asked: seq<byte>, sent: seq<byte>) {
    match j
    case Writing(src, i) => src == asked && i <= |src| && sent == src[..i]
    case WriteAsleep(src, i) => src == asked && i <= |src| && sent == src[..i]
    case Idle(last) =>
      && (last.Wrote? ==> sent == asked && last.n == |asked|)
      && (last.WriteFailed? ==> sent < asked)
    case _ => true
  }

  /** The bytes accepted from p are those of its past calls, in order, then those of the current or last one. */
  ghost predicate StreamTold(h: Story, y: Sys, p: nat)
    requires Fit(h, y) && p < |y.jobs|
  {
    |h.from| == |y.flow.accepted| && Sublist(y.flow.accepted, h.from, p) == h.past[p] + h.sent[p]
  }

  ghost predicate Told(h: Story, y: Sys) {
    && Fit(h, y) && |h.from| == |y.flow.accepted| && h.got == y.flow.delivered
    && (forall p :: 0 <= p < |y.jobs| ==> CallTold(y.jobs[p], h.asked[p], h.sent[p]))
    && (forall p :: 0 <= p < |y.jobs| ==> StreamTold(h, y, p))
  }

  // ------------------------------------------------ every step is told

  lemma WriteGains(y: Sys, p: nat, y': Sys)
    requires Inv(y) && p < |y.jobs| && y.jobs[p].Writing? && y' == WriteOnce(y, p)
    ensures var j, k := y.jobs[p], WriteReach(y, y.jobs[p]);
      Gained(y, y') == j.src[j.i..k] && y'.flow == Put(y.flow, j.src[j.i..k])
  {
  }

  lemma WriteCall(y: Sys, p: nat, y': Sys, asked: seq<byte>, sent: seq<byte>)
    requires Inv(y) && p < |y.jobs| && y.jobs[p].Writing? && y' == WriteOnce(y, p) && CallTold(y.jobs[p], asked, sent)
    ensures p < |y'.jobs| && CallTold(y'.jobs[p], asked, sent + Gained(y, y'))
  {
    var j, k := y.jobs[p], WriteReach(y, y.jobs[p]);
    WriteGains(y, p, y');
    assert j.src[..j.i] + j.src[j.i..k] == j.src[..k];
    assert j.src[..|j.src|] == j.src;
  }

  lemma OthersCall(y: Sys, p: nat, y': Sys, q: nat, asked: seq<byte>, sent: seq<byte>)
    requires Inv(y) && Enabled(y, Run(p)) && y' == Apply(y, Run(p)) && q < |y.jobs| && q != p
    requires CallTold(y.jobs[q], asked, sent)
    ensures q < |y'.jobs| && CallTold(y'.jobs[q], asked, sent)
  {
  }

  lemma WriteStream(h: Story, y: Sys, p: nat, y': Sys, h': Story, q: nat)
    requires Told(h, y) && Inv(y) && Enabled(y, Run(p)) && y.jobs[p].Writing? && y' == Apply(y, Run(p))
    requires h' == Note(h, y, Run(p), y') && q < |y.jobs|
    ensures Fit(h', y') && StreamTold(h', y', q)
  {
    WriteGains(y, p, y');
    var t := Gained(y, y');
    assert StreamTold(h, y, q);
    SublistMore(y.flow.accepted, h.from, t, seq(|t|, _ => p), p, q);
    assert h.past[q] + (h.sent[q] + t) == h.past[q] + h.sent[q] + t;
  }

  lemma WriteTold(h: Story, y: Sys, p: nat, y': Sys, h': Story)
    requires Told(h, y) && Inv(y) && Enabled(y, Run(p)) && y.jobs[p].Writing? && y' == Apply(y, Run(p))
    requires h' == Note(h, y, Run(p), y')
    ensures Told(h', y')
  {
    forall q | 0 <= q < |y'.jobs|
      ensures CallTold(y'.jobs[q], h'.asked[q], h'.sent[q]) && StreamTold(h', y', q)
    {
      WriteStream(h, y, p, y', h', q);
      if q == p {
        WriteCall(y, p, y', h.asked[p], h.sent[p]);
      } else {
        OthersCall(y, p, y', q, h.asked[q], h.sent[q]);
      }
    }
  }

  lemma ReadTold(h: Story, y: Sys, p: nat, y': Sys, h': Story)
    requires Told(h, y) && Inv(y) && Enabled(y, Run(p)) && y.jobs[p].Reading? && y' == Apply(y, Run(p))
    requires h' == Note(h, y, Run(p), y')
    ensures Told(h', y')
  {
    forall q | 0 <= q < |y'.jobs|
      ensures CallTold(y'.jobs[q], h'.asked[q], h'.sent[q]) && StreamTold(h', y', q)
    {
      assert StreamTold(h, y, q);
      if q != p {
        OthersCall(y, p, y', q, h.asked[q], h.sent[q]);
      }
    }
  }

  lemma CallsTold(h: Story, y: Sys, step: Step, y': Sys, h': Story)
    requires Told(h, y) && Inv(y) && Enabled(y, step) && !step.Run? && y' == Apply(y, step)
    requires h' == Note(h, y, step, y')
    ensures Told(h', y')
  {
    forall q | 0 <= q < |y'.jobs|
      ensures CallTold(y'.jobs[q], h'.asked[q], h'.sent[q]) && StreamTold(h', y', q)
    {
      assert StreamTold(h, y, q) && CallTold(y.jobs[q], h.asked[q], h.sent[q]);
    }
  }

  lemma StepTold(h: Story, y: Sys, step: Step, y': Sys)
    requires Told(h, y) && Inv(y) && Enabled(y, step) && y' == Apply(y, step)
    ensures Told(Note(h, y, step, y'), y')
  {
    if step.Run? {
      if y.jobs[step.p].Writing? {
        WriteTold(h, y, step.p, y', Note(h, y, step, y'));
      } else {
        ReadTold(h, y, step.p, y', Note(h, y, step, y'));
      }
    } else {
      CallsTold(h, y, step, y', Note(h, y, step, y'));
    }
  }

  // ------------------------------------------------ whole runs

  function NoStory(processes: nat): Story {
    Story([], seq(processes, _ => []), seq(processes, _ => []), seq(processes, _ => []), [])
  }

  /** The story of a run. */
  ghost function Tale(h: Story, y: Sys, schedule: seq<Step>): (r: Story)
    requires Told(h, y) && Inv(y)
    ensures Execute(y, schedule).Reached? ==> Told(r, Execute(y, schedule).y)
    decreases |schedule|
  {
    if schedule == [] || !Enabled(y, schedule[0]) then h
    else
      StepKeeps(y, schedule[0]);
      var y' := Apply(y, schedule[0]);
      StepTold(h, y, schedule[0], y');
      Tale(Note(h, y, schedule[0], y'), y', schedule[1..])
  }

  ghost function StoryOf(processes: nat, schedule: seq<Step>): (h: Story)
    ensures FromStart(processes, schedule).Reached? ==> Told(h, FromStart(processes, schedule).y)
  {
    Tale(NoStory(processes), Initial(processes), schedule)
  }

  /**
   In every run: the bytes accepted from a writer in its current call are exactly src[..i]; a call that has succeeded
   has had exactly its bytes accepted, one that has failed only some; and the accepted bytes of each writer are those of
   its calls in order. The readers together have got exactly the delivered bytes, in order.
   */
  lemma WritersHeard(processes: nat, schedule: seq<Step>, y: Sys, p: nat)
    requires FromStart(processes, schedule) == Reached(y) && p < |y.jobs|
    ensures var h := StoryOf(processes, schedule);
      && Fit(h, y) && |h.from| == |y.flow.accepted|
      && CallTold(y.jobs[p], h.asked[p], h.sent[p])
      && Sublist(y.flow.accepted, h.from, p) == h.past[p] + h.sent[p]
      && h.got == y.flow.delivered <= y.flow.accepted
  {
    var h := StoryOf(processes, schedule);
    assert Told(h, y) && StreamTold(h, y, p);
  }

  /** No process but p begins a write in this run. */
  predicate OnlyWriter(schedule: seq<Step>, p: nat) {
    forall k :: 0 <= k < |schedule| && schedule[k].StartWrite? ==> schedule[k].p == p
  }

  predicate InWrite(j: Job) {
    j.Writing? || j.WriteAsleep?
  }

  lemma {:induction false} TaleFrom(h: Story, y: Sys, schedule: seq<Step>, p: nat)
    requires Told(h, y) && Inv(y) && Execute(y, schedule).Reached? && OnlyWriter(schedule, p)
    requires forall k :: 0 <= k < |h.from| ==> h.from[k] == p
    requires forall q :: 0 <= q < |y.jobs| && q != p ==> !InWrite(y.jobs[q])
    ensures forall k :: 0 <= k < |Tale(h, y, schedule).from| ==> Tale(h, y, schedule).from[k] == p
    decreases |schedule|
  {
    if schedule != [] {
      StepKeeps(y, schedule[0]);
      var y' := Apply(y, schedule[0]);
      StepTold(h, y, schedule[0], y');
      TaleFrom(Note(h, y, schedule[0], y'), y', schedule[1..], p);
    }
  }

  /** With one writer the accepted bytes are those of its completed calls, then src[..i] of the one under way. */
  lemma OneWriter(processes: nat, schedule: seq<Step>, y: Sys, p: nat)
    requires FromStart(processes, schedule) == Reached(y) && p < |y.jobs| && OnlyWriter(schedule, p)
    ensures var h := StoryOf(processes, schedule);
      && Fit(h, y) && y.flow.accepted == h.past[p] + h.sent[p]
      && (InWrite(y.jobs[p]) ==> y.jobs[p].i <= |y.jobs[p].src| &&
                                 y.flow.accepted == h.past[p] + y.jobs[p].src[..y.jobs[p].i])
  {
    TaleFrom(NoStory(processes), Initial(processes), schedule, p);
    WritersHeard(processes, schedule, y, p);
    var h := StoryOf(processes, schedule);
    SublistAll(y.flow.accepted, h.from, p);
  }

  // ------------------------------------------------ the ring in memory

  /** The pipe in memory is that of y. */
  ghost predicate Agrees(pipe: Pipe, y: Sys)
    reads pipe, pipe.data
  {
    pipe.Valid() && pipe.flow == y.flow && pipe.readopen == y.readopen && pipe.writeopen == y.writeopen
  }

  /** pipewrite() by process p in one stretch: j is where that leaves it. */
  method RunWriter(pipe: Pipe, ghost y: Sys, ghost p: nat, src: seq<byte>, i: nat, killed: bool) returns (j: Job)
    requires Inv(y) && Agrees(pipe, y) && p < |y.jobs| && y.jobs[p] == Writing(src, i) && killed == y.killed[p]
    modifies pipe`nwrite, pipe`flow, pipe.data
    ensures Agrees(pipe, Apply(y, Run(p))) && j == Apply(y, Run(p)).jobs[p]
  {
    var r := pipe.WriteOn(src, i, killed);
    match r
    case Blocked(k) => j := WriteAsleep(src, k);
    case Failed(_) => j := Idle(WriteFailed);
    case Done(k) => j := Idle(Wrote(k));
  }

  /** piperead() by process p in one stretch. */
  method RunReader(pipe: Pipe, ghost y: Sys, ghost p: nat, n: nat, killed: bool) returns (j: Job)
    requires Inv(y) && Agrees(pipe, y) && p < |y.jobs| && y.jobs[p] == Reading(n) && killed == y.killed[p]
    modifies pipe`nread, pipe`flow
    ensures Agrees(pipe, Apply(y, Run(p))) && j == Apply(y, Run(p)).jobs[p]
  {
    var r := pipe.ReadOn(n, killed);
    match r
    case Empty => j := ReadAsleep(n);
    case Killed => j := Idle(ReadFailed);
    case Got(bytes) => j := Idle(Received(bytes));
  }

  /** pipeclose() of the last descriptor of one end. */
  method CloseEnd(pipe: Pipe, ghost y: Sys, writable: bool)
    requires Inv(y) && Agrees(pipe, y)
    modifies pipe`readopen, pipe`writeopen
    ensures Agrees(pipe, Apply(y, if writable then CloseWrite else CloseRead))
  {
    var freed := pipe.Close(writable);
  }
}

/**
 Readers and writers of one pipe, any number of each. A step is what a process does between
 acquire(&p->lock) and the next release or sleep; the ring itself is PipeRing.
 */
module PipeRuns {
  import opened Bytes
  import opened PipeRing

  /** What the last call of a process has returned. */
  datatype Result = NoCall | Wrote(n: nat) | WriteFailed | Received(bytes: seq<byte>) | ReadFailed

  datatype Job =
    | Idle(last: Result)
    | Writing(src: seq<byte>, i: nat)      // in pipewrite(), about to look at the ring
    | WriteAsleep(src: seq<byte>, i: nat)  // SLEEPING on &p->nwrite
    | Reading(n: nat)                      // in piperead(), about to look at the ring
    | ReadAsleep(n: nat)                   // SLEEPING on &p->nread

  datatype Sys = Sys(flow: Flow, readopen: bool, writeopen: bool, jobs: seq<Job>, killed: seq<bool>)

  datatype Step =
    | StartWrite(p: nat, src: seq<byte>) | StartRead(p: nat, n: nat)
    | Run(p: nat) | CloseWrite | CloseRead | Kill(p: nat)

  predicate Shape(y: Sys) {
    |y.killed| == |y.jobs| && FlowOk(y.flow) && forall p :: 0 <= p < |y.jobs| ==> InRange(y.jobs[p])
  }

  predicate InRange(j: Job) {
    j.Writing? || j.WriteAsleep? ==> j.i <= |j.src|
  }

  function WakeReader(j: Job): Job {
    if j.ReadAsleep? then Reading(j.n) else j
  }

  function WakeWriter(j: Job): Job {
    if j.WriteAsleep? then Writing(j.src, j.i) else j
  }

  function WakeReaders(jobs: seq<Job>): (r: seq<Job>)
    ensures |r| == |jobs| && forall p :: 0 <= p < |jobs| ==> r[p] == WakeReader(jobs[p])
  {
    seq(|jobs|, p requires 0 <= p < |jobs| => WakeReader(jobs[p]))
  }

  function WakeWriters(jobs: seq<Job>): (r: seq<Job>)
    ensures |r| == |jobs| && forall p :: 0 <= p < |jobs| ==> r[p] == WakeWriter(jobs[p])
  {
    seq(|jobs|, p requires 0 <= p < |jobs| => WakeWriter(jobs[p]))
  }

  predicate Enabled(y: Sys, step: Step) {
    match step
    case StartWrite(p, _) => p < |y.jobs| && y.jobs[p].Idle?
    case StartRead(p, _) => p < |y.jobs| && y.jobs[p].Idle?
    case Run(p) => p < |y.jobs| && (y.jobs[p].Writing? || y.jobs[p].Reading?)
    case Kill(p) => p < |y.jobs|
    case CloseWrite => true
    case CloseRead => true
  }

  /** How far pipewrite() gets before the ring is full. */
  function WriteReach(y: Sys, j: Job): (k: nat)
    requires FlowOk(y.flow) && j.Writing? && InRange(j)
    ensures j.i <= k <= |j.src|
  {
    j.i + Min(|j.src| - j.i, PIPESIZE - Waiting(y.flow))
  }

  /** pipewrite() in one stretch: it finishes, gives up without a wakeup, or wakes the readers and sleeps. */
  function WriteOnce(y: Sys, p: nat): Sys
    requires Shape(y) && p < |y.jobs| && y.jobs[p].Writing?
  {
    var j := y.jobs[p];
    var k := WriteReach(y, j);
    var y1 := y.(flow := Put(y.flow, j.src[j.i..k]));
    if k == |j.src| then y1.(jobs := WakeReaders(y.jobs)[p := Idle(Wrote(k))])
    else if !y.readopen || y.killed[p] then y1.(jobs := y.jobs[p := Idle(WriteFailed)])
    else y1.(jobs := WakeReaders(y.jobs)[p := WriteAsleep(j.src, k)])
  }

  /** piperead() in one stretch. */
  function ReadOnce(y: Sys, p: nat): Sys
    requires Shape(y) && p < |y.jobs| && y.jobs[p].Reading?
  {
    var n := y.jobs[p].n;
    if Waiting(y.flow) == 0 && y.writeopen then
      y.(jobs := y.jobs[p := if y.killed[p] then Idle(ReadFailed) else ReadAsleep(n)])
    else y.(flow := Take(y.flow, n), jobs := WakeWriters(y.jobs)[p := Idle(Received(Next(y.flow, n)))])
  }

  function Apply(y: Sys, step: Step): Sys
    requires Shape(y) && Enabled(y, step)
  {
    match step
    case StartWrite(p, src) => y.(jobs := y.jobs[p := Writing(src, 0)])
    case StartRead(p, n) => y.(jobs := y.jobs[p := Reading(n)])
    case Run(p) => if y.jobs[p].Writing? then WriteOnce(y, p) else ReadOnce(y, p)
    case CloseWrite => y.(writeopen := false, jobs := WakeReaders(y.jobs))
    case CloseRead => y.(readopen := false, jobs := WakeWriters(y.jobs))
    case Kill(p) => y.(killed := y.killed[p := true], jobs := y.jobs[p := WakeReader(WakeWriter(y.jobs[p]))])
  }

  // ------------------------------------------------ writers

  /** A writer asleep means the ring is full and the read end open. */
  ghost predicate WritersOk(y: Sys) {
    forall p :: 0 <= p < |y.jobs| && y.jobs[p].WriteAsleep? ==> Waiting(y.flow) == PIPESIZE && y.readopen
  }

  predicate Sleeps(j: Job) {
    j.WriteAsleep? || j.ReadAsleep?
  }

  /** A killed process does not sleep. */
  ghost predicate KilledOk(y: Sys) {
    |y.killed| == |y.jobs| && forall p :: 0 <= p < |y.jobs| && y.killed[p] ==> !Sleeps(y.jobs[p])
  }

  ghost predicate Inv(y: Sys) {
    Shape(y) && WritersOk(y) && KilledOk(y)
  }

  lemma WriteOnceKeeps(y: Sys, p: nat)
    requires Inv(y) && p < |y.jobs| && y.jobs[p].Writing?
    ensures Inv(WriteOnce(y, p))
  {
    var y', j := WriteOnce(y, p), y.jobs[p];
    var k := WriteReach(y, j);
    assert |y'.flow.accepted| == |y.flow.accepted| + k - j.i;
  }

  lemma ReadOnceKeeps(y: Sys, p: nat)
    requires Inv(y) && p < |y.jobs| && y.jobs[p].Reading?
    ensures Inv(ReadOnce(y, p))
  {
    var y', n := ReadOnce(y, p), y.jobs[p].n;
    if !(Waiting(y.flow) == 0 && y.writeopen) {
      var w := y.flow;
      assert w.accepted[..|w.delivered|] + Next(w, n) == w.accepted[..|w.delivered| + Min(n, Waiting(w))];
    }
  }

  lemma StepKeeps(y: Sys, step: Step)
    requires Inv(y) && Enabled(y, step)
    ensures Inv(Apply(y, step))
  {
    if step.Run? {
      if y.jobs[step.p].Writing? {
        WriteOnceKeeps(y, step.p);
      } else {
        ReadOnceKeeps(y, step.p);
      }
    }
  }

  // ------------------------------------------------ readers

  /** The same for readers: asleep means empty, with the write end open. It can fail. */
  ghost predicate ReadersOk(y: Sys) {
    forall p :: 0 <= p < |y.jobs| && y.jobs[p].ReadAsleep? ==> Waiting(y.flow) == 0 && y.writeopen
  }

  /**
   The step that strands readers: with some asleep, a writer that is killed, or finds the
   read end closed, has more to write than the ring holds.
   */
  ghost predicate Strands(y: Sys, step: Step)
    requires Shape(y) && Enabled(y, step)
  {
    && step.Run? && y.jobs[step.p].Writing? && (!y.readopen || y.killed[step.p])
    && |y.jobs[step.p].src| - y.jobs[step.p].i > PIPESIZE
    && exists q :: 0 <= q < |y.jobs| && y.jobs[q].ReadAsleep?
  }

  /** A step keeps the readers safe exactly if it is not such a step. */
  lemma ReadersExact(y: Sys, step: Step)
    requires Inv(y) && ReadersOk(y) && Enabled(y, step)
    ensures ReadersOk(Apply(y, step)) <==> !Strands(y, step)
  {
    var y' := Apply(y, step);
    if Strands(y, step) {
      var q :| 0 <= q < |y.jobs| && y.jobs[q].ReadAsleep?;
      assert y'.jobs[q].ReadAsleep?;
    }
  }

  // ------------------------------------------------ whole runs

  datatype Outcome = Stopped | Reached(y: Sys)

  function Initial(processes: nat): Sys {
    Sys(Flow([], []), true, true, seq(processes, _ => Idle(NoCall)), seq(processes, _ => false))
  }

  ghost function Execute(y: Sys, schedule: seq<Step>): (r: Outcome)
    requires Inv(y)
    ensures r.Reached? ==> Inv(r.y)
    decreases |schedule|
  {
    if schedule == [] then Reached(y)
    else if !Enabled(y, schedule[0]) then Stopped
    else
      StepKeeps(y, schedule[0]);
      Execute(Apply(y, schedule[0]), schedule[1..])
  }

  ghost function FromStart(processes: nat, schedule: seq<Step>): (r: Outcome)
    ensures r.Reached? ==> Inv(r.y)
  {
    Execute(Initial(processes), schedule)
  }

  /** In every run, what was delivered is a prefix of what was accepted,
   and a sleeping writer has a full ring to wait for. */
  lemma RunsAreFifo(processes: nat, schedule: seq<Step>, y: Sys, p: nat)
    requires FromStart(processes, schedule) == Reached(y) && p < |y.jobs|
    ensures y.flow.delivered <= y.flow.accepted && 0 <= Waiting(y.flow) <= PIPESIZE
    ensures y.jobs[p].WriteAsleep? ==> Waiting(y.flow) == PIPESIZE && y.readopen
    ensures p < |y.killed| && (y.killed[p] ==> !Sleeps(y.jobs[p]))
  {
  }

  /** Some step of the run strands readers. */
  ghost predicate EverStrands(y: Sys, schedule: seq<Step>)
    requires Inv(y)
    decreases |schedule|
  {
    && schedule != [] && Enabled(y, schedule[0])
    && (Strands(y, schedule[0]) || (StepKeeps(y, schedule[0]); EverStrands(Apply(y, schedule[0]), schedule[1..])))
  }

  /** Without such a step no reader sleeps while there is something to read. */
  lemma {:induction false} ReadersSafe(y: Sys, schedule: seq<Step>)
    requires Inv(y) && ReadersOk(y) && !EverStrands(y, schedule) && Execute(y, schedule).Reached?
    ensures ReadersOk(Execute(y, schedule).y)
    decreases |schedule|
  {
    if schedule != [] {
      ReadersExact(y, schedule[0]);
      StepKeeps(y, schedule[0]);
      ReadersSafe(Apply(y, schedule[0]), schedule[1..]);
    }
  }

  lemma OneStep(y: Sys, step: Step, rest: seq<Step>)
    requires Inv(y) && Enabled(y, step)
    ensures Inv(Apply(y, step)) && Execute(y, [step] + rest) == Execute(Apply(y, step), rest)
  {
    StepKeeps(y, step);
    assert ([step] + rest)[1..] == rest;
  }

  /** The run: a reader goes to sleep, a writer with more than fits is killed, fills the ring and returns. */
  function StrandingRun(src: seq<byte>): seq<Step> {
    [StartRead(1, 1)] + ([Run(1)] + ([StartWrite(0, src)] + ([Kill(0)] + ([Run(0)] + []))))
  }

  /** From the start, this run leaves the reader asleep over a full ring. */
  lemma StrandedReader(src: seq<byte>)
    requires |src| > PIPESIZE
    ensures var r := FromStart(2, StrandingRun(src));
      r.Reached? && r.y.jobs == [Idle(WriteFailed), ReadAsleep(1)] && Waiting(r.y.flow) == PIPESIZE && !ReadersOk(r.y)
  {
    var y0 := Initial(2);
    var y1 := Apply(y0, StartRead(1, 1));
    OneStep(y0, StartRead(1, 1), [Run(1)] + ([StartWrite(0, src)] + ([Kill(0)] + ([Run(0)] + []))));
    var y2 := Apply(y1, Run(1));
    OneStep(y1, Run(1), [StartWrite(0, src)] + ([Kill(0)] + ([Run(0)] + [])));
    var y3 := Apply(y2, StartWrite(0, src));
    OneStep(y2, StartWrite(0, src), [Kill(0)] + ([Run(0)] + []));
    var y4 := Apply(y3, Kill(0));
    OneStep(y3, Kill(0), [Run(0)] + []);
    OneStep(y4, Run(0), []);
    var y5 := Apply(y4, Run(0));
    assert y5.jobs[1].ReadAsleep?;
  }

  /** A step that wakes reader q: its own kill, the last close of the write end, or a write that ends with a wakeup. */
  ghost predicate Wakes(y: Sys, step: Step, q: nat)
    requires Shape(y) && Enabled(y, step)
  {
    || step == Kill(q) || step.CloseWrite?
    || (step.Run? && y.jobs[step.p].Writing? &&
        (WriteReach(y, y.jobs[step.p]) == |y.jobs[step.p].src| || (y.readopen && !y.killed[step.p])))
  }

  /** A sleeping reader is woken by exactly these steps. */
  lemma WokenIff(y: Sys, step: Step, q: nat)
    requires Inv(y) && Enabled(y, step) && q < |y.jobs| && y.jobs[q].ReadAsleep?
    ensures |Apply(y, step).jobs| == |y.jobs|
    ensures Apply(y, step).jobs[q] == if Wakes(y, step, q) then Reading(y.jobs[q].n) else y.jobs[q]
  {
  }

  ghost predicate EverWakes(y: Sys, schedule: seq<Step>, q: nat)
    requires Inv(y)
    decreases |schedule|
  {
    && schedule != [] && Enabled(y, schedule[0])
    && (Wakes(y, schedule[0], q) || (StepKeeps(y, schedule[0]); EverWakes(Apply(y, schedule[0]), schedule[1..], q)))
  }

  /** A reader left asleep over waiting bytes stays asleep in every run that has none of them, however others read. */
  lemma {:induction false} SleepsOn(y: Sys, schedule: seq<Step>, q: nat)
    requires Inv(y) && q < |y.jobs| && y.jobs[q].ReadAsleep? && Execute(y, schedule).Reached?
    requires !EverWakes(y, schedule, q)
    ensures q < |Execute(y, schedule).y.jobs| && Execute(y, schedule).y.jobs[q] == y.jobs[q]
    decreases |schedule|
  {
    if schedule != [] {
      WokenIff(y, schedule[0], q);
      StepKeeps(y, schedule[0]);
      SleepsOn(Apply(y, schedule[0]), schedule[1..], q);
    }
  }
}

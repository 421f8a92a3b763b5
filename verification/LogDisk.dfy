/**
 The on-disk redo log of log.c, as functions of the medium: what every prefix
 of a commit or of a recovery leaves on disk, and what recovery makes of it.
 */
module LogDisk {
  import opened Bytes

  const LOGSIZE := 30 // MAXOPBLOCKS * 3

  type Disk = seq<Block>

  /** log.start and log.size: the header block, then size - 1 slots. */
  datatype Layout = Layout(start: nat, size: nat)

  predicate InLog(l: Layout, b: nat) {
    l.start <= b < l.start + l.size
  }

  ghost predicate Fits(d: Disk, l: Layout) {
    1 <= l.size && l.start + l.size <= |d|
  }

  ghost predicate SameHome(l: Layout, d: Disk, e: Disk) {
    |d| == |e| && forall b :: 0 <= b < |d| && !InLog(l, b) ==> d[b] == e[b]
  }

  function HeadCount(d: Disk, l: Layout): nat
    requires Fits(d, l)
  {
    Word(d[l.start], 0)
  }

  function Target(d: Disk, l: Layout, k: nat): nat
    requires Fits(d, l) && k < LOGSIZE
  {
    Word(d[l.start], 1 + k)
  }

  /** A header that write_head() can have left behind. */
  ghost predicate HeaderOk(d: Disk, l: Layout) {
    && Fits(d, l)
    && HeadCount(d, l) <= LOGSIZE && HeadCount(d, l) < l.size
    && forall k :: 0 <= k < HeadCount(d, l) ==> Target(d, l, k) < |d| && !InLog(l, Target(d, l, k))
  }

  /** The medium once install_trans() has copied its first k log blocks home. */
  ghost function Install(d: Disk, l: Layout, k: nat): (r: Disk)
    requires HeaderOk(d, l) && k <= HeadCount(d, l)
    ensures |r| == |d| && forall b :: 0 <= b < |d| && InLog(l, b) ==> r[b] == d[b]
  {
    if k == 0 then d
    else Install(d, l, k - 1)[Target(d, l, k - 1) := d[l.start + k]]
  }

  /** What the file system contains: the home blocks with the logged transaction applied. */
  ghost function Committed(d: Disk, l: Layout): Disk
    requires HeaderOk(d, l)
  {
    Install(d, l, HeadCount(d, l))
  }

  function Cleared(d: Disk, l: Layout): (r: Disk)
    requires Fits(d, l)
    ensures |r| == |d|
  {
    d[l.start := PutWord(d[l.start], 0, 0)]
  }

  /** The medium after the first k disk writes of recover_from_log(). */
  ghost function RecoverAfter(d: Disk, l: Layout, k: nat): Disk
    requires HeaderOk(d, l)
  {
    if k <= HeadCount(d, l) then Install(d, l, k) else Cleared(Committed(d, l), l)
  }

  ghost predicate IsTarget(d: Disk, l: Layout, k: nat, b: nat)
    requires HeaderOk(d, l) && k <= HeadCount(d, l)
  {
    exists i :: 0 <= i < k && Target(d, l, i) == b
  }

  lemma {:induction false} InstallElsewhere(d: Disk, l: Layout, k: nat, b: nat)
    requires HeaderOk(d, l) && k <= HeadCount(d, l) && b < |d| && !IsTarget(d, l, k, b)
    ensures Install(d, l, k)[b] == d[b]
  {
    if k > 0 {
      assert Target(d, l, k - 1) != b;
      InstallElsewhere(d, l, k - 1, b);
    }
  }

  /** Two media with the same log agree on what install_trans() has written. */
  lemma {:induction false} InstallAgrees(d: Disk, e: Disk, l: Layout, k: nat, b: nat)
    requires HeaderOk(d, l) && HeaderOk(e, l) && |d| == |e| && k <= HeadCount(d, l)
    requires d[l.start] == e[l.start]
    requires forall c :: 0 <= c < |d| && InLog(l, c) ==> d[c] == e[c]
    requires b < |d| && IsTarget(d, l, k, b)
    ensures Install(e, l, k)[b] == Install(d, l, k)[b]
  {
    if Target(d, l, k - 1) == b {
      assert d[l.start + k] == e[l.start + k];
    } else {
      InstallAgrees(d, e, l, k - 1, b);
    }
  }

  /** Installing is idempotent: starting over after any number of installed blocks changes nothing. */
  lemma InstallResumes(d: Disk, l: Layout, j: nat)
    requires HeaderOk(d, l) && j <= HeadCount(d, l)
    ensures HeaderOk(Install(d, l, j), l)
    ensures Committed(Install(d, l, j), l) == Committed(d, l)
  {
    var e := Install(d, l, j);
    assert e[l.start] == d[l.start];
    assert forall k :: 0 <= k < HeadCount(d, l) ==> Target(e, l, k) == Target(d, l, k);
    assert HeaderOk(e, l);
    var n := HeadCount(d, l);
    forall b | 0 <= b < |d|
      ensures Committed(e, l)[b] == Committed(d, l)[b]
    {
      if IsTarget(d, l, n, b) {
        InstallAgrees(d, e, l, n, b);
      } else {
        assert forall i :: 0 <= i < n ==> Target(e, l, i) == Target(d, l, i) != b;
        InstallElsewhere(e, l, n, b);
        InstallElsewhere(d, l, j, b);
        InstallElsewhere(d, l, n, b);
      }
    }
  }

  lemma ClearedKeeps(d: Disk, l: Layout)
    requires Fits(d, l)
    ensures HeaderOk(Cleared(d, l), l) && SameHome(l, Committed(Cleared(d, l), l), d)
  {
    assert HeadCount(Cleared(d, l), l) == 0;
  }

  /** A crash anywhere in recovery loses nothing. */
  lemma RecoverKeeps(d: Disk, l: Layout, k: nat)
    requires HeaderOk(d, l)
    ensures HeaderOk(RecoverAfter(d, l, k), l)
    ensures SameHome(l, Committed(RecoverAfter(d, l, k), l), Committed(d, l))
  {
    if k <= HeadCount(d, l) {
      InstallResumes(d, l, k);
    } else {
      ClearedKeeps(Committed(d, l), l);
    }
  }

  /** Boots that crashed after crashes[0], crashes[1], ... disk writes of recovery. */
  ghost function CrashedBoots(d: Disk, l: Layout, crashes: seq<nat>): (r: Disk)
    requires HeaderOk(d, l)
    ensures HeaderOk(r, l)
    decreases |crashes|
  {
    if crashes == [] then d
    else
      RecoverKeeps(d, l, crashes[0]);
      CrashedBoots(RecoverAfter(d, l, crashes[0]), l, crashes[1..])
  }

  /** A boot that is not interrupted. */
  ghost function Recovered(d: Disk, l: Layout): Disk
    requires HeaderOk(d, l)
  {
    RecoverAfter(d, l, HeadCount(d, l) + 1)
  }

  lemma RecoveredIsCommitted(d: Disk, l: Layout)
    requires HeaderOk(d, l)
    ensures |Recovered(d, l)| == |d| && SameHome(l, Recovered(d, l), Committed(d, l))
    ensures HeadCount(Recovered(d, l), l) == 0
  {
  }

  /** However often recovery crashes, the boot that completes ends with the committed contents. */
  lemma {:induction false} RecoverySurvivesCrashes(d: Disk, l: Layout, crashes: seq<nat>)
    requires HeaderOk(d, l)
    ensures SameHome(l, Recovered(CrashedBoots(d, l, crashes), l), Committed(d, l))
    ensures HeadCount(Recovered(CrashedBoots(d, l, crashes), l), l) == 0
    decreases |crashes|
  {
    if crashes == [] {
      RecoveredIsCommitted(d, l);
    } else {
      var e := RecoverAfter(d, l, crashes[0]);
      RecoverKeeps(d, l, crashes[0]);
      RecoverySurvivesCrashes(e, l, crashes[1..]);
      assert CrashedBoots(d, l, crashes) == CrashedBoots(e, l, crashes[1..]);
    }
  }

  // ---------------------------------------------------------------- commit

  /** The block numbers and new contents of the transaction being committed. */
  datatype Transaction = Transaction(lh: seq<uint>, values: seq<Block>)

  ghost predicate TransactionOk(d: Disk, l: Layout, t: Transaction) {
    && Fits(d, l) && HeadCount(d, l) == 0
    && |t.lh| == |t.values| && |t.lh| <= LOGSIZE && |t.lh| < l.size
    && (forall i :: 0 <= i < |t.lh| ==> t.lh[i] < |d| && !InLog(l, t.lh[i]))
    && (forall i, j :: 0 <= i < j < |t.lh| ==> t.lh[i] != t.lh[j])
  }

  /** write_log() after k blocks. */
  ghost function LogFilled(d: Disk, l: Layout, values: seq<Block>, k: nat): (r: Disk)
    requires Fits(d, l) && k <= |values| < l.size
    ensures |r| == |d|
    ensures forall b :: 0 <= b < |d| ==>
      r[b] == if l.start < b <= l.start + k then values[b - l.start - 1] else d[b]
  {
    if k == 0 then d
    else LogFilled(d, l, values, k - 1)[l.start + k := values[k - 1]]
  }

  /** The first k block numbers stored in a header block. */
  function PutTargets(b: Block, lh: seq<uint>, k: nat): (r: Block)
    requires k <= |lh| <= LOGSIZE
    ensures forall j: nat :: j < WORDS ==> Word(r, j) == if 1 <= j <= k then lh[j - 1] else Word(b, j)
  {
    if k == 0 then b else PutWord(PutTargets(b, lh, k - 1), k, lh[k - 1])
  }

  /** What write_head() stores over an old header block. */
  function EncodeHead(b: Block, lh: seq<uint>): (r: Block)
    requires |lh| <= LOGSIZE
    ensures Word(r, 0) == |lh|
    ensures forall i :: 0 <= i < |lh| ==> Word(r, 1 + i) == lh[i]
  {
    PutTargets(PutWord(b, 0, |lh|), lh, |lh|)
  }

  ghost function Headed(d: Disk, l: Layout, t: Transaction): (r: Disk)
    requires TransactionOk(d, l, t)
  {
    LogFilled(d, l, t.values, |t.lh|)[l.start := EncodeHead(d[l.start], t.lh)]
  }

  lemma HeadedOk(d: Disk, l: Layout, t: Transaction)
    requires TransactionOk(d, l, t)
    ensures HeaderOk(Headed(d, l, t), l) && HeadCount(Headed(d, l, t), l) == |t.lh|
    ensures forall i :: 0 <= i < |t.lh| ==> Target(Headed(d, l, t), l, i) == t.lh[i]
    ensures forall i :: 0 <= i < |t.lh| ==> Headed(d, l, t)[l.start + 1 + i] == t.values[i]
    ensures SameHome(l, Headed(d, l, t), d)
  {
    var h := Headed(d, l, t);
    forall i | 0 <= i < |t.lh| ensures Target(h, l, i) == t.lh[i] {
      assert Word(EncodeHead(d[l.start], t.lh), 1 + i) == t.lh[i];
    }
  }

  /** The media write_log() leaves after each of its first k writes. */
  ghost function LogFills(d: Disk, l: Layout, values: seq<Block>, k: nat): (r: seq<Disk>)
    requires Fits(d, l) && k <= |values| < l.size
    ensures |r| == k
  {
    if k == 0 then [] else LogFills(d, l, values, k - 1) + [LogFilled(d, l, values, k)]
  }

  /** One more round of write_log(), on the medium and on what has reached it. */
  lemma FillNext(l: Layout, d0: Disk, d: Disk, d': Disk, t0: seq<Disk>, t: seq<Disk>, t': seq<Disk>,
                 values: seq<Block>, tail: nat, next: nat)
    requires Fits(d0, l) && tail < |values| < l.size && next == tail + 1
    requires d == LogFilled(d0, l, values, tail) && d' == d[l.start + 1 + tail := values[tail]]
    requires t == t0 + LogFills(d0, l, values, tail) && t' == t + [d']
    ensures d' == LogFilled(d0, l, values, next) && t' == t0 + LogFills(d0, l, values, next)
  {
  }

  /** The media install_trans() leaves after each of its first k writes. */
  ghost function Installs(d: Disk, l: Layout, k: nat): (r: seq<Disk>)
    requires HeaderOk(d, l) && k <= HeadCount(d, l)
    ensures |r| == k
  {
    if k == 0 then [] else Installs(d, l, k - 1) + [Install(d, l, k)]
  }

  lemma {:induction false} InstallsAt(d: Disk, l: Layout, k: nat, i: nat)
    requires HeaderOk(d, l) && i < k <= HeadCount(d, l)
    ensures Installs(d, l, k)[i] == Install(d, l, i + 1)
  {
    if i < k - 1 {
      InstallsAt(d, l, k - 1, i);
    }
  }

  /** Every medium that recover_from_log() leaves, write by write. */
  ghost function RecoverWrites(d: Disk, l: Layout): (r: seq<Disk>)
    requires HeaderOk(d, l)
    ensures |r| == HeadCount(d, l) + 1
  {
    Installs(d, l, HeadCount(d, l)) + [Recovered(d, l)]
  }

  lemma RecoverWritesAt(d: Disk, l: Layout, k: nat)
    requires HeaderOk(d, l) && k <= HeadCount(d, l)
    ensures RecoverWrites(d, l)[k] == RecoverAfter(d, l, k + 1)
  {
    if k < HeadCount(d, l) {
      InstallsAt(d, l, HeadCount(d, l), k);
    }
  }

  /** The medium recover_from_log() starts from, then what each of its writes leaves. */
  ghost function RecoverStates(h: Disk, l: Layout): (r: seq<Disk>)
    requires HeaderOk(h, l)
    ensures |r| == HeadCount(h, l) + 2
  {
    [h] + RecoverWrites(h, l)
  }

  lemma RecoverStatesAt(h: Disk, l: Layout, k: nat)
    requires HeaderOk(h, l) && k < HeadCount(h, l) + 2
    ensures RecoverStates(h, l)[k] == RecoverAfter(h, l, k)
  {
    if k > 0 {
      RecoverWritesAt(h, l, k - 1);
    }
  }

  /** Every medium that commit() leaves, write by write. */
  ghost function CommitWrites(d: Disk, l: Layout, t: Transaction): (r: seq<Disk>)
    requires TransactionOk(d, l, t)
    ensures |r| == 2 * |t.lh| + 2
  {
    HeadedOk(d, l, t);
    LogFills(d, l, t.values, |t.lh|) + RecoverStates(Headed(d, l, t), l)
  }

  lemma {:induction false} LogFillsAt(d: Disk, l: Layout, values: seq<Block>, k: nat, i: nat)
    requires Fits(d, l) && i < k <= |values| < l.size
    ensures LogFills(d, l, values, k)[i] == LogFilled(d, l, values, i + 1)
  {
    if i < k - 1 {
      LogFillsAt(d, l, values, k - 1, i);
    }
  }

  /** Before the header write, commit() leaves a partly filled log. */
  lemma WritesBeforeHeader(d: Disk, l: Layout, t: Transaction, k: nat)
    requires TransactionOk(d, l, t) && k < |t.lh|
    ensures CommitWrites(d, l, t)[k] == LogFilled(d, l, t.values, k + 1)
  {
    HeadedOk(d, l, t);
    LogFillsAt(d, l, t.values, |t.lh|, k);
  }

  /** From the header write on, commit() does what recovery would do. */
  lemma WritesFromHeader(d: Disk, l: Layout, t: Transaction, k: nat)
    requires TransactionOk(d, l, t) && |t.lh| <= k < 2 * |t.lh| + 2
    ensures HeaderOk(Headed(d, l, t), l)
    ensures CommitWrites(d, l, t)[k] == RecoverAfter(Headed(d, l, t), l, k - |t.lh|)
  {
    HeadedOk(d, l, t);
    RecoverStatesAt(Headed(d, l, t), l, k - |t.lh|);
  }

  /** The home blocks with the whole transaction applied. */
  ghost predicate Applied(d: Disk, l: Layout, t: Transaction, e: Disk) {
    && |d| == |e| && |t.lh| == |t.values|
    && (forall i :: 0 <= i < |t.lh| && t.lh[i] < |d| ==> e[t.lh[i]] == t.values[i])
    && (forall b :: 0 <= b < |d| && !InLog(l, b) && b !in t.lh ==> e[b] == d[b])
  }

  /** Medium h holds transaction t in its log. */
  ghost predicate Holds(h: Disk, l: Layout, t: Transaction) {
    && HeaderOk(h, l) && HeadCount(h, l) == |t.lh| == |t.values|
    && (forall i :: 0 <= i < |t.lh| ==> Target(h, l, i) == t.lh[i])
    && (forall i :: 0 <= i < |t.lh| ==> h[l.start + 1 + i] == t.values[i])
  }

  lemma {:induction false} InstallApplies(h: Disk, l: Layout, t: Transaction, k: nat)
    requires Holds(h, l, t) && k <= |t.lh|
    requires forall i, j :: 0 <= i < j < |t.lh| ==> t.lh[i] != t.lh[j]
    ensures forall i :: 0 <= i < k ==> Target(h, l, i) == t.lh[i] && Install(h, l, k)[t.lh[i]] == t.values[i]
  {
    if k > 0 {
      InstallApplies(h, l, t, k - 1);
      assert h[l.start + 1 + (k - 1)] == t.values[k - 1];
    }
  }

  lemma HeldCommits(h: Disk, l: Layout, t: Transaction)
    requires Holds(h, l, t)
    requires forall i, j :: 0 <= i < j < |t.lh| ==> t.lh[i] != t.lh[j]
    ensures Applied(h, l, t, Committed(h, l))
  {
    InstallApplies(h, l, t, |t.lh|);
    forall b | 0 <= b < |h| && !InLog(l, b) && b !in t.lh ensures Committed(h, l)[b] == h[b] {
      assert !IsTarget(h, l, |t.lh|, b);
      InstallElsewhere(h, l, |t.lh|, b);
    }
  }

  lemma HeadedCommits(d: Disk, l: Layout, t: Transaction)
    requires TransactionOk(d, l, t)
    ensures HeaderOk(Headed(d, l, t), l)
    ensures Applied(d, l, t, Committed(Headed(d, l, t), l))
  {
    HeadedOk(d, l, t);
    HeldCommits(Headed(d, l, t), l, t);
  }

  lemma AppliedSameHome(d: Disk, l: Layout, t: Transaction, e: Disk, f: Disk)
    requires TransactionOk(d, l, t) && Applied(d, l, t, e) && SameHome(l, f, e)
    ensures Applied(d, l, t, f)
  {
  }

  lemma FilledKeeps(d: Disk, l: Layout, t: Transaction, k: nat)
    requires TransactionOk(d, l, t) && k <= |t.lh|
    ensures HeaderOk(LogFilled(d, l, t.values, k), l)
    ensures SameHome(l, Committed(LogFilled(d, l, t.values, k), l), d)
  {
    var w := LogFilled(d, l, t.values, k);
    assert w[l.start] == d[l.start];
  }

  lemma HeadedKeeps(d: Disk, l: Layout, t: Transaction, h: Disk, k: nat)
    requires TransactionOk(d, l, t) && HeaderOk(h, l) && Applied(d, l, t, Committed(h, l))
    ensures HeaderOk(RecoverAfter(h, l, k), l)
    ensures Applied(d, l, t, Committed(RecoverAfter(h, l, k), l))
  {
    RecoverKeeps(h, l, k);
    AppliedSameHome(d, l, t, Committed(h, l), Committed(RecoverAfter(h, l, k), l));
  }

  /**
   Crash atomicity of commit(): before the header reaches the disk a crash leaves the old
   file system, from then on it leaves the file system with all of the transaction.
   */
  lemma CommitAtomic(d: Disk, l: Layout, t: Transaction, k: nat)
    requires TransactionOk(d, l, t) && k < 2 * |t.lh| + 2
    ensures HeaderOk(CommitWrites(d, l, t)[k], l)
    ensures k < |t.lh| ==> SameHome(l, Committed(CommitWrites(d, l, t)[k], l), d)
    ensures k >= |t.lh| ==> Applied(d, l, t, Committed(CommitWrites(d, l, t)[k], l))
  {
    if k < |t.lh| {
      WritesBeforeHeader(d, l, t, k);
      FilledKeeps(d, l, t, k + 1);
    } else {
      WritesFromHeader(d, l, t, k);
      HeadedCommits(d, l, t);
      HeadedKeeps(d, l, t, Headed(d, l, t), k - |t.lh|);
    }
  }

  /** The medium once commit() is done. */
  ghost function CommitResult(d: Disk, l: Layout, t: Transaction): Disk
    requires TransactionOk(d, l, t)
  {
    HeadedOk(d, l, t);
    Recovered(Headed(d, l, t), l)
  }

  lemma CommitFinishes(d: Disk, l: Layout, t: Transaction)
    requires TransactionOk(d, l, t)
    ensures Applied(d, l, t, CommitResult(d, l, t))
    ensures Fits(CommitResult(d, l, t), l) && HeadCount(CommitResult(d, l, t), l) == 0
  {
    var h := Headed(d, l, t);
    HeadedCommits(d, l, t);
    RecoveredIsCommitted(h, l);
    AppliedSameHome(d, l, t, Committed(h, l), Recovered(h, l));
  }

  lemma CommitWritesFrom(d: Disk, l: Layout, t: Transaction, h: Disk, before: seq<Disk>)
    requires TransactionOk(d, l, t) && h == Headed(d, l, t)
    ensures HeaderOk(h, l) && HeadCount(h, l) == |t.lh|
    ensures CommitResult(d, l, t) == Recovered(h, l)
    ensures before + CommitWrites(d, l, t)
         == before + LogFills(d, l, t.values, |t.lh|) + [h] + RecoverWrites(h, l)
  {
    HeadedOk(d, l, t);
    Regroup(before, LogFills(d, l, t.values, |t.lh|), [h], RecoverWrites(h, l));
  }

  /** Applying to the disk what is newer than the disk gives the newest contents. */
  lemma AppliedIsNewest(d: Disk, l: Layout, t: Transaction, newest: Disk, e: Disk)
    requires TransactionOk(d, l, t) && Applied(d, l, t, e) && |newest| == |d|
    requires forall i :: 0 <= i < |t.lh| ==> t.values[i] == newest[t.lh[i]]
    requires forall b :: 0 <= b < |d| && b !in t.lh ==> newest[b] == d[b]
    ensures SameHome(l, e, newest)
  {
  }

  lemma CommitResultIsNewest(d: Disk, l: Layout, t: Transaction, newest: Disk)
    requires TransactionOk(d, l, t) && |newest| == |d|
    requires forall i :: 0 <= i < |t.lh| ==> t.values[i] == newest[t.lh[i]]
    requires forall b :: 0 <= b < |d| && b !in t.lh ==> newest[b] == d[b]
    ensures SameHome(l, CommitResult(d, l, t), newest)
    ensures Fits(CommitResult(d, l, t), l) && HeadCount(CommitResult(d, l, t), l) == 0
  {
    CommitFinishes(d, l, t);
    AppliedIsNewest(d, l, t, newest, CommitResult(d, l, t));
  }

  lemma RecoverWritesFrom(d: Disk, l: Layout, before: seq<Disk>)
    requires HeaderOk(d, l)
    ensures Recovered(d, l) == Cleared(Install(d, l, HeadCount(d, l)), l)
    ensures before + RecoverWrites(d, l) == before + Installs(d, l, HeadCount(d, l)) + [Recovered(d, l)]
  {
    Assoc(before, Installs(d, l, HeadCount(d, l)), [Recovered(d, l)]);
  }

  lemma Assoc<T>(a: seq<T>, b: seq<T>, c: seq<T>)
    ensures a + (b + c) == a + b + c
  {
  }

  lemma HeadedFrom(d: Disk, l: Layout, t: Transaction, filled: Disk)
    requires TransactionOk(d, l, t) && filled == LogFilled(d, l, t.values, |t.lh|)
    ensures filled[l.start := EncodeHead(filled[l.start], t.lh)] == Headed(d, l, t)
  {
  }

  /** A crash right after medium w was written brings back the old contents or the new ones. */
  ghost predicate OldOrNew(l: Layout, w: Disk, before: Disk, after: Disk) {
    HeaderOk(w, l) && (SameHome(l, Committed(w, l), before) || SameHome(l, Committed(w, l), after))
  }

  lemma CommitOldOrNew(d: Disk, l: Layout, t: Transaction, newest: Disk, k: nat)
    requires TransactionOk(d, l, t) && |newest| == |d| && k < 2 * |t.lh| + 2
    requires forall i :: 0 <= i < |t.lh| ==> t.values[i] == newest[t.lh[i]]
    requires forall b :: 0 <= b < |d| && b !in t.lh ==> newest[b] == d[b]
    ensures OldOrNew(l, CommitWrites(d, l, t)[k], d, newest)
  {
    CommitAtomic(d, l, t, k);
    if k >= |t.lh| {
      AppliedIsNewest(d, l, t, newest, Committed(CommitWrites(d, l, t)[k], l));
    }
  }

  lemma CommitWritesOldOrNew(d: Disk, l: Layout, t: Transaction, newest: Disk)
    requires TransactionOk(d, l, t) && |newest| == |d|
    requires forall i :: 0 <= i < |t.lh| ==> t.values[i] == newest[t.lh[i]]
    requires forall b :: 0 <= b < |d| && b !in t.lh ==> newest[b] == d[b]
    ensures forall w :: w in CommitWrites(d, l, t) ==> OldOrNew(l, w, d, newest)
  {
    var ws := CommitWrites(d, l, t);
    forall k | 0 <= k < |ws| ensures OldOrNew(l, ws[k], d, newest) {
      CommitOldOrNew(d, l, t, newest, k);
    }
  }

  lemma Regroup<T>(a: seq<T>, b: seq<T>, c: seq<T>, d: seq<T>)
    ensures a + (b + (c + d)) == a + b + c + d
  {
  }

  /**
   The whole story: a crash after the first k + 1 disk writes of commit(), then any number
   of crashed boots, then one that completes. The home blocks are exactly the old ones, or
   exactly the new ones, according to whether the header write was reached.
   */
  lemma CrashAtomicity(d: Disk, l: Layout, t: Transaction, k: nat, crashes: seq<nat>)
    requires TransactionOk(d, l, t) && k < 2 * |t.lh| + 2
    ensures HeaderOk(CommitWrites(d, l, t)[k], l)
    ensures k < |t.lh| ==>
      SameHome(l, Recovered(CrashedBoots(CommitWrites(d, l, t)[k], l, crashes), l), d)
    ensures k >= |t.lh| ==>
      Applied(d, l, t, Recovered(CrashedBoots(CommitWrites(d, l, t)[k], l, crashes), l))
  {
    CommitAtomic(d, l, t, k);
    var w := CommitWrites(d, l, t)[k];
    RecoverySurvivesCrashes(w, l, crashes);
    var r := Recovered(CrashedBoots(w, l, crashes), l);
    if k >= |t.lh| {
      AppliedSameHome(d, l, t, Committed(w, l), r);
    }
  }
}

/**
 commit() among readers: the breads, writes and releases of write_log(), write_head() and install_trans(), one at a
 time, while other processes bread and brelse blocks outside the log, as fileread() does without begin_op().

 A commit of n blocks is 2n + 2 transfers: n blocks to the log, the header, n blocks home, the empty header. Each reads
 a block of the log first; the home block it reads next is pinned until it is installed. Which unused buffer bget()
 recycles is left open.
 */
module CommitRuns {
  import opened Counting
  import opened Bytes
  import opened BufferCache
  import opened LogDisk

  /**
   The commit by process pid of transaction t on medium d; media is what its disk writes leave, one after the other, and
   host[i] is the buffer of block t.lh[i].
   */
  datatype Job = Job(d: Disk, l: Layout, t: Transaction, media: seq<Disk>, host: seq<nat>, pid: nat)

  /** Where a transfer is: about to bget() or to lock its first or second buffer, to write, or to release. */
  datatype Point =
    | First | Lock1(a: nat) | Second(a: nat) | Lock2(a: nat, b: nat)
    | Ready(a: nat, b: nat) | Drop(a: nat, b: nat) | Last(a: nat) | Done

  datatype State = State(bufs: seq<Buf>, disk: Disk, trace: seq<Disk>, j: nat, at: Point)

  datatype Step =
    | Commit(k: nat)             // the next thing commit() does; if it recycles a buffer, buffer k
    | Get(bn: nat, k: nat)       // a reader's bget() gives buffer k
    | Lock(k: nat, pid: nat)     // a reader that refers to buffer k locks it, and reads it if need be
    | Put(k: nat)                // a reader's brelse()

  // ------------------------------------------------ the cache, as bio.c changes it

  predicate Cached(bufs: seq<Buf>, bn: nat, k: nat) {
    k < |bufs| && bufs[k].dev == ROOTDEV && bufs[k].blockno == bn
  }

  predicate IsCached(bufs: seq<Buf>, bn: nat) {
    exists k :: 0 <= k < |bufs| && Cached(bufs, bn, k)
  }

  predicate Free(b: Buf) {
    b.refcnt == 0 && !b.dirty
  }

  predicate NoneFree(bufs: seq<Buf>) {
    forall k :: 0 <= k < |bufs| ==> !Free(bufs[k])
  }

  /** bget() can give buffer k for block bn. */
  predicate CanGet(bufs: seq<Buf>, bn: nat, k: nat) {
    k < |bufs| && (Cached(bufs, bn, k) || (!IsCached(bufs, bn) && Free(bufs[k])))
  }

  predicate GetPanics(bufs: seq<Buf>, bn: nat) {
    !IsCached(bufs, bn) && NoneFree(bufs)
  }

  function GotBuf(b: Buf, bn: nat): Buf {
    if b.dev == ROOTDEV && b.blockno == bn then b.(refcnt := b.refcnt + 1)
    else Buf(ROOTDEV, bn, false, false, 1, 0, b.data)
  }

  function LockedBuf(b: Buf, disk: Disk, pid: nat): Buf {
    b.(holder := pid, valid := true, data := if b.valid || b.blockno >= |disk| then b.data else disk[b.blockno])
  }

  function DroppedBuf(b: Buf): Buf {
    b.(holder := 0, refcnt := if b.refcnt > 0 then b.refcnt - 1 else 0)
  }

  // ------------------------------------------------ the steps

  predicate IsHead(w: Job, j: nat) {
    j == |w.t.lh| || j == 2 * |w.t.lh| + 1
  }

  predicate Installing(w: Job, j: nat) {
    |w.t.lh| < j <= 2 * |w.t.lh|
  }

  /** The block of the log that transfer j reads first. */
  function LogBlock(w: Job, j: nat): nat {
    if IsHead(w, j) then w.l.start else if Installing(w, j) then w.l.start + (j - |w.t.lh|) else w.l.start + 1 + j
  }

  /** Which listed block transfer j moves. */
  function Index(w: Job, j: nat): nat {
    if Installing(w, j) then j - |w.t.lh| - 1 else j
  }

  /** The buffers that commit() refers to. */
  function Mine(at: Point): set<nat> {
    match at
    case Lock1(a) => {a}
    case Second(a) => {a}
    case Lock2(a, b) => {a, b}
    case Ready(a, b) => {a, b}
    case Drop(a, b) => {a, b}
    case Last(a) => {a}
    case _ => {}
  }

  /** How many references to buffer k are readers'. */
  function Theirs(s: State, k: nat): int
    requires k < |s.bufs|
  {
    s.bufs[k].refcnt - if k in Mine(s.at) then 1 else 0
  }

  predicate CommitEnabled(w: Job, s: State, k: nat) {
    match s.at
    case First => CanGet(s.bufs, LogBlock(w, s.j), k)
    case Lock1(a) => a < |s.bufs| && s.bufs[a].holder == 0
    case Second(a) => Index(w, s.j) < |w.t.lh| && CanGet(s.bufs, w.t.lh[Index(w, s.j)], k)
    case Lock2(a, b) => b < |s.bufs| && s.bufs[b].holder == 0
    case Ready(a, b) => a < |s.bufs| && b < |s.bufs| && |w.t.lh| <= LOGSIZE
    case Drop(a, b) => a < |s.bufs| && b < |s.bufs|
    case Last(a) => a < |s.bufs|
    case Done => false
  }

  predicate Enabled(w: Job, s: State, step: Step) {
    match step
    case Commit(k) => CommitEnabled(w, s, k)
    case Get(bn, k) => bn < |s.disk| && !InLog(w.l, bn) && CanGet(s.bufs, bn, k)
    case Lock(k, pid) =>
      k < |s.bufs| && pid != 0 && pid != w.pid && s.bufs[k].holder == 0 && Theirs(s, k) > 0
    case Put(k) => k < |s.bufs| && s.bufs[k].holder != 0 && s.bufs[k].holder != w.pid
  }

  /** commit() is about to bget() a block that is not cached, and no buffer can be recycled. */
  predicate Panics(w: Job, s: State) {
    || (s.at.First? && GetPanics(s.bufs, LogBlock(w, s.j)))
    || (s.at.Second? && Index(w, s.j) < |w.t.lh| && GetPanics(s.bufs, w.t.lh[Index(w, s.j)]))
  }

  /** write_head() over an old header: the list, or in the end an empty one. */
  function NewHead(w: Job, j: nat, b: Block): Block
    requires |w.t.lh| <= LOGSIZE
  {
    if j == |w.t.lh| then EncodeHead(b, w.t.lh) else PutWord(b, 0, 0)
  }

  /** What transfer j writes from its buffers a and b. */
  function Written(w: Job, s: State, a: nat, b: nat): Block
    requires a < |s.bufs| && b < |s.bufs| && |w.t.lh| <= LOGSIZE
  {
    if IsHead(w, s.j) then NewHead(w, s.j, s.bufs[a].data)
    else if Installing(w, s.j) then s.bufs[a].data
    else s.bufs[b].data
  }

  /** memmove() and bwrite(), on the buffer the caller has locked. */
  function WriteOut(s: State, x: nat, data: Block, at: Point): State
    requires x < |s.bufs|
  {
    var disk := if s.bufs[x].blockno < |s.disk| then s.disk[s.bufs[x].blockno := data] else s.disk;
    s.(bufs := s.bufs[x := s.bufs[x].(data := data, dirty := false)], disk := disk, trace := s.trace + [disk], at := at)
  }

  function CommitStep(w: Job, s: State, k: nat): State
    requires CommitEnabled(w, s, k)
  {
    match s.at
    case First => s.(bufs := s.bufs[k := GotBuf(s.bufs[k], LogBlock(w, s.j))], at := Lock1(k))
    case Lock1(a) =>
      s.(bufs := s.bufs[a := LockedBuf(s.bufs[a], s.disk, w.pid)],
         at := if IsHead(w, s.j) then Ready(a, a) else Second(a))
    case Second(a) => s.(bufs := s.bufs[k := GotBuf(s.bufs[k], w.t.lh[Index(w, s.j)])], at := Lock2(a, k))
    case Lock2(a, b) => s.(bufs := s.bufs[b := LockedBuf(s.bufs[b], s.disk, w.pid)], at := Ready(a, b))
    case Ready(a, b) =>
      WriteOut(s, if Installing(w, s.j) then b else a, Written(w, s, a, b),
               if IsHead(w, s.j) then Last(a) else Drop(a, b))
    case Drop(a, b) =>
      var x := if Installing(w, s.j) then a else b;
      s.(bufs := s.bufs[x := DroppedBuf(s.bufs[x])], at := Last(if Installing(w, s.j) then b else a))
    case Last(a) =>
      s.(bufs := s.bufs[a := DroppedBuf(s.bufs[a])], j := s.j + 1,
         at := if s.j == 2 * |w.t.lh| + 1 then Done else First)
  }

  function Apply(w: Job, s: State, step: Step): State
    requires Enabled(w, s, step)
  {
    match step
    case Commit(k) => CommitStep(w, s, k)
    case Get(bn, k) => s.(bufs := s.bufs[k := GotBuf(s.bufs[k], bn)])
    case Lock(k, pid) => s.(bufs := s.bufs[k := LockedBuf(s.bufs[k], s.disk, pid)])
    case Put(k) => s.(bufs := s.bufs[k := DroppedBuf(s.bufs[k])])
  }

  // ------------------------------------------------ the invariant

  /** How many disk writes commit() has made. */
  function Writes(s: State): nat {
    if s.at.Drop? || s.at.Last? then s.j + 1 else s.j
  }

  /** The first block that is not yet installed, and so still pinned. */
  function Pending(w: Job, writes: nat): nat {
    if writes <= |w.t.lh| + 1 then 0 else if writes <= 2 * |w.t.lh| + 1 then writes - |w.t.lh| - 1 else |w.t.lh|
  }

  /** The medium after so many writes of commit(). */
  function Medium(w: Job, writes: nat): Disk
    requires writes <= |w.media|
  {
    if writes == 0 then w.d else w.media[writes - 1]
  }

  /** What transfer j makes of medium d. */
  ghost function Transfer(w: Job, j: nat, d: Disk): Disk
    requires TransactionOk(w.d, w.l, w.t) && |d| == |w.d| && j < 2 * |w.t.lh| + 2
  {
    if IsHead(w, j) then d[w.l.start := NewHead(w, j, d[w.l.start])]
    else if Installing(w, j) then d[w.t.lh[Index(w, j)] := d[LogBlock(w, j)]]
    else d[LogBlock(w, j) := w.t.values[j]]
  }

  ghost predicate JobOk(w: Job) {
    && TransactionOk(w.d, w.l, w.t) && HostsOk(w)
    && |w.media| == 2 * |w.t.lh| + 2 && forall j :: 0 <= j < |w.media| ==> MediumOk(w, j)
  }

  ghost predicate MediumOk(w: Job, j: nat)
    requires TransactionOk(w.d, w.l, w.t) && j < |w.media| == 2 * |w.t.lh| + 2
  {
    |Medium(w, j)| == |w.d| && w.media[j] == Transfer(w, j, Medium(w, j))
  }

  ghost predicate DiskOk(w: Job, s: State) {
    && Writes(s) <= |w.media| && |s.disk| == |w.d|
    && s.disk == Medium(w, Writes(s)) && s.trace == w.media[..Writes(s)]
  }

  /** What flags, locks and counts of one buffer mean; `mine` says that commit() refers to it. */
  ghost predicate BufOk(w: Job, disk: Disk, b: Buf, mine: bool) {
    && (b.dev == 0 || b.dev == ROOTDEV)
    && (b.dev == 0 ==> !b.valid && !b.dirty && b.refcnt == 0)
    && (b.dev == ROOTDEV ==> b.blockno < |disk|)
    && (b.dirty ==> b.valid)
    && (b.valid && !b.dirty ==> b.data == disk[b.blockno])
    && (mine ==> b.refcnt > 0)
    && (b.holder == w.pid ==> mine)
    && (b.holder != 0 && b.holder != w.pid ==> b.refcnt > if mine then 1 else 0)
    && (b.dev == ROOTDEV && InLog(w.l, b.blockno) ==> b.refcnt == if mine then 1 else 0)
  }

  ghost predicate BufsOk(w: Job, s: State) {
    && |s.bufs| == NBUF
    && (forall k :: 0 <= k < NBUF ==> BufOk(w, s.disk, s.bufs[k], k in Mine(s.at)))
    && Unique(s.bufs)
  }

  /** No buffer but k is assigned to block bn. */
  ghost predicate Alone(bufs: seq<Buf>, bn: nat, k: nat) {
    forall h :: 0 <= h < |bufs| && h != k ==> !Cached(bufs, bn, h)
  }

  ghost predicate Unique(bufs: seq<Buf>) {
    forall k :: 0 <= k < |bufs| && bufs[k].dev == ROOTDEV ==> Alone(bufs, bufs[k].blockno, k)
  }

  /** Buffer b holds listed block i, pinned. */
  ghost predicate PinnedFor(w: Job, b: Buf, i: nat)
    requires i < |w.t.lh| == |w.t.values|
  {
    b.dev == ROOTDEV && b.blockno == w.t.lh[i] && b.dirty && b.data == w.t.values[i]
  }

  ghost predicate HostsOk(w: Job) {
    && |w.host| == |w.t.lh| == |w.t.values| && w.pid != 0
    && (forall i :: 0 <= i < |w.host| ==> w.host[i] < NBUF)
    && (forall i, j :: 0 <= i < j < |w.host| ==> w.host[i] != w.host[j])
  }

  ghost predicate IsHost(w: Job, from: nat, k: nat) {
    exists i :: from <= i < |w.host| && w.host[i] == k
  }

  /** The blocks from `from` on are pinned in their hosts, and nothing else is. */
  ghost predicate PinsOk(w: Job, bufs: seq<Buf>, from: nat)
    requires HostsOk(w) && |bufs| == NBUF
  {
    && (forall i :: from <= i < |w.host| ==> PinnedFor(w, bufs[w.host[i]], i))
    && (forall k :: 0 <= k < NBUF && bufs[k].dirty ==> IsHost(w, from, k))
  }

  /** Commit() has locked buffer k for block bn. */
  ghost predicate Holding(w: Job, bufs: seq<Buf>, bn: nat, k: nat) {
    Cached(bufs, bn, k) && bufs[k].holder == w.pid && bufs[k].valid
  }

  ghost predicate PointOk(w: Job, s: State) {
    && s.j <= 2 * |w.t.lh| + 2 && (s.at.Done? <==> s.j == 2 * |w.t.lh| + 2)
    && var x := LogBlock(w, s.j);
       match s.at
       case First => true
       case Done => true
       case Lock1(a) => Cached(s.bufs, x, a) && s.bufs[a].holder != w.pid
       case Second(a) => !IsHead(w, s.j) && Holding(w, s.bufs, x, a)
       case Lock2(a, b) =>
         && !IsHead(w, s.j) && Index(w, s.j) < |w.t.lh| && Holding(w, s.bufs, x, a)
         && Cached(s.bufs, w.t.lh[Index(w, s.j)], b) && s.bufs[b].holder != w.pid
       case Ready(a, b) => Holding(w, s.bufs, x, a) && Seconded(w, s, a, b)
       case Drop(a, b) => !IsHead(w, s.j) && Holding(w, s.bufs, x, a) && Seconded(w, s, a, b)
       case Last(a) => a < |s.bufs| && s.bufs[a].holder == w.pid && s.bufs[a].dev == ROOTDEV && s.bufs[a].valid
  }

  /** The second buffer of a transfer, which the header does not have. */
  ghost predicate Seconded(w: Job, s: State, a: nat, b: nat) {
    if IsHead(w, s.j) then b == a
    else Index(w, s.j) < |w.t.lh| && Holding(w, s.bufs, w.t.lh[Index(w, s.j)], b) && a != b
  }

  ghost predicate Inv(w: Job, s: State) {
    && JobOk(w) && DiskOk(w, s) && BufsOk(w, s) && PinsOk(w, s.bufs, Pending(w, Writes(s))) && PointOk(w, s)
  }

  // ------------------------------------------------ one buffer changes

  /** The pin of a buffer is as it was. */
  predicate SamePin(b: Buf, b': Buf) {
    b'.dirty == b.dirty && (b.dirty ==> b'.dev == b.dev && b'.blockno == b.blockno && b'.data == b.data)
  }

  /** What commit() knows of a buffer it refers to is as it was. */
  predicate SameHold(w: Job, b: Buf, b': Buf) {
    && b'.dev == b.dev && b'.blockno == b.blockno && (b.valid ==> b'.valid)
    && (b'.holder == w.pid <==> b.holder == w.pid)
  }

  lemma BufsMoved(w: Job, s: State, k: nat, b: Buf, s': State)
    requires BufsOk(w, s) && k < NBUF && s'.bufs == s.bufs[k := b] && s'.disk == s.disk
    requires BufOk(w, s.disk, b, k in Mine(s'.at))
    requires forall h :: h != k ==> (h in Mine(s'.at) <==> h in Mine(s.at))
    requires b.dev == ROOTDEV ==> Alone(s.bufs, b.blockno, k)
    ensures BufsOk(w, s')
  {
    forall h | 0 <= h < NBUF && s'.bufs[h].dev == ROOTDEV ensures Alone(s'.bufs, s'.bufs[h].blockno, h) {
      forall g | 0 <= g < NBUF && g != h ensures !Cached(s'.bufs, s'.bufs[h].blockno, g) {
        if h != k && g != k {
          assert Alone(s.bufs, s.bufs[h].blockno, h) && !Cached(s.bufs, s.bufs[h].blockno, g);
        } else if h != k {
          assert !Cached(s.bufs, b.blockno, h) || b.dev != ROOTDEV;
        } else {
          assert !Cached(s.bufs, b.blockno, g);
        }
      }
    }
  }

  lemma PinsMoved(w: Job, bufs: seq<Buf>, k: nat, b: Buf, from: nat)
    requires HostsOk(w) && |bufs| == NBUF && PinsOk(w, bufs, from) && k < NBUF && SamePin(bufs[k], b)
    ensures PinsOk(w, bufs[k := b], from)
  {
  }

  lemma PointMoved(w: Job, s: State, k: nat, b: Buf, s': State)
    requires PointOk(w, s) && BufsOk(w, s) && k < NBUF && s' == s.(bufs := s.bufs[k := b])
    requires k in Mine(s.at) ==> SameHold(w, s.bufs[k], b)
    ensures PointOk(w, s')
  {
  }

  /** A reader has changed buffer k. */
  lemma Touched(w: Job, s: State, k: nat, b: Buf, s': State)
    requires Inv(w, s) && k < NBUF && s' == s.(bufs := s.bufs[k := b]) && BufOk(w, s.disk, b, k in Mine(s.at))
    requires SamePin(s.bufs[k], b) && (k in Mine(s.at) ==> SameHold(w, s.bufs[k], b))
    requires b.dev == ROOTDEV ==> Alone(s.bufs, b.blockno, k)
    ensures Inv(w, s')
  {
    BufsMoved(w, s, k, b, s');
    PinsMoved(w, s.bufs, k, b, Pending(w, Writes(s)));
    PointMoved(w, s, k, b, s');
  }

  lemma GetAlone(bufs: seq<Buf>, bn: nat, k: nat)
    requires Unique(bufs) && CanGet(bufs, bn, k)
    ensures Alone(bufs, bn, k)
  {
    if Cached(bufs, bn, k) {
      assert bufs[k].dev == ROOTDEV;
    }
  }

  lemma ReaderKeeps(w: Job, s: State, step: Step, s': State)
    requires Inv(w, s) && Enabled(w, s, step) && !step.Commit? && s' == Apply(w, s, step)
    ensures Inv(w, s')
  {
    var k := step.k;
    var b, mine := s.bufs[k], k in Mine(s.at);
    assert BufOk(w, s.disk, b, mine);
    match step {
      case Get(bn, _) =>
        GetAlone(s.bufs, bn, k);
        GetOk(w, s.disk, b, mine, bn);
      case Lock(_, pid) =>
        assert Alone(s.bufs, b.blockno, k);
        LockOk(w, s.disk, b, mine, pid);
      case Put(_) =>
        assert Alone(s.bufs, b.blockno, k);
        PutOk(w, s.disk, b, mine);
    }
    Touched(w, s, k, s'.bufs[k], s');
  }

  lemma PutOk(w: Job, disk: Disk, b: Buf, mine: bool)
    requires BufOk(w, disk, b, mine) && b.holder != 0 && b.holder != w.pid && w.pid != 0
    ensures var b' := DroppedBuf(b);
      BufOk(w, disk, b', mine) && SamePin(b, b') && (mine ==> SameHold(w, b, b'))
  {
  }

  lemma GetOk(w: Job, disk: Disk, b: Buf, mine: bool, bn: nat)
    requires BufOk(w, disk, b, mine) && bn < |disk| && !InLog(w.l, bn) && w.pid != 0
    requires (b.dev == ROOTDEV && b.blockno == bn) || Free(b)
    ensures BufOk(w, disk, GotBuf(b, bn), mine) && SamePin(b, GotBuf(b, bn)) && (mine ==> SameHold(w, b, GotBuf(b, bn)))
  {
  }

  lemma LockOk(w: Job, disk: Disk, b: Buf, mine: bool, pid: nat)
    requires BufOk(w, disk, b, mine) && pid != 0 && pid != w.pid && b.holder == 0 && w.pid != 0
    requires b.refcnt > if mine then 1 else 0
    ensures var b' := LockedBuf(b, disk, pid);
      BufOk(w, disk, b', mine) && SamePin(b, b') && (mine ==> SameHold(w, b, b'))
  {
  }

  // ------------------------------------------------ the steps of commit()

  lemma FirstKeeps(w: Job, s: State, k: nat, s': State)
    requires Inv(w, s) && s.at.First? && CommitEnabled(w, s, k) && s' == CommitStep(w, s, k)
    ensures Inv(w, s')
  {
    var x := LogBlock(w, s.j);
    assert BufOk(w, s.disk, s.bufs[k], false);
    GetAlone(s.bufs, x, k);
    LogBlockInLog(w, s.j);
    BufsMoved(w, s, k, s'.bufs[k], s');
    PinsMoved(w, s.bufs, k, s'.bufs[k], Pending(w, Writes(s)));
  }

  lemma LogBlockInLog(w: Job, j: nat)
    requires TransactionOk(w.d, w.l, w.t) && j < 2 * |w.t.lh| + 2
    ensures InLog(w.l, LogBlock(w, j)) && LogBlock(w, j) < |w.d|
    ensures !IsHead(w, j) ==> Index(w, j) < |w.t.lh|
  {
  }

  lemma Lock1Keeps(w: Job, s: State, k: nat, s': State)
    requires Inv(w, s) && s.at.Lock1? && CommitEnabled(w, s, k) && s' == CommitStep(w, s, k)
    ensures Inv(w, s')
  {
    var a := s.at.a;
    assert BufOk(w, s.disk, s.bufs[a], true);
    assert Alone(s.bufs, s.bufs[a].blockno, a);
    BufsMoved(w, s, a, s'.bufs[a], s');
    PinsMoved(w, s.bufs, a, s'.bufs[a], Pending(w, Writes(s)));
  }

  /** The block that a transfer still has to move is pinned, and so cached. */
  lemma SecondIsHost(w: Job, s: State, i: nat)
    requires Inv(w, s) && s.j < 2 * |w.t.lh| + 2 && !IsHead(w, s.j) && i == Index(w, s.j) && Writes(s) == s.j
    ensures i < |w.t.lh| && PinnedFor(w, s.bufs[w.host[i]], i) && IsCached(s.bufs, w.t.lh[i])
    ensures forall k :: CanGet(s.bufs, w.t.lh[i], k) ==> k == w.host[i]
    ensures forall k :: Cached(s.bufs, w.t.lh[i], k) ==> k == w.host[i]
  {
    LogBlockInLog(w, s.j);
    var h := w.host[i];
    assert Cached(s.bufs, w.t.lh[i], h);
    assert Alone(s.bufs, s.bufs[h].blockno, h);
  }

  lemma SecondKeeps(w: Job, s: State, k: nat, s': State)
    requires Inv(w, s) && s.at.Second? && CommitEnabled(w, s, k) && s' == CommitStep(w, s, k)
    ensures Inv(w, s')
  {
    var a, i := s.at.a, Index(w, s.j);
    SecondIsHost(w, s, i);
    LogBlockInLog(w, s.j);
    assert k == w.host[i] && k != a;
    assert BufOk(w, s.disk, s.bufs[k], false);
    GetAlone(s.bufs, w.t.lh[i], k);
    BufsMoved(w, s, k, s'.bufs[k], s');
    PinsMoved(w, s.bufs, k, s'.bufs[k], Pending(w, Writes(s)));
  }

  lemma Lock2Keeps(w: Job, s: State, k: nat, s': State)
    requires Inv(w, s) && s.at.Lock2? && CommitEnabled(w, s, k) && s' == CommitStep(w, s, k)
    ensures Inv(w, s')
  {
    var a, b := s.at.a, s.at.b;
    LogBlockInLog(w, s.j);
    assert a != b;
    assert BufOk(w, s.disk, s.bufs[b], true);
    assert Alone(s.bufs, s.bufs[b].blockno, b);
    BufsMoved(w, s, b, s'.bufs[b], s');
    PinsMoved(w, s.bufs, b, s'.bufs[b], Pending(w, Writes(s)));
  }

  lemma DropKeeps(w: Job, s: State, k: nat, s': State)
    requires Inv(w, s) && s.at.Drop? && CommitEnabled(w, s, k) && s' == CommitStep(w, s, k)
    ensures Inv(w, s')
  {
    var x := if Installing(w, s.j) then s.at.a else s.at.b;
    assert BufOk(w, s.disk, s.bufs[x], true);
    assert Alone(s.bufs, s.bufs[x].blockno, x);
    BufsMoved(w, s, x, s'.bufs[x], s');
    PinsMoved(w, s.bufs, x, s'.bufs[x], Pending(w, Writes(s)));
  }

  lemma LastKeeps(w: Job, s: State, k: nat, s': State)
    requires Inv(w, s) && s.at.Last? && CommitEnabled(w, s, k) && s' == CommitStep(w, s, k)
    ensures Inv(w, s')
  {
    var a := s.at.a;
    assert BufOk(w, s.disk, s.bufs[a], true);
    assert Alone(s.bufs, s.bufs[a].blockno, a);
    BufsMoved(w, s, a, s'.bufs[a], s');
    PinsMoved(w, s.bufs, a, s'.bufs[a], Pending(w, Writes(s)));
  }

  // ------------------------------------------------ the disk writes

  /** A block of the log is never pinned, so its buffer holds what the disk does. */
  lemma LogIsClean(w: Job, s: State, x: nat, a: nat)
    requires Inv(w, s) && InLog(w.l, x) && Holding(w, s.bufs, x, a)
    ensures !s.bufs[a].dirty && x < |s.disk| && s.bufs[a].data == s.disk[x]
  {
    assert BufOk(w, s.disk, s.bufs[a], a in Mine(s.at));
  }

  /** The second buffer of a transfer is still pinned, with the block's new contents. */
  lemma SecondIsPinned(w: Job, s: State, i: nat, b: nat)
    requires Inv(w, s) && s.j < 2 * |w.t.lh| + 2 && !IsHead(w, s.j) && i == Index(w, s.j) && Writes(s) == s.j
    requires i < |w.t.lh| && Holding(w, s.bufs, w.t.lh[i], b)
    ensures b == w.host[i] && PinnedFor(w, s.bufs[b], i)
  {
    SecondIsHost(w, s, i);
  }

  /** Buffer x has been filled and written. */
  lemma BufsWritten(w: Job, s: State, x: nat, data: Block, at: Point, s': State)
    requires BufsOk(w, s) && x < NBUF && s.bufs[x].dev == ROOTDEV && s.bufs[x].valid && s.bufs[x].blockno < |s.disk|
    requires s' == WriteOut(s, x, data, at) && Mine(at) == Mine(s.at)
    ensures BufsOk(w, s')
  {
    var bn := s.bufs[x].blockno;
    assert Alone(s.bufs, bn, x);
    forall k | 0 <= k < NBUF ensures BufOk(w, s'.disk, s'.bufs[k], k in Mine(s'.at)) {
      assert BufOk(w, s.disk, s.bufs[k], k in Mine(s.at));
      assert k != x ==> !Cached(s.bufs, bn, k);
    }
    forall h | 0 <= h < NBUF && s'.bufs[h].dev == ROOTDEV ensures Alone(s'.bufs, s'.bufs[h].blockno, h) {
      assert Alone(s.bufs, s.bufs[h].blockno, h);
      forall g | 0 <= g < NBUF && g != h ensures !Cached(s'.bufs, s'.bufs[h].blockno, g) {
        assert !Cached(s.bufs, s.bufs[h].blockno, g);
      }
    }
  }

  lemma DiskWritten(w: Job, s: State, x: nat, data: Block, at: Point, s': State)
    requires DiskOk(w, s) && s.j < |w.media| && Writes(s) == s.j && x < |s.bufs| && s.bufs[x].blockno < |s.disk|
    requires s' == WriteOut(s, x, data, at) && (at.Drop? || at.Last?)
    requires s.disk[s.bufs[x].blockno := data] == w.media[s.j]
    ensures DiskOk(w, s')
  {
    assert w.media[..s.j + 1] == w.media[..s.j] + [w.media[s.j]];
  }

  lemma NextMedium(w: Job, s: State)
    requires JobOk(w) && DiskOk(w, s) && s.j < |w.media| && Writes(s) == s.j
    ensures w.media[s.j] == Transfer(w, s.j, s.disk)
  {
    assert MediumOk(w, s.j);
  }

  lemma HeadData(w: Job, s: State, a: nat, data: Block)
    requires Inv(w, s) && s.at == Ready(a, a) && IsHead(w, s.j) && data == NewHead(w, s.j, s.bufs[a].data)
    ensures s.j < |w.media| && s.bufs[a].blockno == w.l.start < |s.disk| && !s.bufs[a].dirty
    ensures s.disk[w.l.start := data] == w.media[s.j]
  {
    LogBlockInLog(w, s.j);
    LogIsClean(w, s, LogBlock(w, s.j), a);
    NextMedium(w, s);
  }

  lemma HeadStored(w: Job, s: State, a: nat, data: Block, s': State)
    requires Inv(w, s) && s.at == Ready(a, a) && IsHead(w, s.j) && s' == WriteOut(s, a, data, Last(a))
    requires s.j < |w.media| && s.bufs[a].blockno == w.l.start < |s.disk| && !s.bufs[a].dirty
    requires s.disk[w.l.start := data] == w.media[s.j]
    ensures Inv(w, s')
  {
    assert Mine(Last(a)) == Mine(s.at);
    BufsWritten(w, s, a, data, Last(a), s');
    DiskWritten(w, s, a, data, Last(a), s');
    PinsMoved(w, s.bufs, a, s'.bufs[a], Pending(w, s.j));
  }

  lemma HeadWritten(w: Job, s: State, k: nat, s': State)
    requires Inv(w, s) && s.at.Ready? && IsHead(w, s.j) && CommitEnabled(w, s, k) && s' == CommitStep(w, s, k)
    ensures Inv(w, s')
  {
    var a, data := s.at.a, NewHead(w, s.j, s.bufs[s.at.a].data);
    HeadData(w, s, a, data);
    HeadStored(w, s, a, data, s');
  }

  lemma LogWritten(w: Job, s: State, k: nat, s': State)
    requires Inv(w, s) && s.at.Ready? && s.j < |w.t.lh| && CommitEnabled(w, s, k) && s' == CommitStep(w, s, k)
    ensures Inv(w, s')
  {
    var a, b, data := s.at.a, s.at.b, Written(w, s, s.at.a, s.at.b);
    LogBlockInLog(w, s.j);
    LogIsClean(w, s, LogBlock(w, s.j), a);
    SecondIsPinned(w, s, s.j, b);
    NextMedium(w, s);
    BufsWritten(w, s, a, data, Drop(a, b), s');
    DiskWritten(w, s, a, data, Drop(a, b), s');
    PinsMoved(w, s.bufs, a, s'.bufs[a], 0);
  }

  /** The pin of block i is gone. */
  lemma PinsShrink(w: Job, bufs: seq<Buf>, i: nat, b: Buf)
    requires HostsOk(w) && |bufs| == NBUF && i < |w.host| && PinsOk(w, bufs, i) && !b.dirty
    ensures PinsOk(w, bufs[w.host[i] := b], i + 1)
  {
    var after := bufs[w.host[i] := b];
    forall k | 0 <= k < NBUF && after[k].dirty ensures IsHost(w, i + 1, k) {
      var m :| i <= m < |w.host| && w.host[m] == k;
      assert m != i;
    }
  }

  lemma HomeWritten(w: Job, s: State, k: nat, s': State)
    requires Inv(w, s) && s.at.Ready? && Installing(w, s.j) && CommitEnabled(w, s, k) && s' == CommitStep(w, s, k)
    ensures Inv(w, s')
  {
    var a, b, data, i := s.at.a, s.at.b, Written(w, s, s.at.a, s.at.b), Index(w, s.j);
    LogBlockInLog(w, s.j);
    LogIsClean(w, s, LogBlock(w, s.j), a);
    SecondIsPinned(w, s, i, b);
    NextMedium(w, s);
    BufsWritten(w, s, b, data, Drop(a, b), s');
    DiskWritten(w, s, b, data, Drop(a, b), s');
    PinsShrink(w, s.bufs, i, s'.bufs[b]);
  }

  /** Every step, of commit() and of the readers, keeps the invariant. */
  lemma StepKeeps(w: Job, s: State, step: Step)
    requires Inv(w, s) && Enabled(w, s, step)
    ensures Inv(w, Apply(w, s, step))
  {
    var s' := Apply(w, s, step);
    if step.Commit? {
      match s.at
      case First => FirstKeeps(w, s, step.k, s');
      case Lock1(_) => Lock1Keeps(w, s, step.k, s');
      case Second(_) => SecondKeeps(w, s, step.k, s');
      case Lock2(_, _) => Lock2Keeps(w, s, step.k, s');
      case Ready(_, _) => ReadyKeeps(w, s, step.k, s');
      case Drop(_, _) => DropKeeps(w, s, step.k, s');
      case Last(_) => LastKeeps(w, s, step.k, s');
    } else {
      ReaderKeeps(w, s, step, s');
    }
  }

  lemma ReadyKeeps(w: Job, s: State, k: nat, s': State)
    requires Inv(w, s) && s.at.Ready? && CommitEnabled(w, s, k) && s' == CommitStep(w, s, k)
    ensures Inv(w, s')
  {
    if IsHead(w, s.j) {
      HeadWritten(w, s, k, s');
    } else if Installing(w, s.j) {
      HomeWritten(w, s, k, s');
    } else {
      LogWritten(w, s, k, s');
    }
  }

  // ------------------------------------------------ whole runs

  ghost predicate RunsTo(w: Job, s: State, steps: seq<Step>, t: State)
    decreases |steps|
  {
    if steps == [] then s == t
    else Enabled(w, s, steps[0]) && RunsTo(w, Apply(w, s, steps[0]), steps[1..], t)
  }

  /** commit() begins, with whatever readers there are. */
  ghost predicate Begins(w: Job, s: State) {
    s.j == 0 && s.at.First? && Inv(w, s)
  }

  lemma {:induction false} RunKeeps(w: Job, s: State, steps: seq<Step>, t: State)
    requires Inv(w, s) && RunsTo(w, s, steps, t)
    ensures Inv(w, t)
    decreases |steps|
  {
    if steps != [] {
      StepKeeps(w, s, steps[0]);
      RunKeeps(w, Apply(w, s, steps[0]), steps[1..], t);
    }
  }

  /** The media that the commit of t leaves are those of the on-disk model. */
  lemma CommitMedia(w: Job)
    requires TransactionOk(w.d, w.l, w.t) && HostsOk(w) && w.media == CommitWrites(w.d, w.l, w.t)
    ensures JobOk(w)
  {
    forall j | 0 <= j < |w.media| ensures MediumOk(w, j) {
      CommitMedium(w, j);
    }
  }

  lemma CommitMedium(w: Job, j: nat)
    requires TransactionOk(w.d, w.l, w.t) && w.media == CommitWrites(w.d, w.l, w.t) && j < 2 * |w.t.lh| + 2
    ensures MediumOk(w, j)
  {
    var n := |w.t.lh|;
    if j < n {
      BeforeHeader(w, j);
    } else if j == n {
      HeaderMedium(w);
    } else {
      var h := MediaRecover(w);
      if j <= 2 * n {
        HomeMedium(w, j, j - n, j - n - 1, h);
      } else {
        ClearedMedium(w, j, h);
      }
    }
  }

  lemma BeforeHeader(w: Job, j: nat)
    requires TransactionOk(w.d, w.l, w.t) && w.media == CommitWrites(w.d, w.l, w.t) && j < |w.t.lh|
    ensures MediumOk(w, j)
  {
    WritesBeforeHeader(w.d, w.l, w.t, j);
    if j > 0 {
      WritesBeforeHeader(w.d, w.l, w.t, j - 1);
    }
    assert Medium(w, j) == LogFilled(w.d, w.l, w.t.values, j);
  }

  lemma HeaderMedium(w: Job)
    requires TransactionOk(w.d, w.l, w.t) && w.media == CommitWrites(w.d, w.l, w.t)
    ensures MediumOk(w, |w.t.lh|)
  {
    var n := |w.t.lh|;
    WritesFromHeader(w.d, w.l, w.t, n);
    if n > 0 {
      WritesBeforeHeader(w.d, w.l, w.t, n - 1);
    }
    assert Medium(w, n) == LogFilled(w.d, w.l, w.t.values, n);
    HeadedFrom(w.d, w.l, w.t, Medium(w, n));
  }

  /** From the header write on the media are those of a recovery from h. */
  ghost predicate Recovers(w: Job, h: Disk) {
    && |w.media| == 2 * |w.t.lh| + 2 && HeaderOk(h, w.l) && |h| == |w.d| && HeadCount(h, w.l) == |w.t.lh|
    && (forall i :: 0 <= i < |w.t.lh| ==> Target(h, w.l, i) == w.t.lh[i])
    && forall j :: |w.t.lh| <= j < |w.media| ==> w.media[j] == RecoverAfter(h, w.l, j - |w.t.lh|)
  }

  lemma MediaRecover(w: Job) returns (h: Disk)
    requires TransactionOk(w.d, w.l, w.t) && w.media == CommitWrites(w.d, w.l, w.t)
    ensures Recovers(w, h)
  {
    h := Headed(w.d, w.l, w.t);
    HeadedOk(w.d, w.l, w.t);
    forall j | |w.t.lh| <= j < |w.media| ensures w.media[j] == RecoverAfter(h, w.l, j - |w.t.lh|) {
      WritesFromHeader(w.d, w.l, w.t, j);
    }
  }

  lemma HomeMedium(w: Job, j: nat, k: nat, i: nat, h: Disk)
    requires TransactionOk(w.d, w.l, w.t) && Recovers(w, h)
    requires i < |w.t.lh| && k == i + 1 && j == |w.t.lh| + k
    ensures MediumOk(w, j)
  {
    var d, x := Install(h, w.l, i), LogBlock(w, j);
    assert !IsHead(w, j) && Installing(w, j) && x == w.l.start + k && Index(w, j) == i;
    InstallNext(h, w.l, w.t, k, i, d);
    assert d[w.t.lh[i] := d[x]] == Transfer(w, j, d);
  }

  lemma InstallNext(h: Disk, l: Layout, t: Transaction, k: nat, i: nat, d: Disk)
    requires HeaderOk(h, l) && HeadCount(h, l) == |t.lh| && i < |t.lh| && k == i + 1 && d == Install(h, l, i)
    requires forall i :: 0 <= i < |t.lh| ==> Target(h, l, i) == t.lh[i]
    ensures |d| == |h| && l.start + k < |h| && t.lh[i] < |h|
    ensures RecoverAfter(h, l, k) == d[t.lh[i] := d[l.start + k]] && RecoverAfter(h, l, i) == d
  {
    assert Target(h, l, i) == t.lh[i];
  }

  lemma ClearedMedium(w: Job, j: nat, h: Disk)
    requires TransactionOk(w.d, w.l, w.t) && Recovers(w, h) && j == 2 * |w.t.lh| + 1
    ensures MediumOk(w, j)
  {
    assert w.media[j - 1] == RecoverAfter(h, w.l, j - 1 - |w.t.lh|);
  }

  /**
   Whatever readers do, the disk writes of a commit are, one by one, those of the on-disk model; when it is done they
   are all made, and every medium on the way recovers to the old contents or to the new ones.
   */
  lemma WritesAsPlanned(w: Job, s: State, steps: seq<Step>, t: State, newest: Disk)
    requires TransactionOk(w.d, w.l, w.t) && w.media == CommitWrites(w.d, w.l, w.t) && |newest| == |w.d|
    requires Begins(w, s) && RunsTo(w, s, steps, t)
    requires forall i :: 0 <= i < |w.t.lh| ==> w.t.values[i] == newest[w.t.lh[i]]
    requires forall b :: 0 <= b < |w.d| && b !in w.t.lh ==> newest[b] == w.d[b]
    ensures Writes(t) <= |w.media| && t.trace == w.media[..Writes(t)] && (t.at.Done? ==> t.trace == w.media)
    ensures t.disk == Medium(w, Writes(t)) && forall m :: m in t.trace ==> OldOrNew(w.l, m, w.d, newest)
  {
    RunKeeps(w, s, steps, t);
    CommitWritesOldOrNew(w.d, w.l, w.t, newest);
  }

  // ------------------------------------------------ when bget() finds no buffer

  /** The pinned buffers. */
  ghost function Pins(s: State): set<nat> {
    set k | 0 <= k < |s.bufs| && s.bufs[k].dirty
  }

  /** The buffers that somebody refers to. */
  ghost function Busy(s: State): set<nat> {
    set k | 0 <= k < |s.bufs| && s.bufs[k].refcnt > 0
  }

  lemma NoneFreeIff(s: State)
    requires |s.bufs| == NBUF
    ensures NoneFree(s.bufs) <==> |Pins(s) + Busy(s)| == NBUF
  {
    var taken := Pins(s) + Busy(s);
    RangeSize(taken, 0, NBUF);
    assert forall k :: 0 <= k < NBUF ==> (k in taken <==> !Free(s.bufs[k]));
  }

  lemma PinsAreListed(w: Job, s: State)
    requires Inv(w, s)
    ensures |Pins(s)| == |w.t.lh| - Pending(w, Writes(s))
  {
    var left := w.host[Pending(w, Writes(s))..];
    ElementsSize<nat>(left);
    forall k | k in Pins(s) ensures k in left {
      var i :| Pending(w, Writes(s)) <= i < |w.host| && w.host[i] == k;
      assert left[i - Pending(w, Writes(s))] == k;
    }
    forall k | k in left ensures k in Pins(s) {
      var i :| 0 <= i < |left| && left[i] == k;
      assert PinnedFor(w, s.bufs[k], i + Pending(w, Writes(s)));
    }
    assert Elements<nat>(left) == Pins(s);
  }

  /**
   When a commit panics, exactly: it is about to read a block of the log that is not cached, and the blocks still to be
   installed and the buffers that readers refer to take up the cache. The home blocks it reads never make it panic.
   */
  lemma PanicIff(w: Job, s: State)
    requires Inv(w, s)
    ensures Panics(w, s) <==>
            s.at.First? && !IsCached(s.bufs, LogBlock(w, s.j)) && |Pins(s) + Busy(s)| == NBUF
    ensures |Pins(s)| == |w.t.lh| - Pending(w, Writes(s))
  {
    NoneFreeIff(s);
    PinsAreListed(w, s);
    if s.at.Second? {
      SecondIsHost(w, s, Index(w, s.j));
    }
  }

  /** So no run panics where the listed blocks and the readers' buffers are fewer than there are buffers. */
  lemma RoomEnough(w: Job, s: State, steps: seq<Step>, t: State)
    requires Begins(w, s) && RunsTo(w, s, steps, t) && |w.t.lh| + |Busy(t)| < NBUF
    ensures !Panics(w, t)
  {
    RunKeeps(w, s, steps, t);
    PanicIff(w, t);
  }

  /** A commit that does not panic can go on, unless it waits for a reader to unlock a listed block. */
  lemma GoesOn(w: Job, s: State)
    requires Inv(w, s) && !s.at.Done? && !Panics(w, s)
    ensures (exists k :: Enabled(w, s, Commit(k))) ||
            (s.at.Lock2? && s.bufs[s.at.b].holder != 0 && s.bufs[s.at.b].holder != w.pid)
  {
    if s.at.First? {
      FirstGoesOn(w, s);
    } else if s.at.Lock1? {
      LogBlockInLog(w, s.j);
      assert BufOk(w, s.disk, s.bufs[s.at.a], true);
      assert Enabled(w, s, Commit(0));
    } else if s.at.Second? {
      var i := Index(w, s.j);
      SecondIsHost(w, s, i);
      assert Enabled(w, s, Commit(w.host[i]));
    } else if s.at.Lock2? {
      assert s.bufs[s.at.b].holder == 0 ==> Enabled(w, s, Commit(0));
    } else {
      assert Enabled(w, s, Commit(0));
    }
  }

  lemma FirstGoesOn(w: Job, s: State)
    requires s.at.First? && !Panics(w, s)
    ensures exists k :: Enabled(w, s, Commit(k))
  {
    var x := LogBlock(w, s.j);
    if IsCached(s.bufs, x) {
      var k :| 0 <= k < |s.bufs| && Cached(s.bufs, x, k);
      assert Enabled(w, s, Commit(k));
    } else {
      var k :| 0 <= k < |s.bufs| && Free(s.bufs[k]);
      assert Enabled(w, s, Commit(k));
    }
  }

  /** A reader's bget() panics exactly if its block is not cached and commit() and readers take up the cache. */
  lemma ReaderPanicIff(w: Job, s: State, bn: nat)
    requires Inv(w, s)
    ensures GetPanics(s.bufs, bn) <==> !IsCached(s.bufs, bn) && |Pins(s) + Busy(s)| == NBUF
  {
    NoneFreeIff(s);
  }

  // ------------------------------------------------ a reader that comes too soon

  lemma Then(w: Job, s: State, step: Step, rest: seq<Step>, t: State)
    requires Enabled(w, s, step) && RunsTo(w, Apply(w, s, step), rest, t)
    ensures RunsTo(w, s, [step] + rest, t)
  {
    assert ([step] + rest)[1..] == rest;
  }

  /** All buffers but f are pinned, and nobody refers to any. */
  ghost predicate AllButOne(w: Job, s: State, f: nat) {
    && Begins(w, s) && f < NBUF && |w.t.lh| > 1 && !s.bufs[f].dirty
    && (forall k :: 0 <= k < NBUF ==> s.bufs[k].refcnt == 0 && s.bufs[k].holder == 0 && (k != f ==> s.bufs[k].dirty))
  }

  /** Buffer f after the first transfer: free again, with the first block of the log. */
  ghost predicate Returned(w: Job, b: Buf) {
    b.dev == ROOTDEV && b.blockno == w.l.start + 1 && b.refcnt == 0 && b.holder == 0 && !b.dirty
  }

  lemma NotTheFirst(w: Job, s: State, f: nat)
    requires AllButOne(w, s, f)
    ensures forall k :: 0 <= k < NBUF && k != f ==> s.bufs[k].dev == ROOTDEV && s.bufs[k].blockno in w.t.lh
    ensures forall k :: 0 <= k < NBUF && k != f ==> !InLog(w.l, s.bufs[k].blockno)
    ensures w.host[0] != f && CanGet(s.bufs, w.l.start + 1, f)
  {
    var x := w.l.start + 1;
    forall k | 0 <= k < NBUF && k != f
      ensures s.bufs[k].dev == ROOTDEV && s.bufs[k].blockno in w.t.lh && !InLog(w.l, s.bufs[k].blockno)
    {
      assert Pending(w, Writes(s)) == 0 && IsHost(w, 0, k);
      var i :| 0 <= i < |w.host| && w.host[i] == k;
      assert PinnedFor(w, s.bufs[k], i);
    }
    assert PinnedFor(w, s.bufs[w.host[0]], 0);
    if !Cached(s.bufs, x, f) {
      forall k | 0 <= k < NBUF ensures !Cached(s.bufs, x, k) {
        assert InLog(w.l, x);
      }
      assert Free(s.bufs[f]);
    }
  }

  /** bread() of the first block of the log. */
  lemma FirstTaken(w: Job, s: State, f: nat) returns (t: State)
    requires AllButOne(w, s, f)
    ensures RunsTo(w, s, [Commit(f)] + ([Commit(f)] + []), t) && Inv(w, t)
    ensures t.at == Second(f) && t.j == 0 && t.trace == []
    ensures t.bufs[f].refcnt == 1 && t.bufs[f].dev == ROOTDEV && t.bufs[f].blockno == w.l.start + 1
    ensures !t.bufs[f].dirty && forall k :: 0 <= k < NBUF && k != f ==> t.bufs[k] == s.bufs[k]
  {
    NotTheFirst(w, s, f);
    var s1 := Apply(w, s, Commit(f));
    StepKeeps(w, s, Commit(f));
    t := Apply(w, s1, Commit(f));
    StepKeeps(w, s1, Commit(f));
    assert RunsTo(w, t, [], t);
    Then(w, s1, Commit(f), [], t);
    Then(w, s, Commit(f), [Commit(f)] + [], t);
  }

  /** Undisturbed, the first transfer uses the one free buffer and gives it back. */
  lemma FirstTransfer(w: Job, s: State, f: nat) returns (steps: seq<Step>, t: State)
    requires AllButOne(w, s, f)
    ensures RunsTo(w, s, steps, t) && t.j == 1 && t.at.First? && |t.trace| == 1 && |t.disk| == |w.d|
    ensures |t.bufs| == NBUF && Returned(w, t.bufs[f])
    ensures forall k :: 0 <= k < NBUF && k != f ==> t.bufs[k] == s.bufs[k]
  {
    NotTheFirst(w, s, f);
    var h := w.host[0];
    assert PinnedFor(w, s.bufs[h], 0);
    var s2 := FirstTaken(w, s, f);
    var rest;
    rest, t := FirstTransferOn(w, s, f, h, s2);
    RunsToConcat(w, s, [Commit(f)] + ([Commit(f)] + []), s2, rest, t);
    steps := [Commit(f)] + ([Commit(f)] + []) + rest;
  }

  lemma FirstTransferOn(w: Job, s: State, f: nat, h: nat, s2: State) returns (steps: seq<Step>, t: State)
    requires AllButOne(w, s, f) && h == w.host[0] && h != f && Inv(w, s2) && s2.at == Second(f) && s2.j == 0
    requires s2.trace == [] && PinnedFor(w, s.bufs[h], 0)
    requires s2.bufs[f].refcnt == 1 && s2.bufs[f].dev == ROOTDEV && s2.bufs[f].blockno == w.l.start + 1
    requires !s2.bufs[f].dirty && forall k :: 0 <= k < NBUF && k != f ==> s2.bufs[k] == s.bufs[k]
    ensures RunsTo(w, s2, steps, t) && t.j == 1 && t.at.First? && |t.trace| == 1 && |t.disk| == |w.d|
    ensures |t.bufs| == NBUF && Returned(w, t.bufs[f])
    ensures forall k :: 0 <= k < NBUF && k != f ==> t.bufs[k] == s.bufs[k]
  {
    var go := Commit(h);
    var s3 := Apply(w, s2, go);
    var s4 := Apply(w, s3, go);
    assert BufOk(w, s2.disk, s2.bufs[h], false);
    assert s4.bufs[h] == s.bufs[h].(refcnt := 1, holder := w.pid);
    var rest;
    rest, t := WriteAndDrop(w, s, f, h, s4);
    Then(w, s3, go, rest, t);
    Then(w, s2, go, [go] + rest, t);
    steps := [go] + ([go] + rest);
  }

  lemma WriteAndDrop(w: Job, s: State, f: nat, h: nat, s4: State) returns (steps: seq<Step>, t: State)
    requires |s.bufs| == |s4.bufs| == NBUF && f < NBUF && h < NBUF && f != h && 1 < |w.t.lh| <= LOGSIZE
    requires s4.at == Ready(f, h) && s4.j == 0 && s4.trace == [] && |s4.disk| == |w.d|
    requires s4.bufs[f].refcnt == 1 && s4.bufs[f].dev == ROOTDEV && s4.bufs[f].blockno == w.l.start + 1
    requires s.bufs[h].refcnt == 0 && s.bufs[h].holder == 0 && s4.bufs[h] == s.bufs[h].(refcnt := 1, holder := w.pid)
    requires forall k :: 0 <= k < NBUF && k != f && k != h ==> s4.bufs[k] == s.bufs[k]
    ensures RunsTo(w, s4, steps, t) && t.j == 1 && t.at.First? && |t.trace| == 1 && |t.disk| == |w.d|
    ensures |t.bufs| == NBUF && Returned(w, t.bufs[f])
    ensures forall k :: 0 <= k < NBUF && k != f ==> t.bufs[k] == s.bufs[k]
  {
    var go := Commit(h);
    var s5 := Apply(w, s4, go);
    var s6 := Apply(w, s5, go);
    t := Apply(w, s6, go);
    assert RunsTo(w, t, [], t);
    Then(w, s6, go, [], t);
    Then(w, s5, go, [go] + [], t);
    Then(w, s4, go, [go] + ([go] + []), t);
    steps := [go] + ([go] + ([go] + []));
  }

  /**
   With one free buffer the commit does not panic at the start. But if a process then reads any block that is not
   listed, it takes the buffer between two rounds of write_log(), and the commit panics with a log block written.
   */
  lemma ReaderInBetween(w: Job, s: State, f: nat, x: nat)
    requires AllButOne(w, s, f) && x < |w.d| && !InLog(w.l, x) && x !in w.t.lh
    ensures !Panics(w, s)
    ensures exists steps, t :: RunsTo(w, s, steps, t) && Panics(w, t) && |t.trace| == 1
  {
    NotTheFirst(w, s, f);
    var steps, s7 := FirstTransfer(w, s, f);
    NotYetCached(w, s, f, x, s7);
    var t := Apply(w, s7, Get(x, f));
    assert RunsTo(w, t, [], t);
    Then(w, s7, Get(x, f), [], t);
    RunsToConcat(w, s, steps, s7, [Get(x, f)] + [], t);
    SecondPanics(w, s, f, x, t);
  }

  lemma NotYetCached(w: Job, s: State, f: nat, x: nat, t: State)
    requires AllButOne(w, s, f) && !InLog(w.l, x) && x !in w.t.lh && |t.bufs| == NBUF && Returned(w, t.bufs[f])
    requires forall k :: 0 <= k < NBUF && k != f ==> t.bufs[k] == s.bufs[k]
    ensures CanGet(t.bufs, x, f)
  {
    NotTheFirst(w, s, f);
    forall k | 0 <= k < NBUF ensures !Cached(t.bufs, x, k) {
      assert k != f ==> s.bufs[k].blockno in w.t.lh;
    }
    assert InLog(w.l, w.l.start + 1);
  }

  lemma SecondPanics(w: Job, s: State, f: nat, x: nat, t: State)
    requires AllButOne(w, s, f) && !InLog(w.l, x) && t.j == 1 && t.at.First? && |t.bufs| == NBUF
    requires t.bufs[f].blockno == x && t.bufs[f].refcnt > 0
    requires forall k :: 0 <= k < NBUF && k != f ==> t.bufs[k] == s.bufs[k]
    ensures Panics(w, t)
  {
    NotTheFirst(w, s, f);
    LogBlockInLog(w, 1);
  }

  lemma {:induction false} RunsToConcat(w: Job, s: State, a: seq<Step>, t: State, b: seq<Step>, u: State)
    requires RunsTo(w, s, a, t) && RunsTo(w, t, b, u)
    ensures RunsTo(w, s, a + b, u)
    decreases |a|
  {
    if a == [] {
      assert a + b == b;
    } else {
      assert (a + b)[1..] == a[1..] + b;
      RunsToConcat(w, Apply(w, s, a[0]), a[1..], t, b, u);
    }
  }
}

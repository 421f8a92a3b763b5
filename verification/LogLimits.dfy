/** Two ways to the panic of bget() in a commit, from boot. */
module LogLimits {
  import opened Common
  import opened Bytes
  import opened BufferCache
  import opened LogDisk
  import L = Log

  /** A medium with an empty log of `size` blocks at `start`, and `count` more blocks from `first` on behind it. */
  ghost predicate Room(medium: seq<Block>, start: nat, size: nat, first: nat, count: nat) {
    && |medium| < UINT_LIMIT && 1 <= size && start + size <= first && first + count <= |medium|
    && Word(medium[start], 0) == 0
  }

  /** The blocks first, first + 1, ..., first + k - 1. */
  ghost function Run(first: nat, k: nat): (r: seq<nat>)
    ensures |r| == k && forall i :: 0 <= i < k ==> r[i] == first + i
  {
    seq(k, i => first + i)
  }

  /** Calls are open, and blocks first .. first + k are listed; nobody refers to a buffer. */
  ghost predicate Listed(log: L.Log, first: nat, k: nat)
    reads log, log.block, log.cache, log.cache.disk, log.cache.buf, log.cache.next, log.cache.prev
  {
    && log.Valid() && log.Gathering() && log.cache.Quiet() && log.outstanding == 3 && !log.committing
    && log.Lh() == Run(first, k)
  }

  /** Boot, and three calls that begin. */
  method Open(medium: seq<Block>, start: nat, size: nat, ghost first: nat, ghost count: nat) returns (log: L.Log)
    requires Room(medium, start, size, first, count)
    ensures Listed(log, first, 0) && log.start == start && log.size == size && log.cache.disk[..] == medium
    ensures fresh(log) && fresh(log.block) && fresh(log.cache) && fresh(log.cache.disk) && fresh(log.cache.buf)
    ensures fresh(log.cache.next) && fresh(log.cache.prev)
  {
    var cache := new Cache(medium);
    log := new L.Log(cache, start, size);
    assert forall bn :: !cache.Dirty(bn);
    var a := log.BeginOp();
    var b := log.BeginOp();
    var c := log.BeginOp();
  }

  lemma RunGrows(first: nat, k: nat, next: nat, bn: nat)
    requires bn == first + k && next == k + 1
    ensures bn !in Run(first, k) && Run(first, next) == Run(first, k) + [bn]
  {
  }

  lemma ClosedQuiet(log: L.Log, was: seq<Buf>, bn: nat)
    requires log.cache.Valid() && log.Closed(was, bn) && forall i :: 0 <= i < NBUF ==> was[i].refcnt == 0
    ensures log.cache.Quiet()
  {
  }

  /** One more block is written and listed. */
  method ListNext(log: L.Log, pid: nat, ghost first: nat, ghost k: nat, ghost next: nat, bn: nat, data: Block)
    requires Listed(log, first, k) && pid != 0 && bn == first + k && bn < log.cache.disk.Length && next == k + 1
    requires log.start + log.size <= first && k < LOGSIZE && k + 1 < log.size && k < NBUF
    modifies log`n, log.block, log.cache`where, log.cache`order, log.cache.buf, log.cache.next, log.cache.prev
    ensures Listed(log, first, next)
  {
    log.SpareBuffer(log.Lh(), {});
    log.QuietAlone(pid);
    RunGrows(first, k, next, bn);
    ghost var was := log.cache.buf[..];
    var ok := log.UpdateBlock(pid, bn, data);
    ClosedQuiet(log, was, bn);
  }

  method ListBlocks(log: L.Log, pid: nat, first: nat, count: nat)
    requires Listed(log, first, 0) && pid != 0 && log.start + log.size <= first &&
             first + count <= log.cache.disk.Length
    requires count <= LOGSIZE && count < log.size && count <= NBUF
    modifies log`n, log.block, log.cache`where, log.cache`order, log.cache.buf, log.cache.next, log.cache.prev
    ensures Listed(log, first, count)
  {
    var k := 0;
    while k < count
      invariant k <= count && Listed(log, first, k)
    {
      var next, bn := k + 1, first + k;
      ListNext(log, pid, first, k, next, bn, ZeroBlock());
      k := next;
    }
  }

  /** Something is listed, and no buffer can be recycled. */
  ghost predicate Jammed(log: L.Log, pid: nat)
    reads log, log.block, log.cache, log.cache.disk, log.cache.buf, log.cache.next, log.cache.prev
  {
    log.Valid() && log.Gathering() && log.Alone(pid) && log.cache.NoneAvailable() && log.n > 0 && !log.committing
  }

  method EndNotLast(log: L.Log, pid: nat)
    requires Jammed(log, pid) && log.outstanding > 1 && pid != 0
    modifies log, log.cache, log.cache.buf, log.cache.disk, log.cache.next, log.cache.prev
    ensures Jammed(log, pid) && log.outstanding == old(log.outstanding) - 1
  {
    var ok := log.EndOp(pid);
  }

  /** The three calls end; the last end_op() panics in the commit. */
  method EndThree(log: L.Log, pid: nat) returns (ok: bool)
    requires Jammed(log, pid) && log.outstanding == 3 && pid != 0
    modifies log, log.cache, log.cache.buf, log.cache.disk, log.cache.next, log.cache.prev
    ensures !ok
  {
    EndNotLast(log, pid);
    EndNotLast(log, pid);
    ok := log.EndOp(pid);
  }

  lemma FullIsJammed(log: L.Log, pid: nat, first: nat)
    requires Listed(log, first, NBUF) && pid != 0
    ensures Jammed(log, pid)
  {
    log.QuietAlone(pid);
    log.NoSpareIff(log.Lh(), {});
  }

  /**
   30 listed blocks, which a log of more than 31 blocks admits, fill the cache: the commit finds no buffer for the first
   block of the log, and end_op() panics.
   */
  method ThirtyListed(medium: seq<Block>, start: nat, size: nat, first: nat) returns (ok: bool)
    requires Room(medium, start, size, first, NBUF) && size > NBUF + 1
    ensures !ok
  {
    var log := Open(medium, start, size, first, NBUF);
    ListBlocks(log, 1, first, NBUF);
    FullIsJammed(log, 1, first);
    ok := EndThree(log, 1);
  }

  /** Reader b holds a buffer for block x; nobody else refers to any. */
  lemma ReaderTakesLast(log: L.Log, pid: nat, reader: nat, was: seq<Buf>, b: nat, x: nat)
    requires log.Valid() && log.Gathering() && log.Opened(reader, was, b, x) &&
             log.cache.buf[b].data == log.cache.disk[x]
    requires reader != 0 && pid != 0 && reader != pid && x !in log.Lh() && log.n == NBUF - 1 && !InLog(log.L(), x)
    requires b in log.readers && forall i :: 0 <= i < NBUF ==> was[i].refcnt == 0 && was[i].holder == 0
    ensures log.Alone(pid) && log.cache.NoneAvailable()
  {
    assert !log.cache.Dirty(x);
    log.NoSpareIff(log.Lh(), {b});
  }

  /** A process outside any call reads block x: the last buffer that is not listed is taken. */
  method ReadOne(log: L.Log, pid: nat, reader: nat, ghost first: nat, ghost k: nat, x: nat) returns (b: nat)
    requires Listed(log, first, k) && k == NBUF - 1 && reader != 0 && pid != 0 && reader != pid
    requires log.start + log.size <= first && x == first + k < log.cache.disk.Length
    modifies log`readers, log.cache`where, log.cache.buf
    ensures Jammed(log, pid) && log.outstanding == 3 && log.n == k
    ensures b < NBUF && log.cache.Holds(reader, b, x)
  {
    ghost var was := log.cache.buf[..];
    log.SpareBuffer(log.Lh(), {});
    log.QuietAlone(reader);
    RunGrows(first, k, k + 1, x);
    assert !log.cache.Dirty(x);
    log.cache.CleanViewIsDisk(reader, x);
    var r := log.Open(reader, was, x);
    b := r.value;
    log.readers := log.readers + {b};
    ReaderTakesLast(log, pid, reader, was, b, x);
  }

  /**
   29 listed blocks, all that the log mkfs makes admits, and one process that reads any other block without a call
   around it, as fileread() does: the commit finds no buffer, and end_op() panics although 29 < NBUF.
   */
  method TwentyNineAndReader(medium: seq<Block>, start: nat, first: nat) returns (ok: bool)
    requires Room(medium, start, LOGSIZE, first, NBUF)
    ensures !ok
  {
    var k := NBUF - 1;
    var log := Open(medium, start, LOGSIZE, first, NBUF);
    ListBlocks(log, 1, first, k);
    var b := ReadOne(log, 1, 2, first, k, first + k);
    ok := EndThree(log, 1);
  }
}

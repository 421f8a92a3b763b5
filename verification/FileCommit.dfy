/**
 filewrite() all the way down: the file system of fs.c, whose calls end in the log of log.c, over the buffer cache and
 the disk. Wherever the machine stops, a boot finds the file with a whole number of chunks written.
 */
module FileCommit {
  import opened Common
  import opened Bytes
  import opened Updates
  import opened FsState
  import opened Files
  import opened FreeSpace
  import opened CrashFiles
  import D = LogDisk
  import F = FileSystem
  import L = Log
  import C = BufferCache
  import S = LogSpace

  /** Between two calls of process pid: the disk holds the blocks of the file system, and its log lies below them. */
  ghost predicate Joined(fs: F.FileSystem, log: L.Log, pid: nat)
    reads fs, log, log.block, log.cache, log.cache.disk, log.cache.buf, log.cache.next, log.cache.prev
  {
    Ready(log, pid, fs.Now(), fs.owner)
  }

  /** The same, for the file system as a value. */
  ghost predicate Ready(log: L.Log, pid: nat, fs: Fs, o: map<nat, Slot>)
    reads log, log.block, log.cache, log.cache.disk, log.cache.buf, log.cache.next, log.cache.prev
  {
    && log.Idle() && log.Alone(pid) && pid != 0 && MAXOPBLOCKS + 1 < log.size && |log.readers| + MAXOPBLOCKS < C.NBUF
    && Sound(fs, o) && log.start + log.size <= fs.g.inodestart
    && AgreeFrom(fs.blocks, log.cache.disk[..], fs.g.inodestart)
  }

  /** Stop the machine right after medium w was written, and any boots in recovery: a boot finds one of two states. */
  ghost predicate FindsEither(l: D.Layout, w: D.Disk, fs: Fs, o: map<nat, Slot>, fs': Fs, o': map<nat, Slot>) {
    && D.HeaderOk(w, l)
    && forall crashes :: FindsAfter(l, w, crashes, fs, o) || FindsAfter(l, w, crashes, fs', o')
  }

  ghost predicate FindsAfter(l: D.Layout, w: D.Disk, crashes: seq<nat>, fs: Fs, o: map<nat, Slot>)
    requires D.HeaderOk(w, l)
  {
    Finds(D.Recovered(D.CrashedBoots(w, l, crashes), l), fs, o)
  }

  lemma HomeFinds(l: D.Layout, w: D.Disk, crashes: seq<nat>, d: D.Disk, fs: Fs, o: map<nat, Slot>)
    requires D.HeaderOk(w, l) && D.SameHome(l, D.Committed(w, l), d) && l.start + l.size <= fs.g.inodestart
    requires Sound(fs, o) && AgreeFrom(fs.blocks, d, fs.g.inodestart)
    ensures FindsAfter(l, w, crashes, fs, o)
  {
    var r := D.Recovered(D.CrashedBoots(w, l, crashes), l);
    D.RecoverySurvivesCrashes(w, l, crashes);
    assert AgreeFrom(fs.blocks, r, fs.g.inodestart);
    MountedSound(fs, o, r);
  }

  lemma OldOrNewFinds(l: D.Layout, w: D.Disk, d: D.Disk, d': D.Disk,
                      fs: Fs, o: map<nat, Slot>, fs': Fs, o': map<nat, Slot>)
    requires D.OldOrNew(l, w, d, d') && l.start + l.size <= fs.g.inodestart && fs'.g == fs.g
    requires Sound(fs, o) && AgreeFrom(fs.blocks, d, fs.g.inodestart)
    requires Sound(fs', o') && AgreeFrom(fs'.blocks, d', fs.g.inodestart)
    ensures FindsEither(l, w, fs, o, fs', o')
  {
    forall crashes ensures FindsAfter(l, w, crashes, fs, o) || FindsAfter(l, w, crashes, fs', o') {
      if D.SameHome(l, D.Committed(w, l), d) {
        HomeFinds(l, w, crashes, d, fs, o);
      } else {
        HomeFinds(l, w, crashes, d', fs', o');
      }
    }
  }

  /** Every medium in t leads a boot to one of two states. */
  ghost predicate AllFindEither(l: D.Layout, t: seq<D.Disk>, fs: Fs, o: map<nat, Slot>, fs': Fs, o': map<nat, Slot>) {
    forall w :: w in t ==> FindsEither(l, w, fs, o, fs', o')
  }

  /** end_op() of a call that has given `writes` to log_write() and so taken the files from fs0 to those of fs. */
  method EndCall(fs: F.FileSystem, log: L.Log, pid: nat, writes: seq<(nat, Block)>, ghost fs0: Fs,
                 ghost o0: map<nat, Slot>)
    requires Ready(log, pid, fs0, o0) && Sound(fs.Now(), fs.owner) && fs.g == fs0.g
    requires F.FileSystem.Replays(fs.g, fs0.blocks, writes, fs.blocks, Blocks(writes))
    requires |Blocks(writes)| <= MAXOPBLOCKS
    modifies log`n, log`outstanding, log`committing, log.block, log.cache
    modifies log.cache.buf, log.cache.disk, log.cache.next, log.cache.prev
    ensures Joined(fs, log, pid) && old(log.cache.trace) <= log.cache.trace
    ensures fs.Now() == old(fs.Now()) && fs.owner == old(fs.owner)
    ensures AllFindEither(log.L(), log.cache.trace[|old(log.cache.trace)|..], fs0, o0, fs.Now(), fs.owner)
  {
    ghost var d0, t0 := log.cache.disk[..], log.cache.trace;
    log.ContentsOnDisk(pid);
    AfterAgree(fs0.blocks, d0, writes, fs.g.inodestart);
    log.SystemCall(pid, writes);
    ghost var d1 := After(d0, writes);
    forall w | w in log.cache.trace[|t0|..] ensures FindsEither(log.L(), w, fs0, o0, fs.Now(), fs.owner) {
      OldOrNewFinds(log.L(), w, d0, d1, fs0, o0, fs.Now(), fs.owner);
    }
  }

  /**
   One transaction of filewrite(), committed: stop the machine after any disk write of it, and a boot finds every file
   as it was, or the chunk written.
   */
  method CommitChunk(fs: F.FileSystem, log: L.Log, pid: nat, i: nat, off: nat, src: seq<byte>, ghost last: nat)
    returns (r: F.WriteResult)
    requires Joined(fs, log, pid) && i in fs.inodes && off < UINT_LIMIT && |src| <= S.CHUNK && last == off + |src|
    modifies fs, log`n, log`outstanding, log`committing, log.block, log.cache
    modifies log.cache.buf, log.cache.disk, log.cache.next, log.cache.prev
    ensures r.Refused? <==> off > old(fs.inodes)[i].size || last > MAXFILE * BSIZE
    ensures !r.Refused? ==> (r.Wrote? <==> RoomFor(fs.g, old(fs.owner), old(fs.inodes)[i].size, last))
    ensures r.Refused? ==> fs.Now() == old(fs.Now()) && fs.owner == old(fs.owner)
    ensures r.OutOfBlocks? ==> DiskFull(fs.Now()) && log.cache.trace == old(log.cache.trace)
    ensures r.Wrote? ==> r.n == |src| && WriteMade(old(fs.Now()), fs.Now(), fs.owner, i, off, src)
    ensures r.Wrote? ==> Paid(old(fs.owner), fs.owner, old(fs.inodes)[i].size, last)
    ensures !r.OutOfBlocks? ==> Joined(fs, log, pid)
    ensures old(log.cache.trace) <= log.cache.trace
    ensures AllFindEither(log.L(), log.cache.trace[|old(log.cache.trace)|..], old(fs.Now()), old(fs.owner), fs.Now(),
                          fs.owner)
  {
    ghost var fs0, o0 := fs.Now(), fs.owner;
    r := fs.WriteChunk(i, off, src, last);
    EndChunk(fs, log, pid, r, fs0, o0);
  }

  /** end_op() after writei() has returned, which it does not when it panics. */
  method EndChunk(fs: F.FileSystem, log: L.Log, pid: nat, r: F.WriteResult, ghost fs0: Fs, ghost o0: map<nat, Slot>)
    requires Ready(log, pid, fs0, o0) && fs.g == fs0.g
    requires r.Refused? ==> fs.Now() == fs0 && fs.owner == o0
    requires r.Wrote? ==> Sound(fs.Now(), fs.owner) && |fs.logged| <= MAXOPBLOCKS
    requires r.Wrote? ==> F.FileSystem.Replays(fs.g, fs0.blocks, fs.writes, fs.blocks, fs.logged)
    modifies log`n, log`outstanding, log`committing, log.block, log.cache
    modifies log.cache.buf, log.cache.disk, log.cache.next, log.cache.prev
    ensures fs.Now() == old(fs.Now()) && fs.owner == old(fs.owner)
    ensures r.OutOfBlocks? ==> log.cache.trace == old(log.cache.trace)
    ensures !r.OutOfBlocks? ==> Joined(fs, log, pid)
    ensures old(log.cache.trace) <= log.cache.trace
    ensures AllFindEither(log.L(), log.cache.trace[|old(log.cache.trace)|..], fs0, o0, fs.Now(), fs.owner)
  {
    if !r.OutOfBlocks? {
      var writes := if r.Wrote? then fs.writes else [];
      EndCall(fs, log, pid, writes, fs0, o0);
    }
  }

  /** After boots that stopped in recovery, a boot finds a whole number of chunks of src written. */
  ghost predicate FindsPrefix(l: D.Layout, w: D.Disk, crashes: seq<nat>, fs0: Fs, i: nat, off: nat, src: seq<byte>)
    requires D.HeaderOk(w, l)
  {
    exists k: nat, o :: k <= |src| && F.AtChunk(|src|, k) &&
      FindsWritten(D.Recovered(D.CrashedBoots(w, l, crashes), l), fs0, o, i, off, src[..k])
  }

  ghost predicate AllFindPrefix(l: D.Layout, t: seq<D.Disk>, fs0: Fs, i: nat, off: nat, src: seq<byte>) {
    forall w :: w in t ==> D.HeaderOk(w, l) && forall crashes :: FindsPrefix(l, w, crashes, fs0, i, off, src)
  }

  lemma ChunkFound(l: D.Layout, w: D.Disk, crashes: seq<nat>, fs0: Fs, fs: Fs, o: map<nat, Slot>, i: nat, off: nat,
                   src: seq<byte>, k: nat)
    requires D.HeaderOk(w, l) && FindsAfter(l, w, crashes, fs, o) && fs.g == fs0.g
    requires k <= |src| && F.AtChunk(|src|, k) && WriteMade(fs0, fs, o, i, off, src[..k])
    ensures FindsPrefix(l, w, crashes, fs0, i, off, src)
  {
    FoundWritten(D.Recovered(D.CrashedBoots(w, l, crashes), l), fs0, fs, o, i, off, src[..k]);
  }

  lemma EitherIsPrefix(l: D.Layout, t: seq<D.Disk>, fs0: Fs, fs: Fs, o: map<nat, Slot>, fs': Fs, o': map<nat, Slot>,
                       i: nat, off: nat, src: seq<byte>, k: nat, next: nat)
    requires AllFindEither(l, t, fs, o, fs', o') && fs.g == fs0.g && fs'.g == fs0.g
    requires k <= |src| && F.AtChunk(|src|, k) && WriteMade(fs0, fs, o, i, off, src[..k])
    requires next <= |src| && F.AtChunk(|src|, next) && WriteMade(fs0, fs', o', i, off, src[..next])
    ensures AllFindPrefix(l, t, fs0, i, off, src)
  {
    forall w, crashes | w in t ensures D.HeaderOk(w, l) && FindsPrefix(l, w, crashes, fs0, i, off, src) {
      assert FindsEither(l, w, fs, o, fs', o');
      if FindsAfter(l, w, crashes, fs, o) {
        ChunkFound(l, w, crashes, fs0, fs, o, i, off, src, k);
      } else {
        ChunkFound(l, w, crashes, fs0, fs', o', i, off, src, next);
      }
    }
  }

  /** filewrite() has written src[..k]; t0 is what had reached the medium when it began. */
  ghost predicate Through(fs: F.FileSystem, log: L.Log, pid: nat, t0: seq<D.Disk>, fs0: Fs, o0: map<nat, Slot>,
                          i: nat, size: nat, off: nat, src: seq<byte>, k: nat, at: nat)
    reads fs, log, log.block, log.cache, log.cache.disk, log.cache.buf, log.cache.next, log.cache.prev
  {
    && Joined(fs, log, pid) && k <= |src| && F.AtChunk(|src|, k) && at == off + k
    && fs.Filed(fs0, o0, i, size, off, src[..k], at) && Safe(log, t0, fs0, i, off, src)
  }

  ghost predicate Safe(log: L.Log, t0: seq<D.Disk>, fs0: Fs, i: nat, off: nat, src: seq<byte>)
    reads log, log.cache
  {
    t0 <= log.cache.trace && AllFindPrefix(log.L(), log.cache.trace[|t0|..], fs0, i, off, src)
  }

  lemma SafeOn(l: D.Layout, t0: seq<D.Disk>, t1: seq<D.Disk>, t2: seq<D.Disk>, fs0: Fs, i: nat, off: nat,
               src: seq<byte>)
    requires t0 <= t1 <= t2 && AllFindPrefix(l, t1[|t0|..], fs0, i, off, src)
    requires AllFindPrefix(l, t2[|t1|..], fs0, i, off, src)
    ensures t0 <= t2 && AllFindPrefix(l, t2[|t0|..], fs0, i, off, src)
  {
    assert t2[|t0|..] == t1[|t0|..] + t2[|t1|..];
  }

  lemma StillSafe(l: D.Layout, t0: seq<D.Disk>, t1: seq<D.Disk>, t2: seq<D.Disk>, fs0: Fs, fs: Fs, o: map<nat, Slot>,
                  fs': Fs, o': map<nat, Slot>, i: nat, off: nat, src: seq<byte>, k: nat, next: nat)
    requires t0 <= t1 <= t2 && AllFindPrefix(l, t1[|t0|..], fs0, i, off, src)
    requires AllFindEither(l, t2[|t1|..], fs, o, fs', o') && fs.g == fs0.g && fs'.g == fs0.g
    requires k <= |src| && F.AtChunk(|src|, k) && WriteMade(fs0, fs, o, i, off, src[..k])
    requires next <= |src| && F.AtChunk(|src|, next) && WriteMade(fs0, fs', o', i, off, src[..next])
    ensures t0 <= t2 && AllFindPrefix(l, t2[|t0|..], fs0, i, off, src)
  {
    EitherIsPrefix(l, t2[|t1|..], fs0, fs, o, fs', o', i, off, src, k, next);
    SafeOn(l, t0, t1, t2, fs0, i, off, src);
  }

  /** One round of filewrite()'s loop. */
  method NextThrough(fs: F.FileSystem, log: L.Log, pid: nat, ghost t0: seq<D.Disk>, ghost fs0: Fs,
                     ghost o0: map<nat, Slot>, i: nat, ghost size: nat, ghost off: nat, src: seq<byte>, k: nat,
                     next: nat, at: nat, ghost last: nat)
    returns (r: F.WriteResult)
    requires Through(fs, log, pid, t0, fs0, o0, i, size, off, src, k, at) && k < |src|
    requires next == F.ChunkEnd(|src|, k) && last == off + next
    modifies fs, log`n, log`outstanding, log`committing, log.block, log.cache
    modifies log.cache.buf, log.cache.disk, log.cache.next, log.cache.prev
    ensures r.Refused? <==> last > MAXFILE * BSIZE
    ensures r.Refused? ==> Through(fs, log, pid, t0, fs0, o0, i, size, off, src, k, at)
    ensures r.OutOfBlocks? ==> DiskFull(fs.Now()) && !RoomFor(fs.g, o0, size, last) && Safe(log, t0, fs0, i, off, src)
    ensures r.Wrote? ==> Through(fs, log, pid, t0, fs0, o0, i, size, off, src, next, last)
  {
    ghost var fs1, o1, t1, a := fs.Now(), fs.owner, log.cache.trace, src[..k];
    r := FileNext(fs, log, pid, fs0, o0, i, size, off, src, k, next, at, last);
    if !r.OutOfBlocks? {
      ghost var done := if r.Wrote? then next else k;
      StillSafe(log.L(), t0, t1, log.cache.trace, fs0, fs1, o1, fs.Now(), fs.owner, i, off, src, k, done);
    }
  }

  /** What that round does to the file, and what a crash in it shows. */
  method FileNext(fs: F.FileSystem, log: L.Log, pid: nat, ghost fs0: Fs, ghost o0: map<nat, Slot>, i: nat,
                  ghost size: nat, ghost off: nat, src: seq<byte>, k: nat, next: nat, at: nat, ghost last: nat)
    returns (r: F.WriteResult)
    requires Joined(fs, log, pid) && k < |src| && F.AtChunk(|src|, k) && next == F.ChunkEnd(|src|, k)
    requires fs.Filed(fs0, o0, i, size, off, src[..k], at) && at == off + k && last == off + next
    modifies fs, log`n, log`outstanding, log`committing, log.block, log.cache
    modifies log.cache.buf, log.cache.disk, log.cache.next, log.cache.prev
    ensures r.Refused? <==> last > MAXFILE * BSIZE
    ensures r.Refused? ==> fs.Filed(fs0, o0, i, size, off, src[..k], at)
    ensures r.OutOfBlocks? ==> DiskFull(fs.Now()) && !RoomFor(fs.g, o0, size, last)
    ensures r.OutOfBlocks? ==> log.cache.trace == old(log.cache.trace)
    ensures r.Wrote? ==> fs.Filed(fs0, o0, i, size, off, src[..next], last)
    ensures !r.OutOfBlocks? ==> Joined(fs, log, pid)
    ensures old(log.cache.trace) <= log.cache.trace
    ensures AllFindEither(log.L(), log.cache.trace[|old(log.cache.trace)|..], old(fs.Now()), old(fs.owner), fs.Now(),
                          fs.owner)
  {
    ghost var fs1, o1, size1, a, ab := fs.Now(), fs.owner, fs.inodes[i].size, src[..k], src[..next];
    var chunk := src[k..next];
    F.FileSystem.SizeWritten(fs0, fs1, o1, i, size, off, a, at);
    F.FileSystem.PrefixGrows(src, k, next);
    RoomLeft(fs.g, o0, o1, size, at, size1, last);
    F.FileSystem.WroteSize(fs0, fs1, o1, i, off, a, at);
    r := CommitChunk(fs, log, pid, i, at, chunk, last);
    if r.Wrote? {
      WritesJoin(fs0, fs1, fs.Now(), o1, fs.owner, i, off, at, a, chunk, ab);
      PaidMore(o0, o1, fs.owner, size, at, size1, last);
    }
  }

  /**
   filewrite() at an offset within the file, every chunk committed through the log. Stop the machine after any disk
   write of it, and any number of boots anywhere in recovery: the boot that gets through finds exactly a whole number of
   chunks of src written, and every other file as it was. It panics out of blocks exactly if the disk has fewer than it
   needs for all it can write, up to `top`.
   */
  method WriteThrough(fs: F.FileSystem, log: L.Log, pid: nat, i: nat, off: nat, src: seq<byte>, ghost top: nat)
    returns (r: F.FileWriteResult)
    requires Joined(fs, log, pid) && i in fs.inodes && off <= fs.inodes[i].size && top == off + F.Reach(off, |src|)
    modifies fs, log`n, log`outstanding, log`committing, log.block, log.cache
    modifies log.cache.buf, log.cache.disk, log.cache.next, log.cache.prev
    ensures Safe(log, old(log.cache.trace), old(fs.Now()), i, off, src)
    ensures r.Stuck? ==> DiskFull(fs.Now())
    ensures r.Stuck? <==> !RoomFor(fs.g, old(fs.owner), old(fs.inodes)[i].size, top)
    ensures !r.Stuck? ==> r.done <= |src| && WriteMade(old(fs.Now()), fs.Now(), fs.owner, i, off, src[..r.done])
    ensures !r.Stuck? ==> Joined(fs, log, pid) && (r.All? <==> off + |src| <= MAXFILE * BSIZE)
    ensures r.All? ==> r.done == |src|
    ensures r.Failed? ==> F.AtChunk(|src|, r.done)
    ensures r.Failed? ==> off + r.done <= MAXFILE * BSIZE < off + F.ChunkEnd(|src|, r.done)
  {
    ghost var t0, fs0, o0, size := log.cache.trace, fs.Now(), fs.owner, fs.inodes[i].size;
    var k: nat, at: nat, n := 0, off, |src|;
    NothingWritten(fs0, fs.owner, i, off);
    assert src[..k] == [];
    while k < n
      invariant Through(fs, log, pid, t0, fs0, o0, i, size, off, src, k, at) && off + k <= MAXFILE * BSIZE
    {
      var next := F.ChunkEnd(n, k);
      ghost var last := off + next;
      var w := NextThrough(fs, log, pid, t0, fs0, o0, i, size, off, src, k, next, at, last);
      if w.Refused? {
        fs.EndsRoomy(fs0, o0, i, size, off, src[..k], at, n, k, top);
        return F.Failed(k);
      }
      if w.OutOfBlocks? {
        F.FileSystem.StuckEarly(fs.g, o0, size, off, n, k, next, last, top);
        return F.Stuck(k);
      }
      k, at := next, off + next;
      assert at == last;
    }
    fs.EndsRoomy(fs0, o0, i, size, off, src[..k], at, n, k, top);
    return F.All(n);
  }

  /** filewrite() to an inode at any offset: beyond the end of the file it writes nothing, before or after a crash. */
  method WriteFile(fs: F.FileSystem, log: L.Log, pid: nat, i: nat, off: nat, src: seq<byte>, ghost top: nat)
    returns (r: F.FileWriteResult)
    requires Joined(fs, log, pid) && i in fs.inodes && off < UINT_LIMIT && top == off + F.Reach(off, |src|)
    modifies fs, log`n, log`outstanding, log`committing, log.block, log.cache
    modifies log.cache.buf, log.cache.disk, log.cache.next, log.cache.prev
    ensures r.Stuck? ==> DiskFull(fs.Now())
    ensures r.Stuck? <==>
      off <= old(fs.inodes)[i].size && !RoomFor(fs.g, old(fs.owner), old(fs.inodes)[i].size, top)
    ensures !r.Stuck? ==> Joined(fs, log, pid) && r.done <= |src|
    ensures !r.Stuck? ==> (r.All? <==> src == [] || (off <= old(fs.inodes)[i].size && off + |src| <= MAXFILE * BSIZE))
    ensures off <= old(fs.inodes)[i].size ==> Safe(log, old(log.cache.trace), old(fs.Now()), i, off, src)
    ensures off <= old(fs.inodes)[i].size && !r.Stuck? ==>
      WriteMade(old(fs.Now()), fs.Now(), fs.owner, i, off, src[..r.done])
    ensures off > old(fs.inodes)[i].size ==> !r.Stuck? && r.done == 0 && fs.Now() == old(fs.Now())
    ensures old(log.cache.trace) <= log.cache.trace
    ensures off > old(fs.inodes)[i].size ==>
      AllFindEither(log.L(), log.cache.trace[|old(log.cache.trace)|..], fs.Now(), fs.owner, fs.Now(), fs.owner)
  {
    if off <= fs.inodes[i].size {
      r := WriteThrough(fs, log, pid, i, off, src, top);
    } else if src == [] {
      r := F.All(0);
    } else {
      var end := F.ChunkEnd(|src|, 0);
      var w := CommitChunk(fs, log, pid, i, off, src[..end], off + end);
      r := F.Failed(0);
    }
  }
}

/**
 The steps of CommitRuns are what the in-place buffer cache does, and its runs start wherever the in-place log commits.
 */
module CommitLinks {
  import opened Common
  import opened Counting
  import opened Bytes
  import opened BufferCache
  import opened LogDisk
  import opened CommitRuns
  import L = Log
  import M = LogLimits

  lemma CachedIff(cache: Cache, bn: nat)
    requires cache.Valid()
    ensures IsCached(cache.buf[..], bn) <==> bn in cache.where
    ensures forall k :: Cached(cache.buf[..], bn, k) ==> bn in cache.where && cache.where[bn] == k
    ensures NoneFree(cache.buf[..]) <==> cache.NoneAvailable()
  {
    assert forall i :: 0 <= i < NBUF ==> (Free(cache.buf[..][i]) <==> cache.Available(i));
    if bn in cache.where {
      assert Cached(cache.buf[..], bn, cache.where[bn]);
    }
  }

  /** bget() takes the step that CommitRuns has for it, or panics exactly where it does. */
  method Bget(cache: Cache, bn: nat) returns (r: Option<nat>)
    requires cache.Valid() && bn < cache.disk.Length
    modifies cache`where, cache.buf
    ensures cache.Valid() && (r.None? <==> GetPanics(old(cache.buf[..]), bn))
    ensures r.Some? ==> CanGet(old(cache.buf[..]), bn, r.value)
    ensures r.Some? ==>
      cache.buf[..] == old(cache.buf[..])[r.value := GotBuf(old(cache.buf[..])[r.value], bn)]
  {
    CachedIff(cache, bn);
    r := cache.Bget(bn);
  }

  /** acquiresleep() on a free lock, and iderw() if need be. */
  method LockAndRead(cache: Cache, pid: nat, k: nat)
    requires cache.Valid() && pid != 0 && k < NBUF && cache.Assigned(k)
    requires cache.buf[k].refcnt > 0 && cache.buf[k].holder == 0
    modifies cache.buf
    ensures cache.Valid()
    ensures cache.buf[..] == old(cache.buf[..])[k := LockedBuf(old(cache.buf[k]), cache.disk[..], pid)]
  {
    assert cache.buf[k].blockno in cache.where && cache.where[cache.buf[k].blockno] == k;
    cache.ReadLocked(pid, k);
  }

  method Brelse(cache: Cache, pid: nat, k: nat)
    requires cache.Valid() && pid != 0 && k < NBUF && cache.Assigned(k) && cache.buf[k].holder == pid
    requires cache.buf[k].valid && !cache.buf[k].dirty ==> cache.buf[k].data == cache.disk[cache.buf[k].blockno]
    modifies cache`order, cache.buf, cache.next, cache.prev
    ensures cache.Valid() && cache.buf[..] == old(cache.buf[..])[k := DroppedBuf(old(cache.buf[k]))]
  {
    cache.Brelse(pid, k);
  }

  /** memmove() and bwrite(). */
  method FillAndWrite(cache: Cache, pid: nat, k: nat, data: Block, ghost s: State, ghost at: Point)
    requires cache.Valid() && pid != 0 && k < NBUF && cache.Assigned(k) && cache.buf[k].holder == pid
    requires cache.buf[k].valid && s.bufs == cache.buf[..] && s.disk == cache.disk[..] && s.trace == cache.trace
    modifies cache`trace, cache.buf, cache.disk
    ensures cache.Valid() && WriteOut(s, k, data, at) == s.(bufs := cache.buf[..], disk := cache.disk[..],
                                                            trace := cache.trace, at := at)
  {
    cache.Fill(pid, k, data);
    cache.Bwrite(pid, k);
  }

  lemma StartsOk(log: L.Log, pid: nat, w: Job, s: State, k: nat)
    requires log.Valid() && log.Alone(pid) && w.pid == pid && w.l == log.L() && k < NBUF
    requires s.bufs == log.cache.buf[..] && s.disk == log.cache.disk[..] && s.at.First?
    ensures BufOk(w, s.disk, s.bufs[k], k in Mine(s.at))
  {
    assert log.cache.BufferOk(log.cache.buf[k]) && log.cache.Unspoiled(k);
  }

  lemma StartsUnique(cache: Cache, bufs: seq<Buf>)
    requires cache.Valid() && bufs == cache.buf[..]
    ensures Unique(bufs)
  {
    forall k | 0 <= k < NBUF && bufs[k].dev == ROOTDEV ensures Alone(bufs, bufs[k].blockno, k) {
      assert cache.Assigned(k);
      CachedIff(cache, bufs[k].blockno);
    }
  }

  lemma StartsPinned(log: L.Log, w: Job, bufs: seq<Buf>)
    requires log.Valid() && log.Gathering() && bufs == log.cache.buf[..] && w.t == log.Gathered() && w.pid != 0
    requires forall i :: 0 <= i < log.n ==> log.Lh()[i] in log.cache.where
    requires w.host == log.Hosts(log.Lh())
    ensures HostsOk(w) && PinsOk(w, bufs, 0)
  {
    var lh := log.Lh();
    forall i | 0 <= i < |lh| ensures PinnedFor(w, bufs[w.host[i]], i) {
      assert log.cache.Dirty(lh[i]);
    }
    forall k | 0 <= k < NBUF && bufs[k].dirty ensures IsHost(w, 0, k) {
      assert log.cache.Dirty(bufs[k].blockno);
      var i :| 0 <= i < |lh| && lh[i] == bufs[k].blockno;
      assert w.host[i] == k;
    }
  }

  /** Wherever the in-place log commits, whatever readers there are, a run of CommitRuns begins. */
  lemma CommitBegins(log: L.Log, pid: nat) returns (w: Job, s: State)
    requires log.Valid() && log.Alone(pid) && pid != 0 && log.Gathering()
    ensures Begins(w, s) && s.bufs == log.cache.buf[..] && s.disk == w.d == log.cache.disk[..] && s.trace == []
    ensures w.l == log.L() && w.t == log.Gathered() && w.pid == pid && w.media == CommitWrites(w.d, w.l, w.t)
  {
    log.GatheredOk();
    log.PinnedHosts(log.Lh());
    var d, l, t, hosts := log.cache.disk[..], log.L(), log.Gathered(), log.Hosts(log.Lh());
    w := Job(d, l, t, CommitWrites(d, l, t), hosts, pid);
    s := State(log.cache.buf[..], d, [], 0, First);
    StartsPinned(log, w, s.bufs);
    CommitMedia(w);
    StartsBufs(log, pid, w, s);
    Starts(w, s);
  }

  lemma StartsBufs(log: L.Log, pid: nat, w: Job, s: State)
    requires log.Valid() && log.Alone(pid) && w.pid == pid && w.l == log.L()
    requires s.bufs == log.cache.buf[..] && s.disk == log.cache.disk[..] && s.at.First?
    ensures BufsOk(w, s)
  {
    StartsUnique(log.cache, s.bufs);
    forall k | 0 <= k < NBUF ensures BufOk(w, s.disk, s.bufs[k], k in Mine(s.at)) {
      StartsOk(log, pid, w, s, k);
    }
  }

  lemma Starts(w: Job, s: State)
    requires JobOk(w) && s.j == 0 && s.at.First? && s.disk == w.d && s.trace == []
    requires BufsOk(w, s) && PinsOk(w, s.bufs, 0)
    ensures Begins(w, s)
  {
    assert w.media[..0] == [];
  }

  lemma NobodyAbout(cache: Cache, bufs: seq<Buf>)
    requires cache.Valid() && cache.Quiet() && bufs == cache.buf[..]
    ensures forall k :: 0 <= k < NBUF ==> bufs[k].refcnt == 0 && bufs[k].holder == 0
  {
    forall k | 0 <= k < NBUF ensures bufs[k].refcnt == 0 && bufs[k].holder == 0 {
      assert cache.BufferOk(cache.buf[k]);
    }
  }

  /** One buffer is free and all others are pinned. */
  lemma TheOther(w: Job, s: State) returns (f: nat)
    requires Begins(w, s) && |w.t.lh| == NBUF - 1
    requires forall k :: 0 <= k < NBUF ==> s.bufs[k].refcnt == 0 && s.bufs[k].holder == 0
    ensures AllButOne(w, s, f)
  {
    var pins := Pins(s);
    PinsAreListed(w, s);
    RangeSize(pins, 0, NBUF);
    f :| 0 <= f < NBUF && f !in pins;
    RangeSize(pins + {f}, 0, NBUF);
    forall k | 0 <= k < NBUF && k != f ensures s.bufs[k].dirty {
      assert k in pins + {f};
    }
  }

  lemma OneFree(log: L.Log, first: nat, x: nat, w: Job, s: State)
    requires M.Listed(log, first, NBUF - 1) && log.start + log.size <= first
    requires x == first + NBUF - 1 && x < |w.d|
    requires Begins(w, s) && s.bufs == log.cache.buf[..] && w.l == log.L() && w.t.lh == log.Lh()
    ensures !Panics(w, s) && exists steps, t :: RunsTo(w, s, steps, t) && Panics(w, t) && |t.trace| == 1
  {
    NobodyAbout(log.cache, s.bufs);
    var f := TheOther(w, s);
    ReaderInBetween(w, s, f, x);
  }

  /**
   From boot, with the log that mkfs makes: 29 blocks listed, nobody about, so the commit finds a buffer; and a run of
   it in which another process reads a thirtieth block after the first round of write_log(), and it panics with that
   round on the disk.
   */
  method ReaderAfterOneRound(medium: seq<Block>, start: nat, first: nat)
    returns (log: L.Log, ghost w: Job, ghost s: State)
    requires M.Room(medium, start, LOGSIZE, first, NBUF)
    ensures M.Listed(log, first, NBUF - 1) && w.l == log.L() && w.t == log.Gathered()
    ensures Begins(w, s) && s.bufs == log.cache.buf[..] && s.disk == log.cache.disk[..] && !Panics(w, s)
    ensures exists steps, t :: RunsTo(w, s, steps, t) && Panics(w, t) && |t.trace| == 1
  {
    log := ListTwentyNine(medium, start, first);
    log.QuietAlone(1);
    w, s := CommitBegins(log, 1);
    OneFree(log, first, first + NBUF - 1, w, s);
  }

  method ListTwentyNine(medium: seq<Block>, start: nat, first: nat) returns (log: L.Log)
    requires M.Room(medium, start, LOGSIZE, first, NBUF)
    ensures M.Listed(log, first, NBUF - 1) && log.start == start && log.size == LOGSIZE
    ensures log.cache.disk.Length == |medium|
  {
    var count := NBUF - 1;
    log := M.Open(medium, start, LOGSIZE, first, NBUF);
    M.ListBlocks(log, 1, first, count);
  }
}

/**
 log.c over the buffer cache: transactions gather in pinned buffers, commit() moves
 them through the log, recover_from_log() finishes what a crash interrupted.
 */
module Log {
  import opened Common
  import opened Bytes
  import opened BufferCache
  import opened LogDisk
  import opened Counting
  import opened Updates

  class Log {
    const cache: Cache
    const start: nat
    const size: nat
    const block: array<nat> // log.lh.block
    var n: nat              // log.lh.n
    var outstanding: nat
    var committing: bool
    ghost var readers: set<nat> // the buffers that others may refer to

    /** The in-memory log before recovery. */
    constructor (cache: Cache, start: nat, size: nat)
      ensures this.cache == cache && this.start == start && this.size == size
      ensures n == 0 && outstanding == 0 && !committing && readers == {}
      ensures block.Length == LOGSIZE && fresh(block)
    {
      this.cache, this.start, this.size := cache, start, size;
      n, outstanding, committing, readers := 0, 0, false, {};
      block := new nat[LOGSIZE](_ => 0);
    }

    ghost function L(): Layout {
      Layout(start, size)
    }

    /** log.lh.block[0..n]. */
    ghost function Lh(): seq<nat>
      requires n <= block.Length
      reads this, block
    {
      block[..n]
    }

    ghost predicate Valid()
      reads this, block, cache, cache.disk, cache.buf, cache.next, cache.prev
    {
      && cache.Valid() && cache.disk.Length < UINT_LIMIT
      && block != cache.next && block != cache.prev && block.Length == LOGSIZE
      && Fits(cache.disk[..], L())
      && n <= LOGSIZE && n < size
      && LhOk(Lh())
    }

    /** Logged block numbers are home blocks. */
    ghost predicate LhOk(lh: seq<nat>)
      reads cache.disk
    {
      forall i :: 0 <= i < |lh| ==> lh[i] < cache.disk.Length && !InLog(L(), lh[i])
    }

    /** Outside commit(): the log is empty, and the dirty buffers are exactly the listed blocks. */
    ghost predicate Gathering()
      requires Valid()
      reads this, block, cache, cache.disk, cache.buf, cache.next, cache.prev
    {
      && HeadCount(cache.disk[..], L()) == 0
      && DirtyExactly(Lh())
    }

    /** The dirty blocks are the listed ones, each listed once. */
    ghost predicate DirtyExactly(bs: seq<nat>)
      requires cache.Valid()
      reads this, cache, cache.disk, cache.buf, cache.next, cache.prev
    {
      Distinct(bs) && forall bn :: cache.Dirty(bn) <==> bn in bs
    }

    // ------------------------------------------------ room in the cache

    /** The buffers of the given blocks. */
    ghost function Hosts(bs: seq<nat>): (r: seq<nat>)
      requires cache.Valid() && forall i :: 0 <= i < |bs| ==> bs[i] in cache.where
      reads cache, cache.disk, cache.buf, cache.next, cache.prev
      ensures |r| == |bs| && forall i :: 0 <= i < |bs| ==> r[i] == cache.where[bs[i]]
    {
      if bs == [] then [] else Hosts(bs[..|bs| - 1]) + [cache.where[bs[|bs| - 1]]]
    }

    /** The buffers of the dirty blocks. */
    ghost function Pinned(bs: seq<nat>): (r: set<nat>)
      requires cache.Valid() && DirtyExactly(bs)
      reads this, cache, cache.disk, cache.buf, cache.next, cache.prev
      ensures |r| == |bs| && forall i :: i in r <==> 0 <= i < NBUF && cache.buf[i].dirty
    {
      PinnedHosts(bs);
      Elements(Hosts(bs))
    }

    lemma PinnedHosts(bs: seq<nat>)
      requires cache.Valid() && DirtyExactly(bs)
      ensures forall i :: 0 <= i < |bs| ==> bs[i] in cache.where
      ensures |Elements(Hosts(bs))| == |bs|
      ensures forall i :: i in Elements(Hosts(bs)) <==> 0 <= i < NBUF && cache.buf[i].dirty
    {
      forall k | 0 <= k < |bs| ensures cache.Dirty(bs[k]) {
      }
      ElementsSize(Hosts(bs));
      forall i | 0 <= i < NBUF && cache.buf[i].dirty ensures i in Hosts(bs) {
        assert cache.Dirty(cache.buf[i].blockno);
        var k :| 0 <= k < |bs| && bs[k] == cache.buf[i].blockno;
        assert Hosts(bs)[k] == i;
      }
    }

    /**
     When bget() can recycle no buffer, exactly: with bs the listed blocks and rs the buffers that are referred to but
     not listed, the two together are as many as there are buffers.
     */
    lemma NoSpareIff(bs: seq<nat>, rs: set<nat>)
      requires cache.Valid() && DirtyExactly(bs)
      requires forall i :: i in rs <==> 0 <= i < NBUF && cache.buf[i].refcnt > 0 && !cache.buf[i].dirty
      ensures cache.NoneAvailable() <==> |bs| + |rs| >= NBUF
    {
      var busy := Pinned(bs) + rs;
      assert |busy| == |bs| + |rs| by {
        assert Pinned(bs) * rs == {};
      }
      assert forall i :: i in busy <==> 0 <= i < NBUF && !cache.Available(i);
      RangeSize(busy, 0, NBUF);
    }

    /** Fewer listed blocks and referenced buffers than there are buffers leave one to recycle. */
    lemma SpareBuffer(bs: seq<nat>, rs: set<nat>)
      requires cache.Valid() && DirtyExactly(bs) && |bs| + |rs| < NBUF
      requires forall i :: 0 <= i < NBUF && cache.buf[i].refcnt > 0 ==> i in rs
      ensures !cache.NoneAvailable()
    {
      var clean := set i | i in rs && 0 <= i < NBUF && cache.buf[i].refcnt > 0 && !cache.buf[i].dirty;
      SubsetSize(clean, rs);
      NoSpareIff(bs, clean);
    }

    /** Others refer only to buffers in `readers`, and nobody but log.c looks at the blocks of the log. */
    ghost predicate Private(bufs: seq<Buf>)
      reads `readers
    {
      forall i :: 0 <= i < |bufs| && bufs[i].refcnt > 0 ==>
        i in readers && (bufs[i].dev == ROOTDEV ==> !InLog(L(), bufs[i].blockno))
    }

    /** Process pid holds no buffer; the buffers others refer to are readers', unspoiled and outside the log. */
    ghost predicate Alone(pid: nat)
      requires Valid()
      reads this, block, cache, cache.disk, cache.buf, cache.next, cache.prev
    {
      cache.Calm(pid) && Private(cache.buf[..])
    }

    lemma PrivateKept(was: seq<Buf>)
      requires cache.Valid() && Private(was) && cache.AllBack(was)
      ensures Private(cache.buf[..])
    {
      forall i | 0 <= i < NBUF && cache.buf[i].refcnt > 0
        ensures i in readers && (cache.buf[i].dev == ROOTDEV ==> !InLog(L(), cache.buf[i].blockno))
      {
        assert cache.Back(was[i], cache.buf[i]);
      }
    }

    lemma QuietAlone(pid: nat)
      requires Valid() && cache.Quiet() && pid != 0
      ensures Alone(pid)
    {
    }

    lemma QuietKept(was: seq<Buf>)
      requires cache.Valid() && cache.AllBack(was) && forall i :: 0 <= i < NBUF ==> was[i].refcnt == 0
      ensures cache.Quiet()
    {
      forall i | 0 <= i < NBUF ensures cache.buf[i].refcnt == 0 {
        assert cache.Back(was[i], cache.buf[i]);
      }
    }

    /** A buffer that was available still is. */
    lemma SpareKept(was: seq<Buf>, i: nat)
      requires cache.Valid() && cache.AllBack(was) && i < NBUF && was[i].refcnt == 0 && !was[i].dirty
      ensures !cache.NoneAvailable()
    {
      cache.StaysAvailable(was, i);
    }

    /** A cached block of the log has a buffer that can be recycled. */
    lemma SlotSpare(pid: nat, x: nat)
      requires Valid() && Alone(pid) && InLog(L(), x) && !cache.Dirty(x) && x in cache.where
      ensures !cache.NoneAvailable()
    {
      assert cache.Available(cache.where[x]);
    }

    // ------------------------------------------------ one block at a time

    lemma EntryReady(pid: nat, tail: nat, to: nat, from: nat)
      requires Valid() && Alone(pid) && tail < n && DirtyExactly(Lh()) && to == start + tail + 1 && from == block[tail]
      ensures cache.Dirty(from) && !cache.Dirty(to) && (to in cache.where ==> !cache.NoneAvailable())
    {
      assert from == Lh()[tail];
      if to in cache.where {
        SlotSpare(pid, to);
      }
    }

    /** One round of write_log(): copy a pinned block into its log slot. False is a panic in bget. */
    method WriteLogEntry(pid: nat, tail: nat) returns (ok: bool)
      requires Valid() && Alone(pid) && pid != 0 && tail < n && DirtyExactly(Lh())
      modifies cache, cache.buf, cache.disk, cache.next, cache.prev
      ensures Valid() && Alone(pid) && DirtyExactly(Lh()) && cache.AllBack(old(cache.buf[..]))
      ensures ok <==> !old(cache.NoneAvailable())
      ensures !ok ==> cache.disk[..] == old(cache.disk[..]) && cache.trace == old(cache.trace)
      ensures ok ==> cache.disk[..] == old(cache.disk[..])[start + 1 + tail := old(cache.View(block[tail]))]
      ensures ok ==> cache.trace == old(cache.trace) + [cache.disk[..]]
      ensures forall bn :: 0 <= bn < cache.disk.Length && !InLog(L(), bn) ==> cache.View(bn) == old(cache.View(bn))
    {
      ghost var was := cache.buf[..];
      var to, from := start + tail + 1, block[tail];
      EntryReady(pid, tail, to, from);
      ok := cache.CopyToFirst(pid, to, from);
      PrivateKept(was);
    }

    lemma HomeReady(tail: nat, from: nat, to: nat)
      requires Valid() && tail < n && from == start + tail + 1 && to == block[tail]
      requires DirtyExactly(Lh()[tail..]) || (cache.Quiet() && cache.NothingDirty())
      ensures to == Lh()[tail] == Lh()[tail..][0] && !cache.Dirty(from)
      ensures cache.Dirty(to) || (cache.Quiet() && cache.NothingDirty())
    {
    }

    static lemma TailOf(bs: seq<nat>, tail: nat)
      requires tail < |bs| && Distinct(bs[tail..])
      ensures Distinct(bs[tail + 1..]) && forall b :: b in bs[tail + 1..] <==> b in bs[tail..] && b != bs[tail]
    {
      assert bs[tail..] == [bs[tail]] + bs[tail + 1..];
    }

    /** One round of install_trans(): copy a log slot to the block's home. */
    method InstallEntry(pid: nat, tail: nat) returns (ok: bool)
      requires Valid() && Alone(pid) && pid != 0 && tail < n
      requires DirtyExactly(Lh()[tail..]) || (cache.Quiet() && cache.NothingDirty())
      modifies cache, cache.buf, cache.disk, cache.next, cache.prev
      ensures Valid() && Alone(pid) && cache.AllBack(old(cache.buf[..]))
      ensures old(cache.NothingDirty()) && ok ==> cache.NothingDirty()
      ensures old(DirtyExactly(Lh()[tail..])) && ok ==> DirtyExactly(Lh()[tail + 1..])
      ensures ok <== !old(cache.NoneAvailable())
      ensures ok ==> cache.disk[..] == old(cache.disk[..])[block[tail] := old(cache.disk[start + 1 + tail])]
      ensures ok ==> cache.trace == old(cache.trace) + [cache.disk[..]]
      ensures ok ==> forall bn :: 0 <= bn < cache.disk.Length ==>
        cache.View(bn) == if bn == block[tail] then old(cache.disk[start + 1 + tail]) else old(cache.View(bn))
    {
      ghost var was := cache.buf[..];
      var from, to := start + tail + 1, block[tail];
      HomeReady(tail, from, to);
      if Distinct(Lh()[tail..]) {
        TailOf(Lh(), tail);
      }
      ok := cache.CopyToSecond(pid, from, to);
      PrivateKept(was);
    }

    /** write_head(): store log.lh over the header block. False is a panic in bget. */
    method WriteHead(pid: nat) returns (ok: bool)
      requires Valid() && Alone(pid) && pid != 0
      requires !cache.Dirty(start)
      modifies cache, cache.buf, cache.disk, cache.next, cache.prev
      ensures Valid() && Alone(pid) && cache.AllBack(old(cache.buf[..]))
      ensures ok <==> !old(cache.NoneAvailable())
      ensures !ok ==> cache.disk[..] == old(cache.disk[..]) && cache.trace == old(cache.trace)
      ensures ok ==> cache.disk[..] == old(cache.disk[..])[start := EncodeHead(old(cache.disk[start]), Lh())]
      ensures ok ==> cache.trace == old(cache.trace) + [cache.disk[..]]
      ensures forall bn :: cache.Dirty(bn) <==> old(cache.Dirty(bn))
      ensures forall bn :: 0 <= bn < cache.disk.Length && bn != start ==> cache.View(bn) == old(cache.View(bn))
    {
      ghost var was := cache.buf[..];
      cache.CleanViewIsDisk(pid, start);
      if start in cache.where {
        SlotSpare(pid, start);
      }
      var b := cache.BreadSingle(pid, was, start);
      if b.None? {
        return false;
      }
      FillHead(pid, was, b.value);
      return true;
    }

    method FillHead(pid: nat, ghost was: seq<Buf>, b: nat)
      requires Valid() && pid != 0 && cache.Single(pid, was, b, start) && Private(was)
      modifies cache, cache.buf, cache.disk, cache.next, cache.prev
      ensures Valid() && Alone(pid) && cache.AllBack(was)
      ensures cache.disk[..] == old(cache.disk[..])[start := EncodeHead(old(cache.buf[b].data), Lh())]
      ensures cache.trace == old(cache.trace) + [cache.disk[..]]
      ensures forall bn :: cache.Dirty(bn) <==> old(cache.Dirty(bn)) && bn != start
      ensures forall bn :: 0 <= bn < cache.disk.Length && bn != start ==> cache.View(bn) == old(cache.View(bn))
    {
      var hb := FormatHead(cache.buf[b].data);
      StoreHead(pid, was, b, hb);
    }

    method StoreHead(pid: nat, ghost was: seq<Buf>, b: nat, hb: Block)
      requires Valid() && pid != 0 && cache.Single(pid, was, b, start) && Private(was)
      modifies cache, cache.buf, cache.disk, cache.next, cache.prev
      ensures Valid() && Alone(pid) && cache.AllBack(was)
      ensures cache.disk[..] == old(cache.disk[..])[start := hb]
      ensures cache.trace == old(cache.trace) + [cache.disk[..]]
      ensures forall bn :: cache.Dirty(bn) <==> old(cache.Dirty(bn)) && bn != start
      ensures forall bn :: 0 <= bn < cache.disk.Length && bn != start ==> cache.View(bn) == old(cache.View(bn))
    {
      cache.WriteAndRelease(pid, was, b, start, hb);
      PrivateKept(was);
    }

    method FormatHead(was: Block) returns (hb: Block)
      requires Valid()
      ensures hb == EncodeHead(was, Lh())
    {
      hb := PutWord(was, 0, n);
      ghost var lh, hb0 := Lh(), hb;
      var i := 0;
      while i < n
        invariant 0 <= i <= n
        invariant hb == PutTargets(hb0, lh, i)
      {
        hb := PutWord(hb, 1 + i, block[i]);
        i := i + 1;
      }
    }

    // ------------------------------------------------ commit

    /** The transaction gathered so far: the listed blocks and their newest contents. */
    ghost function Gathered(): (t: Transaction)
      requires Valid()
      reads this, block, cache, cache.disk, cache.buf, cache.next, cache.prev
      ensures t.lh == Lh() && |t.values| == n
      ensures forall i :: 0 <= i < n ==> t.values[i] == cache.View(Lh()[i])
    {
      Transaction(Lh(), ViewsOf(Lh()))
    }

    ghost function ViewsOf(bs: seq<nat>): (vs: seq<Block>)
      requires cache.Valid() && forall i :: 0 <= i < |bs| ==> bs[i] < cache.disk.Length
      reads cache, cache.disk, cache.buf, cache.next, cache.prev
      ensures |vs| == |bs| && forall i :: 0 <= i < |bs| ==> vs[i] == cache.View(bs[i])
    {
      if bs == [] then [] else ViewsOf(bs[..|bs| - 1]) + [cache.View(bs[|bs| - 1])]
    }

    /** write_log(): all pinned blocks into the log, one disk write each. */
    method WriteLog(pid: nat) returns (ok: bool)
      requires Valid() && Alone(pid) && pid != 0 && DirtyExactly(Lh())
      modifies cache, cache.buf, cache.disk, cache.next, cache.prev
      ensures Valid() && Alone(pid) && DirtyExactly(Lh()) && (ok && n > 0 ==> !cache.NoneAvailable())
      ensures ok <==> n == 0 || !old(cache.NoneAvailable())
      ensures !ok ==> cache.disk[..] == old(cache.disk[..]) && cache.trace == old(cache.trace)
      ensures ok ==> cache.disk[..] == LogFilled(old(cache.disk[..]), L(), old(Gathered()).values, n)
      ensures ok ==> cache.trace == old(cache.trace) + LogFills(old(cache.disk[..]), L(), old(Gathered()).values, n)
    {
      ghost var d0, t0, values, none := cache.disk[..], cache.trace, Gathered().values, cache.NoneAvailable();
      var tail := 0;
      while tail < n
        invariant tail <= n && Valid() && Writing(pid, tail, d0, t0, values, none)
      {
        var next := tail + 1;
        ok := WriteLogRound(pid, tail, next, d0, t0, values, none);
        if !ok {
          return false;
        }
        tail := next;
      }
      return true;
    }

    /** write_log() has copied the first `tail` blocks; `none` says that no buffer could be recycled when it began. */
    ghost predicate Writing(pid: nat, tail: nat, d0: Disk, t0: seq<Disk>, values: seq<Block>, none: bool)
      requires Valid()
      reads this, block, cache, cache.disk, cache.buf, cache.next, cache.prev
    {
      && tail <= n == |values| && Fits(d0, L()) && (tail > 0 ==> !none)
      && Alone(pid) && DirtyExactly(Lh()) && cache.NoneAvailable() == none
      && (forall i :: tail <= i < n ==> cache.View(Lh()[i]) == values[i])
      && cache.disk[..] == LogFilled(d0, L(), values, tail)
      && cache.trace == t0 + LogFills(d0, L(), values, tail)
    }

    method WriteLogRound(pid: nat, tail: nat, ghost next: nat, ghost d0: Disk, ghost t0: seq<Disk>,
                         ghost values: seq<Block>, ghost none: bool)
      returns (ok: bool)
      requires Valid() && pid != 0 && tail < n && Writing(pid, tail, d0, t0, values, none) && next == tail + 1
      modifies cache, cache.buf, cache.disk, cache.next, cache.prev
      ensures Valid() && (ok <==> !none)
      ensures ok ==> Writing(pid, next, d0, t0, values, none)
      ensures !ok ==> Alone(pid) && DirtyExactly(Lh()) && cache.disk[..] == d0 && cache.trace == t0
    {
      ghost var d, t := cache.disk[..], cache.trace;
      ok := WriteLogSpare(pid, tail, none);
      if ok {
        FillNext(L(), d0, d, cache.disk[..], t0, t, cache.trace, values, tail, next);
      }
    }

    /** One round of write_log(), which leaves a buffer to spare if it found one. */
    method WriteLogSpare(pid: nat, tail: nat, ghost none: bool) returns (ok: bool)
      requires Valid() && Alone(pid) && pid != 0 && tail < n && DirtyExactly(Lh()) && cache.NoneAvailable() == none
      modifies cache, cache.buf, cache.disk, cache.next, cache.prev
      ensures Valid() && Alone(pid) && DirtyExactly(Lh()) && (ok <==> !none) && (ok ==> !cache.NoneAvailable())
      ensures !ok ==> cache.disk[..] == old(cache.disk[..]) && cache.trace == old(cache.trace)
      ensures ok ==> cache.disk[..] == old(cache.disk[..])[start + 1 + tail := old(cache.View(block[tail]))]
      ensures ok ==> cache.trace == old(cache.trace) + [cache.disk[..]]
      ensures forall bn :: 0 <= bn < cache.disk.Length && !InLog(L(), bn) ==> cache.View(bn) == old(cache.View(bn))
    {
      ghost var was := cache.buf[..];
      ghost var i := Spare();
      ok := WriteLogEntry(pid, tail);
      if ok {
        SpareKept(was, i);
      }
    }

    /** A buffer that can be recycled, if there is one. */
    ghost function Spare(): (i: nat)
      requires cache.Valid()
      reads cache, cache.disk, cache.buf, cache.next, cache.prev
      ensures i < NBUF && (!cache.NoneAvailable() ==> cache.Available(i))
    {
      if cache.NoneAvailable() then 0
      else
        var i: nat :| i < NBUF && cache.Available(i);
        i
    }

    /** The header of medium d lists exactly the blocks in log.lh. */
    ghost predicate Heads(d: Disk)
      requires n <= block.Length == LOGSIZE
      reads this, block
    {
      && HeaderOk(d, L()) && HeadCount(d, L()) == n
      && forall k :: 0 <= k < n ==> Target(d, L(), k) == Lh()[k]
    }

    /** install_trans() has copied the first `tail` blocks; in recovery nothing is ever dirty or referred to. */
    ghost predicate Installing(pid: nat, tail: nat, d0: Disk, t0: seq<Disk>, recovering: bool)
      requires Valid()
      reads this, block, cache, cache.disk, cache.buf, cache.next, cache.prev
    {
      && tail <= n && Heads(d0) && CanInstall(pid, tail, recovering)
      && cache.disk[..] == Install(d0, L(), tail)
      && cache.trace == t0 + Installs(d0, L(), tail)
    }

    method InstallRound(pid: nat, tail: nat, ghost d0: Disk, ghost t0: seq<Disk>, ghost recovering: bool)
      requires Valid() && pid != 0 && tail < n && Installing(pid, tail, d0, t0, recovering)
      modifies cache, cache.buf, cache.disk, cache.next, cache.prev
      ensures Valid() && Installing(pid, tail + 1, d0, t0, recovering)
    {
      InstallSurely(pid, tail, recovering);
      assert Target(d0, L(), tail) == block[tail];
      assert Install(d0, L(), tail)[start + 1 + tail] == d0[start + 1 + tail];
    }

    /** What install_trans() needs of the cache. */
    ghost predicate CanInstall(pid: nat, tail: nat, recovering: bool)
      requires Valid() && tail <= n
      reads this, block, cache, cache.disk, cache.buf, cache.next, cache.prev
    {
      && Alone(pid) && !cache.NoneAvailable()
      && (if recovering then cache.Quiet() && cache.NothingDirty() else DirtyExactly(Lh()[tail..]))
    }

    /** One round of install_trans() with a buffer to spare, which is left for the next. */
    method InstallSurely(pid: nat, tail: nat, ghost recovering: bool)
      requires Valid() && pid != 0 && tail < n && CanInstall(pid, tail, recovering)
      modifies cache, cache.buf, cache.disk, cache.next, cache.prev
      ensures Valid() && CanInstall(pid, tail + 1, recovering)
      ensures cache.disk[..] == old(cache.disk[..])[block[tail] := old(cache.disk[start + 1 + tail])]
      ensures cache.trace == old(cache.trace) + [cache.disk[..]]
    {
      ghost var was := cache.buf[..];
      ghost var i := Spare();
      var ok := InstallEntry(pid, tail);
      SpareKept(was, i);
      if recovering {
        QuietKept(was);
      }
    }

    /** install_trans(): all logged blocks to their homes, one disk write each. */
    method InstallTrans(pid: nat, ghost recovering: bool)
      requires Valid() && pid != 0 && Installing(pid, 0, cache.disk[..], cache.trace, recovering)
      modifies cache, cache.buf, cache.disk, cache.next, cache.prev
      ensures Valid() && Installing(pid, n, old(cache.disk[..]), old(cache.trace), recovering)
    {
      ghost var d0, t0 := cache.disk[..], cache.trace;
      var tail := 0;
      while tail < n
        invariant 0 <= tail <= n && Valid()
        invariant Installing(pid, tail, d0, t0, recovering)
      {
        InstallRound(pid, tail, d0, t0, recovering);
        tail := tail + 1;
      }
    }

    /** log.lh.n = 0; write_head(). */
    method EraseLog(pid: nat)
      requires Valid() && pid != 0 && Alone(pid) && cache.NothingDirty() && !cache.NoneAvailable()
      modifies this`n, cache, cache.buf, cache.disk, cache.next, cache.prev
      ensures Valid() && Alone(pid) && cache.NothingDirty() && n == 0 && cache.AllBack(old(cache.buf[..]))
      ensures cache.disk[..] == Cleared(old(cache.disk[..]), L())
      ensures cache.trace == old(cache.trace) + [cache.disk[..]]
    {
      n := 0;
      WriteEmptyHead(pid);
    }

    method WriteEmptyHead(pid: nat)
      requires Valid() && pid != 0 && Alone(pid) && cache.NothingDirty() && !cache.NoneAvailable() && n == 0
      modifies cache, cache.buf, cache.disk, cache.next, cache.prev
      ensures Valid() && Alone(pid) && cache.NothingDirty() && cache.AllBack(old(cache.buf[..]))
      ensures cache.disk[..] == Cleared(old(cache.disk[..]), L())
      ensures cache.trace == old(cache.trace) + [cache.disk[..]]
    {
      assert Lh() == [];
      var ok := WriteHead(pid);
    }

    lemma GatheredOk()
      requires Valid() && Gathering()
      ensures TransactionOk(cache.disk[..], L(), Gathered())
    {
    }

    /** The first half of commit(): write_log() and the header write that is the real commit. */
    method LogTransaction(pid: nat) returns (ok: bool)
      requires Valid() && Alone(pid) && pid != 0 && Gathering() && n > 0
      modifies cache, cache.buf, cache.disk, cache.next, cache.prev
      ensures Valid() && Alone(pid)
      ensures ok <==> !old(cache.NoneAvailable())
      ensures !ok ==> cache.disk[..] == old(cache.disk[..]) && cache.trace == old(cache.trace)
      ensures old(TransactionOk(cache.disk[..], L(), Gathered()))
      ensures ok ==> cache.disk[..] == Headed(old(cache.disk[..]), L(), old(Gathered()))
      ensures ok ==>
        cache.trace ==
          old(cache.trace) + LogFills(old(cache.disk[..]), L(), old(Gathered()).values, n) + [cache.disk[..]]
      ensures ok ==> DirtyExactly(Lh()) && !cache.NoneAvailable()
    {
      ghost var d0, t := cache.disk[..], Gathered();
      GatheredOk();
      ok := WriteLog(pid);
      if !ok {
        return false;
      }
      HeadedFrom(d0, L(), t, cache.disk[..]);
      ghost var was, i := cache.buf[..], Spare();
      ok := WriteHead(pid);
      SpareKept(was, i);
    }

    lemma ReadyToInstall(pid: nat, d0: Disk, t: Transaction)
      requires Valid() && Alone(pid) && !cache.NoneAvailable() && DirtyExactly(Lh())
      requires TransactionOk(d0, L(), t) && t.lh == Lh() && cache.disk[..] == Headed(d0, L(), t)
      ensures Installing(pid, 0, cache.disk[..], cache.trace, false)
    {
      HeadedOk(d0, L(), t);
    }

    /** The second half of commit(), and all of recovery after read_head(): install, then erase the log. */
    method InstallAndErase(pid: nat, ghost recovering: bool)
      requires Valid() && pid != 0 && Installing(pid, 0, cache.disk[..], cache.trace, recovering)
      modifies this`n, cache, cache.buf, cache.disk, cache.next, cache.prev
      ensures Valid() && Alone(pid) && cache.NothingDirty() && n == 0 && (recovering ==> cache.Quiet())
      ensures HeaderOk(old(cache.disk[..]), L()) && HeadCount(old(cache.disk[..]), L()) == old(n)
      ensures cache.disk[..] == Recovered(old(cache.disk[..]), L())
      ensures cache.trace == old(cache.trace) + RecoverWrites(old(cache.disk[..]), L())
    {
      RecoverWritesFrom(cache.disk[..], L(), cache.trace);
      InstallTrans(pid, recovering);
      ghost var was := cache.buf[..];
      EraseLog(pid);
      if recovering {
        QuietKept(was);
      }
    }

    method CommitGathered(pid: nat) returns (ok: bool)
      requires Valid() && Alone(pid) && pid != 0 && Gathering() && n > 0
      modifies this`n, cache, cache.buf, cache.disk, cache.next, cache.prev
      ensures Valid() && Alone(pid)
      ensures ok <==> !old(cache.NoneAvailable())
      ensures !ok ==> cache.disk[..] == old(cache.disk[..]) && cache.trace == old(cache.trace)
      ensures old(TransactionOk(cache.disk[..], L(), Gathered()))
      ensures ok ==> n == 0 && cache.NothingDirty()
      ensures ok ==> cache.trace == old(cache.trace) + CommitWrites(old(cache.disk[..]), L(), old(Gathered()))
      ensures ok ==> cache.disk[..] == CommitResult(old(cache.disk[..]), L(), old(Gathered()))
    {
      ghost var d0, t, t0 := cache.disk[..], Gathered(), cache.trace;
      ok := LogTransaction(pid);
      if ok {
        CommitWritesFrom(d0, L(), t, cache.disk[..], t0);
        ReadyToInstall(pid, d0, t);
        InstallAndErase(pid, false);
      }
    }

    lemma GatheredIsNewest(pid: nat)
      requires Valid() && Gathering() && Alone(pid)
      ensures forall i :: 0 <= i < n ==> Gathered().values[i] == cache.Contents()[Gathered().lh[i]]
      ensures forall bn :: 0 <= bn < cache.disk.Length && bn !in Lh() ==> cache.Contents()[bn] == cache.disk[bn]
    {
      forall bn | 0 <= bn < cache.disk.Length && bn !in Lh()
        ensures cache.Contents()[bn] == cache.disk[bn]
      {
        cache.CleanViewIsDisk(pid, bn);
      }
    }

    /** With nothing dirty and nothing spoiled the disk is up to date. */
    lemma ContentsOnDisk(pid: nat)
      requires Valid() && Alone(pid) && cache.NothingDirty()
      ensures cache.Contents() == cache.disk[..]
    {
      forall bn | 0 <= bn < cache.disk.Length
        ensures cache.Contents()[bn] == cache.disk[bn]
      {
        cache.CleanViewIsDisk(pid, bn);
      }
    }

    /**
     commit(), while readers refer to whatever buffers they like outside the log. The out-parameter is false when
     bget() panics for want of a buffer, which happens exactly if something is to be committed and every buffer is
     listed or referred to; nothing has been written then.
     */
    method Commit(pid: nat) returns (ok: bool)
      requires Valid() && Alone(pid) && pid != 0 && Gathering()
      modifies this`n, cache, cache.buf, cache.disk, cache.next, cache.prev
      ensures Valid() && Alone(pid)
      ensures ok <==> old(n) == 0 || !old(cache.NoneAvailable())
      ensures !ok ==> cache.disk[..] == old(cache.disk[..]) && cache.trace == old(cache.trace)
      ensures old(TransactionOk(cache.disk[..], L(), Gathered()))
      ensures ok ==> n == 0 && cache.NothingDirty() && HeadCount(cache.disk[..], L()) == 0
      ensures ok && old(n) == 0 ==> cache.trace == old(cache.trace)
      ensures ok && old(n) > 0 ==>
        cache.trace == old(cache.trace) + CommitWrites(old(cache.disk[..]), L(), old(Gathered()))
      ensures ok ==> SameHome(L(), cache.disk[..], old(cache.Contents()))
    {
      GatheredOk();
      GatheredIsNewest(pid);
      ghost var d0, t, newest := cache.disk[..], Gathered(), cache.Contents();
      if n == 0 {
        return true;
      }
      CommitResultIsNewest(d0, L(), t, newest);
      ok := CommitGathered(pid);
    }

    // ------------------------------------------------ recovery

    /** read_head(): take log.lh from the disk. */
    method ReadHead(pid: nat)
      requires Valid() && cache.Quiet() && pid != 0 && cache.NothingDirty() && HeaderOk(cache.disk[..], L())
      modifies this`n, block, cache`where, cache`order, cache.buf, cache.next, cache.prev
      ensures Valid() && cache.Quiet() && cache.NothingDirty()
      ensures Heads(cache.disk[..])
    {
      ghost var was := cache.buf[..];
      SpareBuffer([], {});
      QuietAlone(pid);
      cache.CleanViewIsDisk(pid, start);
      var head := cache.ReadOut(pid, start);
      QuietKept(was);
      ParseHead(head.value);
    }

    method ParseHead(head: Block)
      requires Valid() && HeaderOk(cache.disk[..], L()) && head == cache.disk[start]
      modifies this`n, block
      ensures Valid() && Heads(cache.disk[..])
    {
      LoadHead(head, cache.disk[..]);
    }

    method LoadHead(head: Block, ghost d: Disk)
      requires block.Length == LOGSIZE && HeaderOk(d, L()) && head == d[start]
      modifies this`n, block
      ensures n == HeadCount(d, L()) && forall k :: 0 <= k < n ==> block[k] == Target(d, L(), k)
    {
      n := Word(head, 0);
      var i := 0;
      while i < n
        invariant 0 <= i <= n == HeadCount(d, L())
        invariant forall k :: 0 <= k < i ==> block[k] == Target(d, L(), k)
      {
        block[i] := Word(head, 1 + i);
        i := i + 1;
      }
    }

    /** recover_from_log(), on the medium a crash left. */
    method RecoverFromLog(pid: nat)
      requires Valid() && cache.Quiet() && pid != 0 && cache.NothingDirty() && HeaderOk(cache.disk[..], L())
      modifies this`n, block, cache, cache.buf, cache.disk, cache.next, cache.prev
      ensures Valid() && cache.Quiet() && n == 0
      ensures cache.NothingDirty() && HeadCount(cache.disk[..], L()) == 0
      ensures cache.disk[..] == Recovered(old(cache.disk[..]), L())
      ensures cache.trace == old(cache.trace) + RecoverWrites(old(cache.disk[..]), L())
    {
      ghost var d0, t0 := cache.disk[..], cache.trace;
      ReadHead(pid);
      SpareBuffer([], {});
      QuietAlone(pid);
      InstallAndErase(pid, true);
      RecoveredIsCommitted(d0, L());
    }

    // ------------------------------------------------ system calls

    /** begin_op(): false means the caller goes to sleep and tries again. */
    method BeginOp() returns (ok: bool)
      modifies this`outstanding
      ensures ok <==> !committing && n + (old(outstanding) + 1) * MAXOPBLOCKS <= LOGSIZE
      ensures outstanding == if ok then old(outstanding) + 1 else old(outstanding)
    {
      if committing {
        return false;
      } else if n + (outstanding + 1) * MAXOPBLOCKS > LOGSIZE {
        return false;
      }
      outstanding := outstanding + 1;
      return true;
    }

    /** The position of a block in log.lh, or n. */
    method FindLogged(blockno: nat) returns (i: nat)
      requires Valid()
      ensures i <= n && (i < n <==> blockno in Lh())
      ensures i < n ==> block[i] == blockno
    {
      i := 0;
      while i < n
        invariant 0 <= i <= n && blockno !in block[..i]
      {
        if block[i] == blockno {
          assert Lh()[i] == blockno;
          return;
        }
        i := i + 1;
      }
    }

    /** The tests at the head of log_write(). */
    ghost predicate LogWritePanics()
      reads this
    {
      n >= LOGSIZE || n + 1 >= size || outstanding < 1
    }

    /**
     log_write(): list the block once and pin its buffer. False is a panic, and it comes before
     the search for an entry to absorb the write.
     */
    method LogWrite(pid: nat, b: nat) returns (ok: bool)
      requires Valid() && pid != 0 && b < NBUF && cache.Assigned(b)
      requires cache.buf[b].holder == pid && cache.buf[b].valid && !InLog(L(), cache.buf[b].blockno)
      requires Gathering()
      modifies this`n, block, cache.buf
      ensures Valid() && Gathering()
      ensures ok <==> !old(LogWritePanics())
      ensures !ok ==> Lh() == old(Lh()) && cache.buf[..] == old(cache.buf[..])
      ensures ok ==> Lh() == if cache.buf[b].blockno in old(Lh()) then old(Lh()) else old(Lh()) + [cache.buf[b].blockno]
      ensures ok ==> cache.buf[..] == old(cache.buf[..])[b := old(cache.buf[b]).(dirty := true)]
      ensures forall bn :: 0 <= bn < cache.disk.Length ==> cache.View(bn) == old(cache.View(bn))
    {
      if n >= LOGSIZE || n >= size - 1 {
        return false;
      }
      if outstanding < 1 {
        return false;
      }
      ListBlock(cache.buf[b].blockno);
      cache.Pin(pid, b);
      assert forall bn :: cache.Dirty(bn) <==> old(cache.Dirty(bn)) || bn == cache.buf[b].blockno;
      return true;
    }

    /** The absorbing append of log_write(). */
    method ListBlock(blockno: nat)
      requires Valid() && n < LOGSIZE && n + 1 < size
      requires blockno < cache.disk.Length && !InLog(L(), blockno)
      modifies this`n, block
      ensures Valid()
      ensures Lh() == if blockno in old(Lh()) then old(Lh()) else old(Lh()) + [blockno]
    {
      var i := FindLogged(blockno);
      block[i] := blockno;
      if i == n {
        n := n + 1;
        assert Lh() == old(Lh()) + [blockno];
      } else {
        assert Lh() == old(Lh());
      }
    }

    /** Buffer b is locked by pid for block bn; all others are as they were. */
    ghost predicate Opened(pid: nat, was: seq<Buf>, b: nat, bn: nat)
      requires cache.Valid()
      reads cache, cache.disk, cache.buf, cache.next, cache.prev
    {
      && b < NBUF && |was| == NBUF && cache.Holds(pid, b, bn) && cache.buf[b].refcnt >= 1
      && (cache.buf[b].refcnt > 1 ==>
            was[b].refcnt >= cache.buf[b].refcnt - 1 && was[b].dev == cache.buf[b].dev && was[b].blockno == bn)
      && forall i :: 0 <= i < NBUF && i != b ==> cache.buf[i] == was[i]
    }

    /** The buffer of block bn is pinned and unlocked, others refer to it as they did,
     and no other buffer has changed. */
    ghost predicate Closed(was: seq<Buf>, bn: nat)
      requires cache.Valid()
      reads cache, cache.disk, cache.buf, cache.next, cache.prev
    {
      && |was| == NBUF && bn in cache.where && cache.Dirty(bn)
      && var b := cache.where[bn];
      && cache.buf[b].holder == 0 && cache.buf[b].refcnt <= was[b].refcnt
      && forall i :: 0 <= i < NBUF && i != b ==> cache.buf[i] == was[i]
    }

    /**
     The idiom of the file system: bread, change the data, log_write, brelse. Block bn of the plain block map changes,
     no other block does, and the disk is not touched. The caller and others may hold other buffers.
     */
    method UpdateBlock(pid: nat, bn: nat, data: Block) returns (ok: bool)
      requires Valid() && Gathering() && pid != 0
      requires bn < cache.disk.Length && !InLog(L(), bn)
      requires bn in cache.where ==> cache.buf[cache.where[bn]].holder != pid && cache.Unspoiled(cache.where[bn])
      modifies this`n, block, cache`where, cache`order, cache.buf, cache.next, cache.prev
      ensures ok <==> !old(LogWritePanics()) && (bn in old(cache.where) || !old(cache.NoneAvailable()))
      ensures ok ==> Valid() && Gathering() && Closed(old(cache.buf[..]), bn)
      ensures ok ==> cache.Contents() == old(cache.Contents())[bn := data]
      ensures ok ==> Lh() == if bn in old(Lh()) then old(Lh()) else old(Lh()) + [bn]
    {
      ghost var was := cache.buf[..];
      var b := Open(pid, was, bn);
      if b.None? {
        return false;
      }
      ok := FillAndLog(pid, was, b.value, bn, data);
      if ok {
        Close(pid, was, b.value, bn);
      }
    }

    /** bread() of one block while the transaction gathers. */
    method Open(pid: nat, ghost was: seq<Buf>, bn: nat) returns (b: Option<nat>)
      requires Valid() && Gathering() && pid != 0 && bn < cache.disk.Length && was == cache.buf[..]
      requires bn in cache.where ==> cache.buf[cache.where[bn]].holder != pid && cache.Unspoiled(cache.where[bn])
      modifies cache`where, cache.buf
      ensures Valid() && Gathering() && cache.Contents() == old(cache.Contents())
      ensures b.None? <==> bn !in old(cache.where) && old(cache.NoneAvailable())
      ensures b.Some? ==> Opened(pid, was, b.value, bn) && cache.buf[b.value].data == old(cache.Contents())[bn]
    {
      b := cache.Bread(pid, bn);
      assert cache.Contents() == old(cache.Contents());
    }

    /** brelse() of a buffer that has been logged. */
    method Close(pid: nat, ghost was: seq<Buf>, b: nat, bn: nat)
      requires Valid() && Gathering() && pid != 0 && Opened(pid, was, b, bn) && cache.buf[b].dirty
      modifies cache`order, cache.buf, cache.next, cache.prev
      ensures Valid() && Gathering() && Closed(was, bn) && cache.Contents() == old(cache.Contents())
    {
      cache.Brelse(pid, b);
      assert forall x :: cache.Dirty(x) <==> old(cache.Dirty(x));
      assert cache.Contents() == old(cache.Contents());
    }

    method FillAndLog(pid: nat, ghost was: seq<Buf>, b: nat, bn: nat, data: Block) returns (ok: bool)
      requires Valid() && Gathering() && pid != 0 && Opened(pid, was, b, bn) && !InLog(L(), bn)
      modifies this`n, block, cache.buf
      ensures Valid()
      ensures ok <==> !old(LogWritePanics())
      ensures ok ==> Gathering() && Opened(pid, was, b, bn) && cache.buf[b].dirty
      ensures ok ==> cache.Contents() == old(cache.Contents())[bn := data]
      ensures ok ==> Lh() == if bn in old(Lh()) then old(Lh()) else old(Lh()) + [bn]
    {
      cache.Fill(pid, b, data);
      assert forall x :: cache.Dirty(x) <==> old(cache.Dirty(x));
      ok := LogWrite(pid, b);
    }

    /** Between system calls, nothing gathered. */
    ghost predicate Idle()
      reads this, block, cache, cache.disk, cache.buf, cache.next, cache.prev
    {
      Valid() && Gathering() && n == 0 && outstanding == 0 && !committing
    }

    /** Every medium written since |t0| recovers to one of two block maps. */
    ghost predicate CrashSafe(t0: seq<Disk>, before: Disk, after: Disk)
      reads this, cache
    {
      t0 <= cache.trace && forall w :: w in cache.trace[|t0|..] ==> OldOrNew(L(), w, before, after)
    }

    /** commit() seen from outside: the disk catches up with the block map, and no crash can show a part of it. */
    method CommitSafely(pid: nat) returns (ok: bool)
      requires Valid() && Alone(pid) && pid != 0 && Gathering()
      modifies this`n, cache, cache.buf, cache.disk, cache.next, cache.prev
      ensures Valid() && Alone(pid)
      ensures ok <==> old(n) == 0 || !old(cache.NoneAvailable())
      ensures ok ==> n == 0 && Gathering()
      ensures ok ==> SameHome(L(), cache.disk[..], old(cache.Contents()))
      ensures ok ==> SameHome(L(), cache.Contents(), old(cache.Contents()))
      ensures ok ==> CrashSafe(old(cache.trace), old(cache.disk[..]), old(cache.Contents()))
    {
      GatheredOk();
      GatheredIsNewest(pid);
      CommitWritesOldOrNew(cache.disk[..], L(), Gathered(), cache.Contents());
      ok := Commit(pid);
      if ok {
        ContentsOnDisk(pid);
      }
    }

    /** What the last open call does in end_op(). */
    method CommitLast(pid: nat) returns (ok: bool)
      requires Valid() && Alone(pid) && pid != 0 && Gathering() && outstanding == 0 && !committing
      modifies this`n, this`committing, cache, cache.buf, cache.disk, cache.next, cache.prev
      ensures ok <==> old(n) == 0 || !old(cache.NoneAvailable())
      ensures ok ==> Idle() && Alone(pid)
      ensures ok ==> SameHome(L(), cache.disk[..], old(cache.Contents()))
      ensures ok ==> SameHome(L(), cache.Contents(), old(cache.Contents()))
      ensures ok ==> CrashSafe(old(cache.trace), old(cache.disk[..]), old(cache.Contents()))
    {
      committing := true;
      ok := CommitSafely(pid);
      committing := false;
    }

    /** end_op(); false is a panic. Only the last open call commits. */
    method EndOp(pid: nat) returns (ok: bool)
      requires Valid() && Gathering() && pid != 0 && outstanding >= 1 && (outstanding == 1 ==> Alone(pid))
      modifies this`n, this`outstanding, this`committing, cache, cache.buf, cache.disk, cache.next, cache.prev
      ensures ok <==> !old(committing) && (old(outstanding) > 1 || old(n) == 0 || !old(cache.NoneAvailable()))
      ensures ok ==> Valid() && Gathering() && outstanding == old(outstanding) - 1 && !committing
      ensures ok && old(outstanding) > 1 ==> unchanged(`n, block, cache, cache.buf, cache.disk, cache.next, cache.prev)
      ensures ok && old(outstanding) == 1 ==> Idle() && Alone(pid)
      ensures ok && old(outstanding) == 1 ==> SameHome(L(), cache.disk[..], old(cache.Contents()))
      ensures ok && old(outstanding) == 1 ==> SameHome(L(), cache.Contents(), old(cache.Contents()))
      ensures ok && old(outstanding) == 1 ==> CrashSafe(old(cache.trace), old(cache.disk[..]), old(cache.Contents()))
    {
      outstanding := outstanding - 1;
      if committing {
        ok := false;
      } else if outstanding > 0 {
        ok := true;
      } else {
        ok := CommitLast(pid);
      }
    }

    /** The transaction holds the first i updates, none of which has reached the disk. */
    ghost predicate InCall(pid: nat, c0: seq<Block>, updates: seq<(nat, Block)>, i: nat)
      reads this, block, cache, cache.disk, cache.buf, cache.next, cache.prev
    {
      && Valid() && Alone(pid) && Gathering() && outstanding == 1 && !committing
      && i <= |updates| && (forall k :: 0 <= k < n ==> Lh()[k] in Blocks(updates))
      && cache.Contents() == After(c0, updates[..i])
    }

    /** However often a call writes them, it lists its blocks once each. */
    lemma ListedOnce(updates: seq<(nat, Block)>)
      requires Valid() && Distinct(Lh()) && forall k :: 0 <= k < n ==> Lh()[k] in Blocks(updates)
      ensures n <= |Blocks(updates)|
    {
      ElementsSize(Lh());
      SubsetSize(Elements(Lh()), Blocks(updates));
    }

    /** An update that cannot panic, by a process that holds no buffer. */
    method UpdateSurely(pid: nat, bn: nat, data: Block)
      requires Valid() && Gathering() && Alone(pid) && pid != 0 && !LogWritePanics() && !cache.NoneAvailable()
      requires bn < cache.disk.Length && !InLog(L(), bn)
      modifies this`n, block, cache`where, cache`order, cache.buf, cache.next, cache.prev
      ensures Valid() && Gathering() && Alone(pid) && cache.Contents() == old(cache.Contents())[bn := data]
      ensures Lh() == if bn in old(Lh()) then old(Lh()) else old(Lh()) + [bn]
    {
      ghost var was := cache.buf[..];
      var ok := UpdateBlock(pid, bn, data);
      ClosedAlone(pid, was, bn);
    }

    method UpdateNext(pid: nat, ghost c0: seq<Block>, updates: seq<(nat, Block)>, i: nat)
      requires InCall(pid, c0, updates, i) && i < |updates| && pid != 0
      requires |Blocks(updates)| <= MAXOPBLOCKS && MAXOPBLOCKS + 1 < size && |readers| + MAXOPBLOCKS < NBUF
      requires updates[i].0 < cache.disk.Length && !InLog(L(), updates[i].0)
      modifies this`n, block, cache`where, cache`order, cache.buf, cache.next, cache.prev
      ensures InCall(pid, c0, updates, i + 1)
    {
      ListedOnce(updates);
      SpareBuffer(Lh(), readers);
      AfterNext(c0, updates, i);
      UpdateSurely(pid, updates[i].0, updates[i].1);
    }

    lemma ClosedAlone(pid: nat, was: seq<Buf>, bn: nat)
      requires Valid() && pid != 0 && Closed(was, bn) && Private(was) && !InLog(L(), bn)
      requires forall k :: 0 <= k < NBUF ==> was[k].holder != pid
      requires forall k | 0 <= k < NBUF && was[k].dev == ROOTDEV && was[k].blockno < cache.disk.Length ::
                 was[k].valid && !was[k].dirty ==> was[k].data == cache.disk[was[k].blockno]
      ensures Alone(pid)
    {
    }

    /**
     A whole system call: begin_op, any number of updates of at most MAXOPBLOCKS distinct blocks, end_op, while others
     refer to no more buffers than leave one to recycle. The block map takes all of the updates, the disk follows, and
     a crash at any of the disk writes recovers to the contents before the call or to those after it.
     */
    method SystemCall(pid: nat, updates: seq<(nat, Block)>)
      requires Idle() && Alone(pid) && pid != 0 && |Blocks(updates)| <= MAXOPBLOCKS && MAXOPBLOCKS + 1 < size
      requires |readers| + MAXOPBLOCKS < NBUF
      requires forall i :: 0 <= i < |updates| ==> updates[i].0 < cache.disk.Length && !InLog(L(), updates[i].0)
      modifies this`n, this`outstanding, this`committing, block, cache, cache.buf, cache.disk, cache.next, cache.prev
      ensures Idle() && Alone(pid)
      ensures SameHome(L(), cache.Contents(), After(old(cache.Contents()), updates))
      ensures SameHome(L(), cache.disk[..], After(old(cache.Contents()), updates))
      ensures CrashSafe(old(cache.trace), old(cache.disk[..]), After(old(cache.Contents()), updates))
    {
      ghost var c0 := cache.Contents();
      var ok := BeginOp();
      var i := 0;
      while i < |updates|
        invariant 0 <= i <= |updates| && InCall(pid, c0, updates, i)
        invariant cache.trace == old(cache.trace) && cache.disk[..] == old(cache.disk[..])
      {
        UpdateNext(pid, c0, updates, i);
        i := i + 1;
      }
      assert updates[..i] == updates;
      ListedOnce(updates);
      SpareBuffer(Lh(), readers);
      ok := EndOp(pid);
    }
  }
}

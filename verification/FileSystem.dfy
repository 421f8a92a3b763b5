/**
 fs.c: the block allocator, the block map of an inode, and reading, writing and truncating
 files, over the block map that the log layer provides (bread/log_write/brelse of block b is
 reading and replacing blocks[b]). `logged` collects the blocks passed to log_write().
 */
module FileSystem {
  import opened Common
  import opened Bytes
  import opened Bitmap
  import opened FsState
  import opened DInode
  import opened Files
  import opened LogSpace
  import opened FreeSpace
  import opened Truncate
  import opened Updates

  /** -1, the panic "out of blocks", or the number of bytes written. */
  datatype WriteResult = Refused | OutOfBlocks | Wrote(n: nat)

  /** filewrite(): -1, the panic "out of blocks", or all bytes written; `done` bytes were written before it ended. */
  datatype FileWriteResult = Failed(done: nat) | Stuck(done: nat) | All(done: nat)

  /** A whole number of chunks, or everything. */
  predicate AtChunk(n: nat, k: nat) {
    k % CHUNK == 0 || k == n
  }

  /** Where filewrite()'s chunk at k ends. */
  function ChunkEnd(n: nat, k: nat): (next: nat)
    requires k <= n && AtChunk(n, k)
    ensures k <= next <= n && next - k <= CHUNK && (next == k + CHUNK || next == n) && (k < n ==> k < next) &&
            AtChunk(n, next)
  {
    if n - k > CHUNK then k + CHUNK else n
  }

  /** How much of n bytes at off filewrite() can write before a chunk would pass the largest file. */
  function Reach(off: nat, n: nat): (k: nat)
    ensures k <= n
  {
    if off + n <= MAXFILE * BSIZE then n
    else if off > MAXFILE * BSIZE then 0
    else (MAXFILE * BSIZE - off) / CHUNK * CHUNK
  }

  /** Every chunk that is not refused ends within reach. */
  lemma ReachIsLast(off: nat, n: nat, k: nat, next: nat)
    requires k < n && AtChunk(n, k) && next == ChunkEnd(n, k) && off + next <= MAXFILE * BSIZE
    ensures next <= Reach(off, n)
  {
    if off + n > MAXFILE * BSIZE {
      assert next % CHUNK == 0;
      assert next / CHUNK <= (MAXFILE * BSIZE - off) / CHUNK;
    }
  }

  /** One that is refused begins at the reach. */
  lemma ReachIsHere(off: nat, n: nat, k: nat, next: nat)
    requires k < n && AtChunk(n, k) && next == ChunkEnd(n, k) && off + k <= MAXFILE * BSIZE < off + next
    ensures Reach(off, n) == k
  {
    var m := MAXFILE * BSIZE - off;
    assert k % CHUNK == 0 && k <= m < k + CHUNK;
    assert m / CHUNK == k / CHUNK;
  }

  /** writei()'s checks, in 32-bit arithmetic. */
  predicate Refuses(size: nat, off: nat, n: nat)
    requires size <= MAXFILE * BSIZE && off < UINT_LIMIT && n < UINT_LIMIT
    ensures Refuses(size, off, n) <==> off > size || off + n > MAXFILE * BSIZE
  {
    off > size || (off + n) % UINT_LIMIT < off || (off + n) % UINT_LIMIT > MAXFILE * BSIZE
  }

  /** off + n < off, in 32-bit arithmetic. */
  predicate Wraps(off: nat, n: nat)
    requires off < UINT_LIMIT && n < UINT_LIMIT
    ensures Wraps(off, n) <==> off + n >= UINT_LIMIT
  {
    (off + n) % UINT_LIMIT < off
  }

  /** Where a read of n bytes at off ends: at the end of the file at the latest. */
  function ReadEnd(size: nat, off: nat, n: nat): (last: nat)
    requires off <= size
    ensures off <= last <= size
  {
    if off + n > size then size else off + n
  }

  class FileSystem {
    const g: Geometry
    var blocks: seq<Block>
    var inodes: map<nat, Inode> // the in-memory inodes, ip->...
    ghost var owner: map<nat, Slot>
    var writes: seq<(nat, Block)> // what log_write() has been given in the current call, in order
    ghost var logged: set<nat>
    ghost var base: seq<Block> // the blocks when the current call began

    constructor (fs: Fs, ghost owner: map<nat, Slot>)
      ensures Now() == fs && this.owner == owner && logged == {} && Tracked()
    {
      g, blocks, inodes := fs.g, fs.blocks, fs.inodes;
      this.owner, logged, writes, base := owner, {}, [], fs.blocks;
    }

    /** The call has changed the blocks by what it has given to log_write(), none of them below the inodes. */
    ghost predicate Tracked()
      reads this`blocks, this`logged, this`writes, this`base
    {
      Replays(g, base, writes, blocks, logged)
    }

    static ghost predicate Replays(g: Geometry, base: seq<Block>, writes: seq<(nat, Block)>, blocks: seq<Block>,
                                   logged: set<nat>) {
      && blocks == After(base, writes) && Blocks(writes) == logged
      && forall b :: b in logged ==> g.inodestart <= b < |base|
    }

    /** So every block that has changed is in the log. */
    static lemma ReplaysLogs(g: Geometry, base: seq<Block>, writes: seq<(nat, Block)>, blocks: seq<Block>,
                             logged: set<nat>)
      requires Replays(g, base, writes, blocks, logged)
      ensures Logs(g, base, blocks, logged)
    {
      forall b | 0 <= b < |base| && b !in logged ensures blocks[b] == base[b] {
        AfterElsewhere(base, writes, b);
      }
    }

    ghost function Now(): Fs
      reads this
    {
      Fs(g, blocks, inodes)
    }

    // ------------------------------------------------ the block allocator

    /** Replace a block through the log. */
    method LogWrite(b: nat, data: Block)
      requires b < |blocks|
      modifies this`blocks, this`logged, this`writes
      ensures blocks == old(blocks)[b := data] && logged == old(logged) + {b}
      ensures old(Tracked()) && g.inodestart <= b ==> Tracked()
    {
      if b < |base| {
        AfterMore(base, writes, b, data);
      }
      blocks := blocks[b := data];
      logged, writes := logged + {b}, writes + [(b, data)];
    }

    /** One bitmap block of balloc()'s search: the first clear bit for a block from b on. */
    method ScanBitmapBlock(b: nat) returns (bi: nat)
      requires Shape(Now()) && b < g.size && b % BPB == 0
      ensures bi <= BPB && b + bi <= g.size
      ensures forall x :: b <= x < b + bi ==> Marked(Now(), x)
      ensures bi < BPB && b + bi < g.size ==> !Marked(Now(), b + bi)
    {
      BitmapBelowData(g, b);
      var data := blocks[BitmapBlock(g, b)];
      bi := 0;
      while bi < BPB && b + bi < g.size
        invariant bi <= BPB && b + bi <= g.size
        invariant forall x :: b <= x < b + bi ==> Marked(Now(), x)
      {
        assert (b + bi) / BPB == b / BPB && (b + bi) % BPB == bi;
        if !BitOf(data[bi / 8], bi % 8) {
          return;
        }
        assert Marked(Now(), b + bi);
        bi := bi + 1;
      }
    }

    /** balloc()'s search, bitmap block by bitmap block: the lowest block that is not marked. */
    method FindFree() returns (r: Option<nat>)
      requires Shape(Now())
      ensures r.None? <==> forall x :: 0 <= x < g.size ==> Marked(Now(), x)
      ensures r.Some? ==> r.value < g.size && !Marked(Now(), r.value) && forall x :: 0 <= x < r.value ==>
                Marked(Now(), x)
    {
      var b := 0;
      while b < g.size
        invariant b % BPB == 0
        invariant forall x :: 0 <= x < b && x < g.size ==> Marked(Now(), x)
      {
        var bi := ScanBitmapBlock(b);
        var x := b + bi;
        if bi < BPB && x < g.size {
          return Some(x);
        }
        b := b + BPB;
      }
      return None;
    }

    /** Mark block x in bitmap block bm, and zero it. */
    method Claim(x: nat, bm: nat, bi: nat)
      requires Shape(Now()) && Tracked() && x < g.size && bm == BitmapBlock(g, x) && bi == x % BPB
      modifies this`blocks, this`logged, this`writes
      ensures g.inodestart <= x ==> Tracked()
      ensures blocks == old(Flip(Now(), x, true).blocks)[x := ZeroBlock()] && logged == old(logged) + {bm, x}
    {
      BitmapBelowData(g, x);
      LogWrite(bm, SetBit(blocks[bm], bi));
      LogWrite(x, ZeroBlock());
    }

    /** balloc(): the first free block, marked and zeroed; None is the panic "out of blocks". */
    method Balloc() returns (r: Option<nat>)
      requires Shape(Now()) && Tracked()
      modifies this`blocks, this`logged, this`writes
      ensures (r.Some? ==> g.inodestart <= r.value) ==> Tracked()
      ensures r.None? ==> blocks == old(blocks) && logged == old(logged)
      ensures r.None? <==> forall x :: 0 <= x < g.size ==> old(Marked(Now(), x))
      ensures r.Some? ==> r.value < g.size && !old(Marked(Now(), r.value))
      ensures r.Some? ==> forall x :: 0 <= x < r.value ==> old(Marked(Now(), x))
      ensures r.Some? ==> blocks == old(Flip(Now(), r.value, true).blocks)[r.value := ZeroBlock()]
      ensures r.Some? ==> logged == old(logged) + {BitmapBlock(g, r.value), r.value}
    {
      r := FindFree();
      if r.Some? {
        var x := r.value;
        Claim(x, BitmapBlock(g, x), x % BPB);
      }
    }

    /** bfree(): false is the panic "freeing free block". */
    method Bfree(b: nat) returns (ok: bool)
      requires Shape(Now()) && b < g.size
      requires Tracked()
      modifies this`blocks, this`logged, this`writes
      ensures Tracked()
      ensures ok <==> old(Marked(Now(), b))
      ensures !ok ==> blocks == old(blocks)
      ensures ok ==> Now() == old(Flip(Now(), b, false)) && logged == old(logged) + {BitmapBlock(g, b)}
    {
      BitmapBelowData(g, b);
      var bm := BitmapBlock(g, b);
      var bi := b % BPB;
      if !BitOf(blocks[bm][bi / 8], bi % 8) {
        return false;
      }
      LogWrite(bm, ClearBit(blocks[bm], bi));
      return true;
    }

    // ------------------------------------------------ the block map of an inode

    ghost predicate Valid()
      reads this
    {
      Inv(Now(), owner, Nothing())
    }

    /** balloc() in terms of the invariant: a zeroed block in passage, no file touched. */
    method AllocateBlock() returns (r: Option<nat>)
      requires Valid()
      requires Tracked()
      modifies this`blocks, this`logged, this`writes
      ensures Tracked()
      ensures r.None? ==> Now() == old(Now()) && DiskFull(Now())
      ensures r.Some? ==> Handed(old(Now()), Now(), owner, r.value)
      ensures r.Some? ==> logged == old(logged) + {BitmapBlock(g, r.value), r.value}
    {
      r := Balloc();
      if r.Some? {
        BallocHands(old(Now()), owner, r.value);
        BitmapBelowData(g, r.value);
      }
    }

    static lemma BallocHands(fs: Fs, owner: map<nat, Slot>, b: nat)
      requires Inv(fs, owner, Nothing()) && b < fs.g.size && !Marked(fs, b)
      ensures b < |Flip(fs, b, true).blocks|
      ensures Handed(fs, WithBlock(Flip(fs, b, true), b, ZeroBlock()), owner, b)
    {
      BitmapBelowData(fs.g, b);
      var marked := Flip(fs, b, true);
      MarkKeeps(fs, owner, Nothing(), b);
      assert Nothing() + {b} == Only(b);
      WriteDataKeeps(marked, owner, Only(b), b, ZeroBlock());
    }

    /** ip->addrs[k] = balloc(), for an empty direct slot. */
    method FillDirect(i: nat, k: nat) returns (r: Option<nat>)
      requires Valid() && i in inodes && k < NDIRECT && Addr(Now(), i, k) == 0
      requires Tracked()
      modifies this`blocks, this`logged, this`writes, this`inodes, this`owner
      ensures Tracked()
      ensures r.None? ==> DiskFull(Now()) && Now() == old(Now()) && owner == old(owner)
      ensures r.Some? ==> Gains(old(owner), owner, r.value)
      ensures r.Some? ==> Filled(old(Now()), Now(), old(owner), owner, Slot(i, k), r.value)
      ensures r.Some? ==> logged == old(logged) + {BitmapBlock(g, r.value), r.value}
    {
      r := AllocateBlock();
      if r.Some? {
        var b := r.value;
        HandedToDirect(old(Now()), Now(), owner, i, k, b);
        inodes := inodes[i := inodes[i].(addrs := inodes[i].addrs[k := b])];
        owner := owner[b := Slot(i, k)];
      }
    }

    /** ip->addrs[NDIRECT] = balloc(), for a file without an indirect block. */
    method FillIndirect(i: nat) returns (r: Option<nat>)
      requires Valid() && i in inodes && Addr(Now(), i, INDIRECT) == 0
      requires Tracked()
      modifies this`blocks, this`logged, this`writes, this`inodes, this`owner
      ensures Tracked()
      ensures r.None? ==> DiskFull(Now()) && Now() == old(Now()) && owner == old(owner)
      ensures r.Some? ==> Gains(old(owner), owner, r.value)
      ensures r.Some? ==> Filled(old(Now()), Now(), old(owner), owner, Slot(i, INDIRECT), r.value)
      ensures r.Some? ==> logged == old(logged) + {BitmapBlock(g, r.value), r.value}
    {
      r := AllocateBlock();
      if r.Some? {
        var b := r.value;
        HandedToIndirect(old(Now()), Now(), owner, i, b);
        inodes := inodes[i := inodes[i].(addrs := inodes[i].addrs[NDIRECT := b])];
        owner := owner[b := Slot(i, INDIRECT)];
      }
    }

    /** a[j] = b in the indirect block of inode i. */
    method Enter(i: nat, ind: nat, j: nat, b: nat)
      requires Inv(Now(), owner, Only(b)) && b < UINT_LIMIT && i in inodes && j < NINDIRECT
      requires ind == Addr(Now(), i, INDIRECT) != 0 && Addr(Now(), i, NDIRECT + j) == 0 && ind < |blocks|
      requires Tracked()
      modifies this`blocks, this`logged, this`writes, this`owner
      ensures Tracked()
      ensures Entered(old(Now()), Now(), owner, Slot(i, NDIRECT + j), ind, b) && Gains(old(owner), owner, b)
      ensures logged == old(logged) + {ind}
    {
      ghost var fs := Now();
      LogWrite(ind, PutWord(blocks[ind], j, b));
      EnterKeeps(fs, Now(), owner, i, ind, j, b);
      owner := owner[b := Slot(i, NDIRECT + j)];
    }

    /** a[j] = balloc(), for an empty entry of the indirect block. */
    method FillEntry(i: nat, ind: nat, j: nat) returns (r: Option<nat>)
      requires Valid() && i in inodes && j < NINDIRECT
      requires ind == Addr(Now(), i, INDIRECT) != 0 && Addr(Now(), i, NDIRECT + j) == 0
      requires Tracked()
      modifies this`blocks, this`logged, this`writes, this`inodes, this`owner
      ensures Tracked()
      ensures r.None? ==> DiskFull(Now()) && Now() == old(Now()) && owner == old(owner)
      ensures r.Some? ==> Gains(old(owner), owner, r.value)
      ensures r.Some? ==> Filled(old(Now()), Now(), old(owner), owner, Slot(i, NDIRECT + j), r.value)
      ensures r.Some? ==> logged == old(logged) + {BitmapBlock(g, r.value), r.value} + {ind}
    {
      ghost var fs0, o := Now(), owner;
      assert ind in owner && owner[ind] == Slot(i, INDIRECT);
      r := AllocateBlock();
      if r.Some? {
        ghost var fs1 := Now();
        assert Addr(fs1, i, INDIRECT) == ind && Addr(fs1, i, NDIRECT + j) == 0;
        Enter(i, ind, j, r.value);
        HandedThenEntered(fs0, fs1, Now(), o, owner, Slot(i, NDIRECT + j), ind, r.value);
      }
    }

    static lemma AlreadyMapped(fs: Fs, owner: map<nat, Slot>, i: nat, bn: nat)
      requires Inv(fs, owner, Nothing()) && i in fs.inodes && bn < MAXFILE && Addr(fs, i, bn) != 0
      ensures Mapped(fs, fs, owner, i, bn, Addr(fs, i, bn))
    {
      var r := Addr(fs, i, bn);
      assert r in owner;
      forall j, k | j in fs.inodes && 0 <= k <= INDIRECT ensures SameSlot(fs, fs, j, k) {
        assert Addr(fs, j, k) != 0 ==> Addr(fs, j, k) in owner;
      }
    }

    /** bmap() of a direct block. */
    method BmapDirect(i: nat, bn: nat) returns (r: Option<nat>)
      requires Valid() && i in inodes && bn < NDIRECT
      requires Tracked()
      modifies this`blocks, this`logged, this`writes, this`inodes, this`owner
      ensures Tracked()
      ensures r.None? ==> DiskFull(Now()) && Now() == old(Now()) && owner == old(owner)
      ensures old(Addr(Now(), i, bn)) != 0 ==> r.Some? && owner == old(owner)
      ensures r.Some? ==> Mapped(old(Now()), Now(), owner, i, bn, r.value)
      ensures r.Some? ==> MapLogged(old(logged), logged, old(Now()), Now(), i, bn, r.value)
      ensures r.Some? ==> MapGrows(old(owner), owner, old(Now()), Now(), i, bn)
    {
      ghost var fs0, o := Now(), owner;
      var addr := inodes[i].addrs[bn];
      assert addr == Addr(fs0, i, bn);
      if addr != 0 {
        AlreadyMapped(fs0, o, i, bn);
        return Some(addr);
      }
      r := FillDirect(i, bn);
      if r.Some? {
        DirectMapped(fs0, Now(), o, owner, i, bn, r.value);
      }
    }

    method ReadEntry(i: nat, ind: nat, bn: nat) returns (addr: nat)
      requires Valid() && i in inodes && NDIRECT <= bn < MAXFILE && ind == Addr(Now(), i, INDIRECT) != 0
      ensures addr == Addr(Now(), i, bn)
    {
      assert ind in owner;
      addr := Word(blocks[ind], bn - NDIRECT);
    }

    /** bmap() for an inode whose indirect block exists. */
    method BmapIndirect(i: nat, ind: nat, bn: nat) returns (r: Option<nat>)
      requires Valid() && i in inodes && NDIRECT <= bn < MAXFILE && ind == Addr(Now(), i, INDIRECT) != 0
      requires Tracked()
      modifies this`blocks, this`logged, this`writes, this`inodes, this`owner
      ensures Tracked()
      ensures r.None? ==> DiskFull(Now()) && Now() == old(Now()) && owner == old(owner)
      ensures old(Addr(Now(), i, bn)) != 0 ==> r.Some? && owner == old(owner)
      ensures r.Some? ==> Mapped(old(Now()), Now(), owner, i, bn, r.value) && Addr(Now(), i, INDIRECT) == ind
      ensures r.Some? ==> MapLogged(old(logged), logged, old(Now()), Now(), i, bn, r.value)
      ensures r.Some? ==> MapGrows(old(owner), owner, old(Now()), Now(), i, bn)
    {
      ghost var fs0, o := Now(), owner;
      var addr := ReadEntry(i, ind, bn);
      if addr != 0 {
        AlreadyMapped(fs0, o, i, bn);
        return Some(addr);
      }
      r := FillEntry(i, ind, bn - NDIRECT);
      if r.Some? {
        EntryMapped(fs0, Now(), o, owner, i, bn, r.value);
        assert Addr(Now(), i, INDIRECT) == ind;
      }
    }

    /** bmap() for an inode whose indirect block is still to be made. */
    method BmapNewIndirect(i: nat, bn: nat) returns (r: Option<nat>)
      requires Valid() && i in inodes && NDIRECT <= bn < MAXFILE && Addr(Now(), i, INDIRECT) == 0
      requires Tracked()
      modifies this`blocks, this`logged, this`writes, this`inodes, this`owner
      ensures Tracked()
      ensures r.None? ==> MapStops(old(owner), owner, old(Now()), Now(), i, bn)
      ensures old(Addr(Now(), i, bn)) != 0 ==> r.Some? && owner == old(owner)
      ensures r.Some? ==> Mapped(old(Now()), Now(), owner, i, bn, r.value)
      ensures r.Some? ==> MapLogged(old(logged), logged, old(Now()), Now(), i, bn, r.value)
      ensures r.Some? ==> MapGrows(old(owner), owner, old(Now()), Now(), i, bn)
    {
      ghost var fs0, o := Now(), owner;
      var ind := FillIndirect(i);
      if ind.None? {
        return None;
      }
      ghost var fs1, o1 := Now(), owner;
      r := BmapIndirect(i, ind.value, bn);
      if r.Some? {
        IndirectThenMapped(fs0, fs1, Now(), o, o1, owner, i, ind.value, bn, r.value);
      }
    }

    /** bmap(): the block of slot bn, allocated if need be; None is a panic, "out of range" or "out of blocks". */
    method Bmap(i: nat, bn: nat) returns (r: Option<nat>)
      requires Valid() && i in inodes
      requires Tracked()
      modifies this`blocks, this`logged, this`writes, this`inodes, this`owner
      ensures Tracked()
      ensures r.None? ==> bn >= MAXFILE || MapStops(old(owner), owner, old(Now()), Now(), i, bn)
      ensures r.Some? ==> bn < MAXFILE && Mapped(old(Now()), Now(), owner, i, bn, r.value)
      ensures r.Some? ==> MapLogged(old(logged), logged, old(Now()), Now(), i, bn, r.value)
      ensures r.Some? ==> MapGrows(old(owner), owner, old(Now()), Now(), i, bn)
      ensures bn < MAXFILE && old(Addr(Now(), i, bn)) != 0 ==> r.Some? && owner == old(owner)
    {
      if bn < NDIRECT {
        r := BmapDirect(i, bn);
        return;
      }
      if bn >= MAXFILE {
        return None;
      }
      var ind := inodes[i].addrs[NDIRECT];
      assert ind == Addr(Now(), i, INDIRECT);
      if ind == 0 {
        r := BmapNewIndirect(i, bn);
      } else {
        r := BmapIndirect(i, ind, bn);
      }
    }

    // ------------------------------------------------ writing

    /** memmove(bp->data + o, src + tot, m); log_write(bp), for the block of slot bn. */
    method PatchBlock(i: nat, ghost bn: nat, r: nat, o: nat, src: seq<byte>, tot: nat, m: nat) returns (ghost d: Block)
      requires Valid() && i in inodes && bn < MAXFILE && r == Addr(Now(), i, bn) != 0
      requires o + m <= BSIZE && tot + m <= |src|
      requires Tracked()
      modifies this`blocks, this`logged, this`writes
      ensures Tracked()
      ensures r < |old(blocks)| && Now() == WithBlock(old(Now()), r, d) && Patched(d, old(blocks)[r], o, src, tot, m)
      ensures Patch(old(Now()), Now(), owner, i) && logged == old(logged) + {r}
    {
      assert r in owner;
      var data := blocks[r][..o] + src[tot..tot + m] + blocks[r][o + m..];
      PatchBytes(Now(), owner, i, bn, r, data);
      LogWrite(r, data);
      d := data;
    }

    /** bmap(ip, bn), then a copy into the block it gives. */
    method MapAndPatch(i: nat, bn: nat, o: nat, src: seq<byte>, tot: nat, m: nat)
      returns (ok: bool, ghost fs1: Fs, ghost l1: set<nat>, ghost r: nat, ghost d: Block)
      requires Valid() && i in inodes && bn < MAXFILE && o + m <= BSIZE && tot + m <= |src|
      requires Tracked()
      modifies this`blocks, this`logged, this`writes, this`inodes, this`owner
      ensures Tracked()
      ensures !ok ==> MapStops(old(owner), owner, old(Now()), Now(), i, bn)
      ensures ok ==> WriteStep(old(Now()), fs1, Now(), owner, i, bn, o, src, tot, m, r, d)
      ensures ok ==> MapLogged(old(logged), l1, old(Now()), fs1, i, bn, r) && logged == l1 + {r}
      ensures ok ==> MapGrows(old(owner), owner, old(Now()), fs1, i, bn)
    {
      var b := Bmap(i, bn);
      fs1, l1, d := Now(), logged, ZeroBlock();
      if b.None? {
        return false, fs1, l1, 0, d;
      }
      d := PatchBlock(i, bn, b.value, o, src, tot, m);
      return true, fs1, l1, b.value, d;
    }

    /** One round of writei()'s loop, m bytes at offset at; false is the panic "out of blocks". */
    method WriteRound(i: nat, ghost fs0: Fs, ghost o0: map<nat, Slot>, ghost c: seq<byte>, ghost l0: set<nat>, off: nat,
                      src: seq<byte>, tot: nat, at: nat, m: nat, ghost next: nat, ghost last: nat) returns (ok: bool)
      requires Underway(fs0, o0, c, l0, Now(), owner, logged, i, off, src, at) && tot == at - off && next == at + m
      requires 0 < m <= BSIZE - at % BSIZE && tot + m <= |src| && (at == off || at % BSIZE == 0) && last == off + |src|
      requires Tracked()
      modifies this`blocks, this`logged, this`writes, this`inodes, this`owner
      ensures Tracked()
      ensures !ok ==> DiskFull(Now()) && !RoomFor(g, o0, |c|, last)
      ensures ok ==> Underway(fs0, o0, c, l0, Now(), owner, logged, i, off, src, next)
    {
      ghost var fs, o, l := Now(), owner, logged;
      BlockIndex(at);
      ghost var fs1, l1, r, d;
      var bn, q := at / BSIZE, at % BSIZE;
      ok, fs1, l1, r, d := MapAndPatch(i, bn, q, src, tot, m);
      if ok {
        ghost var w := Round(fs, o, fs1, Now(), owner, i, off, src, tot, at, bn, q, m, next, r, d);
        UnderwayStep(fs0, o0, c, l0, l, l1, logged, w);
      } else {
        UnderwayStops(fs0, o0, c, l0, fs, o, l, Now(), owner, i, off, src, at, bn, last);
      }
    }

    /** writei()'s loop. */
    method CopyIn(i: nat, ghost fs0: Fs, ghost o0: map<nat, Slot>, ghost c: seq<byte>, ghost l0: set<nat>, off: nat,
                  src: seq<byte>, ghost last: nat)
      returns (ok: bool, end: nat)
      requires Underway(fs0, o0, c, l0, Now(), owner, logged, i, off, src, off) && last == off + |src|
      requires Tracked()
      modifies this`blocks, this`logged, this`writes, this`inodes, this`owner
      ensures Tracked()
      ensures !ok ==> DiskFull(Now()) && !RoomFor(g, o0, |c|, last)
      ensures ok ==> end == last && Underway(fs0, o0, c, l0, Now(), owner, logged, i, off, src, last)
    {
      var tot, at, n := 0, off, |src|;
      while tot < n
        invariant tot <= n && tot == at - off && RoundEnd(off, n, at)
        invariant Underway(fs0, o0, c, l0, Now(), owner, logged, i, off, src, at) && Tracked()
      {
        var next := RoundNext(off, n, at);
        var m := next - at;
        ok := WriteRound(i, fs0, o0, c, l0, off, src, tot, at, m, next, last);
        if !ok {
          return false, at;
        }
        tot, at := tot + m, next;
      }
      assert at == last;
      return true, at;
    }

    /** iupdate(): copy the in-memory inode to its place on disk, in block x. */
    method Iupdate(i: nat, x: nat)
      requires Shape(Now()) && i in inodes && i < g.ninodes && InodeOk(inodes[i]) && x == IBlock(g, i) &&
               x < g.bmapstart
      requires Tracked()
      modifies this`blocks, this`logged, this`writes
      ensures Tracked()
      ensures Now() == Updated(old(Now()), i) && logged == old(logged) + {x}
    {
      LogWrite(x, PutInode(blocks[x], i % IPB, inodes[i]));
    }

    method SetInodeSize(i: nat, size: nat)
      requires i in inodes
      modifies this`inodes
      ensures Now() == WithSize(old(Now()), i, size)
    {
      inodes := inodes[i := inodes[i].(size := size)];
    }

    /** Every byte is copied, and the size is set. */
    static ghost predicate SizeSet(fs0: Fs, owner0: map<nat, Slot>, c: seq<byte>, fs: Fs, fs1: Fs,
                                   owner: map<nat, Slot>, i: nat, off: nat, src: seq<byte>, last: nat) {
      CopyDone(fs0, owner0, c, fs, owner, i, off, src, last) && last > |c| && i in fs.inodes &&
      fs1 == WithSize(fs, i, last)
    }

    /** The addresses of inode i are the same. */
    static ghost predicate SameInodeAddrs(fs: Fs, fs': Fs, i: nat) {
      && Shape(fs) && Shape(fs') && fs'.g == fs.g && i in fs.inodes && i in fs'.inodes
      && forall k :: 0 <= k <= INDIRECT ==> Addr(fs', i, k) == Addr(fs, i, k)
    }

    static lemma UpdatedAddrs(fs0: Fs, owner0: map<nat, Slot>, c: seq<byte>, fs: Fs, fs1: Fs, fs2: Fs,
                              owner: map<nat, Slot>, i: nat, off: nat, src: seq<byte>, last: nat)
      requires SizeSet(fs0, owner0, c, fs, fs1, owner, i, off, src, last)
      requires IBlock(fs1.g, i) < fs1.g.bmapstart && Shape(fs1) && InodeOk(fs1.inodes[i]) && fs2 == Updated(fs1, i)
      ensures SameInodeAddrs(fs, fs2, i)
    {
      var x := IBlock(fs1.g, i);
      ResizeKeeps(fs, fs1, owner, i, last);
      InodeBlockWrite(fs1, fs2, owner, x, fs2.blocks[x]);
    }

    /** iupdate() at the end of a writei() that passed the end of the file. */
    method SyncGrown(i: nat, x: nat, ghost fs0: Fs, ghost owner0: map<nat, Slot>, ghost c: seq<byte>, ghost fs: Fs,
                     ghost off: nat, ghost src: seq<byte>, ghost last: nat)
      requires SizeSet(fs0, owner0, c, fs, Now(), owner, i, off, src, last) && x == IBlock(g, i)
      requires Tracked()
      modifies this`blocks, this`logged, this`writes
      ensures Tracked()
      ensures WriteMade(fs0, Now(), owner, i, off, src) && logged == old(logged) + {x}
      ensures SameInodeAddrs(fs, Now(), i)
    {
      ghost var fs1 := Now();
      GrownReady(fs0, owner0, c, fs, fs1, owner, i, off, src, last);
      Iupdate(i, x);
      UpdatedAddrs(fs0, owner0, c, fs, fs1, Now(), owner, i, off, src, last);
      WriteSynced(fs0, owner0, c, fs, fs1, Now(), owner, i, off, src, last);
    }

    /** The end of a writei() that passed the end of the file. */
    method Grow(i: nat, x: nat, ghost fs0: Fs, ghost owner0: map<nat, Slot>, ghost c: seq<byte>, ghost off: nat,
                ghost src: seq<byte>, ghost last: nat, end: nat)
      requires CopyDone(fs0, owner0, c, Now(), owner, i, off, src, last) && end == last && last > |c| &&
               x == IBlock(g, i) && i in inodes
      requires Tracked()
      modifies this`blocks, this`logged, this`writes, this`inodes
      ensures Tracked()
      ensures WriteMade(fs0, Now(), owner, i, off, src) && logged == old(logged) + {x}
      ensures SameInodeAddrs(old(Now()), Now(), i)
    {
      ghost var fs := Now();
      SetInodeSize(i, end);
      SyncGrown(i, x, fs0, owner0, c, fs, off, src, last);
    }

    static lemma GrownSpent(fs0: Fs, o0: map<nat, Slot>, fs: Fs, fs': Fs, o: map<nat, Slot>, l: set<nat>, l': set<nat>,
                            i: nat, size: nat, off: nat, last: nat, x: nat)
      requires Allocating(fs0, o0, fs, o, l, i, size, off, last) && SameInodeAddrs(fs, fs', i)
      requires l' == l + {x} && x == IBlock(fs0.g, i)
      ensures Spent(fs0, o0, fs', o, l', i, size, off, last)
    {
      AllocatingKept(fs0, o0, fs, fs', o, l, l', i, size, off, last);
    }

    /** A complete write of n bytes: the file, what was logged, and what was allocated. */
    static ghost predicate Written(fs0: Fs, owner0: map<nat, Slot>, l0: set<nat>, fs: Fs, owner: map<nat, Slot>,
                                   l: set<nat>, i: nat, size: nat, off: nat, src: seq<byte>, n: nat, last: nat) {
      && WriteMade(fs0, fs, owner, i, off, src) && Within(l0, l, size, off, n)
      && Spent(fs0, owner0, fs, owner, l, i, size, off, last)
    }

    static lemma InPlaceEnd(fs0: Fs, owner0: map<nat, Slot>, c: seq<byte>, l0: set<nat>, fs: Fs, owner: map<nat, Slot>,
                            l: set<nat>, i: nat, size: nat, off: nat, src: seq<byte>, n: nat, last: nat)
      requires Sound(fs0, owner0) && i in fs0.inodes && c == Content(fs0, i) && last == off + n && n == |src|
      requires Underway(fs0, owner0, c, l0, fs, owner, l, i, off, src, last) && last <= size && size == |c|
      ensures Written(fs0, owner0, l0, fs, owner, l, i, size, off, src, n, last)
    {
      CountedTotal(l0, l, fs0, fs, i, size, off, n, last, 0);
      WriteInPlace(fs0, owner0, c, fs, owner, i, off, src, last);
    }

    static lemma CopyReady(fs0: Fs, owner0: map<nat, Slot>, c: seq<byte>, l0: set<nat>, fs: Fs, owner: map<nat, Slot>,
                           l: set<nat>, i: nat, off: nat, src: seq<byte>, last: nat)
      requires Sound(fs0, owner0) && i in fs0.inodes && c == Content(fs0, i) && last == off + |src|
      requires Underway(fs0, owner0, c, l0, fs, owner, l, i, off, src, last)
      ensures CopyDone(fs0, owner0, c, fs, owner, i, off, src, last)
    {
    }

    method GrowEnd(i: nat, ghost fs0: Fs, ghost owner0: map<nat, Slot>, ghost c: seq<byte>, ghost l0: set<nat>,
                   ghost size: nat, ghost off: nat, ghost src: seq<byte>, ghost n: nat, ghost last: nat, end: nat)
      requires Sound(fs0, owner0) && i in fs0.inodes && c == Content(fs0, i) && last == off + n && n == |src| &&
               i in inodes
      requires Underway(fs0, owner0, c, l0, Now(), owner, logged, i, off, src, last) && last > size && size == |c| &&
               end == last
      requires Tracked()
      modifies this`blocks, this`logged, this`writes, this`inodes
      ensures Tracked() && Written(fs0, owner0, l0, Now(), owner, logged, i, size, off, src, n, last)
    {
      var x := IBlock(g, i);
      ghost var fs, l := Now(), logged;
      CopyReady(fs0, owner0, c, l0, fs, owner, l, i, off, src, last);
      Grow(i, x, fs0, owner0, c, off, src, last, end);
      GrownWritten(fs0, owner0, c, l0, fs, Now(), owner, l, logged, i, size, off, src, n, last, x);
    }

    static lemma GrownWritten(fs0: Fs, owner0: map<nat, Slot>, c: seq<byte>, l0: set<nat>, fs: Fs, fs': Fs,
                              owner: map<nat, Slot>, l: set<nat>, l': set<nat>, i: nat, size: nat, off: nat,
                              src: seq<byte>, n: nat, last: nat, x: nat)
      requires Underway(fs0, owner0, c, l0, fs, owner, l, i, off, src, last) && size == |c| && last == off + n
      requires WriteMade(fs0, fs', owner, i, off, src) && SameInodeAddrs(fs, fs', i) && l' == l + {x} &&
               x == IBlock(fs0.g, i)
      ensures Written(fs0, owner0, l0, fs', owner, l', i, size, off, src, n, last)
    {
      CountedTotal(l0, l, fs0, fs, i, size, off, n, last, x);
      GrownSpent(fs0, owner0, fs, fs', owner, l, l', i, size, off, last, x);
    }

    static lemma SizeStill(fs0: Fs, owner0: map<nat, Slot>, c: seq<byte>, l0: set<nat>, fs: Fs, owner: map<nat, Slot>,
                           l: set<nat>, i: nat, off: nat, src: seq<byte>, last: nat)
      requires Underway(fs0, owner0, c, l0, fs, owner, l, i, off, src, last)
      ensures i in fs.inodes && fs.inodes[i].size == |c|
    {
    }

    /** The end of writei(). */
    method SetSize(i: nat, ghost fs0: Fs, ghost owner0: map<nat, Slot>, ghost c: seq<byte>, ghost l0: set<nat>,
                   ghost size: nat, ghost off: nat, ghost src: seq<byte>, ghost n: nat, ghost last: nat, end: nat)
      requires Sound(fs0, owner0) && i in fs0.inodes && c == Content(fs0, i) && last == off + n && n == |src| &&
               size == |c|
      requires Underway(fs0, owner0, c, l0, Now(), owner, logged, i, off, src, last) && end == last
      requires Tracked()
      modifies this`blocks, this`logged, this`writes, this`inodes
      ensures Tracked() && Written(fs0, owner0, l0, Now(), owner, logged, i, size, off, src, n, last)
    {
      SizeStill(fs0, owner0, c, l0, Now(), owner, logged, i, off, src, last);
      if end > inodes[i].size {
        GrowEnd(i, fs0, owner0, c, l0, size, off, src, n, last, end);
      } else {
        InPlaceEnd(fs0, owner0, c, l0, Now(), owner, logged, i, size, off, src, n, last);
      }
    }

    /** writei() past its checks; false is the panic "out of blocks". */
    method WriteChecked(i: nat, ghost fs0: Fs, ghost o0: map<nat, Slot>, ghost l0: set<nat>, ghost size: nat, off: nat,
                        src: seq<byte>, ghost n: nat, ghost last: nat) returns (ok: bool)
      requires Now() == fs0 && owner == o0 && logged == l0 && i in fs0.inodes && size == fs0.inodes[i].size
      requires Sound(fs0, o0) && n == |src| && last == off + n && off <= size && last <= MAXFILE * BSIZE
      requires Tracked()
      modifies this`blocks, this`logged, this`writes, this`inodes, this`owner
      ensures Tracked()
      ensures !ok ==> DiskFull(Now())
      ensures ok <==> RoomFor(g, o0, size, last)
      ensures ok ==> Written(fs0, o0, l0, Now(), owner, logged, i, size, off, src, n, last)
    {
      ghost var c := Content(fs0, i);
      UnderwayStarts(fs0, o0, c, l0, i, off, src);
      var end;
      ok, end := CopyIn(i, fs0, o0, c, l0, off, src, last);
      if ok {
        UnderwayEnds(fs0, o0, c, l0, Now(), owner, logged, i, off, src, last);
        SetSize(i, fs0, o0, c, l0, size, off, src, n, last, end);
      }
    }

    /** writei()'s checks. */
    method Accepts(size: nat, off: nat, n: nat, ghost last: nat) returns (ok: bool)
      requires size <= MAXFILE * BSIZE && off < UINT_LIMIT && n < UINT_LIMIT && last == off + n
      ensures ok <==> off <= size && last <= MAXFILE * BSIZE
    {
      ok := !Refuses(size, off, n);
    }

    /** writei() of a file that is not a device; `last` is where the write ends. */
    method WriteI(i: nat, off: nat, src: seq<byte>, ghost last: nat) returns (r: WriteResult)
      requires Sound(Now(), owner) && i in inodes && off < UINT_LIMIT && |src| < UINT_LIMIT && last == off + |src|
      requires Tracked()
      modifies this`blocks, this`logged, this`writes, this`inodes, this`owner
      ensures Tracked()
      ensures r.Refused? <==> off > old(inodes)[i].size || last > MAXFILE * BSIZE
      ensures r.Refused? ==> Now() == old(Now()) && owner == old(owner) && logged == old(logged)
      ensures r.OutOfBlocks? ==> DiskFull(Now())
      ensures !r.Refused? ==> (r.Wrote? <==> RoomFor(g, old(owner), old(inodes)[i].size, last))
      ensures r.Wrote? ==> r.n == |src|
      ensures r.Wrote? ==>
        Written(old(Now()), old(owner), old(logged), Now(), owner, logged, i,
                old(inodes)[i].size, off, src, |src|, last)
    {
      var n := |src|;
      ghost var fs0, o0, l0, size := Now(), owner, logged, inodes[i].size;
      SizeBound(fs0, o0, i);
      var ok := Accepts(inodes[i].size, off, n, last);
      if !ok {
        return Refused;
      }
      ok := WriteChecked(i, fs0, o0, l0, size, off, src, n, last);
      return if ok then Wrote(n) else OutOfBlocks;
    }

    static lemma SizeBound(fs: Fs, owner: map<nat, Slot>, i: nat)
      requires Sound(fs, owner) && i in fs.inodes
      ensures fs.inodes[i].size <= MAXFILE * BSIZE
    {
    }

    // ------------------------------------------------ reading

    /** The state, to the last ghost, is this one. */
    ghost predicate Still(fs: Fs, o: map<nat, Slot>, l: set<nat>)
      reads this
    {
      Now() == fs && owner == o && logged == l && Tracked()
    }

    /** File i of a sound file system has content c. */
    static ghost predicate Has(fs: Fs, o: map<nat, Slot>, i: nat, c: seq<byte>) {
      Sound(fs, o) && i in fs.inodes && c == Content(fs, i)
    }

    /** One round of readi()'s loop: bmap() finds the block without allocating. */
    method ReadRound(i: nat, ghost fs: Fs, ghost o: map<nat, Slot>, ghost l: set<nat>, ghost c: seq<byte>, at: nat,
                     m: nat, ghost next: nat)
      returns (data: seq<byte>)
      requires Still(fs, o, l) && Has(fs, o, i, c) && at < next <= |c| && m == next - at && m <= BSIZE - at % BSIZE
      modifies this`blocks, this`logged, this`writes, this`inodes, this`owner
      ensures Still(fs, o, l) && IsSlice(data, c, at, next)
    {
      var bn, q := at / BSIZE, at % BSIZE;
      MappedBelowEnd(fs, i, at, bn);
      var b := Bmap(i, bn);
      var r := b.value;
      assert r in owner;
      data := blocks[r][q..q + m];
      ReadBytes(fs, i, c, at, next, bn, q, m, r, data);
    }

    /** The body of readi()'s loop. */
    method ReadNext(i: nat, ghost fs: Fs, ghost o: map<nat, Slot>, ghost l: set<nat>, ghost c: seq<byte>, off: nat,
                    n: nat, ghost last: nat, at: nat, dst: seq<byte>) returns (next: nat, more: seq<byte>)
      requires Still(fs, o, l) && Has(fs, o, i, c) && last == off + n && off <= at < last <= |c| &&
               IsSlice(dst, c, off, at)
      modifies this`blocks, this`logged, this`writes, this`inodes, this`owner
      ensures Still(fs, o, l) && at < next <= last && IsSlice(more, c, off, next)
    {
      next := RoundNext(off, n, at);
      var m := next - at;
      var data := ReadRound(i, fs, o, l, c, at, m, next);
      SlicesJoin(c, dst, data, off, at, next);
      more := dst + data;
    }

    /** readi()'s loop. */
    method CopyOut(i: nat, ghost fs: Fs, ghost o: map<nat, Slot>, ghost l: set<nat>, ghost c: seq<byte>, off: nat,
                   n: nat, last: nat)
      returns (dst: seq<byte>)
      requires Still(fs, o, l) && Has(fs, o, i, c) && last == off + n && last <= |c|
      modifies this`blocks, this`logged, this`writes, this`inodes, this`owner
      ensures Still(fs, o, l) && IsSlice(dst, c, off, last)
    {
      dst := [];
      var at := off;
      NoSlice(c, off);
      while at < last
        invariant off <= at <= last && IsSlice(dst, c, off, at) && Still(fs, o, l)
      {
        at, dst := ReadNext(i, fs, o, l, c, off, n, last, at, dst);
      }
    }

    /** d is the part of c from a to b. */
    static ghost predicate IsSlice(d: seq<byte>, c: seq<byte>, a: nat, b: nat) {
      a <= b <= |c| && d == c[a..b]
    }

    static lemma NoSlice(c: seq<byte>, off: nat)
      requires off <= |c|
      ensures IsSlice([], c, off, off)
    {
    }

    static lemma SlicesJoin(c: seq<byte>, d: seq<byte>, e: seq<byte>, off: nat, at: nat, next: nat)
      requires IsSlice(d, c, off, at) && IsSlice(e, c, at, next)
      ensures IsSlice(d + e, c, off, next)
    {
    }

    /** readi() of a file that is not a device; None is -1. */
    method ReadI(i: nat, off: nat, n: nat) returns (r: Option<seq<byte>>)
      requires Sound(Now(), owner) && Tracked() && i in inodes && off < UINT_LIMIT && n < UINT_LIMIT
      modifies this`blocks, this`logged, this`writes, this`inodes, this`owner
      ensures Now() == old(Now()) && owner == old(owner) && logged == old(logged)
      ensures r.None? <==> off > inodes[i].size || off + n >= UINT_LIMIT
      ensures r.Some? ==> r.value == Content(Now(), i)[off..ReadEnd(inodes[i].size, off, n)]
    {
      var size := inodes[i].size;
      if off > size || Wraps(off, n) {
        return None;
      }
      var last := ReadEnd(size, off, n);
      ghost var fs, o, l, c := Now(), owner, logged, Content(Now(), i);
      var m := last - off;
      var dst := CopyOut(i, fs, o, l, c, off, m, last);
      return Some(dst);
    }

    /** What writei() wrote, readi() reads back. */
    method WriteThenRead(i: nat, off: nat, src: seq<byte>) returns (w: WriteResult, r: Option<seq<byte>>)
      requires Sound(Now(), owner) && Tracked() && i in inodes && off < UINT_LIMIT && |src| < UINT_LIMIT
      modifies this`blocks, this`logged, this`writes, this`inodes, this`owner
      ensures w.Wrote? ==> r == Some(src)
    {
      ghost var fs0 := Now();
      var n := |src|;
      ghost var last := off + n;
      w := WriteI(i, off, src, last);
      r := None;
      if w.Wrote? {
        r := ReadBack(i, fs0, off, n, src, last);
      }
    }

    method ReadBack(i: nat, ghost fs0: Fs, off: nat, n: nat, ghost src: seq<byte>,
                    ghost last: nat) returns (r: Option<seq<byte>>)
      requires WriteMade(fs0, Now(), owner, i, off, src) && Tracked() && off < UINT_LIMIT && n < UINT_LIMIT
      requires n == |src| && last == off + n
      modifies this`blocks, this`logged, this`writes, this`inodes, this`owner
      ensures r == Some(src)
    {
      WroteSize(fs0, Now(), owner, i, off, src, last);
      OverwrittenReads(Content(fs0, i), off, src, n, last);
      r := ReadI(i, off, n);
    }

    static lemma OverwrittenReads(c: seq<byte>, off: nat, s: seq<byte>, n: nat, last: nat)
      requires off <= |c| && n == |s| && last == off + n
      ensures last <= |Overwritten(c, off, s)| && Overwritten(c, off, s)[off..last] == s
    {
    }

    // ------------------------------------------------ truncating

    /** The blocks as they are, with other inodes. */
    ghost function Under(ins: map<nat, Inode>): Fs
      reads this
    {
      Fs(g, blocks, ins)
    }

    /** if(b) bfree(b), for the block of slot k: never the panic "freeing free block". */
    method ReleaseOne(b: nat, ghost fs0: Fs, ghost owner0: map<nat, Slot>, ghost ins: map<nat, Inode>, ghost i: nat,
                      ghost k: nat, ghost next: nat)
      requires Shape(Now()) && Releasing(fs0, owner0, Under(ins), i, k)
      requires k <= INDIRECT && b == Addr(fs0, i, k) && next == k + 1
      requires Tracked()
      modifies this`blocks, this`logged, this`writes
      ensures logged == old(logged) + SlotMap(fs0, i, k)
      ensures Tracked()
      ensures Shape(Now()) && Releasing(fs0, owner0, Under(ins), i, next)
    {
      ghost var e := Under(ins);
      if b != 0 {
        ReleaseSlot(fs0, owner0, e, i, k, next, b);
        var ok := Bfree(b);
        assert ok && Under(ins) == Flip(e, b, false);
      } else {
        ReleaseNone(fs0, owner0, e, i, k, next);
      }
    }

    /** The inodes of fs0, with the first k addresses of inode i cleared. */
    static ghost predicate ClearedTo(fs0: Fs, ins: map<nat, Inode>, i: nat, k: nat) {
      && i in fs0.inodes && |fs0.inodes[i].addrs| == NDIRECT + 1 && i in ins && |ins[i].addrs| == NDIRECT + 1
      && (forall j :: 0 <= j <= NDIRECT ==> ins[i].addrs[j] == if j < k then 0 else fs0.inodes[i].addrs[j])
      && ins == fs0.inodes[i := fs0.inodes[i].(addrs := ins[i].addrs)]
    }

    method ReleaseNext(i: nat, k: nat, ghost next: nat, ghost fs0: Fs, ghost owner0: map<nat, Slot>,
                       ghost ins: map<nat, Inode>)
      requires Shape(Now()) && Releasing(fs0, owner0, Under(ins), i, k) && ClearedTo(fs0, inodes, i, k) && Tracked()
      requires k < NDIRECT && next == k + 1
      modifies this`blocks, this`logged, this`writes, this`inodes
      ensures logged == old(logged) + SlotMap(fs0, i, k)
      ensures Shape(Now()) && Releasing(fs0, owner0, Under(ins), i, next) && ClearedTo(fs0, inodes, i, next) &&
              Tracked()
    {
      ReleaseOne(inodes[i].addrs[k], fs0, owner0, ins, i, k, next);
      inodes := inodes[i := inodes[i].(addrs := inodes[i].addrs[k := 0])];
    }

    /** The direct slots: freed and cleared. */
    method ReleaseDirect(i: nat, ghost fs0: Fs, ghost owner0: map<nat, Slot>, ghost ins: map<nat, Inode>)
      requires Now() == fs0 && Releasing(fs0, owner0, Under(ins), i, 0) && ClearedTo(fs0, inodes, i, 0)
      requires Tracked()
      modifies this`blocks, this`logged, this`writes, this`inodes
      ensures MapsLogged(fs0, i, NDIRECT, old(logged), logged)
      ensures Tracked()
      ensures Shape(Now()) && Releasing(fs0, owner0, Under(ins), i, NDIRECT) && ClearedTo(fs0, inodes, i, NDIRECT)
    {
      var k := 0;
      while k < NDIRECT
        invariant k <= NDIRECT && Shape(Now()) && Tracked() && Releasing(fs0, owner0, Under(ins), i, k)
        invariant ClearedTo(fs0, inodes, i, k) && MapsLogged(fs0, i, k, old(logged), logged)
      {
        var next := k + 1;
        ghost var l := logged;
        ReleaseNext(i, k, next, fs0, owner0, ins);
        MapsLoggedNext(fs0, i, k, next, old(logged), l, logged);
        k := next;
      }
    }

    /** ReleaseOne(), with what has been logged since l0. */
    method ReleaseLogged(b: nat, ghost fs0: Fs, ghost owner0: map<nat, Slot>, ghost ins: map<nat, Inode>, ghost i: nat,
                         ghost k: nat, ghost next: nat, ghost l0: set<nat>)
      requires Shape(Now()) && Releasing(fs0, owner0, Under(ins), i, k)
      requires k <= INDIRECT && b == Addr(fs0, i, k) && next == k + 1
      requires Tracked() && MapsLogged(fs0, i, k, l0, logged)
      modifies this`blocks, this`logged, this`writes
      ensures MapsLogged(fs0, i, next, l0, logged)
      ensures Tracked()
      ensures Shape(Now()) && Releasing(fs0, owner0, Under(ins), i, next)
    {
      ghost var l := logged;
      ReleaseOne(b, fs0, owner0, ins, i, k, next);
      MapsLoggedNext(fs0, i, k, next, l0, l, logged);
    }

    method ReleaseEntries(a: Block, ghost fs0: Fs, ghost owner0: map<nat, Slot>, ghost ins: map<nat, Inode>,
                          ghost i: nat, ghost l0: set<nat>)
      requires Shape(Now()) && Releasing(fs0, owner0, Under(ins), i, NDIRECT)
      requires forall j :: 0 <= j < NINDIRECT ==> Word(a, j) == Addr(fs0, i, NDIRECT + j)
      requires Tracked() && MapsLogged(fs0, i, NDIRECT, l0, logged)
      modifies this`blocks, this`logged, this`writes
      ensures MapsLogged(fs0, i, INDIRECT, l0, logged)
      ensures Tracked()
      ensures Shape(Now()) && Releasing(fs0, owner0, Under(ins), i, INDIRECT)
    {
      var j, k := 0, NDIRECT;
      while j < NINDIRECT
        invariant j <= NINDIRECT && k == NDIRECT + j && Shape(Now()) && Tracked()
        invariant Releasing(fs0, owner0, Under(ins), i, k) && MapsLogged(fs0, i, k, l0, logged)
      {
        var next := k + 1;
        ReleaseLogged(Word(a, j), fs0, owner0, ins, i, k, next, l0);
        j, k := j + 1, next;
      }
    }

    /** The entries of the indirect block, then that block. */
    method ReleaseIndirect(ind: nat, ghost fs0: Fs, ghost owner0: map<nat, Slot>, ghost ins: map<nat, Inode>,
                           ghost i: nat, ghost l0: set<nat>)
      requires Shape(Now()) && Releasing(fs0, owner0, Under(ins), i, NDIRECT) && ind == Addr(fs0, i, INDIRECT) != 0
      requires Tracked() && MapsLogged(fs0, i, NDIRECT, l0, logged)
      modifies this`blocks, this`logged, this`writes
      ensures MapsLogged(fs0, i, INDIRECT + 1, l0, logged)
      ensures Tracked()
      ensures Shape(Now()) && Releasing(fs0, owner0, Under(ins), i, INDIRECT + 1)
    {
      assert ind in owner0;
      var a := blocks[ind];
      assert a == fs0.blocks[ind];
      ReleaseEntries(a, fs0, owner0, ins, i, l0);
      ReleaseLogged(ind, fs0, owner0, ins, i, INDIRECT, INDIRECT + 1, l0);
    }

    method ReleaseAll(i: nat, ghost fs0: Fs, ghost owner0: map<nat, Slot>, ghost ins: map<nat, Inode>)
      requires Now() == fs0 && Releasing(fs0, owner0, Under(ins), i, 0) && ClearedTo(fs0, inodes, i, 0)
      requires Tracked()
      modifies this`blocks, this`logged, this`writes, this`inodes
      ensures MapsLogged(fs0, i, INDIRECT + 1, old(logged), logged)
      ensures Tracked()
      ensures Releasing(fs0, owner0, Under(ins), i, INDIRECT + 1) && ClearedTo(fs0, inodes, i, NDIRECT)
    {
      ReleaseDirect(i, fs0, owner0, ins);
      var ind := inodes[i].addrs[NDIRECT];
      assert ind == Addr(fs0, i, INDIRECT);
      if ind != 0 {
        ReleaseIndirect(ind, fs0, owner0, ins, i, old(logged));
      } else {
        ReleaseNoIndirect(fs0, owner0, Under(ins), i);
        NoIndirectMaps(fs0, i);
      }
    }

    /** ip->addrs[NDIRECT] = 0; ip->size = 0. */
    method ClearInode(i: nat, ghost fs0: Fs)
      requires ClearedTo(fs0, inodes, i, NDIRECT)
      modifies this`inodes
      ensures inodes == Emptied(fs0, i).inodes
    {
      inodes := inodes[i := inodes[i].(size := 0, addrs := inodes[i].addrs[NDIRECT := 0])];
      assert inodes[i].addrs == NoAddrs();
    }

    /** iupdate() of the emptied inode, in block x; its blocks are nobody's any more. */
    method StoreEmptied(i: nat, x: nat, ghost fs0: Fs, ghost owner0: map<nat, Slot>)
      requires Releasing(fs0, owner0, Now(), i, INDIRECT + 1) && Sound(fs0, owner0) && x == IBlock(g, i)
      requires Tracked() && owner == OwnerWithout(owner0, i)
      modifies this`blocks, this`logged, this`writes
      ensures logged == old(logged) + {x}
      ensures Tracked() && Truncated(fs0, owner0, Now(), owner, i)
    {
      ghost var e := Now();
      TruncateReady(fs0, owner0, e, i);
      Iupdate(i, x);
      ghost var fs := Now();
      TruncateDone(fs0, owner0, e, fs, owner, i);
    }

    /** itrunc(): the file is empty, exactly its blocks are free, and no other file has changed. It never panics. */
    method Itrunc(i: nat)
      requires Sound(Now(), owner) && i in inodes
      requires Tracked()
      modifies this`blocks, this`logged, this`writes, this`inodes, this`owner
      ensures Tracked() && logged == old(logged) + FileMaps(old(Now()), i, INDIRECT + 1) + {IBlock(g, i)}
      ensures Truncated(old(Now()), old(owner), Now(), owner, i)
    {
      ghost var fs0, owner0, ins := Now(), owner, Emptied(Now(), i).inodes;
      ReleaseStarts(fs0, owner0, i);
      ReleaseAll(i, fs0, owner0, ins);
      ClearInode(i, fs0);
      var x := IBlock(g, i);
      owner := OwnerWithout(owner0, i);
      StoreEmptied(i, x, fs0, owner0);
    }

    // ------------------------------------------------ filewrite()

    static lemma SizeWritten(fs0: Fs, fs: Fs, o: map<nat, Slot>, i: nat, size: nat, off: nat, src: seq<byte>, last: nat)
      requires WriteMade(fs0, fs, o, i, off, src) && size == fs0.inodes[i].size && last == off + |src|
      ensures i in fs.inodes && fs.inodes[i].size == Max(size, last) && off <= size <= MAXFILE * BSIZE
    {
      assert |Content(fs, i)| == fs.inodes[i].size;
      assert |Content(fs0, i)| == size;
    }

    /** A write has taken exactly the blocks it needed. */
    static lemma WrittenPaid(fs0: Fs, o0: map<nat, Slot>, fs: Fs, o: map<nat, Slot>, l: set<nat>, i: nat, size: nat,
                             off: nat, src: seq<byte>, last: nat)
      requires Sound(fs0, o0) && i in fs0.inodes && size == fs0.inodes[i].size && last == off + |src|
      requires WriteMade(fs0, fs, o, i, off, src) && Spent(fs0, o0, fs, o, l, i, size, off, last)
      ensures Paid(o0, o, size, last)
    {
      SizeWritten(fs0, fs, o, i, size, off, src, last);
      AllocatedAll(fs0, o0, fs, o, l, i, size, off, last);
    }

    /**
     One transaction of filewrite(): begin_op(), writei() of a chunk, end_op(). It fits its log reservation, and it
     panics out of blocks exactly if the disk has fewer than it needs.
     */
    method WriteChunk(i: nat, off: nat, src: seq<byte>, ghost last: nat) returns (r: WriteResult)
      requires Sound(Now(), owner) && i in inodes && off < UINT_LIMIT && |src| <= CHUNK && last == off + |src|
      modifies this
      ensures r.Refused? <==> off > old(inodes)[i].size || last > MAXFILE * BSIZE
      ensures r.Refused? ==> Now() == old(Now()) && owner == old(owner) && logged == {}
      ensures r.OutOfBlocks? ==> DiskFull(Now())
      ensures !r.Refused? ==> (r.Wrote? <==> RoomFor(g, old(owner), old(inodes)[i].size, last))
      ensures r.Wrote? ==> r.n == |src| && WriteMade(old(Now()), Now(), owner, i, off, src) && |logged| <= MAXOPBLOCKS
      ensures r.Wrote? ==> Logs(g, old(blocks), blocks, logged) && Replays(g, old(blocks), writes, blocks, logged)
      ensures r.Wrote? ==> Paid(old(owner), owner, old(inodes)[i].size, last)
    {
      BeginCall();
      ghost var fs0, o0, l0, size, n := Now(), owner, logged, inodes[i].size, |src|;
      r := WriteI(i, off, src, last);
      if r.Wrote? {
        ChunkReserved(l0, logged, size, off, n);
        ReplaysLogs(g, base, writes, blocks, logged);
        WrittenPaid(fs0, o0, Now(), owner, logged, i, size, off, src, last);
      }
    }

    /** begin_op(): nothing has been given to log_write() yet. */
    method BeginCall()
      modifies this`logged, this`writes, this`base
      ensures Tracked() && logged == {} && base == blocks
    {
      logged, writes, base := {}, [], blocks;
    }

    /** filewrite() has written the bytes of a at off, up to `at`, and paid for them. */
    ghost predicate Filed(fs0: Fs, o0: map<nat, Slot>, i: nat, size: nat, off: nat, a: seq<byte>, at: nat)
      reads this
    {
      && fs0.g == g && i in fs0.inodes && size == fs0.inodes[i].size && at == off + |a|
      && WriteMade(fs0, Now(), owner, i, off, a) && Paid(o0, owner, size, at)
    }

    /** A chunk written after the bytes of a, at `at`. */
    method NextChunk(i: nat, ghost fs0: Fs, ghost o0: map<nat, Slot>, ghost size: nat, ghost off: nat,
                     ghost a: seq<byte>, at: nat, chunk: seq<byte>, ghost ab: seq<byte>, ghost last: nat)
      returns (r: WriteResult)
      requires Filed(fs0, o0, i, size, off, a, at) && ab == a + chunk && last == at + |chunk|
      requires at < UINT_LIMIT && |chunk| <= CHUNK
      modifies this
      ensures r.Refused? <==> last > MAXFILE * BSIZE
      ensures r.Refused? ==> Filed(fs0, o0, i, size, off, a, at)
      ensures r.OutOfBlocks? ==> DiskFull(Now()) && !RoomFor(g, o0, size, last)
      ensures r.Wrote? ==> r.n == |chunk| && Filed(fs0, o0, i, size, off, ab, last) && |logged| <= MAXOPBLOCKS
    {
      ghost var fs1, o1, size1 := Now(), owner, inodes[i].size;
      SizeWritten(fs0, fs1, o1, i, size, off, a, at);
      RoomLeft(g, o0, o1, size, at, size1, last);
      r := WriteChunk(i, at, chunk, last);
      if r.Wrote? {
        WritesJoin(fs0, fs1, Now(), o1, owner, i, off, at, a, chunk, ab);
        PaidMore(o0, o1, owner, size, at, size1, last);
      }
    }

    static lemma WroteSize(fs0: Fs, fs: Fs, owner: map<nat, Slot>, i: nat, off: nat, a: seq<byte>, at: nat)
      requires WriteMade(fs0, fs, owner, i, off, a) && at == off + |a|
      ensures i in fs.inodes && at <= fs.inodes[i].size <= MAXFILE * BSIZE
    {
      assert |Content(fs, i)| >= at;
    }

    static lemma PrefixGrows(src: seq<byte>, k: nat, next: nat)
      requires k <= next <= |src|
      ensures src[..next] == src[..k] + src[k..next]
    {
    }

    /** What has been written had room. */
    lemma HadRoom(fs0: Fs, o0: map<nat, Slot>, i: nat, size: nat, off: nat, a: seq<byte>, at: nat)
      requires Filed(fs0, o0, i, size, off, a, at)
      ensures RoomFor(g, o0, size, at)
    {
      FullIffOwned(Now(), owner);
      RoomLeft(g, o0, owner, size, at, Max(size, at), at);
    }

    /** filewrite()'s loop ends, done or refused, with every block it needed. */
    lemma EndsRoomy(fs0: Fs, o0: map<nat, Slot>, i: nat, size: nat, off: nat, a: seq<byte>, at: nat, n: nat, k: nat,
                    top: nat)
      requires Filed(fs0, o0, i, size, off, a, at) && |a| == k && AtChunk(n, k) && k <= n && top == off + Reach(off, n)
      requires k < n ==> MAXFILE * BSIZE < off + ChunkEnd(n, k)
      ensures RoomFor(g, o0, size, top) && off + k <= MAXFILE * BSIZE
    {
      HadRoom(fs0, o0, i, size, off, a, at);
      WroteSize(fs0, Now(), owner, i, off, a, at);
      if k < n {
        ReachIsHere(off, n, k, ChunkEnd(n, k));
      }
      assert top == at;
    }

    /** One that gets stuck would have needed more than the disk has for all that can be written. */
    static lemma StuckEarly(g: Geometry, o0: map<nat, Slot>, size: nat, off: nat, n: nat, k: nat, next: nat, last: nat,
                            top: nat)
      requires g.datastart <= g.size && k < n && AtChunk(n, k) && next == ChunkEnd(n, k) && last == off + next
      requires last <= MAXFILE * BSIZE && !RoomFor(g, o0, size, last) && top == off + Reach(off, n)
      ensures !RoomFor(g, o0, size, top)
    {
      ReachIsLast(off, n, k, next);
      NeededAdds(size, last, Max(size, last), top);
    }

    /** One round of filewrite()'s loop: src[k..next] at `at`. */
    method ChunkAt(i: nat, ghost fs0: Fs, ghost o0: map<nat, Slot>, ghost size: nat, ghost off: nat, src: seq<byte>,
                   k: nat, next: nat, at: nat, ghost last: nat)
      returns (r: WriteResult)
      requires k <= next <= |src| && next - k <= CHUNK && Filed(fs0, o0, i, size, off, src[..k], at)
      requires at == off + k && last == off + next
      modifies this
      ensures r.Refused? <==> last > MAXFILE * BSIZE
      ensures r.Refused? ==> Filed(fs0, o0, i, size, off, src[..k], at)
      ensures r.OutOfBlocks? ==> DiskFull(Now()) && !RoomFor(g, o0, size, last)
      ensures r.Wrote? ==> r.n == next - k && Filed(fs0, o0, i, size, off, src[..next], last)
    {
      WroteSize(fs0, Now(), owner, i, off, src[..k], at);
      PrefixGrows(src, k, next);
      r := NextChunk(i, fs0, o0, size, off, src[..k], at, src[k..next], src[..next], last);
    }

    /** filewrite()'s loop, for an offset within the file; `top` is how far it can get. */
    method WriteChunks(i: nat, off: nat, src: seq<byte>, ghost top: nat) returns (r: FileWriteResult)
      requires Sound(Now(), owner) && i in inodes && off <= inodes[i].size && top == off + Reach(off, |src|)
      modifies this
      ensures r.done <= |src|
      ensures r.Stuck? ==> DiskFull(Now())
      ensures r.Stuck? <==> !RoomFor(g, old(owner), old(inodes)[i].size, top)
      ensures !r.Stuck? ==> WriteMade(old(Now()), Now(), owner, i, off, src[..r.done])
      ensures r.All? ==> r.done == |src|
      ensures r.Failed? ==> AtChunk(|src|, r.done) && off + r.done <= MAXFILE * BSIZE < off + ChunkEnd(|src|, r.done)
    {
      ghost var fs0, o0, size := Now(), owner, inodes[i].size;
      var k, at, n := 0, off, |src|;
      NothingWritten(fs0, owner, i, off);
      assert src[..k] == [];
      while k < n
        invariant k <= n && at == off + k && AtChunk(n, k) && Filed(fs0, o0, i, size, off, src[..k], at)
      {
        var next := ChunkEnd(n, k);
        ghost var last := off + next;
        var w := ChunkAt(i, fs0, o0, size, off, src, k, next, at, last);
        if w.Refused? {
          EndsRoomy(fs0, o0, i, size, off, src[..k], at, n, k, top);
          return Failed(k);
        }
        if w.OutOfBlocks? {
          StuckEarly(g, o0, size, off, n, k, next, last, top);
          return Stuck(k);
        }
        k, at := next, at + w.n;
        assert at == last;
      }
      EndsRoomy(fs0, o0, i, size, off, src[..k], at, n, k, top);
      return All(n);
    }

    /** filewrite() to an inode; off' is the new f->off. */
    method FileWrite(i: nat, off: nat, src: seq<byte>) returns (r: FileWriteResult, off': nat)
      requires Sound(Now(), owner) && i in inodes && off < UINT_LIMIT
      modifies this
      ensures r.done <= |src| && off' == off + r.done
      ensures r.Stuck? ==> DiskFull(Now())
      ensures r.Stuck? <==>
        off <= old(inodes)[i].size && !RoomFor(g, old(owner), old(inodes)[i].size, off + Reach(off, |src|))
      ensures !r.Stuck? && off <= old(inodes)[i].size ==> WriteMade(old(Now()), Now(), owner, i, off, src[..r.done])
      ensures !r.Stuck? && off > old(inodes)[i].size ==> Now() == old(Now()) && r.done == 0
      ensures !r.Stuck? ==> (r.Failed? <==> src != [] && (off > old(inodes)[i].size || off + |src| > MAXFILE * BSIZE))
      ensures r.All? ==> r.done == |src|
      ensures r.Failed? ==> AtChunk(|src|, r.done)
    {
      if off > inodes[i].size {
        if src == [] {
          return All(0), off;
        }
        var end := ChunkEnd(|src|, 0);
        var w := WriteChunk(i, off, src[..end], off + end);
        return Failed(0), off;
      }
      r := WriteChunks(i, off, src, off + Reach(off, |src|));
      off' := off + r.done;
      if !r.Stuck? {
        ghost var a := src[..r.done];
        WroteSize(old(Now()), Now(), owner, i, off, a, off');
      }
    }
  }
}

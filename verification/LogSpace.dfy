/** How many blocks a write passes to log_write(), and why a chunk of filewrite() fits one transaction. */
module LogSpace {
  import opened Common
  import opened Bytes
  import opened Counting
  import opened FsState

  /** A call changed `before` to `after` and passed every block it changed to log_write(),
   none of them below the inodes. */
  ghost predicate Logs(g: Geometry, before: seq<Block>, after: seq<Block>, logged: set<nat>) {
    && |after| == |before|
    && (forall b :: b in logged ==> g.inodestart <= b < |before|)
    && (forall b {:trigger b in logged} :: 0 <= b < |before| && b !in logged ==> after[b] == before[b])
  }

  /** The indirect block of file i, if it has one. */
  ghost function IndirectSet(fs: Fs, i: nat): set<nat>
    requires Shape(fs) && i in fs.inodes
  {
    if Addr(fs, i, INDIRECT) == 0 then {} else {Addr(fs, i, INDIRECT)}
  }

  /** The blocks logged since l0, not counting file i's indirect block. */
  ghost function Count(l0: set<nat>, l: set<nat>, fs: Fs, i: nat): nat
    requires Shape(fs) && i in fs.inodes
  {
    |l - l0 - IndirectSet(fs, i)|
  }

  function One(b: bool): nat {
    if b then 1 else 0
  }

  /** Logging block x, and perhaps some of ind', adds at most one. */
  lemma CountOne(l0: set<nat>, l: set<nat>, l': set<nat>, ind: set<nat>, ind': set<nat>, x: nat)
    requires l' <= l + {x} + ind' && ind <= ind'
    ensures |l' - l0 - ind'| <= |l - l0 - ind| + 1
  {
    SubsetSize(l' - l0 - ind', (l - l0 - ind) + {x});
  }

  lemma CountTwo(l0: set<nat>, l: set<nat>, l': set<nat>, ind: set<nat>, ind': set<nat>, x: nat, y: nat)
    requires l' <= l + {x} + {y} + ind' && ind <= ind'
    ensures |l' - l0 - ind'| <= |l - l0 - ind| + 2
  {
    CountOne(l0, l, l + {x}, ind, ind, x);
    CountOne(l0, l + {x}, l', ind, ind', y);
  }

  lemma CountThree(l0: set<nat>, l: set<nat>, l': set<nat>, ind: set<nat>, ind': set<nat>, x: nat, y: nat, z: nat)
    requires l' <= l + {x} + {y} + {z} + ind' && ind <= ind'
    ensures |l' - l0 - ind'| <= |l - l0 - ind| + 3
  {
    CountOne(l0, l, l + {x}, ind, ind, x);
    CountTwo(l0, l + {x}, l', ind, ind', y, z);
  }

  /** bmap() and the write to the block it gives log that block, and one bitmap block for each block allocated. */
  lemma CountRound(l0: set<nat>, l: set<nat>, l1: set<nat>, fs: Fs, fs1: Fs, owner: map<nat, Slot>, i: nat, bn: nat,
                   r: nat)
    requires Shape(fs) && Mapped(fs, fs1, owner, i, bn, r) && MapLogged(l, l1, fs, fs1, i, bn, r)
    ensures Count(l0, l1 + {r}, fs1, i) <=
      Count(l0, l, fs, i) + 1 + One(Addr(fs, i, bn) == 0) +
      One(Addr(fs, i, INDIRECT) == 0 && Addr(fs1, i, INDIRECT) != 0)
  {
    var ind, ind' := IndirectSet(fs, i), IndirectSet(fs1, i);
    var b, b' := BitmapBlock(fs.g, r), BitmapBlock(fs.g, Addr(fs1, i, INDIRECT));
    var l2 := l1 + {r};
    if Addr(fs, i, bn) != 0 {
      CountOne(l0, l, l2, ind, ind', r);
    } else if Addr(fs, i, INDIRECT) != 0 || bn < NDIRECT {
      CountTwo(l0, l, l2, ind, ind', r, b);
    } else {
      CountThree(l0, l, l2, ind, ind', r, b, b');
    }
  }

  /** The number of blocks that [off..at) meets. */
  function Touched(off: nat, at: nat): nat
    requires off <= at
  {
    if at == off then 0 else (at - 1) / BSIZE - off / BSIZE + 1
  }

  /** The number of data blocks that a file of `size` bytes lacks for `at` bytes. */
  function Lacking(size: nat, at: nat): nat {
    if at <= size then 0 else CeilBlocks(at) - CeilBlocks(size)
  }

  ghost predicate Counted(l0: set<nat>, l: set<nat>, fs0: Fs, fs: Fs, i: nat, size: nat, off: nat, at: nat)
    requires Shape(fs0) && Shape(fs) && i in fs0.inodes && i in fs.inodes && off <= at
  {
    Count(l0, l, fs, i) <=
    Touched(off, at) + Lacking(size, at) + One(Addr(fs0, i, INDIRECT) == 0 && Addr(fs, i, INDIRECT) != 0)
  }

  lemma RoundArithmetic(size: nat, off: nat, at: nat, m: nat, next: nat)
    requires next == at + m && off <= at && off <= size && 0 < m <= BSIZE - at % BSIZE && (at == off || at % BSIZE == 0)
    ensures Touched(off, next) == Touched(off, at) + 1
    ensures Lacking(size, next) == Lacking(size, at) + One(at / BSIZE >= CeilBlocks(Max(size, at)))
  {
  }

  lemma CountedStep(l0: set<nat>, l: set<nat>, l1: set<nat>, fs0: Fs, w: Round, size: nat, c: nat)
    requires RoundOk(w) && Shape(fs0) && w.i in fs0.inodes && w.i in w.fs.inodes && w.off <= w.at && w.off <= size
    requires (w.at == w.off || w.q == 0) && c == CeilBlocks(Max(size, w.at)) && Full(w.fs, w.i, c)
    requires Counted(l0, l, fs0, w.fs, w.i, size, w.off, w.at)
    requires Addr(fs0, w.i, INDIRECT) != 0 ==> Addr(w.fs, w.i, INDIRECT) != 0
    requires MapLogged(l, l1, w.fs, w.fs1, w.i, w.bn, w.r)
    ensures Counted(l0, l1 + {w.r}, fs0, w.fs2, w.i, size, w.off, w.next)
    ensures Addr(fs0, w.i, INDIRECT) != 0 ==> Addr(w.fs2, w.i, INDIRECT) != 0
  {
    RoundArithmetic(size, w.off, w.at, w.m, w.next);
    CountRound(l0, l, l1, w.fs, w.fs1, w.owner, w.i, w.bn, w.r);
    assert Addr(w.fs2, w.i, INDIRECT) == Addr(w.fs1, w.i, INDIRECT);
    assert Addr(w.fs, w.i, w.bn) == 0 <==> w.bn >= c;
  }

  /** Where a round of the loop may start: at the offset, at a block boundary, or nowhere any more. */
  predicate RoundEnd(off: nat, n: nat, at: nat) {
    at == off || at % BSIZE == 0 || at == off + n
  }

  /** Where the round at `at` ends: m is min(n - tot, BSIZE - off % BSIZE). */
  function RoundNext(off: nat, n: nat, at: nat): (next: nat)
    requires off <= at < off + n
    ensures at < next <= off + n && next - at <= BSIZE - at % BSIZE && RoundEnd(off, n, next)
  {
    if off + n - at < BSIZE - at % BSIZE then off + n else at + BSIZE - at % BSIZE
  }

  /** The invariant of writei()'s loop: what has been copied and what has been logged. */
  ghost predicate Writing(fs0: Fs, c: seq<byte>, l0: set<nat>, fs: Fs, owner: map<nat, Slot>, l: set<nat>, i: nat,
                          off: nat, src: seq<byte>, at: nat) {
    && Copied(fs0, c, fs, owner, i, off, src, at) && Counted(l0, l, fs0, fs, i, |c|, off, at)
    && (Addr(fs0, i, INDIRECT) != 0 ==> Addr(fs, i, INDIRECT) != 0)
  }

  lemma WritingStep(fs0: Fs, c: seq<byte>, l0: set<nat>, l: set<nat>, l1: set<nat>, w: Round, end: nat)
    requires Writing(fs0, c, l0, w.fs, w.o, l, w.i, w.off, w.src, w.at) && RoundOk(w) && end == Max(|c|, w.at)
    requires (w.at == w.off || w.q == 0) && MapLogged(l, l1, w.fs, w.fs1, w.i, w.bn, w.r)
    ensures Writing(fs0, c, l0, w.fs2, w.owner, l1 + {w.r}, w.i, w.off, w.src, w.next)
  {
    CopyStep(fs0, c, w, end);
    var size, used := |c|, CeilBlocks(end);
    CountedStep(l0, l, l1, fs0, w, size, used);
  }

  lemma WritingStarts(fs: Fs, c: seq<byte>, owner: map<nat, Slot>, l: set<nat>, i: nat, off: nat, src: seq<byte>)
    requires Inv(fs, owner, Nothing()) && FilesFull(fs) && i in fs.inodes && c == Content(fs, i)
    requires off <= |c| && off + |src| <= MAXFILE * BSIZE
    ensures Writing(fs, c, l, fs, owner, l, i, off, src, off)
  {
    forall j, k | j in fs.inodes && 0 <= k <= INDIRECT ensures SameSlot(fs, fs, j, k) {
      assert Addr(fs, j, k) != 0 ==> Addr(fs, j, k) in owner;
    }
    assert l - l - IndirectSet(fs, i) == {};
  }

  /** A write of n bytes at off to a file of `size` bytes has logged
   no more than its data and bitmap blocks and three more. */
  ghost predicate Within(l0: set<nat>, l: set<nat>, size: nat, off: nat, n: nat) {
    |l - l0| <= Touched(off, off + n) + Lacking(size, off + n) + 3
  }

  /** The three are the indirect block, its bitmap block, and the inode's block. */
  lemma CountedTotal(l0: set<nat>, l: set<nat>, fs0: Fs, fs: Fs, i: nat, size: nat, off: nat, n: nat, at: nat, x: nat)
    requires Shape(fs0) && Shape(fs) && i in fs0.inodes && i in fs.inodes && at == off + n
    requires Counted(l0, l, fs0, fs, i, size, off, at)
    ensures Within(l0, l, size, off, n) && Within(l0, l + {x}, size, off, n)
  {
    var ind := IndirectSet(fs, i);
    CountOne(l0, l, l + {x}, ind, ind, x);
    SubsetSize(l + {x} - l0, (l + {x} - l0 - ind) + ind);
    SubsetSize(l - l0, l + {x} - l0);
  }

  const CHUNK := 1536        // ((MAXOPBLOCKS - 1 - 1 - 2) / 2) * 512

  /** A write of n bytes at off: its blocks, their bitmap blocks, the indirect block with its own, and the inode. */
  predicate Fits(size: nat, off: nat, n: nat) {
    Touched(off, off + n) + Lacking(size, off + n) + 3 <= MAXOPBLOCKS
  }

  lemma ChunkFits(size: nat, off: nat, n: nat)
    requires off <= size && n <= CHUNK
    ensures Fits(size, off, n)
  {
  }

  /** What a chunk logs in a transaction of its own. */
  lemma ChunkReserved(l0: set<nat>, l: set<nat>, size: nat, off: nat, n: nat)
    requires l0 == {} && Within(l0, l, size, off, n) && off <= size && n <= CHUNK
    ensures |l| <= MAXOPBLOCKS
  {
    ChunkFits(size, off, n);
    assert l - l0 == l;
  }
}

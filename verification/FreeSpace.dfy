/** How many blocks a write needs, when the disk runs out of them, and which blocks it logs at least. */
module FreeSpace {
  import opened Bytes
  import opened Counting
  import opened FsState
  import opened LogSpace
  import opened Files

  /** The number of data blocks of the disk. */
  function Capacity(g: Geometry): nat
    requires g.datastart <= g.size
  {
    g.size - g.datastart
  }

  /** The disk is full exactly if every data block has an owner. */
  lemma FullIffOwned(fs: Fs, owner: map<nat, Slot>)
    requires Inv(fs, owner, Nothing())
    ensures |owner| <= Capacity(fs.g) && (DiskFull(fs) <==> |owner| == Capacity(fs.g))
  {
    var g, s := fs.g, owner.Keys;
    RangeSize(s, g.datastart, g.size);
    if DiskFull(fs) {
      forall b | g.datastart <= b < g.size ensures b in s {
        assert Marked(fs, b);
      }
    }
    if |owner| == Capacity(g) {
      forall x | 0 <= x < g.size ensures Marked(fs, x) {
        assert x >= g.datastart ==> x in s;
      }
    }
  }

  /** Block b, which had no owner, has got one. */
  ghost predicate Gains(o: map<nat, Slot>, o': map<nat, Slot>, b: nat) {
    b !in o && o'.Keys == o.Keys + {b} && |o'| == |o| + 1
  }

  ghost predicate NewIndirect(fs: Fs, fs': Fs, i: nat)
    requires Shape(fs) && Shape(fs') && i in fs.inodes && i in fs'.inodes
  {
    Addr(fs, i, INDIRECT) == 0 && Addr(fs', i, INDIRECT) != 0
  }

  /** bmap() of slot bn has given an owner to each block it allocated, and these had none. */
  ghost predicate MapGrows(o: map<nat, Slot>, o': map<nat, Slot>, fs: Fs, fs': Fs, i: nat, bn: nat)
    requires Shape(fs) && Shape(fs') && i in fs.inodes && i in fs'.inodes && bn < MAXFILE
  {
    && |o'| == |o| + One(Addr(fs, i, bn) == 0) + One(NewIndirect(fs, fs', i)) && o.Keys <= o'.Keys
    && (Addr(fs, i, bn) == 0 ==> Addr(fs', i, bn) !in o) && (NewIndirect(fs, fs', i) ==> Addr(fs', i, INDIRECT) !in o)
  }

  /** bmap() of slot bn has found every block marked, perhaps after it had made the indirect block. */
  ghost predicate MapStops(o: map<nat, Slot>, o': map<nat, Slot>, fs: Fs, fs': Fs, i: nat, bn: nat)
    requires Shape(fs) && i in fs.inodes && bn < MAXFILE
  {
    && Inv(fs', o', Nothing()) && fs'.g == fs.g && DiskFull(fs') && Addr(fs, i, bn) == 0
    && |o'| <= |o| + One(bn >= NDIRECT && Addr(fs, i, INDIRECT) == 0)
  }

  /** The number of blocks, data and indirect, that a file of `size` bytes lacks for `last` bytes. */
  function Needed(size: nat, last: nat): nat {
    Lacking(size, last) + One(CeilBlocks(size) <= NDIRECT < CeilBlocks(last))
  }

  /** The disk has as many free blocks as a file of `size` bytes lacks for `last` bytes. */
  ghost predicate RoomFor(g: Geometry, o: map<nat, Slot>, size: nat, last: nat)
    requires g.datastart <= g.size
  {
    |o| + Needed(size, last) <= Capacity(g)
  }

  lemma NeededAdds(size: nat, mid: nat, size1: nat, last: nat)
    requires size1 == Max(size, mid) && mid <= last
    ensures Needed(size, last) == Needed(size, mid) + Needed(size1, last)
  {
    CeilGrows(mid, last);
    CeilGrows(size, size1);
  }

  lemma CeilGrows(m: nat, n: nat)
    requires m <= n
    ensures CeilBlocks(m) <= CeilBlocks(n)
  {
  }

  /** Owners o are o0 and what a file of `size` bytes lacked for `at` bytes. */
  ghost predicate Paid(o0: map<nat, Slot>, o: map<nat, Slot>, size: nat, at: nat) {
    |o| == |o0| + Needed(size, at)
  }

  /** What is paid for had room, and there is room for more exactly if there was for all of it. */
  lemma RoomLeft(g: Geometry, o0: map<nat, Slot>, o: map<nat, Slot>, size: nat, at: nat, size1: nat, last: nat)
    requires g.datastart <= g.size && Paid(o0, o, size, at) && size1 == Max(size, at) && at <= last
    ensures RoomFor(g, o, size1, last) <==> RoomFor(g, o0, size, last)
    ensures |o| <= Capacity(g) ==> RoomFor(g, o0, size, at)
    ensures !RoomFor(g, o0, size, at) ==> !RoomFor(g, o0, size, last)
  {
    NeededAdds(size, at, size1, last);
  }

  lemma PaidMore(o0: map<nat, Slot>, o: map<nat, Slot>, o': map<nat, Slot>, size: nat, at: nat, size1: nat, last: nat)
    requires Paid(o0, o, size, at) && Paid(o, o', size1, last) && size1 == Max(size, at) && at <= last
    ensures Paid(o0, o', size, last)
  {
    NeededAdds(size, at, size1, last);
  }

  /** Slot k has been written: its block is logged, and so is the bitmap block of a block that is new. */
  ghost predicate SlotLogged(l: set<nat>, fs0: Fs, fs: Fs, i: nat, k: nat)
    requires Shape(fs0) && Shape(fs) && i in fs0.inodes && i in fs.inodes && k <= INDIRECT
  {
    Addr(fs, i, k) in l && (Addr(fs0, i, k) == 0 ==> BitmapBlock(fs.g, Addr(fs, i, k)) in l)
  }

  /** Addresses that were not there are of blocks that had no owner. */
  ghost predicate NewUnowned(fs0: Fs, o0: map<nat, Slot>, fs: Fs, i: nat)
    requires Shape(fs0) && Shape(fs) && i in fs0.inodes && i in fs.inodes
  {
    forall k :: 0 <= k <= INDIRECT && Addr(fs0, i, k) == 0 ==> Addr(fs, i, k) !in o0
  }

  /** Addresses that were there are there still. */
  ghost predicate AddrsKept(fs0: Fs, fs: Fs, i: nat)
    requires Shape(fs0) && Shape(fs) && i in fs0.inodes && i in fs.inodes
  {
    forall k :: 0 <= k <= INDIRECT && Addr(fs0, i, k) != 0 ==> Addr(fs, i, k) == Addr(fs0, i, k)
  }

  /** What writei()'s loop has allocated and logged when it has got to offset `at`. */
  ghost predicate Allocating(fs0: Fs, o0: map<nat, Slot>, fs: Fs, o: map<nat, Slot>, l: set<nat>, i: nat, size: nat,
                             off: nat, at: nat) {
    && Shape(fs0) && Shape(fs) && i in fs0.inodes && i in fs.inodes && off <= at <= MAXFILE * BSIZE && fs.g == fs0.g
    && AddrsKept(fs0, fs, i) && NewUnowned(fs0, o0, fs, i) && o0.Keys <= o.Keys
    && |o| == |o0| + Lacking(size, at) + One(NewIndirect(fs0, fs, i))
    && (forall k :: off / BSIZE <= k && k * BSIZE < at && off < at ==> SlotLogged(l, fs0, fs, i, k))
    && (NewIndirect(fs0, fs, i) ==> SlotLogged(l, fs0, fs, i, INDIRECT))
  }

  lemma AllocatingStarts(fs: Fs, o: map<nat, Slot>, l: set<nat>, i: nat, size: nat, off: nat)
    requires Inv(fs, o, Nothing()) && i in fs.inodes && off <= size <= MAXFILE * BSIZE
    ensures Allocating(fs, o, fs, o, l, i, size, off, off)
  {
  }

  lemma AddrsStep(fs0: Fs, fs: Fs, fs1: Fs, fs2: Fs, owner: map<nat, Slot>, i: nat, bn: nat, r: nat)
    requires Shape(fs0) && Shape(fs) && i in fs0.inodes && i in fs.inodes && AddrsKept(fs0, fs, i)
    requires Mapped(fs, fs1, owner, i, bn, r) && Patch(fs1, fs2, owner, i)
    ensures AddrsKept(fs0, fs2, i) && AddrsKept(fs, fs2, i) && Addr(fs2, i, bn) == r
    ensures NewIndirect(fs0, fs2, i) <==> NewIndirect(fs0, fs, i) || NewIndirect(fs, fs1, i)
    ensures !(NewIndirect(fs0, fs, i) && NewIndirect(fs, fs1, i))
  {
    forall k | 0 <= k <= INDIRECT ensures Addr(fs2, i, k) == Addr(fs1, i, k) {
    }
    forall k | 0 <= k <= INDIRECT && Addr(fs, i, k) != 0 ensures Addr(fs1, i, k) == Addr(fs, i, k) {
    }
  }

  /** A slot logged before is logged still. */
  lemma SlotStays(l: set<nat>, l': set<nat>, fs0: Fs, fs: Fs, fs2: Fs, i: nat, k: nat)
    requires Shape(fs0) && Shape(fs) && Shape(fs2) && i in fs0.inodes && i in fs.inodes && i in fs2.inodes &&
             k <= INDIRECT
    requires SlotLogged(l, fs0, fs, i, k) && l <= l' && fs2.g == fs.g && Addr(fs2, i, k) == Addr(fs, i, k)
    ensures SlotLogged(l', fs0, fs2, i, k)
  {
  }

  lemma SlotNow(l: set<nat>, l1: set<nat>, fs0: Fs, w: Round)
    requires RoundOk(w) && Shape(fs0) && w.i in fs0.inodes && w.i in w.fs.inodes && fs0.g == w.fs.g
    requires MapLogged(l, l1, w.fs, w.fs1, w.i, w.bn, w.r)
    requires Addr(fs0, w.i, w.bn) == 0 ==> Addr(w.fs, w.i, w.bn) == 0
    ensures l <= l1 && SlotLogged(l1 + {w.r}, fs0, w.fs2, w.i, w.bn)
    ensures NewIndirect(w.fs, w.fs1, w.i) && Addr(fs0, w.i, INDIRECT) == 0 ==>
              SlotLogged(l1 + {w.r}, fs0, w.fs2, w.i, INDIRECT)
  {
    assert Addr(w.fs2, w.i, w.bn) == Addr(w.fs1, w.i, w.bn);
    assert Addr(w.fs2, w.i, INDIRECT) == Addr(w.fs1, w.i, INDIRECT);
  }

  lemma BlocksUpTo(off: nat, at: nat, next: nat, m: nat, bn: nat, k: nat)
    requires next == at + m && off <= at && 0 < m <= BSIZE - at % BSIZE && (at == off || at % BSIZE == 0) &&
             bn == at / BSIZE
    requires off / BSIZE <= k && k * BSIZE < next
    ensures k == bn || (off < at && k * BSIZE < at && k < bn)
  {
  }

  lemma NewHere(size: nat, off: nat, at: nat, bn: nat)
    requires off <= at && off <= size && (at == off || at % BSIZE == 0) && bn == at / BSIZE
    ensures bn < CeilBlocks(Max(size, at)) <==> bn < CeilBlocks(size)
  {
  }

  lemma UnownedStep(fs0: Fs, o0: map<nat, Slot>, w: Round)
    requires RoundOk(w) && Shape(fs0) && w.i in fs0.inodes && w.i in w.fs.inodes
    requires NewUnowned(fs0, o0, w.fs, w.i) && o0.Keys <= w.o.Keys && MapGrows(w.o, w.owner, w.fs, w.fs1, w.i, w.bn)
    ensures NewUnowned(fs0, o0, w.fs2, w.i)
  {
    forall k | 0 <= k <= INDIRECT && Addr(fs0, w.i, k) == 0 ensures Addr(w.fs2, w.i, k) !in o0 {
      assert Addr(w.fs2, w.i, k) == Addr(w.fs1, w.i, k);
      assert Addr(w.fs, w.i, k) !in o0;
    }
  }

  lemma SlotsStep(fs0: Fs, l: set<nat>, l2: set<nat>, w: Round)
    requires RoundOk(w) && Shape(fs0) && w.i in fs0.inodes && w.i in w.fs.inodes && l <= l2
    requires w.off <= w.at && w.next <= MAXFILE * BSIZE && (w.at == w.off || w.q == 0)
    requires forall k :: w.off / BSIZE <= k && k * BSIZE < w.at && w.off < w.at ==> SlotLogged(l, fs0, w.fs, w.i, k)
    requires SlotLogged(l2, fs0, w.fs2, w.i, w.bn)
    ensures forall k :: w.off / BSIZE <= k && k * BSIZE < w.next && w.off < w.next ==>
                          SlotLogged(l2, fs0, w.fs2, w.i, k)
  {
    forall k | w.off / BSIZE <= k && k * BSIZE < w.next ensures SlotLogged(l2, fs0, w.fs2, w.i, k) {
      BlocksUpTo(w.off, w.at, w.next, w.m, w.bn, k);
      if k != w.bn {
        assert Addr(w.fs2, w.i, k) == Addr(w.fs1, w.i, k) == Addr(w.fs, w.i, k);
        SlotStays(l, l2, fs0, w.fs, w.fs2, w.i, k);
      }
    }
  }

  lemma AllocatingStep(fs0: Fs, o0: map<nat, Slot>, l: set<nat>, l1: set<nat>, l2: set<nat>, w: Round, size: nat)
    requires Allocating(fs0, o0, w.fs, w.o, l, w.i, size, w.off, w.at) && RoundOk(w) && w.off <= size
    requires w.next <= MAXFILE * BSIZE && (w.at == w.off || w.q == 0)
    requires Full(fs0, w.i, CeilBlocks(size)) && Full(w.fs, w.i, CeilBlocks(Max(size, w.at)))
    requires MapLogged(l, l1, w.fs, w.fs1, w.i, w.bn, w.r) && l2 == l1 + {w.r}
    requires MapGrows(w.o, w.owner, w.fs, w.fs1, w.i, w.bn)
    ensures Allocating(fs0, o0, w.fs2, w.owner, l2, w.i, size, w.off, w.next)
  {
    AddrsStep(fs0, w.fs, w.fs1, w.fs2, w.owner, w.i, w.bn, w.r);
    RoundArithmetic(size, w.off, w.at, w.m, w.next);
    NewHere(size, w.off, w.at, w.bn);
    SlotNow(l, l1, fs0, w);
    SlotsStep(fs0, l, l2, w);
    UnownedStep(fs0, o0, w);
    if NewIndirect(fs0, w.fs, w.i) {
      SlotStays(l, l2, fs0, w.fs, w.fs2, w.i, INDIRECT);
    }
  }

  /** If bmap() finds every block marked, the disk had fewer free blocks than the write needs. */
  lemma StopsShort(fs0: Fs, o0: map<nat, Slot>, fs: Fs, o: map<nat, Slot>, l: set<nat>, fs1: Fs, o1: map<nat, Slot>,
                   i: nat, size: nat, off: nat, at: nat, bn: nat, last: nat)
    requires Allocating(fs0, o0, fs, o, l, i, size, off, at) && off <= size && at < last <= MAXFILE * BSIZE
    requires (at == off || at % BSIZE == 0) && bn == at / BSIZE && bn < MAXFILE
    requires Full(fs0, i, CeilBlocks(size)) && Full(fs, i, CeilBlocks(Max(size, at)))
    requires MapStops(o, o1, fs, fs1, i, bn)
    ensures !RoomFor(fs0.g, o0, size, last)
  {
    FullIffOwned(fs1, o1);
    NewHere(size, off, at, bn);
  }

  /** The blocks the loop has allocated are those the write needs. */
  lemma AllocatedAll(fs0: Fs, o0: map<nat, Slot>, fs: Fs, o: map<nat, Slot>, l: set<nat>, i: nat, size: nat, off: nat,
                     last: nat)
    requires Allocating(fs0, o0, fs, o, l, i, size, off, last) && off <= size <= MAXFILE * BSIZE &&
             Inv(fs, o, Nothing())
    requires Full(fs0, i, CeilBlocks(size)) && Full(fs, i, CeilBlocks(Max(size, last)))
    ensures |o| == |o0| + Needed(size, last) && |o| <= Capacity(fs0.g)
  {
    FullIffOwned(fs, o);
  }

  /** The state of writei()'s loop at offset `at`: what it has copied, counted and allocated. */
  ghost predicate Underway(fs0: Fs, o0: map<nat, Slot>, c: seq<byte>, l0: set<nat>, fs: Fs, o: map<nat, Slot>,
                           l: set<nat>, i: nat, off: nat, src: seq<byte>, at: nat) {
    && Writing(fs0, c, l0, fs, o, l, i, off, src, at) && Allocating(fs0, o0, fs, o, l, i, |c|, off, at)
    && Full(fs0, i, CeilBlocks(|c|))
  }

  lemma UnderwayStarts(fs: Fs, o: map<nat, Slot>, c: seq<byte>, l: set<nat>, i: nat, off: nat, src: seq<byte>)
    requires Inv(fs, o, Nothing()) && FilesFull(fs) && i in fs.inodes && c == Content(fs, i)
    requires off <= |c| && off + |src| <= MAXFILE * BSIZE
    ensures Underway(fs, o, c, l, fs, o, l, i, off, src, off)
  {
    WritingStarts(fs, c, o, l, i, off, src);
    AllocatingStarts(fs, o, l, i, |c|, off);
  }

  lemma UnderwayStep(fs0: Fs, o0: map<nat, Slot>, c: seq<byte>, l0: set<nat>, l: set<nat>, l1: set<nat>, l2: set<nat>,
                     w: Round)
    requires Underway(fs0, o0, c, l0, w.fs, w.o, l, w.i, w.off, w.src, w.at) && RoundOk(w)
    requires (w.at == w.off || w.q == 0) && MapLogged(l, l1, w.fs, w.fs1, w.i, w.bn, w.r) && l2 == l1 + {w.r}
    requires MapGrows(w.o, w.owner, w.fs, w.fs1, w.i, w.bn)
    ensures Underway(fs0, o0, c, l0, w.fs2, w.owner, l2, w.i, w.off, w.src, w.next)
  {
    var size, end := |c|, Max(|c|, w.at);
    WritingStep(fs0, c, l0, l, l1, w, end);
    AllocatingStep(fs0, o0, l, l1, l2, w, size);
  }

  lemma UnderwayStops(fs0: Fs, o0: map<nat, Slot>, c: seq<byte>, l0: set<nat>, fs: Fs, o: map<nat, Slot>, l: set<nat>,
                      fs1: Fs, o1: map<nat, Slot>, i: nat, off: nat, src: seq<byte>, at: nat, bn: nat, last: nat)
    requires Underway(fs0, o0, c, l0, fs, o, l, i, off, src, at) && at < last && last == off + |src|
    requires (at == off || at % BSIZE == 0) && bn == at / BSIZE && bn < MAXFILE && MapStops(o, o1, fs, fs1, i, bn)
    ensures !RoomFor(fs0.g, o0, |c|, last)
  {
    var size := |c|;
    StopsShort(fs0, o0, fs, o, l, fs1, o1, i, size, off, at, bn, last);
  }

  lemma UnderwayEnds(fs0: Fs, o0: map<nat, Slot>, c: seq<byte>, l0: set<nat>, fs: Fs, o: map<nat, Slot>, l: set<nat>,
                     i: nat, off: nat, src: seq<byte>, last: nat)
    requires Underway(fs0, o0, c, l0, fs, o, l, i, off, src, last)
    ensures RoomFor(fs0.g, o0, |c|, last)
  {
    var size := |c|;
    AllocatedAll(fs0, o0, fs, o, l, i, size, off, last);
  }

  /** What a write has allocated and logged once it is complete. */
  ghost predicate Spent(fs0: Fs, o0: map<nat, Slot>, fs: Fs, o: map<nat, Slot>, l: set<nat>, i: nat, size: nat,
                        off: nat, last: nat) {
    Allocating(fs0, o0, fs, o, l, i, size, off, last) && (last > size ==> IBlock(fs0.g, i) in l)
  }

  /** Same addresses, more logged. */
  lemma AllocatingKept(fs0: Fs, o0: map<nat, Slot>, fs: Fs, fs': Fs, o: map<nat, Slot>, l: set<nat>, l': set<nat>,
                       i: nat, size: nat, off: nat, at: nat)
    requires Allocating(fs0, o0, fs, o, l, i, size, off, at) && Shape(fs') && fs'.g == fs.g && i in fs'.inodes &&
             l <= l'
    requires forall k :: 0 <= k <= INDIRECT ==> Addr(fs', i, k) == Addr(fs, i, k)
    ensures Allocating(fs0, o0, fs', o, l', i, size, off, at)
  {
    forall k | off / BSIZE <= k && k * BSIZE < at && off < at ensures SlotLogged(l', fs0, fs', i, k) {
      SlotStays(l, l', fs0, fs, fs', i, k);
    }
    if NewIndirect(fs0, fs, i) {
      SlotStays(l, l', fs0, fs, fs', i, INDIRECT);
    }
  }
}

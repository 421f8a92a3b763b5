/**
 itrunc(): the blocks of an inode go back to the allocator, slot by slot.

 The proof follows the state with inode i already emptied: there, the blocks that are
 still to be freed are in passage.
 */
module Truncate {
  import opened Common
  import opened Counting
  import opened Bitmap
  import opened FsState
  import opened DInode
  import opened Files

  /** Outside the bitmap, the blocks are those of fs0. */
  ghost predicate BitmapOnly(fs0: Fs, fs: Fs) {
    && |fs.blocks| == |fs0.blocks|
    && forall x :: 0 <= x < |fs0.blocks| && !(fs0.g.bmapstart <= x < fs0.g.datastart) ==> fs.blocks[x] == fs0.blocks[x]
  }

  /** The blocks in slots below k of inode i are free again; e is the state with the inode emptied. */
  ghost predicate Releasing(fs0: Fs, owner0: map<nat, Slot>, e: Fs, i: nat, k: nat) {
    && Inv(fs0, owner0, Nothing()) && i in fs0.inodes && e.g == fs0.g && e.inodes == Emptied(fs0, i).inodes
    && Inv(e, OwnerWithout(owner0, i), BlocksFrom(fs0, i, k)) && BitmapOnly(fs0, e)
  }

  lemma ReleaseStarts(fs: Fs, owner: map<nat, Slot>, i: nat)
    requires Inv(fs, owner, Nothing()) && i in fs.inodes
    ensures Releasing(fs, owner, Emptied(fs, i), i, 0)
  {
    DetachKeeps(fs, owner, i);
  }

  lemma FlipIsBitmapOnly(fs0: Fs, e: Fs, b: nat)
    requires Shape(e) && e.g == fs0.g && BitmapOnly(fs0, e) && b < e.g.size
    ensures BitmapOnly(fs0, Flip(e, b, false))
  {
    BitmapBelowData(e.g, b);
  }

  /** bfree() of the block in slot k: it is marked, so there is no panic. */
  lemma ReleaseSlot(fs0: Fs, owner0: map<nat, Slot>, e: Fs, i: nat, k: nat, next: nat, b: nat)
    requires Releasing(fs0, owner0, e, i, k) && k <= INDIRECT && b == Addr(fs0, i, k) != 0 && next == k + 1
    ensures b < e.g.size && Marked(e, b) && Releasing(fs0, owner0, Flip(e, b, false), i, next)
  {
    NextRelease(fs0, owner0, i, k);
    UnmarkKeeps(e, OwnerWithout(owner0, i), BlocksFrom(fs0, i, k), b);
    FlipIsBitmapOnly(fs0, e, b);
  }

  lemma ReleaseNone(fs0: Fs, owner0: map<nat, Slot>, e: Fs, i: nat, k: nat, next: nat)
    requires Releasing(fs0, owner0, e, i, k) && k <= INDIRECT && Addr(fs0, i, k) == 0 && next == k + 1
    ensures Releasing(fs0, owner0, e, i, next)
  {
    NextRelease(fs0, owner0, i, k);
  }

  /** Without an indirect block there is nothing past the direct slots. */
  lemma ReleaseNoIndirect(fs0: Fs, owner0: map<nat, Slot>, e: Fs, i: nat)
    requires Releasing(fs0, owner0, e, i, NDIRECT) && Addr(fs0, i, INDIRECT) == 0
    ensures Releasing(fs0, owner0, e, i, INDIRECT + 1)
  {
    assert BlocksFrom(fs0, i, NDIRECT) == BlocksFrom(fs0, i, INDIRECT + 1);
  }

  /** A file other than i keeps its blocks through changes to the bitmap. */
  lemma OthersUntouched(fs0: Fs, owner0: map<nat, Slot>, e: Fs, i: nat)
    requires Inv(fs0, owner0, Nothing()) && i in fs0.inodes && Shape(e) && e.g == fs0.g && BitmapOnly(fs0, e)
    requires e.inodes == Emptied(fs0, i).inodes
    ensures OthersSame(fs0, e, i) && MetaKept(fs0, e)
  {
    assert e.inodes.Keys == fs0.inodes.Keys;
    forall j | j in fs0.inodes && j != i ensures SameFile(fs0, e, j) {
      forall k | 0 <= k <= INDIRECT ensures SameSlot(fs0, e, j, k) {
        var a, ind := Addr(fs0, j, k), Addr(fs0, j, INDIRECT);
        assert a != 0 ==> a in owner0;
        assert ind != 0 ==> ind in owner0;
      }
    }
  }

  /** What itrunc() has done once iupdate() is done: file i is empty and exactly its blocks are free. */
  ghost predicate Truncated(fs0: Fs, owner0: map<nat, Slot>, fs: Fs, owner: map<nat, Slot>, i: nat) {
    && Sound(fs0, owner0) && i in fs0.inodes && Sound(fs, owner) && OthersKept(fs0, fs, i)
    && owner == OwnerWithout(owner0, i) && fs.inodes[i] == fs0.inodes[i].(size := 0, addrs := NoAddrs())
    && Content(fs, i) == [] && FreedExactly(fs0, owner0, fs, i)
  }

  ghost predicate FreedExactly(fs0: Fs, owner0: map<nat, Slot>, fs: Fs, i: nat)
    requires Shape(fs0) && Shape(fs)
  {
    && fs.g == fs0.g
    && forall b {:trigger Marked(fs, b)} :: 0 <= b < fs.g.size ==>
      (Marked(fs, b) <==> Marked(fs0, b) && !(b in owner0 && owner0[b].inum == i))
  }

  /** All blocks are released: only iupdate() is missing. */
  lemma AllReleased(fs0: Fs, owner0: map<nat, Slot>, e: Fs, i: nat)
    requires Releasing(fs0, owner0, e, i, INDIRECT + 1) && Sound(fs0, owner0)
    ensures Inv(e, OwnerWithout(owner0, i), Nothing()) && FilesFull(e) && SyncedBut(e, i) && OthersKept(fs0, e, i)
    ensures i in e.inodes && i < e.g.ninodes && IBlock(e.g, i) < e.g.bmapstart && InodeOk(e.inodes[i])
  {
    assert BlocksFrom(fs0, i, INDIRECT + 1) == Nothing();
    OthersUntouched(fs0, owner0, e, i);
    OthersFull(fs0, e, i);
    SyncedKept(fs0, e, i);
    assert Synced(fs0, i);
  }

  lemma TruncateReady(fs0: Fs, owner0: map<nat, Slot>, e: Fs, i: nat)
    requires Releasing(fs0, owner0, e, i, INDIRECT + 1) && Sound(fs0, owner0)
    ensures Shape(e) && i in e.inodes && i < e.g.ninodes && IBlock(e.g, i) < e.g.bmapstart && InodeOk(e.inodes[i])
  {
    AllReleased(fs0, owner0, e, i);
  }

  lemma TruncateDone(fs0: Fs, owner0: map<nat, Slot>, e: Fs, fs: Fs, owner: map<nat, Slot>, i: nat)
    requires Releasing(fs0, owner0, e, i, INDIRECT + 1) && Sound(fs0, owner0) && owner == OwnerWithout(owner0, i)
    requires i in e.inodes && IBlock(e.g, i) < e.g.bmapstart && InodeOk(e.inodes[i]) && fs == Updated(e, i)
    ensures Truncated(fs0, owner0, fs, owner, i)
  {
    AllReleased(fs0, owner0, e, i);
    UpdateSound(e, fs, owner, i);
    OthersKeptCompose(fs0, e, fs, i);
    ExactlyFreed(fs0, owner0, fs, owner, i);
  }

  lemma ExactlyFreed(fs0: Fs, owner0: map<nat, Slot>, fs: Fs, owner: map<nat, Slot>, i: nat)
    requires Inv(fs0, owner0, Nothing()) && Inv(fs, owner, Nothing()) && fs.g == fs0.g &&
             owner == OwnerWithout(owner0, i)
    ensures FreedExactly(fs0, owner0, fs, i)
  {
    forall b | 0 <= b < fs.g.size
      ensures Marked(fs, b) <==> Marked(fs0, b) && !(b in owner0 && owner0[b].inum == i)
    {
      assert b in owner <==> b in owner0 && owner0[b].inum != i;
    }
  }

  // ------------------------------------------------ what itrunc() logs

  /** The bitmap block of slot k of file i, if there is a block in that slot. */
  ghost function SlotMap(fs: Fs, i: nat, k: nat): set<nat>
    requires Shape(fs) && i in fs.inodes && k <= INDIRECT
  {
    if Addr(fs, i, k) == 0 then {} else {BitmapBlock(fs.g, Addr(fs, i, k))}
  }

  /** The bitmap blocks of the blocks in the first k slots of file i. */
  ghost function FileMaps(fs: Fs, i: nat, k: nat): set<nat>
    requires Shape(fs) && i in fs.inodes && k <= INDIRECT + 1
  {
    if k == 0 then {} else FileMaps(fs, i, k - 1) + SlotMap(fs, i, k - 1)
  }

  /** The blocks logged since l0 are the bitmap blocks of the first k slots. */
  ghost predicate MapsLogged(fs: Fs, i: nat, k: nat, l0: set<nat>, l: set<nat>) {
    Shape(fs) && i in fs.inodes && k <= INDIRECT + 1 && l == l0 + FileMaps(fs, i, k)
  }

  lemma MapsLoggedNext(fs: Fs, i: nat, k: nat, next: nat, l0: set<nat>, l: set<nat>, l': set<nat>)
    requires MapsLogged(fs, i, k, l0, l) && k <= INDIRECT && next == k + 1 && l' == l + SlotMap(fs, i, k)
    ensures MapsLogged(fs, i, next, l0, l')
  {
    assert l0 + FileMaps(fs, i, k) + SlotMap(fs, i, k) == l0 + (FileMaps(fs, i, k) + SlotMap(fs, i, k));
  }

  /** Slots without a block log nothing. */
  lemma {:induction false} NoMaps(fs: Fs, i: nat, lo: nat, hi: nat)
    requires Shape(fs) && i in fs.inodes && lo <= hi <= INDIRECT + 1 && forall k :: lo <= k < hi ==> Addr(fs, i, k) == 0
    ensures FileMaps(fs, i, hi) == FileMaps(fs, i, lo)
    decreases hi
  {
    if lo < hi {
      NoMaps(fs, i, lo, hi - 1);
    }
  }

  /** Without an indirect block the slots behind the direct ones log nothing. */
  lemma NoIndirectMaps(fs: Fs, i: nat)
    requires Shape(fs) && i in fs.inodes && Addr(fs, i, INDIRECT) == 0
    ensures FileMaps(fs, i, INDIRECT + 1) == FileMaps(fs, i, NDIRECT)
  {
    NoMaps(fs, i, NDIRECT, INDIRECT + 1);
  }

  lemma {:induction false} MapsInBitmap(fs: Fs, owner: map<nat, Slot>, i: nat, k: nat)
    requires Inv(fs, owner, Nothing()) && i in fs.inodes && k <= INDIRECT + 1
    ensures forall b :: b in FileMaps(fs, i, k) ==> fs.g.bmapstart <= b <= fs.g.bmapstart + fs.g.size / BPB
  {
    if k > 0 {
      MapsInBitmap(fs, owner, i, k - 1);
      var a := Addr(fs, i, k - 1);
      assert a != 0 ==> a in owner;
    }
  }

  /**
   What itrunc() logs, with nothing logged before: the inode's block, and one bitmap block for each that the file has
   blocks in. It fits in a transaction exactly if these are fewer than MAXOPBLOCKS; every bitmap block is the most.
   */
  lemma TruncateFits(fs: Fs, owner: map<nat, Slot>, i: nat, x: nat, l: set<nat>)
    requires Inv(fs, owner, Nothing()) && i in fs.inodes && x < fs.g.bmapstart
    requires l == FileMaps(fs, i, INDIRECT + 1) + {x}
    ensures |l| == |FileMaps(fs, i, INDIRECT + 1)| + 1 && |l| <= fs.g.size / BPB + 2
    ensures |l| <= MAXOPBLOCKS <==> |FileMaps(fs, i, INDIRECT + 1)| < MAXOPBLOCKS
  {
    MapsInBitmap(fs, owner, i, INDIRECT + 1);
    RangeSize(FileMaps(fs, i, INDIRECT + 1), fs.g.bmapstart, fs.g.bmapstart + fs.g.size / BPB + 1);
  }
}

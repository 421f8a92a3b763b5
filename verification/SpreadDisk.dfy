/**
 A sound file system whose free blocks all lie in different bitmap blocks: file 1 has `size` bytes in direct blocks, and
 the gaps between the free blocks are filled by small files of twelve blocks each.
 */
module SpreadDisk {
  import opened Bytes
  import opened Counting
  import opened Bitmap
  import opened FsState
  import opened DInode
  import opened Files
  import opened FreeSpace

  const STRIDE := 4105        // from one free block to the next
  const PER_GAP := 342        // files between two free blocks
  const SPOTS := 141          // free blocks
  const INODES := 47882       // file 1, and PER_GAP files in each of SPOTS - 1 gaps
  const INODE_START := 32
  const BITMAP_START := 6018
  const DATA_START := 6218
  const SPAN := 574701        // from the first free block to the end of the disk

  /** The first free block, behind the c blocks of file 1. */
  function First(c: nat): nat {
    DATA_START + c
  }

  function Size(c: nat): nat {
    First(c) + SPAN
  }

  predicate Hole(c: nat, b: nat) {
    b >= First(c) && (b - First(c)) % STRIDE == 0
  }

  /** Slot k of file i holds a block. */
  predicate InUse(c: nat, i: nat, k: nat) {
    (i == 1 && k < c) || (2 <= i < INODES && k < NDIRECT)
  }

  /** The block in slot k of file i. */
  function BlockOf(c: nat, i: nat, k: nat): (b: nat)
    requires InUse(c, i, k) && c <= NDIRECT
    ensures DATA_START <= b < Size(c)
  {
    if i == 1 then DATA_START + k
    else
      var q, r := (i - 2) / PER_GAP, (i - 2) % PER_GAP;
      First(c) + 1 + STRIDE * q + NDIRECT * r + k
  }

  /** The slot that holds block b. */
  function SlotAt(c: nat, b: nat): Slot
    requires DATA_START <= b < Size(c) && !Hole(c, b)
  {
    if b < First(c) then Slot(1, b - DATA_START)
    else
      var q, t := (b - First(c)) / STRIDE, (b - First(c)) % STRIDE;
      Slot(2 + PER_GAP * q + (t - 1) / NDIRECT, (t - 1) % NDIRECT)
  }

  lemma Digits(q: nat, r: nat, k: nat, t: nat)
    requires r < PER_GAP && k < NDIRECT && t == 1 + STRIDE * q + NDIRECT * r + k
    ensures t / STRIDE == q && t % STRIDE == 1 + NDIRECT * r + k
    ensures (NDIRECT * r + k) / NDIRECT == r && (NDIRECT * r + k) % NDIRECT == k
  {
  }

  lemma SlotOfBlock(c: nat, i: nat, k: nat, b: nat)
    requires c <= NDIRECT && InUse(c, i, k) && b == BlockOf(c, i, k)
    ensures !Hole(c, b) && SlotAt(c, b) == Slot(i, k)
  {
    if i != 1 {
      var q, r := (i - 2) / PER_GAP, (i - 2) % PER_GAP;
      Digits(q, r, k, b - First(c));
    }
  }

  lemma BlockOfSlot(c: nat, b: nat, s: Slot)
    requires c <= NDIRECT && DATA_START <= b < Size(c) && !Hole(c, b) && s == SlotAt(c, b)
    ensures InUse(c, s.inum, s.k) && BlockOf(c, s.inum, s.k) == b
  {
    if b >= First(c) {
      var q, t := (b - First(c)) / STRIDE, (b - First(c)) % STRIDE;
      var r := (t - 1) / NDIRECT;
      assert r < PER_GAP && q < SPOTS - 1;
    }
  }

  // ------------------------------------------------ inodes and blocks

  function AddrOf(c: nat, i: nat, k: nat): (a: uint)
    requires c <= NDIRECT
    ensures a == if InUse(c, i, k) then BlockOf(c, i, k) else 0
  {
    if InUse(c, i, k) then BlockOf(c, i, k) else 0
  }

  function InodeOf(c: nat, size: nat, i: nat): (ip: Inode)
    requires c <= NDIRECT && size <= NDIRECT * BSIZE
    ensures InodeOk(ip)
  {
    Inode(2, 0, 0, 1, if i == 1 then size else NDIRECT * BSIZE, seq(NDIRECT + 1, k requires k >= 0 => AddrOf(c, i, k)))
  }

  /** An inode block with the first k of these inodes. */
  function PutInodes(ips: seq<Inode>, k: nat): Block
    requires k <= |ips| == IPB && forall j :: 0 <= j < IPB ==> InodeOk(ips[j])
  {
    if k == 0 then ZeroBlock() else PutInode(PutInodes(ips, k - 1), k - 1, ips[k - 1])
  }

  /** Place j of inode block b holds the inode ip. */
  ghost predicate Stores(b: Block, j: nat, ip: Inode) {
    j < IPB && GetInode(b, j) == ip
  }

  lemma StoresAfter(b: Block, b': Block, place: nat, ip: Inode, j: nat, was: Inode)
    requires place < IPB && j < IPB && InodeOk(ip) && b' == PutInode(b, place, ip)
    requires if j == place then was == ip else Stores(b, j, was)
    ensures Stores(b', j, was)
  {
    InodeRoundTrip(b, place, ip, j);
  }

  lemma {:induction false} PutInodesHold(ips: seq<Inode>, k: nat, j: nat, ip: Inode)
    requires j < k <= |ips| == IPB && (forall h :: 0 <= h < IPB ==> InodeOk(ips[h])) && ip == ips[j]
    ensures Stores(PutInodes(ips, k), j, ip)
  {
    var place := k - 1;
    if j < place {
      PutInodesHold(ips, place, j, ip);
    }
    StoresAfter(PutInodes(ips, place), PutInodes(ips, k), place, ips[place], j, ip);
  }

  /** The inodes from `first` on that share a block. */
  function Eight(c: nat, size: nat, first: nat): (ips: seq<Inode>)
    requires c <= NDIRECT && size <= NDIRECT * BSIZE
    ensures |ips| == IPB && forall j :: 0 <= j < IPB ==> ips[j] == InodeOf(c, size, first + j) && InodeOk(ips[j])
  {
    seq(IPB, j requires j >= 0 => InodeOf(c, size, first + j))
  }

  /** The inode block whose first inode is `first`. */
  function InodeBlock(c: nat, size: nat, first: nat): Block
    requires c <= NDIRECT && size <= NDIRECT * BSIZE
  {
    PutInodes(Eight(c, size, first), IPB)
  }

  lemma InodeBlockHolds(c: nat, size: nat, first: nat, j: nat, ip: Inode)
    requires c <= NDIRECT && size <= NDIRECT * BSIZE && j < IPB && ip == InodeOf(c, size, first + j)
    ensures Stores(InodeBlock(c, size, first), j, ip)
  {
    var ips, k := Eight(c, size, first), IPB;
    PutInodesHold(ips, k, j, ip);
  }

  lemma NoBits(x: nat, k: nat)
    requires x == 0
    ensures !BitOf(x, k)
  {
  }

  /** The first k bits of the bitmap block that starts with block `first`: all blocks are marked but the holes. */
  function Bits(c: nat, first: nat, k: nat): (r: Block)
    requires k <= BPB
    ensures forall j: nat :: j < BPB ==> (Bit(r, j) <==> j < k && !Hole(c, first + j))
  {
    if k == 0 then
      assert forall j: nat :: j < BPB ==> !Bit(ZeroBlock(), j) by {
        forall j: nat | j < BPB ensures !Bit(ZeroBlock(), j) {
          NoBits(ZeroBlock()[j / 8], j % 8);
        }
      }
      ZeroBlock()
    else if Hole(c, first + k - 1) then Bits(c, first, k - 1)
    else SetBit(Bits(c, first, k - 1), k - 1)
  }

  function BlockAt(c: nat, size: nat, b: nat): Block
    requires c <= NDIRECT && size <= NDIRECT * BSIZE
  {
    if INODE_START <= b < BITMAP_START then InodeBlock(c, size, IPB * (b - INODE_START))
    else if BITMAP_START <= b < DATA_START then Bits(c, BPB * (b - BITMAP_START), BPB)
    else ZeroBlock()
  }

  function Plan(c: nat): (g: Geometry)
    requires c <= NDIRECT
    ensures GeometryOk(g)
  {
    Geometry(Size(c), BITMAP_START, INODE_START, INODES, DATA_START)
  }

  function Disk(c: nat, size: nat): (fs: Fs)
    requires c <= NDIRECT && size <= NDIRECT * BSIZE
    ensures Shape(fs)
  {
    Fs(Plan(c), seq(Size(c), b requires 0 <= b < Size(c) => BlockAt(c, size, b)),
       map i: nat | 1 <= i < INODES :: InodeOf(c, size, i))
  }

  ghost function Owners(c: nat): (o: map<nat, Slot>)
    requires c <= NDIRECT
  {
    map b: nat | DATA_START <= b < Size(c) && !Hole(c, b) :: SlotAt(c, b)
  }

  // ------------------------------------------------ it is sound

  lemma DiskAddr(c: nat, size: nat, fs: Fs, i: nat, k: nat)
    requires c <= NDIRECT && size <= NDIRECT * BSIZE && fs == Disk(c, size) && i in fs.inodes && k <= INDIRECT
    ensures Addr(fs, i, k) == if k < NDIRECT then AddrOf(c, i, k) else 0
  {
  }

  lemma DiskOwned(c: nat, size: nat, fs: Fs, o: map<nat, Slot>)
    requires c <= NDIRECT && size <= NDIRECT * BSIZE && fs == Disk(c, size) && o == Owners(c)
    ensures SlotsOwned(fs, o) && OwnersHold(fs, o)
  {
    forall i, k | i in fs.inodes && 0 <= k <= INDIRECT && Addr(fs, i, k) != 0
      ensures Addr(fs, i, k) in o && o[Addr(fs, i, k)] == Slot(i, k)
    {
      DiskAddr(c, size, fs, i, k);
      SlotOfBlock(c, i, k, BlockOf(c, i, k));
    }
    forall b | b in o
      ensures DATA_START <= b < Size(c) && o[b].inum in fs.inodes && o[b].k <= INDIRECT &&
              Addr(fs, o[b].inum, o[b].k) == b
    {
      BlockOfSlot(c, b, o[b]);
      DiskAddr(c, size, fs, o[b].inum, o[b].k);
    }
  }

  lemma DiskMarked(c: nat, size: nat, fs: Fs, b: nat)
    requires c <= NDIRECT && size <= NDIRECT * BSIZE && fs == Disk(c, size) && b < Size(c)
    ensures Marked(fs, b) <==> !Hole(c, b)
  {
    var x := BitmapBlock(fs.g, b);
    assert BITMAP_START <= x < DATA_START && BPB * (x - BITMAP_START) + b % BPB == b;
  }

  lemma DiskInv(c: nat, size: nat, fs: Fs, o: map<nat, Slot>)
    requires c <= NDIRECT && size <= NDIRECT * BSIZE && fs == Disk(c, size) && o == Owners(c)
    ensures Inv(fs, o, Nothing())
  {
    DiskOwned(c, size, fs, o);
    forall b | 0 <= b < fs.g.size ensures Marked(fs, b) <==> b < fs.g.datastart || b in o || b in Nothing() {
      DiskMarked(c, size, fs, b);
    }
  }

  lemma DiskFile(c: nat, size: nat, fs: Fs, i: nat)
    requires c == CeilBlocks(size) && size <= NDIRECT * BSIZE && fs == Disk(c, size) && i in fs.inodes
    ensures fs.inodes[i].size <= MAXFILE * BSIZE && Full(fs, i, CeilBlocks(fs.inodes[i].size))
  {
    forall k | 0 <= k <= INDIRECT ensures Addr(fs, i, k) == if k < NDIRECT then AddrOf(c, i, k) else 0 {
      DiskAddr(c, size, fs, i, k);
    }
  }

  lemma DiskInode(c: nat, size: nat, fs: Fs, i: nat, x: nat, first: nat, j: nat, ip: Inode)
    requires c <= NDIRECT && size <= NDIRECT * BSIZE && fs == Disk(c, size) && i in fs.inodes &&
             ip == InodeOf(c, size, i)
    requires x == i / IPB + INODE_START && first == IPB * (i / IPB) && j == i % IPB
    ensures x < BITMAP_START && fs.inodes[i] == ip && Stores(fs.blocks[x], j, ip)
  {
    assert first + j == i;
    InodeBlockHolds(c, size, first, j, ip);
    DiskInodeBlock(c, size, fs, x, first);
  }

  lemma DiskInodeBlock(c: nat, size: nat, fs: Fs, x: nat, first: nat)
    requires c <= NDIRECT && size <= NDIRECT * BSIZE && fs == Disk(c, size)
    requires INODE_START <= x < BITMAP_START && first == IPB * (x - INODE_START)
    ensures fs.blocks[x] == InodeBlock(c, size, first)
  {
  }

  lemma DiskSynced(c: nat, size: nat, fs: Fs, i: nat)
    requires c <= NDIRECT && size <= NDIRECT * BSIZE && fs == Disk(c, size) && i in fs.inodes
    ensures Synced(fs, i)
  {
    DiskInode(c, size, fs, i, IBlock(fs.g, i), IPB * (i / IPB), i % IPB, InodeOf(c, size, i));
  }

  lemma DiskSound(c: nat, size: nat, fs: Fs, o: map<nat, Slot>)
    requires c == CeilBlocks(size) && size <= NDIRECT * BSIZE && fs == Disk(c, size) && o == Owners(c)
    ensures Sound(fs, o)
  {
    DiskInv(c, size, fs, o);
    forall i | i in fs.inodes
      ensures fs.inodes[i].size <= MAXFILE * BSIZE && Full(fs, i, CeilBlocks(fs.inodes[i].size)) && Synced(fs, i)
    {
      DiskFile(c, size, fs, i);
      DiskSynced(c, size, fs, i);
    }
  }

  // ------------------------------------------------ its free blocks

  /** The first k free blocks. */
  ghost function Holes(c: nat, k: nat): (r: set<nat>)
    requires k <= SPOTS
    ensures |r| == k && forall b :: b in r ==> Hole(c, b) && b < First(c) + STRIDE * k && b < Size(c)
  {
    if k == 0 then {} else Holes(c, k - 1) + {First(c) + STRIDE * (k - 1)}
  }

  lemma FreeBlocks(c: nat, o: map<nat, Slot>, k: nat)
    requires c <= NDIRECT && o == Owners(c) && k == SPOTS
    ensures |o| + k <= Capacity(Plan(c))
  {
    var holes := Holes(c, k);
    RangeSize(o.Keys + holes, DATA_START, Size(c));
    assert o.Keys * holes == {};
    assert |o.Keys + holes| == |o.Keys| + |holes|;
  }

  /** Two free blocks are never in the same bitmap block. */
  lemma HolesApart(c: nat, x: nat, y: nat)
    requires Hole(c, x) && Hole(c, y) && x < y
    ensures x / BPB != y / BPB
  {
    assert (y - First(c)) - (x - First(c)) >= STRIDE;
  }
}

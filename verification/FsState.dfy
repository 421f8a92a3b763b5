/**
 The on-disk file system of fs.c as a value: the block map that the log layer provides,
 the inodes, and who owns which block.

 Slot k of an inode is its k-th data block for k < MAXFILE; slot INDIRECT is the block
 of block numbers itself.
 */
module FsState {
  import opened Common
  import opened Bytes
  import opened Bitmap

  const NDIRECT := 12
  const NINDIRECT := 128 // BSIZE / sizeof(uint)
  const MAXFILE := 140   // NDIRECT + NINDIRECT
  const INDIRECT: nat := MAXFILE

  /** struct superblock; data blocks start at `datastart`. */
  datatype Geometry = Geometry(size: nat, bmapstart: nat, inodestart: nat, ninodes: nat, datastart: nat)

  datatype Inode = Inode(kind: nat, major: nat, minor: nat, nlink: nat, size: nat, addrs: seq<uint>)

  datatype Fs = Fs(g: Geometry, blocks: seq<Block>, inodes: map<nat, Inode>)

  datatype Slot = Slot(inum: nat, k: nat)

  predicate GeometryOk(g: Geometry) {
    && g.size < UINT_LIMIT && g.datastart <= g.size
    && 1 <= g.inodestart && g.inodestart + g.ninodes / 8 < g.bmapstart
    && g.bmapstart + g.size / BPB < g.datastart
  }

  predicate Shape(fs: Fs) {
    && GeometryOk(fs.g) && |fs.blocks| == fs.g.size
    && forall i :: i in fs.inodes ==> |fs.inodes[i].addrs| == NDIRECT + 1
  }

  /** The block address in slot k, 0 for none. */
  function SlotAddr(blocks: seq<Block>, ip: Inode, k: nat): nat
    requires |ip.addrs| == NDIRECT + 1 && k <= INDIRECT
  {
    if k < NDIRECT then ip.addrs[k]
    else if k == INDIRECT then ip.addrs[NDIRECT]
    else if 0 < ip.addrs[NDIRECT] < |blocks| then Word(blocks[ip.addrs[NDIRECT]], k - NDIRECT)
    else 0
  }

  function Addr(fs: Fs, i: nat, k: nat): nat
    requires Shape(fs) && i in fs.inodes && k <= INDIRECT
  {
    SlotAddr(fs.blocks, fs.inodes[i], k)
  }

  /** BBLOCK(b, sb). */
  function BitmapBlock(g: Geometry, b: nat): nat {
    g.bmapstart + b / BPB
  }

  predicate Marked(fs: Fs, b: nat)
    requires Shape(fs) && b < fs.g.size
  {
    Bit(fs.blocks[BitmapBlock(fs.g, b)], b % BPB)
  }

  ghost predicate DiskFull(fs: Fs) {
    Shape(fs) && forall x {:trigger Marked(fs, x)} :: 0 <= x < fs.g.size ==> Marked(fs, x)
  }

  // ------------------------------------------------ ownership

  /** Every address in a slot is owned by that slot. */
  ghost predicate SlotsOwned(fs: Fs, owner: map<nat, Slot>)
    requires Shape(fs)
  {
    forall i, k :: i in fs.inodes && 0 <= k <= INDIRECT && Addr(fs, i, k) != 0 ==>
      Addr(fs, i, k) in owner && owner[Addr(fs, i, k)] == Slot(i, k)
  }

  /** Every owned block is a data block in its owner's slot. */
  ghost predicate OwnersHold(fs: Fs, owner: map<nat, Slot>)
    requires Shape(fs)
  {
    forall b :: b in owner ==>
      && fs.g.datastart <= b < fs.g.size
      && owner[b].inum in fs.inodes && owner[b].k <= INDIRECT && Addr(fs, owner[b].inum, owner[b].k) == b
  }

  /** The bitmap marks the metadata blocks, the owned blocks, and the blocks in passage, and nothing else. */
  ghost predicate BitmapExact(fs: Fs, owner: map<nat, Slot>, passing: set<nat>)
    requires Shape(fs)
  {
    forall b {:trigger Marked(fs, b)} :: 0 <= b < fs.g.size ==>
      (Marked(fs, b) <==> b < fs.g.datastart || b in owner || b in passing)
  }

  /**
   The invariant of the file system: each block in use belongs to exactly one slot of one
   inode or is passing from the allocator to a slot (or back).
   */
  ghost predicate Inv(fs: Fs, owner: map<nat, Slot>, passing: set<nat>) {
    && Shape(fs)
    && SlotsOwned(fs, owner) && OwnersHold(fs, owner) && BitmapExact(fs, owner, passing)
    && (forall b :: b in passing ==> fs.g.datastart <= b < fs.g.size && b !in owner)
  }

  /** No holes: slots below c are filled, those above are empty, and there is an indirect block exactly if needed. */
  ghost predicate Full(fs: Fs, i: nat, c: nat)
    requires Shape(fs) && i in fs.inodes
  {
    && c <= MAXFILE
    && (forall k :: 0 <= k < MAXFILE ==> (Addr(fs, i, k) != 0 <==> k < c))
    && (Addr(fs, i, INDIRECT) != 0 <==> c > NDIRECT)
  }

  /** Two states agree on every slot address. */
  ghost predicate SameAddrs(fs: Fs, fs': Fs)
    requires Shape(fs) && Shape(fs')
  {
    && fs'.inodes.Keys == fs.inodes.Keys
    && forall i, k :: i in fs.inodes && 0 <= k <= INDIRECT ==> Addr(fs', i, k) == Addr(fs, i, k)
  }

  /** ... except in slot s. */
  ghost predicate SameAddrsBut(fs: Fs, fs': Fs, s: Slot)
    requires Shape(fs) && Shape(fs')
  {
    && fs'.inodes.Keys == fs.inodes.Keys
    && forall i, k :: i in fs.inodes && 0 <= k <= INDIRECT && Slot(i, k) != s ==> Addr(fs', i, k) == Addr(fs, i, k)
  }

  // ------------------------------------------------ steps

  function WithBlock(fs: Fs, b: nat, d: Block): Fs
    requires b < |fs.blocks|
  {
    fs.(blocks := fs.blocks[b := d])
  }

  /** Writing a block that is not an indirect block moves no slot. */
  lemma WriteKeepsAddrs(fs: Fs, owner: map<nat, Slot>, passing: set<nat>, x: nat, d: Block)
    requires Inv(fs, owner, passing) && x < fs.g.size && (x in owner ==> owner[x].k != INDIRECT)
    ensures Shape(WithBlock(fs, x, d))
    ensures SameAddrs(fs, WithBlock(fs, x, d))
  {
    var fs' := WithBlock(fs, x, d);
    forall i, k | i in fs.inodes && 0 <= k <= INDIRECT ensures Addr(fs', i, k) == Addr(fs, i, k) {
      var ind := Addr(fs, i, INDIRECT);
      assert ind == fs.inodes[i].addrs[NDIRECT];
    }
  }

  /** Writing file data (or a block in passage) keeps the invariant. */
  lemma WriteDataKeeps(fs: Fs, owner: map<nat, Slot>, passing: set<nat>, x: nat, d: Block)
    requires Inv(fs, owner, passing) && fs.g.datastart <= x < fs.g.size && (x in owner ==> owner[x].k != INDIRECT)
    ensures Inv(WithBlock(fs, x, d), owner, passing)
    ensures SameAddrs(fs, WithBlock(fs, x, d))
  {
    WriteKeepsAddrs(fs, owner, passing, x, d);
    var fs' := WithBlock(fs, x, d);
    forall b | 0 <= b < fs.g.size ensures Marked(fs', b) == Marked(fs, b) {
      BitmapBelowData(fs.g, b);
    }
    OwnershipMoves(fs, fs', owner);
  }

  lemma BitmapBelowData(g: Geometry, b: nat)
    requires GeometryOk(g) && b < g.size
    ensures g.bmapstart <= BitmapBlock(g, b) < g.datastart
  {
    assert b / BPB <= g.size / BPB;
  }

  lemma OwnershipMoves(fs: Fs, fs': Fs, owner: map<nat, Slot>)
    requires Shape(fs) && Shape(fs') && fs'.g == fs.g && SameAddrs(fs, fs')
    requires SlotsOwned(fs, owner) && OwnersHold(fs, owner)
    ensures SlotsOwned(fs', owner) && OwnersHold(fs', owner)
  {
  }

  /** fs with the bit of block b changed. */
  function Flip(fs: Fs, b: nat, on: bool): Fs
    requires Shape(fs) && b < fs.g.size
  {
    BitmapBelowData(fs.g, b);
    var bm := BitmapBlock(fs.g, b);
    WithBlock(fs, bm, if on then SetBit(fs.blocks[bm], b % BPB) else ClearBit(fs.blocks[bm], b % BPB))
  }

  lemma FlipMarks(fs: Fs, b: nat, on: bool, x: nat)
    requires Shape(fs) && b < fs.g.size && x < fs.g.size
    ensures Shape(Flip(fs, b, on))
    ensures Marked(Flip(fs, b, on), x) <==> if x == b then on else Marked(fs, x)
  {
    BitmapBelowData(fs.g, b);
    BitmapBelowData(fs.g, x);
    if BitmapBlock(fs.g, x) == BitmapBlock(fs.g, b) {
      assert x / BPB == b / BPB;
      assert x % BPB == b % BPB <==> x == b;
    }
  }

  /** Marking a free block takes it into passage; it was nobody's. */
  lemma MarkKeeps(fs: Fs, owner: map<nat, Slot>, passing: set<nat>, b: nat)
    requires Inv(fs, owner, passing) && b < fs.g.size && !Marked(fs, b)
    ensures fs.g.datastart <= b && b !in owner && b !in passing
    ensures Inv(Flip(fs, b, true), owner, passing + {b})
    ensures SameAddrs(fs, Flip(fs, b, true))
  {
    FlipKeepsAddrs(fs, owner, passing, b, true);
    var fs' := Flip(fs, b, true);
    forall x | 0 <= x < fs.g.size
      ensures Marked(fs', x) <==> x < fs.g.datastart || x in owner || x in passing + {b}
    {
      FlipMarks(fs, b, true, x);
    }
  }

  /** Clearing the bit of a block in passage completes its release. */
  lemma UnmarkKeeps(fs: Fs, owner: map<nat, Slot>, passing: set<nat>, b: nat)
    requires Inv(fs, owner, passing) && b in passing
    ensures Marked(fs, b)
    ensures Inv(Flip(fs, b, false), owner, passing - {b})
    ensures SameAddrs(fs, Flip(fs, b, false))
  {
    FlipKeepsAddrs(fs, owner, passing, b, false);
    var fs' := Flip(fs, b, false);
    forall x | 0 <= x < fs.g.size
      ensures Marked(fs', x) <==> x < fs.g.datastart || x in owner || x in passing - {b}
    {
      FlipMarks(fs, b, false, x);
    }
  }

  lemma FlipKeepsAddrs(fs: Fs, owner: map<nat, Slot>, passing: set<nat>, b: nat, on: bool)
    requires Inv(fs, owner, passing) && b < fs.g.size
    ensures Shape(Flip(fs, b, on)) && SameAddrs(fs, Flip(fs, b, on))
    ensures SlotsOwned(Flip(fs, b, on), owner) && OwnersHold(Flip(fs, b, on), owner)
  {
    BitmapBelowData(fs.g, b);
    var bm := BitmapBlock(fs.g, b);
    WriteKeepsAddrs(fs, owner, passing, bm,
                    if on then SetBit(fs.blocks[bm], b % BPB) else ClearBit(fs.blocks[bm], b % BPB));
    OwnershipMoves(fs, Flip(fs, b, on), owner);
  }

  /** A block in passage goes into an empty slot. */
  lemma AssignKeeps(fs: Fs, fs': Fs, owner: map<nat, Slot>, passing: set<nat>, s: Slot, b: nat)
    requires Inv(fs, owner, passing) && b in passing && Shape(fs') && fs'.g == fs.g
    requires s.inum in fs.inodes && s.k <= INDIRECT && Addr(fs, s.inum, s.k) == 0
    requires SameAddrsBut(fs, fs', s) && Addr(fs', s.inum, s.k) == b
    requires forall x :: 0 <= x < fs.g.size ==> Marked(fs', x) == Marked(fs, x)
    ensures Inv(fs', owner[b := s], passing - {b})
  {
  }

  /** ip->addrs[k] = b, for a direct slot or the indirect one. */
  function WithAddr(fs: Fs, i: nat, k: nat, b: uint): Fs
    requires i in fs.inodes && k < |fs.inodes[i].addrs|
  {
    fs.(inodes := fs.inodes[i := fs.inodes[i].(addrs := fs.inodes[i].addrs[k := b])])
  }

  lemma AssignDirect(fs: Fs, owner: map<nat, Slot>, passing: set<nat>, i: nat, k: nat, b: uint)
    requires Inv(fs, owner, passing) && b in passing && i in fs.inodes && k < NDIRECT && Addr(fs, i, k) == 0
    ensures Inv(WithAddr(fs, i, k, b), owner[b := Slot(i, k)], passing - {b})
    ensures SameAddrsBut(fs, WithAddr(fs, i, k, b), Slot(i, k)) && Addr(WithAddr(fs, i, k, b), i, k) == b
  {
    var fs' := WithAddr(fs, i, k, b);
    assert fs'.inodes.Keys == fs.inodes.Keys;
    assert SameAddrsBut(fs, fs', Slot(i, k));
    AssignKeeps(fs, fs', owner, passing, Slot(i, k), b);
  }

  lemma AssignIndirect(fs: Fs, owner: map<nat, Slot>, passing: set<nat>, i: nat, b: uint)
    requires Inv(fs, owner, passing) && b in passing && i in fs.inodes
    requires Addr(fs, i, INDIRECT) == 0 && fs.blocks[b] == ZeroBlock()
    ensures Inv(WithAddr(fs, i, NDIRECT, b), owner[b := Slot(i, INDIRECT)], passing - {b})
    ensures SameAddrsBut(fs, WithAddr(fs, i, NDIRECT, b), Slot(i, INDIRECT))
    ensures Addr(WithAddr(fs, i, NDIRECT, b), i, INDIRECT) == b
  {
    var fs' := WithAddr(fs, i, NDIRECT, b);
    EmptyIndirect(fs, i, b);
    AssignKeeps(fs, fs', owner, passing, Slot(i, INDIRECT), b);
  }

  /** A zeroed indirect block lists nothing. */
  lemma EmptyIndirect(fs: Fs, i: nat, b: uint)
    requires Shape(fs) && i in fs.inodes && b < |fs.blocks|
    requires Addr(fs, i, INDIRECT) == 0 && fs.blocks[b] == ZeroBlock()
    ensures Shape(WithAddr(fs, i, NDIRECT, b)) && SameAddrsBut(fs, WithAddr(fs, i, NDIRECT, b), Slot(i, INDIRECT))
  {
    var fs' := WithAddr(fs, i, NDIRECT, b);
    assert fs'.inodes.Keys == fs.inodes.Keys;
    forall k: nat | k < NINDIRECT ensures Word(fs.blocks[b], k) == 0 {
      ZeroWord(k);
    }
    assert forall k :: 0 <= k < INDIRECT ==> Addr(fs', i, k) == Addr(fs, i, k);
  }

  /** a[bn] = b in the indirect block. */
  function WithEntry(fs: Fs, ind: nat, j: nat, b: uint): Fs
    requires ind < |fs.blocks| && j < NINDIRECT
  {
    WithBlock(fs, ind, PutWord(fs.blocks[ind], j, b))
  }

  lemma EntryAddrs(fs: Fs, fs': Fs, owner: map<nat, Slot>, i: nat, ind: nat, j: nat, b: uint)
    requires Shape(fs) && SlotsOwned(fs, owner) && OwnersHold(fs, owner) && i in fs.inodes && j < NINDIRECT
    requires ind == Addr(fs, i, INDIRECT) != 0 && ind < |fs.blocks| && fs' == WithEntry(fs, ind, j, b)
    ensures Shape(fs') && SameAddrsBut(fs, fs', Slot(i, NDIRECT + j)) && Addr(fs', i, NDIRECT + j) == b
  {
    forall h, k | h in fs.inodes && 0 <= k <= INDIRECT && Slot(h, k) != Slot(i, NDIRECT + j)
      ensures Addr(fs', h, k) == Addr(fs, h, k)
    {
      assert Addr(fs, h, INDIRECT) == ind ==> h == i;
    }
  }

  lemma AssignEntry(fs: Fs, fs': Fs, owner: map<nat, Slot>, passing: set<nat>, i: nat, ind: nat, j: nat, b: uint)
    requires Inv(fs, owner, passing) && b in passing && i in fs.inodes && j < NINDIRECT
    requires ind == Addr(fs, i, INDIRECT) != 0 && Addr(fs, i, NDIRECT + j) == 0
    requires ind < |fs.blocks| && fs' == WithEntry(fs, ind, j, b)
    ensures Inv(fs', owner[b := Slot(i, NDIRECT + j)], passing - {b})
    ensures SameAddrsBut(fs, fs', Slot(i, NDIRECT + j)) && Addr(fs', i, NDIRECT + j) == b
  {
    EntryAddrs(fs, fs', owner, i, ind, j, b);
    assert owner[ind] == Slot(i, INDIRECT);
    forall x | 0 <= x < fs.g.size ensures Marked(fs', x) == Marked(fs, x) {
      BitmapBelowData(fs.g, x);
    }
    AssignKeeps(fs, fs', owner, passing, Slot(i, NDIRECT + j), b);
  }

  // ------------------------------------------------ truncation

  /** The blocks in the slots of inode i from slot k on. */
  ghost function BlocksFrom(fs: Fs, i: nat, k: nat): set<nat>
    requires Shape(fs) && i in fs.inodes
  {
    set j | k <= j <= INDIRECT && Addr(fs, i, j) != 0 :: Addr(fs, i, j)
  }

  function NoAddrs(): seq<uint> {
    seq(NDIRECT + 1, _ => 0)
  }

  function Emptied(fs: Fs, i: nat): Fs
    requires i in fs.inodes
  {
    fs.(inodes := fs.inodes[i := fs.inodes[i].(size := 0, addrs := NoAddrs())])
  }

  ghost function OwnerWithout(owner: map<nat, Slot>, i: nat): map<nat, Slot> {
    map b | b in owner && owner[b].inum != i :: owner[b]
  }

  /** An inode that lets go of all its slots puts exactly its blocks in passage. */
  lemma DetachKeeps(fs: Fs, owner: map<nat, Slot>, i: nat)
    requires Inv(fs, owner, Nothing()) && i in fs.inodes
    ensures Inv(Emptied(fs, i), OwnerWithout(owner, i), BlocksFrom(fs, i, 0))
    ensures forall b :: b in owner ==> (b in BlocksFrom(fs, i, 0) <==> owner[b].inum == i)
  {
    var fs', o, p := Emptied(fs, i), OwnerWithout(owner, i), BlocksFrom(fs, i, 0);
    assert fs'.inodes.Keys == fs.inodes.Keys;
    forall k | 0 <= k <= INDIRECT ensures Addr(fs', i, k) == 0 {
    }
    forall j, k | j in fs.inodes && j != i && 0 <= k <= INDIRECT ensures Addr(fs', j, k) == Addr(fs, j, k) {
    }
    forall b | b in owner ensures b in p <==> owner[b].inum == i {
      if owner[b].inum == i {
        assert Addr(fs, i, owner[b].k) == b;
      }
    }
    assert forall b :: b in p ==> b in owner;
    forall x | 0 <= x < fs.g.size ensures Marked(fs', x) <==> x < fs.g.datastart || x in o || x in p {
      assert Marked(fs', x) == Marked(fs, x);
    }
  }

  /** Slots of one inode never share a block, so each is released once. */
  lemma NextRelease(fs: Fs, owner: map<nat, Slot>, i: nat, k: nat)
    requires Inv(fs, owner, Nothing()) && i in fs.inodes && k <= INDIRECT
    ensures Addr(fs, i, k) == 0 ==> BlocksFrom(fs, i, k) == BlocksFrom(fs, i, k + 1)
    ensures Addr(fs, i, k) != 0 ==>
      Addr(fs, i, k) in BlocksFrom(fs, i, k) && BlocksFrom(fs, i, k + 1) == BlocksFrom(fs, i, k) - {Addr(fs, i, k)}
  {
    var here, rest := BlocksFrom(fs, i, k), BlocksFrom(fs, i, k + 1);
    if Addr(fs, i, k) != 0 {
      var b := Addr(fs, i, k);
      assert owner[b] == Slot(i, k);
      assert b !in rest;
      assert here == rest + {b};
    } else {
      assert here == rest;
    }
  }

  // ------------------------------------------------ contents

  function CeilBlocks(n: nat): nat {
    (n + BSIZE - 1) / BSIZE
  }

  /** Byte p of a file. */
  ghost function ByteAt(fs: Fs, i: nat, p: nat): byte
    requires Shape(fs) && i in fs.inodes && p < MAXFILE * BSIZE
  {
    var a := Addr(fs, i, p / BSIZE);
    if a < |fs.blocks| then fs.blocks[a][p % BSIZE] else 0
  }

  ghost function FirstBytes(fs: Fs, i: nat, n: nat): (r: seq<byte>)
    requires Shape(fs) && i in fs.inodes && n <= MAXFILE * BSIZE
    ensures |r| == n && forall p :: 0 <= p < n ==> r[p] == ByteAt(fs, i, p)
  {
    if n == 0 then [] else FirstBytes(fs, i, n - 1) + [ByteAt(fs, i, n - 1)]
  }

  /** No file has holes, and every size is one a file can have. */
  ghost predicate FilesFull(fs: Fs)
    requires Shape(fs)
  {
    forall i :: i in fs.inodes ==> fs.inodes[i].size <= MAXFILE * BSIZE && Full(fs, i, CeilBlocks(fs.inodes[i].size))
  }

  /** The contents of file i. */
  ghost function Content(fs: Fs, i: nat): (r: seq<byte>)
    requires Shape(fs) && i in fs.inodes && fs.inodes[i].size <= MAXFILE * BSIZE
    ensures |r| == fs.inodes[i].size
  {
    FirstBytes(fs, i, fs.inodes[i].size)
  }

  /** File i is the same in both states: inode, block addresses and blocks. */
  ghost predicate SameFile(fs: Fs, fs': Fs, i: nat)
    requires Shape(fs) && Shape(fs')
  {
    && i in fs.inodes && i in fs'.inodes && fs'.inodes[i] == fs.inodes[i]
    && forall k :: 0 <= k <= INDIRECT ==> SameSlot(fs, fs', i, k)
  }

  ghost predicate SameSlot(fs: Fs, fs': Fs, i: nat, k: nat)
    requires Shape(fs) && Shape(fs') && i in fs.inodes && i in fs'.inodes && k <= INDIRECT
  {
    && Addr(fs', i, k) == Addr(fs, i, k)
    && (Addr(fs, i, k) != 0 ==>
          Addr(fs, i, k) < |fs.blocks| && Addr(fs, i, k) < |fs'.blocks| &&
          fs'.blocks[Addr(fs, i, k)] == fs.blocks[Addr(fs, i, k)])
  }

  lemma SameFileSameContent(fs: Fs, fs': Fs, i: nat)
    requires Shape(fs) && Shape(fs') && SameFile(fs, fs', i)
    requires fs.inodes[i].size <= MAXFILE * BSIZE && Full(fs, i, CeilBlocks(fs.inodes[i].size))
    ensures Content(fs', i) == Content(fs, i) && Full(fs', i, CeilBlocks(fs.inodes[i].size))
  {
    forall k | 0 <= k <= INDIRECT ensures Addr(fs', i, k) == Addr(fs, i, k) {
      assert SameSlot(fs, fs', i, k);
    }
    forall p | 0 <= p < fs.inodes[i].size ensures ByteAt(fs', i, p) == ByteAt(fs, i, p) {
      assert SameSlot(fs, fs', i, p / BSIZE);
    }
  }

  ghost predicate SameButAddrs(ip: Inode, ip': Inode) {
    ip'.kind == ip.kind && ip'.major == ip.major && ip'.minor == ip.minor &&
    ip'.nlink == ip.nlink && ip'.size == ip.size
  }

  /** All files but i are untouched. */
  ghost predicate OthersSame(fs: Fs, fs': Fs, i: nat)
    requires Shape(fs) && Shape(fs')
  {
    fs.inodes.Keys == fs'.inodes.Keys && forall j :: j in fs.inodes && j != i ==> SameFile(fs, fs', j)
  }

  /** The filled data slots of file i are untouched, and so is everything about it but its addresses. */
  ghost predicate FileKept(fs: Fs, fs': Fs, i: nat)
    requires Shape(fs) && Shape(fs')
  {
    && i in fs.inodes && i in fs'.inodes && SameButAddrs(fs.inodes[i], fs'.inodes[i])
    && forall k :: 0 <= k < MAXFILE && Addr(fs, i, k) != 0 ==> SameSlot(fs, fs', i, k)
  }

  lemma FramesCompose(fs0: Fs, fs1: Fs, fs2: Fs, i: nat)
    requires Shape(fs0) && Shape(fs1) && Shape(fs2)
    requires OthersSame(fs0, fs1, i) && FileKept(fs0, fs1, i)
    requires OthersSame(fs1, fs2, i) && FileKept(fs1, fs2, i)
    ensures OthersSame(fs0, fs2, i) && FileKept(fs0, fs2, i)
  {
    forall j | j in fs0.inodes && j != i ensures SameFile(fs0, fs2, j) {
      forall h | 0 <= h <= INDIRECT ensures SameSlot(fs0, fs2, j, h) {
        assert SameSlot(fs0, fs1, j, h) && SameSlot(fs1, fs2, j, h);
      }
    }
    forall h | 0 <= h < MAXFILE && Addr(fs0, i, h) != 0 ensures SameSlot(fs0, fs2, i, h) {
      assert SameSlot(fs0, fs1, i, h) && SameSlot(fs1, fs2, i, h);
    }
  }

  /** The boot, super, log and inode blocks are the same. */
  ghost predicate MetaKept(fs: Fs, fs': Fs) {
    && |fs'.blocks| == |fs.blocks|
    && forall x :: 0 <= x < fs.g.bmapstart && x < |fs.blocks| ==> fs'.blocks[x] == fs.blocks[x]
  }

  /** Inodes are the same, up to the addresses in inode i. */
  ghost predicate InodesKept(fs: Fs, fs': Fs, i: nat) {
    && fs'.inodes.Keys == fs.inodes.Keys && i in fs.inodes
    && SameButAddrs(fs.inodes[i], fs'.inodes[i])
    && forall j :: j in fs.inodes && j != i ==> fs'.inodes[j] == fs.inodes[j]
  }

  /** Owned blocks are the same, up to the indirect block of inode i. */
  ghost predicate OwnedKept(fs: Fs, fs': Fs, owner: map<nat, Slot>, i: nat) {
    && |fs'.blocks| == |fs.blocks|
    && forall x :: x in owner && x < |fs.blocks| && owner[x] != Slot(i, INDIRECT) ==> fs'.blocks[x] == fs.blocks[x]
  }

  /** fs' is fs with the fresh block b in the formerly empty slot s, and the invariant holds again. */
  ghost predicate Filled(fs: Fs, fs': Fs, owner: map<nat, Slot>, owner': map<nat, Slot>, s: Slot, b: nat)
    requires Shape(fs)
  {
    && Inv(fs', owner', Nothing()) && fs'.g == fs.g && s.k <= INDIRECT
    && InodesKept(fs, fs', s.inum) && OwnedKept(fs, fs', owner, s.inum) && MetaKept(fs, fs')
    && SameAddrsBut(fs, fs', s) && Addr(fs', s.inum, s.k) == b != 0
    && (s.k != INDIRECT ==> b < |fs'.blocks| && fs'.blocks[b] == ZeroBlock())
  }

  /** Filling an empty slot of file i disturbs neither its other slots nor any other file. */
  lemma FillFrame(fs: Fs, fs': Fs, owner: map<nat, Slot>, owner': map<nat, Slot>, s: Slot, b: nat)
    requires Inv(fs, owner, Nothing()) && Filled(fs, fs', owner, owner', s, b) && Addr(fs, s.inum, s.k) == 0
    ensures OthersSame(fs, fs', s.inum) && FileKept(fs, fs', s.inum)
  {
    var i := s.inum;
    forall j | j in fs.inodes && j != i ensures SameFile(fs, fs', j) {
      forall h | 0 <= h <= INDIRECT ensures SameSlot(fs, fs', j, h) {
        assert Addr(fs', j, h) == Addr(fs, j, h);
      }
    }
    forall h | 0 <= h < MAXFILE && Addr(fs, i, h) != 0 ensures SameSlot(fs, fs', i, h) {
      assert Addr(fs', i, h) == Addr(fs, i, h);
    }
  }

  /** The one block in passage. */
  ghost function Only(b: nat): set<nat> {
    {b}
  }

  ghost function Nothing(): set<nat> {
    {}
  }

  /** The state after the allocator has handed out block b. */
  ghost predicate Handed(fs: Fs, fs': Fs, owner: map<nat, Slot>, b: nat)
    requires Shape(fs)
  {
    && Inv(fs', owner, Only(b)) && fs'.g == fs.g && fs'.inodes == fs.inodes && b < UINT_LIMIT
    && fs'.blocks[b] == ZeroBlock() && SameAddrs(fs, fs') && MetaKept(fs, fs')
    && forall x :: x in owner ==> fs'.blocks[x] == fs.blocks[x]
  }

  lemma HandedToDirect(fs: Fs, fs1: Fs, owner: map<nat, Slot>, i: nat, k: nat, b: nat)
    requires Inv(fs, owner, Nothing()) && Handed(fs, fs1, owner, b) && i in fs.inodes && k < NDIRECT &&
             Addr(fs, i, k) == 0
    ensures Filled(fs, WithAddr(fs1, i, k, b), owner, owner[b := Slot(i, k)], Slot(i, k), b)
  {
    AssignDirect(fs1, owner, Only(b), i, k, b);
    assert Only(b) - {b} == Nothing();
  }

  lemma HandedToIndirect(fs: Fs, fs1: Fs, owner: map<nat, Slot>, i: nat, b: nat)
    requires Inv(fs, owner, Nothing()) && Handed(fs, fs1, owner, b) && i in fs.inodes && Addr(fs, i, INDIRECT) == 0
    ensures Filled(fs, WithAddr(fs1, i, NDIRECT, b), owner, owner[b := Slot(i, INDIRECT)], Slot(i, INDIRECT), b)
  {
    AssignIndirect(fs1, owner, Only(b), i, b);
    assert Only(b) - {b} == Nothing();
  }

  /** Block b, handed out before, has been entered in the indirect block ind of inode i. */
  ghost predicate Entered(fs: Fs, fs': Fs, owner': map<nat, Slot>, s: Slot, ind: nat, b: nat)
    requires Shape(fs)
  {
    && Inv(fs', owner', Nothing()) && fs'.g == fs.g && fs'.inodes == fs.inodes && s.inum in fs.inodes && s.k <= INDIRECT
    && SameAddrsBut(fs, fs', s) && Addr(fs', s.inum, s.k) == b
    && forall x :: 0 <= x < |fs.blocks| && x != ind ==> fs'.blocks[x] == fs.blocks[x]
  }

  lemma EnterKeeps(fs: Fs, fs': Fs, owner: map<nat, Slot>, i: nat, ind: nat, j: nat, b: uint)
    requires Inv(fs, owner, Only(b)) && i in fs.inodes && j < NINDIRECT
    requires ind == Addr(fs, i, INDIRECT) != 0 && Addr(fs, i, NDIRECT + j) == 0
    requires ind < |fs.blocks| && fs' == WithEntry(fs, ind, j, b)
    ensures Entered(fs, fs', owner[b := Slot(i, NDIRECT + j)], Slot(i, NDIRECT + j), ind, b)
  {
    AssignEntry(fs, fs', owner, Only(b), i, ind, j, b);
    assert Only(b) - {b} == Nothing();
  }

  lemma HandedThenEntered(fs: Fs, fs1: Fs, fs2: Fs, owner: map<nat, Slot>, owner2: map<nat, Slot>, s: Slot, ind: nat,
                          b: nat)
    requires Inv(fs, owner, Nothing()) && Handed(fs, fs1, owner, b) && s.inum in fs.inodes && NDIRECT <= s.k < INDIRECT
    requires ind in owner && owner[ind] == Slot(s.inum, INDIRECT)
    requires Entered(fs1, fs2, owner2, s, ind, b)
    ensures Filled(fs, fs2, owner, owner2, s, b)
  {
    assert b != ind && fs.g.bmapstart <= ind;
    forall x | x in owner && x < |fs.blocks| && owner[x] != Slot(s.inum, INDIRECT)
      ensures fs2.blocks[x] == fs.blocks[x]
    {
      assert x != ind;
    }
  }

  /** bmap(): slot bn of file i is filled, with r; all other data slots and files are as they were. */
  ghost predicate Mapped(fs: Fs, fs': Fs, owner': map<nat, Slot>, i: nat, bn: nat, r: nat)
    requires Shape(fs)
  {
    && Inv(fs', owner', Nothing()) && fs'.g == fs.g && i in fs.inodes && bn < MAXFILE
    && OthersSame(fs, fs', i) && FileKept(fs, fs', i) && MetaKept(fs, fs')
    && Addr(fs', i, bn) == r != 0
    && (forall k :: 0 <= k < MAXFILE && k != bn ==> Addr(fs', i, k) == Addr(fs, i, k))
    && (Addr(fs', i, INDIRECT) != 0 <==> Addr(fs, i, INDIRECT) != 0 || bn >= NDIRECT)
    && (Addr(fs, i, INDIRECT) != 0 ==> Addr(fs', i, INDIRECT) == Addr(fs, i, INDIRECT))
    && (Addr(fs, i, bn) == 0 ==> r < |fs'.blocks| && fs'.blocks[r] == ZeroBlock())
    && (Addr(fs, i, bn) != 0 ==> fs' == fs)
  }

  lemma DirectMapped(fs: Fs, fs': Fs, owner: map<nat, Slot>, owner': map<nat, Slot>, i: nat, bn: nat, r: nat)
    requires Inv(fs, owner, Nothing()) && bn < NDIRECT && i in fs.inodes && Addr(fs, i, bn) == 0
    requires Filled(fs, fs', owner, owner', Slot(i, bn), r)
    ensures Mapped(fs, fs', owner', i, bn, r)
  {
    FillFrame(fs, fs', owner, owner', Slot(i, bn), r);
    assert Addr(fs', i, INDIRECT) == Addr(fs, i, INDIRECT);
  }

  lemma EntryMapped(fs: Fs, fs': Fs, owner: map<nat, Slot>, owner': map<nat, Slot>, i: nat, bn: nat, r: nat)
    requires Inv(fs, owner, Nothing()) && NDIRECT <= bn < MAXFILE && i in fs.inodes
    requires Addr(fs, i, bn) == 0 && Addr(fs, i, INDIRECT) != 0
    requires Filled(fs, fs', owner, owner', Slot(i, bn), r)
    ensures Mapped(fs, fs', owner', i, bn, r)
  {
    FillFrame(fs, fs', owner, owner', Slot(i, bn), r);
    assert Addr(fs', i, INDIRECT) == Addr(fs, i, INDIRECT);
  }

  /** A new indirect block, then a new entry in it. */
  lemma IndirectThenMapped(fs: Fs, fs1: Fs, fs2: Fs, owner: map<nat, Slot>, owner1: map<nat, Slot>,
                           owner2: map<nat, Slot>, i: nat, ind: nat, bn: nat, r: nat)
    requires Inv(fs, owner, Nothing()) && NDIRECT <= bn < MAXFILE && i in fs.inodes && Addr(fs, i, INDIRECT) == 0
    requires Filled(fs, fs1, owner, owner1, Slot(i, INDIRECT), ind)
    requires Mapped(fs1, fs2, owner2, i, bn, r) && Addr(fs, i, bn) == 0
    ensures Addr(fs1, i, bn) == Addr(fs, i, bn) == 0
    ensures Mapped(fs, fs2, owner2, i, bn, r)
  {
    FillFrame(fs, fs1, owner, owner1, Slot(i, INDIRECT), ind);
    FramesCompose(fs, fs1, fs2, i);
    forall k | 0 <= k < MAXFILE ensures Addr(fs1, i, k) == Addr(fs, i, k) {
    }
  }

  /** The blocks bmap() passes to log_write(). */
  ghost predicate MapLogged(l: set<nat>, l': set<nat>, fs: Fs, fs': Fs, i: nat, bn: nat, r: nat)
    requires Shape(fs) && Shape(fs') && i in fs.inodes && i in fs'.inodes && bn < MAXFILE
  {
    var ind := Addr(fs', i, INDIRECT);
    if Addr(fs, i, bn) != 0 then l' == l
    else if bn < NDIRECT then l' == l + {BitmapBlock(fs.g, r), r}
    else if Addr(fs, i, INDIRECT) != 0 then l' == l + {BitmapBlock(fs.g, r), r} + {ind}
    else l' == l + {BitmapBlock(fs.g, ind), ind} + {BitmapBlock(fs.g, r), r} + {ind}
  }

  // ------------------------------------------------ reading and writing

  lemma MappedFull(fs: Fs, fs': Fs, owner': map<nat, Slot>, i: nat, bn: nat, r: nat, c: nat)
    requires Shape(fs) && Mapped(fs, fs', owner', i, bn, r) && Full(fs, i, c) && bn <= c
    ensures Full(fs', i, if bn < c then c else c + 1)
  {
  }

  /** bmap() changes no byte of the file. */
  lemma MappedBytes(fs: Fs, fs': Fs, owner': map<nat, Slot>, i: nat, bn: nat, r: nat, c: nat, p: nat)
    requires Shape(fs) && Mapped(fs, fs', owner', i, bn, r) && Full(fs, i, c) && p < c * BSIZE && c <= MAXFILE
    ensures ByteAt(fs', i, p) == ByteAt(fs, i, p)
  {
    assert p / BSIZE < c;
    assert SameSlot(fs, fs', i, p / BSIZE);
  }

  /** Overwriting the block of slot bn changes the bytes of that slot and no others. */
  lemma PatchBytes(fs: Fs, owner: map<nat, Slot>, i: nat, bn: nat, r: nat, d: Block)
    requires Inv(fs, owner, Nothing()) && i in fs.inodes && bn < MAXFILE && r == Addr(fs, i, bn) != 0
    ensures r < |fs.blocks| && Inv(WithBlock(fs, r, d), owner, Nothing())
    ensures SameAddrs(fs, WithBlock(fs, r, d)) && OthersSame(fs, WithBlock(fs, r, d), i) &&
            MetaKept(fs, WithBlock(fs, r, d))
    ensures forall p :: 0 <= p < MAXFILE * BSIZE ==>
      ByteAt(WithBlock(fs, r, d), i, p) == if p / BSIZE == bn then d[p % BSIZE] else ByteAt(fs, i, p)
  {
    assert r in owner && owner[r] == Slot(i, bn);
    WriteDataKeeps(fs, owner, Nothing(), r, d);
    var fs' := WithBlock(fs, r, d);
    forall j, k | j in fs.inodes && j != i && 0 <= k <= INDIRECT ensures SameSlot(fs, fs', j, k) {
      assert Addr(fs', j, k) == Addr(fs, j, k);
    }
    forall p | 0 <= p < MAXFILE * BSIZE
      ensures ByteAt(fs', i, p) == if p / BSIZE == bn then d[p % BSIZE] else ByteAt(fs, i, p)
    {
      assert p / BSIZE < MAXFILE;
      assert Addr(fs', i, p / BSIZE) == Addr(fs, i, p / BSIZE);
    }
  }

  ghost function Max(a: nat, b: nat): nat {
    if a < b then b else a
  }

  /** c with s at offset off, extended if need be. */
  function Overwritten(c: seq<byte>, off: nat, s: seq<byte>): (r: seq<byte>)
    requires off <= |c|
    ensures |r| == if off + |s| > |c| then off + |s| else |c|
    ensures forall p :: 0 <= p < |r| ==> r[p] == if off <= p < off + |s| then s[p - off] else c[p]
  {
    c[..off] + s + if off + |s| <= |c| then c[off + |s|..] else []
  }

  /** Everything but the bytes: file i holds c blocks, and nothing else has changed since fs0. */
  ghost predicate Extending(fs0: Fs, fs: Fs, owner: map<nat, Slot>, i: nat, c: nat)
    requires Shape(fs0) && i in fs0.inodes
  {
    && Inv(fs, owner, Nothing()) && fs.g == fs0.g && OthersSame(fs0, fs, i)
    && SameButAddrs(fs0.inodes[i], fs.inodes[i]) && Full(fs, i, c) && MetaKept(fs0, fs)
  }

  /** d is block e with src[tot..tot + m] at offset o. */
  ghost predicate Patched(d: Block, e: Block, o: nat, src: seq<byte>, tot: nat, m: nat) {
    && o + m <= BSIZE && tot + m <= |src|
    && forall q :: 0 <= q < BSIZE ==> d[q] == if o <= q < o + m then src[tot + q - o] else e[q]
  }

  lemma BlockSteps(end: nat, at: nat, m: nat, next: nat)
    requires at <= end && 0 < m <= BSIZE - at % BSIZE && next == at + m
    ensures at / BSIZE <= CeilBlocks(end)
    ensures CeilBlocks(Max(end, next)) == if at / BSIZE < CeilBlocks(end) then CeilBlocks(end) else CeilBlocks(end) + 1
  {
  }

  lemma InBlock(p: nat, at: nat, m: nat)
    requires 0 < m <= BSIZE - at % BSIZE
    ensures at <= p < at + m <==> p / BSIZE == at / BSIZE && at % BSIZE <= p % BSIZE < at % BSIZE + m
    ensures at <= p < at + m ==> p % BSIZE - at % BSIZE == p - at
  {
  }

  lemma OthersCompose(fs0: Fs, fs1: Fs, fs2: Fs, fs3: Fs, i: nat)
    requires Shape(fs0) && Shape(fs1) && Shape(fs2) && Shape(fs3)
    requires OthersSame(fs0, fs1, i) && OthersSame(fs1, fs2, i) && OthersSame(fs2, fs3, i)
    ensures OthersSame(fs0, fs3, i)
  {
    forall j | j in fs0.inodes && j != i ensures SameFile(fs0, fs3, j) {
      forall h | 0 <= h <= INDIRECT ensures SameSlot(fs0, fs3, j, h) {
        assert SameSlot(fs0, fs1, j, h) && SameSlot(fs1, fs2, j, h) && SameSlot(fs2, fs3, j, h);
      }
    }
  }

  /** Writing a data block of file i, seen from outside. */
  ghost predicate Patch(fs: Fs, fs': Fs, owner: map<nat, Slot>, i: nat)
    requires Shape(fs)
  {
    && Inv(fs', owner, Nothing()) && fs'.g == fs.g && fs'.inodes == fs.inodes
    && SameAddrs(fs, fs') && OthersSame(fs, fs', i) && MetaKept(fs, fs')
  }

  lemma MetaCompose(fs0: Fs, fs1: Fs, fs2: Fs, fs3: Fs)
    requires fs0.g == fs1.g == fs2.g && MetaKept(fs0, fs1) && MetaKept(fs1, fs2) && MetaKept(fs2, fs3)
    ensures MetaKept(fs0, fs3)
  {
  }

  lemma PatchFull(fs: Fs, fs': Fs, i: nat, c: nat)
    requires Shape(fs) && Shape(fs') && SameAddrs(fs, fs') && i in fs.inodes && Full(fs, i, c)
    ensures i in fs'.inodes && Full(fs', i, c)
  {
  }

  lemma ExtendStep(fs0: Fs, fs: Fs, fs1: Fs, fs2: Fs, owner: map<nat, Slot>, owner1: map<nat, Slot>, i: nat, bn: nat,
                   c: nat, r: nat)
    requires Shape(fs0) && i in fs0.inodes && Extending(fs0, fs, owner, i, c) && bn <= c && bn < MAXFILE
    requires Mapped(fs, fs1, owner1, i, bn, r) && Patch(fs1, fs2, owner1, i)
    ensures Extending(fs0, fs2, owner1, i, if bn < c then c else c + 1)
  {
    MappedFull(fs, fs1, owner1, i, bn, r, c);
    PatchFull(fs1, fs2, i, if bn < c then c else c + 1);
    OthersCompose(fs0, fs, fs1, fs2, i);
    MetaCompose(fs0, fs, fs1, fs2);
  }

  /** The arithmetic of one byte in one round of writei()'s loop. */
  lemma StepByte(b: byte, b1: byte, b2: byte, e: Block, d: Block, at: nat, src: seq<byte>, tot: nat, m: nat, p: nat)
    requires 0 < m <= BSIZE - at % BSIZE && Patched(d, e, at % BSIZE, src, tot, m)
    requires b2 == if p / BSIZE == at / BSIZE then d[p % BSIZE] else b1
    requires p / BSIZE == at / BSIZE ==> b1 == e[p % BSIZE]
    requires at <= p < at + m || b1 == b
    ensures b2 == if at <= p < at + m then src[tot + p - at] else b
  {
    InBlock(p, at, m);
  }

  /** The file's bytes up to `end`, or to the end of the copy, are those of fs with src[tot..tot + m] at offset at. */
  ghost predicate BytesCopied(fs: Fs, fs2: Fs, i: nat, end: nat, at: nat, src: seq<byte>, tot: nat, m: nat) {
    && Shape(fs) && Shape(fs2) && i in fs.inodes && i in fs2.inodes && tot + m <= |src|
    && at <= end <= MAXFILE * BSIZE && at + m <= MAXFILE * BSIZE
    && forall p :: 0 <= p < Max(end, at + m) ==>
      ByteAt(fs2, i, p) == if at <= p < at + m then src[tot + p - at] else ByteAt(fs, i, p)
  }

  /** bmap() gave block r of fs1 for slot bn; then src[tot..tot + m] was copied to its offset o. */
  ghost predicate WriteStep(fs: Fs, fs1: Fs, fs2: Fs, owner: map<nat, Slot>, i: nat, bn: nat, o: nat, src: seq<byte>,
                            tot: nat, m: nat, r: nat, d: Block) {
    && Shape(fs) && Mapped(fs, fs1, owner, i, bn, r) && Patch(fs1, fs2, owner, i)
    && r < |fs1.blocks| && fs2 == WithBlock(fs1, r, d) && Patched(d, fs1.blocks[r], o, src, tot, m)
  }

  /** One round of writei()'s loop, byte by byte. */
  lemma StepBytes(fs: Fs, fs1: Fs, fs2: Fs, owner1: map<nat, Slot>, i: nat, at: nat, bn: nat, q: nat, end: nat,
                  src: seq<byte>, tot: nat, m: nat, r: nat, d: Block)
    requires bn == at / BSIZE && q == at % BSIZE && at <= end && end <= MAXFILE * BSIZE && at + m <= MAXFILE * BSIZE
    requires WriteStep(fs, fs1, fs2, owner1, i, bn, q, src, tot, m, r, d)
    requires Full(fs, i, CeilBlocks(end)) && 0 < m <= BSIZE - q && bn < MAXFILE
    ensures BytesCopied(fs, fs2, i, end, at, src, tot, m)
  {
    PatchBytes(fs1, owner1, i, bn, r, d);
    forall p | 0 <= p < Max(end, at + m)
      ensures ByteAt(fs2, i, p) == if at <= p < at + m then src[tot + p - at] else ByteAt(fs, i, p)
    {
      if p < end {
        assert p < CeilBlocks(end) * BSIZE;
        MappedBytes(fs, fs1, owner1, i, bn, r, CeilBlocks(end), p);
      }
      StepByte(ByteAt(fs, i, p), ByteAt(fs1, i, p), ByteAt(fs2, i, p), fs1.blocks[r], d, at, src, tot, m, p);
    }
  }

  /** writei()'s loop has copied src up to offset `at` of file i, whose content was c. */
  ghost predicate Copied(fs0: Fs, c: seq<byte>, fs: Fs, owner: map<nat, Slot>, i: nat, off: nat, src: seq<byte>,
                         at: nat) {
    && Shape(fs0) && i in fs0.inodes && off <= |c| == fs0.inodes[i].size <= MAXFILE * BSIZE
    && off <= at <= off + |src| <= MAXFILE * BSIZE
    && Extending(fs0, fs, owner, i, CeilBlocks(Max(|c|, at)))
    && CopiedBytes(c, fs, i, off, src, at)
    && (at <= |c| ==> fs.inodes == fs0.inodes)
  }

  ghost predicate CopiedBytes(c: seq<byte>, fs: Fs, i: nat, off: nat, src: seq<byte>, at: nat)
    requires Shape(fs) && i in fs.inodes && off <= |c| <= MAXFILE * BSIZE && off <= at <= off + |src| <= MAXFILE * BSIZE
  {
    forall p :: 0 <= p < Max(|c|, at) ==> ByteAt(fs, i, p) == if off <= p < at then src[p - off] else c[p]
  }

  lemma CopyBytes(c: seq<byte>, fs: Fs, fs2: Fs, i: nat, off: nat, src: seq<byte>, tot: nat, at: nat, m: nat, next: nat,
                  end: nat)
    requires off <= |c| <= MAXFILE * BSIZE && tot + m <= |src| && off + |src| <= MAXFILE * BSIZE
    requires tot == at - off && next == at + m && end == Max(|c|, at)
    requires BytesCopied(fs, fs2, i, end, at, src, tot, m)
    requires CopiedBytes(c, fs, i, off, src, at)
    ensures CopiedBytes(c, fs2, i, off, src, next)
  {
  }

  lemma BlockIndex(at: nat)
    requires at < MAXFILE * BSIZE
    ensures at / BSIZE < MAXFILE
  {
  }

  /**
   One round of writei()'s loop: m bytes of src, from src[tot], go to offset `at` of file i, that is to offset q of slot
   bn; bmap() takes fs to fs1 and gives block r, whose contents become d in fs2.
   */
  datatype Round = Round(
    fs: Fs, o: map<nat, Slot>, fs1: Fs, fs2: Fs, owner: map<nat, Slot>,
    i: nat, off: nat, src: seq<byte>, tot: nat, at: nat, bn: nat, q: nat, m: nat, next: nat, r: nat, d: Block)

  ghost predicate RoundOk(w: Round) {
    && w.tot == w.at - w.off && w.next == w.at + w.m && w.bn == w.at / BSIZE && w.q == w.at % BSIZE && w.bn < MAXFILE
    && 0 < w.m <= BSIZE - w.q && w.tot + w.m <= |w.src|
    && WriteStep(w.fs, w.fs1, w.fs2, w.owner, w.i, w.bn, w.q, w.src, w.tot, w.m, w.r, w.d)
  }

  lemma CopyStepBytes(fs0: Fs, c: seq<byte>, w: Round, end: nat)
    requires Copied(fs0, c, w.fs, w.o, w.i, w.off, w.src, w.at) && RoundOk(w) && end == Max(|c|, w.at)
    ensures Shape(w.fs2) && w.i in w.fs2.inodes && CopiedBytes(c, w.fs2, w.i, w.off, w.src, w.next)
  {
    StepBytes(w.fs, w.fs1, w.fs2, w.owner, w.i, w.at, w.bn, w.q, end, w.src, w.tot, w.m, w.r, w.d);
    CopyBytes(c, w.fs, w.fs2, w.i, w.off, w.src, w.tot, w.at, w.m, w.next, end);
  }

  lemma CopyStepInodes(fs0: Fs, c: seq<byte>, w: Round, end: nat)
    requires Copied(fs0, c, w.fs, w.o, w.i, w.off, w.src, w.at) && RoundOk(w) && end == Max(|c|, w.at)
    ensures w.next <= |c| ==> w.fs2.inodes == fs0.inodes
  {
    if w.next <= |c| {
      assert w.bn < CeilBlocks(end);
      assert Addr(w.fs, w.i, w.bn) != 0;
    }
  }

  lemma CopyStepBlocks(fs0: Fs, c: seq<byte>, w: Round, end: nat)
    requires Copied(fs0, c, w.fs, w.o, w.i, w.off, w.src, w.at) && RoundOk(w) && end == Max(|c|, w.at)
    ensures Extending(fs0, w.fs2, w.owner, w.i, CeilBlocks(Max(|c|, w.next)))
  {
    BlockSteps(end, w.at, w.m, w.next);
    assert Max(end, w.next) == Max(|c|, w.next);
    ExtendStep(fs0, w.fs, w.fs1, w.fs2, w.o, w.owner, w.i, w.bn, CeilBlocks(end), w.r);
  }

  lemma CopyStep(fs0: Fs, c: seq<byte>, w: Round, end: nat)
    requires Copied(fs0, c, w.fs, w.o, w.i, w.off, w.src, w.at) && RoundOk(w) && end == Max(|c|, w.at)
    ensures Copied(fs0, c, w.fs2, w.owner, w.i, w.off, w.src, w.next)
  {
    CopyStepBytes(fs0, c, w, end);
    CopyStepInodes(fs0, c, w, end);
    CopyStepBlocks(fs0, c, w, end);
  }
}

/** Whole files: their contents, their sizes, and the on-disk copies of their inodes. */
module Files {
  import opened Bytes
  import opened FsState
  import opened DInode

  /** IBLOCK(i, sb). */
  function IBlock(g: Geometry, i: nat): nat {
    i / IPB + g.inodestart
  }

  /** The on-disk copy of inode i is up to date. */
  ghost predicate Synced(fs: Fs, i: nat)
    requires Shape(fs) && i in fs.inodes
  {
    && i < fs.g.ninodes && InodeOk(fs.inodes[i]) && IBlock(fs.g, i) < fs.g.bmapstart
    && GetInode(fs.blocks[IBlock(fs.g, i)], i % IPB) == fs.inodes[i]
  }

  /** Every inode but i is up to date on disk. */
  ghost predicate SyncedBut(fs: Fs, i: nat)
    requires Shape(fs)
  {
    forall j :: j in fs.inodes && j != i ==> Synced(fs, j)
  }

  /** A file system at rest: ownership, no holes, and every inode up to date on disk. */
  ghost predicate Sound(fs: Fs, owner: map<nat, Slot>) {
    Inv(fs, owner, Nothing()) && FilesFull(fs) && forall j :: j in fs.inodes ==> Synced(fs, j)
  }

  /** Nothing that can be seen of the other files has changed. */
  ghost predicate OthersKept(fs: Fs, fs': Fs, i: nat)
    requires Shape(fs) && Shape(fs') && FilesFull(fs) && FilesFull(fs')
  {
    && fs'.inodes.Keys == fs.inodes.Keys
    && forall j :: j in fs.inodes && j != i ==> fs'.inodes[j] == fs.inodes[j] && Content(fs', j) == Content(fs, j)
  }

  lemma OthersFull(fs: Fs, fs': Fs, i: nat)
    requires Shape(fs) && Shape(fs') && FilesFull(fs) && OthersSame(fs, fs', i)
    requires i in fs'.inodes ==> fs'.inodes[i].size <= MAXFILE * BSIZE && Full(fs', i, CeilBlocks(fs'.inodes[i].size))
    ensures FilesFull(fs') && OthersKept(fs, fs', i)
  {
    forall j | j in fs.inodes && j != i
      ensures fs'.inodes[j] == fs.inodes[j] && Full(fs', j, CeilBlocks(fs'.inodes[j].size))
      ensures Content(fs', j) == Content(fs, j)
    {
      assert SameFile(fs, fs', j);
      SameFileSameContent(fs, fs', j);
    }
  }

  lemma SyncedKept(fs: Fs, fs': Fs, i: nat)
    requires Shape(fs) && Shape(fs') && fs'.g == fs.g && SyncedBut(fs, i) && OthersSame(fs, fs', i) && MetaKept(fs, fs')
    ensures SyncedBut(fs', i)
  {
    forall j | j in fs'.inodes && j != i ensures Synced(fs', j) {
      assert SameFile(fs, fs', j) && Synced(fs, j);
    }
  }

  // ------------------------------------------------ iupdate()

  /** Writing an inode block changes no file. */
  lemma InodeBlockWrite(fs: Fs, fs': Fs, owner: map<nat, Slot>, x: nat, d: Block)
    requires Inv(fs, owner, Nothing()) && x < fs.g.bmapstart && fs' == WithBlock(fs, x, d)
    ensures Inv(fs', owner, Nothing()) && SameAddrs(fs, fs')
    ensures forall j :: j in fs.inodes ==> SameFile(fs, fs', j)
  {
    forall j, k | j in fs.inodes && 0 <= k <= INDIRECT ensures SameSlot(fs, fs', j, k) {
      var a, ind := Addr(fs, j, k), Addr(fs, j, INDIRECT);
      assert a != 0 ==> a in owner;
      assert ind != 0 ==> ind in owner;
    }
    forall j, k | j in fs.inodes && 0 <= k <= INDIRECT ensures Addr(fs', j, k) == Addr(fs, j, k) {
      assert SameSlot(fs, fs', j, k);
    }
    forall b | 0 <= b < fs.g.size ensures Marked(fs', b) == Marked(fs, b) {
      BitmapBelowData(fs.g, b);
    }
  }

  /** The state after iupdate(ip). */
  function Updated(fs: Fs, i: nat): Fs
    requires Shape(fs) && i in fs.inodes && IBlock(fs.g, i) < fs.g.bmapstart && InodeOk(fs.inodes[i])
  {
    var x := IBlock(fs.g, i);
    WithBlock(fs, x, PutInode(fs.blocks[x], i % IPB, fs.inodes[i]))
  }

  lemma InodePlaces(i: nat, j: nat)
    ensures i / IPB == j / IPB && i % IPB == j % IPB ==> i == j
  {
  }

  lemma UpdateSyncs(fs: Fs, fs': Fs, i: nat)
    requires Shape(fs) && i in fs.inodes && i < fs.g.ninodes && IBlock(fs.g, i) < fs.g.bmapstart &&
             InodeOk(fs.inodes[i])
    requires fs' == Updated(fs, i) && SyncedBut(fs, i)
    ensures Shape(fs') && forall j :: j in fs'.inodes ==> Synced(fs', j)
  {
    forall j | j in fs'.inodes ensures Synced(fs', j) {
      InodeRoundTrip(fs.blocks[IBlock(fs.g, i)], i % IPB, fs.inodes[i], j % IPB);
      InodePlaces(i, j);
      assert j != i ==> Synced(fs, j);
    }
  }

  /** iupdate() completes a change to inode i. */
  lemma UpdateSound(fs: Fs, fs': Fs, owner: map<nat, Slot>, i: nat)
    requires Inv(fs, owner, Nothing()) && FilesFull(fs) && SyncedBut(fs, i)
    requires i in fs.inodes && i < fs.g.ninodes && IBlock(fs.g, i) < fs.g.bmapstart && InodeOk(fs.inodes[i])
    requires fs' == Updated(fs, i)
    ensures Sound(fs', owner) && OthersKept(fs, fs', i) && fs'.inodes == fs.inodes && Content(fs', i) == Content(fs, i)
  {
    var x := IBlock(fs.g, i);
    InodeBlockWrite(fs, fs', owner, x, fs'.blocks[x]);
    UpdateSyncs(fs, fs', i);
    SameFileSameContent(fs, fs', i);
    OthersFull(fs, fs', i);
  }

  // ------------------------------------------------ the end of writei()

  function WithSize(fs: Fs, i: nat, size: nat): Fs
    requires i in fs.inodes
  {
    fs.(inodes := fs.inodes[i := fs.inodes[i].(size := size)])
  }

  /** Setting a size moves no block. */
  lemma ResizeKeeps(fs: Fs, fs': Fs, owner: map<nat, Slot>, i: nat, size: nat)
    requires Inv(fs, owner, Nothing()) && i in fs.inodes && fs' == WithSize(fs, i, size)
    ensures Inv(fs', owner, Nothing()) && fs'.inodes.Keys == fs.inodes.Keys && SameAddrs(fs, fs')
    ensures forall p :: 0 <= p < MAXFILE * BSIZE ==> ByteAt(fs', i, p) == ByteAt(fs, i, p)
  {
    assert fs'.inodes.Keys == fs.inodes.Keys;
    assert SameAddrs(fs, fs');
    forall b | 0 <= b < fs.g.size ensures Marked(fs', b) == Marked(fs, b) {
    }
  }

  lemma ResizeOthers(fs0: Fs, fs: Fs, fs': Fs, i: nat, size: nat)
    requires Shape(fs0) && Shape(fs) && i in fs.inodes && fs' == WithSize(fs, i, size) && OthersSame(fs0, fs, i)
    ensures Shape(fs') && OthersSame(fs0, fs', i)
  {
    assert fs'.inodes.Keys == fs.inodes.Keys;
    forall j | j in fs0.inodes && j != i ensures SameFile(fs0, fs', j) {
      assert SameFile(fs0, fs, j);
      forall k | 0 <= k <= INDIRECT ensures SameSlot(fs0, fs', j, k) {
        assert SameSlot(fs0, fs, j, k);
      }
    }
  }

  /** writei()'s loop has copied everything and the size is set: the content is the old one with src in it. */
  lemma WriteDone(fs0: Fs, c: seq<byte>, fs: Fs, fs': Fs, owner: map<nat, Slot>, i: nat, off: nat, src: seq<byte>,
                  at: nat, size: nat)
    requires Copied(fs0, c, fs, owner, i, off, src, at) && at == off + |src| && size == Max(|c|, at)
    requires i in fs.inodes && fs' == WithSize(fs, i, size)
    ensures Inv(fs', owner, Nothing()) && OthersSame(fs0, fs', i) && MetaKept(fs0, fs')
    ensures size <= MAXFILE * BSIZE && Full(fs', i, CeilBlocks(size)) && Content(fs', i) == Overwritten(c, off, src)
  {
    ResizeKeeps(fs, fs', owner, i, size);
    ResizeOthers(fs0, fs, fs', i, size);
    PatchFull(fs, fs', i, CeilBlocks(size));
    SameBytes(fs', c, i, off, src, at, size);
  }

  lemma SameBytes(fs: Fs, c: seq<byte>, i: nat, off: nat, src: seq<byte>, at: nat, size: nat)
    requires Shape(fs) && i in fs.inodes && off <= |c| <= MAXFILE * BSIZE && at == off + |src| <= MAXFILE * BSIZE
    requires CopiedBytes(c, fs, i, off, src, at) && size == Max(|c|, at) == fs.inodes[i].size
    ensures Content(fs, i) == Overwritten(c, off, src)
  {
  }

  lemma OthersKeptCompose(fs0: Fs, fs1: Fs, fs2: Fs, i: nat)
    requires Shape(fs0) && Shape(fs1) && Shape(fs2) && FilesFull(fs0) && FilesFull(fs1) && FilesFull(fs2)
    requires OthersKept(fs0, fs1, i) && OthersKept(fs1, fs2, i)
    ensures OthersKept(fs0, fs2, i)
  {
  }

  /** The inodes agree in everything but size and addresses: type, device and link count. */
  predicate SameKind(ip: Inode, ip': Inode) {
    ip'.(size := 0, addrs := NoAddrs()) == ip.(size := 0, addrs := NoAddrs())
  }

  /** What a completed writei() has done: the content is overwritten, and nothing else can be told apart. */
  ghost predicate WriteMade(fs0: Fs, fs: Fs, owner: map<nat, Slot>, i: nat, off: nat, src: seq<byte>) {
    && Shape(fs0) && FilesFull(fs0) && i in fs0.inodes && off <= fs0.inodes[i].size
    && Sound(fs, owner) && OthersKept(fs0, fs, i) && SameKind(fs0.inodes[i], fs.inodes[i])
    && Content(fs, i) == Overwritten(Content(fs0, i), off, src)
  }

  /** The state between setting the size and iupdate(). */
  ghost predicate Resized(fs0: Fs, fs: Fs, owner: map<nat, Slot>, i: nat, off: nat, src: seq<byte>) {
    && Shape(fs0) && FilesFull(fs0) && i in fs0.inodes && off <= fs0.inodes[i].size
    && Inv(fs, owner, Nothing()) && FilesFull(fs) && SyncedBut(fs, i) && OthersKept(fs0, fs, i) && fs.g == fs0.g
    && i < fs.g.ninodes && InodeOk(fs.inodes[i]) && IBlock(fs.g, i) < fs.g.bmapstart
    && SameKind(fs0.inodes[i], fs.inodes[i])
    && Content(fs, i) == Overwritten(Content(fs0, i), off, src)
  }

  /** writei()'s loop has copied all of src into file i of a sound file system. */
  ghost predicate CopyDone(fs0: Fs, owner0: map<nat, Slot>, c: seq<byte>, fs: Fs, owner: map<nat, Slot>, i: nat,
                           off: nat, src: seq<byte>, at: nat) {
    && Sound(fs0, owner0) && i in fs0.inodes && c == Content(fs0, i)
    && Copied(fs0, c, fs, owner, i, off, src, at) && at == off + |src|
  }

  lemma WriteResized(fs0: Fs, owner0: map<nat, Slot>, c: seq<byte>, fs: Fs, fs': Fs, owner: map<nat, Slot>, i: nat,
                     off: nat, src: seq<byte>, at: nat, size: nat)
    requires CopyDone(fs0, owner0, c, fs, owner, i, off, src, at) && size == Max(|c|, at)
    requires i in fs.inodes && fs' == WithSize(fs, i, size)
    ensures Resized(fs0, fs', owner, i, off, src) && MetaKept(fs0, fs')
  {
    WriteDone(fs0, c, fs, fs', owner, i, off, src, at, size);
    OthersFull(fs0, fs', i);
    SyncedKept(fs0, fs', i);
    assert Synced(fs0, i);
  }

  /** A write that does not grow the file needs no iupdate(). */
  lemma WriteInPlace(fs0: Fs, owner0: map<nat, Slot>, c: seq<byte>, fs: Fs, owner: map<nat, Slot>, i: nat, off: nat,
                     src: seq<byte>, at: nat)
    requires CopyDone(fs0, owner0, c, fs, owner, i, off, src, at) && at <= |c|
    ensures WriteMade(fs0, fs, owner, i, off, src)
  {
    assert WithSize(fs, i, |c|) == fs;
    WriteResized(fs0, owner0, c, fs, fs, owner, i, off, src, at, |c|);
    assert Synced(fs0, i);
    assert Synced(fs, i);
  }

  lemma GrownReady(fs0: Fs, owner0: map<nat, Slot>, c: seq<byte>, fs: Fs, fs1: Fs, owner: map<nat, Slot>, i: nat,
                   off: nat, src: seq<byte>, at: nat)
    requires CopyDone(fs0, owner0, c, fs, owner, i, off, src, at) && i in fs.inodes && fs1 == WithSize(fs, i, at)
    ensures i < fs1.g.ninodes && IBlock(fs1.g, i) < fs1.g.bmapstart && Shape(fs1) && InodeOk(fs1.inodes[i])
  {
    assert Synced(fs0, i);
    ResizedOk(fs, fs1, i, at, fs0.inodes[i]);
  }

  /** A new size within the largest file leaves an inode storable. */
  lemma ResizedOk(fs: Fs, fs1: Fs, i: nat, size: nat, ip: Inode)
    requires Shape(fs) && i in fs.inodes && fs1 == WithSize(fs, i, size) && size <= MAXFILE * BSIZE
    requires InodeOk(ip) && SameButAddrs(ip, fs.inodes[i])
    ensures Shape(fs1) && InodeOk(fs1.inodes[i])
  {
  }

  /** A write that grows the file is complete once the size is set and iupdate() is done. */
  lemma WriteSynced(fs0: Fs, owner0: map<nat, Slot>, c: seq<byte>, fs: Fs, fs1: Fs, fs2: Fs, owner: map<nat, Slot>,
                    i: nat, off: nat, src: seq<byte>, at: nat)
    requires CopyDone(fs0, owner0, c, fs, owner, i, off, src, at) && at > |c|
    requires i in fs.inodes && fs1 == WithSize(fs, i, at)
    requires IBlock(fs1.g, i) < fs1.g.bmapstart && Shape(fs1) && InodeOk(fs1.inodes[i]) && fs2 == Updated(fs1, i)
    ensures WriteMade(fs0, fs2, owner, i, off, src)
  {
    WriteResized(fs0, owner0, c, fs, fs1, owner, i, off, src, at, at);
    UpdateSound(fs1, fs2, owner, i);
    OthersKeptCompose(fs0, fs1, fs2, i);
  }

  // ------------------------------------------------ successive writes

  lemma NothingWritten(fs: Fs, owner: map<nat, Slot>, i: nat, off: nat)
    requires Sound(fs, owner) && i in fs.inodes && off <= fs.inodes[i].size
    ensures WriteMade(fs, fs, owner, i, off, [])
  {
    NoBytes(Content(fs, i), off);
    SameOthers(fs, i);
  }

  lemma NoBytes(c: seq<byte>, off: nat)
    requires off <= |c|
    ensures Overwritten(c, off, []) == c
  {
  }

  lemma SameOthers(fs: Fs, i: nat)
    requires Shape(fs) && FilesFull(fs)
    ensures OthersKept(fs, fs, i)
  {
  }

  lemma OverwrittenTwice(c: seq<byte>, off: nat, a: seq<byte>, b: seq<byte>, mid: nat, ab: seq<byte>)
    requires off <= |c| && mid == off + |a| && ab == a + b
    ensures mid <= |Overwritten(c, off, a)| && Overwritten(Overwritten(c, off, a), mid, b) == Overwritten(c, off, ab)
  {
  }

  /** Two writes in a row are one write of the two pieces together. */
  lemma WritesJoin(fs0: Fs, fs1: Fs, fs2: Fs, o1: map<nat, Slot>, o2: map<nat, Slot>, i: nat, off: nat, mid: nat,
                   a: seq<byte>, b: seq<byte>, ab: seq<byte>)
    requires WriteMade(fs0, fs1, o1, i, off, a) && WriteMade(fs1, fs2, o2, i, mid, b) && mid == off + |a| && ab == a + b
    ensures WriteMade(fs0, fs2, o2, i, off, ab)
  {
    var c := Content(fs0, i);
    OverwrittenTwice(c, off, a, b, mid, ab);
    OthersKeptCompose(fs0, fs1, fs2, i);
  }

  // ------------------------------------------------ reading

  /** A slice of a block is the same slice of the file's content. */
  lemma ReadBytes(fs: Fs, i: nat, c: seq<byte>, at: nat, next: nat, bn: nat, q: nat, m: nat, r: nat, data: seq<byte>)
    requires Shape(fs) && FilesFull(fs) && i in fs.inodes && c == Content(fs, i) && at < next <= |c|
    requires bn == at / BSIZE && q == at % BSIZE && m == next - at <= BSIZE - q && bn < MAXFILE
    requires r == Addr(fs, i, bn) && 0 < r < |fs.blocks| && data == fs.blocks[r][q..q + m]
    ensures data == c[at..next]
  {
    forall h | 0 <= h < m ensures data[h] == c[at + h] {
      InBlock(at + h, at, m);
      assert c[at + h] == ByteAt(fs, i, at + h);
    }
  }

  /** Every block below the end of a file is mapped. */
  lemma MappedBelowEnd(fs: Fs, i: nat, at: nat, bn: nat)
    requires Shape(fs) && FilesFull(fs) && i in fs.inodes && at < fs.inodes[i].size && bn == at / BSIZE
    ensures bn < MAXFILE && Addr(fs, i, bn) != 0
  {
    assert bn < CeilBlocks(fs.inodes[i].size);
  }
}

/** A file whose blocks lie in so many bitmap blocks that itrunc() logs more than a transaction may. */
module TruncateBound {
  import opened Common
  import opened Bytes
  import opened Counting
  import opened FsState
  import opened Files
  import opened FreeSpace
  import opened Truncate
  import opened SpreadDisk
  import opened ChunkBound
  import F = FileSystem

  /** File i has no block in fs0, and the other files have theirs in direct slots. */
  ghost predicate OthersDirect(o: map<nat, Slot>, i: nat) {
    forall b :: b in o ==> o[b].inum != i && o[b].k < NDIRECT
  }

  /** Only the inode of file i has changed. */
  ghost predicate OnlyFile(fs0: Fs, fs: Fs, i: nat) {
    && fs.g == fs0.g && fs.inodes.Keys == fs0.inodes.Keys
    && forall j :: j in fs0.inodes && j != i ==> fs.inodes[j] == fs0.inodes[j]
  }

  /** File i has no block that had an owner in o0. */
  ghost predicate AllNew(fs: Fs, o0: map<nat, Slot>, i: nat) {
    Shape(fs) && i in fs.inodes && forall k :: 0 <= k <= INDIRECT && Addr(fs, i, k) != 0 ==> Addr(fs, i, k) !in o0
  }

  lemma OwnedStays(fs0: Fs, o0: map<nat, Slot>, fs: Fs, o: map<nat, Slot>, i: nat, b: nat, s: Slot)
    requires Inv(fs0, o0, Nothing()) && Inv(fs, o, Nothing()) && OnlyFile(fs0, fs, i) && OthersDirect(o0, i)
    requires b in o0 && s == o0[b]
    ensures b in o && o[b] == s
  {
    assert s.inum in fs0.inodes && Addr(fs0, s.inum, s.k) == b;
    assert Addr(fs, s.inum, s.k) == b;
  }

  /** What file i has got since it had nothing, nobody had. */
  lemma GotNew(fs0: Fs, o0: map<nat, Slot>, fs: Fs, o: map<nat, Slot>, i: nat)
    requires Inv(fs0, o0, Nothing()) && Inv(fs, o, Nothing()) && OnlyFile(fs0, fs, i) && OthersDirect(o0, i)
    requires i in fs.inodes
    ensures AllNew(fs, o0, i)
  {
    forall k | 0 <= k <= INDIRECT && Addr(fs, i, k) != 0 ensures Addr(fs, i, k) !in o0 {
      var a := Addr(fs, i, k);
      assert a in o && o[a] == Slot(i, k);
      if a in o0 {
        OwnedStays(fs0, o0, fs, o, i, a, o0[a]);
        assert false;
      }
    }
  }

  lemma {:induction false} MapsIn(fs: Fs, i: nat, k: nat, hi: nat)
    requires Shape(fs) && i in fs.inodes && k < hi <= INDIRECT + 1 && Addr(fs, i, k) != 0
    ensures BitmapBlock(fs.g, Addr(fs, i, k)) in FileMaps(fs, i, hi)
    decreases hi
  {
    if k < hi - 1 {
      MapsIn(fs, i, k, hi - 1);
    }
  }

  lemma BlockOfFile(fs: Fs, o: map<nat, Slot>, o0: map<nat, Slot>, i: nat, lo: nat, hi: nat, b: nat, top: nat)
    requires AllNew(fs, o0, i) && InSlots(fs, o, i, lo, hi, b) && hi <= top <= INDIRECT + 1 && b != 0
    ensures b !in o0 && BitmapBlock(fs.g, b) in FileMaps(fs, i, top)
  {
    MapsIn(fs, i, o[b].k, top);
  }

  /** The blocks of a file, and what truncating it would log. */
  lemma FileBlocks(fs: Fs, o: map<nat, Slot>, o0: map<nat, Slot>, i: nat, lo: nat, hi: nat, top: nat, maps: set<nat>)
    returns (data: set<nat>)
    requires Inv(fs, o, Nothing()) && AllNew(fs, o0, i) && lo <= hi <= MAXFILE && hi <= top <= INDIRECT + 1
    requires maps == FileMaps(fs, i, top) && forall k :: lo <= k < hi ==> Addr(fs, i, k) != 0
    ensures |data| == hi - lo && forall b :: b in data ==> NewBlock(fs.g, o0, maps, b)
  {
    SlotsHeld(fs, o, i, lo, hi);
    DataSize(fs, o, i, lo, hi);
    data := Data(fs, i, lo, hi);
    forall b | b in data ensures NewBlock(fs.g, o0, maps, b) {
      BlockOfFile(fs, o, o0, i, lo, hi, b, top);
    }
  }

  ghost predicate NewBlock(g: Geometry, o0: map<nat, Slot>, maps: set<nat>, b: nat) {
    g.datastart <= b < g.size && b !in o0 && BitmapBlock(g, b) in maps
  }

  /** On the spread disk there are as many bitmap blocks as blocks. */
  lemma ManyMaps(g: Geometry, o0: map<nat, Slot>, data: set<nat>, maps: set<nat>)
    requires Spread(g, o0) && forall b :: b in data ==> NewBlock(g, o0, maps, b)
    ensures |maps| >= |data|
  {
    forall x, y | x in data && y in data && x < y ensures BitmapBlock(g, x) != BitmapBlock(g, y) {
      assert NewBlock(g, o0, maps, x) && NewBlock(g, o0, maps, y);
    }
    MapsSize(g, data);
    SubsetSize(MapsOf(g, data), maps);
  }

  lemma EmptyFileOne(c: nat, o: map<nat, Slot>)
    requires c == 0 && o == Owners(c)
    ensures OthersDirect(o, 1)
  {
    forall b | b in o ensures o[b].inum != 1 && o[b].k < NDIRECT {
      BlockOfSlot(c, b, o[b]);
    }
  }

  lemma InodeBelow(fs: Fs, o: map<nat, Slot>, i: nat)
    requires Sound(fs, o) && i in fs.inodes
    ensures IBlock(fs.g, i) < fs.g.bmapstart
  {
    assert Synced(fs, i);
  }

  /** itrunc() of twelve new blocks on the spread disk. */
  lemma TooMany(fs: Fs, o: map<nat, Slot>, o0: map<nat, Slot>, i: nat, x: nat, l: set<nat>, maps: set<nat>, hi: nat,
                top: nat)
    requires Inv(fs, o, Nothing()) && AllNew(fs, o0, i) && Spread(fs.g, o0) && hi == NDIRECT && top == INDIRECT + 1
    requires x < fs.g.bmapstart && maps == FileMaps(fs, i, top) && l == maps + {x}
    requires forall k :: 0 <= k < hi ==> Addr(fs, i, k) != 0
    ensures |l| > MAXOPBLOCKS
  {
    var data := FileBlocks(fs, o, o0, i, 0, hi, top, maps);
    ManyMaps(fs.g, o0, data, maps);
    TruncateFits(fs, o, i, x, l);
  }

  /**
   Write twelve blocks to a file on the spread disk, chunk by chunk as filewrite() does, and truncate it: the one
   transaction of itrunc() logs more blocks than MAXOPBLOCKS.
   */
  method TruncateTooBig(src: seq<byte>) returns (fs: F.FileSystem)
    requires |src| == NDIRECT * BSIZE
    ensures |fs.logged| > MAXOPBLOCKS
  {
    ghost var o0;
    fs, o0 := WriteTwelve(src, 0, 0);
    TruncateIt(fs, 1, o0, NDIRECT, INDIRECT + 1);
  }

  /** File i of fs has its direct slots filled, all since o0. */
  ghost predicate Twelve(fs: Fs, o: map<nat, Slot>, o0: map<nat, Slot>, i: nat, hi: nat) {
    && Sound(fs, o) && AllNew(fs, o0, i) && Spread(fs.g, o0)
    && forall k :: 0 <= k < hi <= INDIRECT ==> Addr(fs, i, k) != 0
  }

  method TruncateIt(fs: F.FileSystem, i: nat, ghost o0: map<nat, Slot>, ghost hi: nat, ghost top: nat)
    requires Twelve(fs.Now(), fs.owner, o0, i, hi) && hi == NDIRECT && top == INDIRECT + 1
    modifies fs
    ensures |fs.logged| > MAXOPBLOCKS
  {
    ghost var fs1, o1, maps := fs.Now(), fs.owner, FileMaps(fs.Now(), i, top);
    InodeBelow(fs1, o1, i);
    ghost var x := IBlock(fs1.g, i);
    LogTruncate(fs, i, maps, x, top);
    TooMany(fs1, o1, o0, i, x, fs.logged, maps, hi, top);
  }

  /** itrunc() in a transaction of its own. */
  method LogTruncate(fs: F.FileSystem, i: nat, ghost maps: set<nat>, ghost x: nat, ghost top: nat)
    requires Sound(fs.Now(), fs.owner) && i in fs.inodes && top == INDIRECT + 1
    requires maps == FileMaps(fs.Now(), i, top) && x == IBlock(fs.g, i)
    modifies fs
    ensures fs.logged == maps + {x}
  {
    fs.BeginCall();
    fs.Itrunc(i);
  }

  method WriteTwelve(src: seq<byte>, c: nat, size: nat) returns (fs: F.FileSystem, ghost o0: map<nat, Slot>)
    requires |src| == NDIRECT * BSIZE && c == size == 0
    ensures fresh(fs) && Twelve(fs.Now(), fs.owner, o0, 1, NDIRECT)
  {
    var disk := Disk(c, size);
    ghost var last := |src|;
    o0 := Owners(c);
    DiskReady(c, size, disk, o0, last);
    EmptyFileOne(c, o0);
    fs := new F.FileSystem(disk, o0);
    Append(fs, 1, size, src, last);
    Filled(disk, o0, fs.Now(), fs.owner, 1, size, src, last);
  }

  /** filewrite() at the end of a file, with room for all of it. */
  method Append(fs: F.FileSystem, i: nat, size: nat, src: seq<byte>, ghost last: nat)
    requires Sound(fs.Now(), fs.owner) && i in fs.inodes && size == fs.inodes[i].size && last == size + |src|
    requires last <= MAXFILE * BSIZE && RoomFor(fs.g, fs.owner, size, last)
    modifies fs
    ensures WriteMade(old(fs.Now()), fs.Now(), fs.owner, i, size, src)
  {
    assert size + F.Reach(size, |src|) == last;
    var r, off := fs.FileWrite(i, size, src);
    Whole(src, r.done);
  }

  lemma Whole(src: seq<byte>, n: nat)
    requires n == |src|
    ensures src[..n] == src
  {
  }

  lemma Filled(fs0: Fs, o0: map<nat, Slot>, fs: Fs, o: map<nat, Slot>, i: nat, size: nat, src: seq<byte>, last: nat)
    requires WriteMade(fs0, fs, o, i, size, src) && size == fs0.inodes[i].size == 0 && last == |src| == NDIRECT * BSIZE
    requires Inv(fs0, o0, Nothing()) && OthersDirect(o0, i) && fs.g == fs0.g && Spread(fs0.g, o0)
    ensures Twelve(fs, o, o0, i, NDIRECT)
  {
    F.FileSystem.SizeWritten(fs0, fs, o, i, size, size, src, last);
    assert CeilBlocks(last) == NDIRECT;
    GotNew(fs0, o0, fs, o, i);
  }
}

/** How many blocks a write logs at most, and that it can log as many: why filewrite()'s chunk is 1536 bytes. */
module ChunkBound {
  import opened Common
  import opened Bytes
  import opened Counting
  import opened FsState
  import opened Files
  import opened LogSpace
  import opened FreeSpace
  import opened SpreadDisk
  import F = FileSystem

  /** Two blocks without an owner never share a bitmap block. */
  ghost predicate Spread(g: Geometry, o: map<nat, Slot>) {
    forall x, y :: g.datastart <= x < y < g.size && x !in o && y !in o ==> BitmapBlock(g, x) != BitmapBlock(g, y)
  }

  /** The blocks in slots lo..hi of file i. */
  ghost function Data(fs: Fs, i: nat, lo: nat, hi: nat): set<nat>
    requires Shape(fs) && i in fs.inodes && lo <= hi <= MAXFILE
    decreases hi
  {
    if lo == hi then {} else Data(fs, i, lo, hi - 1) + {Addr(fs, i, hi - 1)}
  }

  /** Block b is in one of the slots lo..hi of file i. */
  ghost predicate InSlots(fs: Fs, o: map<nat, Slot>, i: nat, lo: nat, hi: nat, b: nat)
    requires Shape(fs) && i in fs.inodes
  {
    && fs.g.datastart <= b < fs.g.size && b in o && o[b].inum == i && lo <= o[b].k < hi <= MAXFILE
    && Addr(fs, i, o[b].k) == b
  }

  /** Slot k of file i holds a block that is owned by that slot. */
  ghost predicate Held(fs: Fs, o: map<nat, Slot>, i: nat, k: nat)
    requires Shape(fs) && i in fs.inodes
  {
    k < MAXFILE && var a := Addr(fs, i, k); fs.g.datastart <= a < fs.g.size && a in o && o[a] == Slot(i, k)
  }

  lemma {:induction false} DataSize(fs: Fs, o: map<nat, Slot>, i: nat, lo: nat, hi: nat)
    requires Shape(fs) && i in fs.inodes && lo <= hi <= MAXFILE && forall k :: lo <= k < hi ==> Held(fs, o, i, k)
    ensures |Data(fs, i, lo, hi)| == hi - lo
    ensures forall b :: b in Data(fs, i, lo, hi) ==> InSlots(fs, o, i, lo, hi, b)
    decreases hi
  {
    if lo < hi {
      var k := hi - 1;
      var below, a, data := Data(fs, i, lo, k), Addr(fs, i, k), Data(fs, i, lo, hi);
      DataSize(fs, o, i, lo, k);
      NewSlot(fs, o, i, lo, k, hi, below, a, data);
    }
  }

  /** The block in slot k is none of those in the slots before it. */
  lemma NewSlot(fs: Fs, o: map<nat, Slot>, i: nat, lo: nat, k: nat, hi: nat, below: set<nat>, a: nat, data: set<nat>)
    requires Shape(fs) && i in fs.inodes && lo <= k < hi == k + 1 <= MAXFILE && a == Addr(fs, i, k) && Held(fs, o, i, k)
    requires data == below + {a} && forall b :: b in below ==> InSlots(fs, o, i, lo, k, b)
    ensures |data| == |below| + 1 && forall b :: b in data ==> InSlots(fs, o, i, lo, hi, b)
  {
  }

  lemma SlotsHeld(fs: Fs, o: map<nat, Slot>, i: nat, lo: nat, hi: nat)
    requires Inv(fs, o, Nothing()) && i in fs.inodes && lo <= hi <= MAXFILE
    requires forall k :: lo <= k < hi ==> Addr(fs, i, k) != 0
    ensures forall k :: lo <= k < hi ==> Held(fs, o, i, k)
  {
    forall k | lo <= k < hi ensures Held(fs, o, i, k) {
      var a := Addr(fs, i, k);
      assert a in o && o[a] == Slot(i, k);
    }
  }

  /** The bitmap blocks of these blocks. */
  ghost function MapsOf(g: Geometry, n: set<nat>): set<nat> {
    set b | b in n :: BitmapBlock(g, b)
  }

  ghost predicate Apart(g: Geometry, n: set<nat>) {
    forall x, y :: x in n && y in n && x < y ==> BitmapBlock(g, x) != BitmapBlock(g, y)
  }

  lemma {:induction false} MapsSize(g: Geometry, n: set<nat>)
    requires Apart(g, n)
    ensures |MapsOf(g, n)| == |n|
    decreases |n|
  {
    if n != {} {
      var x :| x in n;
      var rest := n - {x};
      MapsSize(g, rest);
      assert MapsOf(g, n) == MapsOf(g, rest) + {BitmapBlock(g, x)};
      forall y | y in rest ensures BitmapBlock(g, y) != BitmapBlock(g, x) {
        assert if x < y then BitmapBlock(g, x) != BitmapBlock(g, y) else BitmapBlock(g, y) != BitmapBlock(g, x);
      }
    }
  }

  /** Data, bitmap and inode blocks are different. */
  lemma Disjoint(g: Geometry, data: set<nat>, maps: set<nat>, x: nat, l: set<nat>, d: nat, m: nat)
    requires GeometryOk(g) && data <= l && maps <= l && x in l && x < g.bmapstart && d == |data| && m == |maps|
    requires forall b :: b in data ==> g.datastart <= b
    requires forall b :: b in maps ==> g.bmapstart <= b < g.datastart
    ensures |l| >= d + m + 1
  {
    assert data * maps == {} && (data + maps) * {x} == {};
    assert |data + maps| == |data| + |maps|;
    assert |data + maps + {x}| == |data + maps| + 1;
    SubsetSize(data + maps + {x}, l);
  }

  /** The indirect block, if the write made it. */
  ghost function NewInd(fs0: Fs, fs: Fs, i: nat): set<nat>
    requires Shape(fs0) && Shape(fs) && i in fs0.inodes && i in fs.inodes
  {
    if NewIndirect(fs0, fs, i) then {Addr(fs, i, INDIRECT)} else {}
  }

  /** Block b is logged with its bitmap block, and had no owner before. */
  ghost predicate Fresh(g: Geometry, o0: map<nat, Slot>, l: set<nat>, b: nat) {
    g.datastart <= b < g.size && b in l && BitmapBlock(g, b) in l && b !in o0
  }

  lemma FreshSlot(fs0: Fs, o0: map<nat, Slot>, fs: Fs, o: map<nat, Slot>, l: set<nat>, i: nat, size: nat, off: nat,
                  last: nat, k: nat, a: nat)
    requires Spent(fs0, o0, fs, o, l, i, size, off, last) && Inv(fs, o, Nothing()) && off < last && off <= size
    requires k <= INDIRECT && Addr(fs0, i, k) == 0 && a == Addr(fs, i, k) != 0
    requires k < MAXFILE ==> off / BSIZE <= k && k * BSIZE < last
    ensures Fresh(fs.g, o0, l, a)
  {
    assert a in o;
    assert SlotLogged(l, fs0, fs, i, k);
  }

  /** The blocks that the write allocated: those of the slots from c on, and the indirect block. */
  lemma NewBlocks(fs0: Fs, o0: map<nat, Slot>, fs: Fs, o: map<nat, Slot>, l: set<nat>, i: nat, size: nat, off: nat,
                  last: nat, c: nat, hi: nat, n: set<nat>)
    requires Spent(fs0, o0, fs, o, l, i, size, off, last) && Inv(fs, o, Nothing()) && off < last && off <= size
    requires Full(fs0, i, c) && hi == CeilBlocks(last) && off / BSIZE <= c <= hi <= MAXFILE
    requires forall k :: c <= k < hi ==> Addr(fs, i, k) != 0
    requires n == Data(fs, i, c, hi) + NewInd(fs0, fs, i)
    ensures |n| == hi - c + One(NewIndirect(fs0, fs, i)) && forall b :: b in n ==> Fresh(fs.g, o0, l, b)
  {
    SlotsHeld(fs, o, i, c, hi);
    DataSize(fs, o, i, c, hi);
    forall b | b in n ensures Fresh(fs.g, o0, l, b) {
      var k := if b in Data(fs, i, c, hi) then o[b].k else INDIRECT;
      assert k < hi ==> k * BSIZE < last;
      FreshSlot(fs0, o0, fs, o, l, i, size, off, last, k, b);
    }
    if NewIndirect(fs0, fs, i) {
      var ind := Addr(fs, i, INDIRECT);
      assert ind in o && o[ind] == Slot(i, INDIRECT);
      assert ind !in Data(fs, i, c, hi);
    }
  }

  lemma FullSlots(fs: Fs, i: nat, lo: nat, hi: nat)
    requires Shape(fs) && i in fs.inodes && Full(fs, i, hi)
    ensures forall k :: lo <= k < hi ==> Addr(fs, i, k) != 0
  {
  }

  /** The blocks that the write touches, and the indirect block it makes. */
  lemma Touches(fs0: Fs, o0: map<nat, Slot>, fs: Fs, o: map<nat, Slot>, l: set<nat>, i: nat, size: nat, off: nat,
                last: nat, lo: nat, hi: nat, data: set<nat>)
    requires Spent(fs0, o0, fs, o, l, i, size, off, last) && Inv(fs, o, Nothing()) && off < last
    requires lo == off / BSIZE && hi == CeilBlocks(last) && lo <= hi <= MAXFILE
    requires forall k :: lo <= k < hi ==> Addr(fs, i, k) != 0
    requires data == Data(fs, i, lo, hi)
    ensures Logged(fs.g, o, l, data) && |data| == hi - lo
  {
    SlotsHeld(fs, o, i, lo, hi);
    DataSize(fs, o, i, lo, hi);
    forall b | b in data ensures b in l {
      var k := o[b].k;
      assert k * BSIZE < last;
      assert SlotLogged(l, fs0, fs, i, k);
    }
  }

  /** The new indirect block is logged, and is not in a data slot. */
  lemma IndLogged(fs0: Fs, o0: map<nat, Slot>, fs: Fs, o: map<nat, Slot>, l: set<nat>, i: nat, size: nat, off: nat,
                  last: nat, a: nat)
    requires Spent(fs0, o0, fs, o, l, i, size, off, last) && Inv(fs, o, Nothing()) && NewIndirect(fs0, fs, i)
    requires a == Addr(fs, i, INDIRECT)
    ensures a in l && fs.g.datastart <= a && a in o && o[a].k == INDIRECT
  {
    assert a in o && o[a] == Slot(i, INDIRECT);
    assert SlotLogged(l, fs0, fs, i, INDIRECT);
  }

  /** Data blocks and perhaps one more block are logged. */
  ghost predicate Logged(g: Geometry, o: map<nat, Slot>, l: set<nat>, data: set<nat>) {
    data <= l && forall b :: b in data ==> g.datastart <= b && b in o && o[b].k < MAXFILE
  }

  lemma WithInd(fs0: Fs, o0: map<nat, Slot>, fs: Fs, o: map<nat, Slot>, l: set<nat>, i: nat, size: nat, off: nat,
                last: nat, data: set<nat>, ind: set<nat>, d: nat)
    requires Spent(fs0, o0, fs, o, l, i, size, off, last) && Inv(fs, o, Nothing()) && ind == NewInd(fs0, fs, i)
    requires Logged(fs.g, o, l, data) && d == |data|
    ensures data + ind <= l && |data + ind| == d + One(NewIndirect(fs0, fs, i))
    ensures forall b :: b in data + ind ==> fs.g.datastart <= b
  {
    if NewIndirect(fs0, fs, i) {
      var a := Addr(fs, i, INDIRECT);
      IndLogged(fs0, o0, fs, o, l, i, size, off, last, a);
      assert a !in data && ind == {a};
    } else {
      assert data + ind == data;
    }
  }

  /** A write from off to last that takes file i from c to hi blocks, and touches those from lo on. */
  ghost predicate Extends(fs0: Fs, o0: map<nat, Slot>, fs: Fs, o: map<nat, Slot>, l: set<nat>, i: nat, size: nat,
                          off: nat, last: nat, c: nat, lo: nat, hi: nat) {
    && Spent(fs0, o0, fs, o, l, i, size, off, last) && Inv(fs, o, Nothing()) && Spread(fs.g, o0) && off <= size < last
    && lo == off / BSIZE && hi == CeilBlocks(last) && lo <= c <= hi <= MAXFILE && Full(fs0, i, c) && Full(fs, i, hi)
  }

  lemma DataLogged(fs0: Fs, o0: map<nat, Slot>, fs: Fs, o: map<nat, Slot>, l: set<nat>, i: nat, size: nat, off: nat,
                   last: nat, c: nat, lo: nat, hi: nat) returns (data: set<nat>)
    requires Extends(fs0, o0, fs, o, l, i, size, off, last, c, lo, hi)
    ensures data <= l && |data| == hi - lo + One(NewIndirect(fs0, fs, i)) &&
            forall b :: b in data ==> fs.g.datastart <= b
  {
    var ind, touched, d := NewInd(fs0, fs, i), Data(fs, i, lo, hi), hi - lo;
    FullSlots(fs, i, lo, hi);
    Touches(fs0, o0, fs, o, l, i, size, off, last, lo, hi, touched);
    WithInd(fs0, o0, fs, o, l, i, size, off, last, touched, ind, d);
    data := touched + ind;
  }

  lemma MapsLogged(fs0: Fs, o0: map<nat, Slot>, fs: Fs, o: map<nat, Slot>, l: set<nat>, i: nat, size: nat, off: nat,
                   last: nat, c: nat, lo: nat, hi: nat) returns (maps: set<nat>)
    requires Extends(fs0, o0, fs, o, l, i, size, off, last, c, lo, hi)
    ensures maps <= l && |maps| == hi - c + One(NewIndirect(fs0, fs, i))
    ensures forall b :: b in maps ==> fs.g.bmapstart <= b < fs.g.datastart
  {
    var n := Data(fs, i, c, hi) + NewInd(fs0, fs, i);
    FullSlots(fs, i, c, hi);
    NewBlocks(fs0, o0, fs, o, l, i, size, off, last, c, hi, n);
    MapsFresh(fs.g, o0, l, n);
    maps := MapsOf(fs.g, n);
  }

  /** Every block that the write touches, allocates or marks is logged, and these are all different. */
  lemma LogsAtLeast(fs0: Fs, o0: map<nat, Slot>, fs: Fs, o: map<nat, Slot>, l: set<nat>, i: nat, size: nat, off: nat,
                    last: nat, c: nat, lo: nat, hi: nat, x: nat)
    requires Extends(fs0, o0, fs, o, l, i, size, off, last, c, lo, hi) && x == IBlock(fs.g, i) && x < fs.g.bmapstart
    ensures |l| >= hi - lo + hi - c + 2 * One(NewIndirect(fs0, fs, i)) + 1
  {
    var data := DataLogged(fs0, o0, fs, o, l, i, size, off, last, c, lo, hi);
    var maps := MapsLogged(fs0, o0, fs, o, l, i, size, off, last, c, lo, hi);
    Disjoint(fs.g, data, maps, x, l, |data|, |maps|);
  }

  lemma MapsFresh(g: Geometry, o0: map<nat, Slot>, l: set<nat>, n: set<nat>)
    requires GeometryOk(g) && Spread(g, o0) && forall b :: b in n ==> Fresh(g, o0, l, b)
    ensures MapsOf(g, n) <= l && |MapsOf(g, n)| == |n| &&
            forall b :: b in MapsOf(g, n) ==> g.bmapstart <= b < g.datastart
  {
    forall x, y | x in n && y in n && x < y ensures BitmapBlock(g, x) != BitmapBlock(g, y) {
      assert Fresh(g, o0, l, x) && Fresh(g, o0, l, y);
    }
    MapsSize(g, n);
    forall b | b in n ensures g.bmapstart <= BitmapBlock(g, b) < g.datastart {
      assert Fresh(g, o0, l, b);
      BitmapBelowData(g, b);
    }
  }

  // ------------------------------------------------ writes that log as much as they can

  lemma DiskSpread(c: nat, g: Geometry, o: map<nat, Slot>)
    requires c <= NDIRECT && g == Plan(c) && o == Owners(c)
    ensures Spread(g, o)
  {
    forall x, y | g.datastart <= x < y < g.size && x !in o && y !in o ensures BitmapBlock(g, x) != BitmapBlock(g, y) {
      HolesApart(c, x, y);
    }
  }

  /** What an append from `size` to `last` bytes logs when no two free blocks share a bitmap block. */
  function AppendCount(size: nat, last: nat): int {
    var c, hi := CeilBlocks(size), CeilBlocks(last);
    hi - size / BSIZE + hi - c + 2 * One(c <= NDIRECT < hi) + 1
  }

  lemma AppendNeeds(size: nat, last: nat)
    requires size < last <= MAXFILE * BSIZE
    ensures Needed(size, last) <= SPOTS && size / BSIZE <= CeilBlocks(size) <= CeilBlocks(last) <= MAXFILE
  {
  }

  lemma AppendLogs(fs0: Fs, o0: map<nat, Slot>, fs: Fs, o: map<nat, Slot>, l: set<nat>, i: nat, size: nat, last: nat)
    requires Sound(fs0, o0) && i in fs0.inodes && fs0.inodes[i].size == size && Spread(fs0.g, o0) &&
             size < last <= MAXFILE * BSIZE
    requires Spent(fs0, o0, fs, o, l, i, size, size, last) && Sound(fs, o) && fs.inodes[i].size == last
    ensures |l| >= AppendCount(size, last)
  {
    var c, lo, hi, x := CeilBlocks(size), size / BSIZE, CeilBlocks(last), IBlock(fs.g, i);
    AppendNeeds(size, last);
    assert Synced(fs0, i);
    LogsAtLeast(fs0, o0, fs, o, l, i, size, size, last, c, lo, hi, x);
    assert NewIndirect(fs0, fs, i) <==> c <= NDIRECT < hi;
  }

  /** Append src to file 1 of the spread disk. */
  method Append(size: nat, src: seq<byte>, ghost last: nat) returns (fs: F.FileSystem, r: F.WriteResult)
    requires src != [] && size <= NDIRECT * BSIZE && last == size + |src| && last <= MAXFILE * BSIZE
    ensures r == F.Wrote(|src|) && |fs.logged| >= AppendCount(size, last)
    ensures LogSpace.Within({}, fs.logged, size, size, |src|)
  {
    var c := CeilBlocks(size);
    var disk := Disk(c, size);
    ghost var o := Owners(c);
    DiskReady(c, size, disk, o, last);
    fs := new F.FileSystem(disk, o);
    r := fs.WriteI(1, size, src, last);
    Appended(disk, o, fs.Now(), fs.owner, 1, size, src, last);
    AppendLogs(disk, o, fs.Now(), fs.owner, fs.logged, 1, size, last);
  }

  lemma DiskReady(c: nat, size: nat, disk: Fs, o: map<nat, Slot>, last: nat)
    requires size <= NDIRECT * BSIZE && c == CeilBlocks(size) && disk == Disk(c, size) && o == Owners(c)
    requires size < last <= MAXFILE * BSIZE
    ensures Sound(disk, o) && Spread(disk.g, o) && RoomFor(disk.g, o, size, last)
    ensures 1 in disk.inodes && disk.inodes[1].size == size
  {
    DiskSound(c, size, disk, o);
    DiskSpread(c, disk.g, o);
    FreeBlocks(c, o, SPOTS);
    AppendNeeds(size, last);
  }

  lemma Appended(fs0: Fs, o0: map<nat, Slot>, fs: Fs, o: map<nat, Slot>, i: nat, size: nat, src: seq<byte>, last: nat)
    requires WriteMade(fs0, fs, o, i, size, src) && fs0.inodes[i].size == size && last == size + |src|
    ensures Sound(fs, o) && i in fs.inodes && fs.inodes[i].size == last
  {
    assert |Content(fs, i)| == fs.inodes[i].size;
  }

  /** The bound of ten is reached: a chunk of 1536 bytes at an unaligned offset, just before the indirect blocks. */
  method TenLogged(src: seq<byte>) returns (fs: F.FileSystem, r: F.WriteResult)
    requires |src| == CHUNK
    ensures r == F.Wrote(CHUNK) && |fs.logged| == MAXOPBLOCKS
  {
    var size := 11 * BSIZE + 1;
    ghost var last := size + CHUNK;
    fs, r := Append(size, src, last);
    ChunkReserved({}, fs.logged, size, size, CHUNK);
  }

  /** No larger chunk would do: for every larger size some write logs more than ten blocks. */
  method MoreThanTen(src: seq<byte>) returns (fs: F.FileSystem, r: F.WriteResult)
    requires CHUNK < |src| <= MAXFILE * BSIZE
    ensures r == F.Wrote(|src|) && |fs.logged| > MAXOPBLOCKS
  {
    var n := |src|;
    var size := if n <= (MAXFILE - 11) * BSIZE then 11 * BSIZE else 0;
    ghost var last := size + n;
    LargeAppends(n, size, last);
    fs, r := Append(size, src, last);
  }

  lemma LargeAppends(n: nat, size: nat, last: nat)
    requires CHUNK < n <= MAXFILE * BSIZE && size == (if n <= (MAXFILE - 11) * BSIZE then 11 * BSIZE else 0) &&
             last == size + n
    ensures AppendCount(size, last) > MAXOPBLOCKS && last <= MAXFILE * BSIZE
  {
  }
}
